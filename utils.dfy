/** The two string extensions of `DukkanDostUtils` used to format product
    text. */
module DukkanDostUtils {
  import opened Text

  /** `capitalizeFirstLetter`: the upper case of the first character, then
      the rest of the string unchanged. */
  function CapitalizeFirstLetter(s: string): (r: string)
    ensures s == [] ==> r == []
    ensures s != [] ==> r == UppercaseChar(s[0]) + s[1..]
    ensures |r| >= |s|
  {
    if |s| == 0 then s else Uppercase(s[..1]) + s[1..]
  }

  /** Everything after the first character comes through unchanged, at the
      end of the result. */
  lemma CapitalizeKeepsTail(s: string)
    requires s != []
    ensures var r := CapitalizeFirstLetter(s);
      |r| >= |s| && r[|r| - (|s| - 1)..] == s[1..]
  {
  }

  /** A string that starts with an upper-case or caseless character is
      already capitalised. */
  lemma CapitalizeFixedHead(s: string)
    requires s != [] && IsUppercaseFixed(s[0])
    ensures CapitalizeFirstLetter(s) == s
  {
    assert s == [s[0]] + s[1..];
  }

  /** Capitalising twice is capitalising once. */
  lemma {:induction false} CapitalizeIdempotent(s: string)
    ensures CapitalizeFirstLetter(CapitalizeFirstLetter(s)) == CapitalizeFirstLetter(s)
  {
    if s != [] {
      var r := CapitalizeFirstLetter(s);
      UppercaseHeadIsFixed(s[0]);
      CapitalizeFixedHead(r);
    }
  }

  /** Upper case can lengthen a string: "ßa" capitalises to "SSa". */
  lemma CapitalizeCanLengthen()
    ensures CapitalizeFirstLetter("ßa") == "SSa"
  {
  }

  /** `appendCurrencyCode`: a dollar sign in front of the amount. */
  function AppendCurrencyCode(s: string): (r: string)
    ensures |r| == |s| + 1
    ensures r[0] == '$' && r[1..] == s
  {
    "$" + s
  }

  /** Dropping the currency sign gives the amount back, and no two amounts
      format the same. */
  lemma AppendCurrencyCodeInjective(a: string, b: string)
    requires AppendCurrencyCode(a) == AppendCurrencyCode(b)
    ensures a == b
  {
  }
}
