/** The list operations of the Kotlin standard library that the product
    list reconciliation relies on: `filter`, the insertion-ordered set built
    by `toMutableSet`, and `intersect`. */
module Lists {

  /** `r` can be obtained from `s` by deleting elements. */
  predicate IsSubsequence<T(==)>(r: seq<T>, s: seq<T>)
    decreases |s|
  {
    r == [] ||
    (s != [] && ((r[0] == s[0] && IsSubsequence(r[1..], s[1..])) || IsSubsequence(r, s[1..])))
  }

  /** No element occurs twice. */
  predicate NoDuplicates<T(==)>(s: seq<T>) {
    forall i, j :: 0 <= i < j < |s| ==> s[i] != s[j]
  }

  /** The position of the first occurrence of `x` in `s`. */
  function FirstIndex<T(==)>(s: seq<T>, x: T): (k: nat)
    requires x in s
    ensures k < |s| && s[k] == x && x !in s[..k]
  {
    if s[0] == x then 0 else 1 + FirstIndex(s[1..], x)
  }

  lemma {:induction false} SubsequenceMembers<T>(r: seq<T>, s: seq<T>)
    requires IsSubsequence(r, s)
    ensures forall x :: x in r ==> x in s
    decreases |s|
  {
    if r != [] {
      if r[0] == s[0] && IsSubsequence(r[1..], s[1..]) {
        SubsequenceMembers(r[1..], s[1..]);
        assert r == [r[0]] + r[1..];
      } else {
        SubsequenceMembers(r, s[1..]);
      }
    }
  }

  lemma {:induction false} SubsequenceReflexive<T>(s: seq<T>)
    ensures IsSubsequence(s, s)
    decreases |s|
  {
    if s != [] {
      SubsequenceReflexive(s[1..]);
    }
  }

  lemma {:induction false} SubsequenceTransitive<T>(a: seq<T>, b: seq<T>, c: seq<T>)
    requires IsSubsequence(a, b) && IsSubsequence(b, c)
    ensures IsSubsequence(a, c)
    decreases |c|
  {
    if a != [] {
      if IsSubsequence(b, c[1..]) {
        SubsequenceTransitive(a, b, c[1..]);
      } else if a[0] == b[0] && IsSubsequence(a[1..], b[1..]) {
        SubsequenceTransitive(a[1..], b[1..], c[1..]);
      } else {
        SubsequenceTransitive(a, b[1..], c[1..]);
      }
    }
  }

  lemma {:induction false} SubsequenceOfDistinct<T>(r: seq<T>, s: seq<T>)
    requires IsSubsequence(r, s) && NoDuplicates(s)
    ensures NoDuplicates(r)
    decreases |s|
  {
    if r != [] {
      assert NoDuplicates(s[1..]) by {
        forall i, j | 0 <= i < j < |s[1..]| ensures s[1..][i] != s[1..][j] {
          assert s[1..][i] == s[i + 1] && s[1..][j] == s[j + 1];
        }
      }
      if r[0] == s[0] && IsSubsequence(r[1..], s[1..]) {
        SubsequenceOfDistinct(r[1..], s[1..]);
        SubsequenceMembers(r[1..], s[1..]);
        assert s[0] !in s[1..];
        forall i, j | 0 <= i < j < |r| ensures r[i] != r[j] {
          assert r[j] == r[1..][j - 1];
          if i > 0 {
            assert r[i] == r[1..][i - 1];
          }
        }
      } else {
        SubsequenceOfDistinct(r, s[1..]);
      }
    }
  }

  /** `filter`: the elements of `s` that `keep` accepts, in their order. */
  function Filter<T(==,!new)>(s: seq<T>, keep: T -> bool): (r: seq<T>)
    ensures |r| <= |s|
    ensures IsSubsequence(r, s)
    ensures forall x :: x in r <==> x in s && keep(x)
    decreases |s|
  {
    if s == [] then []
    else
      var rest := Filter(s[1..], keep);
      assert s == [s[0]] + s[1..];
      if keep(s[0]) then [s[0]] + rest else rest
  }

  /** Filtering keeps every occurrence of an accepted element and none of
      a rejected one. */
  lemma {:induction false} FilterCount<T(!new)>(s: seq<T>, keep: T -> bool, x: T)
    ensures multiset(Filter(s, keep))[x] == if keep(x) then multiset(s)[x] else 0
    decreases |s|
  {
    if s != [] {
      FilterCount(s[1..], keep, x);
      FilterUnfold(s, keep);
      assert s == [s[0]] + s[1..];
    }
  }

  /** `keep` accepts no element of `s`, so nothing is left. */
  lemma {:induction false} FilterNone<T(!new)>(s: seq<T>, keep: T -> bool)
    requires forall x :: x in s ==> !keep(x)
    ensures Filter(s, keep) == []
    decreases |s|
  {
    if s != [] {
      FilterNone(s[1..], keep);
    }
  }

  /** `keep` accepts every element of `s`, so filtering changes nothing. */
  lemma {:induction false} FilterAll<T(!new)>(s: seq<T>, keep: T -> bool)
    requires forall x :: x in s ==> keep(x)
    ensures Filter(s, keep) == s
    decreases |s|
  {
    if s != [] {
      FilterAll(s[1..], keep);
      assert s == [s[0]] + s[1..];
    }
  }

  /** Filtering keeps the elements of `s` that `keep` accepts, at the head
      of the list as much as in the rest. */
  lemma FilterCons<T(!new)>(x: T, s: seq<T>, keep: T -> bool)
    ensures Filter([x] + s, keep) == (if keep(x) then [x] else []) + Filter(s, keep)
  {
    assert ([x] + s)[1..] == s;
  }

  lemma FilterUnfold<T(!new)>(s: seq<T>, keep: T -> bool)
    requires s != []
    ensures Filter(s, keep) == (if keep(s[0]) then [s[0]] else []) + Filter(s[1..], keep)
  {
  }

  /** `toMutableSet`: a LinkedHashSet filled with the elements of `s` in
      order, so the first occurrence of each element is kept and later
      ones are dropped. */
  function Distinct<T(==,!new)>(s: seq<T>): (r: seq<T>)
    ensures NoDuplicates(r)
    ensures forall x :: x in r <==> x in s
    ensures IsSubsequence(r, s)
    decreases |s|
  {
    if s == [] then []
    else
      var init := s[..|s| - 1];
      var d := Distinct(init);
      var last := s[|s| - 1];
      assert s == init + [last];
      SubsequenceSnoc(d, init, last);
      if last in d then d else d + [last]
  }

  lemma {:induction false} SubsequenceSnoc<T>(r: seq<T>, s: seq<T>, x: T)
    requires IsSubsequence(r, s)
    ensures IsSubsequence(r, s + [x])
    ensures IsSubsequence(r + [x], s + [x])
    decreases |s|
  {
    if s == [] {
      assert r == [];
      assert ([x] + [])[1..] == [];
    } else {
      assert (s + [x])[1..] == s[1..] + [x];
      if r == [] {
        SubsequenceSnoc(r, s[1..], x);
      } else if r[0] == s[0] && IsSubsequence(r[1..], s[1..]) {
        SubsequenceSnoc(r[1..], s[1..], x);
        assert (r + [x])[1..] == r[1..] + [x];
      } else {
        SubsequenceSnoc(r, s[1..], x);
      }
    }
  }

  /** Without duplicates, the insertion-ordered set is the list itself. */
  lemma {:induction false} DistinctOfDistinct<T(!new)>(s: seq<T>)
    requires NoDuplicates(s)
    ensures Distinct(s) == s
    decreases |s|
  {
    if s != [] {
      var init := s[..|s| - 1];
      assert NoDuplicates(init);
      DistinctOfDistinct(init);
      assert s == init + [s[|s| - 1]];
    }
  }

  /** The insertion-ordered set lists elements in the order of their first
      occurrence in `s`. */
  lemma {:induction false} DistinctFirstOccurrenceOrder<T(!new)>(s: seq<T>, i: nat, j: nat)
    requires i < j < |Distinct(s)|
    ensures FirstIndex(s, Distinct(s)[i]) < FirstIndex(s, Distinct(s)[j])
    decreases |s|
  {
    var init := s[..|s| - 1];
    var d := Distinct(init);
    var last := s[|s| - 1];
    assert s == init + [last];
    var x, y := Distinct(s)[i], Distinct(s)[j];
    assert x in d by {
      assert j < |Distinct(s)|;
    }
    FirstIndexPrefix(init, last, x);
    if j < |d| {
      assert Distinct(s)[i] == d[i] && Distinct(s)[j] == d[j];
      DistinctFirstOccurrenceOrder(init, i, j);
      FirstIndexPrefix(init, last, y);
    } else {
      assert last !in d && y == last && last !in init;
      FirstIndexLast(init, last);
    }
  }

  lemma {:induction false} FirstIndexPrefix<T>(s: seq<T>, x: T, y: T)
    requires y in s
    ensures y in s + [x] && FirstIndex(s + [x], y) == FirstIndex(s, y)
    decreases |s|
  {
    if s[0] != y {
      assert (s + [x])[1..] == s[1..] + [x];
      FirstIndexPrefix(s[1..], x, y);
    }
  }

  lemma {:induction false} FirstIndexLast<T>(s: seq<T>, x: T)
    requires x !in s
    ensures FirstIndex(s + [x], x) == |s|
    decreases |s|
  {
    if s != [] {
      assert (s + [x])[1..] == s[1..] + [x];
      FirstIndexLast(s[1..], x);
    }
  }

  /** Accepts the elements of `b`. */
  function InList<T(==)>(b: seq<T>): T -> bool {
    x => x in b
  }

  /** `a.intersect(b)`: the insertion-ordered set of `a` with everything not
      in `b` removed (`retainAll`). */
  function Intersect<T(==,!new)>(a: seq<T>, b: seq<T>): (r: seq<T>)
    ensures forall x :: x in r <==> x in a && x in b
    ensures NoDuplicates(r)
    ensures IsSubsequence(r, Distinct(a))
    ensures IsSubsequence(r, a)
  {
    var r := Filter(Distinct(a), InList(b));
    SubsequenceOfDistinct(r, Distinct(a));
    SubsequenceTransitive(r, Distinct(a), a);
    r
  }

  /** No element occurs twice exactly when every element occurs at most
      once. */
  lemma {:induction false} NoDuplicatesCount<T>(s: seq<T>)
    ensures NoDuplicates(s) <==> forall x :: multiset(s)[x] <= 1
    decreases |s|
  {
    if s != [] {
      NoDuplicatesCount(s[1..]);
      assert s == [s[0]] + s[1..];
      assert multiset(s) == multiset{s[0]} + multiset(s[1..]);
      if NoDuplicates(s) {
        assert NoDuplicates(s[1..]) by {
          forall i, j | 0 <= i < j < |s[1..]| ensures s[1..][i] != s[1..][j] {
            assert s[1..][i] == s[i + 1] && s[1..][j] == s[j + 1];
          }
        }
        assert s[0] !in s[1..] by {
          forall k | 0 <= k < |s[1..]| ensures s[1..][k] != s[0] {
            assert s[1..][k] == s[k + 1];
          }
        }
      } else {
        var i, j :| 0 <= i < j < |s| && s[i] == s[j];
        if i == 0 {
          assert s[j] == s[1..][j - 1];
          assert multiset(s)[s[0]] >= 2;
        } else {
          assert s[1..][i - 1] == s[1..][j - 1];
          assert !NoDuplicates(s[1..]);
          var x :| multiset(s[1..])[x] > 1;
          assert multiset(s)[x] > 1;
        }
      }
    }
  }

  /** A rearrangement of a list without duplicates has the same elements
      and no duplicates either. */
  lemma PermutationNoDuplicates<T>(a: seq<T>, b: seq<T>)
    requires multiset(a) == multiset(b) && NoDuplicates(a)
    ensures forall x :: x in b <==> x in a
    ensures NoDuplicates(b)
  {
    forall x ensures x in b <==> x in a {
      assert x in b <==> x in multiset(b);
      assert x in a <==> x in multiset(a);
    }
    NoDuplicatesCount(a);
    NoDuplicatesCount(b);
  }

  lemma {:induction false} FilterSnoc<T(!new)>(s: seq<T>, x: T, keep: T -> bool)
    ensures Filter(s + [x], keep) == Filter(s, keep) + (if keep(x) then [x] else [])
    decreases |s|
  {
    if s == [] {
      assert [] + [x] == [x];
      FilterCons(x, [], keep);
    } else {
      FilterSnoc(s[1..], x, keep);
      assert (s + [x])[0] == s[0];
      assert (s + [x])[1..] == s[1..] + [x];
      FilterUnfold(s + [x], keep);
      FilterUnfold(s, keep);
    }
  }

  /** Adding an element at the end of a list adds it at the end of the
      insertion-ordered set, unless it is there already. */
  lemma DistinctSnoc<T(!new)>(s: seq<T>, x: T)
    ensures Distinct(s + [x]) == if x in s then Distinct(s) else Distinct(s) + [x]
  {
    assert (s + [x])[..|s + [x]| - 1] == s;
  }

  /** Filtering and dropping repeated elements can be done in either
      order. */
  lemma {:induction false} DistinctOfFilter<T(!new)>(s: seq<T>, keep: T -> bool)
    ensures Distinct(Filter(s, keep)) == Filter(Distinct(s), keep)
    decreases |s|
  {
    if s != [] {
      var init, x := s[..|s| - 1], s[|s| - 1];
      assert s == init + [x];
      DistinctOfFilter(init, keep);
      DistinctOfFilterSnoc(init, x, keep);
    }
  }

  lemma DistinctOfFilterSnoc<T(!new)>(s: seq<T>, x: T, keep: T -> bool)
    requires Distinct(Filter(s, keep)) == Filter(Distinct(s), keep)
    ensures Distinct(Filter(s + [x], keep)) == Filter(Distinct(s + [x]), keep)
  {
    var fs := Filter(s, keep);
    var d := Distinct(s);
    FilterSnoc(s, x, keep);
    DistinctSnoc(s, x);
    if keep(x) {
      DistinctSnoc(fs, x);
      assert x in fs <==> x in s;
      if x !in s {
        FilterSnoc(d, x, keep);
      }
    } else {
      assert fs + [] == fs;
      if x !in s {
        FilterSnoc(d, x, keep);
        assert Filter(d, keep) + [] == Filter(d, keep);
      }
    }
  }

  /** A subsequence of a list without duplicates lists its elements in the
      order they have in that list. */
  lemma {:induction false} SubsequenceOrder<T>(r: seq<T>, d: seq<T>, i: nat, j: nat)
    requires IsSubsequence(r, d) && NoDuplicates(d) && i < j < |r|
    ensures r[i] in d && r[j] in d && FirstIndex(d, r[i]) < FirstIndex(d, r[j])
    decreases |d|
  {
    SubsequenceMembers(r, d);
    assert r[i] in r && r[j] in r;
    assert NoDuplicates(d[1..]) by {
      forall a, b | 0 <= a < b < |d[1..]| ensures d[1..][a] != d[1..][b] {
        assert d[1..][a] == d[a + 1] && d[1..][b] == d[b + 1];
      }
    }
    if r[0] == d[0] && IsSubsequence(r[1..], d[1..]) {
      SubsequenceMembers(r[1..], d[1..]);
      assert r[j] == r[1..][j - 1];
      assert r[j] in d[1..];
      FirstInTail(d, r[j]);
      if i > 0 {
        assert r[i] == r[1..][i - 1];
        FirstInTail(d, r[i]);
        SubsequenceOrder(r[1..], d[1..], i - 1, j - 1);
      }
    } else {
      SubsequenceMembers(r, d[1..]);
      FirstInTail(d, r[i]);
      FirstInTail(d, r[j]);
      SubsequenceOrder(r, d[1..], i, j);
    }
  }

  lemma FirstInTail<T>(d: seq<T>, x: T)
    requires NoDuplicates(d) && d != [] && x in d[1..]
    ensures x in d && x != d[0] && FirstIndex(d, x) == 1 + FirstIndex(d[1..], x)
  {
    var k :| 0 <= k < |d[1..]| && d[1..][k] == x;
    assert d[k + 1] == x;
  }

  /** The elements of a subsequence of `Distinct(s)` appear in the order of
      their first occurrence in `s`. */
  lemma SubsequenceOfDistinctOrder<T(!new)>(r: seq<T>, s: seq<T>, i: nat, j: nat)
    requires IsSubsequence(r, Distinct(s)) && i < j < |r|
    ensures r[i] in s && r[j] in s && FirstIndex(s, r[i]) < FirstIndex(s, r[j])
  {
    var d := Distinct(s);
    SubsequenceOrder(r, d, i, j);
    DistinctFirstOccurrenceOrder(s, FirstIndex(d, r[i]), FirstIndex(d, r[j]));
  }
}
