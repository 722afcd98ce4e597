/** `sortedBy` and `sortedByDescending` on product lists: Kotlin sorts a
    copy of the list with a stable merge sort, so products with equal keys
    keep their relative order. Modelled as an insertion sort over a key. */
module ProductSort {
  import opened Products

  /** The product field a sort compares. */
  datatype SortKey = Rate | Price

  datatype Direction = Ascending | Descending

  function KeyOf(p: ProductModel, key: SortKey): real {
    match key
    case Rate => p.rating.rate
    case Price => p.price
  }

  /** Key `a` may come before key `b`. */
  predicate InOrder(a: real, b: real, dir: Direction) {
    match dir
    case Ascending => a <= b
    case Descending => a >= b
  }

  predicate SortedBy(s: seq<ProductModel>, key: SortKey, dir: Direction) {
    forall i, j :: 0 <= i < j < |s| ==> InOrder(KeyOf(s[i], key), KeyOf(s[j], key), dir)
  }

  /** The products of `s` whose key is `v`, in their order in `s`. */
  function WithKey(s: seq<ProductModel>, key: SortKey, v: real): (r: seq<ProductModel>)
    ensures forall p :: p in r <==> p in s && KeyOf(p, key) == v
  {
    if s == [] then []
    else if KeyOf(s[0], key) == v then [s[0]] + WithKey(s[1..], key, v)
    else WithKey(s[1..], key, v)
  }

  /** Puts `p` in front of the first product it may precede, that is,
      before every product with an equal key. */
  function Insert(p: ProductModel, s: seq<ProductModel>, key: SortKey, dir: Direction): (r: seq<ProductModel>)
    ensures multiset(r) == multiset(s) + multiset{p}
    decreases |s|
  {
    if s == [] then [p]
    else if InOrder(KeyOf(p, key), KeyOf(s[0], key), dir) then [p] + s
    else
      assert s == [s[0]] + s[1..];
      [s[0]] + Insert(p, s[1..], key, dir)
  }

  /** Inserting into a sorted list keeps it sorted. */
  lemma {:induction false} InsertSorted(p: ProductModel, s: seq<ProductModel>, key: SortKey, dir: Direction)
    requires SortedBy(s, key, dir)
    ensures SortedBy(Insert(p, s, key, dir), key, dir)
    decreases |s|
  {
    if s != [] && !InOrder(KeyOf(p, key), KeyOf(s[0], key), dir) {
      SortedTail(s, key, dir);
      InsertSorted(p, s[1..], key, dir);
      var rest := Insert(p, s[1..], key, dir);
      assert s == [s[0]] + s[1..];
      forall j | 1 <= j < |[s[0]] + rest|
        ensures InOrder(KeyOf(s[0], key), KeyOf(([s[0]] + rest)[j], key), dir)
      {
        var q := ([s[0]] + rest)[j];
        assert q in multiset(rest);
        if q != p {
          assert q in s[1..];
        }
      }
    }
  }

  /** The list sorted by `key` in direction `dir`. */
  function SortBy(s: seq<ProductModel>, key: SortKey, dir: Direction): (r: seq<ProductModel>)
    ensures multiset(r) == multiset(s)
    ensures SortedBy(r, key, dir)
    decreases |s|
  {
    if s == [] then []
    else
      assert s == [s[0]] + s[1..];
      var sortedTail := SortBy(s[1..], key, dir);
      InsertSorted(s[0], sortedTail, key, dir);
      Insert(s[0], sortedTail, key, dir)
  }

  lemma SortedTail(s: seq<ProductModel>, key: SortKey, dir: Direction)
    requires s != [] && SortedBy(s, key, dir)
    ensures SortedBy(s[1..], key, dir)
  {
    forall i, j | 0 <= i < j < |s[1..]|
      ensures InOrder(KeyOf(s[1..][i], key), KeyOf(s[1..][j], key), dir)
    {
      assert s[1..][i] == s[i + 1] && s[1..][j] == s[j + 1];
    }
  }

  /** Inserting `p` leaves the order among the products that share a key
      as it was, with `p` first among those that share its key. */
  lemma {:induction false} InsertStable(p: ProductModel, s: seq<ProductModel>, key: SortKey, dir: Direction, v: real)
    requires SortedBy(s, key, dir)
    ensures WithKey(Insert(p, s, key, dir), key, v)
         == (if KeyOf(p, key) == v then [p] else []) + WithKey(s, key, v)
    decreases |s|
  {
    if s == [] {
    } else if InOrder(KeyOf(p, key), KeyOf(s[0], key), dir) {
      assert ([p] + s)[1..] == s;
    } else {
      var rest := Insert(p, s[1..], key, dir);
      assert Insert(p, s, key, dir) == [s[0]] + rest;
      assert ([s[0]] + rest)[1..] == rest;
      SortedTail(s, key, dir);
      InsertStable(p, s[1..], key, dir, v);
      if KeyOf(p, key) == v {
        assert KeyOf(s[0], key) != v;
      }
    }
  }

  /** The sort is stable: the products with any one key appear in the
      order they had before sorting. */
  lemma {:induction false} SortStable(s: seq<ProductModel>, key: SortKey, dir: Direction, v: real)
    ensures WithKey(SortBy(s, key, dir), key, v) == WithKey(s, key, v)
    decreases |s|
  {
    if s != [] {
      SortStable(s[1..], key, dir, v);
      InsertStable(s[0], SortBy(s[1..], key, dir), key, dir, v);
    }
  }
}
