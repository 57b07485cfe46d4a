/** Total orders and sorting. Every `sorted(...)` of the program is an insertion
    sort here; what matters about it is that its result is determined by the
    elements alone, which SortedUnique and SortPermutation state. */
module Orders {

  ghost predicate TotalPreorder<T(!new)>(le: (T, T) -> bool) {
    && (forall x, y :: le(x, y) || le(y, x))
    && (forall x, y, z :: le(x, y) && le(y, z) ==> le(x, z))
  }

  ghost predicate TotalOrder<T(!new)>(le: (T, T) -> bool) {
    TotalPreorder(le) && forall x, y :: le(x, y) && le(y, x) ==> x == y
  }

  predicate Sorted<T>(s: seq<T>, le: (T, T) -> bool) {
    forall i, j :: 0 <= i < j < |s| ==> le(s[i], s[j])
  }

  predicate Distinct<T(==)>(s: seq<T>) {
    forall i, j :: 0 <= i < j < |s| ==> s[i] != s[j]
  }

  function Elements<T>(s: seq<T>): set<T> {
    set x | x in s
  }

  function Insert<T>(x: T, s: seq<T>, le: (T, T) -> bool): seq<T> {
    if s == [] || le(x, s[0]) then [x] + s else [s[0]] + Insert(x, s[1..], le)
  }

  function Sort<T>(s: seq<T>, le: (T, T) -> bool): seq<T> {
    if s == [] then [] else Insert(s[0], Sort(s[1..], le), le)
  }

  lemma {:induction false} InsertContents<T>(x: T, s: seq<T>, le: (T, T) -> bool)
    ensures multiset(Insert(x, s, le)) == multiset(s) + multiset{x}
    ensures |Insert(x, s, le)| == |s| + 1
  {
    if s != [] && !le(x, s[0]) {
      InsertContents(x, s[1..], le);
      assert s == [s[0]] + s[1..];
    }
  }

  lemma {:induction false} InsertSorted<T(!new)>(x: T, s: seq<T>, le: (T, T) -> bool)
    requires TotalPreorder(le) && Sorted(s, le)
    ensures Sorted(Insert(x, s, le), le)
  {
    if s != [] && !le(x, s[0]) {
      InsertSorted(x, s[1..], le);
      InsertContents(x, s[1..], le);
      var rest := Insert(x, s[1..], le);
      forall j | 0 <= j < |rest| ensures le(s[0], rest[j]) {
        assert rest[j] in multiset(rest);
        assert rest[j] == x || rest[j] in s[1..];
      }
    } else if s != [] {
      assert forall j :: 0 <= j < |s| ==> le(x, s[j]) by {
        forall j | 0 <= j < |s| ensures le(x, s[j]) {
          assert le(s[0], s[j]);
        }
      }
    }
  }

  /** Sorting rearranges and orders. */
  lemma {:induction false} SortCorrect<T(!new)>(s: seq<T>, le: (T, T) -> bool)
    requires TotalPreorder(le)
    ensures multiset(Sort(s, le)) == multiset(s)
    ensures Sorted(Sort(s, le), le)
    ensures |Sort(s, le)| == |s|
  {
    if s != [] {
      SortCorrect(s[1..], le);
      InsertContents(s[0], Sort(s[1..], le), le);
      InsertSorted(s[0], Sort(s[1..], le), le);
      assert s == [s[0]] + s[1..];
    }
  }

  /** le never ties two different elements of the pool. */
  ghost predicate NoTies<T>(pool: set<T>, le: (T, T) -> bool) {
    forall x, y :: x in pool && y in pool && le(x, y) && le(y, x) ==> x == y
  }

  lemma SortedHeads<T(!new)>(a: seq<T>, b: seq<T>, pool: set<T>, le: (T, T) -> bool)
    requires TotalPreorder(le) && NoTies(pool, le)
    requires Sorted(a, le) && Sorted(b, le) && multiset(a) == multiset(b)
    requires a != [] && b != [] && forall x :: x in a ==> x in pool
    ensures a[0] == b[0]
  {
    assert a[0] in multiset(b) && b[0] in multiset(a);
    var i :| 0 <= i < |b| && b[i] == a[0];
    var j :| 0 <= j < |a| && a[j] == b[0];
    assert le(b[0], b[i]) && le(a[0], a[j]);
  }

  lemma SameRest<T>(a: seq<T>, b: seq<T>)
    requires a != [] && b != [] && a[0] == b[0] && multiset(a) == multiset(b)
    ensures multiset(a[1..]) == multiset(b[1..])
  {
    assert a == [a[0]] + a[1..] && b == [b[0]] + b[1..];
    assert multiset(a[1..]) == multiset(a) - multiset{a[0]};
    assert multiset(b[1..]) == multiset(b) - multiset{b[0]};
  }

  lemma SameLength<T>(a: seq<T>, b: seq<T>)
    requires multiset(a) == multiset(b)
    ensures |a| == |b|
  {
    assert |multiset(a)| == |a| && |multiset(b)| == |b|;
  }

  /** Two sorted arrangements of the same elements, none of which tie, are the same sequence. */
  lemma {:induction false} SortedUniqueUpTo<T(!new)>(a: seq<T>, b: seq<T>, pool: set<T>, le: (T, T) -> bool)
    requires TotalPreorder(le) && NoTies(pool, le)
    requires Sorted(a, le) && Sorted(b, le) && multiset(a) == multiset(b)
    requires forall x :: x in a ==> x in pool
    ensures a == b
  {
    SameLength(a, b);
    if a != [] {
      SortedHeads(a, b, pool, le);
      SameRest(a, b);
      SortedUniqueUpTo(a[1..], b[1..], pool, le);
      assert a == [a[0]] + a[1..] && b == [b[0]] + b[1..];
    }
  }

  lemma SortedUnique<T(!new)>(a: seq<T>, b: seq<T>, le: (T, T) -> bool)
    requires TotalOrder(le)
    requires Sorted(a, le) && Sorted(b, le)
    requires multiset(a) == multiset(b)
    ensures a == b
  {
    SortedUniqueUpTo(a, b, Elements(a), le);
  }

  /** The answer of a sort does not depend on the order of its input. */
  lemma SortPermutation<T(!new)>(a: seq<T>, b: seq<T>, le: (T, T) -> bool)
    requires TotalOrder(le)
    requires multiset(a) == multiset(b)
    ensures Sort(a, le) == Sort(b, le)
  {
    SortCorrect(a, le);
    SortCorrect(b, le);
    SortedUnique(Sort(a, le), Sort(b, le), le);
  }

  lemma {:induction false} DistinctMultiset<T>(s: seq<T>)
    requires Distinct(s)
    ensures multiset(s) == multiset(Elements(s))
    ensures |s| == |Elements(s)|
  {
    if s != [] {
      var rest := s[1..];
      DistinctMultiset(rest);
      assert s == [s[0]] + rest;
      assert s[0] !in rest;
      assert Elements(s) == Elements(rest) + {s[0]};
      assert multiset(Elements(s)) == multiset(Elements(rest)) + multiset{s[0]};
    }
  }

  lemma MultisetDistinct<T>(s: seq<T>)
    requires multiset(s) == multiset(Elements(s))
    ensures Distinct(s)
  {
    forall i, j | 0 <= i < j < |s| ensures s[i] != s[j] {
      assert s == s[..i] + [s[i]] + s[i + 1..j] + [s[j]] + s[j + 1..];
      assert multiset(Elements(s))[s[i]] == 1;
    }
  }

  /** Sorting a listing without repeats keeps it without repeats and keeps its set. */
  lemma SortDistinct<T(!new)>(s: seq<T>, le: (T, T) -> bool)
    requires TotalOrder(le) && Distinct(s)
    ensures Distinct(Sort(s, le)) && Elements(Sort(s, le)) == Elements(s)
    ensures Sorted(Sort(s, le), le) && |Sort(s, le)| == |s|
  {
    var t := Sort(s, le);
    SortCorrect(s, le);
    DistinctMultiset(s);
    assert forall x :: x in t <==> x in multiset(t);
    assert forall x :: x in s <==> x in multiset(s);
    assert Elements(t) == Elements(s);
    MultisetDistinct(t);
  }

  /** A set has one sorted listing. */
  lemma ListingUnique<T(!new)>(a: seq<T>, b: seq<T>, le: (T, T) -> bool)
    requires TotalOrder(le)
    requires Sorted(a, le) && Sorted(b, le) && Distinct(a) && Distinct(b)
    requires Elements(a) == Elements(b)
    ensures a == b
  {
    DistinctMultiset(a);
    DistinctMultiset(b);
    SortedUnique(a, b, le);
  }

  // -- strings, compared character by character, a prefix first --

  predicate StrLe(a: string, b: string) {
    if a == [] then true
    else if b == [] then false
    else if a[0] != b[0] then a[0] < b[0]
    else StrLe(a[1..], b[1..])
  }

  lemma {:induction false} StrTotal(a: string, b: string)
    ensures StrLe(a, b) || StrLe(b, a)
  {
    if a != [] && b != [] {
      StrTotal(a[1..], b[1..]);
    }
  }

  lemma {:induction false} StrAntisymmetric(a: string, b: string)
    requires StrLe(a, b) && StrLe(b, a)
    ensures a == b
  {
    if a != [] && b != [] {
      StrAntisymmetric(a[1..], b[1..]);
      assert a == [a[0]] + a[1..] && b == [b[0]] + b[1..];
    }
  }

  lemma {:induction false} StrTransitive(a: string, b: string, c: string)
    requires StrLe(a, b) && StrLe(b, c)
    ensures StrLe(a, c)
  {
    if a != [] && b != [] && c != [] && a[0] == b[0] == c[0] {
      StrTransitive(a[1..], b[1..], c[1..]);
    }
  }

  lemma StrOrder()
    ensures TotalOrder(StrLe)
  {
    forall a, b ensures StrLe(a, b) || StrLe(b, a) { StrTotal(a, b); }
    forall a, b | StrLe(a, b) && StrLe(b, a) ensures a == b { StrAntisymmetric(a, b); }
    forall a, b, c | StrLe(a, b) && StrLe(b, c) ensures StrLe(a, c) { StrTransitive(a, b, c); }
  }

  /** The sorted listing of a set. */
  ghost function ListingBy<T(!new)>(s: set<T>, le: (T, T) -> bool): (l: seq<T>)
    requires TotalOrder(le)
    ensures Sorted(l, le) && Distinct(l) && Elements(l) == s
    decreases |s|
  {
    if s == {} then []
    else
      var x :| x in s;
      var rest := ListingBy(s - {x}, le);
      InsertSorted(x, rest, le);
      InsertDistinct(x, rest, le);
      Insert(x, rest, le)
  }

  /** The sorted listing of a set of strings. */
  ghost function Listing(s: set<string>): (l: seq<string>)
    ensures Sorted(l, StrLe) && Distinct(l) && Elements(l) == s
  {
    StrOrder();
    ListingBy(s, StrLe)
  }

  lemma InsertDistinct<T(!new)>(x: T, s: seq<T>, le: (T, T) -> bool)
    requires Distinct(s) && x !in s
    ensures Distinct(Insert(x, s, le)) && Elements(Insert(x, s, le)) == Elements(s) + {x}
  {
    var t := Insert(x, s, le);
    InsertContents(x, s, le);
    DistinctMultiset(s);
    assert forall y :: y in t <==> y in multiset(t);
    assert forall y :: y in s <==> y in multiset(s);
    assert Elements(t) == Elements(s) + {x};
    assert multiset(Elements(t)) == multiset(Elements(s)) + multiset{x};
    MultisetDistinct(t);
  }

  /** sorted(...) on a set. */
  method SortedBy<T(==, !new)>(s: set<T>, le: (T, T) -> bool) returns (l: seq<T>)
    requires TotalOrder(le)
    ensures l == ListingBy(s, le)
  {
    l := [];
    var rest := s;
    while rest != {}
      invariant rest <= s && Sorted(l, le) && Distinct(l) && Elements(l) == s - rest
      decreases rest
    {
      var x :| x in rest;
      assert x !in Elements(l);
      InsertSorted(x, l, le);
      InsertDistinct(x, l, le);
      l := Insert(x, l, le);
      rest := rest - {x};
    }
    ListingUnique(l, ListingBy(s, le), le);
  }

  method SortedOf(s: set<string>) returns (l: seq<string>)
    ensures l == Listing(s)
  {
    StrOrder();
    l := SortedBy(s, StrLe);
  }

  /** Pairs, compared by their first component and then by their second. */
  predicate PairLe(a: (string, string), b: (string, string)) {
    if a.0 != b.0 then StrLe(a.0, b.0) else StrLe(a.1, b.1)
  }

  lemma PairOrder()
    ensures TotalOrder(PairLe)
  {
    StrOrder();
  }

  // -- sets ---------------------------------------------------------------------

  lemma SubsetSize<T>(a: set<T>, b: set<T>)
    requires a <= b
    ensures |a| <= |b|
  {
    assert b == a + (b - a);
  }
}
