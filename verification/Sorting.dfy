/** Stable sorting by a key, as the language's own `sorted` does it. */
module Sorting {

  function Insert<T>(x: T, s: seq<T>, key: T -> int): seq<T> {
    if s == [] then [x]
    else if key(x) <= key(s[0]) then [x] + s
    else [s[0]] + Insert(x, s[1..], key)
  }

  /** Equal keys keep the order they came in. */
  function SortBy<T>(s: seq<T>, key: T -> int): seq<T> {
    if s == [] then [] else Insert(s[0], SortBy(s[1..], key), key)
  }

  predicate Ordered<T>(s: seq<T>, key: T -> int) {
    forall i, j :: 0 <= i < j < |s| ==> key(s[i]) <= key(s[j])
  }

  /** How often x occurs; two lists are permutations of each other when every count agrees. */
  function Occurs<T(==)>(s: seq<T>, x: T): nat {
    if s == [] then 0 else (if s[0] == x then 1 else 0) + Occurs(s[1..], x)
  }

  ghost predicate Permutes<T(!new)>(r: seq<T>, s: seq<T>) { forall x :: Occurs(r, x) == Occurs(s, x) }

  lemma {:induction false} OccursConcat<T>(a: seq<T>, b: seq<T>, x: T)
    ensures Occurs(a + b, x) == Occurs(a, x) + Occurs(b, x)
  {
    if a == [] {
      assert a + b == b;
    } else {
      OccursConcat(a[1..], b, x);
      assert (a + b)[1..] == a[1..] + b;
    }
  }

  lemma {:induction false} InsertOccurs<T>(v: T, s: seq<T>, key: T -> int, x: T)
    ensures Occurs(Insert(v, s, key), x) == Occurs(s, x) + if v == x then 1 else 0
  {
    if s != [] && key(v) > key(s[0]) {
      InsertOccurs(v, s[1..], key, x);
    }
  }

  lemma {:induction false} SortOccurs<T>(s: seq<T>, key: T -> int, x: T)
    ensures Occurs(SortBy(s, key), x) == Occurs(s, x)
  {
    if s != [] {
      SortOccurs(s[1..], key, x);
      InsertOccurs(s[0], SortBy(s[1..], key), key, x);
    }
  }

  lemma {:induction false} InsertKeepsAll<T>(x: T, s: seq<T>, key: T -> int)
    ensures multiset(Insert(x, s, key)) == multiset{x} + multiset(s)
    ensures |Insert(x, s, key)| == |s| + 1
    ensures forall y :: y in Insert(x, s, key) <==> y == x || y in s
  {
    if s != [] && key(x) > key(s[0]) {
      InsertKeepsAll(x, s[1..], key);
      assert s == [s[0]] + s[1..];
    }
  }

  lemma {:induction false} InsertKeepsOrder<T>(x: T, s: seq<T>, key: T -> int)
    requires Ordered(s, key)
    ensures Ordered(Insert(x, s, key), key)
  {
    if s != [] && key(x) > key(s[0]) {
      var rest := Insert(x, s[1..], key);
      InsertKeepsOrder(x, s[1..], key);
      InsertKeepsAll(x, s[1..], key);
      forall j | 0 <= j < |rest| ensures key(s[0]) <= key(rest[j]) {
        assert rest[j] in multiset(rest);
        if rest[j] != x {
          assert rest[j] in s[1..];
          var i :| 0 <= i < |s[1..]| && s[1..][i] == rest[j];
          assert key(s[0]) <= key(s[i + 1]);
        }
      }
    }
  }

  lemma {:induction false} SortKeepsAll<T>(s: seq<T>, key: T -> int)
    ensures multiset(SortBy(s, key)) == multiset(s) && |SortBy(s, key)| == |s|
    ensures forall y :: y in SortBy(s, key) <==> y in s
  {
    if s != [] {
      SortKeepsAll(s[1..], key);
      InsertKeepsAll(s[0], SortBy(s[1..], key), key);
      assert s == [s[0]] + s[1..];
    }
  }

  lemma {:induction false} SortOrders<T>(s: seq<T>, key: T -> int)
    ensures Ordered(SortBy(s, key), key)
  {
    if s != [] {
      SortOrders(s[1..], key);
      InsertKeepsOrder(s[0], SortBy(s[1..], key), key);
    }
  }

  /** An ordered list is left as it is. */
  lemma {:induction false} SortOfOrdered<T>(s: seq<T>, key: T -> int)
    requires Ordered(s, key)
    ensures SortBy(s, key) == s
  {
    if s != [] {
      SortOfOrdered(s[1..], key);
    }
  }

  predicate StrictlyOrdered<T>(s: seq<T>, key: T -> int) {
    forall i, j :: 0 <= i < j < |s| ==> key(s[i]) < key(s[j])
  }

  lemma {:induction false} InsertKeepsStrict<T>(x: T, s: seq<T>, key: T -> int)
    requires StrictlyOrdered(s, key) && forall i :: 0 <= i < |s| ==> key(s[i]) != key(x)
    ensures StrictlyOrdered(Insert(x, s, key), key)
  {
    if s != [] && key(x) > key(s[0]) {
      var rest := Insert(x, s[1..], key);
      InsertKeepsStrict(x, s[1..], key);
      InsertKeepsAll(x, s[1..], key);
      forall j | 0 <= j < |rest| ensures key(s[0]) < key(rest[j]) {
        assert rest[j] in multiset(rest);
        if rest[j] != x {
          var i :| 0 <= i < |s[1..]| && s[1..][i] == rest[j];
          assert key(s[0]) < key(s[i + 1]);
        }
      }
    }
  }

  predicate AllDistinct<T(==)>(s: seq<T>) { forall i, j :: 0 <= i < j < |s| ==> s[i] != s[j] }

  lemma {:induction false} InsertKeepsDistinct<T>(x: T, s: seq<T>, key: T -> int)
    requires AllDistinct(s) && forall i :: 0 <= i < |s| ==> s[i] != x
    ensures AllDistinct(Insert(x, s, key))
  {
    if s != [] && key(x) > key(s[0]) {
      var rest := Insert(x, s[1..], key);
      InsertKeepsDistinct(x, s[1..], key);
      InsertKeepsAll(x, s[1..], key);
      forall j | 0 <= j < |rest| ensures rest[j] != s[0] {
        assert rest[j] in multiset(rest);
        if rest[j] != x {
          var i :| 0 <= i < |s[1..]| && s[1..][i] == rest[j];
          assert s[i + 1] == rest[j];
        }
      }
    }
  }

  lemma {:induction false} SortKeepsDistinct<T>(s: seq<T>, key: T -> int)
    requires AllDistinct(s)
    ensures AllDistinct(SortBy(s, key))
  {
    if s != [] {
      var rest := SortBy(s[1..], key);
      SortKeepsDistinct(s[1..], key);
      SortKeepsAll(s[1..], key);
      forall i | 0 <= i < |rest| ensures rest[i] != s[0] {
        assert rest[i] in multiset(rest);
        assert rest[i] in s[1..];
        var j :| 0 <= j < |s[1..]| && s[1..][j] == rest[i];
        assert s[j + 1] == rest[i];
      }
      InsertKeepsDistinct(s[0], rest, key);
    }
  }

  predicate DistinctKeys<T>(s: seq<T>, key: T -> int) {
    forall i, j :: 0 <= i < j < |s| ==> key(s[i]) != key(s[j])
  }

  /** Without equal keys the order is strict. */
  lemma {:induction false} SortOrdersStrictly<T>(s: seq<T>, key: T -> int)
    requires DistinctKeys(s, key)
    ensures StrictlyOrdered(SortBy(s, key), key)
  {
    if s != [] {
      var rest := SortBy(s[1..], key);
      SortOrdersStrictly(s[1..], key);
      SortKeepsAll(s[1..], key);
      forall i | 0 <= i < |rest| ensures key(rest[i]) != key(s[0]) {
        assert rest[i] in multiset(rest);
        assert rest[i] in s[1..];
        var j :| 0 <= j < |s[1..]| && s[1..][j] == rest[i];
        assert key(s[0]) != key(s[j + 1]);
      }
      InsertKeepsStrict(s[0], rest, key);
    }
  }

  /** Only one strictly ordered list has given elements. */
  lemma {:induction false} OneStrictOrder<T>(a: seq<T>, b: seq<T>, key: T -> int)
    requires StrictlyOrdered(a, key) && StrictlyOrdered(b, key)
    requires forall x :: x in a <==> x in b
    ensures a == b
  {
    assert (a == [] || a[0] in a) && (b == [] || b[0] in b);
    if a != [] && b != [] {
      assert a[0] in b && b[0] in a;
      assert a[0] == b[0];
      forall x ensures x in a[1..] <==> x in b[1..] {
        RestOf(a, key, x);
        RestOf(b, key, x);
      }
      OneStrictOrder(a[1..], b[1..], key);
    }
  }

  lemma RestOf<T>(a: seq<T>, key: T -> int, x: T)
    requires a != [] && StrictlyOrdered(a, key)
    ensures x in a[1..] <==> x in a && x != a[0]
  {
    if x in a && x != a[0] {
      var i :| 0 <= i < |a| && a[i] == x;
      assert a[1..][i - 1] == x;
    }
    if x in a[1..] {
      var i :| 0 <= i < |a[1..]| && a[1..][i] == x;
      assert a[i + 1] == x;
    }
  }

  function CountAbove(s: seq<int>, x: int): nat {
    if s == [] then 0 else (if s[0] > x then 1 else 0) + CountAbove(s[1..], x)
  }

  lemma {:induction false} InsertCounts(v: int, s: seq<int>, key: int -> int, x: int)
    ensures CountAbove(Insert(v, s, key), x) == CountAbove(s, x) + if v > x then 1 else 0
  {
    if s != [] && key(v) > key(s[0]) {
      InsertCounts(v, s[1..], key, x);
    }
  }

  lemma {:induction false} SortCounts(s: seq<int>, key: int -> int, x: int)
    ensures CountAbove(SortBy(s, key), x) == CountAbove(s, x)
  {
    if s != [] {
      SortCounts(s[1..], key, x);
      InsertCounts(s[0], SortBy(s[1..], key), key, x);
    }
  }

  /** In an ascending list, what lies after a split is what is above. */
  lemma {:induction false} SplitCounts(s: seq<int>, k: nat, x: int)
    requires k <= |s| && (forall i :: 0 <= i < k ==> s[i] <= x) && (forall i :: k <= i < |s| ==> s[i] > x)
    ensures CountAbove(s, x) == |s| - k
  {
    if s != [] {
      SplitCounts(s[1..], if k > 0 then k - 1 else 0, x);
    }
  }

  predicate Ascending(s: seq<int>) { forall i, j :: 0 <= i < j < |s| ==> s[i] <= s[j] }

  /** Where x would be inserted after every equal element. */
  method BisectRight(s: seq<int>, x: int) returns (k: nat)
    requires Ascending(s)
    ensures k <= |s| && (forall i :: 0 <= i < k ==> s[i] <= x) && (forall i :: k <= i < |s| ==> s[i] > x)
  {
    var low, high := 0, |s|;
    while low < high
      invariant 0 <= low <= high <= |s|
      invariant forall i :: 0 <= i < low ==> s[i] <= x
      invariant forall i :: high <= i < |s| ==> s[i] > x
    {
      var middle := (low + high) / 2;
      if x < s[middle] { high := middle; } else { low := middle + 1; }
    }
    k := low;
  }

  /** Where x would be inserted before every equal element. */
  method BisectLeft(s: seq<int>, x: int) returns (k: nat)
    requires Ascending(s)
    ensures k <= |s| && (forall i :: 0 <= i < k ==> s[i] < x) && (forall i :: k <= i < |s| ==> s[i] >= x)
  {
    k := BisectRight(s, x - 1);
  }
}
