/**
 The day's held share among players who started near some trophies: prefix sums, binary search
 and a halving loop give what a plain scan of the days would.
 */
module SimilarHeld {
  import opened Basics
  import opened Sorting
  import opened Board

  const NEAREST: int := 20
  const FARTHEST: int := 300
  const ENOUGH: int := 200
  const FEWEST: int := 50

  /** A column's total over the days that started within reach of the trophies, by a plain scan. */
  function Near(days: seq<Day>, c: Column, trophies: int, reach: int): int {
    Scan(days, c, trophies - reach, trophies + reach)
  }

  /** The least reach from 20 to 300 that holds 200 defenses, else 300. */
  ghost predicate IsReach(days: seq<Day>, trophies: int, reach: int) {
    && NEAREST <= reach <= FARTHEST
    && (forall narrower :: NEAREST <= narrower < reach ==> Near(days, Defenses, trophies, narrower) < ENOUGH)
    && (reach < FARTHEST ==> Near(days, Defenses, trophies, reach) >= ENOUGH)
  }

  /** No day counts fewer than no defenses. */
  predicate CountsUp(days: seq<Day>) { forall i :: 0 <= i < |days| ==> days[i].defended.GetOr(0) >= 0 }

  lemma {:induction false} ScanGrows(days: seq<Day>, low: int, high: int, lower: int, higher: int)
    requires CountsUp(days) && lower <= low && high <= higher
    ensures Scan(days, Defenses, low, high) <= Scan(days, Defenses, lower, higher)
  {
    if days != [] {
      ScanGrows(days[..|days| - 1], low, high, lower, higher);
    }
  }

  // ----- Prefix sums -----

  /** The sum over the first n starts. */
  function Partial(starts: seq<int>, tallies: map<int, Tally>, c: Column, low: int, high: int, n: nat): int
    requires n <= |starts|
  {
    if n == 0 then 0 else Partial(starts, tallies, c, low, high, n - 1) + PartIn(tallies, c, low, high, starts[n - 1])
  }

  lemma {:induction false} PartialIsSum(starts: seq<int>, tallies: map<int, Tally>, c: Column, low: int, high: int,
          n: nat)
    requires n <= |starts|
    ensures Partial(starts, tallies, c, low, high, n) == Sum(starts[..n], tallies, c, low, high)
  {
    if n > 0 {
      PartialIsSum(starts, tallies, c, low, high, n - 1);
      assert starts[..n] == starts[..n - 1] + [starts[n - 1]];
      SumAppends(starts[..n - 1], starts[n - 1], tallies, c, low, high);
    }
  }

  /** The starts from low to high are those from a up to b. */
  predicate Splits(starts: seq<int>, low: int, high: int, a: nat, b: nat) {
    a <= b <= |starts| && forall i: nat :: i < |starts| ==> (low <= starts[i] <= high <==> a <= i < b)
  }

  /** Differences of prefix sums are sums over the starts in range. */
  lemma {:induction false} PrefixesSum(starts: seq<int>, tallies: map<int, Tally>, c: Column, low: int, high: int,
          a: nat, b: nat, n: nat)
    requires Splits(starts, low, high, a, b) && n <= |starts|
    ensures n <= a ==> Partial(starts, tallies, c, low, high, n) == 0
    ensures a <= n <= b ==>
        Partial(starts, tallies, c, low, high, n) == Prefix(starts, tallies, c, n) - Prefix(starts, tallies, c, a)
    ensures b <= n ==>
        Partial(starts, tallies, c, low, high, n) == Prefix(starts, tallies, c, b) - Prefix(starts, tallies, c, a)
  {
    if n > 0 {
      PrefixesSum(starts, tallies, c, low, high, a, b, n - 1);
      assert low <= starts[n - 1] <= high <==> a <= n - 1 < b;
    }
  }

  lemma BisectionsSplit(starts: seq<int>, low: int, high: int, a: nat, b: nat)
    requires low <= high && a <= |starts| && b <= |starts|
    requires (forall i :: 0 <= i < a ==> starts[i] < low) && (forall i :: a <= i < |starts| ==> starts[i] >= low)
    requires (forall i :: 0 <= i < b ==> starts[i] <= high) && (forall i :: b <= i < |starts| ==> starts[i] > high)
    ensures Splits(starts, low, high, a, b)
  {
    if b < |starts| {
      assert starts[b] > high;
    }
  }

  lemma SumIsScan(s: Similar, days: seq<Day>, keys: seq<int>, tallies: map<int, Tally>, c: Column, low: int, high: int)
    requires Tallied(days, keys, tallies) && s.starts == SortBy(keys, Itself())
    ensures Partial(s.starts, tallies, c, low, high, |s.starts|) == Scan(days, c, low, high)
  {
    PartialIsSum(s.starts, tallies, c, low, high, |s.starts|);
    assert s.starts[..|s.starts|] == s.starts;
    SortKeepsSum(keys, Itself(), tallies, c, low, high);
    assert SameTotals(days, keys, tallies, c, low, high);
  }

  /** The totals between two splits are the scan's. */
  lemma DifferenceIsScan(s: Similar, days: seq<Day>, c: Column, low: int, high: int, a: nat, b: nat)
    requires SimilarTo(s, days) && Splits(s.starts, low, high, a, b)
    ensures |s.below| == |s.starts| + 1 && Part(s.below[b], c) - Part(s.below[a], c) == Scan(days, c, low, high)
  {
    var keys, tallies :| Tallied(days, keys, tallies) && PrefixesOf(s, keys, tallies);
    PrefixesSum(s.starts, tallies, c, low, high, a, b, |s.starts|);
    SumIsScan(s, days, keys, tallies, c, low, high);
    assert IsPrefix(s.below[a], s.starts, tallies, a) && IsPrefix(s.below[b], s.starts, tallies, b);
  }

  lemma StartsAscend(s: Similar, days: seq<Day>)
    requires SimilarTo(s, days)
    ensures Ascending(s.starts) && |s.below| == |s.starts| + 1
  {
    var keys, tallies :| Tallied(days, keys, tallies) && PrefixesOf(s, keys, tallies);
    SortOrders(keys, Itself());
    assert forall i, j :: 0 <= i < j < |s.starts| ==> Itself()(s.starts[i]) <= Itself()(s.starts[j]);
  }

  // ----- similar_held -----

  predicate IsNear(total: Tally, days: seq<Day>, trophies: int, reach: int) {
    && total.defenses == Near(days, Defenses, trophies, reach) && total.held == Near(days, Held, trophies, reach)
    && total.lost == Near(days, Lost, trophies, reach)
  }

  method Within(s: Similar, ghost days: seq<Day>, trophies: int, reach: int) returns (total: Tally)
    requires SimilarTo(s, days) && reach >= 0
    ensures IsNear(total, days, trophies, reach)
  {
    StartsAscend(s, days);
    var low := BisectLeft(s.starts, trophies - reach);
    var high := BisectRight(s.starts, trophies + reach);
    BisectionsSplit(s.starts, trophies - reach, trophies + reach, low, high);
    DifferenceIsScan(s, days, Defenses, trophies - reach, trophies + reach, low, high);
    DifferenceIsScan(s, days, Held, trophies - reach, trophies + reach, low, high);
    DifferenceIsScan(s, days, Lost, trophies - reach, trophies + reach, low, high);
    var above, below := s.below[high], s.below[low];
    total := Tally(above.defenses - below.defenses, above.held - below.held, above.lost - below.lost);
  }

  /**
   The totals within the least reach that holds enough defenses; None exactly when the trophies
   are unknown or too few defenses lie there.
   */
  method SimilarTotals(s: Similar, ghost days: seq<Day>, trophies: Option<int>)
    returns (held: Option<Tally>, ghost reach: int)
    requires SimilarTo(s, days) && CountsUp(days)
    ensures trophies.None? ==> held.None?
    ensures trophies.Some? ==> IsReach(days, trophies.value, reach)
    ensures trophies.Some? ==> (held.Some? <==> Near(days, Defenses, trophies.value, reach) >= 50)
    ensures trophies.Some? && held.Some? ==> IsNear(held.value, days, trophies.value, reach)
  {
    if trophies.None? {
      return None, 0;
    }
    var t := trophies.value;
    var found := NEAREST;
    var total := Within(s, days, t, found);
    if total.defenses < ENOUGH {
      var narrow := found;
      found := FARTHEST;
      while found - narrow > 1
        invariant NEAREST <= narrow < found <= FARTHEST
        invariant Near(days, Defenses, t, narrow) < ENOUGH
        invariant found < FARTHEST ==> Near(days, Defenses, t, found) >= ENOUGH
      {
        var middle := (narrow + found) / 2;
        total := Within(s, days, t, middle);
        if total.defenses < ENOUGH { narrow := middle; } else { found := middle; }
      }
      forall r | NEAREST <= r < found ensures Near(days, Defenses, t, r) < ENOUGH {
        ScanGrows(days, t - r, t + r, t - narrow, t + narrow);
      }
    }
    total := Within(s, days, t, found);
    held, reach := if total.defenses >= FEWEST then Some(total) else None, found;
  }

  /** There is only one such reach. */
  lemma OneReach(days: seq<Day>, trophies: int, a: int, b: int)
    requires IsReach(days, trophies, a) && IsReach(days, trophies, b)
    ensures a == b
  {
    var atA, atB := Near(days, Defenses, trophies, a), Near(days, Defenses, trophies, b);
  }
}
