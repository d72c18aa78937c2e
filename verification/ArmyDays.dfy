/**
 The counted days' totals, kept until a day is counted again: reading only the days not kept gives
 what reading every day afresh would, and the eviction never drops a day being asked for.
 */
module ArmyDays {
  import opened Basics
  import opened Sorting

  const MOST_DAYS: nat := 28
  const MOST_KEPT: nat := 4 * MOST_DAYS

  /** Attacks or defenses of one Legend day, days being numbered. */
  datatype Key = Key(offense: bool, day: int)

  /** A day asked for, with the marker of its count. */
  datatype Asked = Asked(day: int, marker: int)

  /** A kept day: its marker and its totals. */
  datatype Saved = Saved(marker: int, totals: int)

  /** What the database has counted: a day's totals by its marker. */
  type Counted = (Key, int) -> int

  function ByDay(): Key -> int { (k: Key) => k.day }

  /** A request made on a Legend day, for some of the days just before it. */
  datatype Request = Request(today: int, offense: bool, asked: seq<Asked>)

  /**
   Days asked for once each, none later than the request's own and each less than 56 days before
   the newest day any request so far was made on. A request asks for at most 28 days, so one made
   up to 28 days earlier than another may still come after it.
   */
  predicate Recent(r: Request, newest: int) {
    && Distinct(r.asked)
    && forall i :: 0 <= i < |r.asked| ==> Max(newest, r.today) - 2 * MOST_DAYS < r.asked[i].day <= r.today
  }

  /** No kept day is later than the newest day of a request. */
  predicate NoneLater(days: map<Key, Saved>, newest: int) { forall k :: k in days ==> k.day <= newest }

  predicate Distinct(asked: seq<Asked>) { forall i, j :: 0 <= i < j < |asked| ==> asked[i].day != asked[j].day }

  // ----- At most 112 keys are no older than a recent day -----

  function Code(k: Key, day: int): int { 2 * (k.day - day) + if k.offense then 1 else 0 }

  lemma Below(n: nat) returns (all: set<int>)
    ensures |all| == n && forall x :: x in all <==> 0 <= x < n
  {
    all := {};
    for i := 0 to n
      invariant |all| == i && forall x :: x in all <==> 0 <= x < i
    {
      all := all + {i};
    }
  }

  lemma {:induction false} CodesDistinct(keys: seq<Key>, day: int) returns (codes: set<int>)
    requires AllDistinct(keys)
    ensures |codes| == |keys| && forall x :: x in codes ==> exists i :: 0 <= i < |keys| && Code(keys[i], day) == x
  {
    codes := {};
    for i := 0 to |keys|
      invariant |codes| == i && forall x :: x in codes ==> exists j :: 0 <= j < i && Code(keys[j], day) == x
    {
      codes := codes + {Code(keys[i], day)};
    }
  }

  /** Two lenses of 56 days are 112 keys. */
  lemma AtMostKept(keys: seq<Key>, day: int)
    requires AllDistinct(keys)
    requires forall i :: 0 <= i < |keys| ==> day <= keys[i].day < day + 2 * MOST_DAYS
    ensures |keys| <= MOST_KEPT
  {
    var codes := CodesDistinct(keys, day);
    var all := Below(MOST_KEPT);
    forall x | x in codes ensures x in all {
      var i :| 0 <= i < |keys| && Code(keys[i], day) == x;
    }
    SubsetCount(codes, all);
  }

  /** No kept day is 56 days newer than this one, or more. */
  predicate NoneNewer(days: map<Key, Saved>, day: int) { forall o :: o in days ==> o.day < day + 2 * MOST_DAYS }

  /** Such a day is among the newest 112 keys. */
  lemma AmongNewest(sorted: seq<Key>, p: nat)
    requires p < |sorted| && AllDistinct(sorted) && Ordered(sorted, ByDay())
    requires forall i :: 0 <= i < |sorted| ==> sorted[i].day < sorted[p].day + 2 * MOST_DAYS
    ensures |sorted| - p <= MOST_KEPT
  {
    var newer := sorted[p..];
    forall i | 0 <= i < |newer| ensures sorted[p].day <= newer[i].day < sorted[p].day + 2 * MOST_DAYS {
      assert newer[i] == sorted[p + i];
      assert i > 0 ==> ByDay()(sorted[p]) <= ByDay()(sorted[p + i]);
    }
    AtMostKept(newer, sorted[p].day);
  }

  ghost predicate OfDays(keys: seq<Key>, days: map<Key, Saved>) { forall i :: 0 <= i < |keys| ==> keys[i] in days }

  ghost predicate Covers(keys: seq<Key>, days: map<Key, Saved>) { forall k :: k in days ==> k in keys }

  // ----- The cache -----

  class Cache {
    var days: map<Key, Saved>

    /** Every kept day's totals are the database's for its marker. */
    ghost predicate True(counted: Counted)
      reads this
    {
      TrueTotals(days, counted)
    }

    constructor ()
      ensures days == map[]
    {
      days := map[];
    }

    /** The kept keys, each once. */
    method Keys() returns (keys: seq<Key>)
      ensures AllDistinct(keys) && OfDays(keys, days) && Covers(keys, days) && |keys| == |days|
    {
      keys := [];
      var rest := days.Keys;
      while rest != {}
        invariant forall k :: k in rest ==> k in days && k !in keys
        invariant forall k :: k in days ==> k in rest || k in keys
        invariant AllDistinct(keys) && forall i :: 0 <= i < |keys| ==> keys[i] in days
        invariant |keys| + |rest| == |days|
        decreases |rest|
      {
        ghost var some := Pick(rest);
        var k :| k in rest;
        keys, rest := keys + [k], rest - {k};
      }
    }

    /** Only the newest 112 keys stay: no day goes that is less than 56 days older than every other. */
    method Evict()
      modifies this
      ensures forall k :: k in days ==> k in old(days) && days[k] == old(days)[k]
      ensures |days| <= MOST_KEPT && (|old(days)| <= MOST_KEPT ==> days == old(days))
      ensures forall k :: k in old(days) && NoneNewer(old(days), k.day) ==> k in days
    {
      var keys := Keys();
      var sorted := SortBy(keys, ByDay());
      var go := if |sorted| > MOST_KEPT then sorted[..|sorted| - MOST_KEPT] else [];
      ghost var before := days;
      SortKeepsAll(keys, ByDay());
      assert go == sorted[..|go|];
      days := map k | k in days && k !in go :: days[k];
      FewStay(before, days, sorted, keys, |go|);
      forall k | k in before && NoneNewer(before, k.day) ensures k in days { StaysKept(before, keys, sorted, k); }
    }

    /** Reads exactly the asked days that are not kept with their markers, and keeps them. */
    method Fill(offense: bool, asked: seq<Asked>, counted: Counted) returns (missing: bool)
      modifies this
      ensures days == Filled(old(days), offense, asked, |asked|, counted)
      ensures TrueTotals(old(days), counted) ==> True(counted)
      ensures !missing ==> days == old(days)
      ensures Distinct(asked) ==> (missing <==> exists j :: 0 <= j < |asked| && !Holds(old(days), offense, asked[j]))
    {
      missing := false;
      ghost var before := days;
      for i := 0 to |asked|
        invariant days == Filled(before, offense, asked, i, counted) && (!missing ==> days == before)
        invariant Distinct(asked) ==> (missing <==> exists j :: 0 <= j < i && !Holds(before, offense, asked[j]))
      {
        var k := Key(offense, asked[i].day);
        if Distinct(asked) { NotYetFilled(before, offense, asked, i, counted); }
        if !Holds(days, offense, asked[i]) {
          missing := true;
          days := days[k := Saved(asked[i].marker, counted(k, asked[i].marker))];
        }
      }
      if TrueTotals(before, counted) { FilledIsTrue(before, offense, asked, |asked|, counted); }
    }

    /** The kept totals of the asked days; None where one is not kept, which raises. */
    method Collect(offense: bool, asked: seq<Asked>) returns (totals: Option<seq<int>>)
      ensures totals.None? <==> exists i :: 0 <= i < |asked| && Key(offense, asked[i].day) !in days
      ensures totals.Some? ==> |totals.value| == |asked|
      ensures totals.Some? ==>
                forall i :: 0 <= i < |asked| ==> totals.value[i] == days[Key(offense, asked[i].day)].totals
    {
      var found := [];
      for i := 0 to |asked|
        invariant |found| == i
        invariant forall j :: 0 <= j < i ==> Key(offense, asked[j].day) in days
        invariant forall j :: 0 <= j < i ==> found[j] == days[Key(offense, asked[j].day)].totals
      {
        var k := Key(offense, asked[i].day);
        if k !in days {
          return None;
        }
        found := found + [days[k].totals];
      }
      totals := Some(found);
    }

    /**
     One request: with every kept day no later than the newest day of a request so far, the
     answer is each asked day's totals for its marker, and no kept day is later afterwards.
     */
    method Totals(r: Request, counted: Counted, ghost newest: int) returns (totals: Option<seq<int>>)
      requires True(counted)
      modifies this
      ensures Answered(old(days), newest, r, counted, days, totals)
      ensures |old(days)| <= MOST_KEPT ==> |days| <= MOST_KEPT
    {
      var missing := Fill(r.offense, r.asked, counted);
      ghost var filled := days;
      if missing {
        Evict();
      }
      totals := Collect(r.offense, r.asked);
      if NoneLater(old(days), newest) && Recent(r, newest) {
        FillServes(old(days), r, counted);
        StillNoneLater(old(days), newest, r, filled, days);
        AskedStay(old(days), newest, r, filled, days);
      }
    }
  }

  /** The kept days once the first n asked for have been seen to. */
  function Filled(days: map<Key, Saved>, offense: bool, asked: seq<Asked>, n: nat, counted: Counted): map<Key, Saved>
    requires n <= |asked|
  {
    if n == 0 then days
    else
      var before, a := Filled(days, offense, asked, n - 1, counted), asked[n - 1];
      var k := Key(offense, a.day);
      if Holds(before, offense, a) then before else before[k := Saved(a.marker, counted(k, a.marker))]
  }

  /** A day not asked for stays as it was. */
  lemma {:induction false} OthersStay(days: map<Key, Saved>, offense: bool, asked: seq<Asked>, n: nat,
          counted: Counted, k: Key)
    requires n <= |asked| && forall j :: 0 <= j < n ==> k != Key(offense, asked[j].day)
    ensures Lookup(Filled(days, offense, asked, n, counted), k) == Lookup(days, k)
  {
    if n > 0 { OthersStay(days, offense, asked, n - 1, counted, k); }
  }

  lemma NotYetFilled(days: map<Key, Saved>, offense: bool, asked: seq<Asked>, n: nat, counted: Counted)
    requires n < |asked| && Distinct(asked)
    ensures Holds(Filled(days, offense, asked, n, counted), offense, asked[n]) <==> Holds(days, offense, asked[n])
  {
    OthersStay(days, offense, asked, n, counted, Key(offense, asked[n].day));
  }

  /** An asked day is kept as it was when it has the marker, and otherwise as the database counts it. */
  lemma {:induction false} FilledExactly(days: map<Key, Saved>, offense: bool, asked: seq<Asked>, n: nat,
          counted: Counted, j: nat)
    requires j < n <= |asked| && Distinct(asked)
    ensures var k, a := Key(offense, asked[j].day), asked[j];
      Lookup(Filled(days, offense, asked, n, counted), k)
      == if Holds(days, offense, a) then Lookup(days, k) else Some(Saved(a.marker, counted(k, a.marker)))
  {
    if j == n - 1 {
      OthersStay(days, offense, asked, j, counted, Key(offense, asked[j].day));
    } else {
      FilledExactly(days, offense, asked, n - 1, counted, j);
    }
  }

  lemma {:induction false} FilledIsTrue(days: map<Key, Saved>, offense: bool, asked: seq<Asked>, n: nat,
          counted: Counted)
    requires n <= |asked| && TrueTotals(days, counted)
    ensures TrueTotals(Filled(days, offense, asked, n, counted), counted)
  {
    if n > 0 { FilledIsTrue(days, offense, asked, n - 1, counted); }
  }

  lemma {:induction false} FilledKeys(days: map<Key, Saved>, offense: bool, asked: seq<Asked>, n: nat,
          counted: Counted, k: Key)
    requires n <= |asked| && k in Filled(days, offense, asked, n, counted)
    ensures k in days || exists j :: 0 <= j < n && k.day == asked[j].day
  {
    if n > 0 && k in Filled(days, offense, asked, n - 1, counted) {
      FilledKeys(days, offense, asked, n - 1, counted, k);
    } else if n > 0 {
      assert k == Key(offense, asked[n - 1].day);
    }
  }

  /** What filling leaves, for a request of distinct days. */
  lemma FillServes(days: map<Key, Saved>, r: Request, counted: Counted)
    requires TrueTotals(days, counted) && Distinct(r.asked)
    ensures var filled := Filled(days, r.offense, r.asked, |r.asked|, counted);
      && FilledFrom(days, r, filled) && forall j :: 0 <= j < |r.asked| ==> Holds(filled, r.offense, r.asked[j])
  {
    var filled := Filled(days, r.offense, r.asked, |r.asked|, counted);
    forall k | k in filled ensures k in days || exists j :: 0 <= j < |r.asked| && k.day == r.asked[j].day {
      FilledKeys(days, r.offense, r.asked, |r.asked|, counted, k);
    }
    forall j | 0 <= j < |r.asked| ensures Holds(filled, r.offense, r.asked[j]) {
      FilledExactly(days, r.offense, r.asked, |r.asked|, counted, j);
    }
  }

  ghost predicate TrueTotals(days: map<Key, Saved>, counted: Counted) {
    forall k :: k in days ==> days[k].totals == counted(k, days[k].marker)
  }

  /** The answer that reading every day afresh would give. */
  predicate Afresh(r: Request, counted: Counted, totals: Option<seq<int>>) {
    && totals.Some? && |totals.value| == |r.asked|
    && forall i :: 0 <= i < |r.asked| ==> totals.value[i] == counted(Key(r.offense, r.asked[i].day), r.asked[i].marker)
  }

  /** What one call of Totals does to the kept days, and answers. */
  ghost predicate Answered(
    before: map<Key, Saved>, newest: int, r: Request, counted: Counted, after: map<Key, Saved>,
        totals: Option<seq<int>>)
  {
    && (TrueTotals(before, counted) ==> TrueTotals(after, counted))
    && (TrueTotals(before, counted) && NoneLater(before, newest) && Recent(r, newest) ==>
          NoneLater(after, Max(newest, r.today)) && Afresh(r, counted, totals))
  }

  // ----- Every sequence of requests -----

  /** The newest day any of the first n requests was made on. */
  function Newest(requests: seq<Request>, n: nat): int
    requires n <= |requests|
  {
    if n == 0 then 0 else Max(Newest(requests, n - 1), requests[n - 1].today)
  }

  /** Each request is answered by a call of Totals. */
  ghost predicate EachAnswered(
    requests: seq<Request>, counted: Counted, kept: seq<map<Key, Saved>>, answers: seq<Option<seq<int>>>)
    requires |kept| == |requests| + 1 && |answers| == |requests|
  {
    forall i, next :: 0 <= i < |requests| && next == i + 1 ==>
      Answered(kept[i], Newest(requests, i), requests[i], counted, kept[next], answers[i])
  }

  /** A cache that starts empty and answers requests one after another. */
  ghost predicate Served(
    requests: seq<Request>, counted: Counted, kept: seq<map<Key, Saved>>, answers: seq<Option<seq<int>>>)
  {
    && |kept| == |requests| + 1 && |answers| == |requests| && kept[0] == map[]
    && EachAnswered(requests, counted, kept, answers)
  }

  predicate AllRecent(requests: seq<Request>, n: nat)
    requires n <= |requests|
  {
    forall k :: 0 <= k < n ==> Recent(requests[k], Newest(requests, k))
  }

  /** One request of a run: the kept days stay true and the answer is the one read afresh. */
  lemma AnswersAfresh(
    requests: seq<Request>, counted: Counted, kept: seq<map<Key, Saved>>, answers: seq<Option<seq<int>>>, i: nat)
    requires Served(requests, counted, kept, answers) && i < |requests| && AllRecent(requests, i + 1)
    requires TrueTotals(kept[i], counted) && NoneLater(kept[i], Newest(requests, i))
    ensures TrueTotals(kept[i + 1], counted) && NoneLater(kept[i + 1], Newest(requests, i + 1))
    ensures Afresh(requests[i], counted, answers[i])
  {
    var next := i + 1;
    assert Recent(requests[i], Newest(requests, i));
    assert Answered(kept[i], Newest(requests, i), requests[i], counted, kept[next], answers[i]);
  }

  lemma {:induction false} KeptStaysTrue(
    requests: seq<Request>, counted: Counted, kept: seq<map<Key, Saved>>, answers: seq<Option<seq<int>>>, i: nat)
    requires Served(requests, counted, kept, answers) && i <= |requests|
    requires AllRecent(requests, i)
    ensures TrueTotals(kept[i], counted) && NoneLater(kept[i], Newest(requests, i))
  {
    if i > 0 {
      KeptStaysTrue(requests, counted, kept, answers, i - 1);
      AnswersAfresh(requests, counted, kept, answers, i - 1);
    }
  }

  /**
   Over every sequence of requests, each for days of the last 56 before the newest request so
   far, every request gets what reading every asked day afresh would give: nothing asked for is
   ever evicted and no answer is of an older count.
   */
  lemma CacheReadsThrough(
    requests: seq<Request>, counted: Counted, kept: seq<map<Key, Saved>>, answers: seq<Option<seq<int>>>, i: nat)
    requires Served(requests, counted, kept, answers) && i < |requests|
    requires AllRecent(requests, i + 1)
    ensures Afresh(requests[i], counted, answers[i])
  {
    KeptStaysTrue(requests, counted, kept, answers, i);
    AnswersAfresh(requests, counted, kept, answers, i);
  }

  /**
   The days a request asks for, at most 28 before its own, are recent whenever no earlier request is 28
   days ahead.
   */
  lemma WindowIsRecent(r: Request, newest: int)
    requires Distinct(r.asked) && newest < r.today + MOST_DAYS
    requires forall i :: 0 <= i < |r.asked| ==> r.today - MOST_DAYS <= r.asked[i].day < r.today
    ensures Recent(r, newest)
  {}

  /** Every kept day was kept before or is one asked for. */
  ghost predicate FilledFrom(before: map<Key, Saved>, r: Request, filled: map<Key, Saved>) {
    forall k :: k in filled ==> k in before || exists j :: 0 <= j < |r.asked| && k.day == r.asked[j].day
  }

  lemma NoneIsNewer(before: map<Key, Saved>, newest: int, r: Request, filled: map<Key, Saved>, j: nat)
    requires NoneLater(before, newest) && Recent(r, newest) && FilledFrom(before, r, filled) && j < |r.asked|
    ensures NoneNewer(filled, r.asked[j].day)
  {
    forall o | o in filled ensures o.day < r.asked[j].day + 2 * MOST_DAYS {
      if o !in before {
        var k :| 0 <= k < |r.asked| && o.day == r.asked[k].day;
      }
    }
  }

  lemma StillNoneLater(before: map<Key, Saved>, newest: int, r: Request, filled: map<Key, Saved>,
          after: map<Key, Saved>)
    requires NoneLater(before, newest) && Recent(r, newest) && FilledFrom(before, r, filled)
    requires forall k :: k in after ==> k in filled
    ensures NoneLater(after, Max(newest, r.today))
  {
    forall k | k in after ensures k.day <= Max(newest, r.today) {
      if k !in before {
        var j :| 0 <= j < |r.asked| && k.day == r.asked[j].day;
      }
    }
  }

  /** With the kept days as recent as the request, none of the days asked for goes. */
  lemma AskedStay(before: map<Key, Saved>, newest: int, r: Request, filled: map<Key, Saved>, after: map<Key, Saved>)
    requires NoneLater(before, newest) && Recent(r, newest) && FilledFrom(before, r, filled)
    requires forall j :: 0 <= j < |r.asked| ==> Holds(filled, r.offense, r.asked[j])
    requires forall k :: k in after ==> k in filled && after[k] == filled[k]
    requires forall k :: k in filled && NoneNewer(filled, k.day) ==> k in after
    ensures forall j :: 0 <= j < |r.asked| ==> Holds(after, r.offense, r.asked[j])
  {
    forall j | 0 <= j < |r.asked| ensures Holds(after, r.offense, r.asked[j]) {
      NoneIsNewer(before, newest, r, filled, j);
    }
  }

  /** The day is kept with the asked marker. */
  predicate Holds(days: map<Key, Saved>, offense: bool, a: Asked) {
    Key(offense, a.day) in days && days[Key(offense, a.day)].marker == a.marker
  }

  lemma {:induction false} FewIn(keys: set<Key>, s: seq<Key>)
    requires forall k :: k in keys ==> k in s
    ensures |keys| <= |s|
    decreases |s|
  {
    if s == [] {
      assert keys == {};
    } else {
      forall k | k in keys - {s[0]} ensures k in s[1..] { assert k in s; }
      FewIn(keys - {s[0]}, s[1..]);
      if s[0] in keys { assert keys == keys - {s[0]} + {s[0]}; } else { assert keys == keys - {s[0]}; }
    }
  }

  /** What is left once the first keys of the order are gone is no more than the others. */
  lemma FewStay(before: map<Key, Saved>, after: map<Key, Saved>, sorted: seq<Key>, keys: seq<Key>, go: nat)
    requires go <= |sorted| && sorted == SortBy(keys, ByDay()) && Covers(keys, before)
    requires after == map k | k in before && k !in sorted[..go] :: before[k]
    ensures |after| <= |sorted| - go && (go == 0 ==> after == before)
  {
    SortKeepsAll(keys, ByDay());
    forall k | k in after.Keys ensures k in sorted[go..] {
      assert k in keys && k in multiset(keys) && k in multiset(sorted);
      InRest(sorted, go, k);
    }
    FewIn(after.Keys, sorted[go..]);
  }

  lemma InRest(s: seq<Key>, go: nat, k: Key)
    requires go <= |s| && k in s && k !in s[..go]
    ensures k in s[go..]
  {
    assert s == s[..go] + s[go..];
  }

  lemma StaysKept(days: map<Key, Saved>, keys: seq<Key>, sorted: seq<Key>, k: Key)
    requires k in days && NoneNewer(days, k.day) && OfDays(keys, days)
    requires AllDistinct(keys) && sorted == SortBy(keys, ByDay())
    ensures |sorted| > MOST_KEPT ==> k !in sorted[..|sorted| - MOST_KEPT]
  {
    SortKeepsAll(keys, ByDay());
    SortKeepsDistinct(keys, ByDay());
    SortOrders(keys, ByDay());
    forall i | 0 <= i < |sorted| ensures sorted[i] in days {
      assert sorted[i] in multiset(sorted);
      assert sorted[i] in keys;
    }
    forall p | 0 <= p < |sorted| - MOST_KEPT ensures sorted[p] != k {
      if sorted[p] == k { AmongNewest(sorted, p); }
    }
  }
}
