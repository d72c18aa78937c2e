/**
 The best and worst rank a player can still finish today on, and a projected place kept inside
 them.
 */
module RankRange {
  import opened Basics
  import opened Sorting
  import opened Board

  datatype Range = Range(best: int, worst: int)

  // ----- What the day can still come to -----

  /** Each player's final trophies lie anywhere from the worst to the best end. */
  ghost predicate Outcome(ends: map<int, End>, final: map<int, int>) {
    (forall t :: t in final <==> t in ends) && forall t :: t in ends ==> ends[t].worst <= final[t] <= ends[t].best
  }

  /** Some way of breaking ties: whether the first player goes above the second on equal trophies. */
  type TieBreak = (int, int) -> bool

  predicate Above(final: map<int, int>, tie: TieBreak, u: int, t: int)
    requires u in final && t in final
  {
    u != t && (final[u] > final[t] || (final[u] == final[t] && tie(u, t)))
  }

  ghost function Place(final: map<int, int>, tie: TieBreak, t: int): int
    requires t in final
  {
    1 + |set u | u in final && Above(final, tie, u, t)|
  }

  // ----- rank_range -----

  ghost function SurelyAbove(ends: map<int, End>, t: int): set<int>
    requires t in ends
  {
    set u | u in ends && ends[u].worst > ends[t].best
  }

  ghost function MayReach(ends: map<int, End>, t: int): set<int>
    requires t in ends
  {
    set u | u in ends && ends[u].best >= ends[t].worst
  }

  ghost function RangeOf(ends: map<int, End>, t: int): Range
    requires t in ends
  {
    Range(1 + |SurelyAbove(ends, t)|, |MayReach(ends, t)|)
  }

  /** The players whose value is above x. */
  function Higher(values: map<int, int>, x: int): set<int> { set u | u in values && values[u] > x }

  lemma OneMoreHigher(values: map<int, int>, t: int, x: int)
    requires t in values
    ensures |Higher(values, x)| == |Higher(values - {t}, x)| + if values[t] > x then 1 else 0
  {
    var rest := Higher(values - {t}, x);
    assert Higher(values, x) == if values[t] > x then {t} + rest else rest;
  }

  /** Counting the values above x over all players, listed once each, counts the players. */
  lemma {:induction false} CountsPlayers(tags: seq<int>, listed: seq<int>, values: map<int, int>, x: int)
    requires AllDistinct(tags) && |listed| == |tags| && forall i :: 0 <= i < |tags| ==>
        tags[i] in values && listed[i] == values[tags[i]]
    requires |values| == |tags|
    ensures CountAbove(listed, x) == |Higher(values, x)|
  {
    if tags == [] {
      assert values == map[];
      assert Higher(values, x) == {};
    } else {
      var rest := values - {tags[0]};
      assert values.Keys == rest.Keys + {tags[0]};
      CountsPlayers(tags[1..], listed[1..], rest, x);
      OneMoreHigher(values, tags[0], x);
    }
  }

  function BestOf(ends: map<int, End>): map<int, int> { map u | u in ends :: ends[u].best }

  function WorstOf(ends: map<int, End>): map<int, int> { map u | u in ends :: ends[u].worst }

  /** Two binary searches over the sorted ends count the players; None off the board. */
  method RankRange(board: Board, tag: int) returns (range: Option<Range>)
    requires Valid(board)
    ensures range == if tag in board.ends then Some(RangeOf(board.ends, tag)) else None
  {
    if tag !in board.ends {
      return None;
    }
    var end := board.ends[tag];
    Sorted(board);
    var k := BisectRight(board.worstEnds, end.best);
    var surelyAbove := |board.worstEnds| - k;
    var m := BisectLeft(board.bestEnds, end.worst);
    var maybeAboveOrSelf := |board.bestEnds| - m;
    range := Some(Range(surelyAbove + 1, maybeAboveOrSelf));
    HigherIsSurelyAbove(board.ends, tag);
    AsManyEnds(board.ends);
    CountsSorted(board.tags, Worsts(board.tags, board.ends), WorstOf(board.ends), end.best, k);
    CountsSorted(board.tags, Bests(board.tags, board.ends), BestOf(board.ends), end.worst - 1, m);
  }

  lemma Sorted(board: Board)
    requires Valid(board)
    ensures Ascending(board.worstEnds) && Ascending(board.bestEnds)
  {
    SortOrders(Worsts(board.tags, board.ends), Itself());
    SortOrders(Bests(board.tags, board.ends), Itself());
    assert forall i, j :: 0 <= i < j < |board.worstEnds| ==>
        Itself()(board.worstEnds[i]) <= Itself()(board.worstEnds[j]);
    assert forall i, j :: 0 <= i < j < |board.bestEnds| ==> Itself()(board.bestEnds[i]) <= Itself()(board.bestEnds[j]);
  }

  lemma CountsSorted(tags: seq<int>, listed: seq<int>, values: map<int, int>, x: int, k: nat)
    requires AllDistinct(tags) && |listed| == |tags| && forall i :: 0 <= i < |tags| ==>
        tags[i] in values && listed[i] == values[tags[i]]
    requires |values| == |tags|
    requires var sorted := SortBy(listed, Itself());
      && k <= |sorted| && (forall i :: 0 <= i < k ==> sorted[i] <= x)
      && (forall i :: k <= i < |sorted| ==> sorted[i] > x)
    ensures |SortBy(listed, Itself())| - k == |Higher(values, x)|
  {
    SplitCounts(SortBy(listed, Itself()), k, x);
    SortCounts(listed, Itself(), x);
    CountsPlayers(tags, listed, values, x);
  }

  lemma AsManyEnds(ends: map<int, End>)
    ensures |WorstOf(ends)| == |ends| && |BestOf(ends)| == |ends|
  {
    assert WorstOf(ends).Keys == ends.Keys && BestOf(ends).Keys == ends.Keys;
  }

  lemma HigherIsSurelyAbove(ends: map<int, End>, t: int)
    requires t in ends
    ensures SurelyAbove(ends, t) == Higher(WorstOf(ends), ends[t].best)
    ensures MayReach(ends, t) == Higher(BestOf(ends), ends[t].worst - 1)
  {}

  // ----- The range is right -----

  ghost predicate WellOrdered(ends: map<int, End>) { forall t :: t in ends ==> ends[t].worst <= ends[t].best }

  /** However the open battles finish and ties break, the final place lies within the range. */
  lemma PlaceInRange(ends: map<int, End>, final: map<int, int>, tie: TieBreak, t: int)
    requires Outcome(ends, final) && t in ends
    ensures RangeOf(ends, t).best <= Place(final, tie, t) <= RangeOf(ends, t).worst
  {
    var above := set u | u in final && Above(final, tie, u, t);
    forall u | u in SurelyAbove(ends, t) ensures u in above {
      assert ends[u].worst <= final[u] && final[t] <= ends[t].best;
    }
    forall u | u in above ensures u in MayReach(ends, t) {
      assert final[u] <= ends[u].best && ends[t].worst <= final[t];
    }
    SubsetCount(SurelyAbove(ends, t), above);
    SubsetCount(above + {t}, MayReach(ends, t));
  }

  /** The best bound is attained: the player ends best, every other worst, and ties fall to the player. */
  lemma BestIsAttained(ends: map<int, End>, t: int)
    requires WellOrdered(ends) && t in ends
    ensures exists final, tie :: Outcome(ends, final) && Place(final, tie, t) == RangeOf(ends, t).best
  {
    var final := map u | u in ends :: if u == t then ends[u].best else ends[u].worst;
    var tie: TieBreak := (u, v) => false;
    assert (set u | u in final && Above(final, tie, u, t)) == SurelyAbove(ends, t);
    assert Outcome(ends, final) && Place(final, tie, t) == RangeOf(ends, t).best;
  }

  /** The worst bound is attained: the player ends worst, every other best, and ties go against the player. */
  lemma WorstIsAttained(ends: map<int, End>, t: int)
    requires WellOrdered(ends) && t in ends
    ensures exists final, tie :: Outcome(ends, final) && Place(final, tie, t) == RangeOf(ends, t).worst
  {
    var final := map u | u in ends :: if u == t then ends[u].worst else ends[u].best;
    var tie: TieBreak := (u, v) => true;
    var above := set u | u in final && Above(final, tie, u, t);
    assert above + {t} == MayReach(ends, t) && t !in above;
    assert Outcome(ends, final) && Place(final, tie, t) == RangeOf(ends, t).worst;
  }

  /** projected_rank: None off the board or without a projected place. */
  method ProjectedRank(board: Board, places: Option<map<int, int>>, tag: int) returns (rank: Option<int>)
    requires Valid(board)
    ensures rank.Some? <==> tag in board.ends && places.Some? && tag in places.value
    ensures rank.Some? ==> RangeOf(board.ends, tag).best <= rank.value <= RangeOf(board.ends, tag).worst
    ensures rank.Some? && RangeOf(board.ends, tag).best <= places.value[tag] <= RangeOf(board.ends, tag).worst ==>
        rank.value == places.value[tag]
  {
    var outer := RankRange(board, tag);
    if outer.None? || places.None? || tag !in places.value {
      return None;
    }
    RangeIsNotEmpty(board.ends, tag);
    rank := Some(Min(outer.value.worst, Max(outer.value.best, places.value[tag])));
  }

  lemma RangeIsNotEmpty(ends: map<int, End>, t: int)
    requires WellOrdered(ends) && t in ends
    ensures 1 <= RangeOf(ends, t).best <= RangeOf(ends, t).worst <= |ends.Keys|
  {
    forall u | u in SurelyAbove(ends, t) + {t} ensures u in MayReach(ends, t) { assert ends[u].worst <= ends[u].best; }
    SubsetCount(SurelyAbove(ends, t) + {t}, MayReach(ends, t));
    SubsetCount(MayReach(ends, t), ends.Keys);
  }

  // ----- Playing on -----

  predicate Within(inner: End, outer: End) { outer.worst <= inner.worst && inner.best <= outer.best }

  predicate RangeWithin(inner: Range, outer: Range) { outer.best <= inner.best && inner.worst <= outer.worst }

  /** Ends that only narrow never widen anyone's range. */
  lemma NarrowerEndsNarrowRanges(before: map<int, End>, after: map<int, End>, t: int)
    requires t in before && forall u :: u in before <==> u in after
    requires forall u :: u in before ==> Within(after[u], before[u])
    ensures RangeWithin(RangeOf(after, t), RangeOf(before, t))
  {
    forall u | u in SurelyAbove(before, t) ensures u in SurelyAbove(after, t) { assert Within(after[u], before[u]); }
    forall u | u in MayReach(after, t) ensures u in MayReach(before, t) { assert Within(after[u], before[u]); }
    SubsetCount(SurelyAbove(before, t), SurelyAbove(after, t));
    SubsetCount(MayReach(after, t), MayReach(before, t));
  }

  /** One more battle of a day: an attack that gains or a defense that loses the amount. */
  function Played(d: Day, attack: bool, amount: int): Day
    requires Known(d)
  {
    if attack then d.(attacks := Some(d.attacks.value + 1), gained := Some(d.gained.value + amount))
    else d.(defended := Some(d.defended.value + 1), lost := Some(d.lost.value + amount))
  }

  predicate SlotOpen(d: Day, zero: Slots, attack: bool)
    requires Known(d)
  {
    if attack then d.attacks.value + zero.attacks < BATTLES else d.defended.value + zero.defenses < BATTLES
  }

  /**
   A battle worth 0 to 40 trophies narrows the player's ends exactly when a slot was open for it, or it
   moved nothing.
   */
  lemma BattleNarrowsEnds(trophies: int, now: int, d: Day, zero: Slots, attack: bool, amount: int)
    requires Known(d) && 0 <= amount <= BATTLE_TROPHIES
    ensures Within(EndOf(StandingOf(now, Played(d, attack, amount), zero)), EndOf(StandingOf(trophies, d, zero)))
      <==> SlotOpen(d, zero, attack) || amount == 0
  {}

  function SumOf(amounts: seq<int>): int { if amounts == [] then 0 else amounts[0] + SumOf(amounts[1..]) }

  predicate Battles(amounts: seq<int>) { forall i :: 0 <= i < |amounts| ==> 0 <= amounts[i] <= BATTLE_TROPHIES }

  lemma {:induction false} SumIsBounded(amounts: seq<int>)
    requires Battles(amounts)
    ensures 0 <= SumOf(amounts) <= BATTLE_TROPHIES * |amounts|
  {
    if amounts != [] { SumIsBounded(amounts[1..]); }
  }

  /** How many of the eight are left when this many are used. */
  function LeftOf(used: int): nat { if used < 8 then 8 - used else 0 }

  /**
   However the attacks and defenses a player has left go, the day ends within the ends; winning
   every attack at the most comes to the best end when no defense loses, and the other way round.
   */
  lemma EndsBoundTheDay(trophies: int, d: Day, zero: Slots, attacks: seq<int>, defenses: seq<int>)
    requires Battles(attacks) && Battles(defenses) && (Known(d) ==> d.attacks.value + zero.attacks >= 0)
    requires Known(d) ==> d.defended.value + zero.defenses >= 0
    requires |attacks| <= if Known(d) then LeftOf(d.attacks.value + zero.attacks) else 8
    requires |defenses| <= if Known(d) then LeftOf(d.defended.value + zero.defenses) else 8
    ensures var now := if Known(d) then d.start.value + d.gained.value - d.lost.value else trophies;
      var end := EndOf(StandingOf(trophies, d, zero));
      && end.worst <= now + SumOf(attacks) - SumOf(defenses) <= end.best
      && end.best == now + BATTLE_TROPHIES * (if Known(d) then LeftOf(d.attacks.value + zero.attacks) else 8)
      && end.worst == now - BATTLE_TROPHIES * (if Known(d) then LeftOf(d.defended.value + zero.defenses) else 8)
  {
    SumIsBounded(attacks);
    SumIsBounded(defenses);
  }

  /** A day after these battles, all attacks or all defenses. */
  function PlayedAll(d: Day, attack: bool, amounts: seq<int>): (after: Day)
    requires Known(d)
    ensures Known(after)
    decreases |amounts|
  {
    if amounts == [] then d else PlayedAll(Played(d, attack, amounts[0]), attack, amounts[1..])
  }

  lemma {:induction false} PlayedAllCounts(d: Day, attack: bool, amounts: seq<int>)
    requires Known(d)
    ensures var after, n, sum := PlayedAll(d, attack, amounts), |amounts|, SumOf(amounts);
      after == if attack then d.(attacks := Some(d.attacks.value + n), gained := Some(d.gained.value + sum))
               else d.(defended := Some(d.defended.value + n), lost := Some(d.lost.value + sum))
    decreases |amounts|
  {
    if amounts != [] { PlayedAllCounts(Played(d, attack, amounts[0]), attack, amounts[1..]); }
  }

  /** Once every attack and defense that was left is played, the two ends meet at what they came to. */
  lemma EndsMeet(trophies: int, d: Day, zero: Slots, attacks: seq<int>, defenses: seq<int>)
    requires Known(d)
    requires |attacks| == LeftOf(d.attacks.value + zero.attacks)
    requires |defenses| == LeftOf(d.defended.value + zero.defenses)
    ensures var after := PlayedAll(PlayedAll(d, true, attacks), false, defenses);
      var end := d.start.value + d.gained.value - d.lost.value + SumOf(attacks) - SumOf(defenses);
      EndOf(StandingOf(trophies, after, zero)) == End(end, end)
  {
    PlayedAllCounts(d, true, attacks);
    PlayedAllCounts(PlayedAll(d, true, attacks), false, defenses);
  }

  /** Playing any further battle within the 8 attacks and 8 defenses never widens anyone's range. */
  lemma BattlesNeverWiden(
    ends: map<int, End>, player: int, trophies: int, now: int, d: Day, zero: Slots, attack: bool, amount: int, t: int)
    requires player in ends && t in ends && Known(d) && ends[player] == EndOf(StandingOf(trophies, d, zero))
    requires 0 <= amount <= BATTLE_TROPHIES && SlotOpen(d, zero, attack)
    ensures var after := ends[player := EndOf(StandingOf(now, Played(d, attack, amount), zero))];
      RangeWithin(RangeOf(after, t), RangeOf(ends, t))
  {
    var after := ends[player := EndOf(StandingOf(now, Played(d, attack, amount), zero))];
    BattleNarrowsEnds(trophies, now, d, zero, attack, amount);
    NarrowerEndsNarrowRanges(ends, after, t);
  }

  /** On no board does anyone's range widen when this end of a player becomes that one. */
  ghost predicate NeverWidens(before: End, after: End) {
    forall ends: map<int, End>, player: int, t: int :: player in ends && t in ends && ends[player] == before ==>
      RangeWithin(RangeOf(ends[player := after], t), RangeOf(ends, t))
  }

  /** A best end that rises passes a player who was surely above. */
  lemma HigherBestWidens(before: End, after: End)
    requires before.worst <= before.best < after.best && after.worst <= after.best
    ensures !NeverWidens(before, after)
  {
    var x := before.best + 1;
    var ends := map[1 := before, 2 := End(x, x)];
    var more := ends[1 := after];
    assert SurelyAbove(ends, 1) == {2} && SurelyAbove(more, 1) == {};
    assert !RangeWithin(RangeOf(more, 1), RangeOf(ends, 1));
  }

  /** A worst end that falls lets a player reach who was surely below. */
  lemma LowerWorstWidens(before: End, after: End)
    requires after.worst < before.worst <= before.best && after.worst <= after.best
    ensures !NeverWidens(before, after)
  {
    var x := before.worst - 1;
    var ends := map[1 := before, 2 := End(x, x)];
    var more := ends[1 := after];
    assert MayReach(ends, 1) == {1} && MayReach(more, 1) == {1, 2};
    assert !RangeWithin(RangeOf(more, 1), RangeOf(ends, 1));
  }

  /** Ranges never widen exactly when the ends narrow. */
  lemma NeverWidensExactly(before: End, after: End)
    requires before.worst <= before.best && after.worst <= after.best
    ensures NeverWidens(before, after) <==> Within(after, before)
  {
    if Within(after, before) {
      forall ends: map<int, End>, player: int, t: int | player in ends && t in ends && ends[player] == before
        ensures RangeWithin(RangeOf(ends[player := after], t), RangeOf(ends, t))
      {
        NarrowerEndsNarrowRanges(ends, ends[player := after], t);
      }
    } else if before.best < after.best {
      HigherBestWidens(before, after);
    } else {
      LowerWorstWidens(before, after);
    }
  }

  /** A battle never widens a range, on any board, exactly when a slot was open for it or it moved nothing. */
  lemma BattleWidensExactly(trophies: int, now: int, d: Day, zero: Slots, attack: bool, amount: int)
    requires Known(d) && 0 <= amount <= BATTLE_TROPHIES
    ensures NeverWidens(EndOf(StandingOf(trophies, d, zero)), EndOf(StandingOf(now, Played(d, attack, amount), zero)))
      <==> SlotOpen(d, zero, attack) || amount == 0
  {
    var before, after := EndOf(StandingOf(trophies, d, zero)), EndOf(StandingOf(now, Played(d, attack, amount), zero));
    BattleNarrowsEnds(trophies, now, d, zero, attack, amount);
    NeverWidensExactly(before, after);
  }

  /** Without a saved day the ends move with the trophies, so a range can widen exactly when they changed. */
  lemma UnknownDayShifts(trophies: int, change: int, d: Day, zero: Slots)
    requires !Known(d)
    ensures var before, after := EndOf(StandingOf(trophies, d, zero)), EndOf(StandingOf(trophies + change, d, zero));
      (Within(after, before) <==> change == 0) && (NeverWidens(before, after) <==> change == 0)
  {
    NeverWidensExactly(EndOf(StandingOf(trophies, d, zero)), EndOf(StandingOf(trophies + change, d, zero)));
  }
}
