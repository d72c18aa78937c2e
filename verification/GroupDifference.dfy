/**
 Trophies gained on every other group member: pairs compared on the days both have counted, then
 averaged over the members that share such a day. Averages are kept unrounded.
 */
module GroupDifference {
  import opened Basics

  datatype State = Complete | Correcting | Other

  datatype Day = Day(start: int, state: State, net: Option<int>)

  datatype Player = Player(days: seq<Day>, inGroup: bool)

  predicate Counts(d: Day) { (d.state.Complete? || d.state.Correcting?) && d.net.Some? }

  /** The net of each counted day; a start listed twice keeps the last. */
  function Counted(days: seq<Day>): map<int, int> {
    if days == [] then map[]
    else
      var last := days[|days| - 1];
      if Counts(last) then Counted(days[..|days| - 1])[last.start := last.net.value] else Counted(days[..|days| - 1])
  }

  /** Exactly the starts of complete or correcting days with a net, each with the net of the last such day. */
  lemma {:induction false} CountedExactly(days: seq<Day>, start: int)
    ensures start in Counted(days)
      <==> exists k :: 0 <= k < |days| && days[k].start == start && !days[k].state.Other? && days[k].net.Some?
    ensures start in Counted(days) ==>
              exists k :: 0 <= k < |days| && days[k].start == start && !days[k].state.Other?
                && days[k].net == Some(Counted(days)[start])
                && forall j :: k < j < |days| && days[j].start == start ==> days[j].state.Other? || days[j].net.None?
  {
    if days != [] {
      var last := |days| - 1;
      CountedExactly(days[..last], start);
      if days[last].start == start && !days[last].state.Other? && days[last].net.Some? {
        assert days[last].net == Some(Counted(days)[start]);
      } else {
        assert start in Counted(days) <==> start in Counted(days[..last]);
      }
    }
  }

  function Shared(mine: map<int, int>, theirs: map<int, int>): set<int> { mine.Keys * theirs.Keys }

  // ----- The gap between two players -----

  lemma HasDay(days: set<int>)
    requires days != {}
    ensures exists d :: d in days
  {
    var d := Pick(days);
  }

  ghost function AnyOf(days: set<int>): (day: int)
    requires days != {}
    ensures day in days
  {
    HasDay(days);
    var d :| d in days;
    d
  }

  ghost function GapOver(days: set<int>, mine: map<int, int>, theirs: map<int, int>): int
    requires days <= mine.Keys && days <= theirs.Keys
  {
    if days == {} then 0
    else
      var d := AnyOf(days);
      mine[d] - theirs[d] + GapOver(days - {d}, mine, theirs)
  }

  /** The days may be summed in any order. */
  lemma {:induction false} GapSplits(days: set<int>, mine: map<int, int>, theirs: map<int, int>, day: int)
    requires days <= mine.Keys && days <= theirs.Keys && day in days
    ensures GapOver(days, mine, theirs) == mine[day] - theirs[day] + GapOver(days - {day}, mine, theirs)
    decreases |days|
  {
    var d := AnyOf(days);
    if d != day {
      GapSplits(days - {d}, mine, theirs, day);
      GapSplits(days - {day}, mine, theirs, d);
      assert days - {d} - {day} == days - {day} - {d};
    }
  }

  ghost function Gap(mine: map<int, int>, theirs: map<int, int>): int { GapOver(Shared(mine, theirs), mine, theirs) }

  lemma {:induction false} GapOverTurns(days: set<int>, mine: map<int, int>, theirs: map<int, int>)
    requires days <= mine.Keys && days <= theirs.Keys
    ensures GapOver(days, mine, theirs) == -GapOver(days, theirs, mine)
    decreases |days|
  {
    if days != {} {
      GapOverTurns(days - {AnyOf(days)}, mine, theirs);
    }
  }

  /** What one player gained on another, the other lost to them. */
  lemma GapIsAntisymmetric(mine: map<int, int>, theirs: map<int, int>)
    ensures Gap(mine, theirs) == -Gap(theirs, mine)
  {
    GapOverTurns(Shared(mine, theirs), mine, theirs);
    assert Shared(mine, theirs) == Shared(theirs, mine);
  }

  // ----- One player's rivals -----

  predicate Rivals(players: seq<Player>, i: nat, j: nat)
    requires i < |players| && j < |players|
  {
    i != j && players[j].inGroup && Shared(Counted(players[i].days), Counted(players[j].days)) != {}
  }

  ghost function GapTo(players: seq<Player>, i: nat, j: nat): int
    requires i < |players| && j < |players|
  {
    if Rivals(players, i, j) then Gap(Counted(players[i].days), Counted(players[j].days)) else 0
  }

  ghost function GapsTo(players: seq<Player>, i: nat, n: nat): int
    requires i < |players| && n <= |players|
  {
    if n == 0 then 0 else GapsTo(players, i, n - 1) + GapTo(players, i, n - 1)
  }

  function RivalsIn(players: seq<Player>, i: nat, n: nat): nat
    requires i < |players| && n <= |players|
  {
    if n == 0 then 0 else RivalsIn(players, i, n - 1) + if Rivals(players, i, n - 1) then 1 else 0
  }

  /** The average gap over the player's rivals; None without one. */
  ghost predicate IsDifference(players: seq<Player>, i: nat, difference: Option<real>)
    requires i < |players|
  {
    var rivals := RivalsIn(players, i, |players|);
    && (difference.None? <==> rivals == 0)
    && (difference.Some? ==> difference.value * rivals as real == GapsTo(players, i, |players|) as real)
  }

  lemma {:induction false} NoRivalsExactly(players: seq<Player>, i: nat, n: nat)
    requires i < |players| && n <= |players|
    ensures RivalsIn(players, i, n) == 0 <==> forall j :: 0 <= j < n ==> !Rivals(players, i, j)
  {
    if n > 0 { NoRivalsExactly(players, i, n - 1); }
  }

  lemma RivalShares(players: seq<Player>, i: nat, j: nat) returns (d: int)
    requires i < |players| && j < |players| && Rivals(players, i, j)
    ensures j != i && players[j].inGroup && d in Counted(players[i].days) && d in Counted(players[j].days)
  {
    d := Pick(Shared(Counted(players[i].days), Counted(players[j].days)));
  }

  lemma SharingIsRival(players: seq<Player>, i: nat, j: nat, d: int)
    requires i < |players| && j < |players| && j != i && players[j].inGroup
    requires d in Counted(players[i].days) && d in Counted(players[j].days)
    ensures Rivals(players, i, j)
  {
    assert d in Shared(Counted(players[i].days), Counted(players[j].days));
  }

  /** A player is compared exactly when another, of the group, has a counted day of theirs. */
  lemma ComparedExactly(players: seq<Player>, i: nat, difference: Option<real>)
    requires i < |players| && IsDifference(players, i, difference)
    ensures difference.Some? <==> exists j, d :: 0 <= j < |players| && j != i && players[j].inGroup
                                    && d in Counted(players[i].days) && d in Counted(players[j].days)
  {
    NoRivalsExactly(players, i, |players|);
    if difference.Some? {
      var j :| 0 <= j < |players| && Rivals(players, i, j);
      var d := RivalShares(players, i, j);
      assert d in Counted(players[j].days);
    } else {
      forall j, d | 0 <= j < |players| && j != i && players[j].inGroup
        && d in Counted(players[i].days) && d in Counted(players[j].days)
        ensures Rivals(players, i, j)
      {
        SharingIsRival(players, i, j, d);
      }
    }
  }

  /** Sums one pair's shared days. */
  method SumGap(mine: map<int, int>, theirs: map<int, int>) returns (gap: int)
    ensures gap == Gap(mine, theirs)
  {
    gap := 0;
    var rest := Shared(mine, theirs);
    while rest != {}
      invariant rest <= Shared(mine, theirs) && gap + GapOver(rest, mine, theirs) == Gap(mine, theirs)
      decreases |rest|
    {
      ghost var some := Pick(rest);
      var day :| day in rest;
      GapSplits(rest, mine, theirs, day);
      gap, rest := gap + mine[day] - theirs[day], rest - {day};
    }
  }

  method AddGroupDifference(players: seq<Player>) returns (differences: seq<Option<real>>)
    ensures |differences| == |players|
    ensures forall i :: 0 <= i < |players| ==> IsDifference(players, i, differences[i])
  {
    differences := [];
    for i := 0 to |players|
      invariant |differences| == i && forall k :: 0 <= k < i ==> IsDifference(players, k, differences[k])
    {
      var mine := Counted(players[i].days);
      var sum, count := 0, 0;
      for j := 0 to |players|
        invariant sum == GapsTo(players, i, j) && count == RivalsIn(players, i, j)
      {
        var theirs := Counted(players[j].days);
        if i != j && players[j].inGroup && Shared(mine, theirs) != {} {
          var gap := SumGap(mine, theirs);
          sum, count := sum + gap, count + 1;
        }
      }
      var difference := if count > 0 then Some(sum as real / count as real) else None;
      differences := differences + [difference];
    }
  }

  // ----- The group's trophies are conserved -----

  /** The gaps of the first n players to the first n, counting group members only. */
  ghost function GroupSum(players: seq<Player>, n: nat): int
    requires n <= |players|
  {
    if n == 0 then 0
    else GroupSum(players, n - 1) + if players[n - 1].inGroup then GapsTo(players, n - 1, |players|) else 0
  }

  ghost function PairGap(players: seq<Player>, i: nat, j: nat): int
    requires i < |players| && j < |players|
  {
    if players[i].inGroup then GapTo(players, i, j) else 0
  }

  lemma PairGapTurns(players: seq<Player>, i: nat, j: nat)
    requires i < |players| && j < |players|
    ensures PairGap(players, i, j) == -PairGap(players, j, i)
  {
    var mine, theirs := Counted(players[i].days), Counted(players[j].days);
    assert Shared(mine, theirs) == Shared(theirs, mine);
    GapIsAntisymmetric(mine, theirs);
  }

  ghost function RowSum(players: seq<Player>, i: nat, n: nat): int
    requires i < |players| && n <= |players|
  {
    if n == 0 then 0 else RowSum(players, i, n - 1) + PairGap(players, i, n - 1)
  }

  /** All pairs among the first `rows` and the first `columns` players. */
  ghost function Square(players: seq<Player>, rows: nat, columns: nat): int
    requires rows <= |players| && columns <= |players|
  {
    if rows == 0 then 0 else Square(players, rows - 1, columns) + RowSum(players, rows - 1, columns)
  }

  lemma {:induction false} ColumnTurns(players: seq<Player>, rows: nat, column: nat)
    requires rows <= |players| && column < |players|
    ensures Square(players, rows, column + 1) == Square(players, rows, column) - RowSum(players, column, rows)
  {
    if rows > 0 {
      ColumnTurns(players, rows - 1, column);
      PairGapTurns(players, rows - 1, column);
    }
  }

  lemma {:induction false} SquareIsNothing(players: seq<Player>, n: nat)
    requires n <= |players|
    ensures Square(players, n, n) == 0
  {
    if n > 0 {
      SquareIsNothing(players, n - 1);
      ColumnTurns(players, n - 1, n - 1);
      PairGapTurns(players, n - 1, n - 1);
    }
  }

  lemma {:induction false} RowIsGaps(players: seq<Player>, i: nat, n: nat)
    requires i < |players| && n <= |players|
    ensures RowSum(players, i, n) == if players[i].inGroup then GapsTo(players, i, n) else 0
  {
    if n > 0 { RowIsGaps(players, i, n - 1); }
  }

  lemma {:induction false} SquareIsGroupSum(players: seq<Player>, n: nat)
    requires n <= |players|
    ensures Square(players, n, |players|) == GroupSum(players, n)
  {
    if n > 0 {
      SquareIsGroupSum(players, n - 1);
      RowIsGaps(players, n - 1, |players|);
    }
  }

  /** The group members' averages, each taken as often as it has rivals. */
  function Weighted(players: seq<Player>, differences: seq<Option<real>>, n: nat): real
    requires |differences| == |players| && n <= |players|
  {
    if n == 0 then 0.0
    else if !players[n - 1].inGroup || differences[n - 1].None? then Weighted(players, differences, n - 1)
    else Weighted(players, differences, n - 1) + differences[n - 1].value * RivalsIn(players, n - 1, |players|) as real
  }

  lemma {:induction false} NoRivalsNoGaps(players: seq<Player>, i: nat, n: nat)
    requires i < |players| && n <= |players| && RivalsIn(players, i, n) == 0
    ensures GapsTo(players, i, n) == 0
  {
    if n > 0 { NoRivalsNoGaps(players, i, n - 1); }
  }

  lemma {:induction false} WeightedIsGroupSum(players: seq<Player>, differences: seq<Option<real>>, n: nat)
    requires |differences| == |players| && n <= |players|
    requires forall i :: 0 <= i < |players| ==> IsDifference(players, i, differences[i])
    ensures Weighted(players, differences, n) == GroupSum(players, n) as real
  {
    if n > 0 {
      WeightedIsGroupSum(players, differences, n - 1);
      assert IsDifference(players, n - 1, differences[n - 1]);
      if differences[n - 1].None? { NoRivalsNoGaps(players, n - 1, |players|); }
    }
  }

  /**
   Whoever else is listed, the group members' averages weighted by their numbers of rivals sum to
   nothing: what members gain on one another is lost by others.
   */
  lemma GroupConservesTrophies(players: seq<Player>, differences: seq<Option<real>>)
    requires |differences| == |players|
    requires forall i :: 0 <= i < |players| ==> IsDifference(players, i, differences[i])
    ensures Weighted(players, differences, |players|) == 0.0
  {
    WeightedIsGroupSum(players, differences, |players|);
    SquareIsGroupSum(players, |players|);
    SquareIsNothing(players, |players|);
  }
}
