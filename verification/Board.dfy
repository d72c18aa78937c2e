/**
 The board read for rank ranges and the held share: every player's best and worst end of day, and
 the day's defenses by day start trophies.
 */
module Board {
  import opened Basics
  import opened Sorting

  const BATTLES: int := 8
  const BATTLE_TROPHIES: int := 40

  /** A player's saved Legend day; any column may be missing. */
  datatype Day = Day(
    start: Option<int>, attacks: Option<int>, gained: Option<int>, defended: Option<int>, lost: Option<int>,
    tripled: Option<int>, version: Option<int>)

  const NO_DAY := Day(None, None, None, None, None, None, None)

  datatype Live = Live(tag: int, trophies: int)

  /** A saved day's attacks and defenses that ended with no opponent. */
  datatype Slots = Slots(attacks: int, defenses: int)

  datatype End = End(best: int, worst: int)

  /** Trophies now and the battles still to come. */
  datatype Standing = Standing(basis: int, attacks: int, defenses: int)

  function Open(used: int): int { Max(0, BATTLES - used) }

  predicate Known(d: Day) { d.start.Some? && d.attacks.Some? && d.gained.Some? && d.defended.Some? && d.lost.Some? }

  function StandingOf(trophies: int, d: Day, zero: Slots): Standing {
    if !Known(d) then Standing(trophies, BATTLES, BATTLES)
    else Standing(d.start.value + d.gained.value - d.lost.value,
                  Open(d.attacks.value + zero.attacks), Open(d.defended.value + zero.defenses))
  }

  function EndOf(s: Standing): End {
    End(s.basis + BATTLE_TROPHIES * s.attacks, s.basis - BATTLE_TROPHIES * s.defenses)
  }

  datatype Tally = Tally(defenses: int, held: int, lost: int)

  datatype Column = Defenses | Held | Lost

  function Part(t: Tally, c: Column): int {
    match c
    case Defenses => t.defenses
    case Held => t.held
    case Lost => t.lost
  }

  function Plus(a: Tally, b: Tally): Tally { Tally(a.defenses + b.defenses, a.held + b.held, a.lost + b.lost) }

  /** A day counts when it has defenses and a start. */
  predicate Counts(d: Day) { d.defended.GetOr(0) != 0 && d.start.Some? }

  /** A day that counts needs its trophies lost: int(None) raises. */
  predicate Raises(d: Day) { Counts(d) && d.lost.None? }

  function TallyOf(d: Day): Tally {
    Tally(d.defended.GetOr(0), d.defended.GetOr(0) - d.tripled.GetOr(0), d.lost.GetOr(0))
  }

  /** A plain scan: the days that count and start from low to high. */
  function Scan(days: seq<Day>, c: Column, low: int, high: int): int {
    if days == [] then 0
    else
      var last := days[|days| - 1];
      Scan(days[..|days| - 1], c, low, high)
        + if Counts(last) && low <= last.start.value <= high then Part(TallyOf(last), c) else 0
  }

  function PartIn(tallies: map<int, Tally>, c: Column, low: int, high: int, start: int): int {
    if low <= start <= high && start in tallies then Part(tallies[start], c) else 0
  }

  /** The same totals from tallies kept by start. */
  function Sum(starts: seq<int>, tallies: map<int, Tally>, c: Column, low: int, high: int): int {
    if starts == [] then 0 else PartIn(tallies, c, low, high, starts[0]) + Sum(starts[1..], tallies, c, low, high)
  }

  lemma {:induction false} SumAppends(starts: seq<int>, more: int, tallies: map<int, Tally>, c: Column, low: int,
          high: int)
    ensures Sum(starts + [more], tallies, c, low, high)
        == Sum(starts, tallies, c, low, high) + PartIn(tallies, c, low, high, more)
  {
    var longer := starts + [more];
    if starts == [] {
      assert longer[1..] == [];
    } else {
      SumAppends(starts[1..], more, tallies, c, low, high);
      assert longer[1..] == starts[1..] + [more];
    }
  }

  lemma {:induction false} SumKeeps(starts: seq<int>, tallies: map<int, Tally>, k: int, t: Tally, c: Column,
          low: int, high: int)
    requires k !in starts
    ensures Sum(starts, tallies[k := t], c, low, high) == Sum(starts, tallies, c, low, high)
  {
    if starts != [] {
      SumKeeps(starts[1..], tallies, k, t, c, low, high);
    }
  }

  /** Adding to one start's tally adds to the totals exactly where the start is in range. */
  lemma {:induction false} SumAdds(starts: seq<int>, tallies: map<int, Tally>, k: int, t: Tally, c: Column,
          low: int, high: int)
    requires AllDistinct(starts) && k in starts && k in tallies
    ensures Sum(starts, tallies[k := Plus(tallies[k], t)], c, low, high)
      == Sum(starts, tallies, c, low, high) + if low <= k <= high then Part(t, c) else 0
  {
    if starts[0] == k {
      SumKeeps(starts[1..], tallies, k, Plus(tallies[k], t), c, low, high);
    } else {
      assert k in starts[1..];
      SumAdds(starts[1..], tallies, k, t, c, low, high);
    }
  }

  lemma {:induction false} InsertKeepsSum(x: int, starts: seq<int>, key: int -> int, tallies: map<int, Tally>,
          c: Column, low: int, high: int)
    ensures Sum(Insert(x, starts, key), tallies, c, low, high)
        == PartIn(tallies, c, low, high, x) + Sum(starts, tallies, c, low, high)
  {
    if starts != [] && key(x) > key(starts[0]) {
      var rest := Insert(x, starts[1..], key);
      InsertKeepsSum(x, starts[1..], key, tallies, c, low, high);
      assert ([starts[0]] + rest)[1..] == rest;
    } else {
      assert ([x] + starts)[1..] == starts;
    }
  }

  lemma {:induction false} SortKeepsSum(starts: seq<int>, key: int -> int, tallies: map<int, Tally>, c: Column,
          low: int, high: int)
    ensures Sum(SortBy(starts, key), tallies, c, low, high) == Sum(starts, tallies, c, low, high)
  {
    if starts != [] {
      SortKeepsSum(starts[1..], key, tallies, c, low, high);
      InsertKeepsSum(starts[0], SortBy(starts[1..], key), key, tallies, c, low, high);
    }
  }

  // ----- _similar -----

  function Itself(): int -> int { (x: int) => x }

  /** Distinct starts ascending, and the totals of those before each. */
  datatype Similar = Similar(starts: seq<int>, below: seq<Tally>)

  function Prefix(starts: seq<int>, tallies: map<int, Tally>, c: Column, n: nat): int
    requires n <= |starts|
  {
    if n == 0 then 0
    else Prefix(starts, tallies, c, n - 1) + PartIn(tallies, c, starts[n - 1], starts[n - 1], starts[n - 1])
  }

  predicate IsPrefix(t: Tally, starts: seq<int>, tallies: map<int, Tally>, n: nat)
    requires n <= |starts|
  {
    && t.defenses == Prefix(starts, tallies, Defenses, n) && t.held == Prefix(starts, tallies, Held, n)
    && t.lost == Prefix(starts, tallies, Lost, n)
  }

  /** The totals of the tallies before each start. */
  ghost predicate PrefixesOf(s: Similar, keys: seq<int>, tallies: map<int, Tally>) {
    && s.starts == SortBy(keys, Itself()) && |s.below| == |s.starts| + 1
    && forall n: nat :: n <= |s.starts| ==> IsPrefix(s.below[n], s.starts, tallies, n)
  }

  lemma SortedInTallies(keys: seq<int>, starts: seq<int>, tallies: map<int, Tally>)
    requires starts == SortBy(keys, Itself()) && forall i :: 0 <= i < |keys| ==> keys[i] in tallies
    ensures forall i :: 0 <= i < |starts| ==> starts[i] in tallies
  {
    SortKeepsAll(keys, Itself());
    forall i | 0 <= i < |starts| ensures starts[i] in tallies {
      assert starts[i] in multiset(starts);
      assert starts[i] in keys;
    }
  }

  lemma PrefixGoesOn(t: Tally, starts: seq<int>, tallies: map<int, Tally>, i: nat)
    requires i < |starts| && starts[i] in tallies && IsPrefix(t, starts, tallies, i)
    ensures IsPrefix(Plus(t, tallies[starts[i]]), starts, tallies, i + 1)
  {}

  method MakeSimilar(keys: seq<int>, tallies: map<int, Tally>) returns (s: Similar)
    requires forall i :: 0 <= i < |keys| ==> keys[i] in tallies
    ensures PrefixesOf(s, keys, tallies)
  {
    var starts := SortBy(keys, Itself());
    SortedInTallies(keys, starts, tallies);
    var below := [Tally(0, 0, 0)];
    for i := 0 to |starts|
      invariant |below| == i + 1
      invariant forall n: nat :: n <= i ==> IsPrefix(below[n], starts, tallies, n)
    {
      PrefixGoesOn(below[i], starts, tallies, i);
      below := below + [Plus(below[i], tallies[starts[i]])];
    }
    s := Similar(starts, below);
  }

  // ----- _read_board -----

  datatype Board = Board(
    tags: seq<int>, ends: map<int, End>, bestEnds: seq<int>, worstEnds: seq<int>, held: int, defenses: int,
        similar: Similar)

  function Bests(tags: seq<int>, ends: map<int, End>): seq<int> {
    seq(|tags|, i requires 0 <= i < |tags| => if tags[i] in ends then ends[tags[i]].best else 0)
  }

  function Worsts(tags: seq<int>, ends: map<int, End>): seq<int> {
    seq(|tags|, i requires 0 <= i < |tags| => if tags[i] in ends then ends[tags[i]].worst else 0)
  }

  /** Every player of the map is listed once. */
  predicate Lists(tags: seq<int>, ends: map<int, End>) {
    AllDistinct(tags) && |tags| == |ends| && forall i :: 0 <= i < |tags| ==> tags[i] in ends
  }

  /** The board's lists follow from its ends. */
  ghost predicate Valid(b: Board) {
    && Lists(b.tags, b.ends)
    && b.bestEnds == SortBy(Bests(b.tags, b.ends), Itself()) && b.worstEnds == SortBy(Worsts(b.tags, b.ends), Itself())
    && forall t :: t in b.ends ==> b.ends[t].worst <= b.ends[t].best
  }

  function DayOf(days: map<int, Day>, tag: int): Day { Lookup(days, tag).GetOr(NO_DAY) }

  function DaysOf(live: seq<Live>, days: map<int, Day>): seq<Day> {
    seq(|live|, i requires 0 <= i < |live| => DayOf(days, live[i].tag))
  }

  function SlotsOf(slots: map<int, Slots>, d: Day): Slots { Lookup(slots, d.version.GetOr(-1)).GetOr(Slots(0, 0)) }

  function RowEnd(row: Live, days: map<int, Day>, slots: map<int, Slots>): End {
    EndOf(StandingOf(row.trophies, DayOf(days, row.tag), SlotsOf(slots, DayOf(days, row.tag))))
  }

  /**
   A row's ends: from what its saved day has won and lost, 40 trophies for each attack and each
   defense still open, those that ended with no opponent used; without the whole day, eight of each
   from the trophies now.
   */
  lemma RowEndTells(row: Live, days: map<int, Day>, slots: map<int, Slots>)
    ensures var d := if row.tag in days then days[row.tag] else NO_DAY;
      var zero := if d.version.Some? && d.version.value in slots then slots[d.version.value]
                  else if d.version.None? && -1 in slots then slots[-1] else Slots(0, 0);
      RowEnd(row, days, slots) ==
      if d.start.Some? && d.attacks.Some? && d.gained.Some? && d.defended.Some? && d.lost.Some?
      then
        var now := d.start.value + d.gained.value - d.lost.value;
        End(now + 40 * Max(0, 8 - (d.attacks.value + zero.attacks)),
            now - 40 * Max(0, 8 - (d.defended.value + zero.defenses)))
      else End(row.trophies + 320, row.trophies - 320)
  {}

  /** A day's defenses count as held but for those tripled, and its trophies lost are all those lost. */
  lemma TallyTells(d: Day)
    requires d.defended.Some? && d.lost.Some?
    ensures TallyOf(d).defenses == d.defended.value && TallyOf(d).lost == d.lost.value
    ensures TallyOf(d).held + (if d.tripled.Some? then d.tripled.value else 0) == d.defended.value
  {}

  /** The day's defenses and held defenses over every player, whatever they started on. */
  function All(days: seq<Day>, c: Column): int {
    if days == [] then 0
    else
      var last := days[|days| - 1];
      All(days[..|days| - 1], c) + if last.defended.GetOr(0) != 0 then Part(TallyOf(last), c) else 0
  }

  lemma AllAppends(days: seq<Day>, d: Day, c: Column)
    ensures All(days + [d], c) == All(days, c) + if d.defended.GetOr(0) != 0 then Part(TallyOf(d), c) else 0
  {
    assert (days + [d])[..|days|] == days;
  }

  lemma ScanAppends(days: seq<Day>, d: Day, c: Column, low: int, high: int)
    ensures Scan(days + [d], c, low, high)
      == Scan(days, c, low, high) + if Counts(d) && low <= d.start.value <= high then Part(TallyOf(d), c) else 0
  {
    assert (days + [d])[..|days|] == days;
  }

  predicate SameTotals(days: seq<Day>, keys: seq<int>, tallies: map<int, Tally>, c: Column, low: int, high: int) {
    Sum(keys, tallies, c, low, high) == Scan(days, c, low, high)
  }

  /** The tallies kept by start agree with a plain scan of the days, over every range. */
  ghost predicate Tallied(days: seq<Day>, keys: seq<int>, tallies: map<int, Tally>) {
    && AllDistinct(keys) && (forall i :: 0 <= i < |keys| ==> keys[i] in tallies)
    && (forall k :: k in tallies ==> k in keys)
    && forall c, low, high :: SameTotals(days, keys, tallies, c, low, high)
  }

  lemma AddedTotals(days: seq<Day>, d: Day, keys: seq<int>, tallies: map<int, Tally>, c: Column, low: int, high: int)
    requires AllDistinct(keys) && Counts(d) && d.start.value in keys && d.start.value in tallies
    requires SameTotals(days, keys, tallies, c, low, high)
    ensures SameTotals(days + [d], keys, tallies[d.start.value := Plus(tallies[d.start.value], TallyOf(d))], c, low,
        high)
  {
    SumAdds(keys, tallies, d.start.value, TallyOf(d), c, low, high);
    ScanAppends(days, d, c, low, high);
  }

  /** A new start with nothing in it changes no totals. */
  lemma NewTotals(days: seq<Day>, start: int, keys: seq<int>, tallies: map<int, Tally>, c: Column, low: int, high: int)
    requires start !in keys && SameTotals(days, keys, tallies, c, low, high)
    ensures SameTotals(days, keys + [start], tallies[start := Tally(0, 0, 0)], c, low, high)
  {
    SumAppends(keys, start, tallies[start := Tally(0, 0, 0)], c, low, high);
    SumKeeps(keys, tallies, start, Tally(0, 0, 0), c, low, high);
  }

  /** by_start.setdefault(start, [0, 0, 0]). */
  method SetDefault(ghost days: seq<Day>, start: int, keys: seq<int>, tallies: map<int, Tally>)
    returns (longer: seq<int>, more: map<int, Tally>)
    requires Tallied(days, keys, tallies)
    ensures Tallied(days, longer, more) && start in more
  {
    longer, more := keys, tallies;
    if start !in tallies {
      longer, more := keys + [start], tallies[start := Tally(0, 0, 0)];
      forall c, low, high ensures SameTotals(days, longer, more, c, low, high) {
        NewTotals(days, start, keys, tallies, c, low, high);
      }
    }
  }

  /** Adds one day to the tallies by start. */
  method AddDay(ghost days: seq<Day>, d: Day, keys: seq<int>, tallies: map<int, Tally>)
    returns (longer: seq<int>, more: map<int, Tally>)
    requires Tallied(days, keys, tallies) && Counts(d) && d.lost.Some?
    ensures Tallied(days + [d], longer, more)
  {
    var start := d.start.value;
    longer, more := SetDefault(days, start, keys, tallies);
    ghost var before := more;
    more := more[start := Plus(more[start], TallyOf(d))];
    forall c, low, high ensures SameTotals(days + [d], longer, more, c, low, high) {
      assert SameTotals(days, longer, before, c, low, high);
      AddedTotals(days, d, longer, before, c, low, high);
    }
  }

  lemma UncountedDay(days: seq<Day>, d: Day, keys: seq<int>, tallies: map<int, Tally>)
    requires Tallied(days, keys, tallies) && !Counts(d)
    ensures Tallied(days + [d], keys, tallies)
  {
    forall c, low, high ensures SameTotals(days + [d], keys, tallies, c, low, high) {
      assert SameTotals(days, keys, tallies, c, low, high);
      UncountedTotals(days, d, keys, tallies, c, low, high);
    }
  }

  lemma UncountedTotals(days: seq<Day>, d: Day, keys: seq<int>, tallies: map<int, Tally>, c: Column, low: int,
          high: int)
    requires !Counts(d) && SameTotals(days, keys, tallies, c, low, high)
    ensures SameTotals(days + [d], keys, tallies, c, low, high)
  {
    ScanAppends(days, d, c, low, high);
  }

  /** A player's ends are those of the last of the first n rows with their tag. */
  function EndAt(live: seq<Live>, n: nat, days: map<int, Day>, slots: map<int, Slots>, tag: int): (end: Option<End>)
    requires n <= |live|
    ensures end.Some? ==> end.value.worst <= end.value.best
  {
    if n == 0 then None
    else if live[n - 1].tag == tag then Some(RowEnd(live[n - 1], days, slots))
    else EndAt(live, n - 1, days, slots, tag)
  }

  predicate EndIs(live: seq<Live>, n: nat, ends: map<int, End>, days: map<int, Day>, slots: map<int, Slots>, tag: int)
    requires n <= |live|
  {
    Lookup(ends, tag) == EndAt(live, n, days, slots, tag)
  }

  ghost predicate EndsAre(live: seq<Live>, n: nat, tags: seq<int>, ends: map<int, End>, days: map<int, Day>,
          slots: map<int, Slots>)
    requires n <= |live|
  {
    && Lists(tags, ends)
    && forall t :: EndIs(live, n, ends, days, slots, t)
  }

  /** Writes one row's ends. */
  method SetEnds(live: seq<Live>, n: nat, tags: seq<int>, ends: map<int, End>, days: map<int, Day>,
          slots: map<int, Slots>)
    returns (tags': seq<int>, ends': map<int, End>)
    requires n < |live| && EndsAre(live, n, tags, ends, days, slots)
    ensures EndsAre(live, n + 1, tags', ends', days, slots)
  {
    var tag := live[n].tag;
    tags' := if tag in ends then tags else tags + [tag];
    ends' := ends[tag := RowEnd(live[n], days, slots)];
    var next := n + 1;
    forall t ensures EndIs(live, next, ends', days, slots, t) {
      assert EndIs(live, n, ends, days, slots, t);
    }
  }

  /** The similar lists hold the days' totals by start. */
  ghost predicate SimilarTo(s: Similar, days: seq<Day>) {
    exists keys, tallies :: Tallied(days, keys, tallies) && PrefixesOf(s, keys, tallies)
  }

  lemma DaysAppend(live: seq<Live>, i: nat, days: map<int, Day>)
    requires i < |live|
    ensures DaysOf(live[..i + 1], days) == DaysOf(live[..i], days) + [DayOf(days, live[i].tag)]
  {}

  /** The day's defenses in the tallies and the totals; None when a day that counts has no trophies lost. */
  method CountDay(ghost done: seq<Day>, d: Day, keys: seq<int>, tallies: map<int, Tally>, defenses: int, held: int)
    returns (counted: Option<(seq<int>, map<int, Tally>)>, allDefenses: int, allHeld: int)
    requires Tallied(done, keys, tallies) && defenses == All(done, Defenses) && held == All(done, Held)
    ensures counted.None? <==> Raises(d)
    ensures counted.Some? ==> Tallied(done + [d], counted.value.0, counted.value.1)
    ensures counted.Some? ==> allDefenses == All(done + [d], Defenses) && allHeld == All(done + [d], Held)
  {
    counted, allDefenses, allHeld := None, defenses, held;
    AllAppends(done, d, Defenses);
    AllAppends(done, d, Held);
    if d.defended.GetOr(0) != 0 {
      allDefenses := allDefenses + d.defended.value;
      allHeld := allHeld + d.defended.value - d.tripled.GetOr(0);
      if d.start.Some? {
        if d.lost.None? {
          return;
        }
        var more, longer := AddDay(done, d, keys, tallies);
        return Some((more, longer)), allDefenses, allHeld;
      }
    }
    UncountedDay(done, d, keys, tallies);
    counted := Some((keys, tallies));
  }

  /** None when a day that counts has no trophies lost. */
  method ReadBoard(live: seq<Live>, days: map<int, Day>, slots: map<int, Slots>) returns (board: Option<Board>)
    ensures board.None? <==> exists i :: 0 <= i < |live| && Raises(DayOf(days, live[i].tag))
    ensures board.Some? ==> Valid(board.value) && EndsAre(live, |live|, board.value.tags, board.value.ends, days, slots)
    ensures board.Some? ==> SimilarTo(board.value.similar, DaysOf(live, days))
    ensures board.Some? ==> board.value.defenses == All(DaysOf(live, days), Defenses)
    ensures board.Some? ==> board.value.held == All(DaysOf(live, days), Held)
  {
    var tags: seq<int>, ends: map<int, End>, held, defenses := [], map[], 0, 0;
    var keys: seq<int>, tallies: map<int, Tally> := [], map[];
    assert forall c, low, high :: SameTotals([], keys, tallies, c, low, high);
    for i := 0 to |live|
      invariant EndsAre(live, i, tags, ends, days, slots)
      invariant Tallied(DaysOf(live[..i], days), keys, tallies)
      invariant defenses == All(DaysOf(live[..i], days), Defenses) && held == All(DaysOf(live[..i], days), Held)
      invariant forall j :: 0 <= j < i ==> !Raises(DayOf(days, live[j].tag))
    {
      var d := DayOf(days, live[i].tag);
      tags, ends := SetEnds(live, i, tags, ends, days, slots);
      var counted;
      counted, defenses, held := CountDay(DaysOf(live[..i], days), d, keys, tallies, defenses, held);
      if counted.None? {
        return None;
      }
      keys, tallies := counted.value.0, counted.value.1;
      DaysAppend(live, i, days);
    }
    assert live[..|live|] == live;
    forall t | t in ends ensures ends[t].worst <= ends[t].best { assert EndIs(live, |live|, ends, days, slots, t); }
    var similar := MakeSimilar(keys, tallies);
    board := Some(Board(tags, ends, SortBy(Bests(tags, ends), Itself()), SortBy(Worsts(tags, ends), Itself()), held,
        defenses, similar));
  }
}
