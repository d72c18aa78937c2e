/**
 Elapsed time for alerts, with the minutes before each daily Reset left out: the time from 04:55
 to 05:00 UTC never counts.
 */
module ResetClock {
  import opened Basics

  const RESET: int := 18_000 * SECOND
  const QUIET: int := 300 * SECOND

  /** Whether the microsecond from t to t + 1 lies in some day's 04:55-05:00. */
  predicate InQuiet(t: int) { RESET - QUIET <= t % DAY < RESET }

  /** How many microseconds from a up to b lie in quiet minutes. */
  function Quiet(a: int, b: int): (n: nat)
    ensures a <= b ==> n <= b - a
    decreases b - a
  {
    if b <= a then 0 else Quiet(a, b - 1) + if InQuiet(b - 1) then 1 else 0
  }

  /** The counted time from start to end, at most the last day of it. */
  function Counted(start: int, end: int): int {
    var from := Max(start, end - DAY);
    if end <= from then 0 else end - from - Quiet(from, end)
  }

  function Overlap(a: int, b: int, stop: int): int { Max(0, Min(b, stop) - Max(a, stop - QUIET)) }

  /** The 05:00 of the day that t lies in. */
  function Boundary(t: int): int { t / DAY * DAY + RESET }

  /** Within a day of a, only the quiet minutes of a's own day and of the next can be met. */
  lemma QuietIsOneOfTwo(a: int, t: int)
    requires a <= t < a + DAY
    ensures InQuiet(t) <==> Boundary(a) - QUIET <= t < Boundary(a) || Boundary(a) + DAY - QUIET <= t < Boundary(a) + DAY
  {
    assert a == a / DAY * DAY + a % DAY;
    assert t == t / DAY * DAY + t % DAY;
    assert t / DAY == a / DAY || t / DAY == a / DAY + 1;
  }

  lemma {:induction false} TwoOverlapsAreAllQuiet(a: int, b: int)
    requires a <= b <= a + DAY
    ensures Quiet(a, b) == Overlap(a, b, Boundary(a)) + Overlap(a, b, Boundary(a) + DAY)
    decreases b - a
  {
    if a < b {
      TwoOverlapsAreAllQuiet(a, b - 1);
      QuietIsOneOfTwo(a, b - 1);
    }
  }

  /** Subtracting two windows leaves exactly the time outside every day's quiet minutes. */
  method ElapsedWithoutReset(start0: int, end: int) returns (elapsed: int)
    ensures elapsed == Counted(start0, end)
  {
    var start := Max(start0, end - DAY);
    elapsed := Max(0, end - start);
    var boundary := Boundary(start);
    for offset := 0 to 2
      invariant elapsed == Max(0, end - start)
        - (if offset >= 1 then Overlap(start, end, boundary) else 0)
        - (if offset >= 2 then Overlap(start, end, boundary + DAY) else 0)
    {
      var stop := boundary + offset * DAY;
      elapsed := elapsed - Max(0, Min(end, stop) - Max(start, stop - QUIET));
    }
    if start <= end {
      TwoOverlapsAreAllQuiet(start, end);
    }
  }

  /** A whole day holds exactly one quiet stretch, wherever it starts. */
  lemma DayHasOneQuiet(a: int)
    ensures Quiet(a, a + DAY) == QUIET
  {
    TwoOverlapsAreAllQuiet(a, a + DAY);
    assert a == a / DAY * DAY + a % DAY;
  }

  lemma {:induction false} QuietSplitsFirst(a: int, b: int)
    requires a < b
    ensures Quiet(a, b) == Quiet(a + 1, b) + if InQuiet(a) then 1 else 0
    decreases b - a
  {
    if a + 1 < b {
      QuietSplitsFirst(a, b - 1);
    }
  }

  lemma QuietRepeats(t: int)
    ensures InQuiet(t + DAY) == InQuiet(t)
  {
    assert t + DAY == (t / DAY + 1) * DAY + t % DAY;
  }

  /** A whole day later, what leaves the last day is as quiet as what enters it. */
  lemma DayMovesOn(from: int)
    ensures Quiet(from + 1, from + DAY + 1) == Quiet(from, from + DAY)
  {
    QuietSplitsFirst(from, from + DAY + 1);
    QuietRepeats(from);
  }

  lemma CountedTicks(start: int, end: int)
    ensures Counted(start, end) <= Counted(start, end + 1)
  {
    if start <= end - DAY {
      DayMovesOn(end - DAY);
    }
  }

  lemma {:induction false} CountedNeverFalls(start: int, end: int, later: int)
    requires end <= later
    ensures Counted(start, end) <= Counted(start, later)
    decreases later - end
  {
    if end < later {
      CountedNeverFalls(start, end, later - 1);
      CountedTicks(start, later - 1);
    }
  }

  lemma {:induction false} CountedLessEarlier(start: int, earlier: int, end: int)
    requires earlier <= start <= end
    ensures end - start - Quiet(start, end) <= end - earlier - Quiet(earlier, end)
    decreases start - earlier
  {
    if earlier < start {
      CountedLessEarlier(start, earlier + 1, end);
      QuietSplitsFirst(earlier, end);
    }
  }

  /** Never negative, and never above a day without its quiet minutes. */
  lemma CountedWithinADay(start: int, end: int)
    ensures 0 <= Counted(start, end) <= DAY - QUIET
  {
    var from := Max(start, end - DAY);
    if from < end {
      CountedLessEarlier(from, end - DAY, end);
      DayHasOneQuiet(end - DAY);
    }
  }
}
