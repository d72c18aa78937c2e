/**
 Day summaries: one claim for each account and Reset, then its DMs in order, each tried at most
 four times inside two minutes of its first try and before the next Reset.
 */
module SummaryDelivery {
  import opened Basics
  import AlertDelivery

  const NONCE_LIMIT: int := AlertDelivery.NONCE_LIMIT

  datatype Outcome = Sent | Refused | Unreachable(retryAfter: int) | Failed

  /**
   What one try meets: how long it would take and how it would end, when after its start Discord
   would take the message, how much later than asked the loop wakes, and whether the DM is then
   still due.
   */
  datatype Try = Try(lasts: nat, outcome: Outcome, takes: Option<nat>, oversleeps: nat, due: bool)

  /** A try that ends as sent was taken. */
  predicate Honest(t: Try) { t.outcome.Sent? ==> t.takes.Some? && t.takes.value <= t.lasts }

  /** A message of a DM, told apart by its nonce: the log id and the part. */
  datatype Shown = Shown(id: int, part: int, at: int)

  /** Discord shows a message unless it showed one with its nonce in the last two minutes. */
  function Show(shown: seq<Shown>, id: int, part: int, at: int): seq<Shown> {
    if exists i :: 0 <= i < |shown| && shown[i].id == id && shown[i].part == part
        && at - shown[i].at < NONCE_LIMIT
    then shown
    else shown + [Shown(id, part, at)]
  }

  /** The wait before the next try, and the least time since the first, after n tries. */
  function WaitAfter(n: nat): int {
    if n == 0 then 0 else if n == 1 then 10 * SECOND else if n == 2 then 20 * SECOND
    else if n == 3 then 40 * SECOND else 80 * SECOND
  }

  function WaitedFor(n: nat): int {
    if n == 0 then 0 else if n == 1 then 10 * SECOND else if n == 2 then 30 * SECOND else 70 * SECOND
  }

  // ----- The course of one DM, told from what each try meets -----

  /** A DM's last moment: two minutes after its first try, or the next Reset. */
  function LastMoment(from: int, until: int): int { Min(from + NONCE_LIMIT, until) }

  /** The try came to its own end before it was cut off. */
  predicate InTime(t: Try, start: int, last: int) { start + t.lasts < last }

  /** Discord takes the message while the try runs. */
  predicate Takes(t: Try, start: int, last: int) {
    t.takes.Some? && t.takes.value <= t.lasts && start + t.takes.value < last
  }

  /** The time to try again after the try that is the n-th, counted from one. */
  function Pause(t: Try, n: nat): int
    requires t.outcome.Unreachable?
  {
    Max(WaitAfter(n), t.outcome.retryAfter)
  }

  /**
   After a try that Discord could not take another follows, if the wait fits, the DM is still due and
   the loop wakes in time.
   */
  predicate GoesOn(t: Try, start: int, n: nat, last: int) {
    && InTime(t, start, last) && t.outcome.Unreachable? && t.due
    && start + t.lasts + Pause(t, n) + t.oversleeps < last
  }

  /** When the loop is done with the n-th try: cut off, ended, or slept through the wait after it if that fits. */
  function DoneAt(t: Try, start: int, n: nat, last: int): int {
    if !InTime(t, start, last) then last
    else if t.outcome.Unreachable? && start + t.lasts + Pause(t, n) < last then
      start + t.lasts + Pause(t, n) + t.oversleeps
    else start + t.lasts
  }

  /** The clock after these tries of a DM that was begun at `from`. */
  function ClockAfter(tries: seq<Try>, from: int, starts: seq<int>, last: int): int
    requires |starts| <= |tries|
  {
    if starts == [] then from else DoneAt(tries[|starts| - 1], starts[|starts| - 1], |starts|, last)
  }

  /** The k-th try leads to the one after it. */
  predicate Leads(tries: seq<Try>, starts: seq<int>, k: nat, last: int)
    requires k + 1 < |starts| <= |tries|
  {
    && GoesOn(tries[k], starts[k], k + 1, last)
    && starts[k + 1] == starts[k] + tries[k].lasts + Pause(tries[k], k + 1) + tries[k].oversleeps
  }

  /** The tries made of one DM, when each begins, and how it ends. */
  ghost predicate Course(tries: seq<Try>, from: int, until: int, starts: seq<int>, state: Outcome) {
    var last := LastMoment(from, until);
    && |starts| <= |tries| && (starts == [] <==> until <= from) && (starts != [] ==> starts[0] == from)
    && (forall k: nat :: k < |starts| - 1 ==> Leads(tries, starts, k, last))
    && if starts == [] then state == Failed
       else
         var k := |starts| - 1;
         && !GoesOn(tries[k], starts[k], |starts|, last)
         && state == if InTime(tries[k], starts[k], last) && (tries[k].outcome.Sent? || tries[k].outcome.Refused?)
                     then tries[k].outcome else Failed
  }

  /** One part's tries. */
  datatype Made = Made(from: int, starts: seq<int>, state: Outcome)

  ghost predicate AllMade(tries: seq<seq<Try>>, until: int, courses: seq<Made>) {
    && |courses| <= |tries|
    && forall p :: 0 <= p < |courses| ==> Course(tries[p], courses[p].from, until, courses[p].starts, courses[p].state)
  }

  /** The tries made so far all led to the next, and the clock has come to when that one would begin. */
  ghost predicate SoFar(tries: seq<Try>, from: int, last: int, starts: seq<int>, clock: int) {
    && |starts| <= |tries|
    && (forall k: nat :: k < |starts| - 1 ==> Leads(tries, starts, k, last))
    && (if starts == [] then clock == from
        else
          var k := |starts| - 1;
          && starts[0] == from && from < last && InTime(tries[k], starts[k], last)
          && tries[k].outcome.Unreachable? && tries[k].due
          && clock == starts[k] + tries[k].lasts + Pause(tries[k], |starts|) + tries[k].oversleeps)
  }

  /** What Discord shows more than before is this DM's message, once, exactly when one of these tries was taken. */
  ghost predicate ShownBy(
    before: seq<Shown>, shown: seq<Shown>, id: int, part: int, tries: seq<Try>, starts: seq<int>, from: int, last: int)
    requires |starts| <= |tries|
  {
    && before <= shown && |shown| <= |before| + 1
    && (|shown| > |before| ==>
          var more := shown[|before|]; more.id == id && more.part == part && from <= more.at)
    && (|shown| > |before| <==> exists k :: 0 <= k < |starts| && Takes(tries[k], starts[k], last))
  }

  /** What the loop goes by after a try that another follows. */
  predicate Followed(t: Try, start: int, n: nat, last: int, clock: int) {
    && InTime(t, start, last) && t.outcome.Unreachable? && t.due
    && start + t.lasts + Pause(t, n) < last && clock == start + t.lasts + Pause(t, n) + t.oversleeps
  }

  /** What the loop returns after a try that none follows. */
  predicate EndedBy(t: Try, start: int, n: nat, last: int, state: Outcome) {
    && !GoesOn(t, start, n, last)
    && state == if InTime(t, start, last) && (t.outcome.Sent? || t.outcome.Refused?) then t.outcome else Failed
  }

  lemma AllLead(tries: seq<Try>, from: int, last: int, starts: seq<int>, clock: int)
    requires SoFar(tries, from, last, starts, clock) && clock < last && |starts| < |tries|
    ensures forall k: nat :: k < |starts| ==> Leads(tries, starts + [clock], k, last)
  {
    var more := starts + [clock];
    forall k: nat | k < |starts| ensures Leads(tries, more, k, last) {
      if k + 1 < |starts| { assert Leads(tries, starts, k, last) && more[k + 1] == starts[k + 1]; }
    }
  }

  lemma SoFarOn(tries: seq<Try>, from: int, last: int, starts: seq<int>, clock: int, clock': int)
    requires SoFar(tries, from, last, starts, clock) && clock < last && |starts| < |tries|
    requires Followed(tries[|starts|], clock, |starts| + 1, last, clock')
    ensures SoFar(tries, from, last, starts + [clock], clock')
  {
    AllLead(tries, from, last, starts, clock);
  }

  lemma CourseEnds(tries: seq<Try>, from: int, until: int, starts: seq<int>, clock: int, state: Outcome)
    requires var last := LastMoment(from, until);
      && SoFar(tries, from, last, starts, clock) && clock < last && |starts| < |tries|
      && EndedBy(tries[|starts|], clock, |starts| + 1, last, state)
    ensures Course(tries, from, until, starts + [clock], state)
  {
    AllLead(tries, from, LastMoment(from, until), starts, clock);
  }

  lemma CourseRunsOut(tries: seq<Try>, from: int, until: int, starts: seq<int>, clock: int)
    requires SoFar(tries, from, LastMoment(from, until), starts, clock) && clock >= LastMoment(from, until)
    ensures Course(tries, from, until, starts, Failed)
  {}

  /** What the next try shows: a message shown within two minutes is not shown again. */
  lemma ShowsOnce(before: seq<Shown>, shown: seq<Shown>, id: int, part: int, tries: seq<Try>, starts: seq<int>,
          from: int, last: int, clock: int)
    requires |starts| < |tries| && ShownBy(before, shown, id, part, tries, starts, from, last)
    requires from <= clock < last <= from + NONCE_LIMIT
    requires forall i :: 0 <= i < |before| ==> !(before[i].id == id && before[i].part == part)
    ensures var t := tries[|starts|];
      ShownBy(before, if Takes(t, clock, last) then Show(shown, id, part, clock + t.takes.value) else shown,
              id, part, tries, starts + [clock], from, last)
  {
    var t, more := tries[|starts|], starts + [clock];
    assert more[|starts|] == clock;
    if |shown| > |before| {
      var k :| 0 <= k < |starts| && Takes(tries[k], starts[k], last);
      assert Takes(tries[k], more[k], last);
    } else {
      assert shown == before;
      forall k | 0 <= k < |starts| ensures !Takes(tries[k], more[k], last) { assert more[k] == starts[k]; }
    }
  }

  class SummaryLoop {
    var clock: int
    /** The messages Discord shows, in order. */
    ghost var shown: seq<Shown>

    /** One more message of this DM is shown than before, or none. */
    twostate predicate AtMostOneMore(id: int, part: int)
      reads this
    {
      && old(shown) <= shown && |shown| <= |old(shown)| + 1
      && (|shown| > |old(shown)| ==>
            var more := shown[|old(shown)|]; more.id == id && more.part == part && more.at >= old(clock))
    }

    /** The n-th try, cut off at the DM's last moment, and the wait after it; None goes on to another. */
    method Attempt(id: int, part: int, t: Try, last: int, wait: int, ghost n: nat)
      returns (ended: Option<Outcome>, wait': int)
      requires clock < last && 1 <= n <= 4 && wait == WaitAfter(n - 1)
      modifies this
      ensures shown == if Takes(t, old(clock), last) then Show(old(shown), id, part, old(clock) + t.takes.value)
                       else old(shown)
      ensures clock == DoneAt(t, old(clock), n, last)
      ensures clock >= old(clock) && (ended.Some? ==> EndedBy(t, old(clock), n, last, ended.value))
      ensures ended.None? ==> wait' == WaitAfter(n) && Followed(t, old(clock), n, last, clock)
    {
      wait' := wait;
      var left := last - clock;
      if t.takes.Some? && t.takes.value < left && t.takes.value <= t.lasts {
        shown := Show(shown, id, part, clock + t.takes.value);
      }
      if t.lasts >= left {
        clock := clock + left;
        return Some(Failed), wait';
      }
      clock := clock + t.lasts;
      match t.outcome {
        case Sent => return Some(Sent), wait';
        case Refused => return Some(Refused), wait';
        case Failed => return Some(Failed), wait';
        case Unreachable(retryAfter) =>
          wait' := AlertDelivery.NextWait(wait);
          var pause := Max(wait', retryAfter);
          if pause >= last - clock {
            return Some(Failed), wait';
          }
          clock := clock + pause + t.oversleeps;
          if !t.due {
            return Some(Failed), wait';
          }
          ended := None;
      }
    }

    /** One more try of the DM, after those that began at `starts`. */
    method TryAgain(id: int, part: int, from: int, until: int, tries: seq<Try>, n: nat, wait: int,
            ghost before: seq<Shown>, ghost starts: seq<int>)
      returns (ended: Option<Outcome>, wait': int)
      requires |tries| == 4 && n == |starts| <= 3 && from <= clock < LastMoment(from, until)
      requires wait == WaitAfter(n) && clock >= from + WaitedFor(n)
      requires SoFar(tries, from, LastMoment(from, until), starts, clock)
      requires ShownBy(before, shown, id, part, tries, starts, from, LastMoment(from, until))
      requires forall i :: 0 <= i < |before| ==> !(before[i].id == id && before[i].part == part)
      modifies this
      ensures clock >= old(clock) && clock == DoneAt(tries[n], old(clock), n + 1, LastMoment(from, until))
      ensures ShownBy(before, shown, id, part, tries, starts + [old(clock)], from, LastMoment(from, until))
      ensures ended.Some? ==>
          Course(tries, from, until, starts + [old(clock)], ended.value) && !ended.value.Unreachable?
      ensures ended.Some? && ended.value.Sent? ==>
          Takes(tries[n], old(clock), LastMoment(from, until)) || !Honest(tries[n])
      ensures ended.None? ==> SoFar(tries, from, LastMoment(from, until), starts + [old(clock)], clock)
      ensures ended.None? ==> n + 1 <= 3 && wait' == WaitAfter(n + 1) && clock >= from + WaitedFor(n + 1)
    {
      ghost var last := LastMoment(from, until);
      ShowsOnce(before, shown, id, part, tries, starts, from, last, clock);
      ended, wait' := Attempt(id, part, tries[n], Min(from + NONCE_LIMIT, until), wait, n + 1);
      if ended.Some? {
        CourseEnds(tries, from, until, starts, old(clock), ended.value);
      } else {
        SoFarOn(tries, from, last, starts, old(clock), clock);
      }
    }

    /**
     One DM: tried again while Discord cannot take it and there is time, at most four times, each
     begun strictly inside two minutes of the first and before the Reset.
     */
    method Deliver(id: int, part: int, until: int, tries: seq<Try>) returns (state: Outcome, ghost starts: seq<int>)
      requires |tries| == 4 && (forall k :: 0 <= k < 4 ==> Honest(tries[k]))
      requires forall i :: 0 <= i < |shown| ==> !(shown[i].id == id && shown[i].part == part)
      modifies this
      ensures |starts| <= 4 && clock >= old(clock) && !state.Unreachable?
      ensures forall k :: 0 <= k < |starts| ==> old(clock) <= starts[k] < old(clock) + NONCE_LIMIT && starts[k] < until
      ensures AtMostOneMore(id, part)
      ensures state.Sent? ==> |shown| == |old(shown)| + 1
      ensures Course(tries, old(clock), until, starts, state)
      ensures clock == ClockAfter(tries, old(clock), starts, LastMoment(old(clock), until))
      ensures ShownBy(old(shown), shown, id, part, tries, starts, old(clock), LastMoment(old(clock), until))
    {
      var from, last, wait, n := clock, Min(clock + NONCE_LIMIT, until), 0, 0;
      ghost var before := shown;
      starts := [];
      while clock < last
        invariant n == |starts| <= 3 && wait == WaitAfter(n) && clock >= from + WaitedFor(n)
        invariant forall k :: 0 <= k < |starts| ==> from <= starts[k] < last
        invariant SoFar(tries, from, last, starts, clock) && clock == ClockAfter(tries, from, starts, last)
        invariant ShownBy(before, shown, id, part, tries, starts, from, last)
        decreases 4 - n
      {
        var ended;
        ghost var start := clock;
        ended, wait := TryAgain(id, part, from, until, tries, n, wait, before, starts);
        starts, n := starts + [start], n + 1;
        if ended.Some? {
          return ended.value, starts;
        }
      }
      CourseRunsOut(tries, from, until, starts, clock);
      state := Failed;
    }

    /**
     The DMs of a claimed summary: what Discord shows of it is always its first parts, in order. A
     part is tried exactly when every one before it was sent and, but for the first, it is still due.
     */
    method Send(id: int, parts: nat, until: int, due: seq<bool>, tries: seq<seq<Try>>)
      returns (sent: nat, state: Outcome, ghost courses: seq<Made>)
      requires |due| == parts && |tries| == parts
      requires forall p :: 0 <= p < parts ==> |tries[p]| == 4 && forall k :: 0 <= k < 4 ==> Honest(tries[p][k])
      requires forall i :: 0 <= i < |shown| ==> shown[i].id != id
      modifies this
      ensures old(shown) <= shown && sent <= |shown| - |old(shown)| <= sent + 1 && |shown| - |old(shown)| <= parts
      ensures forall k :: |old(shown)| <= k < |shown| ==> shown[k].id == id && shown[k].part == k - |old(shown)|
      ensures state.Sent? <==> sent == parts
      ensures sent <= |courses| <= parts && AllMade(tries, until, courses)
      ensures forall p :: 0 <= p < |courses| ==> (courses[p].state.Sent? <==> p < sent)
      ensures |courses| == sent + 1 || (|courses| == sent && (sent == parts || (sent > 0 && !due[sent])))
      ensures |courses| == sent + 1 ==> state == courses[sent].state && (sent > 0 ==> due[sent])
      ensures |courses| == sent < parts ==> state.Failed?
    {
      sent, state, courses := 0, Sent, [];
      ghost var before := |shown|;
      for part := 0 to parts
        invariant sent == part && state.Sent? && old(shown) <= shown && |shown| == before + part
        invariant |courses| == part && AllMade(tries, until, courses)
        invariant forall p :: 0 <= p < part ==> courses[p].state.Sent?
        invariant forall k :: before <= k < |shown| ==> shown[k].id == id && shown[k].part == k - before
      {
        if part > 0 && !due[part] {
          state := Failed;
          break;
        }
        ghost var starts, from := [], clock;
        state, starts := Deliver(id, part, until, tries[part]);
        courses := courses + [Made(from, starts, state)];
        if !state.Sent? {
          break;
        }
        sent := sent + 1;
      }
    }
  }

  // ----- One claim for each account and Reset -----

  /** The log row of one account and Reset, and every time it was claimed. */
  datatype Log = Log(row: Option<int>, claims: seq<int>, now: int)

  datatype Step = Wait(until: int) | Claim | Prune

  /** A summary is claimed between its Reset and the next, and only without a row. */
  predicate Enabled(reset: int, l: Log, step: Step) {
    match step
    case Wait(until) => l.now <= until
    case Claim => l.row.None? && reset <= l.now < reset + DAY
    case Prune => true
  }

  function Next(l: Log, step: Step): Log {
    match step
    case Wait(until) => l.(now := until)
    case Claim => l.(row := Some(l.now), claims := l.claims + [l.now])
    case Prune => if l.row.Some? && l.row.value < l.now - AlertDelivery.KEEP then l.(row := None) else l
  }

  predicate Inv(reset: int, l: Log) {
    && |l.claims| <= 1
    && (l.claims != [] ==>
          && reset <= l.claims[0] <= l.now
          && (l.row == Some(l.claims[0]) || (l.row.None? && l.claims[0] < l.now - AlertDelivery.KEEP)))
    && (l.claims == [] ==> l.row.None?)
  }

  predicate Run(reset: int, logs: seq<Log>, steps: seq<Step>) {
    && |logs| == |steps| + 1 && logs[0].row.None? && logs[0].claims == []
    && forall i :: 0 <= i < |steps| ==> Enabled(reset, logs[i], steps[i]) && logs[i + 1] == Next(logs[i], steps[i])
  }

  lemma {:induction false} RunKeepsInv(reset: int, logs: seq<Log>, steps: seq<Step>, i: nat)
    requires Run(reset, logs, steps) && i < |logs|
    ensures Inv(reset, logs[i])
  {
    if i > 0 {
      RunKeepsInv(reset, logs, steps, i - 1);
    }
  }

  /** Over every run of claims by any process and of pruning, each account's Reset is claimed at most once. */
  lemma ClaimedOnce(reset: int, logs: seq<Log>, steps: seq<Step>, i: nat)
    requires Run(reset, logs, steps) && i < |logs|
    ensures |logs[i].claims| <= 1
  {
    RunKeepsInv(reset, logs, steps, i);
  }

  /** Also once its row was deleted: a summary can be claimed exactly in the day from its Reset, and only once. */
  lemma ClaimableExactly(reset: int, logs: seq<Log>, steps: seq<Step>, at: int)
    requires Run(reset, logs, steps) && logs[|steps|].now <= at
    ensures Enabled(reset, Next(logs[|steps|], Wait(at)), Claim)
      <==> logs[|steps|].claims == [] && reset <= at < reset + DAY
  {
    RunKeepsInv(reset, logs, steps, |steps|);
  }

  /** Pruning may come at any time; it deletes the row exactly once it is older than seven days. */
  lemma PrunedExactly(reset: int, l: Log)
    ensures Enabled(reset, l, Prune) && Next(l, Prune).claims == l.claims
    ensures Next(l, Prune).row == if l.row.Some? && l.now - l.row.value > 7 * DAY then None else l.row
  {}
}
