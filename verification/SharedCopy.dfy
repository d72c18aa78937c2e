/**
 The one answer every request shares: a copy served while it is young, replaced in the
 background while it ages, and read again by the request itself once it is too old.

 Threads interleave between the sections that hold the copy's lock; the lock held for every read
 is modelled by its holder. Each clock reading is a separate value and never goes back.
 */
module SharedCopy {
  import opened Basics

  const RETRY_CAP: int := 300 * SECOND

  /** `key` says which Legend day or Season a request's time belongs to. */
  datatype Setup = Setup(seconds: int, longest: int, key: int -> int)

  ghost predicate Allowed(s: Setup) { 0 < s.seconds <= s.longest }

  /** `readFor` is the time the copy was read for, `started` the clock when its read started. */
  datatype Copy = Copy(key: int, started: int, readFor: int)

  /** The fields under the copy's lock; no retryAt means a background read may start at any time. */
  datatype Cell = Cell(copy: Option<Copy>, refreshing: bool, retryAt: Option<int>, retryDelay: int)

  const EMPTY := Cell(None, false, None, 0)

  function Usable(c: Cell, key: int, limit: int, at: int): Option<Copy> {
    if c.copy.None? || c.copy.value.key != key || at - c.copy.value.started >= limit then None else c.copy
  }

  predicate MayStart(c: Cell, at: int) { c.retryAt.None? || at >= c.retryAt.value }

  function Stored(c: Cell, copy: Copy): Cell { c.(copy := Some(copy), retryAt := None, retryDelay := 0) }

  function Failed(c: Cell, seconds: int, at: int): Cell {
    var delay := Min(if c.retryDelay == 0 then seconds else 2 * c.retryDelay, RETRY_CAP);
    c.(retryDelay := delay, retryAt := Some(at + delay))
  }

  // ----- Threads -----

  datatype Phase =
    | Wants
    | Checks
    | Starts
    | Reads(started: int)
    | Leaves(copy: Copy)
    | Fails
    | Ends

  /** A request that reads for itself, or a background refresh, for the request's time `now`. */
  datatype Thread = Thread(now: int, background: bool, phase: Phase)

  /** `at` is the clock reading the copy's age was taken by; `own` marks the request's own read. */
  datatype Answer = Answer(now: int, copy: Copy, at: int, own: bool)

  /**
   `reader` holds the read lock and `refresher` is the background thread that runs, if any.
   `failures` counts the background failures since the last stored copy, the latest at
   `failedAt`; `lost` is set once a background thread could not be started.
   */
  datatype State = State(
    cell: Cell, reader: Option<int>, refresher: Option<int>, threads: map<int, Thread>, clock: int,
    answers: seq<Answer>, failures: nat, failedAt: int, lost: bool)

  datatype Step =
    | Ask(t: int, now: int, first: int, second: int, third: int, refresher: int, works: bool)
    | TakeReading(t: int)
    | CheckAgain(t: int, at: int)
    | StartRead(t: int, at: int)
    | Store(t: int)
    | FailRead(t: int)
    | Leave(t: int)
    | NoteFailure(t: int, at: int)
    | End(t: int)

  predicate In(st: State, t: int, phase: Phase) { t in st.threads && st.threads[t].phase == phase }

  predicate Enabled(s: Setup, st: State, step: Step) {
    match step
    case Ask(t, _, first, second, third, refresher, _) =>
      t !in st.threads && refresher !in st.threads && t != refresher && st.clock <= first <= second <= third
    case TakeReading(t) => In(st, t, Wants) && st.reader.None?
    case CheckAgain(t, at) => In(st, t, Checks) && st.clock <= at
    case StartRead(t, at) => In(st, t, Starts) && st.clock <= at
    case Store(t) => t in st.threads && st.threads[t].phase.Reads?
    case FailRead(t) => t in st.threads && st.threads[t].phase.Reads?
    case Leave(t) => t in st.threads && st.threads[t].phase.Leaves?
    case NoteFailure(t, at) => In(st, t, Fails) && st.clock <= at
    case End(t) => In(st, t, Ends)
  }

  function To(st: State, t: int, phase: Phase): map<int, Thread>
    requires t in st.threads
  {
    st.threads[t := st.threads[t].(phase := phase)]
  }

  /** Whether the request serves a copy that is no longer young and a refresh is to start beside it. */
  predicate StartsRefresh(s: Setup, st: State, step: Step)
    requires step.Ask?
  {
    && Usable(st.cell, s.key(step.now), s.seconds, step.first).None?
    && Usable(st.cell, s.key(step.now), s.longest, step.second).Some?
    && !st.cell.refreshing && MayStart(st.cell, step.third)
  }

  /** The request's first locked section: serve, perhaps with a refresh beside it, or read. */
  function Asked(s: Setup, st: State, step: Step): State
    requires step.Ask?
  {
    var key := s.key(step.now);
    var young := Usable(st.cell, key, s.seconds, step.first);
    var served := Usable(st.cell, key, s.longest, step.second);
    var refresh := StartsRefresh(s, st, step);
    if young.Some? then
      st.(clock := step.first, answers := st.answers + [Answer(step.now, young.value, step.first, false)])
    else if served.None? then
      st.(clock := step.third, threads := st.threads[step.t := Thread(step.now, false, Wants)])
    else if !refresh then
      st.(clock := step.third, answers := st.answers + [Answer(step.now, served.value, step.second, false)])
    else if !step.works then
      st.(clock := step.third, cell := st.cell.(refreshing := true), lost := true)
    else
      st.(clock := step.third, cell := st.cell.(refreshing := true),
          threads := st.threads[step.refresher := Thread(step.now, true, Wants)], refresher := Some(step.refresher),
          answers := st.answers + [Answer(step.now, served.value, step.second, false)])
  }

  /** Under the read lock: a request looks again, a refresh only replaces a copy of its own key. */
  function Checked(s: Setup, st: State, t: int, at: int): State
    requires t in st.threads
  {
    var thread := st.threads[t];
    if thread.background then
      if st.cell.copy.Some? && st.cell.copy.value.key == s.key(thread.now)
      then st.(clock := at, threads := To(st, t, Starts))
      else st.(clock := at, threads := To(st, t, Ends), reader := None)
    else
      var young := Usable(st.cell, s.key(thread.now), s.seconds, at);
      if young.None? then st.(clock := at, threads := To(st, t, Starts))
      else st.(clock := at, threads := st.threads - {t}, reader := None,
               answers := st.answers + [Answer(thread.now, young.value, at, false)])
  }

  function Next(s: Setup, st: State, step: Step): State
    requires Enabled(s, st, step)
  {
    match step
    case Ask(_, _, _, _, _, _, _) => Asked(s, st, step)
    case TakeReading(t) => st.(threads := To(st, t, Checks), reader := Some(t))
    case CheckAgain(t, at) => Checked(s, st, t, at)
    case StartRead(t, at) => st.(clock := at, threads := To(st, t, Reads(at)))
    case Store(t) =>
      var thread := st.threads[t];
      var copy := Copy(s.key(thread.now), thread.phase.started, thread.now);
      st.(cell := Stored(st.cell, copy), threads := To(st, t, Leaves(copy)), failures := 0)
    case FailRead(t) =>
      if st.threads[t].background then st.(threads := To(st, t, Fails), reader := None)
      else st.(threads := st.threads - {t}, reader := None)
    case Leave(t) =>
      var thread := st.threads[t];
      if thread.background then st.(threads := To(st, t, Ends), reader := None)
      else st.(threads := st.threads - {t}, reader := None,
               answers := st.answers + [Answer(thread.now, thread.phase.copy, st.clock, true)])
    case NoteFailure(t, at) =>
      st.(clock := at, cell := Failed(st.cell, s.seconds, at), threads := To(st, t, Ends), failures := st.failures + 1,
          failedAt := at)
    case End(t) => st.(threads := st.threads - {t}, refresher := None, cell := st.cell.(refreshing := false))
  }

  // ----- What every reachable state keeps -----

  predicate Holds(phase: Phase) { phase.Checks? || phase.Starts? || phase.Reads? || phase.Leaves? }

  /** At most one thread is reading. */
  ghost predicate OneReader(st: State) {
    && (st.reader.Some? ==> st.reader.value in st.threads)
    && forall t :: t in st.threads ==> (Holds(st.threads[t].phase) <==> st.reader == Some(t))
  }

  predicate RefresherWell(st: State, t: int)
    requires t in st.threads
  {
    && (st.threads[t].background <==> st.refresher == Some(t))
    && (st.threads[t].phase.Fails? || st.threads[t].phase.Ends? ==> st.threads[t].background)
  }

  predicate FlagWell(st: State) {
    && (st.refresher.Some? ==> st.refresher.value in st.threads)
    && (st.cell.refreshing <==> st.lost || st.refresher.Some?) && (st.lost ==> st.refresher.None?)
  }

  /** At most one background refresh exists, exactly while the flag is set, unless a start was lost. */
  ghost predicate OneRefresh(st: State) {
    FlagWell(st) && forall t :: t in st.threads ==> RefresherWell(st, t)
  }

  ghost predicate CopyWell(s: Setup, copy: Copy, clock: int) {
    copy.key == s.key(copy.readFor) && copy.started <= clock
  }

  ghost predicate ThreadWell(s: Setup, st: State, thread: Thread) {
    match thread.phase
    case Reads(started) =>
      && started <= st.clock && (st.cell.copy.Some? ==> st.cell.copy.value.started <= started)
      && (thread.background && st.cell.retryAt.Some? ==> st.cell.retryAt.value <= started)
    case Leaves(copy) => CopyWell(s, copy, st.clock) && copy.readFor == thread.now
    case Fails => true
    case Ends => true
    case _ => thread.background && st.cell.retryAt.Some? ==> st.cell.retryAt.value <= st.clock
  }

  ghost predicate CopiesWell(s: Setup, st: State) {
    && (st.cell.copy.Some? ==> CopyWell(s, st.cell.copy.value, st.clock))
    && forall t :: t in st.threads ==> ThreadWell(s, st, st.threads[t])
  }

  /** Every answer was read for the asker's key, and was young enough unless the asker read it. */
  ghost predicate AnswerWell(s: Setup, a: Answer) {
    s.key(a.copy.readFor) == s.key(a.now) && (a.own || a.at - a.copy.started < s.longest)
  }

  ghost predicate AnswersWell(s: Setup, st: State) {
    forall i :: 0 <= i < |st.answers| ==> AnswerWell(s, st.answers[i])
  }

  function Doubled(seconds: int, k: nat): int { if k == 0 then seconds else 2 * Doubled(seconds, k - 1) }

  /** After k failures in a row: seconds * 2^(k - 1), at most the cap. */
  function Backoff(seconds: int, k: nat): int { if k == 0 then 0 else Min(Doubled(seconds, k - 1), RETRY_CAP) }

  predicate BackoffWell(s: Setup, st: State) {
    && st.cell.retryDelay == Backoff(s.seconds, st.failures)
    && st.cell.retryAt == if st.failures == 0 then None else Some(st.failedAt + Backoff(s.seconds, st.failures))
  }

  ghost predicate Inv(s: Setup, st: State) {
    OneReader(st) && OneRefresh(st) && CopiesWell(s, st) && AnswersWell(s, st) && BackoffWell(s, st)
  }

  lemma {:induction false} DoubledGrows(seconds: int, k: nat)
    requires seconds > 0
    ensures Doubled(seconds, k) >= seconds
  {
    if k > 0 { DoubledGrows(seconds, k - 1); }
  }

  lemma FailureDoubles(s: Setup, c: Cell, at: int, k: nat)
    requires Allowed(s) && c.retryDelay == Backoff(s.seconds, k)
    ensures Failed(c, s.seconds, at).retryDelay == Backoff(s.seconds, k + 1)
  {
    if k > 0 { DoubledGrows(s.seconds, k - 1); }
  }

  lemma StepKeepsOneReader(s: Setup, st: State, step: Step)
    requires Inv(s, st) && Enabled(s, st, step)
    ensures OneReader(Next(s, st, step))
  {}

  lemma StepKeepsFlag(s: Setup, st: State, step: Step)
    requires Inv(s, st) && Enabled(s, st, step)
    ensures FlagWell(Next(s, st, step))
  {
    if step.t in st.threads { assert RefresherWell(st, step.t); }
  }

  lemma StepKeepsRefresher(s: Setup, st: State, step: Step, t: int)
    requires Inv(s, st) && Enabled(s, st, step) && t in Next(s, st, step).threads
    ensures RefresherWell(Next(s, st, step), t)
  {
    if t in st.threads { assert RefresherWell(st, t); }
    if step.t in st.threads { assert RefresherWell(st, step.t); }
  }

  lemma StepKeepsOneRefresh(s: Setup, st: State, step: Step)
    requires Inv(s, st) && Enabled(s, st, step)
    ensures OneRefresh(Next(s, st, step))
  {
    StepKeepsFlag(s, st, step);
    forall t | t in Next(s, st, step).threads ensures RefresherWell(Next(s, st, step), t) {
      StepKeepsRefresher(s, st, step, t);
    }
  }

  /** The clock, and the started time of the stored copy, never go back. */
  lemma StepGoesForward(s: Setup, st: State, step: Step)
    requires Inv(s, st) && Enabled(s, st, step)
    ensures var n := Next(s, st, step);
      && st.clock <= n.clock
      && (st.cell.copy.Some? ==> n.cell.copy.Some? && st.cell.copy.value.started <= n.cell.copy.value.started)
  {}

  lemma StepKeepsCopy(s: Setup, st: State, step: Step)
    requires Inv(s, st) && Enabled(s, st, step)
    ensures var n := Next(s, st, step); n.cell.copy.Some? ==> CopyWell(s, n.cell.copy.value, n.clock)
  {}

  /** The thread that takes the step, or that it starts. */
  predicate Moves(step: Step, t: int) { t == step.t || (step.Ask? && t == step.refresher) }

  lemma StepKeepsMover(s: Setup, st: State, step: Step, t: int)
    requires Inv(s, st) && Enabled(s, st, step) && Moves(step, t) && t in Next(s, st, step).threads
    ensures ThreadWell(s, Next(s, st, step), Next(s, st, step).threads[t])
  {}

  /** A read and a background thread each have what others' steps could change of theirs to themselves. */
  lemma StepKeepsOther(s: Setup, st: State, step: Step, t: int)
    requires Inv(s, st) && Enabled(s, st, step) && !Moves(step, t) && t in Next(s, st, step).threads
    ensures ThreadWell(s, Next(s, st, step), Next(s, st, step).threads[t])
  {
    assert st.threads[t] == Next(s, st, step).threads[t] && ThreadWell(s, st, st.threads[t]);
  }

  lemma StepKeepsCopies(s: Setup, st: State, step: Step)
    requires Inv(s, st) && Enabled(s, st, step)
    ensures CopiesWell(s, Next(s, st, step))
  {
    StepKeepsCopy(s, st, step);
    forall t | t in Next(s, st, step).threads
      ensures ThreadWell(s, Next(s, st, step), Next(s, st, step).threads[t])
    {
      if Moves(step, t) { StepKeepsMover(s, st, step, t); } else { StepKeepsOther(s, st, step, t); }
    }
  }

  lemma StepKeepsAnswers(s: Setup, st: State, step: Step)
    requires Allowed(s) && Inv(s, st) && Enabled(s, st, step)
    ensures AnswersWell(s, Next(s, st, step))
  {}

  lemma StepKeepsBackoff(s: Setup, st: State, step: Step)
    requires Allowed(s) && Inv(s, st) && Enabled(s, st, step)
    ensures BackoffWell(s, Next(s, st, step))
  {
    if step.NoteFailure? { FailureDoubles(s, st.cell, step.at, st.failures); }
  }

  lemma StepKeepsInv(s: Setup, st: State, step: Step)
    requires Allowed(s) && Inv(s, st) && Enabled(s, st, step)
    ensures Inv(s, Next(s, st, step))
  {
    StepKeepsOneReader(s, st, step);
    StepKeepsOneRefresh(s, st, step);
    StepKeepsCopies(s, st, step);
    StepKeepsAnswers(s, st, step);
    StepKeepsBackoff(s, st, step);
  }

  // ----- Whole runs -----

  const START := State(EMPTY, None, None, map[], 0, [], 0, 0, false)

  ghost predicate Run(s: Setup, states: seq<State>, steps: seq<Step>) {
    && |states| == |steps| + 1 && states[0] == START.(clock := states[0].clock)
    && forall i :: 0 <= i < |steps| ==> Enabled(s, states[i], steps[i]) && states[i + 1] == Next(s, states[i], steps[i])
  }

  lemma {:induction false} RunKeepsInv(s: Setup, states: seq<State>, steps: seq<Step>, i: nat)
    requires Allowed(s) && Run(s, states, steps) && i < |states|
    ensures Inv(s, states[i])
  {
    if i > 0 {
      RunKeepsInv(s, states, steps, i - 1);
      StepKeepsInv(s, states[i - 1], steps[i - 1]);
    }
  }

  /** Every request is answered with a copy read for its own key, younger than `longest` unless it read it itself. */
  lemma AnswersAreTheAskers(s: Setup, states: seq<State>, steps: seq<Step>, i: nat)
    requires Allowed(s) && Run(s, states, steps) && i < |states|
    ensures forall a :: a in states[i].answers ==> AnswerWell(s, a)
  {
    RunKeepsInv(s, states, steps, i);
  }

  /** At most one read and at most one background refresh exist at a time. */
  lemma OneReadOneRefresh(s: Setup, states: seq<State>, steps: seq<Step>, i: nat, t: int, u: int)
    requires Allowed(s) && Run(s, states, steps) && i < |states|
    requires t in states[i].threads && u in states[i].threads
    ensures states[i].threads[t].phase.Reads? && states[i].threads[u].phase.Reads? ==> t == u
    ensures states[i].threads[t].background && states[i].threads[u].background ==> t == u
  {
    RunKeepsInv(s, states, steps, i);
  }

  /** A background read after k failures in a row starts at least the kth backoff after the last one. */
  lemma BackgroundReadsWait(s: Setup, states: seq<State>, steps: seq<Step>, i: nat, t: int)
    requires Allowed(s) && Run(s, states, steps) && i < |states| && t in states[i].threads
    requires states[i].threads[t].background && states[i].threads[t].phase.Reads? && states[i].failures > 0
    ensures states[i].threads[t].phase.started >= states[i].failedAt + Backoff(s.seconds, states[i].failures)
  {
    RunKeepsInv(s, states, steps, i);
  }

  /** A stored copy is never replaced by one whose read started earlier, or by none. */
  lemma {:induction false} CopiesNeverGoBack(s: Setup, states: seq<State>, steps: seq<Step>, i: nat, j: nat)
    requires Allowed(s) && Run(s, states, steps) && i <= j < |states| && states[i].cell.copy.Some?
    ensures states[j].cell.copy.Some? && states[i].cell.copy.value.started <= states[j].cell.copy.value.started
  {
    if i < j {
      CopiesNeverGoBack(s, states, steps, i, j - 1);
      RunKeepsInv(s, states, steps, j - 1);
      StepGoesForward(s, states[j - 1], steps[j - 1]);
    }
  }

  // ----- The locked sections, on the copy's own fields -----

  class CopyFields {
    var copy: Option<Copy>
    var refreshing: bool
    var retryAt: Option<int>
    var retryDelay: int

    function Value(): Cell
      reads this
    {
      Cell(copy, refreshing, retryAt, retryDelay)
    }

    constructor ()
      ensures Value() == EMPTY
    {
      copy, refreshing, retryAt, retryDelay := None, false, None, 0;
    }

    /** _usable: the copy while it is of this key and younger than the limit. */
    method UsableCopy(key: int, limit: int, at: int) returns (usable: Option<Copy>)
      ensures usable.Some? <==> copy.Some? && copy.value.key == key && at - copy.value.started < limit
      ensures usable.Some? ==> usable == copy
    {
      if copy.None? || copy.value.key != key || at - copy.value.started >= limit {
        return None;
      }
      usable := copy;
    }

    /**
     The first locked section of `current` is the machine's Ask: what it serves is the answer
     given, nothing to serve makes the request wait for the read lock, and the flag is set
     exactly when a background thread is to start.
     */
    method Offer(s: Setup, key: int, first: int, second: int, third: int, ghost st: State, ghost step: Step)
      returns (young: Option<Copy>, served: Option<Copy>, refresh: bool)
      requires step.Ask? && Enabled(s, st, step) && st.cell == Value()
      requires key == s.key(step.now) && first == step.first && second == step.second && third == step.third
      modifies `refreshing
      ensures Value() == Next(s, st, step).cell
      ensures young.Some? ==> Next(s, st, step).answers == st.answers + [Answer(step.now, young.value, first, false)]
      ensures young.None? && served.Some? && (!refresh || step.works) ==>
                Next(s, st, step).answers == st.answers + [Answer(step.now, served.value, second, false)]
      ensures young.None? && served.None? ==>
          Next(s, st, step).threads == st.threads[step.t := Thread(step.now, false, Wants)]
      ensures refresh <==> StartsRefresh(s, st, step)
    {
      served, refresh := None, false;
      young := UsableCopy(key, s.seconds, first);
      if young.None? {
        served := UsableCopy(key, s.longest, second);
        refresh := served.Some? && !refreshing && (retryAt.None? || third >= retryAt.value);
        refreshing := refreshing || refresh;
      }
    }

    /** The second locked section of `current`, under the read lock: an answer, or the request reads for itself. */
    method LookAgain(s: Setup, key: int, at: int, ghost st: State, ghost t: int) returns (young: Option<Copy>)
      requires Enabled(s, st, CheckAgain(t, at)) && st.cell == Value()
      requires !st.threads[t].background && key == s.key(st.threads[t].now)
      ensures young.Some? ==>
                Next(s, st, CheckAgain(t, at)).answers
                    == st.answers + [Answer(st.threads[t].now, young.value, at, false)]
      ensures young.None? ==> In(Next(s, st, CheckAgain(t, at)), t, Starts)
    {
      young := UsableCopy(key, s.seconds, at);
    }

    /** A refresh reads only while the copy is still of its key; otherwise it ends. */
    method StillCurrent(s: Setup, key: int, at: int, ghost st: State, ghost t: int) returns (current: bool)
      requires Enabled(s, st, CheckAgain(t, at)) && st.cell == Value()
      requires st.threads[t].background && key == s.key(st.threads[t].now)
      ensures In(Next(s, st, CheckAgain(t, at)), t, if current then Starts else Ends)
    {
      current := copy.Some? && copy.value.key == key;
    }

    /** The locked section of _read_copy is the machine's Store, for a request's read and a refresh's alike. */
    method ReadCopy(s: Setup, key: int, started: int, now: int, ghost st: State, ghost t: int)
      requires Enabled(s, st, Store(t)) && st.cell == Value()
      requires key == s.key(st.threads[t].now) && now == st.threads[t].now && started == st.threads[t].phase.started
      modifies this
      ensures Value() == Next(s, st, Store(t)).cell
      ensures In(Next(s, st, Store(t)), t, Leaves(copy.GetOr(Copy(key, started, now))))
    {
      copy, retryAt, retryDelay := Some(Copy(key, started, now)), None, 0;
    }

    /** The locked section after a failed refresh is the machine's: the delay left is the next backoff of the run. */
    method NoteFailure(s: Setup, at: int, ghost st: State, ghost t: int)
      requires Allowed(s) && Inv(s, st) && Enabled(s, st, Step.NoteFailure(t, at)) && st.cell == Value()
      modifies `retryAt, `retryDelay
      ensures Value() == Next(s, st, Step.NoteFailure(t, at)).cell
      ensures retryDelay == Backoff(s.seconds, st.failures + 1) && retryAt == Some(at + retryDelay)
    {
      FailureDoubles(s, st.cell, at, st.failures);
      retryDelay := Min(if 2 * retryDelay != 0 then 2 * retryDelay else s.seconds, RETRY_CAP);
      retryAt := Some(at + retryDelay);
    }

    /** The last locked section of a refresh is the machine's End: then none runs. */
    method EndRefresh(s: Setup, ghost st: State, ghost t: int)
      requires Inv(s, st) && Enabled(s, st, End(t)) && st.cell == Value()
      modifies `refreshing
      ensures Value() == Next(s, st, End(t)).cell
      ensures forall u :: u in Next(s, st, End(t)).threads ==> !Next(s, st, End(t)).threads[u].background
    {
      assert RefresherWell(st, t);
      refreshing := false;
    }
  }
}
