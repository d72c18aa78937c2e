/**
 Player verification requests: reserved once, the game asked at most once, answered once, and the
 same answer replayed for ever.

 Calls interleave between transactions. A call counts its account's attempts and reserves under
 the account's row lock; completing and recovering a request each hold the request's row lock and
 are one step each. A call may stop anywhere.
 */
module Verification {
  import opened Basics
  import opened Windows

  const RESERVATION: int := 45 * SECOND
  const ATTEMPTS: nat := 6

  /** What a request id is bound to: the account, the player tag and every other stored column. */
  datatype Binding = Binding(account: int, tag: int, other: int)

  datatype Outcome = Verified | BadToken | NoAnswer

  datatype Answer =
    | Linked
    | AlreadyLinked
    | SupportRequired
    | InvalidToken
    | Unavailable
    | InvalidRequest
    | RateLimited(retryAfter: int)
    | Conflict
    | StillRunning

  /** Answers that complete a request; the others only describe one call. */
  predicate Final(a: Answer) { !a.RateLimited? && !a.Conflict? && !a.StillRunning? }

  datatype RowState = InProgress(until: int) | Complete(answer: Answer)

  /** `owner` is the call that reserved the request and `reserved` when. */
  datatype Row = Row(binding: Binding, state: RowState, owner: int, reserved: int)

  datatype Phase =
    | Begins
    | Counted(at: int)
    | Reserved
    | Asked
    | Got(outcome: Outcome)
    | Over(answer: Option<Answer>)

  /** What the game answered about a request. */
  datatype Told = Told(request: int, outcome: Outcome)

  datatype Call = Call(request: int, binding: Binding, phase: Phase)

  /**
   `audits` holds each attempt's outcome, None while pending, and `log` its account and time;
   `links` says which account holds a player; `asked` lists the requests the game was asked for,
   `replies` holds what it answered and `touched` the requests whose completion made or renewed a
   link.
   */
  datatype State = State(
    rows: map<int, Row>, audits: map<int, Option<Answer>>, log: seq<Entry>, links: map<int, int>,
    calls: map<int, Call>, asked: seq<int>, replies: set<Told>, touched: set<int>, clock: int)

  datatype Step =
    | Begin(c: int, request: int, binding: Binding)
    | Count(c: int, at: int)
    | Reserve(c: int, at: int, made: int)
    | CloseInvalid(c: int)
    | GiveUp(c: int)
    | Ask(c: int)
    | Reply(c: int, outcome: Outcome)
    | Finish(c: int)
    | Stop(c: int)
    | Unlink(tag: int)
    | Transfer(tag: int, account: int)

  function CeilSeconds(d: int): int { (d + SECOND - 1) / SECOND }

  /** min(created_at) over a set of attempts that is not empty. */
  ghost function Oldest(log: seq<Entry>, found: set<nat>): int
    requires found != {} && forall i :: i in found ==> i < |log|
  {
    MinExists(log, found);
    var i :| i in found && forall j :: j in found ==> log[i].at <= log[j].at;
    log[i].at
  }

  lemma {:induction false} MinExists(log: seq<Entry>, found: set<nat>)
    requires found != {} && forall i :: i in found ==> i < |log|
    ensures exists i :: i in found && forall j :: j in found ==> log[i].at <= log[j].at
    decreases |found|
  {
    var k := Pick(found);
    if found - {k} == {} {
      assert found == {k};
    } else {
      MinExists(log, found - {k});
      var i :| i in found - {k} && forall j :: j in found - {k} ==> log[i].at <= log[j].at;
      var low := if log[k].at <= log[i].at then k else i;
      forall j | j in found ensures log[low].at <= log[j].at { assert j == k || j in found - {k}; }
    }
  }

  function Recent(st: State, account: int, at: int): set<nat> { Since(st.log, |st.log|, {account}, at - MINUTE) }

  ghost function RetryAfter(st: State, account: int, at: int): int
    requires Recent(st, account, at) != {}
  {
    Max(1, CeilSeconds(Oldest(st.log, Recent(st, account, at)) + MINUTE - at))
  }

  predicate In(st: State, c: int, phase: Phase) { c in st.calls && st.calls[c].phase == phase }

  ghost predicate Enabled(st: State, step: Step) {
    match step
    case Begin(c, _, _) => c !in st.calls
    case Count(c, at) =>
      && In(st, c, Begins) && st.clock <= at
      && forall d :: d in st.calls && st.calls[d].phase.Counted? ==>
           st.calls[d].binding.account != st.calls[c].binding.account
    case Reserve(c, at, made) => c in st.calls && st.calls[c].phase.Counted? && st.clock <= at <= made
    case CloseInvalid(c) => In(st, c, Reserved)
    case GiveUp(c) => c in st.calls && (st.calls[c].phase.Reserved? || st.calls[c].phase.Got?)
    case Ask(c) => In(st, c, Reserved)
    case Reply(c, _) => In(st, c, Asked)
    case Finish(c) => c in st.calls && st.calls[c].phase.Got?
    case Stop(c) => c in st.calls && !st.calls[c].phase.Over?
    case Unlink(_) => true
    case Transfer(tag, _) => tag in st.links
  }

  function To(st: State, c: int, phase: Phase): map<int, Call>
    requires c in st.calls
  {
    st.calls[c := st.calls[c].(phase := phase)]
  }

  function Answered(st: State, c: int, answer: Answer): State
    requires c in st.calls
  {
    st.(calls := To(st, c, Over(Some(answer))))
  }

  /** A new attempt is counted only when its request is not recorded. */
  ghost function CountedCall(st: State, c: int, at: int): State
    requires c in st.calls
  {
    var call := st.calls[c];
    if call.request !in st.rows && |Recent(st, call.binding.account, at)| >= ATTEMPTS
    then Answered(st, c, RateLimited(RetryAfter(st, call.binding.account, at))).(clock := at)
    else st.(calls := To(st, c, Counted(at)), clock := at)
  }

  /** The row of an active request and its audit get their one answer. */
  function Completed(st: State, request: int, answer: Answer): State
    requires request in st.rows
  {
    st.(rows := st.rows[request := st.rows[request].(state := Complete(answer))],
        audits := st.audits[request := Some(answer)])
  }

  /** The id is reserved, or its recorded answer is found; an expired reservation is closed as unavailable. */
  function ReservedCall(st: State, c: int, at: int, made: int): State
    requires c in st.calls
  {
    var call := st.calls[c];
    var request := call.request;
    if request !in st.rows then
      st.(rows := st.rows[request := Row(call.binding, InProgress(at + RESERVATION), c, at)],
          audits := st.audits[request := None], log := st.log + [Entry(call.binding.account, made)],
          calls := To(st, c, Reserved), clock := made)
    else
      var row := st.rows[request];
      if row.binding != call.binding then Answered(st, c, Conflict).(clock := at)
      else if row.state.Complete? then Answered(st, c, row.state.answer).(clock := at)
      else if row.state.until <= at && Lookup(st.audits, request) == Some(None) then
        Answered(Completed(st, request, Unavailable), c, Unavailable).(clock := at)
      else Answered(st, c, StillRunning).(clock := at)
  }

  /** The request is still this call's to complete. */
  predicate Active(st: State, call: Call) {
    && call.request in st.rows && st.rows[call.request].binding == call.binding
    && st.rows[call.request].state.InProgress?
    && Lookup(st.audits, call.request) == Some(None)
  }

  function LinkAnswer(st: State, call: Call, outcome: Outcome): Answer {
    match outcome
    case BadToken => InvalidToken
    case NoAnswer => Unavailable
    case Verified =>
      if call.binding.tag !in st.links then Linked
      else if st.links[call.binding.tag] == call.binding.account then AlreadyLinked
      else SupportRequired
  }

  function Finished(st: State, c: int, outcome: Outcome): State
    requires c in st.calls && Active(st, st.calls[c])
  {
    var call := st.calls[c];
    var answer := LinkAnswer(st, call, outcome);
    var done := Answered(Completed(st, call.request, answer), c, answer);
    if answer.Linked? || answer.AlreadyLinked?
    then done.(links := st.links[call.binding.tag := call.binding.account], touched := st.touched + {call.request})
    else done
  }

  ghost function Next(st: State, step: Step): State
    requires Enabled(st, step)
  {
    match step
    case Begin(c, request, binding) => st.(calls := st.calls[c := Call(request, binding, Begins)])
    case Count(c, at) => CountedCall(st, c, at)
    case Reserve(c, at, made) => ReservedCall(st, c, at, made)
    case CloseInvalid(c) =>
      if Active(st, st.calls[c]) then Answered(Completed(st, st.calls[c].request, InvalidRequest), c, InvalidRequest)
      else st.(calls := To(st, c, Over(None)))
    case GiveUp(c) => st.(calls := To(st, c, Got(NoAnswer)))
    case Ask(c) => st.(calls := To(st, c, Asked), asked := st.asked + [st.calls[c].request])
    case Reply(c, outcome) =>
      st.(calls := To(st, c, Got(outcome)), replies := st.replies + {Told(st.calls[c].request, outcome)})
    case Finish(c) =>
      if Active(st, st.calls[c]) then Finished(st, c, st.calls[c].phase.outcome)
      else st.(calls := To(st, c, Over(None)))
    case Stop(c) => st.(calls := To(st, c, Over(None)))
    case Unlink(tag) => st.(links := st.links - {tag})
    case Transfer(tag, account) => st.(links := st.links[tag := account])
  }

  // ----- What every reachable state keeps -----

  /** A request's audit is pending exactly while it is in progress, and agrees with its one answer. */
  predicate AuditWell(st: State, r: int)
    requires r in st.rows
  {
    && r in st.audits && st.rows[r].reserved <= st.clock
    && match st.rows[r].state
       case InProgress(until) => st.audits[r].None? && until == st.rows[r].reserved + RESERVATION
       case Complete(a) => st.audits[r] == Some(a) && Final(a)
  }

  /** The call that reserved a request is past doing so. */
  predicate OwnerWell(st: State, r: int)
    requires r in st.rows
  {
    var row := st.rows[r];
    && row.owner in st.calls && st.calls[row.owner].request == r && st.calls[row.owner].binding == row.binding
    && !st.calls[row.owner].phase.Begins? && !st.calls[row.owner].phase.Counted?
  }

  predicate Works(phase: Phase) { phase.Reserved? || phase.Asked? || phase.Got? }

  ghost predicate CallWell(st: State, c: int)
    requires c in st.calls
  {
    var call := st.calls[c];
    && (Works(call.phase) ==>
      && call.request in st.rows && st.rows[call.request].owner == c
      && (st.rows[call.request].state.Complete? ==>
        st.rows[call.request].state == Complete(Unavailable)
            && st.rows[call.request].reserved + RESERVATION <= st.clock))
    && (call.phase.Reserved? ==> call.request !in st.asked)
    && (call.phase.Asked? ==> call.request in st.asked)
    && (call.phase.Got? && call.phase.outcome != NoAnswer ==>
      call.request in st.asked && Told(call.request, call.phase.outcome) in st.replies)
    && (call.phase.Over? && call.phase.answer.Some? && Final(call.phase.answer.value) ==>
      call.request in st.rows && st.rows[call.request].state == Complete(call.phase.answer.value))
  }

  ghost predicate AskedWell(st: State) {
    && (forall i, j :: 0 <= i < j < |st.asked| ==> st.asked[i] != st.asked[j])
    && (forall r :: r in st.asked ==> r in st.rows)
  }

  ghost predicate TouchedWell(st: State, r: int) {
    && r in st.rows && r in st.asked && Told(r, Verified) in st.replies
    && (st.rows[r].state == Complete(Linked) || st.rows[r].state == Complete(AlreadyLinked))
  }

  ghost predicate LogWell(st: State) {
    && (forall i: nat :: i < |st.log| ==> st.log[i].at <= st.clock)
    && (forall i: nat :: i < |st.log| ==> Admitted(st.log, i, {st.log[i].who}, ATTEMPTS, MINUTE))
  }

  /** Under the account's lock, the attempts counted stay below the limit. */
  predicate CountWell(st: State, c: int)
    requires c in st.calls
  {
    st.calls[c].phase.Counted? ==>
      && st.calls[c].phase.at <= st.clock
      && (st.calls[c].request !in st.rows ==>
           |Recent(st, st.calls[c].binding.account, st.calls[c].phase.at)| < ATTEMPTS)
  }

  /** One call of an account at a time is between counting and reserving. */
  predicate TakesTurns(st: State, c: int, d: int)
    requires c in st.calls && d in st.calls
  {
    st.calls[c].phase.Counted? && st.calls[d].phase.Counted? ==>
      (st.calls[c].binding.account == st.calls[d].binding.account ==> c == d)
  }

  ghost predicate Inv(st: State) {
    && (forall r :: r in st.rows ==> AuditWell(st, r) && OwnerWell(st, r))
    && (forall c :: c in st.calls ==> CallWell(st, c))
    && (forall c :: c in st.calls ==> CountWell(st, c))
    && (forall c, d :: c in st.calls && d in st.calls ==> TakesTurns(st, c, d))
    && (forall r :: r in st.touched ==> TouchedWell(st, r))
    && AskedWell(st) && LogWell(st)
  }

  /** The call that takes the step; link changes from outside take none. */
  function Mover(step: Step): Option<int> { if step.Unlink? || step.Transfer? then None else Some(step.c) }

  /**
   A recorded request keeps what it is bound to and its answer; only its owner or the end of its time
   completes it.
   */
  ghost predicate RowStays(st: State, n: State, step: Step, r: int)
    requires r in st.rows
  {
    && r in n.rows && n.rows[r].binding == st.rows[r].binding
    && n.rows[r].owner == st.rows[r].owner && n.rows[r].reserved == st.rows[r].reserved
    && (st.rows[r].state.Complete? || n.rows[r].state.InProgress? ==> n.rows[r].state == st.rows[r].state)
    && (st.rows[r].state.InProgress? && n.rows[r].state.Complete? ==>
      || Mover(step) == Some(st.rows[r].owner)
      || (n.rows[r].state.answer.Unavailable? && st.rows[r].reserved + RESERVATION <= n.clock))
  }

  /** What holds of the call that takes the step. */
  ghost predicate MoverWell(st: State, step: Step) {
    Mover(step).Some? && step.c in st.calls ==> CallWell(st, step.c)
  }

  /** A call keeps its request; only its own steps move it, and only a count starts a turn. */
  predicate CallMoves(st: State, n: State, step: Step, c: int) {
    && c in st.calls && c in n.calls
    && n.calls[c].request == st.calls[c].request && n.calls[c].binding == st.calls[c].binding
    && (Mover(step) != Some(c) ==> n.calls[c] == st.calls[c])
    && !(n.calls[c].phase.Begins? && !st.calls[c].phase.Begins?)
    && (n.calls[c].phase.Counted? && st.calls[c].phase != n.calls[c].phase ==> step.Count? && st.calls[c].phase.Begins?)
  }

  lemma OtherCallStays(st: State, step: Step, c: int)
    requires Enabled(st, step) && c in st.calls && Mover(step) != Some(c)
    ensures CallMoves(st, Next(st, step), step, c)
  {}

  lemma CallStays(st: State, step: Step, c: int)
    requires Enabled(st, step) && c in st.calls
    ensures CallMoves(st, Next(st, step), step, c)
  {
    if Mover(step) != Some(c) {
      OtherCallStays(st, step, c);
    }
  }

  lemma StepKeepsRowStays(st: State, step: Step, r: int)
    requires Enabled(st, step) && r in st.rows && AuditWell(st, r) && MoverWell(st, step)
    ensures RowStays(st, Next(st, step), step, r) && st.clock <= Next(st, step).clock
  {}

  lemma ReserveKeepsAudit(st: State, step: Step, r: int)
    requires Enabled(st, step) && step.Reserve? && r in Next(st, step).rows && (r in st.rows ==> AuditWell(st, r))
    ensures AuditWell(Next(st, step), r)
  {}

  lemma CompletingKeepsAudit(st: State, step: Step, r: int)
    requires Enabled(st, step) && (step.Finish? || step.CloseInvalid?) && r in st.rows && AuditWell(st, r)
    ensures r in Next(st, step).rows && AuditWell(Next(st, step), r)
  {}

  lemma StepKeepsAudit(st: State, step: Step, r: int)
    requires Enabled(st, step) && r in Next(st, step).rows && (r in st.rows ==> AuditWell(st, r)) && MoverWell(st, step)
    ensures AuditWell(Next(st, step), r)
  {
    if step.Reserve? {
      ReserveKeepsAudit(st, step, r);
    } else if step.Finish? || step.CloseInvalid? {
      CompletingKeepsAudit(st, step, r);
    }
  }

  lemma StepKeepsOwner(st: State, step: Step, r: int)
    requires Enabled(st, step) && r in Next(st, step).rows && MoverWell(st, step)
    requires r in st.rows ==> AuditWell(st, r) && OwnerWell(st, r)
    ensures OwnerWell(Next(st, step), r)
  {
    if r in st.rows {
      StepKeepsRowStays(st, step, r);
      CallStays(st, step, st.rows[r].owner);
    }
  }

  lemma StepKeepsMover(st: State, step: Step)
    requires Inv(st) && Enabled(st, step) && Mover(step).Some?
    ensures CallWell(Next(st, step), step.c)
  {
    var c := step.c;
    if c in st.calls {
      assert CallWell(st, c);
      if st.calls[c].request in st.rows {
        assert AuditWell(st, st.calls[c].request) && OwnerWell(st, st.calls[c].request);
      }
    }
  }

  lemma StepKeepsOther(st: State, step: Step, c: int)
    requires Enabled(st, step) && c in st.calls && Mover(step) != Some(c) && CallWell(st, c) && MoverWell(st, step)
    requires st.calls[c].request in st.rows ==> AuditWell(st, st.calls[c].request)
    ensures c in Next(st, step).calls && CallWell(Next(st, step), c)
  {
    CallStays(st, step, c);
    if st.calls[c].request in st.rows { StepKeepsRowStays(st, step, st.calls[c].request); }
  }

  lemma MovesKeepTurns(st: State, n: State, step: Step, c: int, d: int)
    requires Enabled(st, step) && CallMoves(st, n, step, c) && CallMoves(st, n, step, d) && TakesTurns(st, c, d)
    ensures TakesTurns(n, c, d)
  {}

  lemma StepKeepsTurns(st: State, step: Step, c: int, d: int)
    requires Enabled(st, step) && c in Next(st, step).calls && d in Next(st, step).calls
    requires c in st.calls && d in st.calls ==> TakesTurns(st, c, d)
    ensures TakesTurns(Next(st, step), c, d)
  {
    if c in st.calls && d in st.calls {
      CallStays(st, step, c);
      CallStays(st, step, d);
      MovesKeepTurns(st, Next(st, step), step, c, d);
    }
  }

  /** Another account's attempt is none of this one's. */
  lemma OthersAttempt(log: seq<Entry>, more: Entry, account: int, after: int)
    requires more.who != account
    ensures Since(log + [more], |log| + 1, {account}, after) == Since(log, |log|, {account}, after)
  {}

  /** An attempt is logged by the step that reserves a new request. */
  lemma LogStays(st: State, step: Step)
    requires Enabled(st, step)
    ensures var n := Next(st, step);
      n.log == st.log
      || (step.Reserve? && st.calls[step.c].request !in st.rows && !n.calls[step.c].phase.Counted?
          && n.log == st.log + [Entry(st.calls[step.c].binding.account, step.made)])
  {}

  lemma StepKeepsCounts(st: State, step: Step, c: int)
    requires Enabled(st, step) && c in st.calls && CountWell(st, c) && MoverWell(st, step)
    requires st.calls[c].request in st.rows ==> AuditWell(st, st.calls[c].request)
    requires Mover(step).Some? && step.c in st.calls ==> TakesTurns(st, c, step.c)
    ensures c in Next(st, step).calls && CountWell(Next(st, step), c)
  {
    CallStays(st, step, c);
    LogStays(st, step);
    if st.calls[c].request in st.rows {
      StepKeepsRowStays(st, step, st.calls[c].request);
    } else if st.calls[c].phase.Counted? && Next(st, step).log != st.log && c != step.c {
      OthersAttempt(st.log, Next(st, step).log[|st.log|], st.calls[c].binding.account, st.calls[c].phase.at - MINUTE);
    }
  }

  lemma TouchedStays(st: State, step: Step, r: int)
    requires Enabled(st, step) && MoverWell(st, step) && r in st.rows && AuditWell(st, r) && TouchedWell(st, r)
    ensures TouchedWell(Next(st, step), r)
  {
    StepKeepsRowStays(st, step, r);
  }

  lemma FinishTouches(st: State, step: Step, r: int)
    requires Enabled(st, step) && MoverWell(st, step) && r in Next(st, step).touched && r !in st.touched
    ensures TouchedWell(Next(st, step), r)
  {}

  lemma StepKeepsTouched(st: State, step: Step, r: int)
    requires Inv(st) && Enabled(st, step) && r in Next(st, step).touched
    ensures TouchedWell(Next(st, step), r)
  {
    assert MoverWell(st, step);
    if r in st.touched {
      assert TouchedWell(st, r) && AuditWell(st, r);
      TouchedStays(st, step, r);
    } else {
      FinishTouches(st, step, r);
    }
  }

  lemma StepKeepsAsked(st: State, step: Step)
    requires Inv(st) && Enabled(st, step)
    ensures AskedWell(Next(st, step))
  {
    if step.Ask? { assert CallWell(st, step.c); }
    forall r | r in st.asked ensures r in Next(st, step).rows { StepKeepsRowStays(st, step, r); }
  }

  /** An attempt counted below the limit keeps every attempt of the log within it. */
  lemma AttemptKeepsLimit(log: seq<Entry>, more: Entry, counted: int)
    requires forall i: nat :: i < |log| ==> Admitted(log, i, {log[i].who}, ATTEMPTS, MINUTE)
    requires counted <= more.at && |Since(log, |log|, {more.who}, counted - MINUTE)| < ATTEMPTS
    ensures var longer := log + [more];
      forall i: nat :: i < |longer| ==> Admitted(longer, i, {longer[i].who}, ATTEMPTS, MINUTE)
  {
    var longer := log + [more];
    forall i: nat | i < |longer| ensures Admitted(longer, i, {longer[i].who}, ATTEMPTS, MINUTE) {
      if i < |log| {
        AppendKeeps(log, more, i, {log[i].who}, ATTEMPTS, MINUTE);
      } else {
        assert Since(longer, i, {more.who}, more.at - MINUTE) == Since(log, i, {more.who}, more.at - MINUTE);
        SinceShrinks(log, i, {more.who}, counted - MINUTE, more.at - MINUTE);
      }
    }
  }

  lemma StepKeepsLog(st: State, step: Step)
    requires Enabled(st, step) && LogWell(st) && MoverWell(st, step)
    requires step.Reserve? ==> CountWell(st, step.c)
    ensures LogWell(Next(st, step))
  {
    LogStays(st, step);
    if Next(st, step).log != st.log {
      AttemptKeepsLimit(st.log, Entry(st.calls[step.c].binding.account, step.made), st.calls[step.c].phase.at);
    }
  }

  lemma StepKeepsCall(st: State, step: Step, c: int)
    requires Inv(st) && Enabled(st, step) && c in Next(st, step).calls
    ensures CallWell(Next(st, step), c) && CountWell(Next(st, step), c)
  {
    assert MoverWell(st, step);
    if Mover(step) == Some(c) { StepKeepsMover(st, step); } else { StepKeepsOther(st, step, c); }
    if c in st.calls { StepKeepsCounts(st, step, c); }
  }

  lemma StepKeepsInv(st: State, step: Step)
    requires Inv(st) && Enabled(st, step)
    ensures Inv(Next(st, step))
  {
    var n := Next(st, step);
    assert MoverWell(st, step);
    forall r | r in n.rows ensures AuditWell(n, r) && OwnerWell(n, r) {
      StepKeepsAudit(st, step, r);
      StepKeepsOwner(st, step, r);
    }
    forall c | c in n.calls ensures CallWell(n, c) && CountWell(n, c) { StepKeepsCall(st, step, c); }
    forall c, d | c in n.calls && d in n.calls ensures TakesTurns(n, c, d) { StepKeepsTurns(st, step, c, d); }
    forall r | r in n.touched ensures TouchedWell(n, r) { StepKeepsTouched(st, step, r); }
    StepKeepsAsked(st, step);
    StepKeepsLog(st, step);
  }

  // ----- Whole runs -----

  ghost predicate Run(states: seq<State>, steps: seq<Step>) {
    && |states| == |steps| + 1
    && states[0] == State(map[], map[], [], states[0].links, map[], [], {}, {}, states[0].clock)
    && forall i :: 0 <= i < |steps| ==> Enabled(states[i], steps[i]) && states[i + 1] == Next(states[i], steps[i])
  }

  lemma {:induction false} RunKeepsInv(states: seq<State>, steps: seq<Step>, i: nat)
    requires Run(states, steps) && i < |states|
    ensures Inv(states[i])
  {
    if i > 0 {
      RunKeepsInv(states, steps, i - 1);
      StepKeepsInv(states[i - 1], steps[i - 1]);
    }
  }

  /** The game is asked at most once for each request id, whatever calls share it. */
  lemma AskedAtMostOnce(states: seq<State>, steps: seq<Step>, i: nat, j: nat, k: nat)
    requires Run(states, steps) && i < |states| && j < |states[i].asked| && k < |states[i].asked|
    requires states[i].asked[j] == states[i].asked[k]
    ensures j == k
  {
    RunKeepsInv(states, steps, i);
  }

  /** The stored answer is written once. */
  lemma {:induction false} AnswerWrittenOnce(states: seq<State>, steps: seq<Step>, i: nat, j: nat, r: int)
    requires Run(states, steps) && i <= j < |states| && r in states[i].rows && states[i].rows[r].state.Complete?
    ensures r in states[j].rows && states[j].rows[r].state == states[i].rows[r].state
  {
    if i < j {
      AnswerWrittenOnce(states, steps, i, j - 1, r);
      RunKeepsInv(states, steps, j - 1);
      StepKeepsRowStays(states[j - 1], steps[j - 1], r);
    }
  }

  /** Every call that was given a request's answer was given the same one, the stored one. */
  lemma RepliesAgree(states: seq<State>, steps: seq<Step>, i: nat, c: int)
    requires Run(states, steps) && i < |states| && c in states[i].calls
    requires states[i].calls[c].phase.Over? && states[i].calls[c].phase.answer.Some?
        && Final(states[i].calls[c].phase.answer.value)
    ensures var r := states[i].calls[c].request;
      r in states[i].rows && states[i].rows[r].state == Complete(states[i].calls[c].phase.answer.value)
  {
    RunKeepsInv(states, steps, i);
  }

  /** A request closed as unavailable, also by recovery, never makes or renews a link afterwards. */
  lemma RecoveredNeverLinks(states: seq<State>, steps: seq<Step>, i: nat, j: nat, r: int)
    requires Run(states, steps) && i <= j < |states|
    requires r in states[i].rows && states[i].rows[r].state == Complete(Unavailable)
    ensures r !in states[j].touched
  {
    AnswerWrittenOnce(states, steps, i, j, r);
    RunKeepsInv(states, steps, j);
  }

  /**
   Only a request whose token the game was asked about and confirmed makes or renews a link, and its
   answer says so.
   */
  lemma LinksWereVerified(states: seq<State>, steps: seq<Step>, i: nat, r: int)
    requires Run(states, steps) && i < |states| && r in states[i].touched
    ensures r in states[i].asked && Told(r, Verified) in states[i].replies && r in states[i].rows
    ensures states[i].rows[r].state == Complete(Linked) || states[i].rows[r].state == Complete(AlreadyLinked)
  {
    RunKeepsInv(states, steps, i);
  }

  /** A call's own request is completed by another only after its 45 seconds. */
  lemma NotOvertaken(states: seq<State>, steps: seq<Step>, i: nat, c: int)
    requires Run(states, steps) && i < |states| && c in states[i].calls && Works(states[i].calls[c].phase)
    requires var r := states[i].calls[c].request;
      r in states[i].rows && states[i].clock < states[i].rows[r].reserved + RESERVATION
    ensures Active(states[i], states[i].calls[c])
  {
    RunKeepsInv(states, steps, i);
  }

  /** A step of a verification leaves every link there is to the account that holds it. */
  lemma StepLeavesLinks(st: State, step: Step, tag: int)
    requires Enabled(st, step) && step != Unlink(tag) && !(step.Transfer? && step.tag == tag) && tag in st.links
    ensures tag in Next(st, step).links && Next(st, step).links[tag] == st.links[tag]
  {}

  /**
   Verifications never move or drop a link: until it is unlinked or transferred, the account that holds
   it keeps it.
   */
  lemma {:induction false} NeverMovesALink(states: seq<State>, steps: seq<Step>, i: nat, j: nat, tag: int)
    requires Run(states, steps) && i <= j < |states| && tag in states[i].links
    requires forall k :: i <= k < j ==> steps[k] != Unlink(tag) && !(steps[k].Transfer? && steps[k].tag == tag)
    ensures tag in states[j].links && states[j].links[tag] == states[i].links[tag]
  {
    if i < j {
      NeverMovesALink(states, steps, i, j - 1, tag);
      StepLeavesLinks(states[j - 1], steps[j - 1], tag);
    }
  }

  /** One account starts at most six new verifications in any minute. */
  lemma AttemptsStayBounded(states: seq<State>, steps: seq<Step>, i: nat, account: int, from: int)
    requires Run(states, steps) && i < |states|
    ensures |During(states[i].log, |states[i].log|, {account}, from, MINUTE)| <= ATTEMPTS
  {
    RunKeepsInv(states, steps, i);
    EveryWindowIsBounded(states[i].log, |states[i].log|, {account}, {account}, ATTEMPTS, MINUTE, from);
  }

  lemma CeilIsEnough(d: int)
    ensures CeilSeconds(d) * SECOND >= d
  {}

  /**
   Waiting out retry_after_seconds admits the next attempt: at `later` the account's minute holds
   fewer than six, if none came between.
   */
  lemma WaitingIsEnough(states: seq<State>, steps: seq<Step>, i: nat, account: int, at: int, later: int)
    requires Run(states, steps) && i < |states| && states[i].clock <= at && |Recent(states[i], account, at)| >= ATTEMPTS
    requires Recent(states[i], account, at) != {} && later >= at + RetryAfter(states[i], account, at) * SECOND
    ensures |Recent(states[i], account, later)| < ATTEMPTS
  {
    var st := states[i];
    RunKeepsInv(states, steps, i);
    var found := Recent(st, account, at);
    assert found == During(st.log, |st.log|, {account}, at - MINUTE + 1, MINUTE);
    AttemptsStayBounded(states, steps, i, account, at - MINUTE + 1);
    MinExists(st.log, found);
    var k :| k in found && st.log[k].at == Oldest(st.log, found);
    CeilIsEnough(st.log[k].at + MINUTE - at);
    SubsetCount(Recent(st, account, later), found - {k});
  }
}
