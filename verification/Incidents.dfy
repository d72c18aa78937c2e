/**
 Private alerts: one condition's incident, from the checks that see it to the messages Discord
 takes.

 A check run loads the saved incident, holds its recovery back, saves, and delivers at most one
 pending change at a time: the change is saved before it is sent and recorded after Discord
 took it. A run may stop anywhere, and a send that failed may still have been taken.
 */
module Incidents {
  import opened Basics

  const RECOVERY_HOLD: int := 900 * SECOND

  datatype Pending = Pending(active: bool, at: int, detail: Option<string>)

  datatype Incident = Incident(
    active: bool, since: int, pending: Option<Pending>, clearSince: Option<int>, alertedAt: Option<int>)

  const FRESH := Incident(false, 0, None, None, None)

  /** A message's whole text follows from these, for one condition. */
  datatype Message = Message(active: bool, since: int, at: int, detail: Option<string>)

  function Text(i: Incident): Message
    requires i.pending.Some?
  {
    Message(i.pending.value.active, i.since, i.pending.value.at, i.pending.value.detail)
  }

  // ----- hold_recoveries, for one condition -----

  /** What the condition was last said to be, counting a change still being delivered. */
  function Open(i: Incident): bool { if i.pending.Some? then i.pending.value.active else i.active }

  datatype Held = Held(incident: Incident, finding: Option<bool>)

  /** None when deleting a clear_since that is not there raises. */
  function Hold(i: Incident, finding: Option<bool>, now: int, resumedAt: int): Option<Held> {
    if i.clearSince.GetOr(now) < resumedAt && i.clearSince.None? then None
    else
      var kept := if i.clearSince.GetOr(now) < resumedAt then i.(clearSince := None) else i;
      if finding == Some(false) && Open(kept) then
        var clear := kept.clearSince.GetOr(now);
        var start := Max(clear, kept.alertedAt.GetOr(0));
        Some(Held(kept.(clearSince := Some(clear)),
                  if kept.pending.Some? || now - start < RECOVERY_HOLD then None else finding))
      else
        Some(Held(kept.(clearSince := None), finding))
  }

  /** hold_recoveries raises exactly when nothing is clear yet and the last resume is later than the clock. */
  lemma HoldRaises(i: Incident, finding: Option<bool>, now: int, resumedAt: int)
    ensures Hold(i, finding, now, resumedAt) == None <==> i.clearSince == None && now < resumedAt
  {}

  /** A finding that is no recovery of an open incident is let through, and the clear time is forgotten. */
  lemma HoldLetsThrough(i: Incident, finding: Option<bool>, now: int, resumedAt: int)
    requires Hold(i, finding, now, resumedAt).Some?
    requires finding != Some(false) || !(if i.pending.Some? then i.pending.value.active else i.active)
    ensures Hold(i, finding, now, resumedAt).value == Held(i.(clearSince := None), finding)
  {}

  /**
   A recovery of an open incident is let through exactly when its alert is not still pending and
   the whole hold has passed since the condition cleared, no resume after it, and since the alert
   was delivered; the time it cleared is remembered.
   */
  lemma RecoveryHeldExactly(i: Incident, now: int, resumedAt: int)
    requires Hold(i, Some(false), now, resumedAt).Some?
    requires if i.pending.Some? then i.pending.value.active else i.active
    ensures var held := Hold(i, Some(false), now, resumedAt).value;
      var clear := if i.clearSince.Some? && i.clearSince.value >= resumedAt then i.clearSince.value else now;
      && held.incident == i.(clearSince := Some(clear))
      && held.finding == if i.pending.None? && now >= clear + RECOVERY_HOLD
                            && now >= i.alertedAt.GetOr(0) + RECOVERY_HOLD
                         then Some(false) else None
  {}

  // ----- deliver, for one condition -----

  /** The pending change a finding asks for. */
  function Created(i: Incident, active: bool, now: int, since: int, detail: Option<string>): Incident {
    if active then i.(since := since, pending := Some(Pending(true, now, detail)))
    else i.(pending := Some(Pending(false, i.clearSince.GetOr(now), None)), clearSince := None)
  }

  function Recorded(i: Incident, time: int): Incident
    requires i.pending.Some?
  {
    i.(active := i.pending.value.active,
       alertedAt := if i.pending.value.active then Some(time) else i.alertedAt,
       pending := None)
  }

  // ----- The steps of one condition -----

  datatype Check = Check(now: int, finding: Option<bool>)

  /** What the last hold_recoveries of the run left for deliver. */
  datatype Verdict = Verdict(finding: Option<bool>, now: int, resumedAt: int)

  /**
   `disk` is the saved incident and `memory` the running check's; `posted` lists the messages
   Discord took. `checks` lists the checks whose hold was saved, `unsaved` the run's others.
   */
  datatype Machine = Machine(
    disk: Incident, memory: Option<Incident>, verdict: Verdict, posted: seq<Message>,
    checks: seq<Check>, unsaved: seq<Check>)

  datatype Step =
    | Load
    | Observe(finding: Option<bool>, now: int, resumedAt: int)
    | Create(since: int, detail: Option<string>)
    | Save
    | Post(taken: bool)
    | PostAndRecord(time: int)
    | Stop

  predicate Saved(m: Machine) { m.memory == Some(m.disk) }

  predicate Enabled(m: Machine, step: Step) {
    match step
    case Load => m.memory.None?
    case Observe(finding, now, resumedAt) => Saved(m) && Hold(m.disk, finding, now, resumedAt).Some?
    case Create(_, _) => Saved(m) && m.disk.pending.None? && m.verdict.finding.Some?
        && m.verdict.finding.value != m.disk.active
    case Save => m.memory.Some?
    case Post(_) => Saved(m) && m.disk.pending.Some?
    case PostAndRecord(_) => Saved(m) && m.disk.pending.Some?
    case Stop => m.memory.Some?
  }

  function Next(m: Machine, step: Step): Machine
    requires Enabled(m, step)
  {
    match step
    case Load => m.(memory := Some(m.disk), verdict := Verdict(None, 0, 0), unsaved := [])
    case Observe(finding, now, resumedAt) =>
      var held := Hold(m.disk, finding, now, resumedAt).value;
      m.(memory := Some(held.incident), verdict := Verdict(held.finding, now, resumedAt),
          unsaved := m.unsaved + [Check(now, finding)])
    case Create(since, detail) =>
      m.(memory := Some(Created(m.disk, m.verdict.finding.value, m.verdict.now, since, detail)))
    case Save => m.(disk := m.memory.value, checks := m.checks + m.unsaved, unsaved := [])
    case Post(taken) => if taken then m.(posted := m.posted + [Text(m.disk)]) else m
    case PostAndRecord(time) => m.(posted := m.posted + [Text(m.disk)], memory := Some(Recorded(m.disk, time)))
    case Stop => m.(memory := None, unsaved := [])
  }

  /** A check stopped after its request returned and before it saved that sends the very same message again. */
  lemma StopRepeats(m: Machine, time: int, again: int)
    requires Enabled(m, PostAndRecord(time))
    ensures Enabled(Next(m, PostAndRecord(time)), Stop)
    ensures var stopped := Next(Next(m, PostAndRecord(time)), Stop);
      && Enabled(stopped, Load) && stopped.disk == m.disk
      && Enabled(Next(stopped, Load), PostAndRecord(again))
      && Next(Next(stopped, Load), PostAndRecord(again)).posted == m.posted + [Text(m.disk), Text(m.disk)]
  {
    var told := Text(m.disk);
    assert m.posted + [told] + [told] == m.posted + [told, told];
  }

  // ----- What every reachable state keeps -----

  /** The first message is an alert, and each later one repeats the one before or answers it. */
  ghost predicate Alternate(posted: seq<Message>) {
    && (posted != [] ==> posted[0].active)
    && forall i :: 0 <= i < |posted| - 1 ==> posted[i + 1] == posted[i] || posted[i + 1].active != posted[i].active
  }

  /** Whether the last message taken says what the incident was last recorded as. */
  predicate LastSays(posted: seq<Message>, active: bool) {
    if posted == [] then !active else posted[|posted| - 1].active == active
  }

  predicate Agrees(i: Incident, posted: seq<Message>) {
    if i.pending.None? then LastSays(posted, i.active)
    else
      && i.pending.value.active != i.active
      && (LastSays(posted, i.active) || (posted != [] && posted[|posted| - 1] == Text(i)))
  }

  /** Since `clear`, the time of one of the checks, every check has been clear. */
  ghost predicate ClearSince(checks: seq<Check>, clear: int) {
    exists k :: 0 <= k < |checks| && checks[k].now == clear && forall j :: k <= j < |checks| ==>
        checks[j].finding == Some(false)
  }

  ghost predicate ClearWell(i: Incident, checks: seq<Check>) {
    i.clearSince.Some? ==> ClearSince(checks, i.clearSince.value)
  }

  /** A recovery may be told: clear for the whole hold since the alert was delivered, and not since before a resume. */
  predicate HoldOver(i: Incident, v: Verdict) {
    && i.clearSince.Some? && i.clearSince.value >= v.resumedAt
    && v.now - i.clearSince.value >= RECOVERY_HOLD && v.now - i.alertedAt.GetOr(0) >= RECOVERY_HOLD
  }

  predicate VerdictWell(i: Incident, v: Verdict) {
    v.finding == Some(false) && Open(i) ==> i.pending.None? && HoldOver(i, v)
  }

  /** How the run's incident differs from the saved one. */
  predicate Unsaved(m: Machine, i: Incident) {
    || (i.active == m.disk.active && i.since == m.disk.since && i.pending == m.disk.pending)
    || (m.disk.pending.None? && i.active == m.disk.active && i.pending.Some? && i.pending.value.active != i.active)
    || (m.disk.pending.Some? && i.pending.None? && i.active == m.disk.pending.value.active
        && m.posted != [] && m.posted[|m.posted| - 1] == Text(m.disk))
  }

  ghost predicate Inv(m: Machine) {
    && Alternate(m.posted) && Agrees(m.disk, m.posted)
    && ClearWell(m.disk, m.checks)
    && (m.memory.Some? ==>
      && Unsaved(m, m.memory.value)
      && ClearWell(m.memory.value, m.checks + m.unsaved)
      && VerdictWell(m.memory.value, m.verdict))
  }

  lemma ClearGoesOn(checks: seq<Check>, clear: int, more: Check)
    requires ClearSince(checks, clear) && more.finding == Some(false)
    ensures ClearSince(checks + [more], clear)
  {
    var k :| 0 <= k < |checks| && checks[k].now == clear && forall j :: k <= j < |checks| ==>
        checks[j].finding == Some(false);
    assert (checks + [more])[k].now == clear;
  }

  lemma ObserveKeepsInv(m: Machine, finding: Option<bool>, now: int, resumedAt: int)
    requires Inv(m) && Enabled(m, Observe(finding, now, resumedAt))
    ensures Inv(Next(m, Observe(finding, now, resumedAt)))
  {
    var n := Next(m, Observe(finding, now, resumedAt));
    var all, check := m.checks + m.unsaved, Check(now, finding);
    assert n.checks + n.unsaved == all + [check];
    if n.memory.value.clearSince.Some? {
      if n.memory.value.clearSince == m.disk.clearSince {
        ClearGoesOn(all, m.disk.clearSince.value, check);
      } else {
        assert (all + [check])[|all|].now == now;
      }
    }
  }

  lemma StepKeepsInv(m: Machine, step: Step)
    requires Inv(m) && Enabled(m, step)
    ensures Inv(Next(m, step))
  {
    match step
    case Observe(finding, now, resumedAt) => ObserveKeepsInv(m, finding, now, resumedAt);
    case Load => assert m.checks + [] == m.checks;
    case Save => assert m.checks + m.unsaved + [] == m.checks + m.unsaved;
    case _ =>
  }

  /** A step leaves a saved pending change as it is, or clears it once Discord has its message. */
  lemma PendingStays(m: Machine, step: Step)
    requires Inv(m) && Enabled(m, step) && m.disk.pending.Some?
    ensures var n := Next(m, step);
      || (n.disk.pending == m.disk.pending && Text(n.disk) == Text(m.disk))
      || (n.posted != [] && n.posted[|n.posted| - 1] == Text(m.disk))
  {}

  // ----- Whole runs -----

  predicate Run(ms: seq<Machine>, steps: seq<Step>) {
    && |ms| == |steps| + 1 && ms[0] == Machine(FRESH, None, Verdict(None, 0, 0), [], [], [])
    && forall i :: 0 <= i < |steps| ==> Enabled(ms[i], steps[i]) && ms[i + 1] == Next(ms[i], steps[i])
  }

  lemma {:induction false} RunKeepsInv(ms: seq<Machine>, steps: seq<Step>, i: nat)
    requires Run(ms, steps) && i < |ms|
    ensures Inv(ms[i])
  {
    if i > 0 {
      RunKeepsInv(ms, steps, i - 1);
      StepKeepsInv(ms[i - 1], steps[i - 1]);
    }
  }

  /**
   Over every run of checks, failed and ambiguous deliveries and stops, Discord's messages go
   alert, recovery, alert, and a message repeated by a stop or an ambiguous failure is the same
   text as the one before it.
   */
  lemma MessagesAlternate(ms: seq<Machine>, steps: seq<Step>)
    requires Run(ms, steps)
    ensures forall i :: 0 <= i < |ms| ==> Alternate(ms[i].posted)
  {
    forall i | 0 <= i < |ms| ensures Alternate(ms[i].posted) { RunKeepsInv(ms, steps, i); }
  }

  /**
   A saved pending change is never dropped or overtaken: at any later time it is still pending,
   unchanged, or its message is among those Discord took.
   */
  lemma {:induction false} PendingIsNeverDropped(ms: seq<Machine>, steps: seq<Step>, i: nat, j: nat)
    requires Run(ms, steps) && i <= j < |ms| && ms[i].disk.pending.Some?
    ensures (ms[j].disk.pending == ms[i].disk.pending && Text(ms[j].disk) == Text(ms[i].disk))
        || Text(ms[i].disk) in ms[j].posted
  {
    if i < j {
      PendingIsNeverDropped(ms, steps, i, j - 1);
      RunKeepsInv(ms, steps, j - 1);
      assert ms[j].posted == ms[j - 1].posted || exists text :: ms[j].posted == ms[j - 1].posted + [text];
      if Text(ms[i].disk) !in ms[j - 1].posted {
        PendingStays(ms[j - 1], steps[j - 1]);
      }
    }
  }

  /**
   A recovery is created only after every saved check since its time was clear, for the whole
   hold: since that time and since the alert was delivered, and with no resume after it.
   */
  lemma RecoveryWaited(ms: seq<Machine>, steps: seq<Step>, i: nat)
    requires Run(ms, steps) && i < |steps| && steps[i].Create? && ms[i].verdict.finding == Some(false)
    ensures var m, at := ms[i], ms[i + 1].memory.value.pending.value.at;
      && ClearSince(m.checks + m.unsaved, at)
      && at + RECOVERY_HOLD <= m.verdict.now && at >= m.verdict.resumedAt
      && m.disk.alertedAt.GetOr(0) + RECOVERY_HOLD <= m.verdict.now
  {
    RunKeepsInv(ms, steps, i);
  }

  // ----- The hold runs from the alert's delivery -----

  /** The alert delivered and saved by step k and the next is the last before step i. */
  ghost predicate LastAlert(ms: seq<Machine>, steps: seq<Step>, k: nat, i: nat)
    requires Run(ms, steps) && i <= |steps|
  {
    && k + 1 < i && steps[k].PostAndRecord? && ms[k].disk.pending.value.active && steps[k + 1] == Save
    && forall j, next :: k < j && next == j + 1 && next < i
                         && steps[j].PostAndRecord? && ms[j].disk.pending.value.active ==>
         steps[next] != Save
  }

  /**
   The incident saved before step j was alerted at that time, and so is the run's, but for a delivery
   just recorded.
   */
  predicate AlertedAt(ms: seq<Machine>, steps: seq<Step>, j: nat, time: int)
    requires 0 < j < |ms| && j <= |steps| && (steps[j - 1].PostAndRecord? ==> ms[j - 1].disk.pending.Some?)
  {
    && ms[j].disk.alertedAt == Some(time)
    && (ms[j].memory.Some? && ms[j].memory.value.alertedAt != Some(time) ==>
          steps[j - 1].PostAndRecord? && ms[j - 1].disk.pending.value.active)
  }

  lemma AlertedStays(ms: seq<Machine>, steps: seq<Step>, j: nat, time: int)
    requires Run(ms, steps) && 0 < j < |steps| && AlertedAt(ms, steps, j, time)
    requires steps[j] == Save ==> ms[j].memory.value.alertedAt == Some(time)
    ensures AlertedAt(ms, steps, j + 1, time)
  {
    assert ms[j + 1] == Next(ms[j], steps[j]);
  }

  lemma {:induction false} AlertedInRun(ms: seq<Machine>, steps: seq<Step>, k: nat, i: nat)
    requires Run(ms, steps) && i <= |steps| && LastAlert(ms, steps, k, i)
    ensures AlertedAt(ms, steps, i, steps[k].time)
  {
    var last := i - 1;
    if last == k + 1 {
      assert ms[k + 1] == Next(ms[k], steps[k]) && ms[i] == Next(ms[k + 1], Save);
    } else {
      AlertedInRun(ms, steps, k, last);
      AlertedStays(ms, steps, last, steps[k].time);
    }
  }

  /**
   A recovery is created no earlier than RECOVERY_HOLD after the last alert was delivered, by the
   clock that was read when its delivery was recorded.
   */
  lemma RecoveryWaitsForDelivery(ms: seq<Machine>, steps: seq<Step>, k: nat, i: nat)
    requires Run(ms, steps) && i < |steps| && steps[i].Create? && ms[i].verdict.finding == Some(false)
    requires LastAlert(ms, steps, k, i)
    ensures steps[k].time + RECOVERY_HOLD <= ms[i].verdict.now
  {
    AlertedInRun(ms, steps, k, i);
    RecoveryWaited(ms, steps, i);
  }

  // ----- A recovery does come -----

  /** The open incident has been clear since then, saved and in the run. */
  predicate Clearing(m: Machine, clear: int) {
    && Open(m.disk) && m.disk.clearSince == Some(clear)
    && (m.memory.Some? ==> Open(m.memory.value) && m.memory.value.clearSince == Some(clear))
  }

  /** The step is no change of the incident, nor a check that is not clear or comes after a resume. */
  predicate LeavesClear(step: Step, clear: int) {
    !step.Create? && (step.Observe? ==> step.finding == Some(false) && step.resumedAt <= clear)
  }

  lemma {:induction false} ClearingStays(ms: seq<Machine>, steps: seq<Step>, k: nat, i: nat, clear: int)
    requires Run(ms, steps) && k <= i <= |steps| && Clearing(ms[k], clear)
    requires forall j :: k <= j < i ==> LeavesClear(steps[j], clear)
    ensures Clearing(ms[i], clear)
  {
    if k < i {
      ClearingStays(ms, steps, k, i - 1, clear);
      assert ms[i] == Next(ms[i - 1], steps[i - 1]) && LeavesClear(steps[i - 1], clear);
    }
  }

  /**
   Whatever deliveries failed and runs stopped meanwhile: once an open incident was saved as clear
   and every check since is clear, the first check after the hold lets the recovery through, and
   its message tells that time.
   */
  lemma RecoveryComes(ms: seq<Machine>, steps: seq<Step>, k: nat, i: nat, clear: int, since: int,
          detail: Option<string>)
    requires Run(ms, steps) && k <= i < |steps| && Clearing(ms[k], clear)
    requires forall j :: k <= j <= i ==> LeavesClear(steps[j], clear)
    requires steps[i].Observe? && ms[i].disk.pending.None?
    requires clear + RECOVERY_HOLD <= steps[i].now && ms[i].disk.alertedAt.GetOr(0) + RECOVERY_HOLD <= steps[i].now
    ensures ms[i + 1].verdict.finding == Some(false)
    ensures var saved := Next(ms[i + 1], Save);
      && Enabled(saved, Create(since, detail))
      && Next(saved, Create(since, detail)).memory.value.pending == Some(Pending(false, clear, None))
  {
    ClearingStays(ms, steps, k, i, clear);
    assert LeavesClear(steps[i], clear);
  }

  // ----- What the messages say -----

  /** An alert's message tells the check that found it; a recovery's keeps when the incident was first observed. */
  lemma CreatedTells(m: Machine, since: int, detail: Option<string>)
    requires Enabled(m, Create(since, detail)) && m.memory.Some?
    ensures var made := Next(m, Create(since, detail)).memory.value;
      && (m.verdict.finding == Some(true) ==>
            made.pending == Some(Pending(true, m.verdict.now, detail)) && made.since == since)
      && (m.verdict.finding == Some(false) ==>
            made.pending.Some? && !made.pending.value.active && made.since == m.disk.since && made.clearSince.None?)
  {}

  /** While the last message taken is an alert, the incident keeps its first observation. */
  predicate SinceWell(m: Machine) {
    m.posted != [] && m.posted[|m.posted| - 1].active ==>
      && m.posted[|m.posted| - 1].since == m.disk.since
      && (m.memory.Some? ==> m.memory.value.since == m.disk.since)
  }

  /** A recovery told right after an alert tells the same first observation. */
  ghost predicate SameSince(posted: seq<Message>) {
    forall i, next :: 0 <= i && next == i + 1 && next < |posted| && posted[i].active && !posted[next].active ==>
      posted[next].since == posted[i].since
  }

  lemma StepKeepsSince(m: Machine, step: Step)
    requires Inv(m) && Enabled(m, step) && SinceWell(m) && SameSince(m.posted)
    ensures SinceWell(Next(m, step)) && SameSince(Next(m, step).posted)
  {}

  lemma {:induction false} RecoveryNamesItsAlert(ms: seq<Machine>, steps: seq<Step>, i: nat)
    requires Run(ms, steps) && i < |ms|
    ensures SinceWell(ms[i]) && SameSince(ms[i].posted)
  {
    if i > 0 {
      RecoveryNamesItsAlert(ms, steps, i - 1);
      RunKeepsInv(ms, steps, i - 1);
      StepKeepsSince(ms[i - 1], steps[i - 1]);
    }
  }

  /** Discord is sent the saved change. */
  lemma PostedIsSaved(m: Machine, step: Step)
    requires Enabled(m, step) && Next(m, step).posted != m.posted
    ensures m.disk.pending.Some? && (step.Post? || step.PostAndRecord?)
    ensures var p := m.disk.pending.value;
      Next(m, step).posted == m.posted + [Message(p.active, m.disk.since, p.at, p.detail)]
  {}
}
