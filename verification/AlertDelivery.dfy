/**
 Attack alerts: delivering each alert as at most one Discord DM.

 Several bot processes share the delivery log and may stop at any moment. A DM is claimed by a
 row of the log before its first try; every try carries the row's id as its nonce; a DM Discord
 did not confirm is tried again until NONCE_LIMIT after its first try, although Discord may
 have taken it. Discord shows a message unless it showed one with the same nonce within its
 nonce memory. Log rows are deleted after KEEP.
 */
module AlertDelivery {
  import opened Basics

  const WINDOW: int := 15 * MINUTE
  const RETRY: int := 10 * SECOND
  const RETRY_LONGEST: int := 120 * SECOND
  const NONCE_LIMIT: int := 120 * SECOND
  const KEEP: int := 7 * DAY

  /** What one DM is about: the key under which the log takes a row only once. */
  datatype Event =
    | Attack(account: int, battle: int)
    | Confirmation(account: int, player: int, askedAt: int)

  /** A claimed DM in a bot's memory. */
  datatype Delivery = Delivery(id: int, event: Event, claimedAt: int, wait: int, retryAt: int)

  datatype Outcome = Sent | Refused | Unreachable(retryAfter: int) | Failed

  // ----- One try -----

  function NextWait(wait: int): int { Min(Max(2 * wait, RETRY), RETRY_LONGEST) }

  /** What a try that ended at `now` leaves in memory: the same DM waiting for its next try, or nothing. */
  function AfterTry(d: Delivery, outcome: Outcome, now: int): Option<Delivery> {
    if !outcome.Unreachable? then None
    else
      var wait := NextWait(d.wait);
      var pause := Max(wait, outcome.retryAfter);
      if pause < d.claimedAt + NONCE_LIMIT - now then Some(d.(wait := wait, retryAt := now + pause)) else None
  }

  // ----- The system -----

  datatype Row = Row(event: Event, createdAt: int)

  datatype Phase = Claiming(event: Event) | Sending(d: Delivery) | Waiting(d: Delivery)

  datatype Message = Message(nonce: int, event: Event, at: int)

  /**
   `log` is the delivery log and `claims` every row it ever had; `bots` holds each running
   process's claimed DMs by log id; `shown` lists Discord's messages, and `tries` the times
   each claimed DM was tried.
   */
  datatype State = State(
    now: int,
    nonceMemory: int,
    saved: map<int, int>,
    log: map<int, Row>,
    claims: map<int, Row>,
    nextId: int,
    bots: map<int, map<int, Phase>>,
    shown: seq<Message>,
    tries: map<int, seq<int>>)

  datatype Step =
    | Wait(until: int)
    | SaveBattle(battle: int)
    | Boot(bot: int)
    | Crash(bot: int)
    | Claim(bot: int, event: Event)
    | FirstTry(bot: int, id: int)
    | Retry(bot: int, id: int)
    | Drop(bot: int, id: int)
    | Take(bot: int, id: int)
    | End(bot: int, id: int, outcome: Outcome)
    | Prune

  /** The event has happened. */
  predicate Known(s: State, e: Event) {
    if e.Attack? then e.battle in s.saved && s.saved[e.battle] <= s.now else e.askedAt <= s.now
  }

  function Since(s: State, e: Event): int
    requires Known(s, e)
  {
    if e.Attack? then s.saved[e.battle] else e.askedAt
  }

  predicate Holds(s: State, bot: int, id: int) { bot in s.bots && id in s.bots[bot] }

  function Held(s: State, bot: int, id: int): Phase
    requires Holds(s, bot, id)
  {
    s.bots[bot][id]
  }

  /** Whether Discord remembers showing a message with this nonce. */
  predicate Remembered(s: State, nonce: int) {
    exists i :: 0 <= i < |s.shown| && s.shown[i].nonce == nonce && s.now - s.shown[i].at < s.nonceMemory
  }

  predicate InTime(s: State, d: Delivery) { s.now < d.claimedAt + NONCE_LIMIT }

  predicate Enabled(s: State, step: Step) {
    match step
    case Wait(until) => s.now <= until
    case SaveBattle(b) => b !in s.saved
    case Boot(bot) => bot !in s.bots
    case Crash(bot) => bot in s.bots
    case Claim(bot, e) =>
      // Still due, and no row of the log has the event's key.
      bot in s.bots && Known(s, e) && s.now < Since(s, e) + WINDOW && forall id :: id in s.log ==> s.log[id].event != e
    case FirstTry(bot, id) => Holds(s, bot, id) && Held(s, bot, id).Claiming?
    case Retry(bot, id) =>
      Holds(s, bot, id) && Held(s, bot, id).Waiting? && Held(s, bot, id).d.retryAt <= s.now
          && InTime(s, Held(s, bot, id).d)
    case Drop(bot, id) => Holds(s, bot, id) && Held(s, bot, id).Waiting?
    case Take(bot, id) => Holds(s, bot, id) && Held(s, bot, id).Sending? && InTime(s, Held(s, bot, id).d)
    case End(bot, id, _) => Holds(s, bot, id) && Held(s, bot, id).Sending?
    case Prune => true
  }

  function Keep(s: State, bot: int, id: int, phase: Phase): State
    requires bot in s.bots
  {
    s.(bots := s.bots[bot := s.bots[bot][id := phase]])
  }

  function Forget(s: State, bot: int, id: int): State
    requires bot in s.bots
  {
    s.(bots := s.bots[bot := s.bots[bot] - {id}])
  }

  function Tried(s: State, id: int): State {
    s.(tries := s.tries[id := if id in s.tries then s.tries[id] + [s.now] else [s.now]])
  }

  function Next(s: State, step: Step): State
    requires Enabled(s, step)
  {
    match step
    case Wait(until) => s.(now := until)
    case SaveBattle(b) => s.(saved := s.saved[b := s.now])
    case Boot(bot) => s.(bots := s.bots[bot := map[]])
    case Crash(bot) => s.(bots := s.bots - {bot})
    case Claim(bot, e) =>
      var row := Row(e, s.now);
      Keep(s, bot, s.nextId, Claiming(e))
        .(log := s.log[s.nextId := row], claims := s.claims[s.nextId := row], nextId := s.nextId + 1)
    case FirstTry(bot, id) =>
      Tried(Keep(s, bot, id, Sending(Delivery(id, Held(s, bot, id).event, s.now, 0, 0))), id)
    case Retry(bot, id) => Tried(Keep(s, bot, id, Sending(Held(s, bot, id).d)), id)
    case Drop(bot, id) => Forget(s, bot, id)
    case Take(_, id) =>
      if Remembered(s, id) then s else s.(shown := s.shown + [Message(id, Held(s, step.bot, id).d.event, s.now)])
    case End(bot, id, outcome) =>
      var again := AfterTry(Held(s, bot, id).d, outcome, s.now);
      if again.Some? then Keep(s, bot, id, Waiting(again.value)) else Forget(s, bot, id)
    case Prune => s.(log := map id | id in s.log && s.now - KEEP <= s.log[id].createdAt :: s.log[id])
  }

  // ----- What a step does to the log and to a bot's memory -----

  /** A claim logs the event now, under an id never used, and that bot alone holds the DM. */
  lemma ClaimLogs(s: State, bot: int, e: Event)
    requires Enabled(s, Claim(bot, e))
    ensures var n := Next(s, Claim(bot, e));
      && n.log == s.log[s.nextId := Row(e, s.now)] && n.nextId > s.nextId
      && n.bots == s.bots[bot := s.bots[bot][s.nextId := Claiming(e)]] && n.shown == s.shown && n.tries == s.tries
  {}

  /** Pruning deletes exactly the rows older than seven days, and nothing else. */
  lemma PrunedExactly(s: State, id: int)
    ensures var n := Next(s, Prune);
      && (id in n.log <==> id in s.log && s.now - s.log[id].createdAt <= 7 * DAY)
      && (id in n.log ==> n.log[id] == s.log[id])
      && n.bots == s.bots && n.shown == s.shown
  {}

  /** A stopped bot forgets every DM it held; the log, Discord and the other bots keep theirs. */
  lemma CrashForgets(s: State, bot: int, other: int, id: int)
    requires Enabled(s, Crash(bot))
    ensures var n := Next(s, Crash(bot));
      && bot !in n.bots && !Holds(n, bot, id) && (other != bot ==> Lookup(n.bots, other) == Lookup(s.bots, other))
      && n.log == s.log && n.shown == s.shown
  {}

  /** Discord shows a message it is given unless it showed one with the nonce within its memory. */
  lemma TakenIsShown(s: State, bot: int, id: int)
    requires Enabled(s, Take(bot, id))
    ensures var n := Next(s, Take(bot, id));
      n.shown == if exists i :: 0 <= i < |s.shown| && s.shown[i].nonce == id && s.now < s.shown[i].at + s.nonceMemory
                 then s.shown else s.shown + [Message(id, s.bots[bot][id].d.event, s.now)]
  {}

  /**
   A try that ends leaves the DM waiting exactly when Discord could not take it and the wait,
   doubled from ten seconds or as long as Discord asks, ends before two minutes after the first try.
   */
  lemma EndLeaves(s: State, bot: int, id: int, outcome: Outcome)
    requires Enabled(s, End(bot, id, outcome))
    ensures var n, d := Next(s, End(bot, id, outcome)), s.bots[bot][id].d;
      var wait := if 2 * d.wait < 10 * SECOND then 10 * SECOND
                  else if 2 * d.wait > 120 * SECOND then 120 * SECOND else 2 * d.wait;
      if outcome.Unreachable? && s.now + Max(wait, outcome.retryAfter) < d.claimedAt + 120 * SECOND
      then n.bots[bot] == s.bots[bot][id := Waiting(d.(wait := wait, retryAt := s.now + Max(wait, outcome.retryAfter)))]
      else n.bots[bot] == s.bots[bot] - {id}
  {}

  // ----- What every reachable state keeps -----

  /** Each claim was made while its event was due, and its row stays in the log for KEEP. */
  ghost predicate ClaimsDue(s: State) {
    && (forall id :: id in s.log ==> id in s.claims && s.log[id] == s.claims[id])
    && (forall id :: id in s.claims ==>
      && id < s.nextId
      && Known(s, s.claims[id].event)
      && Since(s, s.claims[id].event) <= s.claims[id].createdAt < Since(s, s.claims[id].event) + WINDOW
      && s.claims[id].createdAt <= s.now
      && (id !in s.log ==> s.claims[id].createdAt + KEEP < s.now))
  }

  ghost predicate ClaimedOnce(s: State) {
    forall i, j :: i in s.claims && j in s.claims && s.claims[i].event == s.claims[j].event ==> i == j
  }

  /** The tries so far, and the wait before the next, of a DM being sent or waiting. */
  predicate OnSchedule(d: Delivery, tries: seq<int>, sending: bool) {
    && |tries| >= 1 && tries[0] == d.claimedAt
    && (forall i :: 0 <= i < |tries| ==> d.claimedAt <= tries[i] < d.claimedAt + NONCE_LIMIT)
    && var next := if sending then tries[|tries| - 1] else d.retryAt;
       var before := if sending then |tries| - 1 else |tries|;
       match before
       case 0 => d.wait == 0
       case 1 => d.wait == RETRY && next >= d.claimedAt + RETRY
       case 2 => d.wait == 2 * RETRY && next >= d.claimedAt + 3 * RETRY
       case 3 => d.wait == 4 * RETRY && next >= d.claimedAt + 7 * RETRY
       case _ => false
  }

  ghost predicate HeldWell(s: State, id: int, phase: Phase) {
    && id in s.claims
    && (match phase
        case Claiming(e) => e == s.claims[id].event && id !in s.tries && forall i :: 0 <= i < |s.shown| ==>
            s.shown[i].nonce != id
        case _ =>
          && phase.d.id == id && phase.d.event == s.claims[id].event
          && s.claims[id].createdAt <= phase.d.claimedAt
          && id in s.tries && OnSchedule(phase.d, s.tries[id], phase.Sending?)
          && (forall i :: 0 <= i < |s.tries[id]| ==> s.tries[id][i] <= s.now)
          && forall i :: 0 <= i < |s.shown| && s.shown[i].nonce == id ==> phase.d.claimedAt <= s.shown[i].at)
  }

  ghost predicate AllHeldWell(s: State) { forall bot, id :: Holds(s, bot, id) ==> HeldWell(s, id, Held(s, bot, id)) }

  ghost predicate HeldByOne(s: State) { forall a, b, id :: Holds(s, a, id) && Holds(s, b, id) ==> a == b }

  ghost predicate ShownOnce(s: State) {
    && (forall i :: 0 <= i < |s.shown| ==>
      s.shown[i].nonce in s.claims && s.shown[i].event == s.claims[s.shown[i].nonce].event && s.shown[i].at <= s.now)
    && (forall i, j :: 0 <= i < j < |s.shown| ==> s.shown[i].nonce != s.shown[j].nonce)
  }

  /** At most four tries of a DM, each inside the limit after the first, none before its row was logged. */
  ghost predicate TriesBounded(s: State) {
    forall id :: id in s.tries ==>
      && id in s.claims && 1 <= |s.tries[id]| <= 4 && s.claims[id].createdAt <= s.tries[id][0]
      && forall i :: 0 <= i < |s.tries[id]| ==> s.tries[id][0] <= s.tries[id][i] < s.tries[id][0] + NONCE_LIMIT
  }

  ghost predicate Inv(s: State) {
    && ClaimsDue(s) && ClaimedOnce(s) && AllHeldWell(s)
    && HeldByOne(s) && ShownOnce(s) && TriesBounded(s)
  }

  // ----- Each step keeps it -----

  /** Why an event claimed once is never claimed again: its row goes only long after it stops being due. */
  lemma ClaimIsFirst(s: State, e: Event, id: int)
    requires ClaimsDue(s) && Known(s, e) && s.now < Since(s, e) + WINDOW
    requires forall i :: i in s.log ==> s.log[i].event != e
    requires id in s.claims
    ensures s.claims[id].event != e
  {}

  /** A step after which only DMs held before are held, each as it should be. */
  lemma HoldersStay(s: State, t: State)
    requires Inv(s) && forall bot, id :: Holds(t, bot, id) ==> Holds(s, bot, id)
    ensures HeldByOne(t)
  {
    forall a, b, id | Holds(t, a, id) && Holds(t, b, id) ensures a == b { assert Holds(s, a, id) && Holds(s, b, id); }
  }

  lemma ClaimKeepsClaims(s: State, bot: int, e: Event)
    requires Inv(s) && Enabled(s, Claim(bot, e))
    ensures ClaimsDue(Next(s, Claim(bot, e))) && ClaimedOnce(Next(s, Claim(bot, e)))
  {
    forall id | id in s.claims ensures s.claims[id].event != e { ClaimIsFirst(s, e, id); }
  }

  /** A claim adds one DM to its bot's and leaves every other. */
  lemma ClaimHolds(s: State, bot: int, e: Event, b: int, id: int)
    requires Inv(s) && Enabled(s, Claim(bot, e)) && Holds(Next(s, Claim(bot, e)), b, id)
    ensures if id == s.nextId then b == bot
            else Holds(s, b, id) && Held(Next(s, Claim(bot, e)), b, id) == Held(s, b, id)
  {
    assert b != bot ==> Holds(s, b, id);
    assert Holds(s, b, id) ==> HeldWell(s, id, Held(s, b, id));
  }

  lemma ClaimKeepsHeld(s: State, bot: int, e: Event)
    requires Inv(s) && Enabled(s, Claim(bot, e))
    ensures AllHeldWell(Next(s, Claim(bot, e))) && HeldByOne(Next(s, Claim(bot, e)))
  {
    var t := Next(s, Claim(bot, e));
    forall b, id | Holds(t, b, id) ensures HeldWell(t, id, Held(t, b, id)) {
      ClaimHolds(s, bot, e, b, id);
      if id != s.nextId { assert HeldWell(s, id, Held(s, b, id)); }
    }
    forall a, b, id | Holds(t, a, id) && Holds(t, b, id) ensures a == b {
      ClaimHolds(s, bot, e, a, id);
      ClaimHolds(s, bot, e, b, id);
    }
  }

  lemma ClaimKeepsInv(s: State, bot: int, e: Event)
    requires Inv(s) && Enabled(s, Claim(bot, e))
    ensures Inv(Next(s, Claim(bot, e)))
  {
    ClaimKeepsClaims(s, bot, e);
    ClaimKeepsHeld(s, bot, e);
  }

  lemma UntouchedStays(s: State, t: State, id: int, phase: Phase)
    requires HeldWell(s, id, phase)
    requires t.claims == s.claims && t.shown == s.shown && s.now <= t.now && Lookup(t.tries, id) == Lookup(s.tries, id)
    ensures HeldWell(t, id, phase)
  {
    assert id in s.tries ==> t.tries[id] == s.tries[id];
  }

  lemma FirstTryKeepsHeld(s: State, bot: int, id: int)
    requires Inv(s) && Enabled(s, FirstTry(bot, id))
    ensures AllHeldWell(Next(s, FirstTry(bot, id))) && HeldByOne(Next(s, FirstTry(bot, id)))
    ensures Next(s, FirstTry(bot, id)).tries == s.tries[id := [s.now]]
  {
    var t := Next(s, FirstTry(bot, id));
    assert HeldWell(s, id, Held(s, bot, id));
    HoldersStay(s, t);
    forall b, x | Holds(t, b, x) ensures HeldWell(t, x, Held(t, b, x)) {
      assert Holds(s, b, x) && (b == bot || x != id);
      if x != id { UntouchedStays(s, t, x, Held(s, b, x)); }
    }
  }

  lemma FirstTryKeepsInv(s: State, bot: int, id: int)
    requires Inv(s) && Enabled(s, FirstTry(bot, id))
    ensures Inv(Next(s, FirstTry(bot, id)))
  {
    FirstTryKeepsHeld(s, bot, id);
    assert HeldWell(s, id, Held(s, bot, id));
  }

  /** The waits double from 10 s, so a fourth try starts at least 70 s after the first. */
  lemma RetryOnSchedule(d: Delivery, tries: seq<int>, now: int)
    requires OnSchedule(d, tries, false) && d.retryAt <= now < d.claimedAt + NONCE_LIMIT
    ensures OnSchedule(d, tries + [now], true) && |tries| <= 3
  {}

  lemma RetryKeepsHeld(s: State, bot: int, id: int)
    requires Inv(s) && Enabled(s, Retry(bot, id))
    ensures AllHeldWell(Next(s, Retry(bot, id))) && HeldByOne(Next(s, Retry(bot, id)))
  {
    var t := Next(s, Retry(bot, id));
    assert HeldWell(s, id, Held(s, bot, id));
    HoldersStay(s, t);
    RetryOnSchedule(Held(s, bot, id).d, s.tries[id], s.now);
    forall b, x | Holds(t, b, x) ensures HeldWell(t, x, Held(t, b, x)) {
      assert Holds(s, b, x) && (b == bot || x != id);
      if x != id { UntouchedStays(s, t, x, Held(s, b, x)); }
    }
  }

  lemma RetryKeepsTries(s: State, bot: int, id: int)
    requires Inv(s) && Enabled(s, Retry(bot, id))
    ensures TriesBounded(Next(s, Retry(bot, id)))
  {
    assert HeldWell(s, id, Held(s, bot, id));
    RetryOnSchedule(Held(s, bot, id).d, s.tries[id], s.now);
  }

  lemma RetryKeepsInv(s: State, bot: int, id: int)
    requires Inv(s) && Enabled(s, Retry(bot, id))
    ensures Inv(Next(s, Retry(bot, id)))
  {
    RetryKeepsHeld(s, bot, id);
    RetryKeepsTries(s, bot, id);
  }

  lemma TakeKeepsHeld(s: State, bot: int, id: int)
    requires Inv(s) && Enabled(s, Take(bot, id))
    ensures AllHeldWell(Next(s, Take(bot, id))) && HeldByOne(Next(s, Take(bot, id)))
  {
    var t := Next(s, Take(bot, id));
    if t != s {
      HoldersStay(s, t);
      forall b, x | Holds(t, b, x) ensures HeldWell(t, x, Held(t, b, x)) {
        assert Holds(s, b, x) && HeldWell(s, x, Held(s, b, x));
      }
    }
  }

  lemma TakeKeepsInv(s: State, bot: int, id: int)
    requires Inv(s) && Enabled(s, Take(bot, id)) && s.nonceMemory >= NONCE_LIMIT
    ensures Inv(Next(s, Take(bot, id)))
  {
    TakeKeepsHeld(s, bot, id);
    assert HeldWell(s, id, Held(s, bot, id));
  }

  lemma EndOnSchedule(d: Delivery, tries: seq<int>, outcome: Outcome, now: int)
    requires OnSchedule(d, tries, true) && tries[|tries| - 1] <= now
    ensures AfterTry(d, outcome, now).Some? ==> OnSchedule(AfterTry(d, outcome, now).value, tries, false)
  {}

  lemma EndKeepsHeld(s: State, bot: int, id: int, outcome: Outcome)
    requires Inv(s) && Enabled(s, End(bot, id, outcome))
    ensures AllHeldWell(Next(s, End(bot, id, outcome))) && HeldByOne(Next(s, End(bot, id, outcome)))
  {
    var t := Next(s, End(bot, id, outcome));
    assert HeldWell(s, id, Held(s, bot, id));
    EndOnSchedule(Held(s, bot, id).d, s.tries[id], outcome, s.now);
    HoldersStay(s, t);
    forall b, x | Holds(t, b, x) ensures HeldWell(t, x, Held(t, b, x)) {
      assert Holds(s, b, x) && (b == bot || x != id);
      if x != id { UntouchedStays(s, t, x, Held(s, b, x)); }
    }
  }

  lemma EndKeepsInv(s: State, bot: int, id: int, outcome: Outcome)
    requires Inv(s) && Enabled(s, End(bot, id, outcome))
    ensures Inv(Next(s, End(bot, id, outcome)))
  {
    EndKeepsHeld(s, bot, id, outcome);
  }

  /** The steps that change no DM still held. */
  predicate Quiet(step: Step) {
    step.Wait? || step.SaveBattle? || step.Boot? || step.Crash? || step.Drop? || step.Prune?
  }

  lemma QuietStepHolds(s: State, step: Step, b: int, id: int)
    requires Enabled(s, step) && Quiet(step) && Holds(Next(s, step), b, id)
    ensures Holds(s, b, id) && Held(Next(s, step), b, id) == Held(s, b, id)
  {}

  lemma QuietStepKeepsHeld(s: State, step: Step)
    requires Inv(s) && Enabled(s, step) && Quiet(step)
    ensures AllHeldWell(Next(s, step)) && HeldByOne(Next(s, step))
  {
    var t := Next(s, step);
    forall b, id | Holds(t, b, id) ensures Holds(s, b, id) && HeldWell(t, id, Held(t, b, id)) {
      QuietStepHolds(s, step, b, id);
      UntouchedStays(s, t, id, Held(s, b, id));
    }
    HoldersStay(s, t);
  }

  lemma QuietStepKeepsClaims(s: State, step: Step)
    requires ClaimsDue(s) && Enabled(s, step) && Quiet(step)
    ensures ClaimsDue(Next(s, step)) && Next(s, step).claims == s.claims
  {}

  lemma QuietStepKeepsShown(s: State, step: Step)
    requires ShownOnce(s) && TriesBounded(s) && Enabled(s, step) && Quiet(step)
    ensures ShownOnce(Next(s, step)) && TriesBounded(Next(s, step))
  {}

  lemma QuietStepKeepsInv(s: State, step: Step)
    requires Inv(s) && Enabled(s, step) && Quiet(step)
    ensures Inv(Next(s, step))
  {
    QuietStepKeepsHeld(s, step);
    QuietStepKeepsClaims(s, step);
    QuietStepKeepsShown(s, step);
  }

  lemma StepKeepsInv(s: State, step: Step)
    requires Inv(s) && Enabled(s, step) && s.nonceMemory >= NONCE_LIMIT
    ensures Inv(Next(s, step))
  {
    match step
    case Claim(bot, e) => ClaimKeepsInv(s, bot, e);
    case FirstTry(bot, id) => FirstTryKeepsInv(s, bot, id);
    case Retry(bot, id) => RetryKeepsInv(s, bot, id);
    case Take(bot, id) => TakeKeepsInv(s, bot, id);
    case End(bot, id, outcome) => EndKeepsInv(s, bot, id, outcome);
    case _ => QuietStepKeepsInv(s, step);
  }

  // ----- Whole runs -----

  function Init(now: int, nonceMemory: int): State { State(now, nonceMemory, map[], map[], map[], 0, map[], [], map[]) }

  /** A run: it starts with nothing claimed, and each step is enabled and leads to the next state. */
  predicate Run(now: int, nonceMemory: int, states: seq<State>, steps: seq<Step>) {
    && |states| == |steps| + 1 && states[0] == Init(now, nonceMemory)
    && forall i :: 0 <= i < |steps| ==> Enabled(states[i], steps[i]) && states[i + 1] == Next(states[i], steps[i])
  }

  lemma {:induction false} RunKeepsInv(now: int, nonceMemory: int, states: seq<State>, steps: seq<Step>, i: nat)
    requires Run(now, nonceMemory, states, steps) && nonceMemory >= NONCE_LIMIT && i < |states|
    ensures Inv(states[i]) && states[i].nonceMemory == nonceMemory
  {
    if i > 0 {
      RunKeepsInv(now, nonceMemory, states, steps, i - 1);
      StepKeepsInv(states[i - 1], steps[i - 1]);
    }
  }

  ghost predicate OneMessageEach(s: State) {
    forall i, j :: 0 <= i < j < |s.shown| ==> s.shown[i].event != s.shown[j].event
  }

  /**
   Over every run, with any number of processes, crashes, lost and ambiguous tries and deleted
   log rows, Discord shows at most one message for each attack or confirmation.
   */
  lemma NeverSentTwice(now: int, nonceMemory: int, states: seq<State>, steps: seq<Step>)
    requires Run(now, nonceMemory, states, steps) && nonceMemory >= NONCE_LIMIT
    ensures forall i :: 0 <= i < |states| ==> OneMessageEach(states[i])
  {
    forall i | 0 <= i < |states| ensures OneMessageEach(states[i]) { RunKeepsInv(now, nonceMemory, states, steps, i); }
  }

  /** Every DM is tried at most four times, only after its row is in the log, and never 120 s after its first try. */
  lemma TriesStayBounded(now: int, nonceMemory: int, states: seq<State>, steps: seq<Step>)
    requires Run(now, nonceMemory, states, steps) && nonceMemory >= NONCE_LIMIT
    ensures forall i :: 0 <= i < |states| ==> TriesBounded(states[i])
  {
    forall i | 0 <= i < |states| ensures TriesBounded(states[i]) { RunKeepsInv(now, nonceMemory, states, steps, i); }
  }

  /**
   Over every run, whatever rows were deleted: a running bot can claim an event exactly in the fifteen
   minutes after it was saved or asked for, when it was never claimed before.
   */
  lemma ClaimableExactly(now: int, nonceMemory: int, states: seq<State>, steps: seq<Step>, i: nat, bot: int, e: Event)
    requires Run(now, nonceMemory, states, steps) && nonceMemory >= NONCE_LIMIT && i < |states|
    requires e.Attack? ==> e.battle in states[i].saved
    ensures var s := states[i];
      var since := if e.Attack? then s.saved[e.battle] else e.askedAt;
      Enabled(s, Claim(bot, e)) <==>
        && bot in s.bots && since <= s.now < since + 15 * MINUTE
        && forall id :: id in s.claims ==> s.claims[id].event != e
  {
    RunKeepsInv(now, nonceMemory, states, steps, i);
    if Enabled(states[i], Claim(bot, e)) {
      forall id | id in states[i].claims ensures states[i].claims[id].event != e { ClaimIsFirst(states[i], e, id); }
    }
  }

  // ----- What a crash can lose -----

  /** No running bot holds a DM claimed before. */
  ghost predicate LetGo(s: State, id: int) { id in s.claims && forall bot :: !Holds(s, bot, id) }

  /** A DM held after a step was held before it or has just been claimed. */
  lemma HeldBefore(s: State, step: Step, b: int, id: int)
    requires Inv(s) && Enabled(s, step) && Holds(Next(s, step), b, id) && id in s.claims
    ensures Holds(s, b, id)
  {
    if step.Claim? {
      ClaimHolds(s, step.bot, step.event, b, id);
    } else if Quiet(step) {
      QuietStepHolds(s, step, b, id);
    }
  }

  /** Nobody takes up again a DM that was let go, so no step shows it. */
  lemma LetGoStays(s: State, step: Step, id: int, k: nat)
    requires Inv(s) && Enabled(s, step) && LetGo(s, id)
    ensures var n := Next(s, step);
      && LetGo(n, id) && n.claims[id] == s.claims[id] && s.shown <= n.shown
      && (|s.shown| <= k < |n.shown| ==> n.shown[k].nonce != id)
  {
    forall b ensures !Holds(Next(s, step), b, id) {
      if Holds(Next(s, step), b, id) { HeldBefore(s, step, b, id); }
    }
    if step.Take? { assert !Holds(s, step.bot, id); }
  }

  lemma {:induction false} LetGoIsNotTaken(now: int, nonceMemory: int, states: seq<State>, steps: seq<Step>,
          k: nat, i: nat, id: int, m: nat)
    requires Run(now, nonceMemory, states, steps) && nonceMemory >= NONCE_LIMIT
    requires k <= i < |states| && LetGo(states[k], id)
    ensures LetGo(states[i], id) && states[i].claims[id] == states[k].claims[id] && states[k].shown <= states[i].shown
    ensures |states[k].shown| <= m < |states[i].shown| ==> states[i].shown[m].nonce != id
    decreases i
  {
    if k < i {
      LetGoIsNotTaken(now, nonceMemory, states, steps, k, i - 1, id, m);
      RunKeepsInv(now, nonceMemory, states, steps, i - 1);
      LetGoStays(states[i - 1], steps[i - 1], id, m);
    }
  }

  lemma OtherNonceOtherEvent(s: State, id: int, m: nat)
    requires Inv(s) && id in s.claims && m < |s.shown| && s.shown[m].nonce != id
    ensures s.shown[m].event != s.claims[id].event
  {}

  /** Whatever happens after every bot let go of a claimed DM, what it is about is never shown again. */
  lemma LetGoIsNeverShown(now: int, nonceMemory: int, states: seq<State>, steps: seq<Step>,
          k: nat, i: nat, id: int, m: nat)
    requires Run(now, nonceMemory, states, steps) && nonceMemory >= NONCE_LIMIT
    requires k <= i < |states| && LetGo(states[k], id)
    ensures |states[k].shown| <= m < |states[i].shown| ==> states[i].shown[m].event != states[k].claims[id].event
  {
    LetGoIsNotTaken(now, nonceMemory, states, steps, k, i, id, m);
    RunKeepsInv(now, nonceMemory, states, steps, i);
    if |states[k].shown| <= m < |states[i].shown| { OtherNonceOtherEvent(states[i], id, m); }
  }

  // ----- The nonce memory the promise needs -----

  lemma Extend(memory: int, states: seq<State>, steps: seq<Step>, step: Step)
    returns (states': seq<State>, steps': seq<Step>)
    requires Run(0, memory, states, steps) && Enabled(states[|steps|], step)
    ensures Run(0, memory, states', steps') && states'[|steps'|] == Next(states[|steps|], step)
  {
    states', steps' := states + [Next(states[|steps|], step)], steps + [step];
  }

  /** The state in which one attack's DM is claimed by bot 0, in `phase`, with the messages and tries given. */
  function OneDm(now: int, memory: int, phase: Phase, shown: seq<Message>, tries: map<int, seq<int>>): State {
    var log := map[0 := Row(Attack(5, 1), 0)];
    State(now, memory, map[1 := 0], log, log, 1, map[0 := map[0 := phase]], shown, tries)
  }

  lemma ClaimedDm(memory: int) returns (states: seq<State>, steps: seq<Step>)
    ensures Run(0, memory, states, steps)
    ensures states[|steps|] == OneDm(0, memory, Claiming(Attack(5, 1)), [], map[])
  {
    states, steps := [Init(0, memory)], [];
    states, steps := Extend(memory, states, steps, SaveBattle(1));
    states, steps := Extend(memory, states, steps, Boot(0));
    states, steps := Extend(memory, states, steps, Claim(0, Attack(5, 1)));
    assert states[|steps|].bots[0] == map[0 := Claiming(Attack(5, 1))];
  }

  /** Taken at its first try. */
  lemma TakenDm(memory: int) returns (states: seq<State>, steps: seq<Step>)
    ensures Run(0, memory, states, steps)
    ensures states[|steps|] == OneDm(0, memory, Sending(Delivery(0, Attack(5, 1), 0, 0, 0)),
                                     [Message(0, Attack(5, 1), 0)], map[0 := [0]])
  {
    states, steps := ClaimedDm(memory);
    states, steps := Extend(memory, states, steps, FirstTry(0, 0));
    assert states[|steps|].bots[0] == map[0 := Sending(Delivery(0, Attack(5, 1), 0, 0, 0))];
    assert states[|steps|].bots == map[0 := states[|steps|].bots[0]] && states[|steps|].tries == map[0 := [0]];
    states, steps := Extend(memory, states, steps, Take(0, 0));
    assert states[|steps|].shown == [Message(0, Attack(5, 1), 0)];
  }

  /** Then reported lost with `pause` to wait. */
  lemma LostDm(memory: int, pause: int) returns (states: seq<State>, steps: seq<Step>)
    requires RETRY <= pause < NONCE_LIMIT
    ensures Run(0, memory, states, steps)
    ensures states[|steps|] == OneDm(0, memory, Waiting(Delivery(0, Attack(5, 1), 0, RETRY, pause)),
                                     [Message(0, Attack(5, 1), 0)], map[0 := [0]])
  {
    states, steps := TakenDm(memory);
    states, steps := Extend(memory, states, steps, End(0, 0, Unreachable(pause)));
    assert states[|steps|].bots[0] == map[0 := Waiting(Delivery(0, Attack(5, 1), 0, RETRY, pause))];
    assert states[|steps|].bots == map[0 := states[|steps|].bots[0]];
  }

  /** With a shorter memory some run shows a DM twice: 120 s is the least memory that keeps the promise. */
  lemma ShorterMemorySendsTwice(memory: int)
    requires memory < NONCE_LIMIT
    ensures exists states, steps :: Run(0, memory, states, steps) && !OneMessageEach(states[|steps|])
  {
    var pause, shown := Max(memory, RETRY), [Message(0, Attack(5, 1), 0)];
    var states, steps := LostDm(memory, pause);
    states, steps := Extend(memory, states, steps, Wait(pause));
    states, steps := Extend(memory, states, steps, Retry(0, 0));
    var s := states[|steps|];
    assert s.shown == shown && !Remembered(s, 0);
    states, steps := Extend(memory, states, steps, Take(0, 0));
    assert states[|steps|].shown == shown + [Message(0, Attack(5, 1), pause)];
    assert states[|steps|].shown[0].event == states[|steps|].shown[1].event;
  }

  /**
   A crash can lose an alert: in some run a bot stops after it claimed a DM that is due, and however
   the run goes on, with whatever bots, nothing is ever shown of it.
   */
  lemma CrashCanLose(memory: int) returns (states: seq<State>, steps: seq<Step>)
    requires memory >= NONCE_LIMIT
    ensures Run(0, memory, states, steps) && Known(states[|steps|], Attack(5, 1))
    ensures forall longer: seq<State>, more: seq<Step> :: Run(0, memory, longer, more) && states <= longer ==>
      forall m :: 0 <= m < |longer[|more|].shown| ==> longer[|more|].shown[m].event != Attack(5, 1)
  {
    states, steps := ClaimedDm(memory);
    states, steps := Extend(memory, states, steps, Crash(0));
    forall longer: seq<State>, more: seq<Step>, m: nat
      | Run(0, memory, longer, more) && states <= longer && m < |longer[|more|].shown|
      ensures longer[|more|].shown[m].event != Attack(5, 1)
    {
      assert longer[|steps|] == states[|steps|];
      LetGoIsNeverShown(0, memory, longer, more, |steps|, |more|, 0, m);
    }
  }
}
