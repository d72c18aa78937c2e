/**
 The alert loop's memory: its list of DMs waiting to be tried again, one try of a DM, the pass
 over the list at the start of each round, and the claim of a new DM. What the loop cannot know -
 the clock, whether a DM is still due, how Discord answered - arrives as a Look for each DM.

 The loop is one bot of the AlertDelivery system: each method is proved to take enabled steps of
 that system, with any steps of other bots, of the battle log and of pruning in between.
 */
module AlertLoop {
  import opened Basics
  import opened AlertDelivery

  datatype Ending = EndSent | EndRefused | EndFailed

  /**
   The clock when a DM is looked at, whether it is still due, and the try made if it is: `taken`
   says when Discord took the message, if it did.
   */
  datatype Look = Look(at: int, stillDue: bool, start: int, end: int, outcome: Outcome, taken: Option<int>)

  /** What a try does on Discord, it does while it runs and before its cut-off; one that returns was taken. */
  predicate Honest(look: Look, d: Delivery) {
    && look.at <= look.start <= look.end
    && (look.taken.Some? ==> look.start <= look.taken.value <= look.end && look.taken.value < d.claimedAt + NONCE_LIMIT)
    && (look.outcome.Sent? ==> look.taken.Some?)
  }

  /** What one pass does with a waiting DM. */
  datatype Fate = Stays | Ends(ending: Ending) | Requeued(again: Delivery)

  function EndingOf(outcome: Outcome): Ending {
    match outcome
    case Sent => EndSent
    case Refused => EndRefused
    case _ => EndFailed
  }

  function TryFate(d: Delivery, look: Look): Fate {
    if d.claimedAt + NONCE_LIMIT - look.start <= 0 then Ends(EndFailed)
    else
      var again := AfterTry(d, look.outcome, look.end);
      if again.Some? then Requeued(again.value) else Ends(EndingOf(look.outcome))
  }

  function FateOf(d: Delivery, look: Look): Fate {
    var expired := d.claimedAt + NONCE_LIMIT - look.at <= 0;
    if !expired && d.retryAt > look.at then Stays
    else if expired || !look.stillDue then Ends(EndFailed)
    else TryFate(d, look)
  }

  // ----- What a look means, told from the clock and Discord's answer alone -----

  predicate InTimeAt(d: Delivery, at: int) { at < d.claimedAt + NONCE_LIMIT }

  /** A waiting DM is tried when its time has come, it is still due and there is time left. */
  predicate Tries(d: Delivery, look: Look) {
    InTimeAt(d, look.at) && d.retryAt <= look.at && look.stillDue && InTimeAt(d, look.start)
  }

  /** A try that Discord could not take leaves time for another. */
  predicate LeavesTime(d: Delivery, look: Look) {
    look.outcome.Unreachable? && InTimeAt(d, look.end + Max(NextWait(d.wait), look.outcome.retryAfter))
  }

  /** The DM as it then waits. */
  function Again(d: Delivery, look: Look): Delivery
    requires look.outcome.Unreachable?
  {
    d.(wait := NextWait(d.wait), retryAt := look.end + Max(NextWait(d.wait), look.outcome.retryAfter))
  }

  /** The final state logged for a waiting DM: sent and refused are what Discord answered, failed is every other end. */
  predicate EndsAs(d: Delivery, look: Look, ending: Ending) {
    match ending
    case EndSent => Tries(d, look) && look.outcome.Sent?
    case EndRefused => Tries(d, look) && look.outcome.Refused?
    case EndFailed =>
      || !InTimeAt(d, look.at)
      || (d.retryAt <= look.at && !Tries(d, look))
      || (Tries(d, look) && (look.outcome.Failed? || (look.outcome.Unreachable? && !LeavesTime(d, look))))
  }

  /** What a pass does with a waiting DM, in these terms. */
  lemma FateExactly(d: Delivery, look: Look)
    ensures FateOf(d, look).Stays? <==> InTimeAt(d, look.at) && d.retryAt > look.at
    ensures FateOf(d, look).Requeued? <==> Tries(d, look) && LeavesTime(d, look)
    ensures FateOf(d, look).Requeued? ==> FateOf(d, look).again == Again(d, look)
    ensures forall e :: FateOf(d, look) == Ends(e) <==> EndsAs(d, look, e)
  {}

  /** What one try leaves: the waiting list, the final states and the count. */
  predicate LeftBy(d: Delivery, look: Look, waiting: seq<Delivery>, finished: seq<(int, Ending)>,
          waiting': seq<Delivery>, finished': seq<(int, Ending)>, sent: nat)
  {
    var made := InTimeAt(d, look.start);
    if made && look.outcome.Sent? then
      waiting' == waiting && finished' == finished + [(d.id, EndSent)] && sent == 1
    else if made && look.outcome.Refused? then
      waiting' == waiting && finished' == finished + [(d.id, EndRefused)] && sent == 0
    else if made && LeavesTime(d, look) then
      waiting' == waiting + [Again(d, look)] && finished' == finished && sent == 0
    else
      waiting' == waiting && finished' == finished + [(d.id, EndFailed)] && sent == 0
  }

  /** The tries a pass makes, each with the clock when it begins. */
  function TriesOf(list: seq<Delivery>, looks: seq<Look>, n: nat): seq<(Delivery, int)>
    requires n <= |list| <= |looks|
  {
    if n == 0 then []
    else
      var d, look := list[n - 1], looks[n - 1];
      TriesOf(list, looks, n - 1) + if Tries(d, look) then [(d, look.start)] else []
  }

  function SentOf(list: seq<Delivery>, looks: seq<Look>, n: nat): nat
    requires n <= |list| <= |looks|
  {
    if n == 0 then 0
    else SentOf(list, looks, n - 1) + if EndsAs(list[n - 1], looks[n - 1], EndSent) then 1 else 0
  }

  // ----- The pass -----

  /** list.remove(d): without the first DM with this one's id. */
  function Without(ds: seq<Delivery>, id: int): seq<Delivery> {
    if ds == [] then [] else if ds[0].id == id then ds[1..] else [ds[0]] + Without(ds[1..], id)
  }

  predicate Distinct(ds: seq<Delivery>) {
    ds == [] || ((forall d :: d in ds[1..] ==> d.id != ds[0].id) && Distinct(ds[1..]))
  }

  /** The waiting list once the pass has looked at the first `n` DMs it held at the start. */
  function Pass(list: seq<Delivery>, looks: seq<Look>, n: nat): seq<Delivery>
    requires n <= |list| <= |looks|
  {
    if n == 0 then list
    else
      var before, d, fate := Pass(list, looks, n - 1), list[n - 1], FateOf(list[n - 1], looks[n - 1]);
      match fate
      case Stays => before
      case Ends(_) => Without(before, d.id)
      case Requeued(again) => Without(before, d.id) + [again]
  }

  function Ended(list: seq<Delivery>, looks: seq<Look>, n: nat): seq<(int, Ending)>
    requires n <= |list| <= |looks|
  {
    if n == 0 then []
    else
      var fate := FateOf(list[n - 1], looks[n - 1]);
      Ended(list, looks, n - 1) + if fate.Ends? then [(list[n - 1].id, fate.ending)] else []
  }

  lemma {:induction false} WithoutIsRest(ds: seq<Delivery>, id: int)
    requires Distinct(ds)
    ensures Distinct(Without(ds, id))
    ensures forall d :: d in Without(ds, id) <==> d in ds && d.id != id
  {
    if ds != [] && ds[0].id != id { WithoutIsRest(ds[1..], id); }
  }

  lemma {:induction false} AppendStaysDistinct(ds: seq<Delivery>, x: Delivery)
    requires Distinct(ds) && forall d :: d in ds ==> d.id != x.id
    ensures Distinct(ds + [x])
  {
    if ds != [] {
      AppendStaysDistinct(ds[1..], x);
      assert (ds + [x])[1..] == ds[1..] + [x];
    }
  }

  lemma {:induction false} DistinctIds(ds: seq<Delivery>, i: nat, j: nat)
    requires Distinct(ds) && i < j < |ds|
    ensures ds[i].id != ds[j].id
  {
    if i == 0 {
      assert ds[j] == ds[1..][j - 1];
    } else {
      DistinctIds(ds[1..], i - 1, j - 1);
    }
  }

  /** What the k-th DM of the list is in the waiting list after the pass has looked at `n` of them. */
  predicate Survives(list: seq<Delivery>, looks: seq<Look>, n: nat, k: nat, d: Delivery)
    requires n <= |list| <= |looks| && k < |list|
  {
    if k >= n then d == list[k]
    else
      var fate := FateOf(list[k], looks[k]);
      (fate.Stays? && d == list[k]) || (fate.Requeued? && d == fate.again)
  }

  /** A pass loses no waiting DM and doubles none: exactly those not ended wait afterwards, once each. */
  lemma {:induction false} PassKeepsTheRest(list: seq<Delivery>, looks: seq<Look>, n: nat)
    requires n <= |list| <= |looks| && Distinct(list)
    ensures Distinct(Pass(list, looks, n))
    ensures forall d :: d in Pass(list, looks, n) <==> exists k :: 0 <= k < |list| && Survives(list, looks, n, k, d)
  {
    if n == 0 {
      forall d | d in list ensures exists k :: 0 <= k < |list| && Survives(list, looks, 0, k, d) {
        var k :| 0 <= k < |list| && list[k] == d;
        assert Survives(list, looks, 0, k, d);
      }
    } else {
      PassKeepsTheRest(list, looks, n - 1);
      var before, m := Pass(list, looks, n - 1), list[n - 1];
      WithoutIsRest(before, m.id);
      var fate := FateOf(m, looks[n - 1]);
      if fate.Requeued? { AppendStaysDistinct(Without(before, m.id), fate.again); }
      forall d | d in Pass(list, looks, n) ensures exists k :: 0 <= k < |list| && Survives(list, looks, n, k, d) {
        if d in before {
          var k :| 0 <= k < |list| && Survives(list, looks, n - 1, k, d);
          assert Survives(list, looks, n, k, d);
        } else {
          assert Survives(list, looks, n, n - 1, d);
        }
      }
      forall d, k | 0 <= k < |list| && Survives(list, looks, n, k, d) ensures d in Pass(list, looks, n) {
        if k != n - 1 {
          assert Survives(list, looks, n - 1, k, d);
          DistinctIds(list, if k < n - 1 then k else n - 1, if k < n - 1 then n - 1 else k);
        } else if fate.Stays? {
          assert Survives(list, looks, n - 1, k, d);
        }
      }
    }
  }

  /** The final states a pass logs are exactly those of the DMs that end, each as Discord answered. */
  lemma {:induction false} EndedExactly(list: seq<Delivery>, looks: seq<Look>, n: nat, end: (int, Ending))
    requires n <= |list| <= |looks|
    ensures end in Ended(list, looks, n)
      <==> exists k :: 0 <= k < n && list[k].id == end.0 && EndsAs(list[k], looks[k], end.1)
  {
    if n > 0 {
      EndedExactly(list, looks, n - 1, end);
      FateExactly(list[n - 1], looks[n - 1]);
      assert end in Ended(list, looks, n) <==>
        end in Ended(list, looks, n - 1) || (list[n - 1].id == end.0 && EndsAs(list[n - 1], looks[n - 1], end.1));
    }
  }

  lemma LoggedExactly(before: seq<(int, Ending)>, after: seq<(int, Ending)>, list: seq<Delivery>, looks: seq<Look>)
    requires |list| <= |looks| && after == before + Ended(list, looks, |list|)
    ensures before <= after
    ensures forall end :: end in after[|before|..] <==>
              exists k :: 0 <= k < |list| && list[k].id == end.0 && EndsAs(list[k], looks[k], end.1)
  {
    assert after[|before|..] == Ended(list, looks, |list|);
    forall end ensures end in after[|before|..] <==>
      exists k :: 0 <= k < |list| && list[k].id == end.0 && EndsAs(list[k], looks[k], end.1)
    {
      EndedExactly(list, looks, |list|, end);
    }
  }

  // ----- The loop as one bot of the system -----

  ghost predicate Walks(from: State, steps: seq<Step>, to: State)
    decreases |steps|
  {
    if steps == [] then from == to
    else Enabled(from, steps[0]) && Walks(Next(from, steps[0]), steps[1..], to)
  }

  ghost predicate Reaches(from: State, to: State) { exists steps :: Walks(from, steps, to) }

  lemma {:induction false} WalksAppend(from: State, steps: seq<Step>, mid: State, more: seq<Step>, to: State)
    requires Walks(from, steps, mid) && Walks(mid, more, to)
    ensures Walks(from, steps + more, to)
    decreases |steps|
  {
    if steps == [] {
      assert steps + more == more;
    } else {
      WalksAppend(Next(from, steps[0]), steps[1..], mid, more, to);
      assert (steps + more)[1..] == steps[1..] + more;
    }
  }

  lemma ReachesOn(from: State, mid: State, to: State)
    requires Reaches(from, mid) && Reaches(mid, to)
    ensures Reaches(from, to)
  {
    var steps :| Walks(from, steps, mid);
    var more :| Walks(mid, more, to);
    WalksAppend(from, steps, mid, more, to);
  }

  lemma ReachesNext(from: State, mid: State, step: Step)
    requires Reaches(from, mid) && Enabled(mid, step)
    ensures Reaches(from, Next(mid, step))
  {
    assert [step][1..] == [] && Walks(Next(mid, step), [], Next(mid, step));
    assert Walks(mid, [step], Next(mid, step));
    ReachesOn(from, mid, Next(mid, step));
  }

  lemma ReachesSelf(from: State)
    ensures Reaches(from, from)
  {
    assert Walks(from, [], from);
  }

  /** What goes on until then, of which the loop knows only that its own DMs stay: any steps of others. */
  lemma Meanwhile(from: State, mid: State, bot: int, until: int) returns (to: State)
    requires Reaches(from, mid) && mid.now <= until
    ensures Reaches(from, to) && to.now == until && Lookup(to.bots, bot) == Lookup(mid.bots, bot)
        && to.shown == mid.shown
  {
    to := Next(mid, Wait(until));
    ReachesNext(from, mid, Wait(until));
  }

  lemma {:induction false} WalkExtendsRun(
    now: int, memory: int, states: seq<State>, steps: seq<Step>, more: seq<Step>, to: State)
    requires Run(now, memory, states, steps) && Walks(states[|steps|], more, to)
    ensures exists longer :: Run(now, memory, longer, steps + more) && longer[|steps + more|] == to
    decreases |more|
  {
    if more == [] {
      assert steps + more == steps;
    } else {
      var next := Next(states[|steps|], more[0]);
      WalkExtendsRun(now, memory, states + [next], steps + [more[0]], more[1..], to);
      assert steps + [more[0]] + more[1..] == steps + more;
    }
  }

  /** So whatever the loops of all bots do after any run, no event is shown twice. */
  lemma LoopsNeverSendTwice(now: int, memory: int, states: seq<State>, steps: seq<Step>, to: State)
    requires Run(now, memory, states, steps) && memory >= NONCE_LIMIT && Reaches(states[|steps|], to)
    ensures OneMessageEach(to)
  {
    var more :| Walks(states[|steps|], more, to);
    WalkExtendsRun(now, memory, states, steps, more, to);
    var longer :| Run(now, memory, longer, steps + more) && longer[|steps + more|] == to;
    NeverSentTwice(now, memory, longer, steps + more);
  }

  /** What the system says a bot holds whose DMs all wait. */
  function WaitingPhases(ds: seq<Delivery>): map<int, Phase> {
    if ds == [] then map[] else WaitingPhases(ds[1..])[ds[0].id := Waiting(ds[0])]
  }

  lemma {:induction false} HeldIds(ds: seq<Delivery>, id: int)
    ensures id in WaitingPhases(ds) <==> exists d :: d in ds && d.id == id
  {
    if ds != [] {
      HeldIds(ds[1..], id);
      assert ds == [ds[0]] + ds[1..];
      if id in WaitingPhases(ds) {
        if id == ds[0].id { assert ds[0] in ds; }
      }
    }
  }

  lemma {:induction false} HeldWaits(ds: seq<Delivery>, d: Delivery)
    requires Distinct(ds) && d in ds
    ensures d.id in WaitingPhases(ds) && WaitingPhases(ds)[d.id] == Waiting(d)
  {
    if d != ds[0] {
      assert d in ds[1..];
      HeldWaits(ds[1..], d);
    }
  }

  lemma {:induction false} HeldWithout(ds: seq<Delivery>, id: int)
    requires Distinct(ds)
    ensures WaitingPhases(Without(ds, id)) == WaitingPhases(ds) - {id}
  {
    if ds != [] {
      if ds[0].id == id {
        HeldIds(ds[1..], id);
      } else {
        HeldWithout(ds[1..], id);
        assert ([ds[0]] + Without(ds[1..], id))[1..] == Without(ds[1..], id);
      }
    }
  }

  lemma {:induction false} HeldAppend(ds: seq<Delivery>, x: Delivery)
    requires forall d :: d in ds ==> d.id != x.id
    ensures WaitingPhases(ds + [x]) == WaitingPhases(ds)[x.id := Waiting(x)]
  {
    if ds != [] {
      assert ds[0] in ds && (ds + [x])[1..] == ds[1..] + [x];
      HeldAppend(ds[1..], x);
    } else {
      assert ([] + [x])[1..] == [];
    }
  }

  /** Discord shows a message with this nonce. */
  predicate Shows(s: State, id: int) { exists i :: 0 <= i < |s.shown| && s.shown[i].nonce == id }

  lemma {:induction false} WalkKeepsShown(from: State, steps: seq<Step>, to: State)
    requires Walks(from, steps, to)
    ensures from.shown <= to.shown
    decreases |steps|
  {
    if steps != [] { WalkKeepsShown(Next(from, steps[0]), steps[1..], to); }
  }

  /** What Discord shows stays shown. */
  lemma ReachesKeepsShown(from: State, to: State, id: int)
    requires Reaches(from, to) && Shows(from, id)
    ensures Shows(to, id)
  {
    var steps :| Walks(from, steps, to);
    WalkKeepsShown(from, steps, to);
    var i :| 0 <= i < |from.shown| && from.shown[i].nonce == id;
    assert to.shown[i] == from.shown[i];
  }

  /** Every DM logged as sent is one that Discord shows. */
  predicate AllShown(finished: seq<(int, Ending)>, s: State) {
    forall i :: 0 <= i < |finished| && finished[i].1 == EndSent ==> Shows(s, finished[i].0)
  }

  lemma ShownStays(finished: seq<(int, Ending)>, from: State, to: State)
    requires AllShown(finished, from) && Reaches(from, to)
    ensures AllShown(finished, to)
  {
    forall i | 0 <= i < |finished| && finished[i].1 == EndSent ensures Shows(to, finished[i].0) {
      ReachesKeepsShown(from, to, finished[i].0);
    }
  }

  lemma TakeShows(s: State, bot: int, id: int)
    requires Enabled(s, Take(bot, id))
    ensures Shows(Next(s, Take(bot, id)), id)
  {
    var n := Next(s, Take(bot, id));
    if !Remembered(s, id) { assert n.shown[|s.shown|].nonce == id; }
  }

  /** Discord takes the message while the try runs. */
  lemma TakeRuns(s: State, bot: int, phases: map<int, Phase>, d: Delivery, at: int) returns (to: State)
    requires bot in s.bots && s.bots[bot] == phases && d.id in phases && phases[d.id] == Sending(d)
    requires s.now <= at && InTimeAt(d, at)
    ensures Reaches(s, to) && to.now == at && bot in to.bots && to.bots[bot] == phases && Shows(to, d.id)
  {
    ReachesSelf(s);
    to := Meanwhile(s, s, bot, at);
    ReachesNext(s, to, Take(bot, d.id));
    TakeShows(to, bot, d.id);
    to := Next(to, Take(bot, d.id));
  }

  /** The system once the try has run, given what else the bot holds. */
  lemma TryRuns(s: State, bot: int, held: map<int, Phase>, d: Delivery, look: Look) returns (to: State)
    requires bot in s.bots && s.bots[bot] == held[d.id := Sending(d)] && d.id !in held
    requires Honest(look, d) && s.now <= look.start
    ensures Reaches(s, to) && to.now == look.end && bot in to.bots
    ensures var again := AfterTry(d, look.outcome, look.end);
      to.bots[bot] == if again.Some? then held[d.id := Waiting(again.value)] else held
    ensures look.taken.Some? ==> Shows(to, d.id)
  {
    ReachesSelf(s);
    to := s;
    if look.taken.Some? {
      to := TakeRuns(s, bot, held[d.id := Sending(d)], d, look.taken.value);
    }
    to := Meanwhile(s, to, bot, look.end);
    ReachesNext(s, to, End(bot, d.id, look.outcome));
    to := Next(to, End(bot, d.id, look.outcome));
  }

  /** A waiting DM whose time has come is tried again. */
  lemma RetryBegins(s: State, bot: int, held: map<int, Phase>, d: Delivery, start: int) returns (to: State)
    requires bot in s.bots && s.bots[bot] == held[d.id := Waiting(d)] && d.id !in held
    requires s.now <= start && d.retryAt <= start < d.claimedAt + NONCE_LIMIT
    ensures Reaches(s, to) && to.now == start && bot in to.bots && to.bots[bot] == held[d.id := Sending(d)]
  {
    ReachesSelf(s);
    to := Meanwhile(s, s, bot, start);
    ReachesNext(s, to, Retry(bot, d.id));
    to := Next(to, Retry(bot, d.id));
  }

  /** A DM that is given up without another try. */
  lemma GivenUp(s: State, bot: int, held: map<int, Phase>, d: Delivery, claimed: bool, at: int) returns (to: State)
    requires bot in s.bots && s.bots[bot] == held[d.id := if claimed then Sending(d) else Waiting(d)] && d.id !in held
    requires s.now <= at
    ensures Reaches(s, to) && to.now == at && bot in to.bots && to.bots[bot] == held
  {
    ReachesSelf(s);
    to := Meanwhile(s, s, bot, at);
    var step := if claimed then End(bot, d.id, Failed) else Drop(bot, d.id);
    ReachesNext(s, to, step);
    to := Next(to, step);
  }

  /** A claimed DM's first try begins. */
  lemma ClaimBegins(s: State, bot: int, held: map<int, Phase>, event: Event, claimedAt: int) returns (to: State)
    requires bot in s.bots && s.bots[bot] == held && s.nextId !in held && Enabled(s, Claim(bot, event))
        && s.now <= claimedAt
    ensures Reaches(s, to) && to.now == claimedAt && bot in to.bots
    ensures to.bots[bot] == held[s.nextId := Sending(Delivery(s.nextId, event, claimedAt, 0, 0))]
  {
    ReachesSelf(s);
    ReachesNext(s, s, Claim(bot, event));
    to := Next(s, Claim(bot, event));
    to := Meanwhile(s, to, bot, claimedAt);
    ReachesNext(s, to, FirstTry(bot, s.nextId));
    to := Next(to, FirstTry(bot, s.nextId));
  }

  class Loop {
    const bot: int
    var waiting: seq<Delivery>
    /** The delivery log's final states, as they are written. */
    var finished: seq<(int, Ending)>
    /** Each try handed to Discord, with the clock when it began. */
    var tried: seq<(Delivery, int)>
    /** The whole system, this loop's bot among others. */
    ghost var system: State

    /** The system holds for this bot exactly the DMs that wait. */
    ghost predicate Agrees()
      reads this
    {
      bot in system.bots && system.bots[bot] == WaitingPhases(waiting)
    }

    /** The system holds for this bot the DMs that wait and one more. */
    ghost predicate AgreesWith(id: int, phase: Phase)
      reads this
    {
      bot in system.bots && system.bots[bot] == WaitingPhases(waiting)[id := phase]
    }

    /** The system's steps of one try of a DM, or of giving it up when no time is left. */
    ghost method Moves(d: Delivery, look: Look, claimed: bool)
      requires AgreesWith(d.id, if claimed then Sending(d) else Waiting(d)) && d.id !in WaitingPhases(waiting)
      requires Honest(look, d) && system.now <= look.start && (claimed || d.retryAt <= look.start)
      modifies `system
      ensures Reaches(old(system), system) && system.now <= look.end && bot in system.bots
      ensures var fate := TryFate(d, look);
        system.bots[bot]
            == if fate.Requeued? then WaitingPhases(waiting)[d.id := Waiting(fate.again)] else WaitingPhases(waiting)
      ensures InTimeAt(d, look.start) && look.taken.Some? ==> Shows(system, d.id)
    {
      var held := WaitingPhases(waiting);
      if look.start >= d.claimedAt + NONCE_LIMIT {
        system := GivenUp(system, bot, held, d, claimed, look.start);
      } else {
        var begun := system;
        ReachesSelf(begun);
        if !claimed { begun := RetryBegins(system, bot, held, d, look.start); }
        var to := TryRuns(begun, bot, held, d, look);
        ReachesOn(system, begun, to);
        system := to;
      }
    }

    /**
     _send: one try, cut off at the DM's last moment, and what it leaves. The system takes a
     waiting DM's Retry, Discord's Take and the try's End, or drops the DM when no time is left.
     */
    method Send(d: Delivery, look: Look, ghost claimed: bool) returns (sent: nat)
      requires AgreesWith(d.id, if claimed then Sending(d) else Waiting(d)) && d.id !in WaitingPhases(waiting)
      requires Honest(look, d) && system.now <= look.start && (claimed || d.retryAt <= look.start)
      requires AllShown(finished, system)
      modifies this
      ensures LeftBy(d, look, old(waiting), old(finished), waiting, finished, sent)
      ensures AllShown(finished, system)
      ensures var fate := TryFate(d, look);
        && waiting == old(waiting) + (if fate.Requeued? then [fate.again] else [])
        && finished == old(finished) + (if fate.Ends? then [(d.id, fate.ending)] else [])
      ensures tried == old(tried) + (if look.start < d.claimedAt + NONCE_LIMIT then [(d, look.start)] else [])
      ensures Reaches(old(system), system) && Agrees() && system.now <= look.end
    {
      Moves(d, look, claimed);
      ShownStays(finished, old(system), system);
      var left := d.claimedAt + NONCE_LIMIT - look.start;
      if left <= 0 {
        finished := finished + [(d.id, EndFailed)];
        return 0;
      }
      tried := tried + [(d, look.start)];
      var ending := EndingOf(look.outcome);
      if look.outcome.Unreachable? {
        var wait := Min(Max(2 * d.wait, RETRY), RETRY_LONGEST);
        var pause := Max(wait, look.outcome.retryAfter);
        if pause < d.claimedAt + NONCE_LIMIT - look.end {
          var again := d.(wait := wait, retryAt := look.end + pause);
          HeldNone(waiting, d.id);
          HeldAppend(waiting, again);
          waiting := waiting + [again];
          return 0;
        }
      }
      finished := finished + [(d.id, ending)];
      sent := if ending == EndSent then 1 else 0;
    }

    /** A DM of the pass that has expired or is no longer due is ended, and the system drops it. */
    method Expire(d: Delivery, look: Look)
      requires Distinct(waiting) && d in waiting && Agrees() && system.now <= look.at && AllShown(finished, system)
      modifies this
      ensures waiting == Without(old(waiting), d.id) && finished == old(finished) + [(d.id, EndFailed)]
      ensures tried == old(tried) && AllShown(finished, system)
      ensures Reaches(old(system), system) && Agrees() && system.now == look.at
    {
      HeldWaits(waiting, d);
      HeldWithout(waiting, d.id);
      ghost var held := WaitingPhases(Without(waiting, d.id));
      assert system.bots[bot] == held[d.id := Waiting(d)];
      system := GivenUp(system, bot, held, d, false, look.at);
      ShownStays(finished, old(system), system);
      waiting := Without(waiting, d.id);
      finished := finished + [(d.id, EndFailed)];
    }

    /** A DM of the pass that is tried again. */
    method TryAgain(d: Delivery, look: Look) returns (sent: nat)
      requires Distinct(waiting) && d in waiting && Agrees() && Honest(look, d) && system.now <= look.at
          && d.retryAt <= look.at && AllShown(finished, system)
      modifies this
      ensures LeftBy(d, look, Without(old(waiting), d.id), old(finished), waiting, finished, sent)
      ensures AllShown(finished, system)
      ensures var fate := TryFate(d, look);
        && waiting == Without(old(waiting), d.id) + (if fate.Requeued? then [fate.again] else [])
        && finished == old(finished) + (if fate.Ends? then [(d.id, fate.ending)] else [])
      ensures tried == old(tried) + (if look.start < d.claimedAt + NONCE_LIMIT then [(d, look.start)] else [])
      ensures Reaches(old(system), system) && Agrees() && system.now <= look.end
    {
      HeldWaits(waiting, d);
      HeldWithout(waiting, d.id);
      waiting := Without(waiting, d.id);
      assert system.bots[bot] == WaitingPhases(waiting)[d.id := Waiting(d)];
      sent := Send(d, look, false);
    }

    /** One DM of the pass: it stays, is ended, or is tried again. */
    method PassOne(d: Delivery, look: Look) returns (sent: nat)
      requires Distinct(waiting) && d in waiting && Agrees() && Honest(look, d) && system.now <= look.at
      requires AllShown(finished, system)
      modifies this
      ensures AllShown(finished, system) && sent == if EndsAs(d, look, EndSent) then 1 else 0
      ensures tried == old(tried) + if Tries(d, look) then [(d, look.start)] else []
      ensures Reaches(old(system), system) && Agrees() && system.now <= look.end
      ensures waiting == match FateOf(d, look)
                         case Stays => old(waiting)
                         case Ends(_) => Without(old(waiting), d.id)
                         case Requeued(again) => Without(old(waiting), d.id) + [again]
      ensures finished == old(finished) + (if FateOf(d, look).Ends? then [(d.id, FateOf(d, look).ending)] else [])
    {
      ReachesSelf(system);
      sent := 0;
      var expired := d.claimedAt + NONCE_LIMIT - look.at <= 0;
      if !expired && d.retryAt > look.at {
        return;
      }
      if expired || !look.stillDue {
        Expire(d, look);
      } else {
        sent := TryAgain(d, look);
      }
    }

    /** The clock never goes back from one look of the pass to the next. */
    ghost predicate InOrder(looks: seq<Look>)
      reads this
    {
      && |looks| >= |waiting|
      && (forall i :: 0 <= i < |waiting| ==> Honest(looks[i], waiting[i]) && system.now <= looks[i].at)
      && forall i, j :: 0 <= i < j < |looks| ==> looks[i].end <= looks[j].at
    }

    /** The pass has come to the i-th DM, with these final states written and these tries made before it. */
    ghost predicate At(list: seq<Delivery>, looks: seq<Look>, i: nat, before: seq<(int, Ending)>,
            earlier: seq<(Delivery, int)>)
      requires i <= |list| <= |looks|
      reads this
    {
      && waiting == Pass(list, looks, i) && finished == before + Ended(list, looks, i) && Agrees()
      && tried == earlier + TriesOf(list, looks, i) && AllShown(finished, system)
    }

    method LookAt(list: seq<Delivery>, looks: seq<Look>, i: nat, ghost before: seq<(int, Ending)>,
            ghost earlier: seq<(Delivery, int)>)
      returns (sent: nat)
      requires i < |list| <= |looks| && Distinct(list) && At(list, looks, i, before, earlier)
      requires Honest(looks[i], list[i]) && system.now <= looks[i].at
      modifies this
      ensures At(list, looks, i + 1, before, earlier) && Reaches(old(system), system) && system.now <= looks[i].end
      ensures sent == if EndsAs(list[i], looks[i], EndSent) then 1 else 0
    {
      StillWaits(list, looks, i);
      PassStep(list, looks, i);
      sent := PassOne(list[i], looks[i]);
    }

    /**
     The pass of one round over the DMs that wait: each DM's look is the one with its index. Exactly
     the DMs whose time has come, that are still due and in time are tried; each that ends is logged
     as Discord answered, and what is logged as sent is shown. The system takes enabled steps
     throughout, so what holds over every run of it holds of the loop.
     */
    method RetryWaiting(looks: seq<Look>) returns (sent: nat)
      requires Distinct(waiting) && Agrees() && InOrder(looks) && AllShown(finished, system)
      modifies this
      ensures Distinct(waiting) && waiting == Pass(old(waiting), looks, |old(waiting)|)
      ensures tried == old(tried) + TriesOf(old(waiting), looks, |old(waiting)|)
      ensures old(finished) <= finished && AllShown(finished, system)
      ensures forall end :: end in finished[|old(finished)|..] <==>
                exists k :: 0 <= k < |old(waiting)| && old(waiting)[k].id == end.0
                    && EndsAs(old(waiting)[k], looks[k], end.1)
      ensures sent == SentOf(old(waiting), looks, |old(waiting)|)
      ensures Reaches(old(system), system) && Agrees()
    {
      var list := waiting;
      ghost var from, before, earlier := system, finished, tried;
      ReachesSelf(from);
      sent := 0;
      for i := 0 to |list|
        invariant At(list, looks, i, before, earlier) && Reaches(from, system) && sent == SentOf(list, looks, i)
        invariant forall j :: i <= j < |list| ==> system.now <= looks[j].at
      {
        ghost var mid := system;
        var one := LookAt(list, looks, i, before, earlier);
        sent := sent + one;
        ReachesOn(from, mid, system);
      }
      PassKeepsTheRest(list, looks, |list|);
      LoggedExactly(before, finished, list, looks);
    }

    /** _claim: a DM still due and not logged yet is logged, with the row's id, and tried. */
    method ClaimDm(event: Event, claimed: Option<int>, claimedAt: int, look: Look) returns (sent: nat)
      requires Distinct(waiting) && Agrees() && AllClaimed(system) && system.now <= claimedAt <= look.at
      requires claimed == if Enabled(system, Claim(bot, event)) then Some(system.nextId) else None
      requires claimed.Some? ==> Honest(look, Delivery(claimed.value, event, claimedAt, 0, 0))
      requires AllShown(finished, system)
      modifies this
      ensures AllShown(finished, system)
      ensures Reaches(old(system), system) && Agrees() && Distinct(waiting)
      ensures claimed.None? ==> sent == 0 && waiting == old(waiting) && tried == old(tried) && finished == old(finished)
      ensures claimed.Some? ==>
                var d := Delivery(claimed.value, event, claimedAt, 0, 0);
                && LeftBy(d, look, old(waiting), old(finished), waiting, finished, sent)
                && tried == old(tried) + if InTimeAt(d, look.start) then [(d, look.start)] else []
    {
      ghost var from := system;
      ReachesSelf(from);
      if claimed.None? {
        return 0;
      }
      var d := Delivery(claimed.value, event, claimedAt, 0, 0);
      NewIdIsFree(system, bot, waiting);
      system := ClaimBegins(system, bot, WaitingPhases(waiting), event, claimedAt);
      ghost var begun := system;
      ShownStays(finished, from, begun);
      sent := Send(d, look, true);
      ReachesOn(from, begun, system);
      ghost var fate := TryFate(d, look);
      assert !fate.Requeued? ==> waiting == old(waiting);
      if fate.Requeued? {
        HeldNone(old(waiting), d.id);
        AppendStaysDistinct(old(waiting), fate.again);
      }
    }
  }

  /** Every DM held was claimed, under an id given out before. */
  ghost predicate AllClaimed(s: State) { ClaimsDue(s) && AllHeldWell(s) }

  lemma NewIdIsFree(s: State, bot: int, waiting: seq<Delivery>)
    requires AllClaimed(s) && bot in s.bots && s.bots[bot] == WaitingPhases(waiting)
    ensures s.nextId !in WaitingPhases(waiting)
  {
    if s.nextId in WaitingPhases(waiting) {
      assert Holds(s, bot, s.nextId);
    }
  }

  lemma HeldNone(ds: seq<Delivery>, id: int)
    requires id !in WaitingPhases(ds)
    ensures forall d :: d in ds ==> d.id != id
  {
    HeldIds(ds, id);
  }

  lemma PassStep(list: seq<Delivery>, looks: seq<Look>, i: nat)
    requires i < |list| <= |looks|
    ensures Pass(list, looks, i + 1) == match FateOf(list[i], looks[i])
                                        case Stays => Pass(list, looks, i)
                                        case Ends(_) => Without(Pass(list, looks, i), list[i].id)
                                        case Requeued(again) => Without(Pass(list, looks, i), list[i].id) + [again]
    ensures var fate := FateOf(list[i], looks[i]);
      Ended(list, looks, i + 1) == Ended(list, looks, i) + if fate.Ends? then [(list[i].id, fate.ending)] else []
  {}

  /** What the pass has not come to still waits, unchanged. */
  lemma StillWaits(list: seq<Delivery>, looks: seq<Look>, i: nat)
    requires i < |list| <= |looks| && Distinct(list)
    ensures Distinct(Pass(list, looks, i)) && list[i] in Pass(list, looks, i)
  {
    PassKeepsTheRest(list, looks, i);
    assert Survives(list, looks, i, i, list[i]);
  }
}
