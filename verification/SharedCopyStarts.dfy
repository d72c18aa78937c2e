/**
 Whether the shared copy's background refreshes can go on: they can for ever, from every state,
 unless a background thread once could not be started.
 */
module SharedCopyStarts {
  import opened Basics
  import opened SharedCopy

  /** The step sets the flag for a background thread that then cannot be started. */
  predicate StartFails(s: Setup, st: State, step: Step) { step.Ask? && StartsRefresh(s, st, step) && !step.works }

  ghost predicate Walks(s: Setup, from: State, steps: seq<Step>, to: State)
    decreases |steps|
  {
    if steps == [] then from == to
    else Enabled(s, from, steps[0]) && Walks(s, Next(s, from, steps[0]), steps[1..], to)
  }

  /** Some steps lead to a background thread that replaces the stored copy. */
  ghost predicate CanRefresh(s: Setup, st: State) {
    exists steps, to, t :: Walks(s, st, steps, to) && Refreshes(s, to, t)
  }

  /** A background thread's next step replaces the stored copy by one of its key whose read started later. */
  ghost predicate Refreshes(s: Setup, st: State, t: int) {
    && Enabled(s, st, Store(t)) && st.threads[t].background && st.cell.copy.Some?
    && var stored := Next(s, st, Store(t)).cell.copy;
       && stored.Some? && stored.value.key == st.cell.copy.value.key
       && stored.value.started > st.cell.copy.value.started
  }

  // ----- When a start was lost -----

  lemma StepLoses(s: Setup, st: State, step: Step)
    requires Enabled(s, st, step)
    ensures Next(s, st, step).lost <==> st.lost || StartFails(s, st, step)
  {}

  /** A start was lost exactly when some earlier step's thread could not be started. */
  lemma {:induction false} LostExactly(s: Setup, states: seq<State>, steps: seq<Step>, i: nat)
    requires Run(s, states, steps) && i < |states|
    ensures states[i].lost <==> exists k :: 0 <= k < i && StartFails(s, states[k], steps[k])
  {
    if i > 0 {
      LostExactly(s, states, steps, i - 1);
      StepLoses(s, states[i - 1], steps[i - 1]);
    }
  }

  /** The flag is set with no background thread exactly when a start was lost. */
  lemma FlagStuckExactly(s: Setup, states: seq<State>, steps: seq<Step>, i: nat)
    requires Allowed(s) && Run(s, states, steps) && i < |states|
    ensures (states[i].cell.refreshing && forall t :: t in states[i].threads ==> !states[i].threads[t].background)
        <==> states[i].lost
  {
    RunKeepsInv(s, states, steps, i);
    var st := states[i];
    if st.refresher.Some? { assert RefresherWell(st, st.refresher.value); }
    forall t | t in st.threads ensures st.threads[t].background <==> st.refresher == Some(t) {
      assert RefresherWell(st, t);
    }
  }

  lemma {:induction false} WalkKeepsLost(s: Setup, from: State, steps: seq<Step>, to: State)
    requires Allowed(s) && Inv(s, from) && from.lost && Walks(s, from, steps, to)
    ensures to.lost && Inv(s, to)
    decreases |steps|
  {
    if steps != [] {
      StepKeepsInv(s, from, steps[0]);
      StepLoses(s, from, steps[0]);
      WalkKeepsLost(s, Next(s, from, steps[0]), steps[1..], to);
    }
  }

  // ----- Letting the threads at work finish -----

  function Left(phase: Phase): nat {
    match phase
    case Wants => 7
    case Checks => 6
    case Starts => 5
    case Reads(_) => 4
    case Leaves(_) => 3
    case Fails => 2
    case Ends => 1
  }

  function LeftOf(st: State, t: Option<int>): nat {
    if t.Some? && t.value in st.threads then Left(st.threads[t.value].phase) else 0
  }

  /** What the refresher and the reader still have to do. */
  function Rest(st: State): nat {
    LeftOf(st, st.refresher) + if st.reader == st.refresher then 0 else LeftOf(st, st.reader)
  }

  /** The next step of the reader, or else of the refresher; a read is let fail. */
  function Onward(st: State): Step
    requires OnwardThread(st).Some?
  {
    var t := OnwardThread(st).value;
    match if t in st.threads then st.threads[t].phase else Ends
    case Wants => TakeReading(t)
    case Checks => CheckAgain(t, st.clock)
    case Starts => StartRead(t, st.clock)
    case Reads(_) => FailRead(t)
    case Leaves(_) => Leave(t)
    case Fails => NoteFailure(t, st.clock)
    case Ends => End(t)
  }

  function OnwardThread(st: State): Option<int> { if st.reader.Some? then st.reader else st.refresher }

  lemma OnwardFinishes(s: Setup, st: State)
    requires Inv(s, st) && !st.lost && OnwardThread(st).Some?
    ensures Enabled(s, st, Onward(st)) && !Next(s, st, Onward(st)).lost && Rest(Next(s, st, Onward(st))) < Rest(st)
  {
    assert RefresherWell(st, OnwardThread(st).value);
  }

  lemma {:induction false} Settle(s: Setup, st: State) returns (steps: seq<Step>, to: State)
    requires Allowed(s) && Inv(s, st) && !st.lost
    ensures Walks(s, st, steps, to) && Inv(s, to) && !to.lost && to.reader.None? && to.refresher.None?
    decreases Rest(st)
  {
    if OnwardThread(st).None? {
      return [], st;
    }
    OnwardFinishes(s, st);
    StepKeepsInv(s, st, Onward(st));
    var more;
    more, to := Settle(s, Next(s, st, Onward(st)));
    steps := [Onward(st)] + more;
    assert steps[1..] == more;
  }

  // ----- A copy of one's own, and its refresh -----

  /** A time at which no stored copy is young enough to serve. */
  function TooLate(s: Setup, st: State): int {
    if st.cell.copy.None? then st.clock else Max(st.clock, st.cell.copy.value.started + s.longest)
  }

  lemma AskedLate(s: Setup, st: State, t: int, r: int)
    requires Allowed(s) && st.reader.None? && t !in st.threads && r !in st.threads && t != r
    ensures var at := TooLate(s, st);
      var ask := Ask(t, 0, at, at, at, r, true);
      Enabled(s, st, ask) && Next(s, st, ask) == st.(clock := at, threads := st.threads[t := Thread(0, false, Wants)])
  {}

  /** The request reads at that time and stores its copy. */
  lemma ReadsOwn(s: Setup, st: State, t: int, at: int) returns (steps: seq<Step>, to: State)
    requires Allowed(s) && st.reader.None? && In(st, t, Wants) && !st.threads[t].background && st.threads[t].now == 0
    requires st.clock == at && (st.cell.copy.Some? ==> at - st.cell.copy.value.started >= s.longest)
    ensures Walks(s, st, steps, to) && to.lost == st.lost && to.refresher == st.refresher && to.reader.None?
        && to.threads == st.threads - {t}
    ensures to.cell == Stored(st.cell, Copy(s.key(0), at, 0)) && to.clock == at
  {
    var copy := Copy(s.key(0), at, 0);
    var a := Next(s, st, TakeReading(t));
    var b := Next(s, a, CheckAgain(t, at));
    var c := Next(s, b, StartRead(t, at));
    var d := Next(s, c, Store(t));
    to := Next(s, d, Leave(t));
    steps := [TakeReading(t), CheckAgain(t, at), StartRead(t, at), Store(t), Leave(t)];
    assert steps[1..] == [CheckAgain(t, at), StartRead(t, at), Store(t), Leave(t)];
    assert steps[1..][1..] == [StartRead(t, at), Store(t), Leave(t)];
    assert steps[1..][1..][1..] == [Store(t), Leave(t)];
    assert steps[1..][1..][1..][1..] == [Leave(t)];
    assert Walks(s, d, [Leave(t)], to);
    assert Walks(s, c, [Store(t), Leave(t)], to);
    assert Walks(s, b, [StartRead(t, at), Store(t), Leave(t)], to);
  }

  lemma {:induction false} WalksAppend(s: Setup, from: State, steps: seq<Step>, mid: State, more: seq<Step>, to: State)
    requires Walks(s, from, steps, mid) && Walks(s, mid, more, to)
    ensures Walks(s, from, steps + more, to)
    decreases |steps|
  {
    if steps == [] {
      assert steps + more == more;
    } else {
      WalksAppend(s, Next(s, from, steps[0]), steps[1..], mid, more, to);
      assert (steps + more)[1..] == steps[1..] + more;
    }
  }

  /** A request that asks once the stored copy is no longer young. */
  function LaterAsk(s: Setup, st: State, t: int, r: int, works: bool): Step {
    var at := st.clock + s.seconds;
    Ask(t, 0, at, at, at, r, works)
  }

  /** With no thread at work and no start lost, a request can read a copy and a later one start its refresh. */
  lemma RefreshAfterRead(s: Setup, st: State) returns (steps: seq<Step>, to: State, t: int, r: int)
    requires Allowed(s) && s.seconds < s.longest && Inv(s, st) && !st.lost && st.reader.None? && st.refresher.None?
    ensures Walks(s, st, steps, to) && !to.lost && to.reader.None? && r !in to.threads
    ensures to.cell.copy == Some(Copy(s.key(0), to.clock, 0))
    ensures Enabled(s, to, LaterAsk(s, to, t, r, true)) && StartsRefresh(s, to, LaterAsk(s, to, t, r, true))
    ensures Enabled(s, to, LaterAsk(s, to, t, r, false)) && StartsRefresh(s, to, LaterAsk(s, to, t, r, false))
  {
    t := Unused(st.threads.Keys);
    r := Unused(st.threads.Keys + {t});
    var late := TooLate(s, st);
    var ask := Ask(t, 0, late, late, late, r, true);
    AskedLate(s, st, t, r);
    var asked := Next(s, st, ask);
    var more;
    more, to := ReadsOwn(s, asked, t, late);
    steps := [ask] + more;
    assert steps[1..] == more;
  }

  /** The refresh such a request starts reads later than the stored copy was read. */
  lemma StartedRefreshes(s: Setup, st: State, t: int, r: int) returns (steps: seq<Step>, to: State)
    requires Allowed(s) && st.reader.None? && st.cell.copy == Some(Copy(s.key(0), st.clock, 0))
    requires Enabled(s, st, LaterAsk(s, st, t, r, true)) && StartsRefresh(s, st, LaterAsk(s, st, t, r, true))
    ensures Walks(s, st, steps, to) && Refreshes(s, to, r)
  {
    var ask, at := LaterAsk(s, st, t, r, true), st.clock + s.seconds;
    var a := Next(s, st, ask);
    var b := Next(s, a, TakeReading(r));
    var c := Next(s, b, CheckAgain(r, at));
    to := Next(s, c, StartRead(r, at));
    steps := [ask, TakeReading(r), CheckAgain(r, at), StartRead(r, at)];
    assert steps[1..] == [TakeReading(r), CheckAgain(r, at), StartRead(r, at)];
    assert steps[1..][1..] == [CheckAgain(r, at), StartRead(r, at)];
    assert steps[1..][1..][1..] == [StartRead(r, at)];
    assert Walks(s, c, [StartRead(r, at)], to);
    assert Walks(s, b, [CheckAgain(r, at), StartRead(r, at)], to);
  }

  lemma RefreshesGoOn(s: Setup, st: State)
    requires Allowed(s) && s.seconds < s.longest && Inv(s, st) && !st.lost
    ensures CanRefresh(s, st)
  {
    var quiet, settled := Settle(s, st);
    var more, read, t, r := RefreshAfterRead(s, settled);
    var last, to := StartedRefreshes(s, read, t, r);
    WalksAppend(s, st, quiet, settled, more, read);
    WalksAppend(s, st, quiet + more, read, last, to);
  }

  lemma LostStaysStuck(s: Setup, st: State)
    requires Allowed(s) && Inv(s, st) && st.lost
    ensures !CanRefresh(s, st)
  {
    forall walked, to, t | Walks(s, st, walked, to) ensures !Refreshes(s, to, t) {
      WalkKeepsLost(s, st, walked, to);
      if t in to.threads { assert RefresherWell(to, t); }
    }
  }

  predicate NoneBeside(st: State) { forall t :: t in st.threads ==> !st.threads[t].background }

  /** With equal ages there is no moment at which a copy is old but still served. */
  lemma EqualAgesStartNone(s: Setup, st: State, step: Step)
    requires s.seconds >= s.longest && Enabled(s, st, step) && NoneBeside(st)
    ensures NoneBeside(Next(s, st, step))
  {}

  lemma {:induction false} EqualAgesWalk(s: Setup, from: State, steps: seq<Step>, to: State)
    requires s.seconds >= s.longest && NoneBeside(from) && Walks(s, from, steps, to)
    ensures NoneBeside(to)
    decreases |steps|
  {
    if steps != [] {
      EqualAgesStartNone(s, from, steps[0]);
      EqualAgesWalk(s, Next(s, from, steps[0]), steps[1..], to);
    }
  }

  lemma {:induction false} EqualAgesRun(s: Setup, states: seq<State>, steps: seq<Step>, i: nat)
    requires s.seconds >= s.longest && Run(s, states, steps) && i < |states|
    ensures NoneBeside(states[i])
  {
    if i > 0 {
      EqualAgesRun(s, states, steps, i - 1);
      EqualAgesStartNone(s, states[i - 1], steps[i - 1]);
    }
  }

  /**
   The copy can be replaced in the background exactly when no start was lost, whatever else has
   happened, and the copy is served for longer than it is young.
   */
  lemma RefreshesGoOnExactly(s: Setup, states: seq<State>, steps: seq<Step>, i: nat)
    requires Allowed(s) && Run(s, states, steps) && i < |states|
    ensures CanRefresh(s, states[i]) <==>
              s.seconds < s.longest && !exists k :: 0 <= k < i && StartFails(s, states[k], steps[k])
  {
    RunKeepsInv(s, states, steps, i);
    LostExactly(s, states, steps, i);
    if s.seconds == s.longest {
      EqualAgesRun(s, states, steps, i);
      forall walked, to, t | Walks(s, states[i], walked, to) ensures !Refreshes(s, to, t) {
        EqualAgesWalk(s, states[i], walked, to);
      }
    } else if states[i].lost {
      LostStaysStuck(s, states[i]);
    } else {
      RefreshesGoOn(s, states[i]);
    }
  }

  // ----- A run in which a start is lost -----

  lemma {:induction false} WalkIsRun(s: Setup, states: seq<State>, steps: seq<Step>, more: seq<Step>, to: State)
    returns (longer: seq<State>)
    requires Run(s, states, steps) && Walks(s, states[|steps|], more, to)
    ensures Run(s, longer, steps + more) && longer[|steps + more|] == to
    decreases |more|
  {
    if more == [] {
      longer := states;
      assert steps + more == steps;
    } else {
      longer := WalkIsRun(s, states + [Next(s, states[|steps|], more[0])], steps + [more[0]], more[1..], to);
      assert steps + [more[0]] + more[1..] == steps + more;
    }
  }

  /** A start can be lost: some run ends in a state from which no refresh ever replaces the copy again. */
  lemma AStartCanBeLost(s: Setup)
    requires Allowed(s) && s.seconds < s.longest
    ensures exists states: seq<State>, steps: seq<Step> ::
              Run(s, states, steps) && states[|steps|].lost && !CanRefresh(s, states[|steps|])
  {
    assert Run(s, [START], []) && Inv(s, START);
    var read, to, t, r := RefreshAfterRead(s, START);
    var ask := LaterAsk(s, to, t, r, false);
    var end := Next(s, to, ask);
    StepLoses(s, to, ask);
    assert Walks(s, end, [], end) && [ask][1..] == [];
    assert Walks(s, to, [ask], end);
    WalksAppend(s, START, read, to, [ask], end);
    var states := WalkIsRun(s, [START], [], read + [ask], end);
    var steps := [] + (read + [ask]);
    RunKeepsInv(s, states, steps, |steps|);
    LostStaysStuck(s, end);
  }
}
