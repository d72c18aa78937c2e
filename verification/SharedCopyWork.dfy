/**
 What the shared copy's threads do: every request is answered unless its own read fails, and a
 background refresh reads and stores a copy unless there is none of its key left to replace.
 */
module SharedCopyWork {
  import opened Basics
  import opened SharedCopy

  // ----- What a request meets -----

  /** The stored copy is of the request's key and younger than the limit. */
  predicate Younger(s: Setup, st: State, now: int, limit: int, at: int) {
    && st.cell.copy.Some? && st.cell.copy.value.key == s.key(now)
    && at - st.cell.copy.value.started < limit
  }

  /** A young copy is the answer, at once and with nothing else done. */
  lemma YoungIsServed(s: Setup, st: State, ask: Step)
    requires ask.Ask? && Enabled(s, st, ask) && Younger(s, st, ask.now, s.seconds, ask.first)
    ensures var n := Next(s, st, ask);
      && n.answers == st.answers + [Answer(ask.now, st.cell.copy.value, ask.first, false)]
      && n.cell == st.cell && n.threads == st.threads && n.clock == ask.first
  {}

  /**
   An older copy is served until the longest age; a refresh for the request's time starts beside
   it exactly while none runs and the backoff has passed, and the answer waits for nothing.
   */
  lemma OldIsServed(s: Setup, st: State, ask: Step)
    requires ask.Ask? && Enabled(s, st, ask) && !Younger(s, st, ask.now, s.seconds, ask.first)
    requires Younger(s, st, ask.now, s.longest, ask.second)
    ensures var n := Next(s, st, ask);
      var refresh := !st.cell.refreshing && (st.cell.retryAt.None? || ask.third >= st.cell.retryAt.value);
      && n.cell == st.cell.(refreshing := st.cell.refreshing || refresh) && n.clock == ask.third
      && n.threads == (if refresh && ask.works then st.threads[ask.refresher := Thread(ask.now, true, Wants)]
                       else st.threads)
      && n.answers == (if refresh && !ask.works then st.answers
                       else st.answers + [Answer(ask.now, st.cell.copy.value, ask.second, false)])
  {}

  /** With no copy to serve the request waits to read for itself. */
  lemma NothingIsRead(s: Setup, st: State, ask: Step)
    requires ask.Ask? && Enabled(s, st, ask)
    requires !Younger(s, st, ask.now, s.seconds, ask.first) && !Younger(s, st, ask.now, s.longest, ask.second)
    ensures var n := Next(s, st, ask);
      && n.cell == st.cell && n.answers == st.answers && n.clock == ask.third
      && n.threads == st.threads[ask.t := Thread(ask.now, false, Wants)]
  {}

  /** Under the read lock a request takes a copy that has become young, and otherwise reads. */
  lemma RequestLooksAgain(s: Setup, st: State, t: int, at: int)
    requires Enabled(s, st, CheckAgain(t, at)) && !st.threads[t].background
    ensures Next(s, st, CheckAgain(t, at)).clock == at && Next(s, st, CheckAgain(t, at)).cell == st.cell
    ensures var n, now := Next(s, st, CheckAgain(t, at)), st.threads[t].now;
      if Younger(s, st, now, s.seconds, at)
      then n.answers == st.answers + [Answer(now, st.cell.copy.value, at, false)] && n.threads == st.threads - {t}
      else n.answers == st.answers && n.threads == st.threads[t := Thread(now, false, Starts)]
  {}

  /** Under the read lock a refresh reads exactly while the stored copy is of its key. */
  lemma RefreshLooksAgain(s: Setup, st: State, t: int, at: int)
    requires Enabled(s, st, CheckAgain(t, at)) && st.threads[t].background
    ensures var n := Next(s, st, CheckAgain(t, at));
      && n.cell == st.cell && n.clock == at
      && (In(n, t, Starts) <==> st.cell.copy.Some? && st.cell.copy.value.key == s.key(st.threads[t].now))
      && (In(n, t, Ends) <==> !(st.cell.copy.Some? && st.cell.copy.value.key == s.key(st.threads[t].now)))
  {}

  /** A read that succeeds is stored, for the reader's own time, with the clock at its start, and ends the backoff. */
  lemma ReadIsStored(s: Setup, states: seq<State>, steps: seq<Step>, i: nat)
    requires Allowed(s) && Run(s, states, steps) && i < |steps| && steps[i].Store?
    ensures var thread, n := states[i].threads[steps[i].t], states[i + 1];
      && thread.phase.Reads? && n.cell.copy == Some(Copy(s.key(thread.now), thread.phase.started, thread.now))
      && n.cell.retryAt.None? && n.cell.refreshing == states[i].cell.refreshing
      && (states[i].cell.copy.Some? ==> states[i].cell.copy.value.started <= thread.phase.started)
  {
    RunKeepsInv(s, states, steps, i);
    assert ThreadWell(s, states[i], states[i].threads[steps[i].t]);
  }

  /** Over every run: a thread that is reading began to at the time its copy will carry. */
  lemma {:induction false} ReadBegan(s: Setup, states: seq<State>, steps: seq<Step>, i: nat, t: int) returns (k: nat)
    requires Run(s, states, steps) && i < |states| && t in states[i].threads && states[i].threads[t].phase.Reads?
    ensures k < i && steps[k] == StartRead(t, states[i].threads[t].phase.started)
    ensures states[k + 1].clock == states[i].threads[t].phase.started
  {
    var last := i - 1;
    assert states[i] == Next(s, states[last], steps[last]);
    Before(s, states[last], steps[last], t);
    if steps[last].StartRead? && steps[last].t == t {
      k := last;
    } else {
      k := ReadBegan(s, states, steps, last, t);
    }
  }

  /** Whatever the interleaving: a request's thread that goes was answered with a copy, unless its own read failed. */
  lemma RequestsAreAnswered(s: Setup, states: seq<State>, steps: seq<Step>, i: nat, t: int)
    requires Allowed(s) && Run(s, states, steps) && i < |steps|
    requires t in states[i].threads && !states[i].threads[t].background && t !in states[i + 1].threads
    ensures steps[i] != FailRead(t) ==>
              && |states[i + 1].answers| == |states[i].answers| + 1
              && states[i + 1].answers[|states[i].answers|].now == states[i].threads[t].now
  {
    RunKeepsInv(s, states, steps, i);
    assert RefresherWell(states[i], t);
    if steps[i].t in states[i].threads { assert RefresherWell(states[i], steps[i].t); }
  }

  // ----- What a background refresh has done when it ends -----

  /** The same background thread, for a request's time, is there from state k to state i. */
  ghost predicate Lives(states: seq<State>, k: nat, i: nat, t: int, now: int) {
    && k <= i < |states|
    && forall j :: k <= j <= i ==>
         t in states[j].threads && states[j].threads[t].background && states[j].threads[t].now == now
  }

  lemma LivesOn(s: Setup, states: seq<State>, steps: seq<Step>, k: nat, i: nat, t: int, now: int)
    requires Run(s, states, steps) && i < |steps| && Lives(states, k, i, t, now) && t in states[i + 1].threads
    ensures Lives(states, k, i + 1, t, now)
  {
    assert states[i + 1] == Next(s, states[i], steps[i]);
  }

  /** A thread that was there before and has not just been started took the step or was left alone. */
  lemma Before(s: Setup, st: State, step: Step, t: int)
    requires Enabled(s, st, step) && t in Next(s, st, step).threads && !Next(s, st, step).threads[t].phase.Wants?
    ensures t in st.threads && st.threads[t].background == Next(s, st, step).threads[t].background
    ensures st.threads[t].now == Next(s, st, step).threads[t].now
    ensures step.t != t || step.Ask? ==> Next(s, st, step).threads[t] == st.threads[t]
  {}

  lemma {:induction false} StoredOwn(s: Setup, states: seq<State>, steps: seq<Step>, i: nat, t: int) returns (k: nat)
    requires Run(s, states, steps) && i < |states| && t in states[i].threads && states[i].threads[t].background
    requires states[i].threads[t].phase.Leaves?
    ensures k < i && steps[k] == Store(t) && Lives(states, k, i, t, states[i].threads[t].now)
  {
    var last := i - 1;
    assert states[i] == Next(s, states[last], steps[last]);
    Before(s, states[last], steps[last], t);
    if steps[last] == Store(t) {
      k := last;
      assert Lives(states, last, last, t, states[i].threads[t].now);
    } else {
      k := StoredOwn(s, states, steps, last, t);
    }
    LivesOn(s, states, steps, k, last, t, states[i].threads[t].now);
  }

  /**
   Over every run: a background refresh that ends has stored a copy of its own, or its read
   failed, or under the read lock it found no copy of its key to replace.
   */
  lemma {:induction false} RefreshReads(s: Setup, states: seq<State>, steps: seq<Step>, i: nat, t: int) returns (k: nat)
    requires Run(s, states, steps) && i < |states| && t in states[i].threads && states[i].threads[t].background
    requires states[i].threads[t].phase.Ends?
    ensures k < i && Lives(states, k, i, t, states[i].threads[t].now) && steps[k].t == t
    ensures
      || steps[k].Store?
      || steps[k].NoteFailure?
      || (steps[k].CheckAgain?
          && !(states[k].cell.copy.Some? && states[k].cell.copy.value.key == s.key(states[i].threads[t].now)))
  {
    var last := i - 1;
    assert states[i] == Next(s, states[last], steps[last]);
    Before(s, states[last], steps[last], t);
    if steps[last].t == t && !steps[last].Ask? {
      if steps[last].Leave? {
        k := StoredOwn(s, states, steps, last, t);
      } else {
        k := last;
        assert Lives(states, last, last, t, states[i].threads[t].now);
      }
    } else {
      k := RefreshReads(s, states, steps, last, t);
    }
    LivesOn(s, states, steps, k, last, t, states[i].threads[t].now);
  }
}
