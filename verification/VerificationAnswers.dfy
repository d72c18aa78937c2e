/**
 What a verification is answered: the game's one reply, what the links were, and what the request
 had been answered before.
 */
module VerificationAnswers {
  import opened Basics
  import opened Windows
  import opened Verification

  // ----- One transaction's answer, told from the rows it meets -----

  /** Counting refuses exactly a new request of an account with six attempts in the last minute. */
  lemma CountAnswers(st: State, c: int, at: int)
    requires Enabled(st, Count(c, at))
    ensures var call, n := st.calls[c], Next(st, Count(c, at));
      var used := |Since(st.log, |st.log|, {call.binding.account}, at - MINUTE)|;
      && n == st.(calls := n.calls, clock := at) && n.calls.Keys == st.calls.Keys
      && (if call.request !in st.rows && used >= 6
          then n.calls[c].phase.Over? && n.calls[c].phase.answer.Some? && n.calls[c].phase.answer.value.RateLimited?
          else n.calls[c].phase == Counted(at))
  {}

  /** A new request is reserved for 45 seconds, with a pending audit and one attempt of its account. */
  lemma NewIsReserved(st: State, c: int, at: int, made: int)
    requires Enabled(st, Reserve(c, at, made)) && st.calls[c].request !in st.rows
    ensures var call, n := st.calls[c], Next(st, Reserve(c, at, made));
      && n.rows == st.rows[call.request := Row(call.binding, InProgress(at + 45 * SECOND), c, at)]
      && n.audits == st.audits[call.request := None] && n.log == st.log + [Entry(call.binding.account, made)]
      && n.calls == st.calls[c := call.(phase := Reserved)] && n.links == st.links
  {}

  /**
   A recorded request is answered at once: another binding conflicts, a stored answer is given
   again, and one in progress is still running until its 45 seconds are over, and then closed as
   unavailable. Nothing else changes.
   */
  lemma RecordedIsAnswered(states: seq<State>, steps: seq<Step>, i: nat)
    requires Run(states, steps) && i < |steps| && steps[i].Reserve?
    requires states[i].calls[steps[i].c].request in states[i].rows
    ensures var st, n, c := states[i], states[i + 1], steps[i].c;
      var call := st.calls[c];
      var row := st.rows[call.request];
      && n.log == st.log && n.links == st.links
      && (if row.binding != call.binding then
            n.calls == st.calls[c := call.(phase := Over(Some(Conflict)))] && n.rows == st.rows
          else if row.state.Complete? then
            n.calls == st.calls[c := call.(phase := Over(Some(row.state.answer)))] && n.rows == st.rows
          else if steps[i].at < row.reserved + 45 * SECOND then
            n.calls == st.calls[c := call.(phase := Over(Some(StillRunning)))] && n.rows == st.rows
          else
            && n.calls == st.calls[c := call.(phase := Over(Some(Unavailable)))]
            && n.rows == st.rows[call.request := row.(state := Complete(Unavailable))])
  {
    RunKeepsInv(states, steps, i);
    assert AuditWell(states[i], states[i].calls[steps[i].c].request);
  }

  /** The answer to a game reply, by the link there is. */
  function Said(outcome: Outcome, held: Option<int>, account: int): Answer {
    match outcome
    case NoAnswer => Unavailable
    case BadToken => InvalidToken
    case Verified => if held.None? then Linked else if held.value == account then AlreadyLinked else SupportRequired
  }

  /**
   A call whose request is still in progress completes it with what the game said and the links
   were, and links the player exactly when the token was good and nobody else holds it; a call whose
   request was completed meanwhile changes nothing.
   */
  lemma FinishAnswers(states: seq<State>, steps: seq<Step>, i: nat)
    requires Run(states, steps) && i < |steps| && steps[i].Finish?
    ensures var st, n, c := states[i], states[i + 1], steps[i].c;
      var call := st.calls[c];
      var tag, account, said := call.binding.tag, call.binding.account,
                                Said(call.phase.outcome, Lookup(st.links, call.binding.tag), call.binding.account);
      && call.request in st.rows
      && (if st.rows[call.request].state.InProgress? then
            && n.rows == st.rows[call.request := st.rows[call.request].(state := Complete(said))]
            && n.calls == st.calls[c := call.(phase := Over(Some(said)))]
            && n.links == (if call.phase.outcome.Verified? && (tag !in st.links || st.links[tag] == account)
                           then st.links[tag := account] else st.links)
          else
            n.rows == st.rows && n.links == st.links && n.calls == st.calls[c := call.(phase := Over(None))])
  {
    RunKeepsInv(states, steps, i);
    var call := states[i].calls[steps[i].c];
    assert CallWell(states[i], steps[i].c);
    assert AuditWell(states[i], call.request) && OwnerWell(states[i], call.request);
  }

  // ----- What a stored answer means -----

  /** The game replied once about a request, and a call that has yet to hear it finds none. */
  ghost predicate RepliesWell(st: State) {
    && (forall a, b :: a in st.replies && b in st.replies && a.request == b.request ==> a == b)
    && (forall a :: a in st.replies ==> a.request in st.asked)
    && (forall c, a :: c in st.calls && st.calls[c].phase.Asked? && a in st.replies ==>
          a.request != st.calls[c].request)
  }

  /** The stored answer is what the game's reply to the request makes of it. */
  ghost predicate AnswerTells(st: State, r: int) {
    r in st.rows && st.rows[r].state.Complete? ==>
      match st.rows[r].state.answer
      case Linked => Told(r, Verified) in st.replies
      case AlreadyLinked => Told(r, Verified) in st.replies
      case SupportRequired => Told(r, Verified) in st.replies
      case InvalidToken => Told(r, BadToken) in st.replies
      case InvalidRequest => r !in st.asked
      case _ => st.rows[r].state.answer.Unavailable?
  }

  /** Two calls at work on a request are the same. */
  lemma OneWorks(st: State, c: int, d: int)
    requires Inv(st) && c in st.calls && d in st.calls && st.calls[c].request == st.calls[d].request
    requires Works(st.calls[c].phase) && Works(st.calls[d].phase)
    ensures c == d
  {
    assert CallWell(st, c) && CallWell(st, d);
  }

  /** A reply comes to a call that waits for it. */
  lemma ReplyStepped(st: State, step: Step)
    requires Enabled(st, step)
    ensures var n := Next(st, step);
      && n.replies == (if step.Reply? then st.replies + {Told(st.calls[step.c].request, step.outcome)} else st.replies)
      && (step.Reply? ==> st.calls[step.c].phase.Asked? && !n.calls[step.c].phase.Asked?)
      && (forall r :: r in st.asked ==> r in n.asked)
  {}

  lemma StepKeepsReplies(st: State, step: Step)
    requires Inv(st) && Enabled(st, step) && RepliesWell(st)
    ensures RepliesWell(Next(st, step))
  {
    var n := Next(st, step);
    ReplyStepped(st, step);
    if Mover(step).Some? && step.c in st.calls { assert CallWell(st, step.c); }
    forall c, a | c in n.calls && n.calls[c].phase.Asked? && a in n.replies ensures a.request != n.calls[c].request {
      CallStepped(st, step, c);
      if step.Reply? && c != step.c {
        if a.request == n.calls[c].request { OneWorks(st, c, step.c); }
      }
    }
  }

  /** A call that waits for the game did so before, or has just asked for the first time. */
  lemma CallStepped(st: State, step: Step, c: int)
    requires Enabled(st, step) && c in Next(st, step).calls && Next(st, step).calls[c].phase.Asked?
    ensures c in st.calls && st.calls[c].request == Next(st, step).calls[c].request
    ensures st.calls[c].phase.Asked? || (step == Ask(c) && st.calls[c].phase.Reserved?)
  {
    if Mover(step) == Some(c) {
      AsksItself(st, step, c);
    } else {
      NoneElseBegins(st, step, c);
      OtherCallStays(st, step, c);
    }
  }

  lemma AsksItself(st: State, step: Step, c: int)
    requires Enabled(st, step) && Mover(step) == Some(c) && c in Next(st, step).calls
    requires Next(st, step).calls[c].phase.Asked?
    ensures step == Ask(c) && st.calls[c].phase.Reserved? && st.calls[c].request == Next(st, step).calls[c].request
  {}

  lemma NoneElseBegins(st: State, step: Step, c: int)
    requires Enabled(st, step) && Mover(step) != Some(c) && c in Next(st, step).calls
    ensures c in st.calls
  {}

  lemma AskedStays(st: State, step: Step, r: int)
    requires Inv(st) && Enabled(st, step) && AnswerTells(st, r) && r in st.rows && st.rows[r].state.Complete?
    ensures AnswerTells(Next(st, step), r)
  {
    if Mover(step).Some? && step.c in st.calls { assert CallWell(st, step.c); }
    assert AuditWell(st, r);
    StepKeepsRowStays(st, step, r);
    ReplyStepped(st, step);
  }

  lemma CompletedTells(st: State, step: Step, r: int)
    requires Inv(st) && Enabled(st, step) && !(r in st.rows && st.rows[r].state.Complete?)
    ensures AnswerTells(Next(st, step), r)
  {
    if Mover(step).Some? && step.c in st.calls { assert CallWell(st, step.c); }
  }

  lemma StepKeepsAnswers(st: State, step: Step, r: int)
    requires Inv(st) && Enabled(st, step) && AnswerTells(st, r)
    ensures AnswerTells(Next(st, step), r)
  {
    if r in st.rows && st.rows[r].state.Complete? {
      AskedStays(st, step, r);
    } else {
      CompletedTells(st, step, r);
    }
  }

  lemma {:induction false} RunTells(states: seq<State>, steps: seq<Step>, i: nat)
    requires Run(states, steps) && i < |states|
    ensures RepliesWell(states[i]) && forall r :: AnswerTells(states[i], r)
  {
    if i > 0 {
      RunTells(states, steps, i - 1);
      RunKeepsInv(states, steps, i - 1);
      StepKeepsReplies(states[i - 1], steps[i - 1]);
      forall r ensures AnswerTells(states[i], r) { StepKeepsAnswers(states[i - 1], steps[i - 1], r); }
    }
  }

  /**
   Over every run: a token is called invalid exactly by the game's own reply, a player is linked,
   found linked or sent to support only after the game confirmed the token, and a request closed
   as invalid was never asked about.
   */
  lemma AnswersTellReplies(states: seq<State>, steps: seq<Step>, i: nat, r: int, outcome: Outcome)
    requires Run(states, steps) && i < |states| && r in states[i].rows && states[i].rows[r].state.Complete?
    ensures var answer := states[i].rows[r].state.answer;
      && (answer.InvalidToken? ==> (Told(r, outcome) in states[i].replies <==> outcome == BadToken))
      && (answer.Linked? || answer.AlreadyLinked? || answer.SupportRequired? ==>
            (Told(r, outcome) in states[i].replies <==> outcome == Verified))
      && (answer.InvalidRequest? ==> r !in states[i].asked && Told(r, outcome) !in states[i].replies)
      && (Told(r, outcome) in states[i].replies && outcome == NoAnswer ==> answer.Unavailable?)
  {
    RunTells(states, steps, i);
    assert AnswerTells(states[i], r);
    RunKeepsInv(states, steps, i);
    assert AuditWell(states[i], r);
  }
}
