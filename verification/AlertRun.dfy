/**
 One alert check's run over every condition: the loops of hold_recoveries and deliver, on the
 run's incidents and the file they are saved to.

 Each method is proved to take, for each condition, enabled steps of the Incidents machine, so
 what holds over every run of that machine holds of these loops.
 */
module AlertRun {
  import opened Basics
  import opened Incidents

  /** One webhook request: whether it returned, whether Discord took the message, when it ended. */
  datatype Reply = Reply(ok: bool, taken: bool, time: int)

  /** A condition's finding, and the replies to the at most two requests of its delivery. */
  datatype Finding = Finding(name: string, active: Option<bool>, first: Reply, second: Reply)

  /** A request that returns was taken; one that fails may have been taken. */
  predicate Honest(f: Finding) { (f.first.ok ==> f.first.taken) && (f.second.ok ==> f.second.taken) }

  predicate Distinct(findings: seq<Finding>) {
    forall i, j :: 0 <= i < j < |findings| ==> findings[i].name != findings[j].name
  }

  function Of(incidents: map<string, Incident>, name: string): Incident { Lookup(incidents, name).GetOr(FRESH) }

  function PostsOf(posted: map<string, seq<Message>>, name: string): seq<Message> { Lookup(posted, name).GetOr([]) }

  /** Some steps lead from one machine to the other. */
  ghost predicate Walks(from: Machine, steps: seq<Step>, to: Machine)
    decreases |steps|
  {
    if steps == [] then from == to
    else Enabled(from, steps[0]) && Walks(Next(from, steps[0]), steps[1..], to)
  }

  /** A run goes on with the steps of a walk. */
  lemma {:induction false} WalkExtendsRun(ms: seq<Machine>, steps: seq<Step>, more: seq<Step>, to: Machine)
    requires Run(ms, steps) && Walks(ms[|steps|], more, to)
    ensures exists longer :: Run(longer, steps + more) && longer[|steps + more|] == to
    decreases |more|
  {
    if more == [] {
      assert steps + more == steps;
    } else {
      var next := Next(ms[|steps|], more[0]);
      WalkExtendsRun(ms + [next], steps + [more[0]], more[1..], to);
      assert steps + [more[0]] + more[1..] == steps + more;
    }
  }

  ghost predicate Reaches(from: Machine, to: Machine) { exists steps :: Walks(from, steps, to) }

  lemma {:induction false} WalksAppend(from: Machine, steps: seq<Step>, mid: Machine, more: seq<Step>, to: Machine)
    requires Walks(from, steps, mid) && Walks(mid, more, to)
    ensures Walks(from, steps + more, to)
    decreases |steps|
  {
    if steps == [] {
      assert steps + more == more;
    } else {
      WalksAppend(Next(from, steps[0]), steps[1..], mid, more, to);
      assert (steps + more)[1..] == steps[1..] + more;
    }
  }

  lemma WalksJoin(from: Machine, mid: Machine, to: Machine)
    requires Reaches(from, mid) && Reaches(mid, to)
    ensures Reaches(from, to)
  {
    var steps :| Walks(from, steps, mid);
    var more :| Walks(mid, more, to);
    WalksAppend(from, steps, mid, more, to);
  }

  lemma OneStep(from: Machine, step: Step)
    requires Enabled(from, step)
    ensures Walks(from, [step], Next(from, step))
  {
    assert [step][1..] == [];
  }

  lemma TwoSteps(from: Machine, first: Step, second: Step)
    requires Enabled(from, first) && Enabled(Next(from, first), second)
    ensures Walks(from, [first, second], Next(Next(from, first), second))
  {
    assert [first, second][1..] == [second];
    OneStep(Next(from, first), second);
  }

  /** The finding asks for a change, or an earlier one still waits to be sent. */
  predicate Asks(i: Incident, f: Finding) { i.pending.Some? || (f.active.Some? && f.active.value != i.active) }

  /** The change that waited was sent, and the finding asks for the opposite one. */
  predicate AsksAgain(i: Incident, f: Finding) {
    i.pending.Some? && f.first.ok && f.active.Some? && f.active.value != i.pending.value.active
  }

  /** What the first request is of: the change that waited, or else the one found. */
  predicate FirstTells(i: Incident, f: Finding, m: Message)
    requires Asks(i, f)
  {
    if i.pending.Some? then m == Text(i) else m.active == f.active.value
  }

  /** A request that is made fails. */
  predicate DeliveryFails(i: Incident, f: Finding) {
    (Asks(i, f) && !f.first.ok) || (AsksAgain(i, f) && !f.second.ok)
  }

  /**
   Two requests at most, the second only of the change found after one that waited was sent;
   delivery fails exactly when a request fails, and Discord takes just the messages of those it took.
   */
  predicate DeliveredBy(i: Incident, f: Finding, sent: seq<Message>, failed: bool)
    requires Honest(f)
  {
    var first, second := Asks(i, f), AsksAgain(i, f);
    && (failed <==> DeliveryFails(i, f))
    && |sent| == (if first && f.first.taken then 1 else 0) + (if second && f.second.taken then 1 else 0)
    && (first && f.first.taken ==> FirstTells(i, f, sent[0]))
    && (second && f.second.taken ==> sent[1].active == f.active.value)
  }

  function ReplyOf(f: Finding, round: nat): Reply { if round == 0 then f.first else f.second }

  /** One round's request told of the right change, and Discord took it or not. */
  predicate Told(i: Incident, f: Finding, reply: Reply, told: seq<Message>) {
    |told| == (if Asks(i, f) && reply.taken then 1 else 0) && (told != [] ==> FirstTells(i, f, told[0]))
  }

  /** The incident once its round's request returned. */
  predicate Changed(i: Incident, f: Finding, after: Incident) {
    && Asks(i, f) && after.pending.None?
    && after.active == if i.pending.Some? then i.pending.value.active else f.active.value
  }

  /** Where the rounds are: what was asked before returned, and Discord took it. */
  predicate Progress(was: Incident, f: Finding, round: nat, now: Incident, sent: seq<Message>) {
    match round
    case 0 => now == was && sent == []
    case 1 => Changed(was, f, now) && f.first.ok && |sent| == 1 && FirstTells(was, f, sent[0])
    case _ => Honest(f) && now.pending.None? && (f.active.Some? ==> now.active == f.active.value)
              && DeliveredBy(was, f, sent, false)
  }

  lemma Joined(before: seq<Message>, sent: seq<Message>, told: seq<Message>)
    ensures before + sent + told == before + (sent + told)
  {}

  lemma RoundReturned(was: Incident, f: Finding, round: nat, now: Incident, sent: seq<Message>, told: seq<Message>,
          after: Incident)
    requires Honest(f) && round < 2 && Progress(was, f, round, now, sent) && ReplyOf(f, round).ok
    requires Told(now, f, ReplyOf(f, round), told) && Changed(now, f, after)
    ensures Progress(was, f, round + 1, after, sent + told)
  {}

  lemma RoundFailed(was: Incident, f: Finding, round: nat, now: Incident, sent: seq<Message>, told: seq<Message>)
    requires Honest(f) && round < 2 && Progress(was, f, round, now, sent) && !ReplyOf(f, round).ok
    requires Told(now, f, ReplyOf(f, round), told) && Asks(now, f)
    ensures DeliveredBy(was, f, sent + told, true)
  {}

  lemma RoundsEnd(was: Incident, f: Finding, round: nat, now: Incident, sent: seq<Message>)
    requires Honest(f) && Progress(was, f, round, now, sent) && (round < 2 ==> !Asks(now, f))
    ensures DeliveredBy(was, f, sent, false)
    ensures now.pending.None? && (f.active.Some? ==> now.active == f.active.value)
  {}

  class CheckRun {
    var incidents: map<string, Incident>
    var file: map<string, Incident>
    var details: map<string, string>
    var backupFailingSince: Option<int>
    var resumedAt: int
    /** The messages of each condition that Discord took, in order. */
    ghost var posted: map<string, seq<Message>>

    /** The condition's machine, as these fields show it. */
    ghost function View(name: string, verdict: Verdict, checks: seq<Check>, unsaved: seq<Check>): Machine
      reads this
    {
      Machine(Of(file, name), Some(Of(incidents, name)), verdict, PostsOf(posted, name), checks, unsaved)
    }

    ghost predicate AllSaved()
      reads this
    {
      forall name :: Of(file, name) == Of(incidents, name)
    }

    /** Everything of every other condition stays. */
    twostate predicate OthersStay(name: string)
      reads this
    {
      forall other :: other != name ==>
        && Of(incidents, other) == old(Of(incidents, other)) && Of(file, other) == old(Of(file, other))
        && PostsOf(posted, other) == old(PostsOf(posted, other))
    }

    /** Each condition's incident and finding become what Hold makes of them; None: a missing key raised. */
    method HoldRecoveries(findings: seq<Finding>, now: int) returns (held: Option<seq<Finding>>)
      requires Distinct(findings)
      modifies `incidents
      ensures held.None? <==>
        exists k :: 0 <= k < |findings|
          && Hold(old(Of(incidents, findings[k].name)), findings[k].active, now, resumedAt).None?
      ensures held.Some? ==> |held.value| == |findings|
      ensures held.Some? ==>
        forall k :: 0 <= k < |findings| ==>
          var kept := Hold(old(Of(incidents, findings[k].name)), findings[k].active, now, resumedAt);
          && kept.Some? && Of(incidents, findings[k].name) == kept.value.incident
          && held.value[k] == findings[k].(active := kept.value.finding)
      ensures forall name :: (forall k :: 0 <= k < |findings| ==> findings[k].name != name) ==>
          Of(incidents, name) == old(Of(incidents, name))
    {
      var result := findings;
      for k := 0 to |findings|
        invariant |result| == |findings| && result[k..] == findings[k..]
        invariant forall j :: 0 <= j < k ==>
          var kept := Hold(old(Of(incidents, findings[j].name)), findings[j].active, now, resumedAt);
          && kept.Some? && Of(incidents, findings[j].name) == kept.value.incident
          && result[j] == findings[j].(active := kept.value.finding)
        invariant forall name :: (forall j :: 0 <= j < k ==> findings[j].name != name) ==>
            Of(incidents, name) == old(Of(incidents, name))
      {
        var name := findings[k].name;
        var incident := Of(incidents, name);
        var kept := Hold(incident, findings[k].active, now, resumedAt);
        if kept.None? {
          return None;
        }
        incidents := incidents[name := kept.value.incident];
        result := result[k := findings[k].(active := kept.value.finding)];
      }
      held := Some(result);
    }

    /** For a condition of the check, HoldRecoveries is the machine's Observe. */
    twostate lemma HoldIsObserve(name: string, finding: Option<bool>, now: int, v: Verdict, checks: seq<Check>,
            unsaved: seq<Check>)
      requires old(Of(file, name) == Of(incidents, name))
          && Hold(old(Of(incidents, name)), finding, now, resumedAt).Some?
      requires file == old(file) && posted == old(posted)
      requires Of(incidents, name) == Hold(old(Of(incidents, name)), finding, now, resumedAt).value.incident
      ensures var held := Verdict(Hold(old(Of(incidents, name)), finding, now, resumedAt).value.finding, now,
          resumedAt);
        Walks(old(View(name, v, checks, unsaved)), [Observe(finding, now, resumedAt)],
              View(name, held, checks, unsaved + [Check(now, finding)]))
    {
      var step := Observe(finding, now, resumedAt);
      assert [step][1..] == [];
    }

    /** When an alert's problem was first observed. */
    function Since(name: string, now: int): int
      reads this
    {
      if name == "backup" then Max(backupFailingSince.GetOr(now), resumedAt) else now
    }

    function Detail(name: string, active: bool): Option<string>
      reads this
    {
      if active && name in details && details[name] != "" then Some(details[name]) else None
    }

    /** Saves the change that the finding asks for. */
    method Begin(f: Finding, v: Verdict, ghost checks: seq<Check>)
      requires AllSaved() && v.finding == f.active && v.resumedAt == resumedAt
      requires Of(incidents, f.name).pending.None? && f.active.Some? && f.active.value != Of(incidents, f.name).active
      modifies `incidents, `file
      ensures AllSaved() && OthersStay(f.name)
      ensures Of(incidents, f.name)
        == Created(old(Of(incidents, f.name)), f.active.value, v.now, Since(f.name, v.now),
            Detail(f.name, f.active.value))
      ensures f.active.value ==>
                && Of(incidents, f.name).since
                   == (if f.name != "backup" then v.now else Max(backupFailingSince.GetOr(v.now), resumedAt))
                && Of(incidents, f.name).pending == Some(Pending(true, v.now,
                     if f.name in details && details[f.name] != "" then Some(details[f.name]) else None))
      ensures !f.active.value ==>
                && Of(incidents, f.name).since == old(Of(incidents, f.name)).since
                && Of(incidents, f.name).pending
                   == Some(Pending(false, old(Of(incidents, f.name)).clearSince.GetOr(v.now), None))
      ensures Reaches(old(View(f.name, v, checks, [])), View(f.name, v, checks, []))
    {
      ghost var from := View(f.name, v, checks, []);
      ghost var create := Create(Since(f.name, v.now), Detail(f.name, f.active.value));
      ghost var made := Next(from, create);
      var incident := Created(Of(incidents, f.name), f.active.value, v.now, Since(f.name, v.now),
          Detail(f.name, f.active.value));
      incidents := incidents[f.name := incident];
      file := incidents;
      assert View(f.name, v, checks, []) == Next(made, Step.Save) by { assert checks + [] == checks; }
      TwoSteps(from, create, Step.Save);
    }

    /** Sends the saved change and, once the request returned, records and saves it. */
    method Post(f: Finding, reply: Reply, v: Verdict, ghost checks: seq<Check>)
      requires AllSaved() && Of(incidents, f.name).pending.Some? && (reply.ok ==> reply.taken)
      modifies `incidents, `file, `posted
      ensures AllSaved() && OthersStay(f.name)
      ensures reply.ok ==> Of(incidents, f.name).pending.None?
      ensures reply.ok ==> Of(incidents, f.name).active == old(Of(incidents, f.name)).pending.value.active
      ensures reply.ok ==>
                Of(incidents, f.name).alertedAt
                == if old(Of(incidents, f.name)).pending.value.active then Some(reply.time)
                   else old(Of(incidents, f.name)).alertedAt
      ensures !reply.ok ==> Of(incidents, f.name) == old(Of(incidents, f.name))
      ensures PostsOf(posted, f.name)
        == old(PostsOf(posted, f.name)) + if reply.taken then [Text(old(Of(incidents, f.name)))] else []
      ensures Reaches(old(View(f.name, v, checks, [])), View(f.name, v, checks, []))
    {
      ghost var from := View(f.name, v, checks, []);
      var incident := Of(incidents, f.name);
      if reply.taken {
        posted := posted[f.name := PostsOf(posted, f.name) + [Text(incident)]];
      }
      if !reply.ok {
        assert View(f.name, v, checks, []) == Next(from, Step.Post(reply.taken));
        OneStep(from, Step.Post(reply.taken));
        return;
      }
      ghost var recorded := Next(from, PostAndRecord(reply.time));
      incidents := incidents[f.name := Recorded(incident, reply.time)];
      file := incidents;
      assert View(f.name, v, checks, []) == Next(recorded, Step.Save) by { assert checks + [] == checks; }
      TwoSteps(from, PostAndRecord(reply.time), Step.Save);
    }

    /**
     One round of a condition's delivery: nothing when no change is asked for, and otherwise one request, of
     the saved change that waits or of the one found, saved now.
     */
    method DeliverRound(f: Finding, reply: Reply, v: Verdict, ghost checks: seq<Check>)
      returns (asked: bool, ghost told: seq<Message>)
      requires AllSaved() && v.finding == f.active && v.resumedAt == resumedAt && (reply.ok ==> reply.taken)
      modifies `incidents, `file, `posted
      ensures AllSaved() && OthersStay(f.name)
      ensures asked <==> old(Asks(Of(incidents, f.name), f))
      ensures asked && reply.ok ==> Changed(old(Of(incidents, f.name)), f, Of(incidents, f.name))
      ensures asked && !reply.ok ==> Of(incidents, f.name).pending.Some?
      ensures !asked ==> Of(incidents, f.name) == old(Of(incidents, f.name))
      ensures PostsOf(posted, f.name) == old(PostsOf(posted, f.name)) + told
      ensures Told(old(Of(incidents, f.name)), f, reply, told)
      ensures Reaches(old(View(f.name, v, checks, [])), View(f.name, v, checks, []))
    {
      ghost var from := View(f.name, v, checks, []);
      assert Walks(from, [], from);
      if Of(incidents, f.name).pending.None? {
        if f.active.None? || f.active.value == Of(incidents, f.name).active {
          return false, [];
        }
        Begin(f, v, checks);
      }
      ghost var saved := View(f.name, v, checks, []);
      told := if reply.taken then [Text(Of(incidents, f.name))] else [];
      Post(f, reply, v, checks);
      WalksJoin(from, saved, View(f.name, v, checks, []));
      asked := true;
    }

    /**
     Delivers one condition: every request is of a saved change, a failed request leaves that
     change pending and saved, and with none failed the condition is what the check found.
     */
    method DeliverOne(f: Finding, v: Verdict, ghost checks: seq<Check>)
      returns (failed: bool, ghost sent: seq<Message>)
      requires AllSaved() && Honest(f) && v.finding == f.active && v.resumedAt == resumedAt
      modifies `incidents, `file, `posted
      ensures AllSaved() && OthersStay(f.name)
      ensures Reaches(old(View(f.name, v, checks, [])), View(f.name, v, checks, []))
      ensures failed ==> Of(incidents, f.name).pending.Some?
      ensures !failed ==> Settled(f)
      ensures PostsOf(posted, f.name) == old(PostsOf(posted, f.name)) + sent
      ensures DeliveredBy(old(Of(incidents, f.name)), f, sent, failed)
    {
      ghost var from := View(f.name, v, checks, []);
      ghost var was, before := Of(incidents, f.name), PostsOf(posted, f.name);
      assert Walks(from, [], from);
      sent := [];
      for round := 0 to 2
        invariant AllSaved() && OthersStay(f.name)
        invariant Reaches(from, View(f.name, v, checks, []))
        invariant PostsOf(posted, f.name) == before + sent
        invariant Progress(was, f, round, Of(incidents, f.name), sent)
      {
        ghost var saved, incident := View(f.name, v, checks, []), Of(incidents, f.name);
        var reply := ReplyOf(f, round);
        var asked, told := DeliverRound(f, reply, v, checks);
        WalksJoin(from, saved, View(f.name, v, checks, []));
        Joined(before, sent, told);
        if !asked {
          RoundsEnd(was, f, round, incident, sent);
          break;
        }
        if !reply.ok {
          RoundFailed(was, f, round, incident, sent, told);
          return true, sent + told;
        }
        RoundReturned(was, f, round, incident, sent, told, Of(incidents, f.name));
        sent := sent + told;
        if round == 1 { RoundsEnd(was, f, 2, Of(incidents, f.name), sent); }
      }
      failed := false;
    }

    /** Nothing of the condition waits to be sent, and it is what the check found. */
    predicate Settled(f: Finding)
      reads this
    {
      && Of(incidents, f.name).pending.None?
      && (f.active.Some? ==> Of(incidents, f.name).active == f.active.value)
    }

    /** A condition's machine while the check delivers this finding. */
    ghost function Delivering(f: Finding, now: int, checks: map<string, seq<Check>>): Machine
      reads this
    {
      View(f.name, Verdict(f.active, now, resumedAt), Lookup(checks, f.name).GetOr([]), [])
    }

    /** One condition of the check, with every other one as it was. */
    method DeliverNext(f: Finding, now: int, ghost checks: map<string, seq<Check>>) returns (failed: bool)
      requires AllSaved() && Honest(f)
      modifies `incidents, `file, `posted
      ensures AllSaved()
      ensures failed <==> !Settled(f)
      ensures failed <==> DeliveryFails(old(Of(incidents, f.name)), f)
      ensures Reaches(old(Delivering(f, now, checks)), Delivering(f, now, checks))
      ensures forall other: Finding :: other.name != f.name ==>
          && Delivering(other, now, checks) == old(Delivering(other, now, checks))
          && Of(incidents, other.name) == old(Of(incidents, other.name))
    {
      ghost var sent;
      failed, sent := DeliverOne(f, Verdict(f.active, now, resumedAt), Lookup(checks, f.name).GetOr([]));
    }

    /**
     Delivers every condition in turn. The check's own findings stay as they were held; a failed
     request leaves its condition pending and the loop goes on to the next.
     */
    method Deliver(findings: seq<Finding>, now: int, ghost checks: map<string, seq<Check>>) returns (delivered: bool)
      requires AllSaved() && Distinct(findings) && forall f :: f in findings ==> Honest(f)
      modifies `incidents, `file, `posted
      ensures AllSaved()
      ensures delivered <==> forall k :: 0 <= k < |findings| ==> Settled(findings[k])
      ensures delivered <==>
        forall k :: 0 <= k < |findings| ==> !DeliveryFails(old(Of(incidents, findings[k].name)), findings[k])
      ensures forall k :: 0 <= k < |findings| ==>
          Reaches(old(Delivering(findings[k], now, checks)), Delivering(findings[k], now, checks))
    {
      delivered := true;
      ghost var start := seq(|findings|,
          k requires 0 <= k < |findings| reads this => Delivering(findings[k], now, checks));
      for k := 0 to |findings|
        invariant AllSaved()
        invariant delivered <==> forall j :: 0 <= j < k ==> Settled(findings[j])
        invariant delivered <==>
          forall j :: 0 <= j < k ==> !DeliveryFails(old(Of(incidents, findings[j].name)), findings[j])
        invariant forall j :: k <= j < |findings| ==>
          Of(incidents, findings[j].name) == old(Of(incidents, findings[j].name))
        invariant forall j :: 0 <= j < k ==> Reaches(start[j], Delivering(findings[j], now, checks))
        invariant forall j :: k <= j < |findings| ==> start[j] == Delivering(findings[j], now, checks)
      {
        var f := findings[k];
        var failed := DeliverNext(f, now, checks);
        forall j | 0 <= j < |findings| && j != k ensures findings[j].name != f.name {}
        delivered := delivered && !failed;
      }
    }
  }
}
