/**
 A crew write with no other in progress runs to its end: it takes its locks, reads, counts and
 commits what it does alone.
 */
module CrewAlone {
  import opened Basics
  import opened Crews
  import opened CrewProtocol

  ghost predicate Walks(from: State, steps: seq<Step>, to: State)
    decreases |steps|
  {
    if steps == [] then from == to
    else Enabled(from, steps[0]) && Walks(Next(from, steps[0]), steps[1..], to)
  }

  lemma {:induction false} WalksAppend(from: State, steps: seq<Step>, mid: State, more: seq<Step>, to: State)
    requires Walks(from, steps, mid) && Walks(mid, more, to)
    ensures Walks(from, steps + more, to)
    decreases |steps|
  {
    if steps == [] {
      assert steps + more == more;
    } else {
      WalksAppend(Next(from, steps[0]), steps[1..], mid, more, to);
      assert (steps + more)[1..] == steps[1..] + more;
    }
  }

  lemma OneStep(from: State, step: Step)
    requires Enabled(from, step)
    ensures Walks(from, [step], Next(from, step))
  {
    assert [step][1..] == [];
  }

  /** The tables with this one write in progress. */
  function With(d: Tables, id: Id, t: Txn, next: Crew): State { State(d, map[id := t], next) }

  lemma LocksOne(d: Tables, id: Id, t: Txn, next: Crew, c: Crew)
    requires c in d.sizes && (if HoldsLink(t.op) then t.wanted.Some? && c in t.wanted.value
                              else OneCrew(t.op) && c == t.op.crew)
    ensures Walks(With(d, id, t, next), [LockCrew(id, c)], With(d, id, t.(crews := t.crews + {c}), next))
  {
    var s := With(d, id, t, next);
    assert Enabled(s, LockCrew(id, c)) && Next(s, LockCrew(id, c)) == With(d, id, t.(crews := t.crews + {c}), next);
    OneStep(s, LockCrew(id, c));
  }

  /** It takes the locks of these crews, one after another. */
  lemma {:induction false} LocksAll(d: Tables, id: Id, t: Txn, next: Crew, left: set<Crew>) returns (steps: seq<Step>)
    requires forall c :: c in left ==> c in d.sizes
    requires left == {} || (if HoldsLink(t.op) then t.wanted.Some? && left <= t.wanted.value
                            else OneCrew(t.op) && left == {t.op.crew})
    ensures Walks(With(d, id, t, next), steps, With(d, id, t.(crews := t.crews + left), next))
    decreases |left|
  {
    if left == {} {
      assert t.crews + {} == t.crews;
      steps := [];
    } else {
      var c := Pick(left);
      var locked := t.(crews := t.crews + {c});
      LocksOne(d, id, t, next, c);
      var more := LocksAll(d, id, locked, next, left - {c});
      assert locked.crews + (left - {c}) == t.crews + left;
      steps := [LockCrew(id, c)] + more;
      WalksAppend(With(d, id, t, next), [LockCrew(id, c)], With(d, id, locked, next), more,
                  With(d, id, t.(crews := t.crews + left), next));
    }
  }

  lemma LocksAccount(d: Tables, id: Id, t: Txn, next: Crew)
    requires !t.account
    ensures Walks(With(d, id, t, next), [LockAccount(id)], With(d, id, t.(account := true), next))
  {
    var s := With(d, id, t, next);
    assert Enabled(s, LockAccount(id)) && Next(s, LockAccount(id)) == With(d, id, t.(account := true), next);
    OneStep(s, LockAccount(id));
  }

  lemma ReadsRows(d: Tables, id: Id, t: Txn, next: Crew)
    requires Holding(t, d)
    ensures Walks(With(d, id, t, next), [ReadRows(id)], With(d, id, t.(seen := Some(Read(t.op, d))), next))
  {
    var s := With(d, id, t, next);
    assert Enabled(s, ReadRows(id)) && Next(s, ReadRows(id)) == With(d, id, t.(seen := Some(Read(t.op, d))), next);
    OneStep(s, ReadRows(id));
  }

  lemma CountsCrews(d: Tables, id: Id, t: Txn, next: Crew)
    requires t.account
    ensures Walks(With(d, id, t, next), [CountCrews(id)],
                  With(d, id, t.(count := Some(|Memberships(d, t.op.caller)|)), next))
  {
    var s, counted := With(d, id, t, next), t.(count := Some(|Memberships(d, t.op.caller)|));
    assert Enabled(s, CountCrews(id)) && Next(s, CountCrews(id)) == With(d, id, counted, next);
    OneStep(s, CountCrews(id));
  }

  lemma Commits(d: Tables, id: Id, t: Txn, next: Crew) returns (to: State)
    requires t.seen == Some(Read(t.op, d)) && t.count == Some(|Memberships(d, t.op.caller)|)
    ensures Walks(With(d, id, t, next), [Commit(id)], to) && to.txns == map[] && to.tables == Alone(d, t.op, t.tracked)
  {
    var s := With(d, id, t, next);
    assert Enabled(s, Commit(id));
    to := Next(s, Commit(id));
    assert map[id := t] - {id} == map[];
    OneStep(s, Commit(id));
  }

  /** With its rows locked it reads, counts and commits. */
  lemma ReadsAndCommits(d: Tables, id: Id, t: Txn, next: Crew) returns (steps: seq<Step>, to: State)
    requires Holding(t, d) && !t.account
    ensures Walks(With(d, id, t, next), steps, to) && to.txns == map[] && to.tables == Alone(d, t.op, t.tracked)
  {
    var locked := t.(account := true);
    var read := locked.(seen := Some(Read(t.op, d)));
    var counted := read.(count := Some(|Memberships(d, t.op.caller)|));
    LocksAccount(d, id, t, next);
    ReadsRows(d, id, locked, next);
    CountsCrews(d, id, read, next);
    to := Commits(d, id, counted, next);
    WalksAppend(With(d, id, t, next), [LockAccount(id)], With(d, id, locked, next), [ReadRows(id)],
        With(d, id, read, next));
    steps := [LockAccount(id)] + [ReadRows(id)];
    WalksAppend(With(d, id, t, next), steps, With(d, id, read, next), [CountCrews(id)], With(d, id, counted, next));
    steps := steps + [CountCrews(id)];
    WalksAppend(With(d, id, t, next), steps, With(d, id, counted, next), [Commit(id)], to);
    steps := steps + [Commit(id)];
  }

  /**
   Alone, a write that is answered with no refusal and passes the tables' checks takes effect; any other
   changes nothing.
   */
  lemma AloneExactly(d: Tables, op: Op, tracked: set<Player>)
    ensures Alone(d, op, tracked) ==
      if Answer(d, op, tracked) == None && Constraints(op, d) then Effects(op, d, Read(op, d)) else d
  {}

  /** What a write that has begun still has to lock. */
  ghost function ToLock(d: Tables, op: Op): set<Crew> {
    if HoldsLink(op) then set k | k in PlacesWith(d, op.player) :: k.crew
    else if op.Create? || op.Link? then {} else {op.crew}
  }

  /** Every write that may begin, its crew being there, can run alone to its commit. */
  lemma RunsAlone(s: State, id: Id, op: Op, tracked: set<Player>) returns (steps: seq<Step>, to: State)
    requires ForeignKeys(s.tables) && s.txns == map[] && Enabled(s, Begin(id, op, tracked))
    requires OneCrew(op) && !op.Create? ==> op.crew in s.tables.sizes
    ensures Walks(s, steps, to) && to.txns == map[] && to.tables == Alone(s.tables, op, tracked)
  {
    var begun := Next(s, Begin(id, op, tracked));
    var t, d, next := begun.txns[id], s.tables, begun.nextCrew;
    OneStep(s, Begin(id, op, tracked));
    steps := [Begin(id, op, tracked)];
    assert begun == With(d, id, t, next);
    var left := ToLock(d, op);
    if HoldsLink(op) {
      var found := t.(wanted := Some(left));
      assert Enabled(begun, FindCrews(id)) && Next(begun, FindCrews(id)) == With(d, id, found, next);
      OneStep(begun, FindCrews(id));
      WalksAppend(s, steps, begun, [FindCrews(id)], With(d, id, found, next));
      steps, t := steps + [FindCrews(id)], found;
    }
    forall c | c in left ensures c in d.sizes { InSizes(d, op, c); }
    var locks := LocksAll(d, id, t, next, left);
    var locked := t.(crews := t.crews + left);
    WalksAppend(s, steps, With(d, id, t, next), locks, With(d, id, locked, next));
    var last;
    last, to := ReadsAndCommits(d, id, locked, next);
    WalksAppend(s, steps + locks, With(d, id, locked, next), last, to);
    steps := steps + locks + last;
  }

  lemma InSizes(d: Tables, op: Op, c: Crew)
    requires ForeignKeys(d) && c in ToLock(d, op) && (OneCrew(op) && !op.Create? ==> op.crew in d.sizes)
    ensures c in d.sizes
  {
    if HoldsLink(op) {
      var k :| k in PlacesWith(d, op.player) && k.crew == c;
    }
  }
}
