/**
 Interleaved crew writes.

 Each write is a transaction of several steps, and the steps of different writes interleave in
 every way the row locks allow: a write holds its crew's row before it reads the crew, a write
 that makes its caller a member also holds the caller's account row before it counts the
 caller's crews, and an unlink (or a transfer) holds the player's link and then each crew the
 player has a place in. Statements run on the tables as they are when the write commits, but
 the decision uses what was read earlier.
 */
module CrewProtocol {
  import opened Basics
  import opened Crews

  type Id = int

  datatype Txn = Txn(op: Op, tracked: set<Player>, crews: set<Crew>, wanted: Option<set<Crew>>,
                     account: bool, seen: Option<Seen>, count: Option<nat>)

  datatype State = State(tables: Tables, txns: map<Id, Txn>, nextCrew: Crew)

  datatype Step =
    | Begin(id: Id, op: Op, tracked: set<Player>)
    | FindCrews(id: Id)
    | LockCrew(id: Id, crew: Crew)
    | LockAccount(id: Id)
    | ReadRows(id: Id)
    | CountCrews(id: Id)
    | Commit(id: Id)
    | Abort(id: Id)

  /** An unlink or a transfer holds the link row of the player it is about. */
  predicate HoldsLink(op: Op) { op.Unlink? || op.Transfer? }

  predicate AddsPlaces(op: Op) { op.Create? || op.Add? || op.Accept? }

  predicate OneCrew(op: Op) { !HoldsLink(op) && !op.Link? }

  predicate LinkFree(s: State, id: Id, p: Player) {
    forall u :: u in s.txns && u != id && HoldsLink(s.txns[u].op) ==> s.txns[u].op.player != p
  }

  /** The crews whose rows the write must hold before it reads them. */
  predicate Holding(t: Txn, d: Tables) {
    if HoldsLink(t.op) then t.wanted.Some? && forall c :: c in t.wanted.value ==> c in t.crews || c !in d.sizes
    else t.op.Link? || t.op.crew in t.crews
  }

  ghost predicate Enabled(s: State, step: Step) {
    if step.Begin? then
      var op := step.op;
      && step.id !in s.txns && WellFormed(op)
      && (op.Create? ==> op.crew == s.nextCrew)
      && (HoldsLink(op) ==> Lookup(s.tables.links, op.player) == Some(op.caller) && LinkFree(s, step.id, op.player))
    else
      && step.id in s.txns
      && var t := s.txns[step.id];
      match step
      case FindCrews(_) => HoldsLink(t.op)
      case LockCrew(id, c) =>
        && c in s.tables.sizes
        && (if HoldsLink(t.op) then t.wanted.Some? && c in t.wanted.value else OneCrew(t.op) && c == t.op.crew)
        && forall u :: u in s.txns && u != id ==> c !in s.txns[u].crews
      case LockAccount(id) =>
        forall u :: u in s.txns && u != id && s.txns[u].account ==> s.txns[u].op.caller != t.op.caller
      case ReadRows(_) => Holding(t, s.tables)
      case CountCrews(_) => t.account
      case Commit(id) =>
        && t.seen.Some?
        && (Joins(t.op, t.seen.value) ==> t.count.Some?)
        && (AddsPlaces(t.op) ==> forall p :: p in t.op.tags ==> LinkFree(s, id, p))
      case Abort(_) => true
      case Begin(_, _, _) => false
  }

  /** The tables after a write commits: unchanged when it is refused or a table's own check fails. */
  ghost function Committed(d: Tables, t: Txn): Tables
    requires t.seen.Some?
  {
    if Decide(t.op, d, t.tracked, t.seen.value, t.count.GetOr(0)).Some? || !Constraints(t.op, d) then d
    else Effects(t.op, d, t.seen.value)
  }

  ghost function Next(s: State, step: Step): State
    requires Enabled(s, step)
  {
    match step
    case Begin(id, op, tracked) =>
      var t := Txn(op, tracked, if op.Create? then {op.crew} else {}, None, false, None, None);
      s.(txns := s.txns[id := t], nextCrew := if op.Create? then s.nextCrew + 1 else s.nextCrew)
    case FindCrews(id) =>
      var crews := set k | k in PlacesWith(s.tables, s.txns[id].op.player) :: k.crew;
      s.(txns := s.txns[id := s.txns[id].(wanted := Some(crews), seen := None)])
    case LockCrew(id, c) => s.(txns := s.txns[id := s.txns[id].(crews := s.txns[id].crews + {c})])
    case LockAccount(id) => s.(txns := s.txns[id := s.txns[id].(account := true)])
    case ReadRows(id) => s.(txns := s.txns[id := s.txns[id].(seen := Some(Read(s.txns[id].op, s.tables)))])
    case CountCrews(id) =>
      s.(txns := s.txns[id := s.txns[id].(count := Some(|Memberships(s.tables, s.txns[id].op.caller)|))])
    case Commit(id) => s.(tables := Committed(s.tables, s.txns[id]), txns := s.txns - {id})
    case Abort(id) => s.(txns := s.txns - {id})
  }

  // ----- What every reachable state keeps -----

  /**
   Two writes in progress hold different crews, accounts and links, and neither waits for a crew the
   other creates.
   */
  ghost predicate Apart(a: Txn, b: Txn) {
    && a.crews !! b.crews
    && (a.account && b.account ==> a.op.caller != b.op.caller)
    && (HoldsLink(a.op) && HoldsLink(b.op) ==> a.op.player != b.op.player)
    && (a.op.Create? && b.wanted.Some? ==> a.op.crew !in b.wanted.value)
  }

  ghost predicate LocksHeldOnce(s: State) {
    forall t, u :: t in s.txns && u in s.txns && t != u ==> Apart(s.txns[t], s.txns[u])
  }

  /** What one write knows is true of the tables now. */
  ghost predicate Current(t: Txn, d: Tables, next: Crew) {
    && WellFormed(t.op)
    && (t.op.Create? ==> t.op.crew in t.crews && t.op.crew !in d.sizes)
    && (forall c :: c in t.crews ==> c < next)
    && (HoldsLink(t.op) ==> Lookup(d.links, t.op.player) == Some(t.op.caller))
    && (t.wanted.Some? ==> forall c :: c in t.wanted.value ==> c < next)
    && (t.wanted.Some? ==> HoldsLink(t.op) && forall k :: k in PlacesWith(d, t.op.player) ==> k.crew in t.wanted.value)
    && (t.seen.Some? ==> Holding(t, d) && t.seen.value == Read(t.op, d))
    && (t.count.Some? ==> t.account && |Memberships(d, t.op.caller)| <= t.count.value)
  }

  ghost predicate Inv(s: State) {
    && Good(s.tables)
    && LocksHeldOnce(s)
    && (forall c :: c in s.tables.sizes ==> c < s.nextCrew)
    && (forall id :: id in s.txns ==> Current(s.txns[id], s.tables, s.nextCrew))
  }

  // ----- A commit leaves the rows other writes hold alone -----

  /** The two databases agree on every row of crew `c`. */
  ghost predicate SameCrew(d: Tables, e: Tables, c: Crew) {
    && (c in d.sizes <==> c in e.sizes)
    && (c in d.sizes ==> d.sizes[c] == e.sizes[c])
    && (forall m: Seat :: m.crew == c ==> (m in d.roles <==> m in e.roles))
    && (forall m: Seat :: m.crew == c && m in d.roles ==> d.roles[m] == e.roles[m])
    && (forall k: Place :: k.crew == c ==> (k in d.places <==> k in e.places))
    && (forall k: Place :: k.crew == c && k in d.places ==> d.places[k] == e.places[k])
  }

  ghost predicate Touches(op: Op, d: Tables, c: Crew) {
    if HoldsLink(op) then exists k :: k in PlacesWith(d, op.player) && k.crew == c
    else OneCrew(op) && c == op.crew
  }

  lemma SweepStaysInCrew(d: Tables, gone: set<Place>, c: Crew)
    requires forall k :: k in gone && k in d.places ==> k.crew != c
    ensures SameCrew(d, WithoutPlaces(d, gone), c)
  {}

  lemma JoinsStayInCrew(op: Op, d: Tables, seen: Seen, c: Crew)
    requires (op.Create? || op.Add? || op.Accept?) && c != op.crew
    ensures SameCrew(d, Effects(op, d, seen), c)
  {}

  lemma ChangesStayInCrew(op: Op, d: Tables, seen: Seen, c: Crew)
    requires (op.Resize? || op.Delete? || op.SetRole? || op.HandOver? || op.Leave?) && c != op.crew
    ensures SameCrew(d, Effects(op, d, seen), c)
  {}

  lemma SweepsStayInCrew(op: Op, d: Tables, seen: Seen, c: Crew)
    requires (op.Remove? || op.Unlink? || op.Transfer? || op.Link?) && !Touches(op, d, c)
    ensures SameCrew(d, Effects(op, d, seen), c)
  {
    if op.Remove? {
      SweepStaysInCrew(d, {Place(op.crew, op.player)}, c);
    } else if !op.Link? {
      SweepStaysInCrew(d, PlacesWith(d, op.player), c);
    }
  }

  lemma EffectsStayInCrew(op: Op, d: Tables, seen: Seen, c: Crew)
    requires !Touches(op, d, c)
    ensures SameCrew(d, Effects(op, d, seen), c)
  {
    if op.Create? || op.Add? || op.Accept? {
      JoinsStayInCrew(op, d, seen, c);
    } else if op.Remove? || op.Unlink? || op.Transfer? || op.Link? {
      SweepsStayInCrew(op, d, seen, c);
    } else {
      ChangesStayInCrew(op, d, seen, c);
    }
  }

  lemma SameCrewReadsSame(op: Op, d: Tables, e: Tables)
    requires OneCrew(op) && SameCrew(d, e, op.crew)
    ensures Read(op, d) == Read(op, e)
  {
    assert PlacesOf(d, op.crew) == PlacesOf(e, op.crew);
    assert HeldBy(d, op.crew, op.caller) == HeldBy(e, op.crew, op.caller);
  }

  lemma SameCrewsReadSame(op: Op, d: Tables, e: Tables)
    requires HoldsLink(op)
    requires forall c :: Place(c, op.player) in d.places || Place(c, op.player) in e.places ==> SameCrew(d, e, c)
    ensures Read(op, d) == Read(op, e)
  {
    forall c | Place(c, op.player) in d.places || Place(c, op.player) in e.places
      ensures OnlyPlaceOfOwner(d, c, op.player) <==> OnlyPlaceOfOwner(e, c, op.player)
    {
      if Place(c, op.player) in d.places {
        var a := d.places[Place(c, op.player)];
        assert HeldBy(d, c, a) == HeldBy(e, c, a);
      }
    }
  }

  lemma EffectsOnLinks(op: Op, d: Tables, seen: Seen, p: Player)
    requires Constraints(op, d) && p in d.links && (HoldsLink(op) ==> op.player != p)
    ensures Lookup(Effects(op, d, seen).links, p) == Lookup(d.links, p)
  {}

  lemma EffectsAddNoPlace(op: Op, d: Tables, seen: Seen, p: Player)
    requires AddsPlaces(op) ==> p !in op.tags
    ensures PlacesWith(Effects(op, d, seen), p) <= PlacesWith(d, p)
  {}

  lemma EffectsAddNoSeat(op: Op, d: Tables, tracked: set<Player>, crews: nat, a: Account)
    requires Decide(op, d, tracked, Read(op, d), crews) == None
    requires Joins(op, Read(op, d)) ==> op.caller != a
    ensures |Memberships(Effects(op, d, Read(op, d)), a)| <= |Memberships(d, a)|
  {
    SubsetCount(Memberships(Effects(op, d, Read(op, d)), a), Memberships(d, a));
  }

  /** A write holds every crew whose rows its statements change. */
  lemma HoldsWhatItTouches(t: Txn, d: Tables, next: Crew, c: Crew)
    requires ForeignKeys(d) && Current(t, d, next) && t.seen.Some? && Touches(t.op, d, c)
    ensures c in t.crews
  {}

  /** Another write still knows what it knew. */
  lemma OthersStayCurrent(s: State, id: Id, u: Id)
    requires Inv(s) && Enabled(s, Commit(id)) && u in s.txns && u != id
    ensures Current(s.txns[u], Committed(s.tables, s.txns[id]), s.nextCrew)
  {
    var d, t, o := s.tables, s.txns[id], s.txns[u];
    var e := Committed(d, t);
    if e != d {
      forall c | c in o.crews ensures SameCrew(d, e, c) {
        if Touches(t.op, d, c) { HoldsWhatItTouches(t, d, s.nextCrew, c); }
        EffectsStayInCrew(t.op, d, t.seen.value, c);
      }
      if HoldsLink(o.op) {
        EffectsOnLinks(t.op, d, t.seen.value, o.op.player);
        EffectsAddNoPlace(t.op, d, t.seen.value, o.op.player);
      }
      if o.seen.Some? { StillReadsSame(o, d, e, s.nextCrew); }
      if o.count.Some? { EffectsAddNoSeat(t.op, d, t.tracked, t.count.GetOr(0), o.op.caller); }
    }
  }

  lemma StillReadsSame(o: Txn, d: Tables, e: Tables, next: Crew)
    requires ForeignKeys(d) && Current(o, d, next) && o.seen.Some?
    requires forall c :: c in o.crews ==> SameCrew(d, e, c)
    requires HoldsLink(o.op) ==> PlacesWith(e, o.op.player) <= PlacesWith(d, o.op.player)
    ensures Read(o.op, e) == Read(o.op, d)
  {
    if HoldsLink(o.op) {
      forall c | Place(c, o.op.player) in d.places || Place(c, o.op.player) in e.places ensures SameCrew(d, e, c) {
        assert Place(c, o.op.player) in e.places ==> Place(c, o.op.player) in PlacesWith(e, o.op.player);
        assert Place(c, o.op.player) in PlacesWith(d, o.op.player);
        assert c in o.crews;
      }
      SameCrewsReadSame(o.op, d, e);
    } else if OneCrew(o.op) {
      SameCrewReadsSame(o.op, d, e);
    }
  }

  lemma CommitKeepsInv(s: State, id: Id)
    requires Inv(s) && Enabled(s, Commit(id))
    ensures Inv(Next(s, Commit(id)))
  {
    var d, t := s.tables, s.txns[id];
    var e := Committed(d, t);
    if e != d { WriteKeepsGood(d, t.op, t.tracked, t.count.GetOr(0)); }
    forall u | u in s.txns && u != id ensures Current(s.txns[u], e, s.nextCrew) { OthersStayCurrent(s, id, u); }
    assert forall c :: c in e.sizes ==> c in d.sizes || (t.op.Create? && c == t.op.crew);
  }

  /** A step of one write leaves it apart from any other. */
  lemma LocalStepStaysApart(s: State, step: Step, u: Id)
    requires Inv(s) && Enabled(s, step) && !step.Begin? && !step.Commit? && !step.Abort?
    requires u in s.txns && u != step.id && step.id in s.txns
    ensures Apart(Next(s, step).txns[step.id], s.txns[u]) && Apart(s.txns[u], Next(s, step).txns[step.id])
  {
    assert Apart(s.txns[step.id], s.txns[u]) && Apart(s.txns[u], s.txns[step.id]);
    assert Current(s.txns[u], s.tables, s.nextCrew);
  }

  lemma LocalStepKeepsLocks(s: State, step: Step)
    requires Inv(s) && Enabled(s, step) && !step.Begin? && !step.Commit?
    ensures LocksHeldOnce(Next(s, step))
  {
    var e := Next(s, step);
    forall t, u | t in e.txns && u in e.txns && t != u ensures Apart(e.txns[t], e.txns[u]) {
      if t == step.id {
        LocalStepStaysApart(s, step, u);
      } else if u == step.id {
        LocalStepStaysApart(s, step, t);
      } else {
        assert Apart(s.txns[t], s.txns[u]);
      }
    }
  }

  lemma LocalStepKeepsCurrent(s: State, step: Step, u: Id)
    requires Inv(s) && Enabled(s, step) && !step.Begin? && !step.Commit? && u in Next(s, step).txns
    ensures Current(Next(s, step).txns[u], s.tables, s.nextCrew)
  {
    assert Current(s.txns[u], s.tables, s.nextCrew);
    assert u != step.id ==> Next(s, step).txns[u] == s.txns[u];
  }

  lemma LocalStepKeepsInv(s: State, step: Step)
    requires Inv(s) && Enabled(s, step) && !step.Begin? && !step.Commit?
    ensures Inv(Next(s, step))
  {
    LocalStepKeepsLocks(s, step);
    forall u | u in Next(s, step).txns ensures Current(Next(s, step).txns[u], s.tables, s.nextCrew) {
      LocalStepKeepsCurrent(s, step, u);
    }
  }

  lemma BeginKeepsInv(s: State, step: Step)
    requires Inv(s) && Enabled(s, step) && step.Begin?
    ensures Inv(Next(s, step))
  {
    var e := Next(s, step);
    forall u | u in e.txns ensures Current(e.txns[u], e.tables, e.nextCrew) {
      if u != step.id { assert e.txns[u] == s.txns[u] && Current(s.txns[u], s.tables, s.nextCrew); }
    }
  }

  lemma StepKeepsInv(s: State, step: Step)
    requires Inv(s) && Enabled(s, step)
    ensures Inv(Next(s, step))
  {
    if step.Commit? {
      CommitKeepsInv(s, step.id);
    } else if step.Begin? {
      BeginKeepsInv(s, step);
    } else {
      LocalStepKeepsInv(s, step);
    }
  }

  // ----- Whole runs -----

  ghost predicate Start(s: State) {
    Good(s.tables) && s.txns == map[] && forall c :: c in s.tables.sizes ==> c < s.nextCrew
  }

  /** A run of the system: every state but the first comes from the one before by an enabled step. */
  ghost predicate Run(states: seq<State>, steps: seq<Step>) {
    && |states| == |steps| + 1 && Start(states[0])
    && forall i :: 0 <= i < |steps| ==> Enabled(states[i], steps[i]) && states[i + 1] == Next(states[i], steps[i])
  }

  lemma {:induction false} RunKeepsInv(states: seq<State>, steps: seq<Step>, i: nat)
    requires Run(states, steps) && i < |states|
    ensures Inv(states[i])
  {
    if i > 0 {
      RunKeepsInv(states, steps, i - 1);
      StepKeepsInv(states[i - 1], steps[i - 1]);
    }
  }

  /** In every interleaving the locks allow, the crew tables keep all their rules at all times. */
  lemma RunsKeepCrewRules(states: seq<State>, steps: seq<Step>)
    requires Run(states, steps)
    ensures forall i :: 0 <= i < |states| ==> Good(states[i].tables)
  {
    forall i | 0 <= i < |states| ensures Good(states[i].tables) { RunKeepsInv(states, steps, i); }
  }

  /** One write run alone from start to end. */
  ghost function Alone(d: Tables, op: Op, tracked: set<Player>): Tables {
    Committed(d, Txn(op, tracked, {}, None, false, Some(Read(op, d)), Some(|Memberships(d, op.caller)|)))
  }

  /** A count matters only to a join, and there only whether it reaches the limit. */
  lemma CountDecides(op: Op, d: Tables, tracked: set<Player>, seen: Seen, some: nat, other: nat)
    requires Joins(op, seen) ==> (some >= MAX_CREWS_PER_ACCOUNT <==> other >= MAX_CREWS_PER_ACCOUNT)
    ensures Decide(op, d, tracked, seen, some) == Decide(op, d, tracked, seen, other)
  {}

  /** At the limit every join is refused. */
  lemma LimitRefuses(op: Op, d: Tables, tracked: set<Player>, seen: Seen, count: nat)
    requires Joins(op, seen) && count >= MAX_CREWS_PER_ACCOUNT
    ensures Decide(op, d, tracked, seen, count).Some?
  {}

  lemma CommitIsAlone(t: Txn, d: Tables, next: Crew)
    requires Current(t, d, next) && t.seen.Some? && (Joins(t.op, t.seen.value) ==> t.count.Some?)
    ensures Committed(d, t) == Alone(d, t.op, t.tracked)
      || (Joins(t.op, t.seen.value) && t.count.value >= MAX_CREWS_PER_ACCOUNT && Committed(d, t) == d)
  {
    var seen, counted, now := t.seen.value, t.count.GetOr(0), |Memberships(d, t.op.caller)|;
    if Joins(t.op, seen) && counted >= MAX_CREWS_PER_ACCOUNT {
      LimitRefuses(t.op, d, t.tracked, seen, counted);
    } else {
      CountDecides(t.op, d, t.tracked, seen, counted, now);
    }
  }

  /**
   Interleaved writes are serializable: each commit does what the write would do alone on the
   tables it meets, however long ago it read them. The one difference is a refusal: an account
   that left a crew after its crews were counted can still be told it is at the limit.
   */
  lemma CommitsAreSerial(states: seq<State>, steps: seq<Step>, i: nat)
    requires Run(states, steps) && i < |steps| && steps[i].Commit?
    ensures var t := states[i].txns[steps[i].id];
      || states[i + 1].tables == Alone(states[i].tables, t.op, t.tracked)
      || (Joins(t.op, t.seen.value) && t.count.value >= MAX_CREWS_PER_ACCOUNT
           && states[i + 1].tables == states[i].tables)
  {
    var s, id := states[i], steps[i].id;
    assert Current(s.txns[id], s.tables, s.nextCrew) by { RunKeepsInv(states, steps, i); }
    CommitIsAlone(s.txns[id], s.tables, s.nextCrew);
    assert states[i + 1].tables == Committed(s.tables, s.txns[id]);
  }
}
