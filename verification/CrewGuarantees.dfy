/**
 What the crew writes mean to a crew's people: who can lose a seat, when ownership moves, and
 which write undoes which.
 */
module CrewGuarantees {
  import opened Basics
  import opened Crews

  /** An accepted write on a good database. */
  ghost predicate Accepted(d: Tables, op: Op, tracked: set<Player>) {
    && Good(d) && WellFormed(op) && Constraints(op, d) && Answer(d, op, tracked) == None
    && (op.Create? ==> op.crew !in d.sizes)
  }

  ghost function After(d: Tables, op: Op): Tables { Effects(op, d, Read(op, d)) }

  lemma HandOverMovesOwnership(d: Tables, op: Op, tracked: set<Player>, a: Account)
    requires Accepted(d, op, tracked) && op.HandOver?
    ensures IsOwner(d, op.crew, op.caller) && (IsOwner(After(d, op), op.crew, a) <==> a == op.target)
  {
    assert IsOwner(d, op.crew, op.caller);
    assert IsOwner(d, op.crew, a) ==> a == op.caller;
  }

  /** Taking places away never puts an owner out, nor makes one. */
  lemma SweepKeepsOwners(d: Tables, gone: set<Place>, c: Crew, a: Account)
    ensures IsOwner(WithoutPlaces(d, gone), c, a) <==> IsOwner(d, c, a)
  {}

  lemma PlaceWritesKeepOwners(d: Tables, op: Op, tracked: set<Player>, c: Crew, a: Account)
    requires Accepted(d, op, tracked) && c in d.sizes
    requires op.Create? || op.Add? || op.Accept? || op.Remove? || op.Unlink? || op.Transfer? || op.Link?
    ensures IsOwner(After(d, op), c, a) <==> IsOwner(d, c, a)
  {
    match op
    case Remove(_, _, p) => SweepKeepsOwners(d, {Place(op.crew, p)}, c, a);
    case Unlink(_, p) => SweepKeepsOwners(d, PlacesWith(d, p), c, a);
    case Transfer(_, p, _) => SweepKeepsOwners(d, PlacesWith(d, p), c, a);
    case _ =>
  }

  lemma RoleWritesKeepOwners(d: Tables, op: Op, tracked: set<Player>, c: Crew, a: Account)
    requires Accepted(d, op, tracked) && c in After(d, op).sizes && !(op.HandOver? && op.crew == c)
    requires op.Resize? || op.Delete? || op.SetRole? || op.HandOver? || op.Leave?
    ensures IsOwner(After(d, op), c, a) <==> IsOwner(d, c, a)
  {}

  /** A crew that is still there changes owner only by its owner's handing it over, and then to the one named. */
  lemma OwnershipMovesByHandOver(d: Tables, op: Op, tracked: set<Player>, c: Crew, a: Account)
    requires Accepted(d, op, tracked) && c in d.sizes && c in After(d, op).sizes
    ensures op.HandOver? && op.crew == c ==>
        IsOwner(d, c, op.caller) && (IsOwner(After(d, op), c, a) <==> a == op.target)
    ensures !(op.HandOver? && op.crew == c) ==> (IsOwner(After(d, op), c, a) <==> IsOwner(d, c, a))
  {
    if op.HandOver? && op.crew == c {
      HandOverMovesOwnership(d, op, tracked, a);
    } else if op.Resize? || op.Delete? || op.SetRole? || op.HandOver? || op.Leave? {
      RoleWritesKeepOwners(d, op, tracked, c, a);
    } else {
      PlaceWritesKeepOwners(d, op, tracked, c, a);
    }
  }

  /**
   Whether the write may put out the member: their own write or a move of their link, the owner's,
   or an admin's against a plain member.
   */
  ghost predicate MayPutOut(d: Tables, op: Op, m: Seat) {
    || op.caller == m.account
    || (OneCrewOp(op) && op.crew == m.crew && IsOwner(d, m.crew, op.caller))
    || (op.Remove? && op.crew == m.crew && Lookup(d.roles, Seat(m.crew, op.caller)) == Some(Admin)
        && Lookup(d.roles, m) == Some(Member))
  }

  predicate OneCrewOp(op: Op) { op.Delete? || op.Remove? }

  /** A member put out with a place held one of the places that went. */
  lemma SweptHeldAPlace(d: Tables, gone: set<Place>, m: Seat) returns (k: Place)
    requires m in d.roles && m !in WithoutPlaces(d, gone).roles
    ensures k in gone && k in d.places && k.crew == m.crew && d.places[k] == m.account
  {
    k :| k in gone && k in d.places && k.crew == m.crew && d.places[k] == m.account;
  }

  lemma RemoveIsByRight(d: Tables, op: Op, tracked: set<Player>, m: Seat)
    requires Accepted(d, op, tracked) && op.Remove? && m in d.roles && m !in After(d, op).roles
    ensures MayPutOut(d, op, m)
  {
    var k := SweptHeldAPlace(d, {Place(op.crew, op.player)}, m);
    assert k == Place(op.crew, op.player);
  }

  lemma LinkGoneIsByRight(d: Tables, op: Op, tracked: set<Player>, m: Seat)
    requires Accepted(d, op, tracked) && (op.Unlink? || op.Transfer?) && m in d.roles && m !in After(d, op).roles
    ensures MayPutOut(d, op, m)
  {
    var k := SweptHeldAPlace(d, PlacesWith(d, op.player), m);
    assert Lookup(d.links, op.player) == Some(d.places[k]);
  }

  lemma SeatGoneIsByRight(d: Tables, op: Op, tracked: set<Player>, m: Seat)
    requires Accepted(d, op, tracked) && m in d.roles && m !in After(d, op).roles
    requires op.Delete? || op.HandOver? || op.Leave?
    ensures MayPutOut(d, op, m)
  {}

  /** The other writes put nobody out. */
  lemma SeatsStay(d: Tables, op: Op, seen: Seen, m: Seat)
    requires !op.Remove? && !op.Unlink? && !op.Transfer? && !op.Delete? && !op.HandOver? && !op.Leave? && m in d.roles
    ensures m in Effects(op, d, seen).roles
  {}

  /** Nobody loses a seat by another's write unless the owner deletes or removes, or an admin removes a plain member. */
  lemma SeatsGoOnlyByRight(d: Tables, op: Op, tracked: set<Player>, m: Seat)
    requires Accepted(d, op, tracked) && m in d.roles && m !in After(d, op).roles
    ensures MayPutOut(d, op, m)
  {
    if op.Remove? {
      RemoveIsByRight(d, op, tracked, m);
    } else if op.Unlink? || op.Transfer? {
      LinkGoneIsByRight(d, op, tracked, m);
    } else if op.Delete? || op.HandOver? || op.Leave? {
      SeatGoneIsByRight(d, op, tracked, m);
    } else {
      SeatsStay(d, op, Read(op, d), m);
    }
  }

  /** The rows of a join with places, taken out again. */
  lemma JoinTakenOut(d: Tables, a: Account, c: Crew, tags: set<Player>)
    requires ForeignKeys(d) && Seat(c, a) !in d.roles && forall t :: t in tags ==> Place(c, t) !in d.places
    ensures WithoutMember(WithPlaces(d.(roles := d.roles[Seat(c, a) := Member]), c, a, tags), c, a) == d
  {
    var f := WithoutMember(WithPlaces(d.(roles := d.roles[Seat(c, a) := Member]), c, a, tags), c, a);
    forall k: Place ensures k in f.places <==> k in d.places {
      if k in Pairs(c, tags) { assert k == Place(c, k.player); }
      if k in d.places { assert Seat(k.crew, d.places[k]) in d.roles; }
    }
    assert f.places == d.places;
    assert f.roles == d.roles;
  }

  /** Leaving undoes joining by an invite, to the row. */
  lemma LeaveUndoesAccept(d: Tables, a: Account, c: Crew, tags: set<Player>, tracked: set<Player>)
    requires Accepted(d, Accept(a, c, tags), tracked) && Seat(c, a) !in d.roles
    ensures var e := After(d, Accept(a, c, tags));
      Answer(e, Leave(a, c), tracked) == None && After(e, Leave(a, c)) == d
  {
    JoinTakenOut(d, a, c, tags);
  }

  /** A new crew's rows, taken out again. */
  lemma CrewTakenOut(d: Tables, a: Account, c: Crew, size: int, tags: set<Player>)
    requires ForeignKeys(d) && c !in d.sizes
    ensures WithoutCrew(WithPlaces(d.(sizes := d.sizes[c := size], roles := d.roles[Seat(c, a) := Owner]), c, a, tags),
        c) == d
  {
    var f := WithoutCrew(WithPlaces(d.(sizes := d.sizes[c := size], roles := d.roles[Seat(c, a) := Owner]), c, a,
        tags), c);
    forall k: Place ensures k in f.places <==> k in d.places {
      if k in d.places { assert Seat(k.crew, d.places[k]) in d.roles; }
    }
    assert f.places == d.places;
    assert f.roles == d.roles;
    assert f.sizes == d.sizes;
  }

  /** Deleting undoes creating, to the row. */
  lemma DeleteUndoesCreate(d: Tables, a: Account, c: Crew, size: int, tags: set<Player>, tracked: set<Player>)
    requires Accepted(d, Create(a, c, size, tags), tracked)
    ensures var e := After(d, Create(a, c, size, tags));
      Answer(e, Delete(a, c), tracked) == None && After(e, Delete(a, c)) == d
  {
    CrewTakenOut(d, a, c, size, tags);
  }

  lemma PlaceAdded(d: Tables, a: Account, c: Crew, t: Player, tracked: set<Player>)
    requires Accepted(d, Add(a, c, {t}), tracked)
    ensures Place(c, t) !in d.places && After(d, Add(a, c, {t})) == d.(places := d.places[Place(c, t) := a])
    ensures c in d.sizes && Seat(c, a) in d.roles && (d.roles[Seat(c, a)] != Owner ==> HeldBy(d, c, a) != {})
  {
    assert Pairs(c, {t}) == {Place(c, t)};
    assert t in {t};
  }

  /** Taking away the place just added leaves its holder in, when they held another. */
  lemma PlaceTaken(d: Tables, a: Account, k: Place, own: Place)
    requires k !in d.places && own in HeldBy(d, k.crew, a)
    ensures WithoutPlaces(d.(places := d.places[k := a]), {k}) == d
  {
    var e := d.(places := d.places[k := a]);
    var f := WithoutPlaces(e, {k});
    assert f.places == d.places;
    assert own in f.places && f.places[own] == a && own.crew == k.crew;
    assert f.roles == d.roles;
  }

  lemma RemoveAnswer(d: Tables, a: Account, c: Crew, t: Player, tracked: set<Player>)
    requires c in d.sizes && Seat(c, a) in d.roles && Place(c, t) !in d.places
    requires d.roles[Seat(c, a)] != Owner ==> HeldBy(d, c, a) != {}
    ensures Answer(d.(places := d.places[Place(c, t) := a]), Remove(a, c, t), tracked) == None
        <==> HeldBy(d, c, a) != {}
  {
    assert HeldBy(d.(places := d.places[Place(c, t) := a]), c, a) == HeldBy(d, c, a) + {Place(c, t)};
  }

  /**
   Removing an added player undoes the adding, to the row, exactly when the caller held a place
   before: an owner without one may not remove their only place.
   */
  lemma RemoveUndoesAdd(d: Tables, a: Account, c: Crew, t: Player, tracked: set<Player>)
    requires Accepted(d, Add(a, c, {t}), tracked)
    ensures var e := After(d, Add(a, c, {t}));
      && (Answer(e, Remove(a, c, t), tracked) == None <==> HeldBy(d, c, a) != {})
      && (HeldBy(d, c, a) != {} ==> After(e, Remove(a, c, t)) == d)
  {
    PlaceAdded(d, a, c, t, tracked);
    RemoveAnswer(d, a, c, t, tracked);
    if HeldBy(d, c, a) != {} {
      var own := Pick(HeldBy(d, c, a));
      PlaceTaken(d, a, Place(c, t), own);
    }
  }
}
