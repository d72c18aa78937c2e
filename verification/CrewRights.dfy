/**
 Who may write what in a crew, and what each accepted write changes, told from the tables alone:
 the answers as the rules they state, and the rows afterwards table by table.
 */
module CrewRights {
  import opened Basics
  import opened Crews
  import opened CrewGuarantees

  // ----- Which writes are accepted -----

  predicate IsMember(d: Tables, c: Crew, a: Account) { c in d.sizes && Seat(c, a) in d.roles }

  /** The role, if the account is a member of the crew. */
  predicate Is(d: Tables, c: Crew, a: Account, role: Role) { IsMember(d, c, a) && d.roles[Seat(c, a)] == role }

  predicate Linked(d: Tables, tags: set<Player>, a: Account) {
    forall t :: t in tags ==> t in d.links && d.links[t] == a
  }

  predicate NoneIn(d: Tables, c: Crew, tags: set<Player>) { forall t :: t in tags ==> Place(c, t) !in d.places }

  /** The tags are the account's own, tracked, not in the crew, and fit. */
  predicate MayPlace(d: Tables, c: Crew, size: int, a: Account, tags: set<Player>, tracked: set<Player>) {
    && Linked(d, tags, a) && tags <= tracked && NoneIn(d, c, tags)
    && |PlacesOf(d, c)| + |tags| <= size
  }

  /** The place is the only one of an owner. */
  ghost predicate OwnersLast(d: Tables, k: Place) {
    k in d.places && IsOwner(d, k.crew, d.places[k]) && HeldBy(d, k.crew, d.places[k]) == {k}
  }

  ghost predicate Allowed(d: Tables, op: Op, tracked: set<Player>) {
    match op
    case Create(a, c, size, tags) =>
      MayPlace(d, c, size, a, tags, tracked) && |Memberships(d, a)| < MAX_CREWS_PER_ACCOUNT
    case Resize(a, c, size) => (Is(d, c, a, Owner) || Is(d, c, a, Admin)) && |PlacesOf(d, c)| <= size
    case Delete(a, c) => Is(d, c, a, Owner)
    case Add(a, c, tags) => IsMember(d, c, a) && MayPlace(d, c, d.sizes[c], a, tags, tracked)
    case Accept(a, c, tags) =>
      && c in d.sizes && MayPlace(d, c, d.sizes[c], a, tags, tracked)
      && (IsMember(d, c, a) || |Memberships(d, a)| < MAX_CREWS_PER_ACCOUNT)
    case Remove(a, c, p) =>
      && IsMember(d, c, a) && Place(c, p) in d.places
      && var holder := d.places[Place(c, p)];
         if holder == a then !OwnersLast(d, Place(c, p))
         else Is(d, c, a, Owner) || (Is(d, c, a, Admin) && Is(d, c, holder, Member))
    case SetRole(a, c, target, _) => Is(d, c, a, Owner) && IsMember(d, c, target) && !Is(d, c, target, Owner)
    case HandOver(a, c, target) => Is(d, c, a, Owner) && IsMember(d, c, target) && !Is(d, c, target, Owner)
    case Leave(a, c) => Is(d, c, a, Admin) || Is(d, c, a, Member)
    case Unlink(a, p) => p in d.links && d.links[p] == a && forall c :: !OwnersLast(d, Place(c, p))
    case Transfer(a, p, to) => p in d.links && d.links[p] == a && a != to
    case Link(_, p) => p !in d.links
  }

  lemma PlacingDecides(d: Tables, c: Crew, size: int, a: Account, tags: set<Player>, tracked: set<Player>, seen: Seen,
          joins: bool, crews: nat)
    requires seen.used == |PlacesOf(d, c)| && (seen.clash <==> !NoneIn(d, c, tags))
    ensures DecideTags(d, tags, tracked, a, seen, size, joins, crews) == None
      <==> MayPlace(d, c, size, a, tags, tracked) && (joins ==> crews < MAX_CREWS_PER_ACCOUNT)
  {}

  lemma JoinsExactly(d: Tables, op: Op, tracked: set<Player>)
    requires op.Create? || op.Add? || op.Accept?
    ensures Answer(d, op, tracked) == None <==> Allowed(d, op, tracked)
  {
    var seen, crews := Read(op, d), |Memberships(d, op.caller)|;
    assert seen.clash <==> !NoneIn(d, op.crew, op.tags);
    match op
    case Create(a, c, size, tags) => PlacingDecides(d, c, size, a, tags, tracked, seen, true, crews);
    case Add(a, c, tags) =>
      if c in d.sizes { PlacingDecides(d, c, d.sizes[c], a, tags, tracked, seen, false, 0); }
    case Accept(a, c, tags) =>
      if c in d.sizes { PlacingDecides(d, c, d.sizes[c], a, tags, tracked, seen, Seat(c, a) !in d.roles, crews); }
  }

  lemma OneOnly(d: Tables, c: Crew, a: Account, k: Place)
    requires k in HeldBy(d, c, a)
    ensures |HeldBy(d, c, a)| == 1 <==> HeldBy(d, c, a) == {k}
  {
    if |HeldBy(d, c, a)| == 1 {
      assert |HeldBy(d, c, a) - {k}| == 0;
    }
  }

  lemma RemoveExactly(d: Tables, op: Op, tracked: set<Player>)
    requires ForeignKeys(d) && op.Remove?
    ensures Answer(d, op, tracked) == None <==> Allowed(d, op, tracked)
  {
    var k := Place(op.crew, op.player);
    if k in d.places && d.places[k] == op.caller { OneOnly(d, op.crew, op.caller, k); }
  }

  lemma UnlinkExactly(d: Tables, op: Op, tracked: set<Player>)
    requires op.Unlink?
    ensures Answer(d, op, tracked) == None <==> Allowed(d, op, tracked)
  {
    forall c ensures OnlyPlaceOfOwner(d, c, op.player) <==> OwnersLast(d, Place(c, op.player)) {}
  }

  /** A write is accepted exactly when its caller may make it. */
  lemma AcceptedExactly(d: Tables, op: Op, tracked: set<Player>)
    requires Good(d)
    ensures Answer(d, op, tracked) == None <==> Allowed(d, op, tracked)
  {
    if op.Create? || op.Add? || op.Accept? {
      JoinsExactly(d, op, tracked);
    } else if op.Remove? {
      RemoveExactly(d, op, tracked);
    } else if op.Unlink? {
      UnlinkExactly(d, op, tracked);
    }
  }

  /** The tables' own checks stop an accepted write only for a crew size that is none. */
  lemma ChecksExactly(d: Tables, op: Op, tracked: set<Player>)
    requires Good(d) && Answer(d, op, tracked) == None
    ensures Constraints(op, d) <==> (op.Create? || op.Resize? ==> 2 <= op.size <= 100)
  {
    if op.Create? || op.Add? || op.Accept? { JoinsExactly(d, op, tracked); }
  }

  // ----- Which refusal is the answer -----

  predicate AddsTags(op: Op) { op.Create? || op.Add? || op.Accept? }

  /** The write is about a crew that must be there. */
  predicate NeedsCrew(op: Op) { !op.Create? && !op.Unlink? && !op.Transfer? && !op.Link? }

  /** The rule that the refusal names is broken. */
  ghost predicate Broken(d: Tables, op: Op, tracked: set<Player>, r: Refusal) {
    match r
    case CrewNotFound => NeedsCrew(op) && (op.crew !in d.sizes || (!op.Accept? && Seat(op.crew, op.caller) !in d.roles))
    case PlayerNotVerified =>
      || ((op.Unlink? || op.Transfer?) && Lookup(d.links, op.player) != Some(op.caller))
      || (op.Transfer? && op.to == op.caller)
      || (op.Link? && op.player in d.links)
    case PlayerNotLinked => AddsTags(op) && !Linked(d, op.tags, op.caller)
    case PlayerNotTracked => AddsTags(op) && !(op.tags <= tracked)
    case PlayerAlreadyInCrew => AddsTags(op) && !NoneIn(d, op.crew, op.tags)
    case CrewFull =>
      || (op.Create? && |PlacesOf(d, op.crew)| + |op.tags| > op.size)
      || ((op.Add? || op.Accept?) && op.crew in d.sizes && |PlacesOf(d, op.crew)| + |op.tags| > d.sizes[op.crew])
    case CrewLimitReached =>
      && (op.Create? || (op.Accept? && Seat(op.crew, op.caller) !in d.roles))
      && |Memberships(d, op.caller)| >= MAX_CREWS_PER_ACCOUNT
    case PlayerNotInCrew => op.Remove? && Place(op.crew, op.player) !in d.places
    case CrewForbidden =>
      || (op.Resize? && !Is(d, op.crew, op.caller, Owner) && !Is(d, op.crew, op.caller, Admin))
      || ((op.Delete? || op.SetRole? || op.HandOver?) && !Is(d, op.crew, op.caller, Owner))
      || (op.Remove? && Place(op.crew, op.player) in d.places
          && var holder := d.places[Place(op.crew, op.player)];
             holder != op.caller && !Is(d, op.crew, op.caller, Owner)
             && !(Is(d, op.crew, op.caller, Admin) && Is(d, op.crew, holder, Member)))
    case SizeBelowUsed => op.Resize? && op.size < |PlacesOf(d, op.crew)|
    case MemberNotFound => (op.SetRole? || op.HandOver?) && Seat(op.crew, op.target) !in d.roles
    case OwnerRoleFixed => (op.SetRole? || op.HandOver?) && Is(d, op.crew, op.target, Owner)
    case OwnerMustHandOver =>
      || (op.Leave? && Is(d, op.crew, op.caller, Owner))
      || (op.Remove? && OwnersLast(d, Place(op.crew, op.player)) && d.places[Place(op.crew, op.player)] == op.caller)
      || (op.Unlink? && exists c :: OwnersLast(d, Place(c, op.player)))
  }

  /** The order in which rules are looked at. */
  function Turn(r: Refusal): nat {
    match r
    case CrewNotFound => 0
    case PlayerNotVerified => 1
    case PlayerNotInCrew => 2
    case CrewForbidden => 3
    case SizeBelowUsed => 4
    case MemberNotFound => 5
    case OwnerRoleFixed => 6
    case OwnerMustHandOver => 7
    case PlayerNotLinked => 8
    case PlayerNotTracked => 9
    case PlayerAlreadyInCrew => 10
    case CrewFull => 11
    case CrewLimitReached => 12
  }

  /** The answer names a broken rule, and none that is looked at before it is broken. */
  ghost predicate FirstBroken(d: Tables, op: Op, tracked: set<Player>, answer: Option<Refusal>) {
    && (answer.Some? ==> Broken(d, op, tracked, answer.value))
    && forall r :: Broken(d, op, tracked, r) ==> answer.Some? && Turn(answer.value) <= Turn(r)
  }

  lemma CreateRefuses(d: Tables, op: Op, tracked: set<Player>)
    requires op.Create?
    ensures FirstBroken(d, op, tracked, Answer(d, op, tracked))
  {
    assert Read(op, d).clash <==> !NoneIn(d, op.crew, op.tags);
    assert (exists t :: t in op.tags && Lookup(d.links, t) != Some(op.caller)) <==> !Linked(d, op.tags, op.caller);
  }

  lemma JoinsRefuse(d: Tables, op: Op, tracked: set<Player>)
    requires op.Add? || op.Accept?
    ensures FirstBroken(d, op, tracked, Answer(d, op, tracked))
  {
    assert Read(op, d).clash <==> !NoneIn(d, op.crew, op.tags);
    assert (exists t :: t in op.tags && Lookup(d.links, t) != Some(op.caller)) <==> !Linked(d, op.tags, op.caller);
  }

  lemma MembersRefuse(d: Tables, op: Op, tracked: set<Player>)
    requires ForeignKeys(d) && !AddsTags(op) && !op.Remove? && !op.Unlink?
    ensures FirstBroken(d, op, tracked, Answer(d, op, tracked))
  {}

  lemma RemovalsRefuse(d: Tables, op: Op, tracked: set<Player>)
    requires ForeignKeys(d) && (op.Remove? || op.Unlink?)
    ensures FirstBroken(d, op, tracked, Answer(d, op, tracked))
  {
    if op.Remove? {
      var k := Place(op.crew, op.player);
      if k in d.places && d.places[k] == op.caller { OneOnly(d, op.crew, op.caller, k); }
    } else {
      forall c ensures OnlyPlaceOfOwner(d, c, op.player) <==> OwnersLast(d, Place(c, op.player)) {}
    }
  }

  /** Whatever is asked of a good database, the answer is the first broken rule, or none. */
  lemma AnswerIsFirstBroken(d: Tables, op: Op, tracked: set<Player>)
    requires Good(d)
    ensures FirstBroken(d, op, tracked, Answer(d, op, tracked))
  {
    if op.Create? {
      CreateRefuses(d, op, tracked);
    } else if op.Add? || op.Accept? {
      JoinsRefuse(d, op, tracked);
    } else if op.Remove? || op.Unlink? {
      RemovalsRefuse(d, op, tracked);
    } else {
      MembersRefuse(d, op, tracked);
    }
  }

  // ----- What an accepted write changes -----

  /** A crew's size is the one it was made or last resized with. */
  lemma SizesExactly(d: Tables, op: Op, tracked: set<Player>, c: Crew)
    requires Accepted(d, op, tracked)
    ensures c in After(d, op).sizes
      <==> (op.Create? && c == op.crew) || (c in d.sizes && !(op.Delete? && c == op.crew))
    ensures c in After(d, op).sizes ==>
              After(d, op).sizes[c] == if (op.Create? || op.Resize?) && c == op.crew then op.size else d.sizes[c]
  {}

  /** Only the caller gains a seat, by creating a crew as its owner or by accepting an invite as a member. */
  lemma SeatsGainedExactly(d: Tables, op: Op, tracked: set<Player>, m: Seat)
    requires Accepted(d, op, tracked) && m !in d.roles
    ensures m in After(d, op).roles <==> (op.Create? || op.Accept?) && m == Seat(op.crew, op.caller)
    ensures m in After(d, op).roles ==> After(d, op).roles[m] == if op.Create? then Owner else Member
  {}

  /** The member's only place in the crew goes. */
  ghost predicate LastPlaceGoes(d: Tables, op: Op, m: Seat)
    requires op.Remove? || op.Unlink? || op.Transfer?
  {
    HeldBy(d, m.crew, m.account) == {Place(m.crew, op.player)} && (op.Remove? ==> m.crew == op.crew)
  }

  ghost predicate SeatGoes(d: Tables, op: Op, m: Seat)
    requires m in d.roles
  {
    match op
    case Delete(_, c) => m.crew == c
    case Leave(a, c) => m == Seat(c, a)
    case HandOver(a, c, _) => m == Seat(c, a) && HeldBy(d, c, a) == {}
    case Remove(_, _, _) => d.roles[m] != Owner && LastPlaceGoes(d, op, m)
    case Unlink(_, _) => d.roles[m] != Owner && LastPlaceGoes(d, op, m)
    case Transfer(_, _, _) => d.roles[m] != Owner && LastPlaceGoes(d, op, m)
    case _ => false
  }

  /** Which places a sweep takes from a member. */
  lemma SweptExactly(d: Tables, gone: set<Place>, m: Seat, k: Place)
    requires m in d.roles && k.crew == m.crew && (forall o :: o in gone && o.crew == m.crew ==> o == k)
    requires d.roles[m] != Owner ==> HeldBy(d, m.crew, m.account) != {}
    ensures m !in WithoutPlaces(d, gone).roles
      <==> d.roles[m] != Owner && k in gone && HeldBy(d, m.crew, m.account) == {k}
  {
    var held := HeldBy(d, m.crew, m.account);
    if d.roles[m] != Owner && k in gone && held != {k} {
      if k in held {
        var o := Pick(held - {k});
        assert o in d.places - gone;
      }
    }
    if k in gone && held == {k} {
      assert k in held;
      forall o | o in d.places - gone && o.crew == m.crew ensures d.places[o] != m.account {
        assert o in held <==> d.places[o] == m.account;
      }
    }
  }

  /** Nobody else loses a seat. */
  lemma SeatsLostExactly(d: Tables, op: Op, tracked: set<Player>, m: Seat)
    requires Accepted(d, op, tracked) && m in d.roles
    ensures m !in After(d, op).roles <==> SeatGoes(d, op, m)
  {
    match op
    case Remove(_, c, p) =>
      if m.crew == c {
        SweptExactly(d, {Place(c, p)}, m, Place(c, p));
      } else {
        SweptExactly(d, {Place(c, p)}, m, Place(m.crew, p));
      }
    case Unlink(_, p) => SweptExactly(d, PlacesWith(d, p), m, Place(m.crew, p));
    case Transfer(_, p, _) => SweptExactly(d, PlacesWith(d, p), m, Place(m.crew, p));
    case _ => SeatsLostByCrew(d, op, tracked, m);
  }

  lemma SeatsLostByCrew(d: Tables, op: Op, tracked: set<Player>, m: Seat)
    requires Accepted(d, op, tracked) && m in d.roles && !op.Remove? && !op.Unlink? && !op.Transfer?
    ensures m !in After(d, op).roles <==> SeatGoes(d, op, m)
  {}

  lemma RolesAfterSweep(d: Tables, gone: set<Place>, m: Seat)
    requires m in WithoutPlaces(d, gone).roles
    ensures m in d.roles && WithoutPlaces(d, gone).roles[m] == d.roles[m]
  {}

  lemma RolesAfter(d: Tables, op: Op, seen: Seen, m: Seat)
    requires m in d.roles && m in Effects(op, d, seen).roles
    requires op.Create? ==> m.crew != op.crew
    requires op.Accept? && m == Seat(op.crew, op.caller) ==> seen.role.Some?
    ensures Effects(op, d, seen).roles[m] ==
      (if op.SetRole? && m == Seat(op.crew, op.target) then op.role
       else if op.HandOver? && m == Seat(op.crew, op.target) then Owner
       else if op.HandOver? && m == Seat(op.crew, op.caller) then Admin
       else d.roles[m])
  {
    match op
    case Remove(_, c, p) => RolesAfterSweep(d, {Place(c, p)}, m);
    case Unlink(_, p) => RolesAfterSweep(d, PlacesWith(d, p), m);
    case Transfer(_, p, _) => RolesAfterSweep(d, PlacesWith(d, p), m);
    case _ =>
  }

  /** Only the owner changes a role: to the one set, or by handing the crew over, which makes the old owner an admin. */
  lemma RolesChangeExactly(d: Tables, op: Op, tracked: set<Player>, m: Seat)
    requires Accepted(d, op, tracked) && m in d.roles && m in After(d, op).roles
    ensures After(d, op).roles[m] ==
      (if op.SetRole? && m == Seat(op.crew, op.target) then op.role
       else if op.HandOver? && m == Seat(op.crew, op.target) then Owner
       else if op.HandOver? && m == Seat(op.crew, op.caller) then Admin
       else d.roles[m])
    ensures After(d, op).roles[m] != d.roles[m] ==>
              && (op.SetRole? || op.HandOver?) && IsOwner(d, op.crew, op.caller)
              && (m == Seat(op.crew, op.target) || (op.HandOver? && m == Seat(op.crew, op.caller)))
  {
    RolesAfter(d, op, Read(op, d), m);
    if op.SetRole? || op.HandOver? { OwnersOnly(d, op, tracked); }
  }

  lemma OwnersOnly(d: Tables, op: Op, tracked: set<Player>)
    requires (op.SetRole? || op.HandOver?) && Answer(d, op, tracked) == None
    ensures Allowed(d, op, tracked)
  {}

  predicate PlaceGoes(d: Tables, op: Op, k: Place)
    requires k in d.places
  {
    match op
    case Delete(_, c) => k.crew == c
    case Remove(_, c, p) => k == Place(c, p)
    case Leave(a, c) => k.crew == c && d.places[k] == a
    case Unlink(_, p) => k.player == p
    case Transfer(_, p, _) => k.player == p
    case _ => false
  }

  /** Exactly the named players get places, held by the caller; exactly the named places go, and none changes hands. */
  lemma PlacesExactly(d: Tables, op: Op, tracked: set<Player>, k: Place)
    requires Accepted(d, op, tracked)
    ensures k in After(d, op).places
      <==>
        || (k in d.places && !PlaceGoes(d, op, k))
        || ((op.Create? || op.Add? || op.Accept?) && k.crew == op.crew && k.player in op.tags)
    ensures k in After(d, op).places ==>
              After(d, op).places[k] == if k in d.places then d.places[k] else op.caller
  {
    if op.Create? || op.Add? || op.Accept? {
      JoinsExactly(d, op, tracked);
      PlacesJoined(d, op, k);
    } else {
      PlacesLeft(d, op, k);
    }
  }

  lemma PlacesJoined(d: Tables, op: Op, k: Place)
    requires (op.Create? || op.Add? || op.Accept?) && NoneIn(d, op.crew, op.tags)
    ensures k in After(d, op).places <==> k in d.places || (k.crew == op.crew && k.player in op.tags)
    ensures k in After(d, op).places ==>
              After(d, op).places[k] == if k in d.places then d.places[k] else op.caller
  {
    assert k in Pairs(op.crew, op.tags) <==> k.crew == op.crew && k.player in op.tags;
  }

  lemma PlacesLeft(d: Tables, op: Op, k: Place)
    requires !op.Create? && !op.Add? && !op.Accept?
    requires op.HandOver? ==> op.caller != op.target
    ensures k in After(d, op).places <==> k in d.places && !PlaceGoes(d, op, k)
    ensures k in After(d, op).places ==> After(d, op).places[k] == d.places[k]
  {}

  /** A link goes only by its holder's unlinking or moves by a transfer, and comes only where there is none. */
  lemma LinksExactly(d: Tables, op: Op, tracked: set<Player>, p: Player)
    requires Accepted(d, op, tracked)
    ensures Lookup(After(d, op).links, p) ==
      (if op.Unlink? && p == op.player then None
       else if op.Transfer? && p == op.player then Some(op.to)
       else if op.Link? && p == op.player then Some(op.caller)
       else Lookup(d.links, p))
    ensures Lookup(After(d, op).links, p) != Lookup(d.links, p) && p in d.links ==> d.links[p] == op.caller
  {}
}
