/**
 The crew writes as they run: row by row on the crew tables, each inside one transaction whose
 refusal undoes what it did. Every method is proved to answer and to leave the tables as the
 write's specification in Crews.dfy says.
 */
module CrewWrites {
  import opened Basics
  import opened Crews

  lemma SweptOnce(roles: map<Seat, Role>, before: map<Place, Account>, left: map<Place, Account>, fired: set<Place>,
                  k: Place, now: map<Seat, Role>)
    requires k in before
    requires var was := SeatsAfter(roles, before, left, fired);
      var seat := Seat(k.crew, before[k]);
      now == if seat in was && was[seat] != Owner
          && !(exists o :: o in left && o.crew == seat.crew && left[o] == seat.account)
             then was - {seat} else was
    ensures now == SeatsAfter(roles, before, left, fired + {k})
  {}

  lemma OneMorePlace(places: map<Place, Account>, c: Crew, a: Account, done: set<Player>, t: Player)
    ensures (places + map k | k in Pairs(c, done) :: a)[Place(c, t) := a]
        == places + map k | k in Pairs(c, done + {t}) :: a
  {
    assert Pairs(c, done + {t}) == Pairs(c, done) + {Place(c, t)};
  }

  class CrewDatabase {
    var sizes: map<Crew, int>
    var roles: map<Seat, Role>
    var places: map<Place, Account>
    var links: map<Player, Account>

    function Rows(): Tables
      reads this
    {
      Tables(sizes, roles, places, links)
    }

    /** The tables after `op`, given the ones before it and its answer. */
    static ghost predicate Wrote(before: Tables, after: Tables, op: Op, tracked: set<Player>,
            refusal: Option<Refusal>) {
      && refusal == Answer(before, op, tracked)
      && after == if refusal.Some? then before else Effects(op, before, Read(op, before))
    }

    /** The trigger after one deleted place: its holder is out unless owner or still placed. */
    method MemberWithoutPlaces(seat: Seat)
      modifies this`roles
      ensures roles == if seat in old(roles) && old(roles)[seat] != Owner
          && HeldBy(old(Rows()), seat.crew, seat.account) == {}
                       then old(roles) - {seat} else old(roles)
    {
      if seat in roles && roles[seat] != Owner && HeldBy(Rows(), seat.crew, seat.account) == {} {
        roles := roles - {seat};
      }
    }

    /** DELETE FROM crew_players, then the trigger once for each row that went. */
    method DeletePlaces(gone: set<Place>)
      modifies this`places, this`roles
      ensures Rows() == WithoutPlaces(old(Rows()), gone)
    {
      ghost var seats := roles;
      var before := places;
      places := places - gone;
      var pending := set k | k in gone && k in before;
      var fired: set<Place> := {};
      while pending != {}
        invariant sizes == old(sizes) && links == old(links) && places == before - gone
        invariant pending + fired == (set k | k in gone && k in before)
        invariant roles == SeatsAfter(seats, before, places, fired)
      {
        var k :| k in pending;
        MemberWithoutPlaces(Seat(k.crew, before[k]));
        SweptOnce(seats, before, places, fired, k, roles);
        pending, fired := pending - {k}, fired + {k};
      }
      assert SeatsAfter(seats, before, places, fired) == SeatsAfter(seats, before, places, gone);
    }

    /** DELETE FROM crew_accounts of one member: their places cascade. */
    method DeleteMember(c: Crew, a: Account)
      modifies this`places, this`roles
      ensures Rows() == WithoutMember(old(Rows()), c, a)
    {
      roles := roles - {Seat(c, a)};
      places := places - set k | k in places && k.crew == c && places[k] == a;
    }

    /** _add_places: check every join rule, then insert the member and a place for each tag. */
    method AddPlaces(c: Crew, size: int, a: Account, tags: set<Player>, newRole: Option<Role>, tracked: set<Player>)
      returns (refusal: Option<Refusal>)
      modifies this`roles, this`places
      ensures refusal == DecideTags(old(Rows()), tags, tracked, a,
        Seen(None, None, None, None, None, 0, |PlacesOf(old(Rows()), c)|,
             exists t :: t in tags && Place(c, t) in old(places), false),
        size, newRole.Some?, |Memberships(old(Rows()), a)|)
      ensures Rows() == if refusal.Some? then old(Rows()) else
        WithPlaces(
          if newRole.Some? then old(Rows()).(roles := old(roles)[Seat(c, a) := newRole.value]) else old(Rows()),
          c, a, tags)
    {
      if exists t :: t in tags && Lookup(links, t) != Some(a) { return Some(PlayerNotLinked); }
      if !(tags <= tracked) { return Some(PlayerNotTracked); }
      if exists t :: t in tags && Place(c, t) in places { return Some(PlayerAlreadyInCrew); }
      var used := |PlacesOf(Rows(), c)|;
      if used + |tags| > size { return Some(CrewFull); }
      if newRole.Some? {
        var crews := |Memberships(Rows(), a)|;
        if crews >= MAX_CREWS_PER_ACCOUNT { return Some(CrewLimitReached); }
        roles := roles[Seat(c, a) := newRole.value];
      }
      InsertPlaces(c, a, tags);
      return None;
    }

    method InsertPlaces(c: Crew, a: Account, tags: set<Player>)
      modifies this`places
      ensures Rows() == WithPlaces(old(Rows()), c, a, tags)
    {
      var left, done: set<Player> := tags, {};
      while left != {}
        invariant left + done == tags
        invariant Rows() == WithPlaces(old(Rows()), c, a, done)
      {
        ghost var some := Pick(left);
        var t :| t in left;
        OneMorePlace(old(places), c, a, done, t);
        places := places[Place(c, t) := a];
        left, done := left - {t}, done + {t};
      }
      assert done == tags;
    }

    method CreateCrew(op: Op, tracked: set<Player>) returns (refusal: Option<Refusal>)
      requires op.Create? && op.crew !in sizes && Good(Rows())
      modifies this
      ensures Wrote(old(Rows()), Rows(), op, tracked, refusal)
    {
      var saved := sizes;
      sizes := sizes[op.crew := op.size];
      refusal := AddPlaces(op.crew, op.size, op.caller, op.tags, Some(Owner), tracked);
      if refusal.Some? { sizes := saved; }
    }

    method UpdateCrew(op: Op, tracked: set<Player>) returns (refusal: Option<Refusal>)
      requires op.Resize?
      modifies this`sizes
      ensures Wrote(old(Rows()), Rows(), op, tracked, refusal)
    {
      var c, seat := op.crew, Seat(op.crew, op.caller);
      if c !in sizes || seat !in roles { return Some(CrewNotFound); }
      if roles[seat] == Member { return Some(CrewForbidden); }
      if op.size < |PlacesOf(Rows(), c)| { return Some(SizeBelowUsed); }
      sizes := sizes[c := op.size];
      return None;
    }

    method DeleteCrew(op: Op, tracked: set<Player>) returns (refusal: Option<Refusal>)
      requires op.Delete?
      modifies this
      ensures Wrote(old(Rows()), Rows(), op, tracked, refusal)
    {
      var c, seat := op.crew, Seat(op.crew, op.caller);
      if c !in sizes || seat !in roles { return Some(CrewNotFound); }
      if roles[seat] != Owner { return Some(CrewForbidden); }
      places := places - PlacesOf(Rows(), c);
      roles := map m | m in roles && m.crew != c :: roles[m];
      sizes := sizes - {c};
      return None;
    }

    method AddPlayers(op: Op, tracked: set<Player>) returns (refusal: Option<Refusal>)
      requires op.Add?
      modifies this`roles, this`places
      ensures Wrote(old(Rows()), Rows(), op, tracked, refusal)
    {
      if op.crew !in sizes || Seat(op.crew, op.caller) !in roles { return Some(CrewNotFound); }
      refusal := AddPlaces(op.crew, sizes[op.crew], op.caller, op.tags, None, tracked);
    }

    method AcceptInvite(op: Op, tracked: set<Player>) returns (refusal: Option<Refusal>)
      requires op.Accept?
      modifies this`roles, this`places
      ensures Wrote(old(Rows()), Rows(), op, tracked, refusal)
    {
      if op.crew !in sizes { return Some(CrewNotFound); }
      var newRole := if Seat(op.crew, op.caller) in roles then None else Some(Member);
      refusal := AddPlaces(op.crew, sizes[op.crew], op.caller, op.tags, newRole, tracked);
    }

    method RemovePlayer(op: Op, tracked: set<Player>) returns (refusal: Option<Refusal>)
      requires op.Remove?
      modifies this`roles, this`places
      ensures Wrote(old(Rows()), Rows(), op, tracked, refusal)
    {
      var c, seat, place := op.crew, Seat(op.crew, op.caller), Place(op.crew, op.player);
      if c !in sizes || seat !in roles { return Some(CrewNotFound); }
      if place !in places || Seat(c, places[place]) !in roles { return Some(PlayerNotInCrew); }
      var holder := places[place];
      if holder == op.caller {
        if roles[seat] == Owner && |HeldBy(Rows(), c, holder)| == 1 { return Some(OwnerMustHandOver); }
      } else if !(roles[seat] == Owner || (roles[seat] == Admin && roles[Seat(c, holder)] == Member)) {
        return Some(CrewForbidden);
      }
      DeletePlaces({place});
      return None;
    }

    method SetMemberRole(op: Op, tracked: set<Player>) returns (refusal: Option<Refusal>)
      requires op.SetRole?
      modifies this`roles
      ensures Wrote(old(Rows()), Rows(), op, tracked, refusal)
    {
      var seat, target := Seat(op.crew, op.caller), Seat(op.crew, op.target);
      if op.crew !in sizes || seat !in roles { return Some(CrewNotFound); }
      if roles[seat] != Owner { return Some(CrewForbidden); }
      if target !in roles { return Some(MemberNotFound); }
      if roles[target] == Owner { return Some(OwnerRoleFixed); }
      roles := roles[target := op.role];
      return None;
    }

    method HandOverCrew(op: Op, tracked: set<Player>) returns (refusal: Option<Refusal>)
      requires op.HandOver?
      modifies this`roles, this`places
      ensures Wrote(old(Rows()), Rows(), op, tracked, refusal)
    {
      var seat, target := Seat(op.crew, op.caller), Seat(op.crew, op.target);
      if op.crew !in sizes || seat !in roles { return Some(CrewNotFound); }
      if roles[seat] != Owner { return Some(CrewForbidden); }
      if target !in roles { return Some(MemberNotFound); }
      if roles[target] == Owner { return Some(OwnerRoleFixed); }
      roles := roles[seat := Admin];
      roles := roles[target := Owner];
      if HeldBy(Rows(), op.crew, op.caller) == {} { DeleteMember(op.crew, op.caller); }
      return None;
    }

    method LeaveCrew(op: Op, tracked: set<Player>) returns (refusal: Option<Refusal>)
      requires op.Leave?
      modifies this`roles, this`places
      ensures Wrote(old(Rows()), Rows(), op, tracked, refusal)
    {
      var seat := Seat(op.crew, op.caller);
      if op.crew !in sizes || seat !in roles { return Some(CrewNotFound); }
      if roles[seat] == Owner { return Some(OwnerMustHandOver); }
      DeleteMember(op.crew, op.caller);
      return None;
    }

    /** unlink_player: refused while the player is an owner's only place in a crew they own. */
    method UnlinkPlayer(op: Op, tracked: set<Player>) returns (refusal: Option<Refusal>)
      requires op.Unlink?
      modifies this
      ensures Wrote(old(Rows()), Rows(), op, tracked, refusal)
    {
      var p := op.player;
      if Lookup(links, p) != Some(op.caller) { return Some(PlayerNotVerified); }
      var mine := PlacesWith(Rows(), p);
      var owned := set k | k in mine && IsOwner(Rows(), k.crew, places[k]) && HeldBy(Rows(), k.crew, places[k]) == {k};
      if owned != {} {
        var k :| k in owned;
        assert OnlyPlaceOfOwner(Rows(), k.crew, p);
        return Some(OwnerMustHandOver);
      }
      assert forall c :: OnlyPlaceOfOwner(Rows(), c, p) ==> Place(c, p) in owned;
      DeletePlaces(mine);
      links := links - {p};
      return None;
    }
  }
}
