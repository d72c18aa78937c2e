/**
 Crews: the rows of one crew database and the effect of each write on them.

 A crew has member accounts, each with a role, and places, each a game account linked to the
 member holding it. Every write reads what it needs, decides, and then runs its statements;
 the three are kept apart here (Read, Decide, Effects), because the writes of several requests
 interleave: CrewProtocol.dfy shows that what a write read is still true when it commits.
 */
module Crews {
  import opened Basics

  // Row ids.
  type Account = int
  type Player = int
  type Crew = int

  /** The key of a crew_accounts row: an account's seat in a crew. */
  datatype Seat = Seat(crew: Crew, account: Account)

  /** The key of a crew_players row: a game account's place in a crew. */
  datatype Place = Place(crew: Crew, player: Player)

  datatype Role = Owner | Admin | Member

  const MAX_CREWS_PER_ACCOUNT := 5
  const MIN_CREW_SIZE := 2
  const MAX_CREW_SIZE := 100

  /** crews(size), crew_accounts(role), crew_players(account) and verified_player_links(account). */
  datatype Tables = Tables(
    sizes: map<Crew, int>,
    roles: map<Seat, Role>,
    places: map<Place, Account>,
    links: map<Player, Account>)

  function PlacesOf(d: Tables, c: Crew): set<Place> { set k | k in d.places && k.crew == c }

  function HeldBy(d: Tables, c: Crew, a: Account): set<Place> {
    set k | k in d.places && k.crew == c && d.places[k] == a
  }

  function Memberships(d: Tables, a: Account): set<Seat> { set m | m in d.roles && m.account == a }

  // ----- What every crew database keeps -----

  predicate IsOwner(d: Tables, c: Crew, a: Account) { Seat(c, a) in d.roles && d.roles[Seat(c, a)] == Owner }

  /** Rows point at rows that exist, and a place's holder owns the game account's link. */
  ghost predicate ForeignKeys(d: Tables) {
    && (forall m :: m in d.roles ==> m.crew in d.sizes)
    && (forall k :: k in d.places ==>
      Seat(k.crew, d.places[k]) in d.roles && k.player in d.links && d.links[k.player] == d.places[k])
  }

  ghost predicate OneOwner(d: Tables) {
    && (forall c :: c in d.sizes ==> exists a :: IsOwner(d, c, a))
    && (forall c, a, b :: IsOwner(d, c, a) && IsOwner(d, c, b) ==> a == b)
  }

  ghost predicate WithinSize(d: Tables) {
    forall c :: c in d.sizes ==> |PlacesOf(d, c)| <= d.sizes[c] && MIN_CREW_SIZE <= d.sizes[c] <= MAX_CREW_SIZE
  }

  /** Every member but the owner holds a place. */
  ghost predicate MembersPlaced(d: Tables) {
    forall m :: m in d.roles && d.roles[m] != Owner ==> HeldBy(d, m.crew, m.account) != {}
  }

  ghost predicate MembersPlacedBut(d: Tables, out: Seat) {
    forall m :: m in d.roles && d.roles[m] != Owner && m != out ==> HeldBy(d, m.crew, m.account) != {}
  }

  ghost predicate CrewLimit(d: Tables) { forall a :: |Memberships(d, a)| <= MAX_CREWS_PER_ACCOUNT }

  ghost predicate Good(d: Tables) {
    ForeignKeys(d) && OneOwner(d) && WithinSize(d) && MembersPlaced(d) && CrewLimit(d)
  }

  /** Good, but for one member who may still lack a place: the middle of a write. */
  ghost predicate AlmostGood(d: Tables, out: Seat) {
    ForeignKeys(d) && OneOwner(d) && WithinSize(d) && MembersPlacedBut(d, out) && CrewLimit(d)
  }

  // ----- The writes -----

  datatype Op =
    | Create(caller: Account, crew: Crew, size: int, tags: set<Player>)
    | Resize(caller: Account, crew: Crew, size: int)
    | Delete(caller: Account, crew: Crew)
    | Add(caller: Account, crew: Crew, tags: set<Player>)
    | Accept(caller: Account, crew: Crew, tags: set<Player>)
    | Remove(caller: Account, crew: Crew, player: Player)
    | SetRole(caller: Account, crew: Crew, target: Account, role: Role)
    | HandOver(caller: Account, crew: Crew, target: Account)
    | Leave(caller: Account, crew: Crew)
    | Unlink(caller: Account, player: Player)
    | Transfer(caller: Account, player: Player, to: Account)
    | Link(caller: Account, player: Player)

  datatype Refusal =
    | CrewNotFound | CrewForbidden | PlayerNotLinked | PlayerNotTracked | PlayerAlreadyInCrew
    | CrewFull | CrewLimitReached | SizeBelowUsed | PlayerNotInCrew | OwnerMustHandOver
    | MemberNotFound | OwnerRoleFixed | PlayerNotVerified

  /** What a write has read of its crew's rows (or, for an unlink, of the player's crews). */
  datatype Seen = Seen(
    size: Option<int>, role: Option<Role>, targetRole: Option<Role>,
    holder: Option<Account>, holderRole: Option<Role>,
    own: nat, used: nat, clash: bool, lastOfOwner: bool)

  /** Whether the player is the only place of the owner of one of the player's crews. */
  ghost predicate OnlyPlaceOfOwner(d: Tables, c: Crew, p: Player) {
    && Place(c, p) in d.places
    && IsOwner(d, c, d.places[Place(c, p)])
    && HeldBy(d, c, d.places[Place(c, p)]) == {Place(c, p)}
  }

  ghost function ReadCrew(op: Op, d: Tables, c: Crew): Seen {
    var target := if op.SetRole? || op.HandOver? then Lookup(d.roles, Seat(c, op.target)) else None;
    var holder := if op.Remove? then Lookup(d.places, Place(c, op.player)) else None;
    Seen(
      Lookup(d.sizes, c), Lookup(d.roles, Seat(c, op.caller)), target,
      holder, if holder.Some? then Lookup(d.roles, Seat(c, holder.value)) else None,
      |HeldBy(d, c, op.caller)|, |PlacesOf(d, c)|,
      (op.Create? || op.Add? || op.Accept?) && exists t :: t in op.tags && Place(c, t) in d.places,
      false)
  }

  ghost function Read(op: Op, d: Tables): Seen {
    if op.Unlink? || op.Transfer? || op.Link? then
      Seen(None, None, None, None, None, 0, 0, false,
           (op.Unlink? && exists c :: OnlyPlaceOfOwner(d, c, op.player)))
    else
      ReadCrew(op, d, op.crew)
  }

  /** Whether the write makes its caller a member, and so counts the caller's crews. */
  predicate Joins(op: Op, seen: Seen) { op.Create? || (op.Accept? && seen.role.None?) }

  /** _add_places: the join rules, in the order they are checked. */
  function DecideTags(d: Tables, tags: set<Player>, tracked: set<Player>, caller: Account,
                      seen: Seen, size: int, joins: bool, crews: nat): Option<Refusal>
  {
    if exists t :: t in tags && Lookup(d.links, t) != Some(caller) then Some(PlayerNotLinked)
    else if !(tags <= tracked) then Some(PlayerNotTracked)
    else if seen.clash then Some(PlayerAlreadyInCrew)
    else if seen.used + |tags| > size then Some(CrewFull)
    else if joins && crews >= MAX_CREWS_PER_ACCOUNT then Some(CrewLimitReached)
    else None
  }

  /** The answer of a write that has read `seen` and counted `crews` memberships of its caller. */
  function Decide(op: Op, d: Tables, tracked: set<Player>, seen: Seen, crews: nat): Option<Refusal> {
    match op
    case Create(a, _, size, tags) => DecideTags(d, tags, tracked, a, seen, size, true, crews)
    case Accept(a, _, tags) =>
      if seen.size.None? then Some(CrewNotFound)
      else DecideTags(d, tags, tracked, a, seen, seen.size.value, seen.role.None?, crews)
    case Unlink(a, p) =>
      if Lookup(d.links, p) != Some(a) then Some(PlayerNotVerified)
      else if seen.lastOfOwner then Some(OwnerMustHandOver) else None
    case Transfer(a, p, to) => if Lookup(d.links, p) != Some(a) || a == to then Some(PlayerNotVerified) else None
    case Link(a, p) => if p in d.links then Some(PlayerNotVerified) else None
    case _ =>
      if seen.size.None? || seen.role.None? then Some(CrewNotFound)
      else DecideAsMember(op, d, tracked, seen, seen.role.value)
  }

  function DecideAsMember(op: Op, d: Tables, tracked: set<Player>, seen: Seen, role: Role): Option<Refusal>
    requires seen.size.Some?
  {
    match op
    case Resize(_, _, size) =>
      if role == Member then Some(CrewForbidden) else if size < seen.used then Some(SizeBelowUsed) else None
    case Delete(_, _) => if role != Owner then Some(CrewForbidden) else None
    case Add(a, _, tags) => DecideTags(d, tags, tracked, a, seen, seen.size.value, false, 0)
    case Remove(a, _, _) =>
      if seen.holder.None? || seen.holderRole.None? then Some(PlayerNotInCrew)
      else if seen.holder.value == a then
        if role == Owner && seen.own == 1 then Some(OwnerMustHandOver) else None
      else if role == Owner || (role == Admin && seen.holderRole.value == Member) then None
      else Some(CrewForbidden)
    case SetRole(_, _, _, _) => DecideTarget(seen, role)
    case HandOver(_, _, _) => DecideTarget(seen, role)
    case Leave(_, _) => if role == Owner then Some(OwnerMustHandOver) else None
    case _ => None
  }

  function DecideTarget(seen: Seen, role: Role): Option<Refusal> {
    if role != Owner then Some(CrewForbidden)
    else if seen.targetRole.None? then Some(MemberNotFound)
    else if seen.targetRole.value == Owner then Some(OwnerRoleFixed)
    else None
  }

  // ----- The statements of each write -----

  function Pairs(c: Crew, tags: set<Player>): set<Place> { set t | t in tags :: Place(c, t) }

  function WithPlaces(d: Tables, c: Crew, a: Account, tags: set<Player>): Tables {
    d.(places := d.places + map k | k in Pairs(c, tags) :: a)
  }

  /** The members left once the trigger of migration 0095 has run for each place in `fired`. */
  function SeatsAfter(roles: map<Seat, Role>, before: map<Place, Account>, left: map<Place, Account>,
          fired: set<Place>):
    map<Seat, Role>
  {
    map m | m in roles && !(roles[m] != Owner
              && (exists k :: k in fired && k in before && k.crew == m.crew && before[k] == m.account)
              && !(exists k :: k in left && k.crew == m.crew && left[k] == m.account)) :: roles[m]
  }

  /** Delete places; a member other than the owner left with none is out. */
  function WithoutPlaces(d: Tables, gone: set<Place>): Tables {
    d.(places := d.places - gone, roles := SeatsAfter(d.roles, d.places, d.places - gone, gone))
  }

  /** Delete a member; its places go with it. */
  function WithoutMember(d: Tables, c: Crew, a: Account): Tables {
    d.(roles := d.roles - {Seat(c, a)}, places := d.places - HeldBy(d, c, a))
  }

  function WithoutCrew(d: Tables, c: Crew): Tables {
    d.(sizes := d.sizes - {c},
       roles := map m | m in d.roles && m.crew != c :: d.roles[m],
       places := d.places - PlacesOf(d, c))
  }

  function Handed(d: Tables, c: Crew, a: Account, t: Account): Tables {
    d.(roles := d.roles[Seat(c, a) := Admin][Seat(c, t) := Owner])
  }

  /** The crew handed over; the old owner goes when they hold no place. */
  function HandedOver(d: Tables, c: Crew, a: Account, t: Account): Tables {
    var handed := Handed(d, c, a, t);
    if HeldBy(handed, c, a) == {} then WithoutMember(handed, c, a) else handed
  }

  function PlacesWith(d: Tables, p: Player): set<Place> { set k | k in d.places && k.player == p }

  function Effects(op: Op, d: Tables, seen: Seen): Tables {
    match op
    case Create(a, c, size, tags) =>
      WithPlaces(d.(sizes := d.sizes[c := size], roles := d.roles[Seat(c, a) := Owner]), c, a, tags)
    case Resize(_, c, size) => d.(sizes := d.sizes[c := size])
    case Delete(_, c) => WithoutCrew(d, c)
    case Add(a, c, tags) => WithPlaces(d, c, a, tags)
    case Accept(a, c, tags) =>
      WithPlaces(if seen.role.None? then d.(roles := d.roles[Seat(c, a) := Member]) else d, c, a, tags)
    case Remove(_, c, p) => WithoutPlaces(d, {Place(c, p)})
    case SetRole(_, c, t, role) => d.(roles := d.roles[Seat(c, t) := role])
    case HandOver(a, c, t) => HandedOver(d, c, a, t)
    case Leave(a, c) => WithoutMember(d, c, a)
    case Unlink(_, p) => WithoutPlaces(d, PlacesWith(d, p)).(links := d.links - {p})
    case Transfer(_, p, to) => WithoutPlaces(d, PlacesWith(d, p)).(links := d.links[p := to])
    case Link(a, p) => d.(links := d.links[p := a])
  }

  /** The checks the tables themselves make as the statements run. */
  predicate Constraints(op: Op, d: Tables) {
    match op
    case Create(a, _, size, tags) =>
      MIN_CREW_SIZE <= size <= MAX_CREW_SIZE && forall t :: t in tags ==> Lookup(d.links, t) == Some(a)
    case Resize(_, _, size) => MIN_CREW_SIZE <= size <= MAX_CREW_SIZE
    case Add(a, _, tags) => forall t :: t in tags ==> Lookup(d.links, t) == Some(a)
    case Accept(a, _, tags) => forall t :: t in tags ==> Lookup(d.links, t) == Some(a)
    case Link(_, p) => p !in d.links
    case _ => true
  }

  /** What the request layer lets through: at least one tag to join with, and only the two settable roles. */
  predicate WellFormed(op: Op) {
    && (op.Create? || op.Add? || op.Accept? ==> op.tags != {})
    && (op.SetRole? ==> op.role != Owner)
  }

  // ----- Each write keeps a good database good -----

  lemma {:induction false} PairsCount(c: Crew, tags: set<Player>)
    ensures |Pairs(c, tags)| == |tags|
  {
    if tags != {} {
      var t := Pick(tags);
      PairsCount(c, tags - {t});
      assert Pairs(c, tags) == Pairs(c, tags - {t}) + {Place(c, t)};
    }
  }

  lemma LimitStays(d: Tables, e: Tables)
    requires CrewLimit(d) && e.roles.Keys <= d.roles.Keys
    ensures CrewLimit(e)
  {
    forall a ensures |Memberships(e, a)| <= MAX_CREWS_PER_ACCOUNT { SubsetCount(Memberships(e, a), Memberships(d, a)); }
  }

  lemma OwnersStay(d: Tables, e: Tables)
    requires OneOwner(d) && e.sizes.Keys <= d.sizes.Keys
    requires forall c, a :: IsOwner(e, c, a) ==> IsOwner(d, c, a)
    requires forall c, a :: c in e.sizes && IsOwner(d, c, a) ==> IsOwner(e, c, a)
    ensures OneOwner(e)
  {
    forall c | c in e.sizes ensures exists a :: IsOwner(e, c, a) {
      var a :| IsOwner(d, c, a);
      assert IsOwner(e, c, a);
    }
  }

  lemma PlacesStayWithinSize(d: Tables, e: Tables, c: Crew)
    requires c in d.sizes && |PlacesOf(d, c)| <= d.sizes[c]
    requires c in e.sizes && e.sizes[c] == d.sizes[c] && e.places.Keys <= d.places.Keys
    ensures |PlacesOf(e, c)| <= e.sizes[c]
  {
    SubsetCount(PlacesOf(e, c), PlacesOf(d, c));
  }

  /** A member keeps a place when each of their places is still there. */
  lemma PlacedStays(d: Tables, e: Tables, m: Seat)
    requires HeldBy(d, m.crew, m.account) != {}
    requires forall k :: k in d.places && k.crew == m.crew && d.places[k] == m.account ==>
        k in e.places && e.places[k] == m.account
    ensures HeldBy(e, m.crew, m.account) != {}
  {
    var k :| k in HeldBy(d, m.crew, m.account);
    assert k in HeldBy(e, m.crew, m.account);
  }

  lemma MembersStay(d: Tables, e: Tables, out: Seat)
    requires MembersPlacedBut(d, out)
    requires forall m :: m in e.roles && e.roles[m] != Owner && m != out ==> m in d.roles && d.roles[m] != Owner
    requires forall k :: k in d.places && Seat(k.crew, d.places[k]) != out ==>
        k in e.places && e.places[k] == d.places[k]
    ensures MembersPlacedBut(e, out)
  {
    forall m | m in e.roles && e.roles[m] != Owner && m != out ensures HeldBy(e, m.crew, m.account) != {} {
      PlacedStays(d, e, m);
    }
  }

  // _add_places: the new places fit, and their holder is a member with a place.

  lemma PlacesFit(d: Tables, c: Crew, a: Account, tags: set<Player>)
    requires WithinSize(d) && c in d.sizes && |PlacesOf(d, c)| + |tags| <= d.sizes[c]
    ensures WithinSize(WithPlaces(d, c, a, tags))
  {
    var e := WithPlaces(d, c, a, tags);
    forall x | x in e.sizes ensures |PlacesOf(e, x)| <= e.sizes[x] {
      if x == c {
        PairsCount(c, tags);
        assert PlacesOf(e, c) == PlacesOf(d, c) + Pairs(c, tags);
      } else {
        assert PlacesOf(e, x) == PlacesOf(d, x);
      }
    }
  }

  lemma PlacesHeld(d: Tables, c: Crew, a: Account, tags: set<Player>)
    requires MembersPlacedBut(d, Seat(c, a)) && tags != {}
    requires forall t :: t in tags ==> Place(c, t) !in d.places
    ensures MembersPlaced(WithPlaces(d, c, a, tags))
  {
    var e := WithPlaces(d, c, a, tags);
    MembersStay(d, e, Seat(c, a));
    var t := Pick(tags);
    assert Place(c, t) in HeldBy(e, c, a);
  }

  lemma WithPlacesKeeps(d: Tables, c: Crew, a: Account, tags: set<Player>)
    requires AlmostGood(d, Seat(c, a)) && Seat(c, a) in d.roles && tags != {}
    requires |PlacesOf(d, c)| + |tags| <= d.sizes[c]
    requires forall t :: t in tags ==> Place(c, t) !in d.places && Lookup(d.links, t) == Some(a)
    ensures Good(WithPlaces(d, c, a, tags))
  {
    var e := WithPlaces(d, c, a, tags);
    assert CrewLimit(e) by { LimitStays(d, e); }
    assert OneOwner(e) by { OwnersStay(d, e); }
    assert WithinSize(e) by { PlacesFit(d, c, a, tags); }
    assert MembersPlaced(e) by { PlacesHeld(d, c, a, tags); }
  }

  lemma SeatAdded(d: Tables, e: Tables, seat: Seat, b: Account)
    requires e.roles.Keys == d.roles.Keys + {seat}
    ensures |Memberships(e, b)| <= |Memberships(d, b)| + if b == seat.account then 1 else 0
  {
    SubsetCount(Memberships(e, b) - {seat}, Memberships(d, b));
  }

  /** A new member: the one row the limit of five crews is about. */
  lemma JoinKeepsLimit(d: Tables, e: Tables, seat: Seat)
    requires CrewLimit(d) && |Memberships(d, seat.account)| < MAX_CREWS_PER_ACCOUNT
    requires e.roles.Keys == d.roles.Keys + {seat}
    ensures CrewLimit(e)
  {
    forall b ensures |Memberships(e, b)| <= MAX_CREWS_PER_ACCOUNT { SeatAdded(d, e, seat, b); }
  }

  function Joined(d: Tables, c: Crew, a: Account): Tables { d.(roles := d.roles[Seat(c, a) := Member]) }

  function Founded(d: Tables, c: Crew, a: Account, size: int): Tables {
    d.(sizes := d.sizes[c := size], roles := d.roles[Seat(c, a) := Owner])
  }

  lemma JoinedAlmostGood(d: Tables, c: Crew, a: Account)
    requires Good(d) && c in d.sizes && Seat(c, a) !in d.roles && |Memberships(d, a)| < MAX_CREWS_PER_ACCOUNT
    ensures AlmostGood(Joined(d, c, a), Seat(c, a))
  {
    var e := Joined(d, c, a);
    assert CrewLimit(e) by { JoinKeepsLimit(d, e, Seat(c, a)); }
    assert OneOwner(e) by { OwnersStay(d, e); }
    forall x | x in e.sizes ensures |PlacesOf(e, x)| <= e.sizes[x] { PlacesStayWithinSize(d, e, x); }
    assert MembersPlacedBut(e, Seat(c, a)) by { MembersStay(d, e, Seat(c, a)); }
  }

  lemma FoundedHasOwners(d: Tables, c: Crew, a: Account, size: int)
    requires ForeignKeys(d) && OneOwner(d) && c !in d.sizes
    ensures OneOwner(Founded(d, c, a, size))
  {
    var e := Founded(d, c, a, size);
    forall x, y, z | IsOwner(e, x, y) && IsOwner(e, x, z) ensures y == z {
      assert x != c ==> IsOwner(d, x, y) && IsOwner(d, x, z);
    }
    forall x | x in e.sizes ensures exists y :: IsOwner(e, x, y) {
      if x == c {
        assert IsOwner(e, c, a);
      } else {
        var y :| IsOwner(d, x, y);
        assert IsOwner(e, x, y);
      }
    }
  }

  lemma FoundedAlmostGood(d: Tables, c: Crew, a: Account, size: int)
    requires Good(d) && c !in d.sizes && |Memberships(d, a)| < MAX_CREWS_PER_ACCOUNT
    requires MIN_CREW_SIZE <= size <= MAX_CREW_SIZE
    ensures AlmostGood(Founded(d, c, a, size), Seat(c, a)) && PlacesOf(Founded(d, c, a, size), c) == {}
  {
    var e := Founded(d, c, a, size);
    assert PlacesOf(e, c) == {};
    assert CrewLimit(e) by { JoinKeepsLimit(d, e, Seat(c, a)); }
    assert OneOwner(e) by { FoundedHasOwners(d, c, a, size); }
    forall x | x in e.sizes ensures |PlacesOf(e, x)| <= e.sizes[x] { if x != c { PlacesStayWithinSize(d, e, x); } }
    assert MembersPlacedBut(e, Seat(c, a)) by { MembersStay(d, e, Seat(c, a)); }
  }

  // Places, members and crews that go.

  lemma ShrunkKeeps(d: Tables, e: Tables, out: Seat)
    requires AlmostGood(d, out) && ForeignKeys(e) && MembersPlaced(e)
    requires e.roles.Keys <= d.roles.Keys && e.places.Keys <= d.places.Keys
    requires e.sizes.Keys <= d.sizes.Keys && forall c :: c in e.sizes ==> e.sizes[c] == d.sizes[c]
    requires forall c, a :: IsOwner(e, c, a) ==> IsOwner(d, c, a)
    requires forall c, a :: c in e.sizes && IsOwner(d, c, a) ==> IsOwner(e, c, a)
    ensures Good(e)
  {
    assert CrewLimit(e) by { LimitStays(d, e); }
    assert OneOwner(e) by { OwnersStay(d, e); }
    forall x | x in e.sizes ensures |PlacesOf(e, x)| <= e.sizes[x] { PlacesStayWithinSize(d, e, x); }
  }

  lemma LeftMembersPlaced(d: Tables, gone: set<Place>)
    requires MembersPlaced(d)
    ensures MembersPlaced(WithoutPlaces(d, gone))
  {
    var e := WithoutPlaces(d, gone);
    forall m | m in e.roles && e.roles[m] != Owner ensures HeldBy(e, m.crew, m.account) != {} {
      var k :| k in HeldBy(d, m.crew, m.account);
      if k in gone {
        var left :| left in e.places && left.crew == m.crew && e.places[left] == m.account;
        assert left in HeldBy(e, m.crew, m.account);
      } else {
        assert k in HeldBy(e, m.crew, m.account);
      }
    }
  }

  lemma WithoutPlacesKeeps(d: Tables, gone: set<Place>)
    requires Good(d)
    ensures Good(WithoutPlaces(d, gone))
  {
    LeftMembersPlaced(d, gone);
    ShrunkKeeps(d, WithoutPlaces(d, gone), Seat(0, 0));
  }

  lemma WithoutMemberKeys(d: Tables, c: Crew, a: Account)
    requires ForeignKeys(d)
    ensures ForeignKeys(WithoutMember(d, c, a))
  {
    var e := WithoutMember(d, c, a);
    forall k | k in e.places ensures Seat(k.crew, e.places[k]) in e.roles {
      assert k in d.places && k !in HeldBy(d, c, a);
    }
  }

  lemma WithoutMemberKeeps(d: Tables, c: Crew, a: Account)
    requires AlmostGood(d, Seat(c, a)) && !IsOwner(d, c, a)
    ensures Good(WithoutMember(d, c, a))
  {
    assert MembersPlacedBut(WithoutMember(d, c, a), Seat(c, a)) by {
      MembersStay(d, WithoutMember(d, c, a), Seat(c, a));
    }
    WithoutMemberKeys(d, c, a);
    ShrunkKeeps(d, WithoutMember(d, c, a), Seat(c, a));
  }

  lemma WithoutCrewKeeps(d: Tables, c: Crew)
    requires Good(d)
    ensures Good(WithoutCrew(d, c))
  {
    var e := WithoutCrew(d, c);
    forall m | m in e.roles && e.roles[m] != Owner ensures HeldBy(e, m.crew, m.account) != {} { PlacedStays(d, e, m); }
    ShrunkKeeps(d, e, Seat(0, 0));
  }

  // Roles, sizes and links.

  lemma NewRoleKeeps(d: Tables, c: Crew, t: Account, role: Role)
    requires Good(d) && role != Owner && Seat(c, t) in d.roles && !IsOwner(d, c, t)
    ensures Good(d.(roles := d.roles[Seat(c, t) := role]))
  {
    var e := d.(roles := d.roles[Seat(c, t) := role]);
    forall m | m in e.roles && e.roles[m] != Owner ensures HeldBy(e, m.crew, m.account) != {} { PlacedStays(d, e, m); }
    ShrunkKeeps(d, e, Seat(0, 0));
  }

  lemma HandedHasOwners(d: Tables, c: Crew, a: Account, t: Account)
    requires OneOwner(d) && IsOwner(d, c, a) && !IsOwner(d, c, t)
    ensures OneOwner(Handed(d, c, a, t))
  {
    var e := Handed(d, c, a, t);
    forall x, y | IsOwner(e, x, y) ensures if x == c then y == t else IsOwner(d, x, y) {
      if x == c && y != t { assert y != a && IsOwner(d, c, y); }
    }
    forall x | x in e.sizes ensures exists y :: IsOwner(e, x, y) {
      var y :| IsOwner(d, x, y);
      assert IsOwner(e, x, if x == c then t else y);
    }
  }

  lemma HandedAlmostGood(d: Tables, c: Crew, a: Account, t: Account)
    requires Good(d) && IsOwner(d, c, a) && Seat(c, t) in d.roles && !IsOwner(d, c, t)
    ensures AlmostGood(Handed(d, c, a, t), Seat(c, a)) && !IsOwner(Handed(d, c, a, t), c, a)
  {
    var e := Handed(d, c, a, t);
    assert CrewLimit(e) by { LimitStays(d, e); }
    assert OneOwner(e) by { HandedHasOwners(d, c, a, t); }
    forall x | x in e.sizes ensures |PlacesOf(e, x)| <= e.sizes[x] { PlacesStayWithinSize(d, e, x); }
    assert MembersPlacedBut(e, Seat(c, a)) by { MembersStay(d, e, Seat(c, a)); }
  }

  lemma ResizeKeeps(d: Tables, c: Crew, size: int)
    requires Good(d) && c in d.sizes && |PlacesOf(d, c)| <= size && MIN_CREW_SIZE <= size <= MAX_CREW_SIZE
    ensures Good(d.(sizes := d.sizes[c := size]))
  {
    var e := d.(sizes := d.sizes[c := size]);
    assert CrewLimit(e) by { LimitStays(d, e); }
    assert OneOwner(e) by { OwnersStay(d, e); }
    forall x | x in e.sizes ensures PlacesOf(e, x) == PlacesOf(d, x) {}
    forall m | m in e.roles && e.roles[m] != Owner ensures HeldBy(e, m.crew, m.account) != {} { PlacedStays(d, e, m); }
  }

  lemma NewLinksKeep(d: Tables, links: map<Player, Account>)
    requires Good(d)
    requires forall k :: k in d.places ==> k.player in links && links[k.player] == d.places[k]
    ensures Good(d.(links := links))
  {
    var e := d.(links := links);
    forall m | m in e.roles && e.roles[m] != Owner ensures HeldBy(e, m.crew, m.account) != {} { PlacedStays(d, e, m); }
    ShrunkKeeps(d, e, Seat(0, 0));
  }

  /** A link that goes, or moves to another account, takes the player's places with it. */
  lemma LinkGoneKeeps(d: Tables, p: Player, links: map<Player, Account>)
    requires Good(d)
    requires forall x :: x != p && x in d.links ==> x in links && links[x] == d.links[x]
    ensures Good(WithoutPlaces(d, PlacesWith(d, p)).(links := links))
  {
    WithoutPlacesKeeps(d, PlacesWith(d, p));
    NewLinksKeep(WithoutPlaces(d, PlacesWith(d, p)), links);
  }

  /** The rules a write has passed when it is not refused, for the writes that add places. */
  predicate MayAdd(d: Tables, c: Crew, a: Account, tags: set<Player>) {
    && tags != {}
    && (forall t :: t in tags ==> Place(c, t) !in d.places && Lookup(d.links, t) == Some(a))
  }

  lemma AddingKeeps(d: Tables, op: Op, seen: Seen)
    requires Good(d) && (op.Create? || op.Add? || op.Accept?) && MayAdd(d, op.crew, op.caller, op.tags)
    requires seen.role == Lookup(d.roles, Seat(op.crew, op.caller)) && (op.Add? ==> seen.role.Some?)
    requires if op.Create? then op.crew !in d.sizes && |op.tags| <= op.size && MIN_CREW_SIZE <= op.size <= MAX_CREW_SIZE
             else op.crew in d.sizes && |PlacesOf(d, op.crew)| + |op.tags| <= d.sizes[op.crew]
    requires Joins(op, seen) ==> |Memberships(d, op.caller)| < MAX_CREWS_PER_ACCOUNT
    ensures Good(Effects(op, d, seen))
  {
    var a, c := op.caller, op.crew;
    if op.Create? {
      FoundedAlmostGood(d, c, a, op.size);
      WithPlacesKeeps(Founded(d, c, a, op.size), c, a, op.tags);
    } else if Joins(op, seen) {
      JoinedAlmostGood(d, c, a);
      assert PlacesOf(Joined(d, c, a), c) == PlacesOf(d, c);
      WithPlacesKeeps(Joined(d, c, a), c, a, op.tags);
    } else {
      WithPlacesKeeps(d, c, a, op.tags);
    }
  }

  /** The one member who might lack a place has one after all. */
  lemma PlacedIsGood(d: Tables, out: Seat)
    requires AlmostGood(d, out) && HeldBy(d, out.crew, out.account) != {}
    ensures Good(d)
  {}

  lemma HandOverKeeps(d: Tables, c: Crew, a: Account, t: Account)
    requires Good(d) && IsOwner(d, c, a) && Seat(c, t) in d.roles && !IsOwner(d, c, t)
    ensures Good(HandedOver(d, c, a, t))
  {
    var handed := Handed(d, c, a, t);
    assert AlmostGood(handed, Seat(c, a)) && !IsOwner(handed, c, a) by { HandedAlmostGood(d, c, a, t); }
    if HeldBy(handed, c, a) == {} {
      WithoutMemberKeeps(handed, c, a);
    } else {
      PlacedIsGood(handed, Seat(c, a));
    }
  }

  lemma JoinWriteKeeps(d: Tables, op: Op, tracked: set<Player>, crews: nat)
    requires Good(d) && WellFormed(op) && Constraints(op, d) && (op.Create? || op.Add? || op.Accept?)
    requires Decide(op, d, tracked, Read(op, d), crews) == None
    requires op.Create? ==> op.crew !in d.sizes
    requires Joins(op, Read(op, d)) ==> |Memberships(d, op.caller)| <= crews
    ensures Good(Effects(op, d, Read(op, d)))
  {
    AddingKeeps(d, op, Read(op, d));
  }

  lemma CrewWriteKeeps(d: Tables, op: Op, tracked: set<Player>, crews: nat)
    requires Good(d) && WellFormed(op) && Constraints(op, d)
    requires op.Resize? || op.Delete? || op.SetRole? || op.HandOver? || op.Leave?
    requires Decide(op, d, tracked, Read(op, d), crews) == None
    ensures Good(Effects(op, d, Read(op, d)))
  {
    match op
    case Resize(_, c, size) => ResizeKeeps(d, c, size);
    case Delete(_, c) => WithoutCrewKeeps(d, c);
    case SetRole(_, c, t, role) => NewRoleKeeps(d, c, t, role);
    case HandOver(a, c, t) => HandOverKeeps(d, c, a, t);
    case Leave(a, c) => WithoutMemberKeeps(d, c, a);
  }

  lemma PlayerWriteKeeps(d: Tables, op: Op)
    requires Good(d) && Constraints(op, d) && (op.Remove? || op.Unlink? || op.Transfer? || op.Link?)
    ensures Good(Effects(op, d, Read(op, d)))
  {
    match op
    case Remove(_, c, p) => WithoutPlacesKeeps(d, {Place(c, p)});
    case Unlink(_, p) => LinkGoneKeeps(d, p, d.links - {p});
    case Transfer(_, p, to) => LinkGoneKeeps(d, p, d.links[p := to]);
    case Link(a, p) => NewLinksKeep(d, d.links[p := a]);
  }

  /** A write that read the current rows and was not refused keeps every rule of the crew tables. */
  lemma WriteKeepsGood(d: Tables, op: Op, tracked: set<Player>, crews: nat)
    requires Good(d) && WellFormed(op) && Constraints(op, d)
    requires Decide(op, d, tracked, Read(op, d), crews) == None
    requires op.Create? ==> op.crew !in d.sizes
    requires Joins(op, Read(op, d)) ==> |Memberships(d, op.caller)| <= crews
    ensures Good(Effects(op, d, Read(op, d)))
  {
    if op.Create? || op.Add? || op.Accept? {
      JoinWriteKeeps(d, op, tracked, crews);
    } else if op.Remove? || op.Unlink? || op.Transfer? || op.Link? {
      PlayerWriteKeeps(d, op);
    } else {
      CrewWriteKeeps(d, op, tracked, crews);
    }
  }

  /** A whole write, run alone: what it answers. */
  ghost function Answer(d: Tables, op: Op, tracked: set<Player>): Option<Refusal> {
    Decide(op, d, tracked, Read(op, d), |Memberships(d, op.caller)|)
  }

  /**
   Accepting an invite with no tags would seat a member without a place: the write itself keeps
   "every member but the owner holds a place" exactly when a tag is given or the caller is
   already in the crew. The request layer refuses an empty list.
   */
  lemma AcceptSeatsMembersPlaced(d: Tables, op: Op, tracked: set<Player>)
    requires Good(d) && op.Accept? && Constraints(op, d) && Answer(d, op, tracked) == None
    ensures MembersPlaced(Effects(op, d, Read(op, d))) <==> op.tags != {} || Seat(op.crew, op.caller) in d.roles
  {
    var e := Effects(op, d, Read(op, d));
    if op.tags != {} {
      WriteKeepsGood(d, op, tracked, |Memberships(d, op.caller)|);
    } else if Seat(op.crew, op.caller) in d.roles {
      assert e.places == d.places;
      MembersStay(d, e, Seat(op.crew, op.caller));
      assert MembersPlacedBut(d, Seat(op.crew, op.caller));
      assert e == d;
    } else {
      assert HeldBy(e, op.crew, op.caller) == {} by {
        assert forall k :: k in d.places ==> Seat(k.crew, d.places[k]) in d.roles;
      }
      assert Seat(op.crew, op.caller) in e.roles && e.roles[Seat(op.crew, op.caller)] == Member;
    }
  }
}
