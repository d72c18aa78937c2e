/**
 A Season's last board takes the game's own order inside each run of equal trophies: the players
 with an official placement share the places they already hold, everyone else stays.
 */
module OfficialTies {
  import opened Sorting

  datatype Entry = Entry(player: int, trophies: int)

  type Placements = map<int, int>

  predicate Has(p: Placements, e: Entry) { e.player in p }

  function Rank(p: Placements, e: Entry): int { if e.player in p then p[e.player] else 0 }

  function Key(p: Placements): Entry -> int { (e: Entry) => Rank(p, e) }

  function Placed(s: seq<Entry>, p: Placements): seq<Entry> {
    if s == [] then [] else (if Has(p, s[0]) then [s[0]] else []) + Placed(s[1..], p)
  }

  /** The run with its placed entries' places filled from `official`, in order. */
  function Weave(run: seq<Entry>, official: seq<Entry>, p: Placements): seq<Entry>
    requires |official| == |Placed(run, p)|
  {
    if run == [] then []
    else if Has(p, run[0]) then [official[0]] + Weave(run[1..], official[1..], p)
    else [run[0]] + Weave(run[1..], official, p)
  }

  /** How long the run of equal trophies at the start is. */
  function RunLength(s: seq<Entry>): (k: nat)
    ensures k <= |s| && (s != [] ==> k >= 1)
  {
    if |s| <= 1 then |s| else if s[1].trophies == s[0].trophies then 1 + RunLength(s[1..]) else 1
  }

  function Official(run: seq<Entry>, p: Placements): (official: seq<Entry>)
    ensures |official| == |Placed(run, p)|
  {
    SortKeepsAll(Placed(run, p), Key(p));
    SortBy(Placed(run, p), Key(p))
  }

  function Follow(entries: seq<Entry>, p: Placements): seq<Entry>
    decreases |entries|
  {
    if entries == [] then []
    else
      var k := RunLength(entries);
      Weave(entries[..k], Official(entries[..k], p), p) + Follow(entries[k..], p)
  }

  // ----- One run -----

  lemma {:induction false} RunLengthIs(s: seq<Entry>, k: nat)
    requires 1 <= k <= |s| && (forall i :: 0 <= i < k ==> s[i].trophies == s[0].trophies)
    requires k < |s| ==> s[k].trophies != s[0].trophies
    ensures RunLength(s) == k
  {
    if k > 1 {
      assert s[1].trophies == s[0].trophies;
      RunLengthIs(s[1..], k - 1);
    }
  }

  lemma {:induction false} RunIsEqual(s: seq<Entry>)
    requires s != []
    ensures forall i :: 0 <= i < RunLength(s) ==> s[i].trophies == s[0].trophies
    ensures RunLength(s) < |s| ==> s[RunLength(s)].trophies != s[0].trophies
  {
    if |s| > 1 && s[1].trophies == s[0].trophies {
      RunIsEqual(s[1..]);
    }
  }

  lemma {:induction false} PlacedElements(s: seq<Entry>, p: Placements)
    ensures forall x :: x in Placed(s, p) <==> x in s && Has(p, x)
  {
    if s != [] {
      PlacedElements(s[1..], p);
      assert s == [s[0]] + s[1..];
    }
  }

  lemma {:induction false} WeaveLength(run: seq<Entry>, official: seq<Entry>, p: Placements)
    requires |official| == |Placed(run, p)|
    ensures |Weave(run, official, p)| == |run|
  {
    if run != [] {
      WeaveLength(run[1..], if Has(p, run[0]) then official[1..] else official, p);
    }
  }

  lemma {:induction false} WeaveOccurs(run: seq<Entry>, official: seq<Entry>, p: Placements, x: Entry)
    requires |official| == |Placed(run, p)|
    ensures Occurs(Weave(run, official, p), x) + Occurs(Placed(run, p), x) == Occurs(run, x) + Occurs(official, x)
  {
    if run != [] {
      if Has(p, run[0]) {
        WeaveOccurs(run[1..], official[1..], p, x);
        OccursConcat([official[0]], Weave(run[1..], official[1..], p), x);
        assert Placed(run, p) == [run[0]] + Placed(run[1..], p);
        OccursConcat([run[0]], Placed(run[1..], p), x);
      } else {
        WeaveOccurs(run[1..], official, p, x);
        OccursConcat([run[0]], Weave(run[1..], official, p), x);
        assert Placed(run, p) == Placed(run[1..], p);
      }
    }
  }

  /** A placed place holds the official entry of its turn; every other place keeps its entry. */
  lemma {:induction false} WeaveAt(run: seq<Entry>, official: seq<Entry>, p: Placements, i: nat)
    requires |official| == |Placed(run, p)| && i < |run|
    ensures |Weave(run, official, p)| == |run| && |Placed(run[..i], p)| <= |official|
    ensures Has(p, run[i]) ==>
        |Placed(run[..i], p)| < |official| && Weave(run, official, p)[i] == official[|Placed(run[..i], p)|]
    ensures !Has(p, run[i]) ==> Weave(run, official, p)[i] == run[i]
  {
    WeaveLength(run, official, p);
    if i > 0 {
      assert run[..i] == [run[0]] + run[1..][..i - 1];
      WeaveAt(run[1..], if Has(p, run[0]) then official[1..] else official, p, i - 1);
    }
  }

  lemma {:induction false} PlacedGrows(s: seq<Entry>, p: Placements, i: nat, j: nat)
    requires i < j <= |s| && Has(p, s[i])
    ensures |Placed(s[..i], p)| < |Placed(s[..j], p)|
  {
    if i > 0 {
      assert s[..i] == [s[0]] + s[1..][..i - 1] && s[..j] == [s[0]] + s[1..][..j - 1];
      PlacedGrows(s[1..], p, i - 1, j - 1);
    }
  }

  /** A list that fills exactly the run's placed places is the weave of its own placed entries. */
  lemma {:induction false} WeaveOf(run: seq<Entry>, w: seq<Entry>, p: Placements)
    requires |w| == |run|
    requires forall i :: 0 <= i < |run| ==> if Has(p, run[i]) then Has(p, w[i]) else w[i] == run[i]
    ensures |Placed(w, p)| == |Placed(run, p)| && Weave(run, Placed(w, p), p) == w
  {
    if run != [] {
      assert Has(p, run[0]) == Has(p, w[0]);
      WeaveOf(run[1..], w[1..], p);
      var rest := Placed(w[1..], p);
      if Has(p, w[0]) {
        assert Placed(w, p) == [w[0]] + rest && ([w[0]] + rest)[1..] == rest;
      } else {
        assert w[0] == run[0] && Placed(w, p) == rest;
      }
      assert [w[0]] + w[1..] == w;
    }
  }

  lemma {:induction false} PlacedOfWeave(run: seq<Entry>, official: seq<Entry>, p: Placements)
    requires |official| == |Placed(run, p)| && forall x :: x in official ==> Has(p, x)
    ensures Placed(Weave(run, official, p), p) == official
  {
    if run != [] {
      if Has(p, run[0]) {
        assert official == [official[0]] + official[1..];
        assert Has(p, official[0]);
        PlacedOfWeave(run[1..], official[1..], p);
        var rest := Weave(run[1..], official[1..], p);
        assert ([official[0]] + rest)[1..] == rest;
      } else {
        PlacedOfWeave(run[1..], official, p);
        var rest := Weave(run[1..], official, p);
        assert ([run[0]] + rest)[1..] == rest;
      }
    }
  }

  /** The run's placed places hold its placed entries, in the game's order. */
  lemma RunPlaces(run: seq<Entry>, p: Placements)
    ensures var w := Weave(run, Official(run, p), p);
      |w| == |run| && Placed(w, p) == Official(run, p) && Permutes(w, run)
  {
    var official := Official(run, p);
    SortKeepsAll(Placed(run, p), Key(p));
    PlacedElements(run, p);
    WeaveLength(run, official, p);
    assert forall x :: x in official ==> Has(p, x);
    PlacedOfWeave(run, official, p);
    forall x ensures Occurs(Weave(run, official, p), x) == Occurs(run, x) {
      WeaveOccurs(run, official, p, x);
      SortOccurs(Placed(run, p), Key(p), x);
    }
  }

  lemma RunAt(run: seq<Entry>, p: Placements, i: nat)
    requires i < |run| && forall m :: 0 <= m < |run| ==> run[m].trophies == run[0].trophies
    ensures var w := Weave(run, Official(run, p), p);
      && |w| == |run| && w[i].trophies == run[i].trophies
      && (if Has(p, run[i]) then Has(p, w[i]) else w[i] == run[i])
  {
    var official := Official(run, p);
    WeaveAt(run, official, p, i);
    SortKeepsAll(Placed(run, p), Key(p));
    PlacedElements(run, p);
    if Has(p, run[i]) {
      var x := official[|Placed(run[..i], p)|];
      assert x in multiset(official);
      assert x in Placed(run, p);
    }
  }

  lemma RunOrder(run: seq<Entry>, p: Placements, i: nat, j: nat)
    requires i < j < |run| && Has(p, run[i]) && Has(p, run[j])
    ensures var w := Weave(run, Official(run, p), p); |w| == |run| && Rank(p, w[i]) <= Rank(p, w[j])
  {
    var official := Official(run, p);
    WeaveAt(run, official, p, i);
    WeaveAt(run, official, p, j);
    PlacedGrows(run, p, i, j);
    SortOrders(Placed(run, p), Key(p));
    assert Key(p)(official[|Placed(run[..i], p)|]) <= Key(p)(official[|Placed(run[..j], p)|]);
  }

  // ----- The whole board -----

  /** Each place keeps its trophies, and every unplaced player their place. */
  lemma {:induction false} FollowAt(entries: seq<Entry>, p: Placements, i: nat)
    requires i < |entries|
    ensures |Follow(entries, p)| == |entries| && Follow(entries, p)[i].trophies == entries[i].trophies
    ensures if Has(p, entries[i]) then Has(p, Follow(entries, p)[i]) else Follow(entries, p)[i] == entries[i]
    decreases |entries|
  {
    var k := RunLength(entries);
    RunIsEqual(entries);
    RunPlaces(entries[..k], p);
    FollowLength(entries[k..], p);
    if i < k {
      RunAt(entries[..k], p, i);
    } else {
      FollowAt(entries[k..], p, i - k);
    }
  }

  lemma {:induction false} FollowLength(entries: seq<Entry>, p: Placements)
    ensures |Follow(entries, p)| == |entries|
    decreases |entries|
  {
    if entries != [] {
      WeaveLength(entries[..RunLength(entries)], Official(entries[..RunLength(entries)], p), p);
      FollowLength(entries[RunLength(entries)..], p);
    }
  }

  lemma {:induction false} FollowOccurs(entries: seq<Entry>, p: Placements, x: Entry)
    ensures Occurs(Follow(entries, p), x) == Occurs(entries, x)
    decreases |entries|
  {
    if entries != [] {
      var k := RunLength(entries);
      var run, rest := entries[..k], entries[k..];
      FollowOccurs(rest, p, x);
      OccursConcat(Weave(run, Official(run, p), p), Follow(rest, p), x);
      assert Occurs(Weave(run, Official(run, p), p), x) == Occurs(run, x) by { RunPlaces(run, p); }
      assert Occurs(entries, x) == Occurs(run, x) + Occurs(rest, x) by {
        OccursConcat(run, rest, x);
        assert entries == run + rest;
      }
    }
  }

  /**
   The result is a permutation of the board that leaves the trophies at every place and every
   unplaced player as they were.
   */
  lemma FollowKeepsPlaces(entries: seq<Entry>, p: Placements)
    ensures var r := Follow(entries, p);
      && |r| == |entries| && Permutes(r, entries)
      && forall i :: 0 <= i < |r| ==>
           r[i].trophies == entries[i].trophies && (if Has(p, entries[i]) then Has(p, r[i]) else r[i] == entries[i])
  {
    FollowLength(entries, p);
    forall x ensures Occurs(Follow(entries, p), x) == Occurs(entries, x) { FollowOccurs(entries, p, x); }
    forall i | 0 <= i < |entries|
      ensures Follow(entries, p)[i].trophies == entries[i].trophies
      ensures if Has(p, entries[i]) then Has(p, Follow(entries, p)[i]) else Follow(entries, p)[i] == entries[i]
    {
      FollowAt(entries, p, i);
    }
  }

  /** Past the first run the board is the rest's. */
  lemma FollowTail(entries: seq<Entry>, p: Placements, i: nat)
    requires RunLength(entries) <= i < |entries|
    ensures |Follow(entries, p)| == |entries|
    ensures |Follow(entries[RunLength(entries)..], p)| == |entries| - RunLength(entries)
    ensures Follow(entries, p)[i] == Follow(entries[RunLength(entries)..], p)[i - RunLength(entries)]
  {
    var k := RunLength(entries);
    FollowLength(entries, p);
    FollowLength(entries[k..], p);
    RunPlaces(entries[..k], p);
  }

  lemma FollowHead(entries: seq<Entry>, p: Placements, i: nat)
    requires entries != [] && i < RunLength(entries)
    ensures |Follow(entries, p)| == |entries|
    ensures var run := entries[..RunLength(entries)]; var w := Weave(run, Official(run, p), p);
      |w| == |run| && Follow(entries, p)[i] == w[i]
  {
    FollowLength(entries, p);
    RunPlaces(entries[..RunLength(entries)], p);
  }

  /** Placed players of one tie stand in the game's order. */
  lemma {:induction false} FollowOrdersTies(entries: seq<Entry>, p: Placements, i: nat, j: nat)
    requires i < j < |entries| && forall m :: i <= m <= j ==> entries[m].trophies == entries[i].trophies
    requires Has(p, entries[i]) && Has(p, entries[j])
    ensures |Follow(entries, p)| == |entries| && Rank(p, Follow(entries, p)[i]) <= Rank(p, Follow(entries, p)[j])
    decreases |entries|
  {
    var k := RunLength(entries);
    RunIsEqual(entries);
    assert i <= k <= j ==> entries[k].trophies == entries[i].trophies;
    if i < k {
      RunOrder(entries[..k], p, i, j);
      FollowHead(entries, p, i);
      FollowHead(entries, p, j);
    } else {
      FollowOrdersTies(entries[k..], p, i - k, j - k);
      FollowTail(entries, p, i);
      FollowTail(entries, p, j);
    }
  }

  /** Of two placed players of a tie the one the game placed first stands first. */
  lemma TiesInGameOrder(entries: seq<Entry>, p: Placements, i: nat, j: nat)
    requires i < j < |entries| && forall m :: i <= m <= j ==> entries[m].trophies == entries[i].trophies
    requires entries[i].player in p && entries[j].player in p
    ensures var r := Follow(entries, p);
      && |r| == |entries| && r[i].player in p && r[j].player in p && p[r[i].player] <= p[r[j].player]
      && r[i].trophies == r[j].trophies == entries[i].trophies
  {
    FollowKeepsPlaces(entries, p);
    FollowOrdersTies(entries, p, i, j);
  }

  lemma {:induction false} FollowIsIdempotent(entries: seq<Entry>, p: Placements)
    ensures Follow(Follow(entries, p), p) == Follow(entries, p)
    decreases |entries|
  {
    if entries != [] {
      var k := RunLength(entries);
      RunIsEqual(entries);
      var run, rest := entries[..k], Follow(entries[k..], p);
      var w := Weave(run, Official(run, p), p);
      RunPlaces(run, p);
      forall i | 0 <= i < k ensures w[i].trophies == run[0].trophies { RunAt(run, p, i); }
      if k < |entries| { FollowAt(entries[k..], p, 0); }
      FollowLength(entries[k..], p);
      FollowIsIdempotent(entries[k..], p);
      RunLengthIs(w + rest, k);
      assert (w + rest)[..k] == w && (w + rest)[k..] == rest;
      SortOrders(Placed(run, p), Key(p));
      SortOfOrdered(Official(run, p), Key(p));
      WeaveOf(w, w, p);
    }
  }

  // ----- The only such board -----

  predicate Sorted(entries: seq<Entry>) {
    forall i, j :: 0 <= i < j < |entries| ==> entries[i].trophies >= entries[j].trophies
  }

  predicate DistinctRanks(entries: seq<Entry>, p: Placements) {
    forall i, j :: 0 <= i < j < |entries| && Has(p, entries[i]) && Has(p, entries[j]) ==>
        Rank(p, entries[i]) != Rank(p, entries[j])
  }

  /**
   A board of the same entries with the same trophies at each place, unplaced players in place and
   ties in the game's order.
   */
  ghost predicate Follows(r: seq<Entry>, entries: seq<Entry>, p: Placements) {
    && |r| == |entries| && AllDistinct(r) && (forall x :: x in r <==> x in entries)
    && (forall i :: 0 <= i < |r| ==>
         r[i].trophies == entries[i].trophies && (!Has(p, entries[i]) ==> r[i] == entries[i]))
    && (forall i, j :: 0 <= i < j < |r| && r[i].trophies == r[j].trophies && Has(p, r[i]) && Has(p, r[j]) ==>
          Rank(p, r[i]) <= Rank(p, r[j]))
  }

  /** No unplaced entry stands in a placed one's place. */
  lemma PlacesStayPlaced(r: seq<Entry>, entries: seq<Entry>, p: Placements, i: nat)
    requires Follows(r, entries, p) && i < |r| && Has(p, entries[i])
    ensures Has(p, r[i])
  {
    assert r[i] in r;
    var j :| 0 <= j < |entries| && entries[j] == r[i];
    assert r[j] == entries[j] || Has(p, entries[j]);
  }

  /** In a sorted board, the first run holds exactly the entries with its trophies. */
  lemma InFirstRun(r: seq<Entry>, k: nat, x: Entry)
    requires Sorted(r) && r != [] && k == RunLength(r)
    ensures x in r[..k] <==> x in r && x.trophies == r[0].trophies
    ensures x in r[k..] <==> x in r && x.trophies != r[0].trophies
  {
    RunIsEqual(r);
    assert r == r[..k] + r[k..];
    if x in r[k..] {
      var i :| 0 <= i < |r[k..]| && r[k..][i] == x;
      assert r[k].trophies >= r[k + i].trophies;
    }
  }

  lemma {:induction false} PlacedDistinct(s: seq<Entry>, p: Placements)
    requires DistinctRanks(s, p)
    ensures DistinctKeys(Placed(s, p), Key(p))
  {
    if s != [] {
      PlacedDistinct(s[1..], p);
      PlacedElements(s[1..], p);
      var rest := Placed(s[1..], p);
      if Has(p, s[0]) {
        forall i | 0 <= i < |rest| ensures Rank(p, s[0]) != Rank(p, rest[i]) {
          assert rest[i] in rest && rest[i] in s[1..];
          var j :| 0 <= j < |s[1..]| && s[1..][j] == rest[i];
          assert s[j + 1] == rest[i];
        }
      }
    }
  }

  lemma {:induction false} PlacedOrdered(s: seq<Entry>, p: Placements)
    requires forall i, j :: 0 <= i < j < |s| && Has(p, s[i]) && Has(p, s[j]) ==> Rank(p, s[i]) <= Rank(p, s[j])
    ensures Ordered(Placed(s, p), Key(p))
  {
    if s != [] {
      PlacedOrdered(s[1..], p);
      PlacedElements(s[1..], p);
      var rest := Placed(s[1..], p);
      if Has(p, s[0]) {
        forall i | 0 <= i < |rest| ensures Rank(p, s[0]) <= Rank(p, rest[i]) {
          assert rest[i] in rest && rest[i] in s[1..];
          var j :| 0 <= j < |s[1..]| && s[1..][j] == rest[i];
          assert s[j + 1] == rest[i];
        }
      }
    }
  }

  lemma SameRanks(r: seq<Entry>, entries: seq<Entry>, p: Placements)
    requires DistinctRanks(entries, p) && AllDistinct(r) && forall x :: x in r ==> x in entries
    ensures DistinctRanks(r, p)
  {
    forall i, j | 0 <= i < j < |r| && Has(p, r[i]) && Has(p, r[j]) ensures Rank(p, r[i]) != Rank(p, r[j]) {
      assert r[i] in entries && r[j] in entries;
      var a :| 0 <= a < |entries| && entries[a] == r[i];
      var b :| 0 <= b < |entries| && entries[b] == r[j];
    }
  }

  /** Both parts of a board that follows, cut after the first run, follow. */
  lemma PartsFollow(r: seq<Entry>, entries: seq<Entry>, p: Placements, k: nat)
    requires Sorted(entries) && entries != [] && k == RunLength(entries) && Follows(r, entries, p)
    ensures Follows(r[..k], entries[..k], p) && Follows(r[k..], entries[k..], p)
  {
    RunIsEqual(entries);
    RunLengthIs(r, k);
    assert Sorted(r);
    forall x ensures (x in r[..k] <==> x in entries[..k]) && (x in r[k..] <==> x in entries[k..]) {
      InFirstRun(r, k, x);
      InFirstRun(entries, k, x);
    }
  }

  lemma PartsDistinct(entries: seq<Entry>, p: Placements, k: nat)
    requires k <= |entries| && Sorted(entries) && AllDistinct(entries) && DistinctRanks(entries, p)
    ensures Sorted(entries[k..]) && AllDistinct(entries[k..]) && DistinctRanks(entries[k..], p)
  {}

  /** The first run of a board that follows is woven from its placed entries in the game's order. */
  lemma HeadOnly(r: seq<Entry>, entries: seq<Entry>, p: Placements, k: nat)
    requires Sorted(entries) && AllDistinct(entries) && DistinctRanks(entries, p) && Follows(r, entries, p)
    requires entries != [] && k == RunLength(entries)
    ensures r[..k] == Weave(entries[..k], Official(entries[..k], p), p)
  {
    RunIsEqual(entries);
    PartsFollow(r, entries, p, k);
    OneRunOnly(r[..k], entries[..k], p);
  }

  /** With distinct players and placements there is only one such board. */
  lemma {:induction false} OnlyFollow(r: seq<Entry>, entries: seq<Entry>, p: Placements)
    requires Sorted(entries) && AllDistinct(entries) && DistinctRanks(entries, p) && Follows(r, entries, p)
    ensures r == Follow(entries, p)
    decreases |entries|
  {
    if entries != [] {
      var k := RunLength(entries);
      HeadOnly(r, entries, p, k);
      PartsFollow(r, entries, p, k);
      PartsDistinct(entries, p, k);
      OnlyFollow(r[k..], entries[k..], p);
      assert r == r[..k] + r[k..];
    }
  }

  lemma OneRunOnly(r: seq<Entry>, run: seq<Entry>, p: Placements)
    requires AllDistinct(run) && DistinctRanks(run, p) && Follows(r, run, p)
    requires forall i :: 0 <= i < |run| ==> run[i].trophies == run[0].trophies
    ensures r == Weave(run, Official(run, p), p)
  {
    forall i | 0 <= i < |run| ensures if Has(p, run[i]) then Has(p, r[i]) else r[i] == run[i] {
      if Has(p, run[i]) { PlacesStayPlaced(r, run, p, i); }
    }
    WeaveOf(run, r, p);
    SameRanks(r, run, p);
    PlacedDistinct(r, p);
    PlacedOrdered(r, p);
    PlacedDistinct(run, p);
    SortOrdersStrictly(Placed(run, p), Key(p));
    PlacedElements(r, p);
    PlacedElements(run, p);
    SortKeepsAll(Placed(run, p), Key(p));
    OneStrictOrder(Placed(r, p), Official(run, p), Key(p));
  }

  // ----- The loop -----

  lemma {:induction false} PlacedConcat(a: seq<Entry>, b: seq<Entry>, p: Placements)
    ensures Placed(a + b, p) == Placed(a, p) + Placed(b, p)
  {
    if a == [] {
      assert a + b == b;
    } else {
      PlacedConcat(a[1..], b, p);
      assert (a + b)[1..] == a[1..] + b;
      var first := if Has(p, a[0]) then [a[0]] else [];
      assert first + (Placed(a[1..], p) + Placed(b, p)) == (first + Placed(a[1..], p)) + Placed(b, p);
    }
  }

  lemma PlacedStep(run: seq<Entry>, i: nat, p: Placements)
    requires i < |run|
    ensures Placed(run[..i + 1], p) == Placed(run[..i], p) + if Has(p, run[i]) then [run[i]] else []
  {
    PlacedConcat(run[..i], [run[i]], p);
    assert run[..i + 1] == run[..i] + [run[i]];
  }

  /** `places` lists where the run's placed entries stand, in order. */
  predicate Lists(places: seq<nat>, run: seq<Entry>, i: nat, p: Placements)
    requires i <= |run|
  {
    && |places| == |Placed(run[..i], p)|
    && (forall m :: 0 <= m < |places| ==> places[m] < i && Has(p, run[places[m]]) && |Placed(run[..places[m]], p)| == m)
    && (forall q :: 0 <= q < i && Has(p, run[q]) ==>
         |Placed(run[..q], p)| < |places| && places[|Placed(run[..q], p)|] == q)
  }

  /** The run's placed places, and the entries that stand in them. */
  method Collect(run: seq<Entry>, p: Placements) returns (places: seq<nat>, official: seq<Entry>)
    ensures official == Placed(run, p) && Lists(places, run, |run|, p)
  {
    places, official := [], [];
    for i := 0 to |run|
      invariant official == Placed(run[..i], p) && Lists(places, run, i, p)
    {
      PlacedStep(run, i, p);
      if Has(p, run[i]) {
        places, official := places + [i], official + [run[i]];
      }
    }
    assert run[..|run|] == run;
  }

  /** What the run's place q holds once the first m official entries are back. */
  function Filled(run: seq<Entry>, official: seq<Entry>, m: nat, p: Placements, q: nat): Entry
    requires q < |run| && m <= |official|
  {
    if Has(p, run[q]) && |Placed(run[..q], p)| < m then official[|Placed(run[..q], p)|] else run[q]
  }

  lemma FilledStep(run: seq<Entry>, places: seq<nat>, official: seq<Entry>, m: nat, p: Placements, q: nat)
    requires Lists(places, run, |run|, p) && |official| == |places| && m < |places| && q < |run|
    ensures Filled(run, official, m + 1, p, q) == if q == places[m] then official[m] else Filled(run, official, m, p, q)
  {
    assert Has(p, run[q]) ==> places[|Placed(run[..q], p)|] == q;
    assert Has(p, run[places[m]]) && |Placed(run[..places[m]], p)| == m;
  }

  /** Puts the official entries into the listed places of the run at `start`. */
  method Fill(ordered: array<Entry>, start: nat, ghost run: seq<Entry>, places: seq<nat>, official: seq<Entry>,
          p: Placements)
    requires start + |run| <= ordered.Length && ordered[start..start + |run|] == run
    requires Lists(places, run, |run|, p) && |official| == |places|
    modifies ordered
    ensures forall q :: 0 <= q < |run| ==> ordered[start + q] == Filled(run, official, |official|, p, q)
    ensures forall i :: 0 <= i < ordered.Length && !(start <= i < start + |run|) ==> ordered[i] == old(ordered[i])
  {
    for m := 0 to |places|
      invariant forall q :: 0 <= q < |run| ==> ordered[start + q] == Filled(run, official, m, p, q)
      invariant forall i :: 0 <= i < ordered.Length && !(start <= i < start + |run|) ==> ordered[i] == old(ordered[i])
    {
      ghost var before := ordered[..];
      ordered[start + places[m]] := official[m];
      ghost var next := m + 1;
      forall q | 0 <= q < |run| ensures ordered[start + q] == Filled(run, official, next, p, q) {
        FilledStep(run, places, official, m, p, q);
        assert before[start + q] == Filled(run, official, m, p, q);
      }
    }
  }

  lemma FilledIsWeave(run: seq<Entry>, official: seq<Entry>, p: Placements, q: nat)
    requires |official| == |Placed(run, p)| && q < |run|
    ensures |Weave(run, official, p)| == |run| && Filled(run, official, |official|, p, q) == Weave(run, official, p)[q]
  {
    WeaveAt(run, official, p, q);
  }

  /** The board once the run's places hold what they are to hold. */
  lemma AllFilled(before: seq<Entry>, after: seq<Entry>, start: nat, end: nat, official: seq<Entry>, p: Placements)
    requires start <= end <= |before| == |after| && |official| == |Placed(before[start..end], p)|
    requires forall q :: 0 <= q < end - start ==>
               after[start + q] == Filled(before[start..end], official, |official|, p, q)
    requires forall i :: 0 <= i < |before| && !(start <= i < end) ==> after[i] == before[i]
    ensures after[..end] == before[..start] + Weave(before[start..end], official, p)
    ensures after[end..] == before[end..]
  {
    var run := before[start..end];
    WeaveLength(run, official, p);
    forall q | 0 <= q < |run| ensures after[start..end][q] == Weave(run, official, p)[q] {
      FilledIsWeave(run, official, p, q);
    }
    assert after[start..end] == Weave(run, official, p);
    assert after[..start] == before[..start];
    assert after[..end] == after[..start] + after[start..end];
  }

  /** One run, in place: its placed entries, sorted, go back into the places they were taken from. */
  method OrderRun(ordered: array<Entry>, start: nat, end: nat, p: Placements)
    requires start < end <= ordered.Length
    modifies ordered
    ensures var run := old(ordered[start..end]);
      ordered[..end] == old(ordered[..start]) + Weave(run, Official(run, p), p)
    ensures ordered[end..] == old(ordered[end..])
  {
    var run := ordered[start..end];
    var places, placed := Collect(run, p);
    assert run[..|run|] == run;
    var official := Official(run, p);
    ghost var before := ordered[..];
    Fill(ordered, start, run, places, official, p);
    AllFilled(before, ordered[..], start, end, official, p);
  }

  lemma FollowCut(entries: seq<Entry>, p: Placements, done: seq<Entry>, start: nat, end: nat)
    requires start < end <= |entries| && end - start == RunLength(entries[start..])
    requires Follow(entries, p) == done + Follow(entries[start..], p)
    ensures Follow(entries, p)
        == done + Weave(entries[start..end], Official(entries[start..end], p), p) + Follow(entries[end..], p)
  {
    var left := entries[start..];
    assert left[..end - start] == entries[start..end] && left[end - start..] == entries[end..];
    FirstRun(left, p);
    var w, f := Weave(entries[start..end], Official(entries[start..end], p), p), Follow(entries[end..], p);
    assert done + (w + f) == (done + w) + f;
  }

  lemma FirstRun(left: seq<Entry>, p: Placements)
    requires left != []
    ensures var k := RunLength(left);
      Follow(left, p) == Weave(left[..k], Official(left[..k], p), p) + Follow(left[k..], p)
  {}

  /** Where the run of equal trophies that begins at `start` ends. */
  method RunEnd(ordered: array<Entry>, start: nat) returns (end: nat)
    requires start < ordered.Length
    ensures start < end <= ordered.Length && end - start == RunLength(ordered[start..])
  {
    end := start + 1;
    while end < ordered.Length && ordered[end].trophies == ordered[start].trophies
      invariant start < end <= ordered.Length && forall i :: start <= i < end ==>
          ordered[i].trophies == ordered[start].trophies
    {
      end := end + 1;
    }
    RunLengthIs(ordered[start..], end - start);
  }

  /** What is done is what following gives so far; the rest of the board is still as it came. */
  ghost predicate DoneTo(ordered: array<Entry>, start: nat, entries: seq<Entry>, p: Placements)
    reads ordered
  {
    && start <= ordered.Length == |entries| && ordered[start..] == entries[start..]
    && Follow(entries, p) == ordered[..start] + Follow(entries[start..], p)
  }

  method NextRun(ordered: array<Entry>, start: nat, ghost entries: seq<Entry>, p: Placements) returns (end: nat)
    requires start < ordered.Length && DoneTo(ordered, start, entries, p)
    modifies ordered
    ensures start < end <= ordered.Length && DoneTo(ordered, end, entries, p)
  {
    end := RunEnd(ordered, start);
    ghost var run, done := ordered[start..end], ordered[..start];
    assert run == entries[start..end] && ordered[end..] == entries[end..] by {
      assert ordered[start..][..end - start] == run && ordered[start..][end - start..] == ordered[end..];
    }
    FollowCut(entries, p, done, start, end);
    OrderRun(ordered, start, end, p);
  }

  /** The loop over runs, in place in a copy of the board. */
  method FollowOfficialTies(entries: seq<Entry>, p: Placements) returns (result: seq<Entry>)
    ensures result == Follow(entries, p)
  {
    var ordered := new Entry[|entries|](i requires 0 <= i < |entries| => entries[i]);
    var start := 0;
    while start < ordered.Length
      invariant DoneTo(ordered, start, entries, p)
    {
      start := NextRun(ordered, start, entries, p);
    }
    result := ordered[..];
  }
}
