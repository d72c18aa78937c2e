/**
 The boards' order: trophies, then average attack destruction compared as exact fractions, then
 attacks, then the tag hash, then the tag; and the database's order with rounded quotients.
 */
module TieOrder {

  /** `attacks` and `destruction` are the Season's counts, zero-star attacks included. */
  datatype Player = Player(trophies: int, attacks: int, destruction: int, tag: string)

  /** MD5 of the normalized tag, left abstract. */
  type Hash = string -> string

  /** The order of strings by their characters. */
  predicate Before(a: string, b: string) {
    b != [] && (a == [] || a[0] < b[0] || (a[0] == b[0] && Before(a[1..], b[1..])))
  }

  /** At the first place where they differ the smaller character comes first, or one ends there and is first. */
  lemma {:induction false} BeforeExactly(a: string, b: string)
    ensures Before(a, b) <==>
              exists k :: 0 <= k <= |a| && k < |b| && a[..k] == b[..k] && (k == |a| || a[k] < b[k])
  {
    if Before(a, b) {
      var k := FirstDifference(a, b);
    } else {
      forall k | 0 <= k <= |a| && k < |b| && a[..k] == b[..k] ensures !(k == |a| || a[k] < b[k]) {
        if k == |a| || a[k] < b[k] { DifferenceDecides(a, b, k); }
      }
    }
  }

  lemma {:induction false} FirstDifference(a: string, b: string) returns (k: nat)
    requires Before(a, b)
    ensures k <= |a| && k < |b| && a[..k] == b[..k] && (k == |a| || a[k] < b[k])
  {
    k := 0;
    if a != [] && a[0] == b[0] {
      var rest := FirstDifference(a[1..], b[1..]);
      k := rest + 1;
      assert a[..k] == [a[0]] + a[1..][..rest] && b[..k] == [b[0]] + b[1..][..rest];
    }
  }

  lemma {:induction false} DifferenceDecides(a: string, b: string, k: nat)
    requires k <= |a| && k < |b| && a[..k] == b[..k] && (k == |a| || a[k] < b[k])
    ensures Before(a, b)
  {
    if k > 0 {
      assert a[0] == a[..k][0] && b[0] == b[..k][0];
      assert a[1..][..k - 1] == a[..k][1..] && b[1..][..k - 1] == b[..k][1..];
      DifferenceDecides(a[1..], b[1..], k - 1);
    }
  }

  predicate NoAttacks(p: Player) { p.attacks <= 0 }

  function Average(p: Player): real
    requires !NoAttacks(p)
  {
    p.destruction as real / p.attacks as real
  }

  /** The last ties: the tag hash, then the tag. */
  predicate TagBefore(hash: Hash, a: string, b: string) {
    if hash(a) != hash(b) then Before(hash(a), hash(b)) else Before(a, b)
  }

  /** The terms below the average destruction. */
  predicate TermsBelow(hash: Hash, p: Player, q: Player) {
    if p.attacks != q.attacks then p.attacks > q.attacks else TagBefore(hash, p.tag, q.tag)
  }

  /** tie_order_key, below trophies. */
  predicate Less(hash: Hash, p: Player, q: Player) {
    if p.trophies != q.trophies then p.trophies > q.trophies
    else if NoAttacks(p) != NoAttacks(q) then NoAttacks(q)
    else if NoAttacks(p) then TagBefore(hash, p.tag, q.tag)
    else if Average(p) != Average(q) then Average(p) > Average(q)
    else TermsBelow(hash, p, q)
  }

  lemma AveragesCross(d: int, a: int, e: int, b: int)
    requires a > 0 && b > 0
    ensures d as real / a as real > e as real / b as real <==> d * b > e * a
    ensures d as real / a as real == e as real / b as real <==> d * b == e * a
  {
    Cross(d, a, e, b);
    var gap := d as real / a as real - e as real / b as real;
    assert a * b > 0;
    if gap > 0.0 { assert gap * (a * b) as real > 0.0; }
    if gap < 0.0 { assert gap * (a * b) as real < 0.0; }
  }

  /**
   The board's order in whole numbers: more trophies first; then players who attacked; of two who
   did, the more destruction for each attack, then the more attacks; then the smaller tag hash, and
   at last the smaller tag.
   */
  lemma LessExactly(hash: Hash, p: Player, q: Player)
    ensures Less(hash, p, q) <==>
              || p.trophies > q.trophies
              || (p.trophies == q.trophies &&
                   (|| (p.attacks > 0 && q.attacks <= 0)
                    || (p.attacks > 0 && q.attacks > 0 && p.destruction * q.attacks > q.destruction * p.attacks)
                    || (p.attacks > 0 && q.attacks > 0 && p.destruction * q.attacks == q.destruction * p.attacks
                        && p.attacks > q.attacks)
                    || (((p.attacks <= 0 && q.attacks <= 0)
                         || (p.attacks > 0 && p.attacks == q.attacks && p.destruction == q.destruction))
                        && (Before(hash(p.tag), hash(q.tag)) || (hash(p.tag) == hash(q.tag) && Before(p.tag, q.tag))))))
  {
    BeforeIsIrreflexive(hash(p.tag));
    if p.attacks > 0 && q.attacks > 0 {
      AveragesCross(p.destruction, p.attacks, q.destruction, q.attacks);
      SameDestruction(p.destruction, q.destruction, p.attacks);
    }
  }

  lemma SameDestruction(d: int, e: int, attacks: int)
    requires attacks > 0
    ensures d * attacks == e * attacks <==> d == e
  {
    if d < e { assert (e - d) * attacks > 0; }
    if e < d { assert (d - e) * attacks > 0; }
  }

  // ----- A strict total order -----

  lemma {:induction false} BeforeIsStrict(a: string, b: string)
    ensures !(Before(a, b) && Before(b, a)) && (Before(a, b) || Before(b, a) || a == b) && !Before(a, a)
  {
    if a != [] && b != [] && a[0] == b[0] {
      BeforeIsStrict(a[1..], b[1..]);
      assert a == [a[0]] + a[1..] && b == [b[0]] + b[1..];
    }
    if a != [] { BeforeIsIrreflexive(a); }
  }

  lemma {:induction false} BeforeIsIrreflexive(a: string)
    ensures !Before(a, a)
  {
    if a != [] { BeforeIsIrreflexive(a[1..]); }
  }

  lemma {:induction false} BeforeGoesOn(a: string, b: string, c: string)
    requires Before(a, b) && Before(b, c)
    ensures Before(a, c)
  {
    if a != [] && a[0] == b[0] && b[0] == c[0] {
      BeforeGoesOn(a[1..], b[1..], c[1..]);
    }
  }

  lemma TagBeforeIsStrict(hash: Hash, a: string, b: string)
    ensures !(TagBefore(hash, a, b) && TagBefore(hash, b, a))
        && (TagBefore(hash, a, b) || TagBefore(hash, b, a) || a == b)
    ensures !TagBefore(hash, a, a)
  {
    BeforeIsStrict(hash(a), hash(b));
    BeforeIsStrict(a, b);
    BeforeIsIrreflexive(a);
  }

  lemma TagBeforeGoesOn(hash: Hash, a: string, b: string, c: string)
    requires TagBefore(hash, a, b) && TagBefore(hash, b, c)
    ensures TagBefore(hash, a, c)
  {
    if hash(a) == hash(b) && hash(b) == hash(c) {
      BeforeGoesOn(a, b, c);
    } else if hash(a) != hash(b) && hash(b) != hash(c) {
      BeforeGoesOn(hash(a), hash(b), hash(c));
      BeforeIsIrreflexive(hash(a));
      BeforeIsStrict(hash(a), hash(b));
    }
  }

  /** Of two players with different tags exactly one comes first, and no player before itself. */
  lemma LessIsStrict(hash: Hash, p: Player, q: Player)
    ensures !Less(hash, p, p) && !(Less(hash, p, q) && Less(hash, q, p))
    ensures p.tag != q.tag ==> Less(hash, p, q) || Less(hash, q, p)
  {
    TagBeforeIsStrict(hash, p.tag, q.tag);
  }

  lemma LessGoesOn(hash: Hash, p: Player, q: Player, r: Player)
    requires Less(hash, p, q) && Less(hash, q, r)
    ensures Less(hash, p, r)
  {
    if TagBefore(hash, p.tag, q.tag) && TagBefore(hash, q.tag, r.tag) {
      TagBeforeGoesOn(hash, p.tag, q.tag, r.tag);
    }
  }

  // ----- The board does not depend on the order its rows came in -----

  function Insert(hash: Hash, p: Player, board: seq<Player>): seq<Player> {
    if board == [] then [p]
    else if Less(hash, board[0], p) then [board[0]] + Insert(hash, p, board[1..])
    else [p] + board
  }

  function Sorted(hash: Hash, rows: seq<Player>): seq<Player> {
    if rows == [] then [] else Insert(hash, rows[0], Sorted(hash, rows[1..]))
  }

  predicate Ordered(hash: Hash, board: seq<Player>) {
    forall i, j :: 0 <= i < j < |board| ==> Less(hash, board[i], board[j])
  }

  predicate DistinctTags(rows: seq<Player>) { forall i, j :: 0 <= i < j < |rows| ==> rows[i].tag != rows[j].tag }

  lemma {:induction false} InsertKeepsAll(hash: Hash, p: Player, board: seq<Player>, x: Player)
    ensures x in Insert(hash, p, board) <==> x == p || x in board
  {
    if board != [] && Less(hash, board[0], p) {
      InsertKeepsAll(hash, p, board[1..], x);
      assert board == [board[0]] + board[1..];
    }
  }

  lemma {:induction false} SortedKeepsAll(hash: Hash, rows: seq<Player>, x: Player)
    ensures x in Sorted(hash, rows) <==> x in rows
  {
    if rows != [] {
      SortedKeepsAll(hash, rows[1..], x);
      InsertKeepsAll(hash, rows[0], Sorted(hash, rows[1..]), x);
      assert rows == [rows[0]] + rows[1..];
    }
  }

  lemma {:induction false} InsertKeepsOrder(hash: Hash, p: Player, board: seq<Player>)
    requires Ordered(hash, board) && forall i :: 0 <= i < |board| ==> board[i].tag != p.tag
    ensures Ordered(hash, Insert(hash, p, board))
  {
    if board == [] {
    } else if Less(hash, board[0], p) {
      var rest := Insert(hash, p, board[1..]);
      InsertKeepsOrder(hash, p, board[1..]);
      forall j | 0 <= j < |rest| ensures Less(hash, board[0], rest[j]) {
        InsertKeepsAll(hash, p, board[1..], rest[j]);
        if rest[j] != p {
          assert rest[j] in rest;
          var i :| 0 <= i < |board[1..]| && board[1..][i] == rest[j];
          assert Less(hash, board[0], board[i + 1]);
        }
      }
    } else {
      LessIsStrict(hash, board[0], p);
      forall j | 0 <= j < |board| ensures Less(hash, p, board[j]) {
        if j > 0 { LessGoesOn(hash, p, board[0], board[j]); }
      }
    }
  }

  lemma {:induction false} SortedIsOrdered(hash: Hash, rows: seq<Player>)
    requires DistinctTags(rows)
    ensures Ordered(hash, Sorted(hash, rows))
  {
    if rows != [] {
      var rest := Sorted(hash, rows[1..]);
      SortedIsOrdered(hash, rows[1..]);
      forall i | 0 <= i < |rest| ensures rest[i].tag != rows[0].tag {
        SortedKeepsAll(hash, rows[1..], rest[i]);
        assert rest[i] in rest;
        var j :| 0 <= j < |rows[1..]| && rows[1..][j] == rest[i];
        assert rows[j + 1].tag != rows[0].tag;
      }
      InsertKeepsOrder(hash, rows[0], rest);
    }
  }

  lemma InRest(hash: Hash, a: seq<Player>, x: Player)
    requires a != [] && Ordered(hash, a)
    ensures x in a[1..] <==> x in a && x != a[0]
  {
    LessIsStrict(hash, x, x);
    if x in a && x != a[0] {
      var i :| 0 <= i < |a| && a[i] == x;
      assert a[1..][i - 1] == x;
    }
    if x in a[1..] {
      var i :| 0 <= i < |a[1..]| && a[1..][i] == x;
      assert a[i + 1] == x && Less(hash, a[0], a[i + 1]);
    }
  }

  lemma {:induction false} OneOrder(hash: Hash, a: seq<Player>, b: seq<Player>)
    requires Ordered(hash, a) && Ordered(hash, b) && forall x :: x in a <==> x in b
    ensures a == b
  {
    assert (a == [] || a[0] in a) && (b == [] || b[0] in b);
    if a != [] && b != [] {
      LessIsStrict(hash, a[0], b[0]);
      assert a[0] == b[0];
      forall x ensures x in a[1..] <==> x in b[1..] {
        InRest(hash, a, x);
        InRest(hash, b, x);
      }
      OneOrder(hash, a[1..], b[1..]);
    }
  }

  /** The same rows in any order give the same board, in which each row comes before all later ones. */
  lemma BoardIgnoresInputOrder(hash: Hash, a: seq<Player>, b: seq<Player>)
    requires DistinctTags(a) && DistinctTags(b) && forall x :: x in a <==> x in b
    ensures Ordered(hash, Sorted(hash, a)) && Sorted(hash, a) == Sorted(hash, b)
  {
    SortedIsOrdered(hash, a);
    SortedIsOrdered(hash, b);
    forall x ensures x in Sorted(hash, a) <==> x in Sorted(hash, b) {
      SortedKeepsAll(hash, a, x);
      SortedKeepsAll(hash, b, x);
    }
    OneOrder(hash, Sorted(hash, a), Sorted(hash, b));
  }

  // ----- tie_order_sql -----

  /** Rounded to a whole number, halves away from zero. */
  function Round(x: real): int { if x >= 0.0 then (x + 0.5).Floor else -((-x + 0.5).Floor) }

  /** The quotient in units of the last kept decimal, `scale` being 10 to their number. */
  function Quotient(p: Player, scale: int): int
    requires p.attacks != 0
  {
    Round(p.destruction as real / p.attacks as real * scale as real)
  }

  /** The ORDER BY terms of tie_order_sql, below trophies: quotients descending with NULLs last. */
  predicate SqlLess(hash: Hash, scale: int, p: Player, q: Player) {
    if p.trophies != q.trophies then p.trophies > q.trophies
    else if NoAttacks(p) != NoAttacks(q) then NoAttacks(q)
    else if (p.attacks == 0) != (q.attacks == 0) then q.attacks == 0
    else if p.attacks != 0 && Quotient(p, scale) != Quotient(q, scale) then Quotient(p, scale) > Quotient(q, scale)
    else TermsBelow(hash, p, q)
  }

  lemma RoundSteps(x: real, y: real)
    requires x - y >= 1.0
    ensures Round(x) > Round(y)
  {}

  lemma Cross(d: int, a: int, e: int, b: int)
    requires a > 0 && b > 0
    ensures (d as real / a as real - e as real / b as real) * (a * b) as real == (d * b - e * a) as real
  {
    var x, y := d as real / a as real, e as real / b as real;
    assert x * a as real == d as real && y * b as real == e as real;
    calc {
      (x - y) * (a * b) as real;
      (x - y) * (a as real * b as real);
      (x * a as real) * b as real - (y * b as real) * a as real;
      d as real * b as real - e as real * a as real;
      (d * b - e * a) as real;
    }
  }

  /** Different fractions differ by at least one over the product of their denominators. */
  lemma FractionsApart(d: int, a: int, e: int, b: int, scale: int)
    requires a > 0 && b > 0 && a * b <= scale && d as real / a as real > e as real / b as real
    ensures d as real / a as real * scale as real - e as real / b as real * scale as real >= 1.0
  {
    var gap := d as real / a as real - e as real / b as real;
    Cross(d, a, e, b);
    assert a * b > 0;
    assert gap * (a * b) as real > 0.0;
    assert d * b - e * a >= 1;
    assert gap * scale as real >= gap * (a * b) as real;
  }

  lemma HigherRoundsHigher(p: Player, q: Player, scale: int)
    requires p.attacks > 0 && q.attacks > 0 && p.attacks * q.attacks <= scale && Average(p) > Average(q)
    ensures Quotient(p, scale) > Quotient(q, scale)
  {
    FractionsApart(p.destruction, p.attacks, q.destruction, q.attacks, scale);
    RoundSteps(Average(p) * scale as real, Average(q) * scale as real);
  }

  lemma QuotientsAgree(p: Player, q: Player, scale: int)
    requires p.attacks > 0 && q.attacks > 0 && p.attacks * q.attacks <= scale
    ensures Quotient(p, scale) > Quotient(q, scale) <==> Average(p) > Average(q)
    ensures Quotient(p, scale) == Quotient(q, scale) <==> Average(p) == Average(q)
  {
    if Average(p) > Average(q) {
      HigherRoundsHigher(p, q, scale);
    } else if Average(q) > Average(p) {
      assert q.attacks * p.attacks == p.attacks * q.attacks;
      HigherRoundsHigher(q, p, scale);
    }
  }

  /** The terms below the quotient, and the quotient only through its two comparisons. */
  lemma OrdersAgree(hash: Hash, scale: int, p: Player, q: Player)
    requires p.attacks >= 0 && q.attacks >= 0
    requires p.attacks > 0 && q.attacks > 0 ==>
               && (Quotient(p, scale) > Quotient(q, scale) <==> Average(p) > Average(q))
               && (Quotient(p, scale) == Quotient(q, scale) <==> Average(p) == Average(q))
    ensures SqlLess(hash, scale, p, q) <==> Less(hash, p, q)
  {}

  /**
   The rounded order is the exact one wherever the product of the two attack counts is at most 10
   to the kept decimals.
   */
  lemma SqlAgrees(hash: Hash, scale: int, p: Player, q: Player)
    requires p.attacks >= 0 && q.attacks >= 0 && p.attacks * q.attacks <= scale
    ensures SqlLess(hash, scale, p, q) <==> Less(hash, p, q)
  {
    if p.attacks > 0 && q.attacks > 0 {
      QuotientsAgree(p, q, scale);
    }
    OrdersAgree(hash, scale, p, q);
  }

  lemma RoundIsMonotone(x: real, y: real)
    requires x >= y
    ensures Round(x) >= Round(y)
  {}

  lemma ScaledUp(x: real, y: real, scale: real)
    requires x >= y && scale > 0.0
    ensures x * scale >= y * scale
  {
    assert (x - y) * scale >= 0.0;
  }

  /** Rounding may make averages equal, but never turns two of them round. */
  lemma QuotientsFollow(p: Player, q: Player, scale: int)
    requires p.attacks > 0 && q.attacks > 0 && scale > 0 && Average(p) >= Average(q)
    ensures Quotient(p, scale) >= Quotient(q, scale)
  {
    ScaledUp(Average(p), Average(q), scale as real);
    RoundIsMonotone(Average(p) * scale as real, Average(q) * scale as real);
  }

  /**
   The two orders of two players differ exactly when different averages round alike and the terms
   below them say the opposite.
   */
  lemma SqlAgreesExactly(hash: Hash, scale: int, p: Player, q: Player)
    requires p.attacks >= 0 && q.attacks >= 0 && scale > 0
    ensures (SqlLess(hash, scale, p, q) <==> Less(hash, p, q))
      <==>
        || p.trophies != q.trophies || NoAttacks(p) || NoAttacks(q)
        || Quotient(p, scale) != Quotient(q, scale) || Average(p) == Average(q)
        || (TermsBelow(hash, p, q) <==> Average(p) > Average(q))
  {
    if !NoAttacks(p) && !NoAttacks(q) {
      if Average(p) >= Average(q) { QuotientsFollow(p, q, scale); }
      if Average(q) >= Average(p) { QuotientsFollow(q, p, scale); }
    }
  }

  /** At 16 kept decimals such a pair needs counts far past a Season's: 3 + 1/200000000 and 3 + 1/200000001. */
  lemma SqlCanDiffer(hash: Hash, a: string, b: string)
    ensures var p, q := Player(5000, 200_000_000, 600_000_001, a), Player(5000, 200_000_001, 600_000_004, b);
      Less(hash, p, q) && SqlLess(hash, 10_000_000_000_000_000, q, p)
  {
    var p, q := Player(5000, 200_000_000, 600_000_001, a), Player(5000, 200_000_001, 600_000_004, b);
    assert Average(p) > Average(q);
    assert Quotient(p, 10_000_000_000_000_000) == 30_000_000_050_000_000;
    assert Quotient(q, 10_000_000_000_000_000) == 30_000_000_050_000_000;
  }
}
