/** The day summary's boxes packed into DMs: in order, within Discord's limits, and as few as can be. */
module SummaryPacking {

  const MOST_CARDS: nat := 8
  const MOST_TEXT: nat := 3_700

  /** A box and the length of its text. */
  datatype Card = Card(tag: int, text: nat)

  function Text(part: seq<Card>): nat { if part == [] then 0 else part[0].text + Text(part[1..]) }

  function Join(parts: seq<seq<Card>>): seq<Card> { if parts == [] then [] else parts[0] + Join(parts[1..]) }

  /** A DM within the limits, which a single box may exceed. */
  predicate Fits(part: seq<Card>) { |part| == 1 || (1 <= |part| <= MOST_CARDS && Text(part) <= MOST_TEXT) }

  /** A split of the cards, in order, into DMs within the limits. */
  predicate Splits(parts: seq<seq<Card>>, cards: seq<Card>) {
    Join(parts) == cards && forall i :: 0 <= i < |parts| ==> Fits(parts[i])
  }

  predicate NoRoom(part: seq<Card>, next: Card) { !Fits(part + [next]) }

  /** No DM had room for the next one's first box. */
  predicate Full(parts: seq<seq<Card>>) {
    forall i :: 0 < i < |parts| ==> parts[i] != [] && NoRoom(parts[i - 1], parts[i][0])
  }

  lemma {:induction false} TextConcat(a: seq<Card>, b: seq<Card>)
    ensures Text(a + b) == Text(a) + Text(b)
  {
    if a == [] {
      assert a + b == b;
    } else {
      TextConcat(a[1..], b);
      assert (a + b)[1..] == a[1..] + b;
    }
  }

  lemma {:induction false} JoinAppends(parts: seq<seq<Card>>, part: seq<Card>)
    ensures Join(parts + [part]) == Join(parts) + part
  {
    if parts == [] {
      assert ([] + [part])[1..] == [];
    } else {
      assert (parts + [part])[1..] == parts[1..] + [part];
      JoinAppends(parts[1..], part);
    }
  }

  lemma JoinReplaces(before: seq<seq<Card>>, last: seq<Card>, card: Card)
    ensures Join(before + [last + [card]]) == Join(before + [last]) + [card]
  {
    JoinAppends(before, last);
    JoinAppends(before, last + [card]);
    assert Join(before) + (last + [card]) == (Join(before) + last) + [card];
  }

  lemma RoomIsFits(last: seq<Card>, card: Card)
    requires last == [] || Fits(last)
    ensures last != [] && (|last| == MOST_CARDS || Text(last) + card.text > MOST_TEXT) <==> NoRoom(last, card)
  {
    TextConcat(last, [card]);
  }

  /** What the loop keeps: the DMs so far hold the cards so far, each was closed only when full. */
  predicate Packed(parts: seq<seq<Card>>, cards: seq<Card>) {
    && parts != [] && Join(parts) == cards && Full(parts)
    && (if cards == [] then parts == [[]] else forall k :: 0 <= k < |parts| ==> Fits(parts[k]))
  }

  /** Adds one box: to the last DM, or to a new one when that has no room. */
  method AddCard(parts: seq<seq<Card>>, ghost cards: seq<Card>, card: Card) returns (longer: seq<seq<Card>>)
    requires Packed(parts, cards)
    ensures Packed(longer, cards + [card])
  {
    var last := parts[|parts| - 1];
    RoomIsFits(last, card);
    if last != [] && (|last| == MOST_CARDS || Text(last) + card.text > MOST_TEXT) {
      JoinAppends(parts, [card]);
      longer := parts + [[card]];
    } else {
      assert parts == parts[..|parts| - 1] + [last];
      JoinReplaces(parts[..|parts| - 1], last, card);
      longer := parts[..|parts| - 1] + [last + [card]];
      assert last != [] ==> (last + [card])[0] == last[0];
    }
  }

  // ----- As few as can be -----

  /** How many cards the first n DMs hold. */
  function Held(parts: seq<seq<Card>>, n: nat): nat
    requires n <= |parts|
  {
    if n == 0 then 0 else Held(parts, n - 1) + |parts[n - 1]|
  }

  lemma {:induction false} HeldShifts(parts: seq<seq<Card>>, n: nat)
    requires parts != [] && n < |parts|
    ensures Held(parts, n + 1) == |parts[0]| + Held(parts[1..], n)
  {
    if n > 0 { HeldShifts(parts, n - 1); }
  }

  /** Each DM is the stretch of the cards that begins where the ones before it end. */
  lemma {:induction false} PartIsStretch(parts: seq<seq<Card>>, n: nat)
    requires n < |parts|
    ensures Held(parts, n + 1) <= |Join(parts)| && Join(parts)[Held(parts, n)..Held(parts, n + 1)] == parts[n]
  {
    if n > 0 {
      PartIsStretch(parts[1..], n - 1);
      HeldShifts(parts, n - 1);
      HeldShifts(parts, n);
      var skip, rest := |parts[0]|, Join(parts[1..]);
      assert Join(parts)[skip..] == rest;
    }
  }

  lemma {:induction false} AllHeld(parts: seq<seq<Card>>)
    ensures Held(parts, |parts|) == |Join(parts)|
  {
    if parts != [] {
      AllHeld(parts[1..]);
      HeldShifts(parts, |parts| - 1);
    }
  }

  /** A shorter stretch of a DM within the limits is within them. */
  lemma StretchFits(part: seq<Card>, a: nat, b: nat)
    requires Fits(part) && a < b <= |part|
    ensures Fits(part[a..b])
  {
    TextConcat(part[..a], part[a..b]);
    TextConcat(part[..b], part[b..]);
    assert part[..a] + part[a..b] == part[..b] && part[..b] + part[b..] == part;
  }

  lemma StretchOfStretch(cards: seq<Card>, from: nat, to: nat, x: nat, y: nat)
    requires from <= to <= |cards| && x <= y <= to - from
    ensures cards[from..to][x..y] == cards[from + x..from + y]
  {
    var inner, outer := cards[from..to][x..y], cards[from + x..from + y];
    forall i | 0 <= i < y - x ensures inner[i] == outer[i] {
      assert inner[i] == cards[from..to][x + i] && outer[i] == cards[from + x + i];
    }
  }

  lemma RoomLeft(cards: seq<Card>, a: nat, b: nat, from: nat, to: nat)
    requires from <= a < b < to <= |cards| && Fits(cards[from..to])
    ensures Fits(cards[a..b + 1])
  {
    StretchFits(cards[from..to], a - from, b + 1 - from);
    StretchOfStretch(cards, from, to, a - from, b + 1 - from);
  }

  /** What did not fit a full DM is longer than any DM that begins no later could hold. */
  lemma FullReaches(parts: seq<seq<Card>>, other: seq<seq<Card>>, cards: seq<Card>, n: nat)
    requires Splits(parts, cards) && Full(parts) && Splits(other, cards) && n + 1 < |parts| && n < |other|
    requires Held(parts, n) >= Held(other, n)
    ensures Held(parts, n + 1) >= Held(other, n + 1)
  {
    var a, b, from, to := Held(parts, n), Held(parts, n + 1), Held(other, n), Held(other, n + 1);
    PartIsStretch(parts, n);
    PartIsStretch(parts, n + 1);
    PartIsStretch(other, n);
    assert NoRoom(parts[n], parts[n + 1][0]);
    assert parts[n + 1][0] == cards[b] && parts[n] + [cards[b]] == cards[a..b + 1];
    if b < to {
      RoomLeft(cards, a, b, from, to);
    }
  }

  /** After as many DMs, the packing holds at least as many cards as any other split. */
  lemma {:induction false} StaysAhead(parts: seq<seq<Card>>, other: seq<seq<Card>>, cards: seq<Card>, n: nat)
    requires Splits(parts, cards) && Full(parts) && Splits(other, cards) && n <= |parts| && n <= |other|
    ensures Held(parts, n) >= Held(other, n)
  {
    if n > 0 {
      StaysAhead(parts, other, cards, n - 1);
      if n < |parts| {
        FullReaches(parts, other, cards, n - 1);
      } else {
        AllHeld(parts);
        PartIsStretch(other, n - 1);
      }
    }
  }

  /** No other in-order split within the limits uses fewer DMs. */
  lemma FewestDMs(parts: seq<seq<Card>>, other: seq<seq<Card>>, cards: seq<Card>)
    requires Splits(parts, cards) && Full(parts) && Splits(other, cards)
    ensures |parts| <= |other|
  {
    if |other| < |parts| {
      assert Fits(parts[|other|]);
      StaysAhead(parts, other, cards, |other|);
      AllHeld(other);
      PartIsStretch(parts, |other|);
    }
  }

  /** Every card is in exactly one DM, in order, and no DM is empty. */
  lemma CardsKept(parts: seq<seq<Card>>, cards: seq<Card>, i: nat)
    requires Splits(parts, cards) && i < |parts|
    ensures Held(parts, i) < Held(parts, i + 1) <= |cards| && cards[Held(parts, i)..Held(parts, i + 1)] == parts[i]
  {
    PartIsStretch(parts, i);
  }

  /** The packing loop, for the boxes of at least one finished day: no split within the limits uses fewer DMs. */
  method Pack(cards: seq<Card>) returns (parts: seq<seq<Card>>)
    requires cards != []
    ensures Splits(parts, cards) && Full(parts)
    ensures forall other :: Splits(other, cards) ==> |parts| <= |other|
  {
    parts := [[]];
    for i := 0 to |cards|
      invariant Packed(parts, cards[..i])
    {
      assert cards[..i + 1] == cards[..i] + [cards[i]];
      parts := AddCard(parts, cards[..i], cards[i]);
    }
    assert cards[..|cards|] == cards;
    forall other | Splits(other, cards) ensures |parts| <= |other| { FewestDMs(parts, other, cards); }
  }
}
