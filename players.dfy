/**
 * A player's hand and trick pile (`TichuPlayer`). The hand is a list kept in
 * rank order by a stable sort after every card received; the trick pile only
 * grows until the round is reset.
 */
module Players {
  import opened Wrappers
  import opened Cards

  datatype Team = A | B

  function Other(t: Team): Team {
    if t == A then B else A
  }

  // ---------------------------------------------------------------------------
  // Rank order of a hand
  // ---------------------------------------------------------------------------

  /** No card is `<` (by rank) a card before it. */
  predicate SortedByRank(h: seq<Card>) {
    forall i, j :: 0 <= i < j < |h| ==> !Lt(h[j], h[i])
  }

  /** Places `c` after the last card that does not outrank it: one step of a stable sort. */
  function InsertByRank(h: seq<Card>, c: Card): (r: seq<Card>)
    ensures |r| == |h| + 1 && multiset(r) == multiset(h) + multiset{c}
  {
    if h == [] then [c]
    else if Lt(c, h[|h| - 1]) then
      assert h == h[..|h| - 1] + [h[|h| - 1]];
      InsertByRank(h[..|h| - 1], c) + [h[|h| - 1]]
    else h + [c]
  }

  /** Where `InsertByRank` puts the card: after the last card that it does not rank below. */
  function InsertSlot(h: seq<Card>, c: Card): (k: nat)
    ensures k <= |h|
  {
    if h == [] then 0 else if Lt(c, h[|h| - 1]) then InsertSlot(h[..|h| - 1], c) else |h|
  }

  lemma {:induction false} InsertAtSlot(h: seq<Card>, c: Card)
    ensures var k := InsertSlot(h, c); InsertByRank(h, c) == h[..k] + [c] + h[k..]
  {
    if h == [] {
      assert InsertByRank(h, c) == h[..0] + [c] + h[0..];
    } else if Lt(c, h[|h| - 1]) {
      var front, last := h[..|h| - 1], h[|h| - 1];
      InsertAtSlot(front, c);
      var k := InsertSlot(front, c);
      assert InsertSlot(h, c) == k;
      calc {
        InsertByRank(h, c);
        InsertByRank(front, c) + [last];
        front[..k] + [c] + front[k..] + [last];
        { assert h[..k] == front[..k] && h[k..] == front[k..] + [last]; }
        h[..k] + [c] + h[k..];
      }
    } else {
      assert InsertByRank(h, c) == h[..|h|] + [c] + h[|h|..];
    }
  }

  lemma {:induction false} SlotRanks(h: seq<Card>, c: Card)
    ensures var k := InsertSlot(h, c);
      (forall i :: k <= i < |h| ==> c.rank < h[i].rank) && (k > 0 ==> h[k - 1].rank <= c.rank)
  {
    if h != [] && Lt(c, h[|h| - 1]) {
      var front := h[..|h| - 1];
      SlotRanks(front, c);
      assert forall i :: 0 <= i < |front| ==> front[i] == h[i];
    }
  }

  lemma SlotBelow(h: seq<Card>, c: Card)
    requires SortedByRank(h)
    ensures forall i :: 0 <= i < InsertSlot(h, c) ==> h[i].rank <= c.rank
  {
    var k := InsertSlot(h, c);
    SlotRanks(h, c);
    forall i | 0 <= i < k ensures h[i].rank <= c.rank {
      if i < k - 1 {
        assert !Lt(h[k - 1], h[i]);
      }
    }
  }

  /**
   * In a hand in rank order the card goes in at the one place that keeps the order,
   * after every card of equal rank: the cards before it rank at most as high, the
   * cards after it strictly higher, and both runs keep their order.
   */
  lemma InsertPosition(h: seq<Card>, c: Card)
    requires SortedByRank(h)
    ensures exists k :: 0 <= k <= |h| && InsertByRank(h, c) == h[..k] + [c] + h[k..]
                        && (forall i :: 0 <= i < k ==> h[i].rank <= c.rank)
                        && (forall i :: k <= i < |h| ==> c.rank < h[i].rank)
  {
    var k := InsertSlot(h, c);
    InsertAtSlot(h, c);
    SlotRanks(h, c);
    SlotBelow(h, c);
  }

  /** Every card of `InsertByRank(h, c)` is `c` or a card of `h`. */
  lemma InsertMembers(h: seq<Card>, c: Card, x: Card)
    requires x in InsertByRank(h, c)
    ensures x == c || x in h
  {
    assert x in multiset(InsertByRank(h, c));
  }

  lemma {:induction false} InsertKeepsOrder(h: seq<Card>, c: Card)
    requires SortedByRank(h)
    ensures SortedByRank(InsertByRank(h, c))
  {
    if h != [] && Lt(c, h[|h| - 1]) {
      var front := h[..|h| - 1];
      var last := h[|h| - 1];
      assert SortedByRank(front);
      InsertKeepsOrder(front, c);
      var f := InsertByRank(front, c);
      forall i | 0 <= i < |f| ensures !Lt(last, f[i]) {
        InsertMembers(front, c, f[i]);
      }
    }
  }

  /** `list.sort()` with `__lt__` on ranks: a stable sort, written as insertion sort. */
  function SortByRank(s: seq<Card>): (r: seq<Card>)
    ensures |r| == |s| && multiset(r) == multiset(s)
    ensures SortedByRank(r)
  {
    if s == [] then []
    else
      assert s == s[..|s| - 1] + [s[|s| - 1]];
      var front := SortByRank(s[..|s| - 1]);
      InsertKeepsOrder(front, s[|s| - 1]);
      InsertByRank(front, s[|s| - 1])
  }

  /** Sorting a sorted hand changes nothing. */
  lemma {:induction false} SortSortedIsIdentity(h: seq<Card>)
    requires SortedByRank(h)
    ensures SortByRank(h) == h
  {
    if h != [] {
      var front, last := h[..|h| - 1], h[|h| - 1];
      SortedSplit(h);
      SortSortedIsIdentity(front);
      SortSnoc(front, last);
      InsertAtEnd(front, last);
    }
  }

  /** Dropping the last card of a sorted hand leaves it sorted, and that card outranks none before it. */
  lemma SortedSplit(h: seq<Card>)
    requires SortedByRank(h) && h != []
    ensures SortedByRank(h[..|h| - 1])
    ensures |h| >= 2 ==> !Lt(h[|h| - 1], h[|h| - 2])
  {
    var front := h[..|h| - 1];
    forall i, j | 0 <= i < j < |front| ensures !Lt(front[j], front[i]) {
      assert front[i] == h[i] && front[j] == h[j];
    }
  }

  /** Sorting a hand with one card appended inserts that card into the sorted rest. */
  lemma SortSnoc(front: seq<Card>, last: Card)
    ensures SortByRank(front + [last]) == InsertByRank(SortByRank(front), last)
  {
    assert (front + [last])[..|front|] == front;
  }

  /** A card that outranks none of a hand's last card is inserted at the end. */
  lemma InsertAtEnd(front: seq<Card>, last: Card)
    requires front != [] ==> !Lt(last, front[|front| - 1])
    ensures InsertByRank(front, last) == front + [last]
  {
  }

  /** Appending one card to a sorted hand and sorting inserts it after the cards of equal rank. */
  lemma AppendThenSort(h: seq<Card>, c: Card)
    requires SortedByRank(h)
    ensures SortByRank(h + [c]) == InsertByRank(h, c)
  {
    assert (h + [c])[..|h|] == h;
    SortSortedIsIdentity(h);
  }

  /** Receiving a card into a sorted list is sorting everything received so far: `receive_card` applied card by card. */
  lemma ResortSnoc(s: seq<Card>, c: Card, x: Card, t: seq<Card>)
    requires x == c && t == s + [c]
    ensures SortByRank(SortByRank(s) + [x]) == SortByRank(t)
  {
    SortSnoc(s, c);
    AppendThenSort(SortByRank(s), c);
  }

  /** The cards of rank `v`, in the order they appear. */
  function OfRank(s: seq<Card>, v: int): seq<Card> {
    if s == [] then []
    else OfRank(s[..|s| - 1], v) + (if s[|s| - 1].rank == v then [s[|s| - 1]] else [])
  }

  lemma {:induction false} OfRankAppend(s: seq<Card>, t: seq<Card>, v: int)
    ensures OfRank(s + t, v) == OfRank(s, v) + OfRank(t, v)
    decreases |t|
  {
    if t == [] {
      assert s + t == s;
    } else {
      var u := t[..|t| - 1];
      assert (s + t)[..|s + t| - 1] == s + u;
      OfRankAppend(s, u, v);
    }
  }

  /** Inserting a card adds it at the end of the cards of its own rank and moves no other. */
  lemma {:induction false} InsertOfRank(h: seq<Card>, c: Card, v: int)
    ensures OfRank(InsertByRank(h, c), v) == OfRank(h, v) + (if c.rank == v then [c] else [])
  {
    if h != [] && Lt(c, h[|h| - 1]) {
      var front, last := h[..|h| - 1], h[|h| - 1];
      InsertOfRank(front, c, v);
      OfRankAppend(InsertByRank(front, c), [last], v);
      assert OfRank([last], v) == if last.rank == v then [last] else [] by {
        assert [last][..0] == [];
      }
    } else if h != [] {
      OfRankAppend(h, [c], v);
      assert OfRank([c], v) == if c.rank == v then [c] else [] by {
        assert [c][..0] == [];
      }
    }
  }

  /** `list.sort()` is stable: the cards of each rank keep their relative order. */
  lemma {:induction false} SortByRankStable(s: seq<Card>, v: int)
    ensures OfRank(SortByRank(s), v) == OfRank(s, v)
  {
    if s != [] {
      var front, last := s[..|s| - 1], s[|s| - 1];
      SortByRankStable(front, v);
      InsertOfRank(SortByRank(front), last, v);
    }
  }

  // ---------------------------------------------------------------------------
  // Removing cards
  // ---------------------------------------------------------------------------

  /** The position of the first occurrence of `c`. */
  function IndexOf<T(==)>(h: seq<T>, c: T): (k: nat)
    requires c in h
    ensures k < |h| && h[k] == c && c !in h[..k]
  {
    if h[0] == c then 0
    else
      var k := IndexOf(h[1..], c);
      assert h[..k + 1] == [h[0]] + h[1..][..k];
      k + 1
  }

  /** `list.remove(c)`: drops the first occurrence of `c`. */
  function RemoveFirst(h: seq<Card>, c: Card): (r: seq<Card>)
    requires c in h
    ensures |r| == |h| - 1 && multiset(r) == multiset(h) - multiset{c}
  {
    var k := IndexOf(h, c);
    assert h == h[..k] + [c] + h[k + 1..];
    h[..k] + h[k + 1..]
  }

  lemma RemoveFirstKeepsOrder(h: seq<Card>, c: Card)
    requires c in h && SortedByRank(h)
    ensures SortedByRank(RemoveFirst(h, c))
  {
    var k := IndexOf(h, c);
    var r := RemoveFirst(h, c);
    forall i, j | 0 <= i < j < |r| ensures !Lt(r[j], r[i]) {
      RemoveFirstAt(h, c, i);
      RemoveFirstAt(h, c, j);
    }
  }

  /** After the removal, the cards before the removed one keep their place and the later ones move down by one. */
  lemma RemoveFirstAt(h: seq<Card>, c: Card, i: int)
    requires c in h && 0 <= i < |h| - 1
    ensures RemoveFirst(h, c)[i] == h[if i < IndexOf(h, c) then i else i + 1]
  {
    var k := IndexOf(h, c);
    assert RemoveFirst(h, c) == h[..k] + h[k + 1..];
  }

  /**
   * `remove_cards`: removes the listed cards one by one; the first card not
   * in the hand stops the removal with that card as the error, and the cards
   * removed before it stay removed.
   */
  function RemoveEach(h: seq<Card>, cards: seq<Card>): (seq<Card>, Option<Card>) {
    if cards == [] then (h, None)
    else if cards[0] in h then RemoveEach(RemoveFirst(h, cards[0]), cards[1..])
    else (h, Some(cards[0]))
  }

  /** All cards come out exactly when the hand holds them (with multiplicity); the hand then loses exactly them. */
  lemma {:induction false} RemoveEachSucceeds(h: seq<Card>, cards: seq<Card>)
    ensures RemoveEach(h, cards).1 == None <==> multiset(cards) <= multiset(h)
    ensures RemoveEach(h, cards).1 == None ==>
      multiset(RemoveEach(h, cards).0) == multiset(h) - multiset(cards)
      && |RemoveEach(h, cards).0| == |h| - |cards|
  {
    if cards != [] {
      var c := cards[0];
      assert cards == [c] + cards[1..];
      if c in h {
        var h' := RemoveFirst(h, c);
        RemoveEachSucceeds(h', cards[1..]);
        assert multiset(cards) == multiset(cards[1..]) + multiset{c};
        assert multiset(h) == multiset(h') + multiset{c};
        AddOneCancels(multiset(cards[1..]), multiset(h'), c);
      } else {
        assert multiset(h)[c] == 0;
        assert multiset(cards)[c] > 0;
      }
    }
  }

  /** Adding the same card to both sides changes neither inclusion nor difference. */
  lemma AddOneCancels(a: multiset<Card>, b: multiset<Card>, c: Card)
    ensures a + multiset{c} <= b + multiset{c} <==> a <= b
    ensures (b + multiset{c}) - (a + multiset{c}) == b - a
  {
    if a + multiset{c} <= b + multiset{c} {
      forall e ensures a[e] <= b[e] {
        assert (a + multiset{c})[e] <= (b + multiset{c})[e];
      }
    }
    assert forall e :: ((b + multiset{c}) - (a + multiset{c}))[e] == (b - a)[e];
  }

  /** Removal only ever takes cards out of the hand. */
  lemma {:induction false} RemoveEachShrinks(h: seq<Card>, cards: seq<Card>)
    ensures multiset(RemoveEach(h, cards).0) <= multiset(h)
  {
    if cards != [] && cards[0] in h {
      RemoveEachShrinks(RemoveFirst(h, cards[0]), cards[1..]);
    }
  }

  /** Whatever is removed, the hand stays in rank order. */
  lemma {:induction false} RemoveEachKeepsOrder(h: seq<Card>, cards: seq<Card>)
    requires SortedByRank(h)
    ensures SortedByRank(RemoveEach(h, cards).0)
  {
    if cards != [] && cards[0] in h {
      RemoveFirstKeepsOrder(h, cards[0]);
      RemoveEachKeepsOrder(RemoveFirst(h, cards[0]), cards[1..]);
    }
  }

  /** The cards a hand would pass by default: its first three, i.e. its lowest ranked. */
  function FirstThree(h: seq<Card>): (r: seq<Card>)
    ensures |r| == (if |h| < 3 then |h| else 3) && r == h[..|r|]
    ensures SortedByRank(h) ==>
      forall i, j :: 0 <= i < |r| <= j < |h| ==> !Lt(h[j], r[i])
  {
    if |h| < 3 then h else h[..3]
  }

  // ---------------------------------------------------------------------------
  // The player
  // ---------------------------------------------------------------------------

  class Player {
    const name: string
    var sid: Option<string>
    var team: Option<Team>
    var hand: seq<Card>
    var tricksWon: seq<Card>
    var calledTichu: bool
    var calledGrandTichu: bool
    var finished: bool

    /** The hand is always in rank order. */
    predicate Valid()
      reads this`hand
    {
      SortedByRank(hand)
    }

    constructor (name: string, sid: Option<string>, team: Option<Team>)
      ensures this.name == name && this.sid == sid && this.team == team
      ensures hand == [] && tricksWon == []
      ensures !calledTichu && !calledGrandTichu && !finished
      ensures Valid()
    {
      this.name := name;
      this.sid := sid;
      this.team := team;
      hand := [];
      tricksWon := [];
      calledTichu := false;
      calledGrandTichu := false;
      finished := false;
    }

    /** `receive_card`: append, then sort the whole hand by rank. */
    method ReceiveCard(card: Card)
      modifies this`hand
      ensures hand == SortByRank(old(hand) + [card])
      ensures |hand| == |old(hand)| + 1 && multiset(hand) == multiset(old(hand)) + multiset{card}
      ensures Valid()
      ensures old(Valid()) ==> hand == InsertByRank(old(hand), card)
    {
      hand := hand + [card];
      hand := SortByRank(hand);
      if old(Valid()) {
        AppendThenSort(old(hand), card);
      }
    }

    /** `remove_cards`; `missing` is the card the source raises `ValueError` about. */
    method RemoveCards(cards: seq<Card>) returns (missing: Option<Card>)
      modifies this`hand
      ensures (hand, missing) == RemoveEach(old(hand), cards)
      ensures missing == None <==> multiset(cards) <= multiset(old(hand))
      ensures missing == None ==>
        multiset(hand) == multiset(old(hand)) - multiset(cards) && |hand| == |old(hand)| - |cards|
      ensures old(Valid()) ==> Valid()
    {
      RemoveEachSucceeds(hand, cards);
      if Valid() {
        RemoveEachKeepsOrder(hand, cards);
      }
      missing := None;
      for i := 0 to |cards|
        invariant RemoveEach(old(hand), cards) == RemoveEach(hand, cards[i..]) && missing == None
      {
        assert cards[i..][0] == cards[i] && cards[i..][1..] == cards[i + 1..];
        if cards[i] in hand {
          hand := RemoveFirst(hand, cards[i]);
        } else {
          missing := Some(cards[i]);
          return;
        }
      }
      assert cards[|cards|..] == [];
    }

    /** `has_card`: list membership. */
    predicate HasCard(card: Card)
      reads this
    {
      card in hand
    }

    /** `get_passable_cards`. */
    function PassableCards(): (r: seq<Card>)
      reads this
      ensures |r| == (if |hand| < 3 then |hand| else 3) && r == hand[..|r|]
      ensures Valid() ==> forall i, j :: 0 <= i < |r| <= j < |hand| ==> !Lt(hand[j], r[i])
    {
      FirstThree(hand)
    }

    /** `calculate_points`: the points of the cards won in tricks. */
    function Points(): int
      reads this
    {
      SumPoints(tricksWon)
    }

    /** `add_trick`: the won cards go to the end of the pile. */
    method AddTrick(cards: seq<Card>)
      modifies this`tricksWon
      ensures tricksWon == old(tricksWon) + cards
      ensures Points() == old(Points()) + SumPoints(cards)
    {
      SumPointsAppend(tricksWon, cards);
      tricksWon := tricksWon + cards;
    }

    /** `reset_for_new_round`. */
    method ResetForNewRound()
      modifies this`hand, this`tricksWon, this`calledTichu, this`calledGrandTichu, this`finished
      ensures hand == [] && tricksWon == []
      ensures !calledTichu && !calledGrandTichu && !finished
      ensures Valid()
    {
      hand := [];
      tricksWon := [];
      calledTichu := false;
      calledGrandTichu := false;
      finished := false;
    }
  }
}
