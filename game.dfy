/**
 * The state of one game (`TichuGame`): four seats, the current trick, the
 * finishing order and the team scores, with the round set-up, turn order,
 * play legality and round settlement that change it.
 */
module Game {
  import opened Wrappers
  import opened Cards
  import opened Combos
  import ComboFacts
  import opened Players
  import opened Scoring
  import Helpers

  /** One entry of `current_trick`: the combo played and who played it. */
  datatype Play = Play(combo: Combo, player: Player)

  /** The seat `e` places after seat `t`, going round the table of four. */
  function SeatAfter(t: int, e: nat): (r: int)
    requires 0 <= t < 4
    ensures 0 <= r < 4
  {
    if e == 0 then t else (SeatAfter(t, e - 1) + 1) % 4
  }

  /** Going round the table from `t`, every seat is reached within four steps. */
  lemma SeatReached(t: int, u: int)
    requires 0 <= t < 4 && 0 <= u < 4
    ensures exists d :: 1 <= d <= 4 && SeatAfter(t, d) == u
  {
    assert SeatAfter(t, 1) == (t + 1) % 4;
    assert SeatAfter(t, 2) == (t + 2) % 4;
    assert SeatAfter(t, 3) == (t + 3) % 4;
    assert SeatAfter(t, 4) == t;
  }

  /** `assign_teams`: even seats play for A, odd seats for B. */
  function SeatTeam(i: int): Team {
    if i % 2 == 0 then A else B
  }

  /** The names of the cards of a list, in order. */
  function NamesOf(cards: seq<Card>): (r: seq<string>)
    ensures |r| == |cards| && forall i :: 0 <= i < |cards| ==> r[i] == cards[i].name
  {
    seq(|cards|, i requires 0 <= i < |cards| => cards[i].name)
  }

  /** The wish names a card the player holds but does not play. */
  predicate WishUnmet(wish: Option<string>, hand: seq<Card>, cards: seq<Card>) {
    wish.Some? && wish.value in NamesOf(hand) && wish.value !in NamesOf(cards)
  }

  /** A hand holding a card of rank 1 (the Mah Jong). */
  predicate HasRankOne(h: seq<Card>) {
    exists k :: 0 <= k < |h| && h[k].rank == 1
  }

  /** Looking at one more card finds a rank-1 card exactly when it is one or one was found before. */
  lemma HasRankOneNext(h: seq<Card>, k: int)
    requires 0 <= k < |h|
    ensures HasRankOne(h[..k + 1]) <==> HasRankOne(h[..k]) || h[k].rank == 1
  {
    if HasRankOne(h[..k + 1]) && h[k].rank != 1 {
      var m :| 0 <= m < k + 1 && h[..k + 1][m].rank == 1;
      assert h[..k][m].rank == 1;
    }
    if HasRankOne(h[..k]) {
      var m :| 0 <= m < k && h[..k][m].rank == 1;
      assert h[..k + 1][m].rank == 1;
    }
    if h[k].rank == 1 {
      assert h[..k + 1][k].rank == 1;
    }
  }

  /**
   * `set_starting_player_index` over the first `n` seats: the last of them
   * whose hand holds a rank-1 card, or the seat `t` the turn was on when
   * none does.
   */
  function StartingSeat(hands: seq<seq<Card>>, n: nat, t: int): (r: int)
    requires n <= |hands|
    ensures (exists i :: 0 <= i < n && HasRankOne(hands[i])) ==>
      0 <= r < n && HasRankOne(hands[r]) && forall i :: r < i < n ==> !HasRankOne(hands[i])
    ensures (forall i :: 0 <= i < n ==> !HasRankOne(hands[i])) ==> r == t
  {
    if n == 0 then t
    else if HasRankOne(hands[n - 1]) then n - 1
    else StartingSeat(hands, n - 1, t)
  }

  /** Every card of the four hands. */
  function AllCards(hands: seq<seq<Card>>): multiset<Card>
    requires |hands| == 4
  {
    multiset(hands[0]) + multiset(hands[1]) + multiset(hands[2]) + multiset(hands[3])
  }

  /** Replacing one hand changes the cards held by exactly the difference between the two hands. */
  lemma AllCardsUpdate(hands: seq<seq<Card>>, j: int, h: seq<Card>)
    requires |hands| == 4 && 0 <= j < 4
    ensures AllCards(hands[j := h]) + multiset(hands[j]) == AllCards(hands) + multiset(h)
  {
    var u := hands[j := h];
    assert forall k :: 0 <= k < 4 && k != j ==> u[k] == hands[k];
  }

  /** A shuffle of the 56-card deck has 56 cards, one of them the Mah Jong of rank 1. */
  lemma ShuffledDeck(shuffled: seq<Card>)
    requires multiset(shuffled) == multiset(TichuDeck())
    ensures |shuffled| == 56 && HasRankOne(shuffled)
  {
    assert |shuffled| == |multiset(shuffled)| == |multiset(TichuDeck())| == 56;
    DeckAt(52);
    assert TichuDeck()[52] == MahJong;
    assert MahJong in multiset(shuffled);
    var k :| 0 <= k < |shuffled| && shuffled[k] == MahJong;
  }

  /** A card among the four hands is in one of them. */
  lemma HeldSomewhere(hands: seq<seq<Card>>, c: Card)
    requires |hands| == 4 && c in AllCards(hands)
    ensures exists i :: 0 <= i < 4 && c in hands[i]
  {
    if c !in hands[0] && c !in hands[1] && c !in hands[2] {
      assert c in multiset(hands[3]);
    }
  }

  /** Taking the same cards off both sides of an equation of multisets. */
  lemma Cancel(a: multiset<Card>, b: multiset<Card>, x: multiset<Card>)
    requires a + x == b + x
    ensures a == b
  {
    assert forall e :: a[e] == b[e] by {
      forall e ensures a[e] == b[e] {
        assert (a + x)[e] == (b + x)[e];
      }
    }
  }

  /** A card leaving the deck for a hand leaves the cards of deck and hands together unchanged. */
  lemma ShiftOne(d0: multiset<Card>, d1: multiset<Card>, a0: multiset<Card>, a1: multiset<Card>, c: Card)
    requires d0 == d1 + multiset{c} && a1 == a0 + multiset{c}
    ensures d1 + a1 == d0 + a0
  {
    assert forall e :: (d1 + a1)[e] == (d0 + a0)[e];
  }

  /** Why `pass_cards` stops: a seat's name is not a key, its list is not three cards, or a listed card is not in its hand. */
  datatype PassError = NoEntry(name: string) | NotThreeCards(name: string) | NotInHand(card: Card)

  /** `receive_card` on hand values: seat `k` gets card `c` and sorts its hand. */
  function Receive(hs: seq<seq<Card>>, k: int, c: Card): (r: seq<seq<Card>>)
    requires |hs| == 4 && 0 <= k < 4
    ensures |r| == |hs| && r[k] == SortByRank(hs[k] + [c])
    ensures forall j :: 0 <= j < |hs| && j != k ==> r[j] == hs[j]
  {
    hs[k := SortByRank(hs[k] + [c])]
  }

  /** Receiving a card adds exactly that card to the hands. */
  lemma ReceiveConserves(hs: seq<seq<Card>>, k: int, c: Card)
    requires |hs| == 4 && 0 <= k < 4
    ensures AllCards(Receive(hs, k, c)) == AllCards(hs) + multiset{c}
  {
    var h := SortByRank(hs[k] + [c]);
    assert Receive(hs, k, c) == hs[k := h];
    AllCardsUpdate(hs, k, h);
    Cancel(AllCards(hs[k := h]), AllCards(hs) + multiset{c}, multiset(hs[k]));
  }

  /**
   * The cards seat `j` is dealt, in the order received, when `n` rounds of one card per
   * seat are popped from the end of `d`: round `r` hands seat `j` the card `4 * r + j`
   * places from the end.
   */
  function Dealt(d: seq<Card>, n: nat, j: int): (r: seq<Card>)
    requires 0 <= j < 4 && |d| >= 4 * n
    ensures |r| == n
  {
    seq(n, r requires 0 <= r < n => d[|d| - 1 - 4 * r - j])
  }

  /** Dealing `m` rounds and then `k` more from what is left deals the first `m + k` rounds. */
  lemma {:induction false} DealtSplit(d: seq<Card>, m: nat, k: nat, j: int)
    requires 0 <= j < 4 && |d| >= 4 * (m + k)
    ensures Dealt(d, m, j) + Dealt(d[..|d| - 4 * m], k, j) == Dealt(d, m + k, j)
  {
    if k == 0 {
      assert Dealt(d, m, j) + [] == Dealt(d, m, j);
    } else {
      DealtSplit(d, m, k - 1, j);
      var e := d[..|d| - 4 * m];
      assert e[|e| - 1 - 4 * (k - 1) - j] == d[|d| - 1 - 4 * (m + k - 1) - j];
    }
  }

  /** The four seats' cards and what stays in the deck are exactly the cards of the deck. */
  lemma {:induction false} DealtPartition(d: seq<Card>, n: nat)
    requires |d| >= 4 * n
    ensures multiset(d) == multiset(d[..|d| - 4 * n]) + multiset(Dealt(d, n, 0)) + multiset(Dealt(d, n, 1))
                           + multiset(Dealt(d, n, 2)) + multiset(Dealt(d, n, 3))
  {
    if n == 0 {
      assert d[..|d|] == d;
    } else {
      DealtPartition(d, n - 1);
      var e := |d| - 4 * (n - 1);
      LastFour(d, e);
      DealtSnoc(d, n, 0, d[e - 1]);
      DealtSnoc(d, n, 1, d[e - 2]);
      DealtSnoc(d, n, 2, d[e - 3]);
      DealtSnoc(d, n, 3, d[e - 4]);
      assert d[..|d| - 4 * n] == d[..e - 4];
      Regroup(multiset(d), multiset(d[..e]), multiset(d[..e - 4]),
              multiset(Dealt(d, n - 1, 0)), multiset(Dealt(d, n - 1, 1)),
              multiset(Dealt(d, n - 1, 2)), multiset(Dealt(d, n - 1, 3)),
              multiset(Dealt(d, n, 0)), multiset(Dealt(d, n, 1)), multiset(Dealt(d, n, 2)), multiset(Dealt(d, n, 3)),
              multiset{d[e - 1]}, multiset{d[e - 2]}, multiset{d[e - 3]}, multiset{d[e - 4]});
    }
  }

  /** The last four cards of a prefix, counted from its end. */
  lemma LastFour(d: seq<Card>, e: int)
    requires 4 <= e <= |d|
    ensures multiset(d[..e]) == multiset(d[..e - 4]) + multiset{d[e - 1]} + multiset{d[e - 2]}
                                + multiset{d[e - 3]} + multiset{d[e - 4]}
  {
    assert d[..e] == d[..e - 1] + [d[e - 1]];
    assert d[..e - 1] == d[..e - 2] + [d[e - 2]];
    assert d[..e - 2] == d[..e - 3] + [d[e - 3]];
    assert d[..e - 3] == d[..e - 4] + [d[e - 4]];
  }

  /** Round `n` adds card `c`, the one `4 * (n - 1) + j` places from the end, to what seat `j` was dealt. */
  lemma DealtSnoc(d: seq<Card>, n: nat, j: int, c: Card)
    requires 1 <= n && |d| >= 4 * n && 0 <= j < 4 && c == d[|d| - 4 * (n - 1) - 1 - j]
    ensures multiset(Dealt(d, n, j)) == multiset(Dealt(d, n - 1, j)) + multiset{c}
  {
    DealtNext(d, n - 1, j);
  }

  /** Round `n` adds one card at the end of what seat `j` was dealt. */
  lemma DealtNext(d: seq<Card>, n: nat, j: int)
    requires 0 <= j < 4 && |d| >= 4 * (n + 1)
    ensures Dealt(d, n + 1, j) == Dealt(d, n, j) + [d[|d| - 1 - 4 * n - j]]
  {
  }

  /** Moving one card per seat from the block at the deck's end into the seats' piles keeps the total. */
  lemma Regroup(whole: multiset<Card>, block: multiset<Card>, rest: multiset<Card>,
                p0: multiset<Card>, p1: multiset<Card>, p2: multiset<Card>, p3: multiset<Card>,
                n0: multiset<Card>, n1: multiset<Card>, n2: multiset<Card>, n3: multiset<Card>,
                s0: multiset<Card>, s1: multiset<Card>, s2: multiset<Card>, s3: multiset<Card>)
    requires whole == block + p0 + p1 + p2 + p3
    requires block == rest + s0 + s1 + s2 + s3
    requires n0 == p0 + s0 && n1 == p1 + s1 && n2 == p2 + s2 && n3 == p3 + s3
    ensures whole == rest + n0 + n1 + n2 + n3
  {
  }

  /** One more round: the hand dealt `r` rounds from `d0` receives its round-`r` card from what is left, `dr`. */
  lemma DealStep(b: seq<Card>, d0: seq<Card>, r: nat, i: int, h: seq<Card>, dr: seq<Card>)
    requires 0 <= i < 4 && |d0| >= 4 * (r + 1)
    requires h == SortByRank(b + Dealt(d0, r, i)) && dr == d0[..|d0| - 4 * r]
    ensures SortByRank(h + [dr[|dr| - 1 - i]]) == SortByRank(b + Dealt(d0, r + 1, i))
  {
    var c := d0[|d0| - 1 - 4 * r - i];
    assert dr[|dr| - 1 - i] == c;
    DealtNext(d0, r, i);
    assert (b + Dealt(d0, r, i)) + [c] == b + Dealt(d0, r + 1, i);
    ResortSnoc(b + Dealt(d0, r, i), c, dr[|dr| - 1 - i], b + Dealt(d0, r + 1, i));
  }

  /** A prefix of a prefix. */
  lemma PrefixOfPrefix(d: seq<Card>, a: int, b: int)
    requires 0 <= b <= a <= |d|
    ensures d[..a][..b] == d[..b]
  {
  }

  /**
   * The hands after the first `j` seats of one dealing round from the end of `d`: seat `i < j`
   * has received the card `i` places from the end and sorted its hand, the others are as they were.
   */
  function RoundPrefix(hs: seq<seq<Card>>, d: seq<Card>, j: nat): (r: seq<seq<Card>>)
    requires |hs| == 4 && j <= 4 && |d| >= j
    ensures |r| == 4
  {
    [RoundSeat(hs[0], d, j, 0), RoundSeat(hs[1], d, j, 1), RoundSeat(hs[2], d, j, 2), RoundSeat(hs[3], d, j, 3)]
  }

  /** Seat `i`'s hand `h` once the first `j` seats of a round from the end of `d` have been dealt. */
  function RoundSeat(h: seq<Card>, d: seq<Card>, j: nat, i: nat): seq<Card>
    requires i < 4 && j <= |d|
  {
    if i < j then SortByRank(h + [d[|d| - 1 - i]]) else h
  }

  /** Seat `i` of the hands after `j` seats of a round is that seat's own hand, dealt or not. */
  lemma RoundPrefixAt(hs: seq<seq<Card>>, d: seq<Card>, j: nat, i: int)
    requires |hs| == 4 && j <= 4 && |d| >= j && 0 <= i < 4
    ensures RoundPrefix(hs, d, j)[i] == RoundSeat(hs[i], d, j, i)
  {
    var r := RoundPrefix(hs, d, j);
    if i == 0 {
      assert r[0] == RoundSeat(hs[0], d, j, 0);
    } else if i == 1 {
      assert r[1] == RoundSeat(hs[1], d, j, 1);
    } else if i == 2 {
      assert r[2] == RoundSeat(hs[2], d, j, 2);
    } else {
      assert r[3] == RoundSeat(hs[3], d, j, 3);
    }
  }

  /** No seat of a round dealt yet. */
  lemma RoundStart(hs: seq<seq<Card>>, d: seq<Card>)
    requires |hs| == 4
    ensures RoundPrefix(hs, d, 0) == hs
  {
    forall i | 0 <= i < 4 ensures RoundPrefix(hs, d, 0)[i] == hs[i] {
      RoundPrefixAt(hs, d, 0, i);
    }
  }

  /** Seat `j` receiving the next card from the end of `d` takes a round from `j` seats dealt to `j + 1`. */
  lemma RoundStep(h0: seq<seq<Card>>, d: seq<Card>, j: nat, hb: seq<seq<Card>>, c: Card, ha: seq<seq<Card>>)
    requires |h0| == 4 && j < 4 && |d| > j && c == d[|d| - 1 - j]
    requires hb == RoundPrefix(h0, d, j) && ha == Receive(hb, j, c)
    ensures ha == RoundPrefix(h0, d, j + 1)
  {
    var next := RoundPrefix(h0, d, j + 1);
    forall i | 0 <= i < 4 ensures ha[i] == next[i] {
      RoundPrefixAt(h0, d, j, i);
      RoundPrefixAt(h0, d, j + 1, i);
      RoundSeatStep(h0[i], d, j, i, c, hb[i], ha[i]);
    }
  }

  /** Seat `i` after seat `j` of a round receives card `c`: dealt if it is seat `j`, untouched otherwise. */
  lemma RoundSeatStep(h: seq<Card>, d: seq<Card>, j: nat, i: nat, c: Card, before: seq<Card>, after: seq<Card>)
    requires i < 4 && j < 4 && |d| > j && c == d[|d| - 1 - j]
    requires before == RoundSeat(h, d, j, i)
    requires i == j ==> after == SortByRank(before + [c])
    requires i != j ==> after == before
    ensures after == RoundSeat(h, d, j + 1, i)
  {
    if i == j {
      assert before == h;
      assert h + [c] == h + [d[|d| - 1 - i]];
    } else if i < j {
      assert before == SortByRank(h + [d[|d| - 1 - i]]);
    } else {
      assert before == h;
    }
  }

  /** The four hands after `n` dealing rounds from `d`: seat `i` holds `base[i]` and its dealt cards, sorted. */
  function DealtHands(base: seq<seq<Card>>, d: seq<Card>, n: nat): (r: seq<seq<Card>>)
    requires |base| == 4 && |d| >= 4 * n
    ensures |r| == 4 && forall i {:trigger Dealt(d, n, i)} :: 0 <= i < 4 ==> r[i] == SortByRank(base[i] + Dealt(d, n, i))
  {
    [SortByRank(base[0] + Dealt(d, n, 0)), SortByRank(base[1] + Dealt(d, n, 1)),
     SortByRank(base[2] + Dealt(d, n, 2)), SortByRank(base[3] + Dealt(d, n, 3))]
  }

  /** One more dealing round from what is left of the deck adds round `r`'s cards. */
  lemma DealtHandsStep(base: seq<seq<Card>>, d: seq<Card>, r: nat)
    requires |base| == 4 && |d| >= 4 * (r + 1)
    ensures RoundPrefix(DealtHands(base, d, r), d[..|d| - 4 * r], 4) == DealtHands(base, d, r + 1)
  {
    var hs, dr := DealtHands(base, d, r), d[..|d| - 4 * r];
    var before, after := RoundPrefix(hs, dr, 4), DealtHands(base, d, r + 1);
    forall i | 0 <= i < 4 ensures before[i] == after[i] {
      RoundPrefixAt(hs, dr, 4, i);
      DealtSeatStep(base[i], d, r, i, hs[i], dr, before[i], after[i]);
    }
  }

  /** Hands and deck after round `r` of a deal from `d0`, given those after the first `r` rounds. */
  lemma DealtRoundStep(base: seq<seq<Card>>, d0: seq<Card>, r: nat, hb: seq<seq<Card>>, db: seq<Card>,
                       ha: seq<seq<Card>>, da: seq<Card>)
    requires |base| == 4 && |d0| >= 4 * (r + 1)
    requires hb == DealtHands(base, d0, r) && db == d0[..|d0| - 4 * r]
    requires ha == RoundPrefix(hb, db, 4) && da == db[..|db| - 4]
    ensures ha == DealtHands(base, d0, r + 1) && da == d0[..|d0| - 4 * (r + 1)]
  {
    DealtHandsStep(base, d0, r);
    PrefixOfPrefix(d0, |d0| - 4 * r, |d0| - 4 * (r + 1));
  }

  /** Seat `i`'s hand after round `r` of a deal from `d`, given its hand `h` after the rounds before. */
  lemma DealtSeatStep(b: seq<Card>, d: seq<Card>, r: nat, i: int, h: seq<Card>, dr: seq<Card>,
                      before: seq<Card>, after: seq<Card>)
    requires 0 <= i < 4 && |d| >= 4 * (r + 1) && dr == d[..|d| - 4 * r]
    requires h == SortByRank(b + Dealt(d, r, i)) && before == RoundSeat(h, dr, 4, i)
    requires after == SortByRank(b + Dealt(d, r + 1, i))
    ensures before == after
  {
    DealStep(b, d, r, i, h, dr);
  }

  /** Hands already in rank order are what dealing them nothing gives. */
  lemma DealtNothing(hs: seq<seq<Card>>, d: seq<Card>)
    requires |hs| == 4 && forall i :: 0 <= i < 4 ==> SortedByRank(hs[i])
    ensures DealtHands(hs, d, 0) == hs
  {
    forall i | 0 <= i < 4 ensures DealtHands(hs, d, 0)[i] == hs[i] {
      assert hs[i] + Dealt(d, 0, i) == hs[i];
      SortSortedIsIdentity(hs[i]);
    }
  }

  /** The hands after eight rounds, written as the unsorted cards each seat holds. */
  function AfterEight(h0: seq<seq<Card>>, d: seq<Card>): (h8: seq<seq<Card>>)
    requires |h0| == 4 && |d| == 56
    ensures |h8| == 4 && forall i :: 0 <= i < 4 ==> h8[i] == h0[i] + Dealt(d, 8, i)
  {
    [h0[0] + Dealt(d, 8, 0), h0[1] + Dealt(d, 8, 1), h0[2] + Dealt(d, 8, 2), h0[3] + Dealt(d, 8, 3)]
  }

  /** Eight rounds deal the hands the second phase starts from. */
  lemma DealtEight(h0: seq<seq<Card>>, d: seq<Card>)
    requires |h0| == 4 && |d| == 56
    ensures DealtHands(h0, d, 8) == DealtHands(AfterEight(h0, d), d[..24], 0)
  {
    forall i | 0 <= i < 4 ensures DealtHands(h0, d, 8)[i] == DealtHands(AfterEight(h0, d), d[..24], 0)[i] {
      DealtEightAt(h0, d, i);
    }
  }

  lemma DealtEightAt(h0: seq<seq<Card>>, d: seq<Card>, i: int)
    requires |h0| == 4 && |d| == 56 && 0 <= i < 4
    ensures DealtHands(h0, d, 8)[i] == DealtHands(AfterEight(h0, d), d[..24], 0)[i]
  {
    assert AfterEight(h0, d)[i] + Dealt(d[..24], 0, i) == h0[i] + Dealt(d, 8, i);
  }

  /** Eight rounds and then six more from the rest deal the same hands as fourteen rounds at once. */
  lemma DealtEightThenSix(h0: seq<seq<Card>>, d: seq<Card>)
    requires |h0| == 4 && |d| == 56
    ensures DealtHands(AfterEight(h0, d), d[..24], 6) == DealtHands(h0, d, 14)
  {
    forall i | 0 <= i < 4 ensures DealtHands(AfterEight(h0, d), d[..24], 6)[i] == DealtHands(h0, d, 14)[i] {
      DealtSixAt(h0, d, i);
    }
  }

  lemma DealtSixAt(h0: seq<seq<Card>>, d: seq<Card>, i: int)
    requires |h0| == 4 && |d| == 56 && 0 <= i < 4
    ensures DealtHands(AfterEight(h0, d), d[..24], 6)[i] == DealtHands(h0, d, 14)[i]
  {
    DealtSplit(d, 8, 6, i);
    assert AfterEight(h0, d)[i] + Dealt(d[..24], 6, i) == h0[i] + Dealt(d, 14, i);
  }

  /** Fourteen rounds dealt to an empty hand give that seat its fourteen cards, sorted. */
  lemma DealtFromNothing(d: seq<Card>, h0: seq<seq<Card>>, hs: seq<seq<Card>>, i: int)
    requires |d| == 56 && h0 == [[], [], [], []] && hs == DealtHands(h0, d, 14) && 0 <= i < 4
    ensures hs[i] == SortByRank(Dealt(d, 14, i)) && |hs[i]| == 14
  {
    assert h0[i] + Dealt(d, 14, i) == Dealt(d, 14, i);
  }

  /** After the first eight rounds the deal goes on from the hands so far and the 24 cards left. */
  lemma DealtHalfway(h0: seq<seq<Card>>, d0: seq<Card>, h8: seq<seq<Card>>, d8: seq<Card>)
    requires |h0| == 4 && |d0| == 56
    requires h8 == DealtHands(h0, d0, 8) && d8 == d0[..|d0| - 4 * 8]
    ensures |d8| == 24 && h8 == DealtHands(AfterEight(h0, d0), d8, 0)
  {
    DealtEight(h0, d0);
  }

  /** Eight rounds and then six more deal the whole deck: fourteen rounds, with every card now held. */
  lemma DealtWhole(h0: seq<seq<Card>>, d0: seq<Card>, d8: seq<Card>, h14: seq<seq<Card>>, d14: seq<Card>)
    requires |h0| == 4 && |d0| == 56 && d8 == d0[..|d0| - 4 * 8]
    requires h14 == DealtHands(AfterEight(h0, d0), d8, 6) && d14 == d8[..|d8| - 4 * 6]
    ensures d14 == [] && h14 == DealtHands(h0, d0, 14)
    ensures AllCards(h14) == multiset(d0) + AllCards(h0)
  {
    DealtEightThenSix(h0, d0);
    DealtConserves(h0, d0, 14, h14);
    assert d0[..|d0| - 4 * 14] == [];
  }

  /** Dealing `n` rounds onto hands `h0` moves cards from the deck to the hands and loses none. */
  lemma DealtConserves(h0: seq<seq<Card>>, d: seq<Card>, n: nat, hs: seq<seq<Card>>)
    requires |h0| == 4 && |hs| == 4 && |d| >= 4 * n
    requires forall i :: 0 <= i < 4 ==> hs[i] == SortByRank(h0[i] + Dealt(d, n, i))
    ensures multiset(d[..|d| - 4 * n]) + AllCards(hs) == multiset(d) + AllCards(h0)
  {
    DealtPartition(d, n);
    forall i | 0 <= i < 4 ensures multiset(hs[i]) == multiset(h0[i]) + multiset(Dealt(d, n, i)) {
      assert multiset(h0[i] + Dealt(d, n, i)) == multiset(h0[i]) + multiset(Dealt(d, n, i));
    }
    Sum4(multiset(d), multiset(d[..|d| - 4 * n]),
         multiset(h0[0]), multiset(h0[1]), multiset(h0[2]), multiset(h0[3]),
         multiset(Dealt(d, n, 0)), multiset(Dealt(d, n, 1)), multiset(Dealt(d, n, 2)), multiset(Dealt(d, n, 3)),
         multiset(hs[0]), multiset(hs[1]), multiset(hs[2]), multiset(hs[3]));
  }

  lemma Sum4(whole: multiset<Card>, rest: multiset<Card>,
             a0: multiset<Card>, a1: multiset<Card>, a2: multiset<Card>, a3: multiset<Card>,
             m0: multiset<Card>, m1: multiset<Card>, m2: multiset<Card>, m3: multiset<Card>,
             b0: multiset<Card>, b1: multiset<Card>, b2: multiset<Card>, b3: multiset<Card>)
    requires whole == rest + m0 + m1 + m2 + m3
    requires b0 == a0 + m0 && b1 == a1 + m1 && b2 == a2 + m2 && b3 == a3 + m3
    ensures rest + (b0 + b1 + b2 + b3) == whole + (a0 + a1 + a2 + a3)
  {
  }

  /** The seat `k` places after seat `i`: `(i + k) % 4`, written without the remainder. */
  function SeatOffset(i: int, k: int): (r: int)
    requires 0 <= i < 4 && 0 <= k < 4
    ensures 0 <= r < 4
  {
    if i + k < 4 then i + k else i + k - 4
  }

  /** Seat `i` hands `cards[0]`, `cards[1]` and `cards[2]` to the seats one, two and three places after it. */
  function Give(hs: seq<seq<Card>>, i: int, cards: seq<Card>): (r: seq<seq<Card>>)
    requires |hs| == 4 && 0 <= i < 4 && |cards| == 3
    ensures |r| == 4 && r[i] == hs[i]
    ensures r[SeatOffset(i, 1)] == SortByRank(hs[SeatOffset(i, 1)] + [cards[0]])
    ensures r[SeatOffset(i, 2)] == SortByRank(hs[SeatOffset(i, 2)] + [cards[1]])
    ensures r[SeatOffset(i, 3)] == SortByRank(hs[SeatOffset(i, 3)] + [cards[2]])
  {
    var h1 := Receive(hs, SeatOffset(i, 1), cards[0]);
    var h2 := Receive(h1, SeatOffset(i, 2), cards[1]);
    Receive(h2, SeatOffset(i, 3), cards[2])
  }

  /** Every seat but `i` is one, two or three places after it. */
  lemma SeatOffsetCovers(i: int, j: int)
    requires 0 <= i < 4 && 0 <= j < 4 && j != i
    ensures SeatOffset(i, 1) == j || SeatOffset(i, 2) == j || SeatOffset(i, 3) == j
  {
    var k := if j > i then j - i else j - i + 4;
    assert SeatOffset(i, k) == j;
  }

  /** The three other seats get one card each. */
  lemma GiveSizes(hs: seq<seq<Card>>, i: int, cards: seq<Card>)
    requires |hs| == 4 && 0 <= i < 4 && |cards| == 3
    ensures forall j :: 0 <= j < 4 && j != i ==> |Give(hs, i, cards)[j]| == |hs[j]| + 1
  {
    forall j | 0 <= j < 4 && j != i
      ensures |Give(hs, i, cards)[j]| == |hs[j]| + 1
    {
      SeatOffsetCovers(i, j);
    }
  }

  /** Handing cards round adds exactly those cards to the hands. */
  lemma GiveConserves(hs: seq<seq<Card>>, i: int, cards: seq<Card>)
    requires |hs| == 4 && 0 <= i < 4 && |cards| == 3
    ensures AllCards(Give(hs, i, cards)) == AllCards(hs) + multiset(cards)
  {
    ThreeCards(cards);
    var h1 := Receive(hs, SeatOffset(i, 1), cards[0]);
    var h2 := Receive(h1, SeatOffset(i, 2), cards[1]);
    assert Give(hs, i, cards) == Receive(h2, SeatOffset(i, 3), cards[2]);
    ReceiveConserves(hs, SeatOffset(i, 1), cards[0]);
    ReceiveConserves(h1, SeatOffset(i, 2), cards[1]);
    ReceiveConserves(h2, SeatOffset(i, 3), cards[2]);
    AddThree(AllCards(hs), cards[0], cards[1], cards[2]);
  }

  /** Adding three cards one at a time adds the three of them. */
  lemma AddThree(m: multiset<Card>, a: Card, b: Card, c: Card)
    ensures m + multiset{a} + multiset{b} + multiset{c} == m + (multiset{a} + multiset{b} + multiset{c})
  {
  }

  lemma ThreeCards(cards: seq<Card>)
    requires |cards| == 3
    ensures multiset(cards) == multiset{cards[0]} + multiset{cards[1]} + multiset{cards[2]}
  {
    assert cards == [cards[0]] + [cards[1]] + [cards[2]];
  }

  /** Hands in rank order stay in rank order when cards are handed round. */
  lemma GiveKeepsOrder(hs: seq<seq<Card>>, i: int, cards: seq<Card>)
    requires |hs| == 4 && 0 <= i < 4 && |cards| == 3
    requires forall j :: 0 <= j < 4 ==> SortedByRank(hs[j])
    ensures forall j :: 0 <= j < 4 ==> SortedByRank(Give(hs, i, cards)[j])
  {
    forall j | 0 <= j < 4 && j != i
      ensures SortedByRank(Give(hs, i, cards)[j])
    {
      SeatOffsetCovers(i, j);
    }
  }

  /**
   * One turn of the `pass_cards` loop for seat `i`, whose player is called
   * `name`: look the name up, check for three cards, take them out of the
   * hand and hand them round. A card missing from the hand stops it with the
   * cards listed before it already taken out.
   */
  function PassSeat(hs: seq<seq<Card>>, i: int, name: string, passes: map<string, seq<Card>>)
    : (seq<seq<Card>>, Option<PassError>)
    requires |hs| == 4 && 0 <= i < 4
  {
    if name !in passes then (hs, Some(NoEntry(name)))
    else if |passes[name]| != 3 then (hs, Some(NotThreeCards(name)))
    else
      var (rest, missing) := RemoveEach(hs[i], passes[name]);
      if missing.Some? then (hs[i := rest], Some(NotInHand(missing.value)))
      else (Give(hs[i := rest], i, passes[name]), None)
  }

  /** `pass_cards` for the first `n` seats, stopping at the first error. */
  function PassUpTo(hs: seq<seq<Card>>, names: seq<string>, passes: map<string, seq<Card>>, n: nat)
    : (r: (seq<seq<Card>>, Option<PassError>))
    requires |hs| == 4 && |names| == 4 && n <= 4
    ensures |r.0| == 4
  {
    if n == 0 then (hs, None)
    else
      var (h, err) := PassUpTo(hs, names, passes, n - 1);
      if err.Some? then (h, err) else PassSeat(h, n - 1, names[n - 1], passes)
  }

  /** A seat that passes without error has lost three cards, and every other seat has gained one. */
  lemma PassSeatSizes(hs: seq<seq<Card>>, i: int, name: string, passes: map<string, seq<Card>>)
    requires |hs| == 4 && 0 <= i < 4 && PassSeat(hs, i, name, passes).1 == None
    ensures name in passes && |passes[name]| == 3
    ensures |PassSeat(hs, i, name, passes).0| == 4
    ensures forall j :: 0 <= j < 4 ==>
      |PassSeat(hs, i, name, passes).0[j]| == |hs[j]| + (if j == i then -3 else 1)
  {
    var cards := passes[name];
    RemoveEachSucceeds(hs[i], cards);
    var rest := RemoveEach(hs[i], cards).0;
    GiveSizes(hs[i := rest], i, cards);
  }

  /** One seat's pass moves cards between hands when it succeeds and can only lose cards when it fails. */
  lemma PassSeatConserves(hs: seq<seq<Card>>, i: int, name: string, passes: map<string, seq<Card>>)
    requires |hs| == 4 && 0 <= i < 4
    ensures |PassSeat(hs, i, name, passes).0| == 4
    ensures PassSeat(hs, i, name, passes).1 == None ==> AllCards(PassSeat(hs, i, name, passes).0) == AllCards(hs)
    ensures AllCards(PassSeat(hs, i, name, passes).0) <= AllCards(hs)
  {
    if name in passes && |passes[name]| == 3 {
      var cards := passes[name];
      RemovalKeeps(hs, i, cards);
      if RemoveEach(hs[i], cards).1 == None {
        RemovalThenGiveKeeps(hs, i, cards);
      }
    }
  }

  /** Taking cards out of one hand only loses cards. */
  lemma RemovalKeeps(hs: seq<seq<Card>>, i: int, cards: seq<Card>)
    requires |hs| == 4 && 0 <= i < 4
    ensures AllCards(hs[i := RemoveEach(hs[i], cards).0]) <= AllCards(hs)
  {
    var rest := RemoveEach(hs[i], cards).0;
    RemoveEachShrinks(hs[i], cards);
    AllCardsUpdate(hs, i, rest);
    TakeOut(AllCards(hs[i := rest]), AllCards(hs), multiset(hs[i]), multiset(rest));
  }

  /** Taking three held cards out of one hand and giving them round keeps every card. */
  lemma RemovalThenGiveKeeps(hs: seq<seq<Card>>, i: int, cards: seq<Card>)
    requires |hs| == 4 && 0 <= i < 4 && |cards| == 3 && RemoveEach(hs[i], cards).1 == None
    ensures AllCards(Give(hs[i := RemoveEach(hs[i], cards).0], i, cards)) == AllCards(hs)
  {
    var rest := RemoveEach(hs[i], cards).0;
    RemoveEachSucceeds(hs[i], cards);
    AllCardsUpdate(hs, i, rest);
    GiveConserves(hs[i := rest], i, cards);
    Rebalance(AllCards(hs[i := rest]), AllCards(hs), multiset(hs[i]), multiset(rest), multiset(cards));
  }

  /**
   * When every seat passes, each hand ends the size it started: after the
   * first `n` seats, a seat among them has lost three cards and got one from
   * each of the others, and a later seat has only received.
   */
  lemma {:induction false} PassKeepsSizes(hs: seq<seq<Card>>, names: seq<string>, passes: map<string, seq<Card>>, n: nat)
    requires |hs| == 4 && |names| == 4 && n <= 4
    requires PassUpTo(hs, names, passes, n).1 == None
    ensures forall j :: 0 <= j < 4 ==>
      |PassUpTo(hs, names, passes, n).0[j]| == |hs[j]| + n - (if j < n then 4 else 0)
  {
    if n > 0 {
      var (h, err) := PassUpTo(hs, names, passes, n - 1);
      assert err.None?;
      PassKeepsSizes(hs, names, passes, n - 1);
      PassSeatSizes(h, n - 1, names[n - 1], passes);
    }
  }

  /**
   * A complete pass only moves cards between hands; a pass that stops on a
   * missing card loses the cards its seat had already taken out.
   */
  lemma {:induction false} PassConservesCards(hs: seq<seq<Card>>, names: seq<string>, passes: map<string, seq<Card>>, n: nat)
    requires |hs| == 4 && |names| == 4 && n <= 4
    ensures PassUpTo(hs, names, passes, n).1 == None ==> AllCards(PassUpTo(hs, names, passes, n).0) == AllCards(hs)
    ensures AllCards(PassUpTo(hs, names, passes, n).0) <= AllCards(hs)
  {
    if n > 0 {
      PassConservesCards(hs, names, passes, n - 1);
      var (h, err) := PassUpTo(hs, names, passes, n - 1);
      if err.None? {
        PassSeatConserves(h, n - 1, names[n - 1], passes);
      }
    }
  }

  /** Replacing part `x` of a pile by a smaller part `y` leaves a smaller pile. */
  lemma TakeOut(a: multiset<Card>, b: multiset<Card>, x: multiset<Card>, y: multiset<Card>)
    requires a + x == b + y && y <= x
    ensures a <= b
  {
    forall e ensures a[e] <= b[e] {
      assert (a + x)[e] == (b + y)[e];
    }
  }

  /** Replacing part `x` of a pile by `y`, where `x` is `y` plus `c`, and then adding `c` back restores the pile. */
  lemma Rebalance(a: multiset<Card>, b: multiset<Card>, x: multiset<Card>, y: multiset<Card>, c: multiset<Card>)
    requires a + x == b + y && x == y + c
    ensures a + c == b
  {
    assert forall e :: (a + c)[e] == b[e] by {
      forall e ensures (a + c)[e] == b[e] {
        assert (a + x)[e] == (b + y)[e];
      }
    }
  }

  /** A pass that gets through every seat found each seat's name with three cards listed. */
  lemma {:induction false} PassNeedsEntries(hs: seq<seq<Card>>, names: seq<string>, passes: map<string, seq<Card>>, n: nat)
    requires |hs| == 4 && |names| == 4 && n <= 4
    requires PassUpTo(hs, names, passes, n).1 == None
    ensures forall i :: 0 <= i < n ==> names[i] in passes && |passes[names[i]]| == 3
  {
    if n > 0 {
      var (h, err) := PassUpTo(hs, names, passes, n - 1);
      assert err.None?;
      PassSeatEntry(h, n - 1, names[n - 1], passes);
      PassNeedsEntries(hs, names, passes, n - 1);
      forall i | 0 <= i < n
        ensures names[i] in passes && |passes[names[i]]| == 3
      {
        if i == n - 1 {
          assert names[i] == names[n - 1];
        }
      }
    }
  }

  /** A seat passes without error only when its name is listed with three cards. */
  lemma PassSeatEntry(hs: seq<seq<Card>>, i: int, name: string, passes: map<string, seq<Card>>)
    requires |hs| == 4 && 0 <= i < 4 && PassSeat(hs, i, name, passes).1 == None
    ensures name in passes && |passes[name]| == 3
  {
  }

  /** Once a seat has failed, later seats change nothing. */
  lemma {:induction false} PassStops(hs: seq<seq<Card>>, names: seq<string>, passes: map<string, seq<Card>>, n: nat, m: nat)
    requires |hs| == 4 && |names| == 4 && n <= m <= 4
    requires PassUpTo(hs, names, passes, n).1.Some?
    ensures PassUpTo(hs, names, passes, m) == PassUpTo(hs, names, passes, n)
  {
    if m > n {
      PassStops(hs, names, passes, n, m - 1);
    }
  }

  /** Hands in rank order stay in rank order through a pass, complete or not. */
  lemma {:induction false} PassKeepsOrder(hs: seq<seq<Card>>, names: seq<string>, passes: map<string, seq<Card>>, n: nat)
    requires |hs| == 4 && |names| == 4 && n <= 4
    requires forall j :: 0 <= j < 4 ==> SortedByRank(hs[j])
    ensures forall j :: 0 <= j < 4 ==> SortedByRank(PassUpTo(hs, names, passes, n).0[j])
  {
    if n > 0 {
      PassKeepsOrder(hs, names, passes, n - 1);
      var (h, err) := PassUpTo(hs, names, passes, n - 1);
      var name := names[n - 1];
      if err.None? && name in passes && |passes[name]| == 3 {
        var cards := passes[name];
        RemoveEachKeepsOrder(h[n - 1], cards);
        var rest := RemoveEach(h[n - 1], cards).0;
        if RemoveEach(h[n - 1], cards).1.None? {
          GiveKeepsOrder(h[n - 1 := rest], n - 1, cards);
        }
      }
    }
  }

  class TichuGame {
    const players: seq<Player>
    var deck: seq<Card>
    var pile: seq<Card>
    var turnIndex: int
    var roundNumber: int
    var finishedPlayers: seq<Player>
    var currentTrick: seq<Play>
    var waitingForWish: bool
    var wish: Option<string>
    var waitingForDragonChoice: bool
    var dragonWinner: Option<Player>
    var dragonRecipients: Option<seq<string>>
    var teamScores: TeamPoints
    var passCount: int

    /** Four distinct seats with their teams fixed by seat parity, every hand in rank order. */
    predicate Seated()
      reads players
    {
      |players| == 4
      && (forall i, j :: 0 <= i < j < 4 ==> players[i] != players[j])
      && (forall i :: 0 <= i < 4 ==> players[i].Valid() && players[i].team == Some(SeatTeam(i)))
    }

    /** Every player the trick, the finishing order and the Dragon choice refer to is seated. */
    predicate Seen()
      reads this`currentTrick, this`finishedPlayers, this`dragonWinner
    {
      (forall k :: 0 <= k < |currentTrick| ==> currentTrick[k].player in players)
      && (forall k :: 0 <= k < |finishedPlayers| ==> finishedPlayers[k] in players)
      && (dragonWinner.Some? ==> dragonWinner.value in players)
    }

    /** The seats are set, the turn is on one of them, and the state refers only to seated players. */
    predicate Valid()
      reads this`turnIndex, this`currentTrick, this`finishedPlayers, this`dragonWinner, players
    {
      Seated() && 0 <= turnIndex < 4 && Seen()
    }

    /** `TichuGame(players)`: exactly four players, teams by seat, everything else empty. */
    constructor (ps: seq<Player>)
      requires |ps| == 4 && forall i, j :: 0 <= i < j < 4 ==> ps[i] != ps[j]
      requires forall i :: 0 <= i < 4 ==> ps[i].Valid()
      modifies ps
      ensures Valid() && players == ps
      ensures forall i :: 0 <= i < 4 ==> ps[i].hand == old(ps[i].hand) && ps[i].tricksWon == old(ps[i].tricksWon)
      ensures deck == [] && pile == [] && turnIndex == 0 && roundNumber == 1
      ensures finishedPlayers == [] && currentTrick == [] && passCount == 0
      ensures !waitingForWish && wish == None && !waitingForDragonChoice
      ensures dragonWinner == None && dragonRecipients == None && teamScores == TeamPoints(0, 0)
    {
      players := ps;
      deck := [];
      pile := [];
      turnIndex := 0;
      roundNumber := 1;
      finishedPlayers := [];
      currentTrick := [];
      waitingForWish := false;
      wish := None;
      waitingForDragonChoice := false;
      dragonWinner := None;
      dragonRecipients := None;
      teamScores := TeamPoints(0, 0);
      passCount := 0;
      new;
      AssignTeams();
    }

    /** `assign_teams`. */
    method AssignTeams()
      requires |players| == 4 && forall i, j :: 0 <= i < j < 4 ==> players[i] != players[j]
      modifies players
      ensures forall i :: 0 <= i < 4 ==> players[i].team == Some(SeatTeam(i))
      ensures forall i :: 0 <= i < 4 ==>
        players[i].hand == old(players[i].hand) && players[i].tricksWon == old(players[i].tricksWon)
        && players[i].sid == old(players[i].sid) && players[i].finished == old(players[i].finished)
        && players[i].calledTichu == old(players[i].calledTichu)
        && players[i].calledGrandTichu == old(players[i].calledGrandTichu)
    {
      for i := 0 to 4
        invariant forall k :: 0 <= k < i ==> players[k].team == Some(SeatTeam(k))
        invariant forall k :: 0 <= k < 4 ==>
          players[k].hand == old(players[k].hand) && players[k].tricksWon == old(players[k].tricksWon)
          && players[k].sid == old(players[k].sid) && players[k].finished == old(players[k].finished)
          && players[k].calledTichu == old(players[k].calledTichu)
          && players[k].calledGrandTichu == old(players[k].calledGrandTichu)
      {
        players[i].team := Some(if i % 2 == 0 then A else B);
      }
    }

    /** The four hands, seat by seat. */
    function Hands(): (hs: seq<seq<Card>>)
      requires |players| == 4
      reads players
      ensures |hs| == 4 && forall i :: 0 <= i < 4 ==> hs[i] == players[i].hand
    {
      [players[0].hand, players[1].hand, players[2].hand, players[3].hand]
    }

    /** All cards in the players' hands. */
    function HeldCards(): multiset<Card>
      requires |players| == 4
      reads players
    {
      AllCards(Hands())
    }

    /** Seat `i` has won no tricks, has not finished and has called nothing; its hand does not matter. */
    predicate Cleared(i: int)
      requires |players| == 4 && 0 <= i < 4
      reads {players[i]}`tricksWon, {players[i]}`finished, {players[i]}`calledTichu, {players[i]}`calledGrandTichu
    {
      players[i].tricksWon == [] && !players[i].finished && !players[i].calledTichu && !players[i].calledGrandTichu
    }

    /** Every seat holds fourteen cards and has won no tricks, finished nothing and called nothing. */
    predicate FreshRound()
      requires |players| == 4
      reads players
    {
      forall i :: 0 <= i < 4 ==>
        |players[i].hand| == 14 && players[i].tricksWon == [] && !players[i].finished
        && !players[i].calledTichu && !players[i].calledGrandTichu
    }

    /**
     * `start_new_round`; `shuffled` is the deck as `random.shuffle` left it
     * (`ShuffledDeck` gives what the round needs of it).
     */
    method StartNewRound(shuffled: seq<Card>)
      requires Valid()
      requires |shuffled| == 56
      modifies this`passCount, this`currentTrick, this`finishedPlayers, this`deck, this`turnIndex
      modifies players`hand, players`tricksWon, players`calledTichu, players`calledGrandTichu, players`finished
      ensures Valid()
      ensures deck == [] && passCount == 0 && currentTrick == [] && finishedPlayers == []
      ensures FreshRound()
      ensures HeldCards() == multiset(shuffled)
      ensures turnIndex == StartingSeat(Hands(), 4, old(turnIndex))
      ensures HasRankOne(shuffled) ==> HasRankOne(players[turnIndex].hand)
      ensures forall i {:trigger Dealt(shuffled, 14, i)} :: 0 <= i < 4 ==> players[i].hand == SortByRank(Dealt(shuffled, 14, i))
    {
      passCount := 0;
      currentTrick := [];
      finishedPlayers := [];
      assert Seen() && TrickCleared();
      DealNewHands(shuffled);
      assert Seen() && TrickCleared();
    }

    /** No passes counted, no trick on the table and nobody out. */
    predicate TrickCleared()
      reads this`passCount, this`currentTrick, this`finishedPlayers
    {
      passCount == 0 && currentTrick == [] && finishedPlayers == []
    }

    /** The part of `start_new_round` that touches the players: reset, deal all 56 cards, pick the starting seat. */
    method DealNewHands(shuffled: seq<Card>)
      requires Seated() && 0 <= turnIndex < 4 && |shuffled| == 56
      modifies this`deck, this`turnIndex, players`hand, players`tricksWon, players`calledTichu
      modifies players`calledGrandTichu, players`finished
      ensures Seated() && 0 <= turnIndex < 4 && deck == []
      ensures FreshRound()
      ensures HeldCards() == multiset(shuffled)
      ensures turnIndex == StartingSeat(Hands(), 4, old(turnIndex))
      ensures HasRankOne(shuffled) ==> HasRankOne(players[turnIndex].hand)
      ensures forall i {:trigger Dealt(shuffled, 14, i)} :: 0 <= i < 4 ==> players[i].hand == SortByRank(Dealt(shuffled, 14, i))
    {
      DealFresh(shuffled);
      if HasRankOne(shuffled) {
        RankOneDealt(shuffled);
      }
      SetStartingPlayerIndex();
    }

    /** Reset every player and deal them the 56 cards of `shuffled`. */
    method DealFresh(shuffled: seq<Card>)
      requires Seated() && |shuffled| == 56
      modifies this`deck, players`hand, players`tricksWon, players`calledTichu
      modifies players`calledGrandTichu, players`finished
      ensures Seated() && deck == []
      ensures FreshRound()
      ensures HeldCards() == multiset(shuffled)
      ensures forall i {:trigger Dealt(shuffled, 14, i)} :: 0 <= i < 4 ==> players[i].hand == SortByRank(Dealt(shuffled, 14, i))
    {
      ResetPlayers();
      assert Cleared(0) && Cleared(1) && Cleared(2) && Cleared(3);
      deck := shuffled;
      DealFromEmpty(shuffled);
    }

    /** All 56 cards of `shuffled` dealt to players whose round state has just been reset. */
    method DealFromEmpty(shuffled: seq<Card>)
      requires Seated() && |shuffled| == 56 && deck == shuffled
      requires Hands() == [[], [], [], []] && Cleared(0) && Cleared(1) && Cleared(2) && Cleared(3)
      modifies this`deck, players`hand
      ensures Seated() && deck == []
      ensures FreshRound()
      ensures HeldCards() == multiset(shuffled)
      ensures forall i {:trigger Dealt(shuffled, 14, i)} :: 0 <= i < 4 ==> players[i].hand == SortByRank(Dealt(shuffled, 14, i))
    {
      ghost var h0 := Hands();
      DealAll();
      FreshAfterDeal(shuffled, h0);
    }

    /** Hands dealt from nothing, with the players' other round state already reset, make a fresh round. */
    lemma FreshAfterDeal(shuffled: seq<Card>, h0: seq<seq<Card>>)
      requires |players| == 4 && |shuffled| == 56 && h0 == [[], [], [], []]
      requires Hands() == DealtHands(h0, shuffled, 14)
      requires Cleared(0) && Cleared(1) && Cleared(2) && Cleared(3)
      ensures FreshRound()
      ensures forall i {:trigger Dealt(shuffled, 14, i)} :: 0 <= i < 4 ==> players[i].hand == SortByRank(Dealt(shuffled, 14, i))
    {
      ghost var hs := Hands();
      forall i | 0 <= i < 4
        ensures players[i].hand == SortByRank(Dealt(shuffled, 14, i)) && |players[i].hand| == 14 && Cleared(i)
      {
        DealtFromNothing(shuffled, h0, hs, i);
        assert i == 0 || i == 1 || i == 2 || i == 3;
      }
    }

    /** The two dealing phases of `start_new_round`: eight cards to each seat, then six more. */
    method DealAll()
      requires Seated() && |deck| == 56
      modifies this`deck, players`hand
      ensures Seated() && deck == [] && HeldCards() == old(multiset(deck) + HeldCards())
      ensures Hands() == DealtHands(old(Hands()), old(deck), 14)
    {
      ghost var d0, h0 := deck, Hands();
      DealtNothing(h0, d0);
      DealRounds(8, h0);
      ghost var d8 := deck;
      EightDealt(h0, d0);
      DealRounds(6, AfterEight(h0, d0));
      AllDealt(h0, d0, d8);
    }

    /** After the first eight rounds the deal goes on from the hands so far and the 24 cards left. */
    lemma EightDealt(h0: seq<seq<Card>>, d0: seq<Card>)
      requires |d0| == 56 && Dealing(h0, d0, 8)
      ensures Dealing(AfterEight(h0, d0), deck, 0)
    {
      DealtHalfway(h0, d0, Hands(), deck);
    }

    /** After six more rounds the deck is empty and the hands are those of fourteen rounds, holding every card. */
    lemma AllDealt(h0: seq<seq<Card>>, d0: seq<Card>, d8: seq<Card>)
      requires |h0| == 4 && |d0| == 56 && d8 == d0[..|d0| - 4 * 8] && Dealing(AfterEight(h0, d0), d8, 6)
      ensures deck == [] && Hands() == DealtHands(h0, d0, 14)
      ensures HeldCards() == multiset(d0) + AllCards(h0)
    {
      DealtWhole(h0, d0, d8, Hands(), deck);
    }

    /** `for player in self.players: player.reset_for_new_round()`. */
    method ResetPlayers()
      requires Seated()
      modifies players`hand, players`tricksWon, players`calledTichu, players`calledGrandTichu, players`finished
      ensures Seated() && HeldCards() == multiset{}
      ensures forall i :: 0 <= i < 4 ==>
        players[i].hand == [] && players[i].tricksWon == [] && !players[i].finished
        && !players[i].calledTichu && !players[i].calledGrandTichu
    {
      for i := 0 to 4
        invariant Seated()
        invariant forall k :: 0 <= k < i ==>
          players[k].hand == [] && players[k].tricksWon == [] && !players[k].finished
          && !players[k].calledTichu && !players[k].calledGrandTichu
      {
        players[i].ResetForNewRound();
      }
    }

    /** A rank-1 card of the dealt deck is in some hand once the whole deck is dealt. */
    lemma RankOneDealt(dealt: seq<Card>)
      requires |players| == 4 && HeldCards() == multiset(dealt) && HasRankOne(dealt)
      ensures exists i :: 0 <= i < 4 && HasRankOne(Hands()[i])
    {
      var k :| 0 <= k < |dealt| && dealt[k].rank == 1;
      var c := dealt[k];
      assert c in multiset(dealt);
      HeldSomewhere(Hands(), c);
      var i :| 0 <= i < 4 && c in Hands()[i];
      var k' :| 0 <= k' < |Hands()[i]| && Hands()[i][k'] == c;
      assert HasRankOne(Hands()[i]);
    }

    /**
     * `n` rounds of one card to each seat in turn, each taken from the end of the deck.
     * `base` holds, seat by seat, cards whose sorting gives the hand before the deal.
     */
    method DealRounds(n: nat, ghost base: seq<seq<Card>>)
      requires Dealing(base, deck, 0) && |deck| >= 4 * n
      modifies this`deck, players`hand
      ensures Dealing(base, old(deck), n)
    {
      ghost var d0 := deck;
      for r := 0 to n
        invariant Dealing(base, d0, r)
      {
        DealNextRound(base, d0, r);
      }
    }

    /** Seated players holding the hands, and a deck holding the rest, of a deal from `d0` after `r` rounds. */
    ghost predicate Dealing(base: seq<seq<Card>>, d0: seq<Card>, r: nat)
      reads this, players
    {
      Seated() && |base| == 4 && |d0| >= 4 * r
      && deck == d0[..|d0| - 4 * r] && Hands() == DealtHands(base, d0, r)
    }

    /** Round `r` of a deal from `d0`: the hands and the deck after `r` rounds become those after `r + 1`. */
    method DealNextRound(ghost base: seq<seq<Card>>, ghost d0: seq<Card>, ghost r: nat)
      requires Dealing(base, d0, r) && |d0| >= 4 * (r + 1)
      modifies this`deck, players`hand
      ensures Dealing(base, d0, r + 1)
    {
      ghost var hb, db := Hands(), deck;
      DealRound();
      DealtRoundStep(base, d0, r, hb, db, Hands(), deck);
    }

    /** One pass of `for player in self.players: player.receive_card(self.deck.pop())`. */
    method DealRound()
      requires Seated() && |deck| >= 4
      modifies this`deck, players`hand
      ensures Seated() && deck == old(deck)[..|old(deck)| - 4]
      ensures Hands() == RoundPrefix(old(Hands()), old(deck), 4)
    {
      ghost var d0, h0 := deck, Hands();
      RoundStart(h0, d0);
      for j := 0 to 4
        invariant RoundDealing(h0, d0, j)
      {
        DealNextSeat(h0, d0, j);
      }
    }

    /** Seated players holding hands `h0` with the first `j` seats of a round from `d0` dealt, and the deck left. */
    ghost predicate RoundDealing(h0: seq<seq<Card>>, d0: seq<Card>, j: nat)
      reads this, players
    {
      Seated() && |h0| == 4 && j <= 4 && |d0| >= 4
      && deck == d0[..|d0| - j] && Hands() == RoundPrefix(h0, d0, j)
    }

    /** Seat `j`'s turn in a round from `d0`: the hands and deck after `j` seats become those after `j + 1`. */
    method DealNextSeat(ghost h0: seq<seq<Card>>, ghost d0: seq<Card>, j: nat)
      requires RoundDealing(h0, d0, j) && j < 4
      modifies this`deck, players`hand
      ensures RoundDealing(h0, d0, j + 1)
    {
      ghost var hb, c := Hands(), deck[|deck| - 1];
      assert c == d0[|d0| - 1 - j];
      DealTo(j);
      RoundStep(h0, d0, j, hb, c, Hands());
      PrefixOfPrefix(d0, |d0| - j, |d0| - (j + 1));
    }

    /** `players[j].receive_card(self.deck.pop())`. */
    method DealTo(j: int)
      requires Seated() && |deck| >= 1 && 0 <= j < 4
      modifies this`deck, {players[j]}`hand
      ensures Seated() && deck == old(deck)[..|old(deck)| - 1]
      ensures players[j].hand == SortByRank(old(players[j].hand) + [old(deck)[|old(deck)| - 1]])
      ensures forall i :: 0 <= i < 4 && i != j ==> players[i].hand == old(players[i].hand)
      ensures Hands() == Receive(old(Hands()), j, old(deck)[|old(deck)| - 1])
    {
      var card := PopDeck();
      GiveTo(j, card);
    }

    /** `self.deck.pop()`: the last card leaves the deck. */
    method PopDeck() returns (card: Card)
      requires |deck| >= 1
      modifies this`deck
      ensures old(deck) == deck + [card]
    {
      card := deck[|deck| - 1];
      assert deck == deck[..|deck| - 1] + [card];
      deck := deck[..|deck| - 1];
    }

    /** The number of cards in each seat's hand. */
    function HandSizes(): (ns: seq<nat>)
      requires |players| == 4
      reads players
      ensures |ns| == 4 && forall i :: 0 <= i < 4 ==> ns[i] == |players[i].hand|
    {
      [|players[0].hand|, |players[1].hand|, |players[2].hand|, |players[3].hand|]
    }

    /** The players' names, seat by seat. */
    function Names(): (ns: seq<string>)
      requires |players| == 4
      ensures |ns| == 4 && forall i :: 0 <= i < 4 ==> ns[i] == players[i].name
    {
      [players[0].name, players[1].name, players[2].name, players[3].name]
    }

    /**
     * `pass_cards`: seat by seat, the three cards listed under the player's
     * name leave the hand and go one each to the next three seats. `err` is
     * the first `KeyError` or `ValueError` the source raises; the seats
     * before it have passed, the failing seat keeps the removals made before
     * the missing card, and later seats are untouched.
     */
    method PassCards(passes: map<string, seq<Card>>) returns (err: Option<PassError>)
      requires Seated()
      modifies players`hand
      ensures Seated()
      ensures (Hands(), err) == PassUpTo(old(Hands()), Names(), passes, 4)
    {
      err := None;
      var i := 0;
      while i < 4 && err == None
        invariant 0 <= i <= 4 && Seated()
        invariant (Hands(), err) == PassUpTo(old(Hands()), Names(), passes, i)
      {
        err := PassFromSeat(i, passes);
        i := i + 1;
      }
      if i < 4 {
        PassStops(old(Hands()), Names(), passes, i, 4);
      }
    }

    /** One turn of the `pass_cards` loop, for seat `i`. */
    method PassFromSeat(i: int, passes: map<string, seq<Card>>) returns (err: Option<PassError>)
      requires Seated() && 0 <= i < 4
      modifies players`hand
      ensures Seated()
      ensures (Hands(), err) == PassSeat(old(Hands()), i, players[i].name, passes)
    {
      var name := players[i].name;
      if name !in passes {
        return Some(NoEntry(name));
      }
      var cards := passes[name];
      if |cards| != 3 {
        return Some(NotThreeCards(name));
      }
      ghost var hands := Hands();
      var missing := players[i].RemoveCards(cards);
      ghost var left := hands[i := players[i].hand];
      assert Hands() == left;
      assert RemoveEach(hands[i], cards) == (players[i].hand, missing);
      if missing.Some? {
        return Some(NotInHand(missing.value));
      }
      GiveTo(SeatOffset(i, 1), cards[0]);
      GiveTo(SeatOffset(i, 2), cards[1]);
      GiveTo(SeatOffset(i, 3), cards[2]);
      assert Hands() == Give(left, i, cards);
      return None;
    }

    /** `self.players[j].receive_card(card)`. */
    method GiveTo(j: int, card: Card)
      requires Seated() && 0 <= j < 4
      modifies {players[j]}`hand
      ensures Seated() && Hands() == Receive(old(Hands()), j, card)
    {
      ghost var hands := Hands();
      players[j].ReceiveCard(card);
      assert Hands() == hands[j := players[j].hand];
    }

    /** `set_starting_player_index`. */
    method SetStartingPlayerIndex()
      requires Seated() && 0 <= turnIndex < 4
      modifies this`turnIndex
      ensures 0 <= turnIndex < 4 && turnIndex == StartingSeat(Hands(), 4, old(turnIndex))
      ensures (exists i :: 0 <= i < 4 && HasRankOne(players[i].hand)) ==> HasRankOne(players[turnIndex].hand)
    {
      for i := 0 to 4
        invariant turnIndex == StartingSeat(Hands(), i, old(turnIndex))
        invariant 0 <= turnIndex < 4
      {
        var h := players[i].hand;
        for k := 0 to |h|
          invariant turnIndex == (if HasRankOne(h[..k]) then i else StartingSeat(Hands(), i, old(turnIndex)))
          invariant 0 <= turnIndex < 4
        {
          HasRankOneNext(h, k);
          if h[k].rank == 1 {
            turnIndex := i;
          }
        }
        assert h[..|h|] == h;
      }
    }

    /** `get_current_player`. */
    function CurrentPlayer(): (p: Player)
      requires Valid()
      reads this, players
      ensures p in players && p.team == Some(SeatTeam(turnIndex))
    {
      players[turnIndex]
    }

    /** `is_round_over`: three players are out. */
    predicate IsRoundOver()
      reads this
    {
      |finishedPlayers| == 3
    }

    /** Some seat is not in the finishing list while fewer than four entries are in it. */
    lemma SomeSeatUnfinished()
      requires Valid() && |finishedPlayers| < 4
      ensures exists u :: 0 <= u < 4 && players[u] !in finishedPlayers
    {
      var fs := set x | x in finishedPlayers;
      var ps := set i | 0 <= i < 4 :: players[i];
      if forall u :: 0 <= u < 4 ==> players[u] in finishedPlayers {
        assert ps <= fs;
        assert ps == {players[0], players[1], players[2], players[3]};
        assert |ps| == 4;
        ComboFacts.SeqSetSize(finishedPlayers);
        ComboFacts.SubsetSize(ps, fs);
      }
    }

    /**
     * `advance_turn`: with at least three players out nothing happens;
     * otherwise the turn moves on, seat by seat, to the next seat whose player
     * has not finished.
     */
    method AdvanceTurn()
      requires Valid()
      modifies this`turnIndex
      ensures Valid()
      ensures |finishedPlayers| >= |players| - 1 ==> turnIndex == old(turnIndex)
      ensures |finishedPlayers| < |players| - 1 ==>
        players[turnIndex] !in finishedPlayers
        && MovedOnTo(old(turnIndex), turnIndex)
    {
      if |finishedPlayers| >= |players| - 1 {
        return;
      }
      SomeSeatUnfinished();
      var u :| 0 <= u < 4 && players[u] !in finishedPlayers;
      MoveToUnfinished(u);
    }

    /** Seat `t` is reached from seat `t0` in one to four steps, every seat passed over being finished. */
    predicate MovedOnTo(t0: int, t: int)
      requires |players| == 4 && 0 <= t0 < 4
      reads this, players
    {
      exists d :: 1 <= d <= 4 && t == SeatAfter(t0, d)
        && forall e :: 1 <= e < d ==> players[SeatAfter(t0, e)] in finishedPlayers
    }

    /** The `while True` loop of `advance_turn`, given a seat `u` whose player is still in. */
    method MoveToUnfinished(ghost u: int)
      requires |players| == 4 && 0 <= turnIndex < 4
      requires 0 <= u < 4 && players[u] !in finishedPlayers
      modifies this`turnIndex
      ensures 0 <= turnIndex < 4 && players[turnIndex] !in finishedPlayers
      ensures MovedOnTo(old(turnIndex), turnIndex)
    {
      var t0 := turnIndex;
      SeatReached(t0, u);
      ghost var du :| 1 <= du <= 4 && SeatAfter(t0, du) == u;
      turnIndex := (turnIndex + 1) % 4;
      ghost var d := 1;
      while players[turnIndex] in finishedPlayers
        invariant 1 <= d <= du && turnIndex == SeatAfter(t0, d)
        invariant forall e :: 1 <= e < d ==> players[SeatAfter(t0, e)] in finishedPlayers
        decreases du - d
      {
        assert turnIndex != u && d < du;
        assert players[SeatAfter(t0, d)] in finishedPlayers;
        assert SeatAfter(t0, d + 1) == (turnIndex + 1) % 4;
        turnIndex := (turnIndex + 1) % 4;
        d := d + 1;
      }
      assert 1 <= d <= 4 && turnIndex == SeatAfter(t0, d);
    }

    /** The rank of the combo on top of the current trick, if a trick is running. */
    function TopRank(): Option<int>
      reads this
    {
      if currentTrick == [] then None else Some(currentTrick[|currentTrick| - 1].combo.rankHalves)
    }

    /**
     * `valid_play`: not an invalid combo, no unmet wish in the current hand,
     * and, over a running trick, a strictly higher rank than the top combo,
     * whatever the kinds of the two combos.
     */
    predicate ValidPlay(cards: seq<Card>): (ok: bool)
      requires Valid()
      reads this, players
      ensures ok ==> KindOf(cards) != Invalid
      ensures ok ==> wish.Some? && wish.value in NamesOf(CurrentPlayer().hand) ==> wish.value in NamesOf(cards)
      ensures KindOf(cards) != Invalid && !WishUnmet(wish, CurrentPlayer().hand, cards) && currentTrick == [] ==> ok
    {
      var combo := MakeCombo(cards, TopRank());
      combo.kind != Invalid
      && !WishUnmet(wish, CurrentPlayer().hand, cards)
      && (TopRank().Some? ==> combo.rankHalves > TopRank().value)
    }

    /**
     * Over a running trick topped by a combo of deck cards `top` that is not a straight,
     * any straight of deck cards that meets the wish may be played.
     */
    lemma StraightBeatsOtherKinds(cards: seq<Card>, top: seq<Card>, t: Option<int>)
      requires Valid() && ComboFacts.FromDeck(cards) && cards != []
      requires ComboFacts.FromDeck(top) && top != []
      requires currentTrick != [] && currentTrick[|currentTrick| - 1].combo == MakeCombo(top, t)
      requires KindOf(top) != Straight && KindOf(top) != BombStraight
      requires KindOf(cards) == Straight || KindOf(cards) == BombStraight
      requires !WishUnmet(wish, CurrentPlayer().hand, cards)
      ensures ValidPlay(cards)
    {
      ComboFacts.StraightsOutrankAll(top, t);
      ComboFacts.StraightsOutrankAll(cards, TopRank());
    }

    /**
     * Over a running trick topped by a straight of deck cards `top`, no other kind
     * of deck cards may be played, not even a four-of-a-kind bomb.
     */
    lemma NothingButStraightsBeatStraights(cards: seq<Card>, top: seq<Card>, t: Option<int>)
      requires Valid() && ComboFacts.FromDeck(cards) && cards != []
      requires ComboFacts.FromDeck(top) && top != []
      requires currentTrick != [] && currentTrick[|currentTrick| - 1].combo == MakeCombo(top, t)
      requires KindOf(top) == Straight || KindOf(top) == BombStraight
      requires KindOf(cards) != Straight && KindOf(cards) != BombStraight
      ensures !ValidPlay(cards)
    {
      ComboFacts.StraightsOutrankAll(top, t);
      ComboFacts.StraightsOutrankAll(cards, TopRank());
    }

    /** What settlement needs of each seat, in table order. */
    function SeatsNow(): seq<Seat>
      requires Seated()
      reads this`finishedPlayers, players
    {
      [SeatNow(0), SeatNow(1), SeatNow(2), SeatNow(3)]
    }

    /** What settlement needs of seat `i`. */
    function SeatNow(i: int): Seat
      requires Seated() && 0 <= i < 4
      reads this`finishedPlayers, players
    {
      Seat(players[i].team.value, SumPoints(players[i].tricksWon), SumPoints(players[i].hand),
           players[i] in finishedPlayers)
    }

    /** The team of the first player out, if any player is out. */
    function FirstOut(): Option<Team>
      requires Seated() && Seen()
      reads this`finishedPlayers, this`currentTrick, this`dragonWinner, players
    {
      if finishedPlayers == [] then None else finishedPlayers[0].team
    }

    /**
     * `calculate_round_points`: settle the round seat by seat and add the
     * result to the running team scores. `None` is the `IndexError` raised
     * when a seat is still in but nobody has gone out; the scores are then
     * left as they were.
     */
    method CalculateRoundPoints() returns (r: Option<TeamPoints>)
      requires Valid()
      modifies this`teamScores
      ensures r == RoundPointsOf(SeatsNow(), FirstOut())
      ensures r.Some? ==> teamScores == old(teamScores).Plus(r.value)
      ensures r.None? ==> teamScores == old(teamScores)
    {
      var roundPoints := TeamPoints(0, 0);
      for i := 0 to 4
        invariant RoundPointsOf(SeatsNow()[..i], FirstOut()) == Some(roundPoints)
      {
        var p := players[i];
        var points := SumPoints(p.tricksWon);
        ghost var seats := SeatsNow();
        assert seats[..i + 1][..i] == seats[..i];
        assert seats[..i + 1][i] == seats[i] == SeatNow(i);
        if p !in finishedPlayers {
          if finishedPlayers == [] {
            RoundPointsFailureSticks(SeatsNow(), i + 1, FirstOut());
            return None;
          }
          roundPoints := roundPoints.Add(finishedPlayers[0].team.value, SumPoints(p.hand));
          if p.team == Some(A) {
            roundPoints := roundPoints.Add(B, points);
          } else {
            roundPoints := roundPoints.Add(A, points);
          }
        } else {
          roundPoints := roundPoints.Add(p.team.value, points);
        }
      }
      assert SeatsNow()[..4] == SeatsNow();
      teamScores := teamScores.Plus(roundPoints);
      return Some(roundPoints);
    }

    /** `get_combo_player`: the player of the latest trick entry holding this combo. */
    method GetComboPlayer(combo: Combo) returns (r: Option<Player>)
      ensures r.None? <==> forall k :: 0 <= k < |currentTrick| ==> currentTrick[k].combo != combo
      ensures r.Some? ==>
        exists k :: 0 <= k < |currentTrick| && currentTrick[k] == Play(combo, r.value)
          && forall k' :: k < k' < |currentTrick| ==> currentTrick[k'].combo != combo
    {
      var i := |currentTrick|;
      while i > 0
        invariant 0 <= i <= |currentTrick|
        invariant forall k' :: i <= k' < |currentTrick| ==> currentTrick[k'].combo != combo
      {
        i := i - 1;
        if currentTrick[i].combo == combo {
          return Some(currentTrick[i].player);
        }
      }
      return None;
    }
  }
}
