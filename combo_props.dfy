/** Properties of combo classification and ranking (game_logic/combo.py). */
module ComboFacts {
  import opened Wrappers
  import opened Cards
  import opened RankRuns
  import opened Combos
  import Text

  lemma {:induction false} CountNameAllSame(cards: seq<Card>, n: string)
    requires forall i :: 0 <= i < |cards| ==> cards[i].name == n
    ensures CountName(cards, n) == |cards|
  {
    if cards != [] {
      CountNameAllSame(cards[..|cards| - 1], n);
    }
  }

  /** One distinct name exactly when every card carries the first card's name. */
  lemma OneDistinctName(cards: seq<Card>)
    requires |cards| >= 1
    ensures |DistinctNames(cards)| == 1 <==> SameName(cards)
  {
    var d := DistinctNames(cards);
    assert cards[0].name in d;
    if |d| == 1 {
      forall i | 0 <= i < |cards| ensures cards[i].name == cards[0].name {
        assert cards[i].name in d;
      }
    }
  }

  /** `unique_counts == [len(cards)]` exactly when all cards share one name. */
  lemma CountsAllOne(cards: seq<Card>)
    requires |cards| >= 1
    ensures NameCounts(cards) == [|cards|] <==> SameName(cards)
  {
    OneDistinctName(cards);
    var d := DistinctNames(cards);
    if SameName(cards) {
      assert d[0] in d;
      assert d[0] == cards[0].name;
      CountNameAllSame(cards, cards[0].name);
    }
  }

  /** Two cards make a pair exactly when they share a name or one of them is the Phoenix. */
  lemma PairRule(cards: seq<Card>)
    requires |cards| == 2
    ensures KindOf(cards) == Pair <==> cards[0].name == cards[1].name || HasPhoenix(cards)
  {
    CountsAllOne(cards);
    OneDistinctName(cards);
    var d := DistinctNames(cards);
    assert |d| == 1 || |d| == 2;
  }

  /** Three cards make a triple exactly when they share a name, or the Phoenix is among them and they carry exactly two names. */
  lemma TripleRule(cards: seq<Card>)
    requires |cards| == 3
    ensures KindOf(cards) == Triple <==>
      SameName(cards) || (HasPhoenix(cards) && |DistinctNames(cards)| == 2)
  {
    CountsAllOne(cards);
  }

  /** Four cards of one name are a bomb, and a bomb is four cards of one name. */
  lemma FourKindRule(cards: seq<Card>)
    ensures KindOf(cards) == Bomb4Kind <==> |cards| == 4 && SameName(cards)
  {
    if |cards| == 4 {
      CountsAllOne(cards);
    }
  }

  /**
   * Five cards make a full house exactly when their names occur three and two
   * times, or the Phoenix is among them and the names occur 2, 2, 1 or 3, 1, 1
   * times; no other number of cards does.
   */
  lemma FullHouseRule(cards: seq<Card>)
    ensures KindOf(cards) == FullHouse <==>
      |cards| == 5 &&
      (multiset(NameCounts(cards)) == multiset{2, 3}
       || (HasPhoenix(cards) && (multiset(NameCounts(cards)) == multiset{1, 2, 2}
                                 || multiset(NameCounts(cards)) == multiset{1, 1, 3})))
  {
  }

  /** A single card is the Dog combo exactly when its lower-cased name is "dog". */
  lemma SingleRule(c: Card)
    ensures KindOf([c]) == (if Text.Lower(c.name) == "dog" then Dog else Single)
  {
  }

  /** The Phoenix as a single: 1.5 when leading, else half a step over the trick's top rank, at most 14.5. */
  lemma PhoenixSingleRank(c: Card, top: Option<int>)
    requires IsPhoenix(c)
    ensures var r := MakeCombo([c], top).rankHalves;
      (top.None? ==> r == 3)
      && (top.Some? ==> r == Min(top.value + 1, 29))
  {
    assert HasPhoenix([c]) by { assert IsPhoenix([c][0]); }
  }

  /** The card at `k` has a rank that occurs exactly `n` times among the cards. */
  predicate RankHeld(cards: seq<Card>, k: int, n: nat)
    requires 0 <= k < |cards|
  {
    CountRank(cards, cards[k].rank) == n
  }

  /**
   * The full-house rank: the rank of the first card whose rank is held three times;
   * with no such card, 0 raised to the highest rank held twice when the Phoenix is
   * in the combo, and 0 without it.
   */
  lemma FullHouseRankRule(cards: seq<Card>, phoenix: bool)
    ensures var r := FullHouseRank(cards, phoenix);
      ((exists k :: 0 <= k < |cards| && RankHeld(cards, k, 3)) ==>
         exists k :: 0 <= k < |cards| && RankHeld(cards, k, 3) && r == cards[k].rank
                     && forall j :: 0 <= j < k ==> !RankHeld(cards, j, 3))
      && ((forall k :: 0 <= k < |cards| ==> !RankHeld(cards, k, 3)) ==>
            r >= 0
            && (forall k :: 0 <= k < |cards| && phoenix && RankHeld(cards, k, 2) ==> cards[k].rank <= r)
            && (r == 0 || (phoenix && exists k :: 0 <= k < |cards| && RankHeld(cards, k, 2) && cards[k].rank == r)))
  {
    FullHouseRankFromRule(cards, [], 0, phoenix, 0);
  }

  /** `FullHouseRankRule` for a walk that has passed the first `i` cards, having met the ranks in `seen`. */
  lemma {:induction false} FullHouseRankFromRule(cards: seq<Card>, seen: seq<int>, i: nat, phoenix: bool, best: int)
    requires i <= |cards|
    requires forall x :: x in seen ==> exists j :: 0 <= j < i && cards[j].rank == x
    requires forall j :: 0 <= j < i ==> !RankHeld(cards, j, 3)
    requires best >= 0
    requires forall j :: 0 <= j < i && phoenix && RankHeld(cards, j, 2) ==> cards[j].rank <= best
    requires best == 0 || (phoenix && exists j :: 0 <= j < i && RankHeld(cards, j, 2) && cards[j].rank == best)
    ensures var r := FullHouseRankFrom(cards, seen, i, phoenix, best);
      ((exists k :: i <= k < |cards| && RankHeld(cards, k, 3)) ==>
         exists k :: i <= k < |cards| && RankHeld(cards, k, 3) && r == cards[k].rank
                     && forall j :: 0 <= j < k ==> !RankHeld(cards, j, 3))
      && ((forall k :: i <= k < |cards| ==> !RankHeld(cards, k, 3)) ==>
            r >= 0
            && (forall k :: 0 <= k < |cards| && phoenix && RankHeld(cards, k, 2) ==> cards[k].rank <= r)
            && (r == 0 || (phoenix && exists k :: 0 <= k < |cards| && RankHeld(cards, k, 2) && cards[k].rank == r)))
    decreases |cards| - i
  {
    if i < |cards| {
      var r := cards[i].rank;
      if r in seen {
        var j :| 0 <= j < i && cards[j].rank == r;
        assert CountRank(cards, cards[i].rank) == CountRank(cards, cards[j].rank);
        assert !RankHeld(cards, j, 3);
        FullHouseRankFromRule(cards, seen, i + 1, phoenix, best);
      } else if !RankHeld(cards, i, 3) {
        var best' := if phoenix && RankHeld(cards, i, 2) && r > best then r else best;
        FullHouseRankFromRule(cards, seen + [r], i + 1, phoenix, best');
      }
    }
  }

  // ---------------------------------------------------------------------------
  // Deck cards
  // ---------------------------------------------------------------------------

  predicate FromDeck(cards: seq<Card>) {
    forall i :: 0 <= i < |cards| ==> cards[i] in TichuDeck()
  }

  lemma DeckCardFacts(c: Card)
    requires c in TichuDeck()
    ensures -1 <= c.rank <= 15
    ensures c.suit.None? ==> c.rank in {-1, 0, 1, 15}
    ensures IsPhoenix(c) ==> c.suit.None?
  {
    var i :| 0 <= i < 56 && TichuDeck()[i] == c;
    DeckValues(i);
    if i >= 52 {
      SpecialRanks(c, i);
    } else {
      StandardNotPhoenix(c, i);
    }
  }

  lemma SpecialRanks(c: Card, i: nat)
    requires 52 <= i < 56 && TichuDeck()[i] == c
    ensures c.rank in {-1, 0, 1, 15}
  {
    DeckAt(i);
    assert c == Specials[i - 52];
  }

  lemma StandardNotPhoenix(c: Card, i: nat)
    requires i < 52 && TichuDeck()[i] == c
    ensures !IsPhoenix(c)
  {
    DeckAt(i);
    NameShort(i % 13);
    assert |Text.Lower(c.name)| <= 2;
  }

  lemma NameShort(j: nat)
    requires j < 13
    ensures |Names[j]| <= 2
  {
  }

  /** A same-suit straight of deck cards holds no suitless card, so neither the Phoenix nor the Mah Jong. */
  lemma BombStraightAllSuited(cards: seq<Card>)
    requires FromDeck(cards) && KindOf(cards) == BombStraight
    ensures forall i :: 0 <= i < |cards| ==> cards[i].suit.Some?
    ensures !HasPhoenix(cards) && MahJong !in cards
  {
    if cards[0].suit.None? {
      SuitlessRanksFew(cards);
    }
    if HasPhoenix(cards) {
      var i :| 0 <= i < |cards| && IsPhoenix(cards[i]);
      DeckCardFacts(cards[i]);
    }
  }

  /** Suitless deck cards take at most four distinct ranks. */
  lemma SuitlessRanksFew(cards: seq<Card>)
    requires FromDeck(cards)
    requires forall i :: 0 <= i < |cards| ==> cards[i].suit.None?
    ensures |SortedSet(Ranks(cards))| <= 4
  {
    var vs := SortedSet(Ranks(cards));
    var seen := set x | x in vs;
    var suitless: set<int> := {-1, 0, 1, 15};
    assert |suitless| == 4;
    forall x | x in vs ensures x in suitless {
      assert x in Ranks(cards);
      var i :| 0 <= i < |cards| && Ranks(cards)[i] == x;
      DeckCardFacts(cards[i]);
    }
    SubsetSize(seen, suitless);
    IncreasingSetSize(vs);
  }

  /** Every non-straight combo of deck cards ranks at most 15 (30 halves); every straight at least 499 (998 halves). */
  lemma StraightsOutrankAll(cards: seq<Card>, top: Option<int>)
    requires FromDeck(cards) && cards != []
    ensures var c := MakeCombo(cards, top);
      (c.kind == Straight || c.kind == BombStraight ==> c.rankHalves >= 998)
      && (c.kind != Straight && c.kind != BombStraight ==> c.rankHalves <= 30)
  {
    var c := MakeCombo(cards, top);
    DeckCardFacts(cards[0]);
    if c.kind == Straight || c.kind == BombStraight {
      var m := MaxRank(cards);
      assert m >= cards[0].rank;
    } else if c.kind == Pair || c.kind == Triple {
      DeckCardFacts(cards[1]);
    } else if c.kind == FullHouse {
      FullHouseRankBound(cards, [], 0, HasPhoenix(cards), 0);
    }
  }

  lemma {:induction false} FullHouseRankBound(cards: seq<Card>, seen: seq<int>, i: nat, phoenix: bool, best: int)
    requires FromDeck(cards) && i <= |cards| && best <= 15
    ensures FullHouseRankFrom(cards, seen, i, phoenix, best) <= 15
    decreases |cards| - i
  {
    if i < |cards| {
      DeckCardFacts(cards[i]);
      var r := cards[i].rank;
      if r !in seen && CountRank(cards, r) != 3 {
        FullHouseRankBound(cards, seen + [r], i + 1, phoenix,
                           if phoenix && CountRank(cards, r) == 2 && r > best then r else best);
      } else if r in seen {
        FullHouseRankBound(cards, seen, i + 1, phoenix, best);
      }
    }
  }

  // ---------------------------------------------------------------------------
  // Worked straights with the Phoenix
  // ---------------------------------------------------------------------------

  lemma SortedSetOfIncreasing(xs: seq<int>)
    requires Increasing(xs)
    ensures SortedSet(xs) == xs
  {
    SameElementsIncreasing(SortedSet(xs), xs);
  }

  lemma {:induction false} SameElementsIncreasing(s: seq<int>, t: seq<int>)
    requires Increasing(s) && Increasing(t)
    requires forall x :: x in s <==> x in t
    ensures s == t
  {
    assert s == [] <==> t == [] by {
      if s != [] { assert s[0] in s; }
      if t != [] { assert t[0] in t; }
    }
    if s != [] {
      assert s[0] in s && t[0] in t;
      assert s[0] == t[0] by {
        var i :| 0 <= i < |t| && t[i] == s[0];
        var j :| 0 <= j < |s| && s[j] == t[0];
        assert t[0] <= t[i] && s[0] <= s[j];
      }
      assert s == [s[0]] + s[1..] && t == [t[0]] + t[1..];
      forall x ensures x in s[1..] <==> x in t[1..] {
        if x in s[1..] {
          var i :| 1 <= i < |s| && s[i] == x;
          assert x > s[0] && x in t;
        }
        if x in t[1..] {
          var i :| 1 <= i < |t| && t[i] == x;
          assert x > t[0] && x in s;
        }
      }
      SameElementsIncreasing(s[1..], t[1..]);
    }
  }

  lemma FiveNamesDistinct(cards: seq<Card>)
    requires |cards| == 5
    requires forall i, j :: 0 <= i < j < 5 ==> cards[i].name != cards[j].name
    ensures NameCounts(cards) == [1, 1, 1, 1, 1]
  {
    var d := DistinctNames(cards);
    assert |d| == 5 by {
      assert forall i :: 0 <= i < 5 ==> cards[i].name in d;
      NamesIn(cards, d);
    }
    forall k | 0 <= k < 5 ensures CountName(cards, d[k]) == 1 {
      assert d[k] in d;
      CountNameDistinct(cards, d[k]);
    }
  }

  lemma NamesIn(cards: seq<Card>, d: seq<string>)
    requires |cards| == 5 && |d| <= 5
    requires forall i, j :: 0 <= i < j < 5 ==> cards[i].name != cards[j].name
    requires forall i :: 0 <= i < 5 ==> cards[i].name in d
    ensures |d| == 5
  {
    var names := set i | 0 <= i < 5 :: cards[i].name;
    assert names == {cards[0].name, cards[1].name, cards[2].name, cards[3].name, cards[4].name};
    assert |names| == 5;
    var ds := set x | x in d;
    assert names <= ds;
    SeqSetSize(d);
    SubsetSize(names, ds);
  }

  lemma {:induction false} CountNameDistinct(cards: seq<Card>, n: string)
    requires forall i, j :: 0 <= i < j < |cards| ==> cards[i].name != cards[j].name
    requires exists i :: 0 <= i < |cards| && cards[i].name == n
    ensures CountName(cards, n) == 1
  {
    var p := cards[..|cards| - 1];
    if cards[|cards| - 1].name == n {
      CountNameAbsent(p, n);
    } else {
      CountNameDistinct(p, n);
    }
  }

  lemma {:induction false} CountNameAbsent(cards: seq<Card>, n: string)
    requires forall i :: 0 <= i < |cards| ==> cards[i].name != n
    ensures CountName(cards, n) == 0
  {
    if cards != [] {
      CountNameAbsent(cards[..|cards| - 1], n);
    }
  }

  /** A subset has no more elements than the set containing it. */
  lemma SubsetSize<T>(a: set<T>, b: set<T>)
    requires a <= b
    ensures |a| <= |b|
  {
    assert b == a + (b - a);
  }

  /** A sequence has at least as many positions as distinct elements. */
  lemma {:induction false} SeqSetSize<T>(d: seq<T>)
    ensures |set x | x in d| <= |d|
  {
    if d != [] {
      SeqSetSize(d[1..]);
      assert (set x | x in d) == {d[0]} + (set x | x in d[1..]);
    }
  }
}
