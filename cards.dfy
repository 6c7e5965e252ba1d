/**
 * Cards and the 56-card Tichu deck (game_logic/card.py).
 * A card is an immutable record; cards are compared by rank only.
 */
module Cards {
  import opened Wrappers
  import Text

  /** A card: a label such as "2", "A" or "Dragon", an optional suit, a rank and a point value. */
  datatype Card = Card(name: string, suit: Option<string>, rank: int, points: int)

  /** Python truthiness of `card.suit`: present and not the empty string. */
  predicate Suited(c: Card) {
    c.suit.Some? && c.suit.value != ""
  }

  /** `card.id`: `name_suit` for a suited card, the bare name otherwise. */
  function Id(c: Card): string {
    if Suited(c) then c.name + "_" + c.suit.value else c.name
  }

  /** `card < other`: rank comparison only; suit and name play no part. */
  predicate Lt(a: Card, b: Card) {
    a.rank < b.rank
  }

  const Suits: seq<string> := ["spades", "diamonds", "hearts", "clubs"]
  const Names: seq<string> := ["2", "3", "4", "5", "6", "7", "8", "9", "10", "J", "Q", "K", "A"]

  /** `point_map.get(name, 0)`. */
  function PointValue(name: string): int {
    if name == "5" then 5 else if name == "10" || name == "K" then 10 else 0
  }

  /** The standard card of the given suit at position `j` of `Names`; its rank is `rank_map[name] == j + 2`. */
  function StandardCard(suit: string, j: nat): Card
    requires j < 13
  {
    Card(Names[j], Some(suit), j + 2, PointValue(Names[j]))
  }

  const MahJong: Card := Card("Mah Jong", None, 1, 0)
  const DogCard: Card := Card("Dog", None, -1, 0)
  const PhoenixCard: Card := Card("Phoenix", None, 0, -25)
  const DragonCard: Card := Card("Dragon", None, 15, 25)

  const Specials: seq<Card> := [MahJong, DogCard, PhoenixCard, DragonCard]

  /** The 13 standard cards of one suit, in the order of `Names`. */
  function SuitCards(suit: string): (r: seq<Card>)
    ensures |r| == 13
    ensures forall j :: 0 <= j < 13 ==> r[j] == StandardCard(suit, j)
  {
    seq(13, j requires 0 <= j < 13 => StandardCard(suit, j))
  }

  /** The standard cards of the first `n` suits, suit by suit. */
  function SuitBlocks(n: nat): (r: seq<Card>)
    requires n <= 4
    ensures |r| == 13 * n
  {
    if n == 0 then [] else SuitBlocks(n - 1) + SuitCards(Suits[n - 1])
  }

  /** The deck `create_tichu_deck` returns: 52 standard cards, then Mah Jong, Dog, Phoenix and Dragon. */
  function TichuDeck(): (r: seq<Card>)
    ensures |r| == 56
  {
    SuitBlocks(4) + Specials
  }

  /** `create_tichu_deck`: the nested loops over suits and names, then the four specials. */
  method CreateTichuDeck() returns (deck: seq<Card>)
    ensures deck == TichuDeck()
  {
    deck := [];
    for si := 0 to 4
      invariant deck == SuitBlocks(si)
    {
      var suit := Suits[si];
      for j := 0 to 13
        invariant deck == SuitBlocks(si) + SuitCards(suit)[..j]
      {
        deck := deck + [StandardCard(suit, j)];
        SuitCardsPrefix(suit, j);
      }
      assert SuitCards(suit)[..13] == SuitCards(suit);
    }
    assert deck == SuitBlocks(4);
    deck := deck + [MahJong];
    deck := deck + [DogCard];
    deck := deck + [PhoenixCard];
    deck := deck + [DragonCard];
  }

  lemma SuitCardsPrefix(suit: string, j: nat)
    requires j < 13
    ensures SuitCards(suit)[..j + 1] == SuitCards(suit)[..j] + [StandardCard(suit, j)]
  {
  }

  /** Sum of the points of a sequence of cards (`sum(c.points for c in cards)`). */
  function SumPoints(cs: seq<Card>): int {
    if cs == [] then 0 else cs[0].points + SumPoints(cs[1..])
  }

  lemma {:induction false} SumPointsAppend(s: seq<Card>, t: seq<Card>)
    ensures SumPoints(s + t) == SumPoints(s) + SumPoints(t)
  {
    if s == [] {
      assert s + t == t;
    } else {
      assert (s + t)[1..] == s[1..] + t;
      SumPointsAppend(s[1..], t);
    }
  }

  /** The standard cards of every suit are worth 25 points: one 5, one 10 and one King. */
  lemma SuitPoints(suit: string)
    ensures SumPoints(SuitCards(suit)) == 25
  {
    var s := SuitCards(suit);
    assert SumPoints(s[13..]) == 0;
    assert SumPoints(s[12..]) == 0 by { assert s[12..][1..] == s[13..]; }
    assert SumPoints(s[11..]) == 10 by { assert s[11..][1..] == s[12..]; }
    assert SumPoints(s[10..]) == 10 by { assert s[10..][1..] == s[11..]; }
    assert SumPoints(s[9..]) == 10 by { assert s[9..][1..] == s[10..]; }
    assert SumPoints(s[8..]) == 20 by { assert s[8..][1..] == s[9..]; }
    assert SumPoints(s[7..]) == 20 by { assert s[7..][1..] == s[8..]; }
    assert SumPoints(s[6..]) == 20 by { assert s[6..][1..] == s[7..]; }
    assert SumPoints(s[5..]) == 20 by { assert s[5..][1..] == s[6..]; }
    assert SumPoints(s[4..]) == 20 by { assert s[4..][1..] == s[5..]; }
    assert SumPoints(s[3..]) == 25 by { assert s[3..][1..] == s[4..]; }
    assert SumPoints(s[2..]) == 25 by { assert s[2..][1..] == s[3..]; }
    assert SumPoints(s[1..]) == 25 by { assert s[1..][1..] == s[2..]; }
    assert s[0..] == s;
  }

  lemma {:induction false} SuitBlocksPoints(n: nat)
    requires n <= 4
    ensures SumPoints(SuitBlocks(n)) == 25 * n
  {
    if n > 0 {
      SuitBlocksPoints(n - 1);
      SuitPoints(Suits[n - 1]);
      SumPointsAppend(SuitBlocks(n - 1), SuitCards(Suits[n - 1]));
    }
  }

  lemma SpecialsPoints()
    ensures SumPoints(Specials) == 0
  {
    var s := Specials;
    assert SumPoints(s[3..]) == 25 by { assert s[3..][1..] == []; }
    assert SumPoints(s[2..]) == 0 by { assert s[2..][1..] == s[3..]; }
    assert SumPoints(s[1..]) == 0 by { assert s[1..][1..] == s[2..]; }
    assert s[0..] == s;
  }

  /** The deck holds 100 points: 4 x (5 + 10 + 10) + Dragon 25 - Phoenix 25. */
  lemma DeckPoints()
    ensures SumPoints(TichuDeck()) == 100
  {
    SuitBlocksPoints(4);
    SpecialsPoints();
    SumPointsAppend(SuitBlocks(4), Specials);
  }

  /** Position `i` of the standard part of the deck is card `i % 13` of suit `i / 13`. */
  lemma {:induction false} SuitBlocksAt(n: nat, i: nat)
    requires n <= 4 && i < 13 * n
    ensures SuitBlocks(n)[i] == StandardCard(Suits[i / 13], i % 13)
  {
    if i < 13 * (n - 1) {
      SuitBlocksAt(n - 1, i);
    } else {
      assert i / 13 == n - 1 && i % 13 == i - 13 * (n - 1);
    }
  }

  /** What sits at each position of the deck. */
  lemma DeckAt(i: nat)
    requires i < 56
    ensures i < 52 ==> TichuDeck()[i] == StandardCard(Suits[i / 13], i % 13)
    ensures i >= 52 ==> TichuDeck()[i] == Specials[i - 52]
  {
    if i < 52 {
      SuitBlocksAt(4, i);
    }
  }

  /** Ranks and points of every card of the deck. */
  lemma DeckValues(i: nat)
    requires i < 56
    ensures var c := TichuDeck()[i];
      (i < 52 ==> Suited(c) && c.name == Names[i % 13] && 2 <= c.rank <= 14 && c.rank == i % 13 + 2
                  && c.points == PointValue(c.name))
      && (i >= 52 ==> c.suit == None)
      && -1 <= c.rank <= 15
  {
    DeckAt(i);
    if i < 52 {
      var j := i % 13;
      assert TichuDeck()[i] == StandardCard(Suits[i / 13], j);
    } else {
      assert TichuDeck()[i] == Specials[i - 52];
    }
  }

  lemma NamesDistinct()
    ensures forall j, k :: 0 <= j < k < 13 ==> Names[j] != Names[k]
  {
    forall j, k | 0 <= j < k < 13 ensures Names[j] != Names[k] {
      assert |Names[j]| != |Names[k]| || Names[j][0] != Names[k][0];
    }
  }

  lemma NamesPlain(j: nat)
    requires j < 13
    ensures Text.NoChar(Names[j], '_') && Text.NoChar(Names[j], '.')
  {
  }

  lemma SuitPlain(k: nat)
    requires k < 4
    ensures Suits[k] != "" && Text.NoChar(Suits[k], '_') && Text.NoChar(Suits[k], '.')
  {
  }

  lemma SpecialPlain(k: nat)
    requires k < 4
    ensures Specials[k].suit == None
    ensures Text.NoChar(Specials[k].name, '_') && Text.NoChar(Specials[k].name, '.')
  {
  }

  /** No name or suit of the deck contains an underscore or a dot, and no suit is empty. */
  lemma DeckCardPlain(i: nat)
    requires i < 56
    ensures var c := TichuDeck()[i];
      Text.NoChar(c.name, '_') && Text.NoChar(c.name, '.')
      && (c.suit.Some? ==> Suited(c) && Text.NoChar(c.suit.value, '_') && Text.NoChar(c.suit.value, '.'))
  {
    DeckAt(i);
    if i < 52 {
      NamesPlain(i % 13);
      SuitPlain(i / 13);
    } else {
      SpecialPlain(i - 52);
    }
  }

  /** Splitting `a + "_" + x` at its first underscore gives back `a` when `a` has none. */
  lemma {:induction false} UnderscoreSplit(a: string, x: string, b: string, y: string)
    requires Text.NoChar(a, '_') && Text.NoChar(b, '_')
    requires a + "_" + x == b + "_" + y
    ensures a == b && x == y
  {
    var s := a + "_" + x;
    assert Text.FirstIndex(s, '_') == |a| by {
      assert s[|a|] == '_';
      assert forall i :: 0 <= i < |a| ==> s[i] == a[i];
      FirstIndexIs(s, '_', |a|);
    }
    assert Text.FirstIndex(s, '_') == |b| by {
      assert s[|b|] == '_';
      assert forall i :: 0 <= i < |b| ==> s[i] == b[i];
      FirstIndexIs(s, '_', |b|);
    }
    assert a == s[..|a|];
    assert b == s[..|b|];
    assert x == s[|a| + 1..];
    assert y == s[|b| + 1..];
  }

  /** With no underscore in names and suits, an id holds an underscore exactly when its card is suited. */
  lemma IdUnderscore(c: Card)
    requires Text.NoChar(c.name, '_') && (Suited(c) ==> Text.NoChar(c.suit.value, '_'))
    ensures !Text.NoChar(Id(c), '_') <==> Suited(c)
  {
    if Suited(c) {
      assert Id(c)[|c.name|] == '_';
    }
  }

  /**
   * With no underscore in names and suits, an id tells the card's name and suit back:
   * two such cards with the same id have the same name, are both suited or both not,
   * and when suited have the same suit.
   */
  lemma IdDecodes(c: Card, d: Card)
    requires Text.NoChar(c.name, '_') && (Suited(c) ==> Text.NoChar(c.suit.value, '_'))
    requires Text.NoChar(d.name, '_') && (Suited(d) ==> Text.NoChar(d.suit.value, '_'))
    ensures Id(c) == Id(d) ==> c.name == d.name && Suited(c) == Suited(d) && (Suited(c) ==> c.suit == d.suit)
  {
    IdUnderscore(c);
    IdUnderscore(d);
    if Id(c) == Id(d) && Suited(c) && Suited(d) {
      UnderscoreSplit(c.name, c.suit.value, d.name, d.suit.value);
    }
  }

  lemma FirstIndexIs(s: string, ch: char, k: nat)
    requires k < |s| && s[k] == ch
    requires forall i :: 0 <= i < k ==> s[i] != ch
    ensures Text.FirstIndex(s, ch) == k
  {
  }

  /** All 56 ids of the deck are pairwise different. */
  lemma DeckIdsDistinct(i: nat, k: nat)
    requires i < k < 56
    ensures Id(TichuDeck()[i]) != Id(TichuDeck()[k])
  {
    if k < 52 {
      StandardDeckIds(i, k);
    } else if i < 52 {
      MixedDeckIds(i, k);
    } else {
      SpecialDeckIds(i, k);
    }
  }

  lemma StandardDeckIds(i: nat, k: nat)
    requires i < k < 52
    ensures Id(TichuDeck()[i]) != Id(TichuDeck()[k])
  {
    DeckAt(i);
    DeckAt(k);
    assert (i / 13, i % 13) != (k / 13, k % 13);
    StandardIdsDistinct(i / 13, i % 13, k / 13, k % 13);
  }

  lemma MixedDeckIds(i: nat, k: nat)
    requires i < 52 <= k < 56
    ensures Id(TichuDeck()[i]) != Id(TichuDeck()[k])
  {
    DeckAt(i);
    DeckAt(k);
    StandardVsSpecialId(i / 13, i % 13, k - 52);
  }

  lemma SpecialDeckIds(i: nat, k: nat)
    requires 52 <= i < k < 56
    ensures Id(TichuDeck()[i]) != Id(TichuDeck()[k])
  {
    DeckAt(i);
    DeckAt(k);
    SpecialIdsDistinct(i - 52, k - 52);
  }

  /** Two different standard cards have different ids. */
  lemma StandardIdsDistinct(s1: nat, j1: nat, s2: nat, j2: nat)
    requires s1 < 4 && j1 < 13 && s2 < 4 && j2 < 13 && (s1, j1) != (s2, j2)
    ensures Id(StandardCard(Suits[s1], j1)) != Id(StandardCard(Suits[s2], j2))
  {
    var c, d := StandardCard(Suits[s1], j1), StandardCard(Suits[s2], j2);
    NamesPlain(j1);
    NamesPlain(j2);
    SuitPlain(s1);
    SuitPlain(s2);
    if Id(c) == Id(d) {
      UnderscoreSplit(c.name, c.suit.value, d.name, d.suit.value);
      NamesDistinct();
      SuitsDistinct();
      assert false;
    }
  }

  lemma SuitsDistinct()
    ensures forall j, k :: 0 <= j < k < 4 ==> Suits[j] != Suits[k]
  {
    forall j, k | 0 <= j < k < 4 ensures Suits[j] != Suits[k] {
      assert Suits[j][0] != Suits[k][0];
    }
  }

  /** A standard card's id has an underscore; a special card's id has none. */
  lemma StandardVsSpecialId(s: nat, j: nat, k: nat)
    requires s < 4 && j < 13 && k < 4
    ensures Id(StandardCard(Suits[s], j)) != Id(Specials[k])
  {
    var c := StandardCard(Suits[s], j);
    SuitPlain(s);
    SpecialPlain(k);
    assert Id(c)[|c.name|] == '_';
  }

  lemma SpecialIdsDistinct(j: nat, k: nat)
    requires j < k < 4
    ensures Id(Specials[j]) != Id(Specials[k])
  {
    SpecialPlain(j);
    SpecialPlain(k);
    assert |Specials[j].name| != |Specials[k].name|;
  }
}
