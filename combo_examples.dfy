/** Two worked hands showing where the Phoenix sits in a straight. */
module ComboExamples {
  import opened Wrappers
  import opened Cards
  import opened Combos
  import opened ComboFacts

  /** Phoenix, 3, 4, 5, 7 of mixed suits. */
  function GapHand(): seq<Card> {
    [PhoenixCard, StandardCard("spades", 1), StandardCard("hearts", 2),
     StandardCard("clubs", 3), StandardCard("spades", 5)]
  }

  /** Phoenix, 5, 6, 7, 8 of mixed suits. */
  function TopHand(): seq<Card> {
    [PhoenixCard, StandardCard("spades", 3), StandardCard("hearts", 4),
     StandardCard("clubs", 5), StandardCard("spades", 6)]
  }

  lemma LeadingPhoenix(cards: seq<Card>)
    requires |cards| > 0 && cards[0] == PhoenixCard
    ensures HasPhoenix(cards)
  {
    PhoenixCardIsPhoenix();
    assert IsPhoenix(cards[0]);
  }

  lemma GapStraight()
    ensures StraightOf(GapHand()) == Run(false)
  {
    assert Ranks(GapHand()) == [0, 3, 4, 5, 7];
    LeadingPhoenix(GapHand());
    SortedSetOfIncreasing(Ranks(GapHand()));
  }

  lemma GapCounts()
    ensures NameCounts(GapHand()) == [1, 1, 1, 1, 1]
  {
    assert forall i, j :: 0 <= i < j < 5 ==> GapHand()[i].name != GapHand()[j].name;
    FiveNamesDistinct(GapHand());
  }

  lemma GapKind()
    ensures KindOf(GapHand()) == Straight
  {
    GapCounts();
    GapStraight();
    assert GapHand()[1].suit != GapHand()[0].suit;
  }

  lemma GapMax()
    ensures MaxRank(GapHand()) == 7
  {
  }

  /** The Phoenix fills the hole of 3-4-5-_-7: a straight of five up to the 7, Phoenix not on top. */
  lemma PhoenixFillsInnerGap()
    ensures KindOf(GapHand()) == Straight
    ensures !MakeCombo(GapHand(), None).phoenixStraightMax
    ensures MakeCombo(GapHand(), None).rankHalves == 2 * 507
  {
    GapKind();
    GapStraight();
    GapMax();
  }

  lemma TopStraight()
    ensures StraightOf(TopHand()) == Run(true)
  {
    assert Ranks(TopHand()) == [0, 5, 6, 7, 8];
    LeadingPhoenix(TopHand());
    SortedSetOfIncreasing(Ranks(TopHand()));
  }

  lemma TopCounts()
    ensures NameCounts(TopHand()) == [1, 1, 1, 1, 1]
  {
    assert forall i, j :: 0 <= i < j < 5 ==> TopHand()[i].name != TopHand()[j].name;
    FiveNamesDistinct(TopHand());
  }

  lemma TopKind()
    ensures KindOf(TopHand()) == Straight
  {
    TopCounts();
    TopStraight();
    assert TopHand()[1].suit != TopHand()[0].suit;
  }

  lemma TopMax()
    ensures MaxRank(TopHand()) == 8
  {
  }

  /** The Phoenix above 5-6-7-8: a straight of five whose rank gets one extra point. */
  lemma PhoenixOnTop()
    ensures KindOf(TopHand()) == Straight
    ensures MakeCombo(TopHand(), None).phoenixStraightMax
    ensures MakeCombo(TopHand(), None).rankHalves == 2 * 509
  {
    TopKind();
    TopStraight();
    TopMax();
  }
}
