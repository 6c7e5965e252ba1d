/**
 * Combo classification and ranking (game_logic/combo.py).
 * A combo is computed once from the played cards and, for a Phoenix single,
 * from the rank of the combo on top of the current trick.
 */
module Combos {
  import opened Wrappers
  import opened Cards
  import opened RankRuns
  import Text

  datatype Kind = Dog | Single | Pair | Triple | FullHouse | Bomb4Kind | Straight | BombStraight | Invalid

  predicate IsPhoenix(c: Card) { Text.Lower(c.name) == "phoenix" }
  predicate IsDragon(c: Card) { Text.Lower(c.name) == "dragon" }
  predicate IsDog(c: Card) { Text.Lower(c.name) == "dog" }

  lemma PhoenixCardIsPhoenix()
    ensures IsPhoenix(PhoenixCard) && !IsDog(PhoenixCard)
  {
    var l := Text.Lower(PhoenixCard.name);
    assert l[0] == 'p';
    assert l[1..] == "hoenix";
  }

  /** `self.phoenix`: some card is the Phoenix. */
  predicate HasPhoenix(cards: seq<Card>) { exists i :: 0 <= i < |cards| && IsPhoenix(cards[i]) }

  /** `self.contains_dragon`. */
  predicate HasDragon(cards: seq<Card>) { exists i :: 0 <= i < |cards| && IsDragon(cards[i]) }

  // ---------------------------------------------------------------------------
  // Name multiplicities: the `counts` dictionary of identify_combo_type
  // ---------------------------------------------------------------------------

  function CountName(cards: seq<Card>, n: string): nat {
    if cards == [] then 0
    else (if cards[|cards| - 1].name == n then 1 else 0) + CountName(cards[..|cards| - 1], n)
  }

  /** The keys of `counts`, in insertion order. */
  function DistinctNames(cards: seq<Card>): (d: seq<string>)
    ensures forall n :: n in d <==> exists i :: 0 <= i < |cards| && cards[i].name == n
    ensures forall i, j :: 0 <= i < j < |d| ==> d[i] != d[j]
    ensures |d| <= |cards|
  {
    if cards == [] then []
    else
      var d := DistinctNames(cards[..|cards| - 1]);
      var n := cards[|cards| - 1].name;
      assert forall i :: 0 <= i < |cards| - 1 ==> cards[..|cards| - 1][i] == cards[i];
      if n in d then d else d + [n]
  }

  /** `list(counts.values())`. */
  function NameCounts(cards: seq<Card>): (r: seq<nat>)
    ensures |r| == |DistinctNames(cards)|
  {
    var d := DistinctNames(cards);
    seq(|d|, i requires 0 <= i < |d| => CountName(cards, d[i]))
  }

  predicate SameName(cards: seq<Card>) {
    forall i :: 0 <= i < |cards| ==> cards[i].name == cards[0].name
  }

  /** `all(card.suit == cards[0].suit for card in cards)`. */
  predicate SameSuit(cards: seq<Card>) {
    forall i :: 0 <= i < |cards| ==> cards[i].suit == cards[0].suit
  }

  function Ranks(cards: seq<Card>): (r: seq<int>)
    ensures |r| == |cards| && forall i :: 0 <= i < |cards| ==> r[i] == cards[i].rank
  {
    seq(|cards|, i requires 0 <= i < |cards| => cards[i].rank)
  }

  // ---------------------------------------------------------------------------
  // Straights
  // ---------------------------------------------------------------------------

  /** Outcome of the straight test: no straight, or a straight with the Phoenix on top or not. */
  datatype Run = NoRun | Run(phoenixOnTop: bool)

  /**
   * What `is_straight` decides, stated by spans instead of trial insertions.
   * `values` are the distinct ranks in increasing order; they must be as many as the cards.
   * Without the Phoenix they must have no gap. With the Phoenix its own (lowest) rank is
   * dropped, and the rest may have no gap (the Phoenix then extends the run on top) or
   * exactly one missing value inside (the Phoenix fills it).
   */
  function StraightOf(cards: seq<Card>): Run
    requires HasPhoenix(cards) ==> |cards| >= 2
  {
    var values := SortedSet(Ranks(cards));
    if |values| != |cards| then NoRun
    else if !HasPhoenix(cards) then (if Contiguous(values) then Run(false) else NoRun)
    else
      var w := values[1..];
      if Contiguous(w) then Run(true)
      else if w[|w| - 1] - w[0] == |w| then Run(false)
      else NoRun
  }

  /**
   * `is_straight`, with its loop over the Phoenix's candidate values
   * `min(values) .. max(values) + 1`; `atTop` is the `phoenix_straight_max` flag it sets.
   * (`min` of an empty list raises, so a lone Phoenix is excluded.)
   */
  method IsStraight(cards: seq<Card>) returns (ok: bool, atTop: bool)
    requires HasPhoenix(cards) ==> |cards| >= 2
    ensures ok <==> StraightOf(cards).Run?
    ensures atTop <==> StraightOf(cards) == Run(true)
  {
    var values := SortedSet(Ranks(cards));
    var needed := |cards|;
    var phoenix := HasPhoenix(cards);
    ok, atTop := false, false;
    if |values| == needed && !phoenix {
      ok := Consecutive(values);
      ConsecutiveIffContiguous(values);
      return;
    }
    if phoenix && |values| == needed {
      ok, atTop := TryPhoenixValues(values[1..]);
    }
  }

  /**
   * The loop of `is_straight` over the Phoenix's candidate values: the first value
   * from `min(w)` to `max(w) + 1` that makes the sorted trial gapless wins, and it is
   * on top when it is `max(w) + 1`.
   */
  method TryPhoenixValues(w: seq<int>) returns (ok: bool, atTop: bool)
    requires Increasing(w) && |w| >= 1
    ensures ok <==> Contiguous(w) || w[|w| - 1] - w[0] == |w|
    ensures atTop <==> Contiguous(w)
  {
    ok, atTop := false, false;
    var lo, hi := w[0], w[|w| - 1];
    var i := lo;
    while i < hi + 2
      invariant lo <= i <= hi + 2
      invariant forall j :: lo <= j < i ==> TrialFails(w, j)
    {
      var trial := Insert(w, i);
      if Consecutive(trial) {
        TrialSucceeds(w, i);
        ok := true;
        if i == hi + 1 {
          atTop := true;
        }
        return;
      }
      assert TrialFails(w, i);
      i := i + 1;
    }
    NoTrialSucceeds(w);
  }

  /** Trying `x` as the Phoenix's value leaves a gap. */
  predicate TrialFails(w: seq<int>, x: int) {
    !Consecutive(Insert(w, x))
  }

  /** The first successful trial value tells which kind of straight it is. */
  lemma TrialSucceeds(w: seq<int>, x: int)
    requires Increasing(w) && |w| >= 1 && w[0] <= x <= w[|w| - 1] + 1
    requires Consecutive(Insert(w, x))
    ensures x == w[|w| - 1] + 1 <==> Contiguous(w)
    ensures !Contiguous(w) ==> w[|w| - 1] - w[0] == |w|
  {
    InsertConsecutive(w, x);
  }

  /** When every trial value fails, the run has neither no gap nor exactly one. */
  lemma NoTrialSucceeds(w: seq<int>)
    requires Increasing(w) && |w| >= 1
    requires forall j :: w[0] <= j < w[|w| - 1] + 2 ==> TrialFails(w, j)
    ensures !Contiguous(w) && w[|w| - 1] - w[0] != |w|
  {
    assert TrialFails(w, w[|w| - 1] + 1);
    InsertConsecutive(w, w[|w| - 1] + 1);
    if w[|w| - 1] - w[0] == |w| {
      var g := MissingInside(w);
      assert TrialFails(w, g);
      InsertConsecutive(w, g);
    }
  }

  // ---------------------------------------------------------------------------
  // Classification
  // ---------------------------------------------------------------------------

  /** The number of cards each kind is made of, as `KindOf` guarantees. */
  predicate Fits(kind: Kind, n: nat) {
    match kind
    case Dog | Single => n == 1
    case Pair => n == 2
    case Triple => n == 3
    case Bomb4Kind => n == 4
    case FullHouse => n == 5
    case Straight | BombStraight => n >= 5
    case Invalid => true
  }

  /** `identify_combo_type`: the checks in the source's order, on name multiplicities. */
  function KindOf(cards: seq<Card>): (k: Kind)
    ensures k == Dog || k == Single <==> |cards| == 1
    ensures k == Dog ==> IsDog(cards[0])
    ensures Fits(k, |cards|)
    ensures k == Straight || k == BombStraight ==> |SortedSet(Ranks(cards))| == |cards|
    ensures k == BombStraight ==> SameSuit(cards)
    ensures k == Straight ==> !SameSuit(cards)
  {
    var counts := NameCounts(cards);
    var shape := multiset(counts);
    var phoenix := HasPhoenix(cards);
    var n := |cards|;
    if n == 1 then (if IsDog(cards[0]) then Dog else Single)
    else if n == 2 && (counts == [2] || (phoenix && |counts| == 2)) then Pair
    else if n == 3 && (counts == [3] || (phoenix && |counts| == 2)) then Triple
    else if n == 5 && (shape == multiset{2, 3}
                       || (phoenix && (shape == multiset{1, 2, 2} || shape == multiset{1, 1, 3}))) then FullHouse
    else if n == 4 && counts == [4] then Bomb4Kind
    else if n >= 5 && StraightOf(cards).Run? then (if SameSuit(cards) then BombStraight else Straight)
    else Invalid
  }

  // ---------------------------------------------------------------------------
  // Rank
  // ---------------------------------------------------------------------------

  /*
   * The source's ranks are numbers with at most one half step (the Phoenix
   * single plays half a rank above the card it beats). The model keeps every
   * rank in halves, as an integer: a rank of r in the source is 2 * r here,
   * which keeps order and equality unchanged.
   */

  function Min(a: int, b: int): int { if a <= b then a else b }

  /** `max(c.rank for c in cards)`. */
  function MaxRank(cards: seq<Card>): (m: int)
    requires |cards| > 0
    ensures forall i :: 0 <= i < |cards| ==> cards[i].rank <= m
    ensures exists i :: 0 <= i < |cards| && cards[i].rank == m
  {
    if |cards| == 1 then cards[0].rank
    else
      var m := MaxRank(cards[1..]);
      assert forall i :: 1 <= i < |cards| ==> cards[i] == cards[1..][i - 1];
      if cards[0].rank >= m then cards[0].rank else m
  }

  function CountRank(cards: seq<Card>, r: int): nat {
    if cards == [] then 0 else (if cards[0].rank == r then 1 else 0) + CountRank(cards[1..], r)
  }

  /**
   * The full-house branch of `get_rank`: walk the distinct ranks in the order they occur;
   * a rank held three times is the answer at once; otherwise, with the Phoenix, keep the
   * largest rank held twice, starting from 0.
   */
  function FullHouseRankFrom(cards: seq<Card>, seen: seq<int>, i: nat, phoenix: bool, best: int): int
    requires i <= |cards|
    decreases |cards| - i
  {
    if i == |cards| then best
    else if cards[i].rank in seen then FullHouseRankFrom(cards, seen, i + 1, phoenix, best)
    else
      var r := cards[i].rank;
      var c := CountRank(cards, r);
      if c == 3 then r
      else FullHouseRankFrom(cards, seen + [r], i + 1, phoenix,
                             if phoenix && c == 2 && r > best then r else best)
  }

  function FullHouseRank(cards: seq<Card>, phoenix: bool): int {
    FullHouseRankFrom(cards, [], 0, phoenix, 0)
  }

  /** `get_rank`, in halves; `top` is the rank of the last combo of the current trick, if there is one. */
  function RankOf(cards: seq<Card>, kind: Kind, onTop: bool, top: Option<int>): int
    requires Fits(kind, |cards|)
  {
    match kind
    case Single =>
      if HasPhoenix(cards) then
        (if top.Some? then Min(top.value + 1, 29) else 3)
      else 2 * cards[0].rank
    case Pair | Triple =>
      if !IsPhoenix(cards[0]) then 2 * cards[0].rank else 2 * cards[1].rank
    case Bomb4Kind => 2 * cards[0].rank
    case FullHouse => 2 * FullHouseRank(cards, HasPhoenix(cards))
    case Straight | BombStraight =>
      2 * (100 * |cards| + MaxRank(cards) + (if onTop then 1 else 0))
    case _ => -2
  }

  /** A combo as `Combo.__init__` leaves it; `rankHalves` is twice the source's `rank`. */
  datatype Combo = Combo(cards: seq<Card>, phoenix: bool, containsDragon: bool,
                         phoenixStraightMax: bool, kind: Kind, rankHalves: int)

  /** `Combo(cards, game)`: classify, then rank; the Phoenix flag is set only by a successful straight test. */
  function MakeCombo(cards: seq<Card>, top: Option<int>): (c: Combo)
    ensures c.cards == cards && c.kind == KindOf(cards)
    ensures c.phoenix <==> HasPhoenix(cards)
    ensures c.containsDragon <==> HasDragon(cards)
    ensures c.phoenixStraightMax ==> c.phoenix && (c.kind == Straight || c.kind == BombStraight)
    ensures c.kind == Dog || c.kind == Invalid ==> c.rankHalves == -2
    ensures c.kind == Single && !c.phoenix ==> c.rankHalves == 2 * cards[0].rank
    ensures c.kind == Single && c.phoenix ==> c.rankHalves == (if top.Some? then Min(top.value + 1, 29) else 3)
    ensures c.kind == Pair || c.kind == Triple ==>
      c.rankHalves == 2 * (if IsPhoenix(cards[0]) then cards[1] else cards[0]).rank
    ensures c.kind == Bomb4Kind ==> c.rankHalves == 2 * cards[0].rank
    ensures c.kind == FullHouse ==> c.rankHalves == 2 * FullHouseRank(cards, c.phoenix)
    ensures c.kind == Straight || c.kind == BombStraight ==>
      (c.phoenixStraightMax <==> StraightOf(cards) == Run(true))
      && c.rankHalves == 2 * (100 * |cards| + MaxRank(cards) + (if c.phoenixStraightMax then 1 else 0))
  {
    var kind := KindOf(cards);
    var onTop := (kind == Straight || kind == BombStraight) && StraightOf(cards) == Run(true);
    Combo(cards, HasPhoenix(cards), HasDragon(cards), onTop, kind, RankOf(cards, kind, onTop, top))
  }
}
