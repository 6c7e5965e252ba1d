/**
 * The game-state side of the server handlers (app.py): turning image file
 * names back into hand cards, a pass, and the choice of who receives a
 * trick won with the Dragon. The Socket.IO messages are left out; the game
 * is passed in as an object and the sending player as an optional argument.
 */
module App {
  import opened Wrappers
  import opened Cards
  import Text
  import opened Helpers
  import opened Combos
  import opened Players
  import opened Game

  // ---------------------------------------------------------------------------
  // File names back to cards
  // ---------------------------------------------------------------------------

  /** Why `filenames_to_cards` raises: a name with more than one underscore, or no such card in the hand. */
  datatype CardError = BadFilename(filename: string) | UnknownCard(filename: string)

  /**
   * `filename.replace(".png", "")`, then `split("_")` into suit and name
   * (no underscore: no suit). Two or more underscores make the two-way
   * unpacking fail, which is `None` here.
   */
  function ParseFilename(f: string): (r: Option<(string, Option<string>)>)
    ensures r.None? <==> Text.CountChar(Text.StripPng(f), '_') >= 2
    ensures r.Some? ==> Text.NoChar(r.value.0, '_')
    ensures r.Some? && r.value.1.None? ==> r.value.0 == Text.StripPng(f)
    ensures r.Some? && r.value.1.Some? ==>
      Text.NoChar(r.value.1.value, '_') && r.value.1.value + "_" + r.value.0 == Text.StripPng(f)
  {
    var n := Text.StripPng(f);
    Text.CountCharPositive(n, '_');
    if '_' !in n then
      Some((n, None))
    else if Text.CountChar(n, '_') != 1 then
      None
    else
      Text.SplitOnlyChar(n, '_');
      var k := Text.FirstIndex(n, '_');
      assert n == n[..k] + "_" + n[k + 1..];
      Some((n[k + 1..], Some(n[..k])))
  }

  predicate Labelled(c: Card, name: string, suit: Option<string>) {
    c.name == name && c.suit == suit
  }

  /** The inner `for card in hand` loop: the first hand card with this name and suit. */
  function FirstMatch(hand: seq<Card>, name: string, suit: Option<string>): (r: Option<Card>)
    ensures r.None? <==> forall k :: 0 <= k < |hand| ==> !Labelled(hand[k], name, suit)
    ensures r.Some? ==>
      exists k :: 0 <= k < |hand| && hand[k] == r.value && Labelled(r.value, name, suit)
        && forall j :: 0 <= j < k ==> !Labelled(hand[j], name, suit)
  {
    if hand == [] then None
    else if Labelled(hand[0], name, suit) then Some(hand[0])
    else
      var r := FirstMatch(hand[1..], name, suit);
      assert forall k :: 1 <= k < |hand| ==> hand[k] == hand[1..][k - 1];
      r
  }

  /** The search of the hand, as the `for ... else` loop does it. */
  method FindCard(hand: seq<Card>, name: string, suit: Option<string>) returns (r: Option<Card>)
    ensures r == FirstMatch(hand, name, suit)
  {
    for k := 0 to |hand|
      invariant forall j :: 0 <= j < k ==> !Labelled(hand[j], name, suit)
    {
      if hand[k].name == name && hand[k].suit == suit {
        return Some(hand[k]);
      }
    }
    return None;
  }

  /** One file name: parse it, then take the first matching hand card. */
  function MatchFilename(f: string, hand: seq<Card>): (r: Result<Card, CardError>)
    ensures r.Ok? <==> ParseFilename(f).Some? && FirstMatch(hand, ParseFilename(f).value.0, ParseFilename(f).value.1).Some?
    ensures r.Ok? ==> r.value in hand && ParseFilename(f) == Some((r.value.name, r.value.suit))
    ensures r.Err? ==> r.error == (if ParseFilename(f).None? then BadFilename(f) else UnknownCard(f))
  {
    match ParseFilename(f)
    case None => Err(BadFilename(f))
    case Some((name, suit)) =>
      match FirstMatch(hand, name, suit)
      case None => Err(UnknownCard(f))
      case Some(c) => Ok(c)
  }

  /** What `filenames_to_cards` returns or raises: the matches in input order, or the error of the first name that fails. */
  function CardsFor(fs: seq<string>, hand: seq<Card>): (r: Result<seq<Card>, CardError>)
    ensures r.Ok? ==> |r.value| == |fs|
    decreases |fs|
  {
    if fs == [] then Ok([])
    else
      var prev := CardsFor(fs[..|fs| - 1], hand);
      var m := MatchFilename(fs[|fs| - 1], hand);
      if prev.Err? then prev
      else if m.Err? then Err(m.error)
      else Ok(prev.value + [m.value])
  }

  /** All names go through exactly when each of them matches, and the result holds each name's card at its position. */
  lemma {:induction false} CardsForOk(fs: seq<string>, hand: seq<Card>)
    ensures CardsFor(fs, hand).Ok? <==> forall i :: 0 <= i < |fs| ==> MatchFilename(fs[i], hand).Ok?
    ensures CardsFor(fs, hand).Ok? ==>
      forall i :: 0 <= i < |fs| ==> Ok(CardsFor(fs, hand).value[i]) == MatchFilename(fs[i], hand)
    decreases |fs|
  {
    if fs != [] {
      var front := fs[..|fs| - 1];
      CardsForOk(front, hand);
      assert forall i :: 0 <= i < |front| ==> front[i] == fs[i];
      var r := CardsFor(fs, hand);
      if r.Ok? {
        var prev := CardsFor(front, hand).value;
        forall i | 0 <= i < |fs| ensures Ok(r.value[i]) == MatchFilename(fs[i], hand) {
          if i < |front| {
            assert r.value[i] == prev[i];
          }
        }
      }
    }
  }

  /** A failure reports the error of the first name that does not match, all names before it matching. */
  lemma {:induction false} CardsForErr(fs: seq<string>, hand: seq<Card>)
    ensures CardsFor(fs, hand).Err? ==>
      exists i :: 0 <= i < |fs| && MatchFilename(fs[i], hand) == Err(CardsFor(fs, hand).error)
        && forall j :: 0 <= j < i ==> MatchFilename(fs[j], hand).Ok?
    decreases |fs|
  {
    if fs != [] {
      var front := fs[..|fs| - 1];
      assert forall i :: 0 <= i < |front| ==> front[i] == fs[i];
      CardsForOk(front, hand);
      if CardsFor(front, hand).Err? {
        CardsForErr(front, hand);
        var i :| 0 <= i < |front| && MatchFilename(front[i], hand) == Err(CardsFor(front, hand).error)
          && forall j :: 0 <= j < i ==> MatchFilename(front[j], hand).Ok?;
        assert MatchFilename(fs[i], hand) == Err(CardsFor(fs, hand).error);
      } else {
        var i := |fs| - 1;
        assert forall j :: 0 <= j < i ==> MatchFilename(front[j], hand).Ok?;
      }
    }
  }

  /** The first name that fails decides the error, whatever follows it. */
  lemma FirstFailure(fs: seq<string>, hand: seq<Card>, i: nat)
    requires i < |fs| && CardsFor(fs[..i], hand).Ok? && MatchFilename(fs[i], hand).Err?
    ensures CardsFor(fs, hand) == Err(MatchFilename(fs[i], hand).error)
  {
    CardsForOk(fs[..i], hand);
    forall j | 0 <= j < i ensures MatchFilename(fs[j], hand).Ok? {
      assert fs[..i][j] == fs[j];
    }
    CardsForOk(fs, hand);
    CardsForErr(fs, hand);
    var r := CardsFor(fs, hand);
    var i' :| 0 <= i' < |fs| && MatchFilename(fs[i'], hand) == Err(r.error)
      && forall j :: 0 <= j < i' ==> MatchFilename(fs[j], hand).Ok?;
    assert i' == i;
  }

  /** Matching one more name extends the matches of the names before it. */
  lemma CardsForSnoc(fs: seq<string>, hand: seq<Card>, i: nat, matched: seq<Card>, c: Card)
    requires i < |fs| && CardsFor(fs[..i], hand) == Ok(matched) && MatchFilename(fs[i], hand) == Ok(c)
    ensures CardsFor(fs[..i + 1], hand) == Ok(matched + [c])
  {
    assert fs[..i + 1][..i] == fs[..i];
  }

  /** `filenames_to_cards`. */
  method FilenamesToCards(filenames: seq<string>, hand: seq<Card>) returns (r: Result<seq<Card>, CardError>)
    ensures r == CardsFor(filenames, hand)
  {
    var matched: seq<Card> := [];
    for i := 0 to |filenames|
      invariant CardsFor(filenames[..i], hand) == Ok(matched)
    {
      var f := filenames[i];
      var n := Text.StripPng(f);
      var name, suit;
      if '_' in n {
        Text.CountCharPositive(n, '_');
        if Text.CountChar(n, '_') != 1 {
          assert ParseFilename(f).None?;
          FirstFailure(filenames, hand, i);
          return Err(BadFilename(f));
        }
        var k := Text.FirstIndex(n, '_');
        suit, name := Some(n[..k]), n[k + 1..];
      } else {
        suit, name := None, n;
      }
      assert ParseFilename(f) == Some((name, suit));
      var card := FindCard(hand, name, suit);
      if card.None? {
        assert MatchFilename(f, hand) == Err(UnknownCard(f));
        FirstFailure(filenames, hand, i);
        return Err(UnknownCard(f));
      }
      assert MatchFilename(f, hand) == Ok(card.value);
      CardsForSnoc(filenames, hand, i, matched, card.value);
      matched := matched + [card.value];
    }
    assert filenames[..|filenames|] == filenames;
    return Ok(matched);
  }

  /** The image file names of a list of cards, as `card_to_filename` writes them. */
  function Filenames(cs: seq<Card>): (fs: seq<string>)
    ensures |fs| == |cs| && forall k :: 0 <= k < |cs| ==> fs[k] == CardToFilename(cs[k])
  {
    seq(|cs|, k requires 0 <= k < |cs| => CardToFilename(cs[k]))
  }

  /** A card whose name and suit hold no underscore or dot, and whose suit, if present, is not empty. */
  predicate PlainCard(c: Card) {
    Text.NoChar(c.name, '_') && Text.NoChar(c.name, '.')
    && (c.suit.Some? ==> Suited(c) && Text.NoChar(c.suit.value, '_') && Text.NoChar(c.suit.value, '.'))
  }

  /** No two cards of the hand share both name and suit. */
  predicate LabelsDistinct(hand: seq<Card>) {
    forall i, j :: 0 <= i < |hand| && 0 <= j < |hand| && Labelled(hand[j], hand[i].name, hand[i].suit) ==> hand[i] == hand[j]
  }

  /** Parsing the file name of a plain card gives back its name and suit. */
  lemma FilenameRoundTrip(c: Card)
    requires PlainCard(c)
    ensures ParseFilename(CardToFilename(c)) == Some((c.name, c.suit))
  {
    if Suited(c) {
      var a := c.suit.value;
      var s := a + "_" + c.name;
      assert Text.NoChar(s, '.') by {
        forall i | 0 <= i < |s| ensures s[i] != '.' {
          if i < |a| {
            assert s[i] == a[i];
          } else if i > |a| {
            assert s[i] == c.name[i - |a| - 1];
          }
        }
      }
      Text.StripPngOfPlain(s);
      assert CardToFilename(c) == s + ".png";
      Text.CountCharNone(a, '_');
      Text.CountCharNone(c.name, '_');
      assert s == a + ("_" + c.name);
      Text.CountCharAppend(a, "_" + c.name, '_');
      Text.CountCharAppend("_", c.name, '_');
      assert Text.CountChar("_", '_') == 1 by {
        assert "_"[1..] == [];
      }
      assert forall i :: 0 <= i < |a| ==> s[i] == a[i];
      FirstIndexIs(s, '_', |a|);
      assert s[..|a|] == a && s[|a| + 1..] == c.name;
    } else {
      Text.StripPngOfPlain(c.name);
      assert CardToFilename(c) == c.name + ".png";
    }
  }

  /**
   * Round trip: the file names of plain hand cards, with no two hand cards
   * sharing name and suit, are turned back into exactly those cards, in order.
   */
  lemma FilenamesRoundTrip(cs: seq<Card>, hand: seq<Card>)
    requires LabelsDistinct(hand)
    requires forall k :: 0 <= k < |cs| ==> cs[k] in hand && PlainCard(cs[k])
    ensures CardsFor(Filenames(cs), hand) == Ok(cs)
  {
    var fs := Filenames(cs);
    forall k | 0 <= k < |cs|
      ensures MatchFilename(fs[k], hand) == Ok(cs[k])
    {
      FilenameRoundTrip(cs[k]);
      var i :| 0 <= i < |hand| && hand[i] == cs[k];
      assert Labelled(hand[i], cs[k].name, cs[k].suit);
    }
    CardsForOk(fs, hand);
    var r := CardsFor(fs, hand);
    assert r.Ok?;
    assert r.value == cs;
  }

  /** Every hand of distinct deck cards passes the round trip. */
  lemma DeckFilenamesRoundTrip(cs: seq<Card>, hand: seq<Card>)
    requires forall k :: 0 <= k < |hand| ==> hand[k] in TichuDeck()
    requires forall k :: 0 <= k < |cs| ==> cs[k] in hand
    ensures CardsFor(Filenames(cs), hand) == Ok(cs)
  {
    DeckLabelsDistinct(hand);
    DeckCardsPlain(cs, hand);
    FilenamesRoundTrip(cs, hand);
  }

  lemma DeckLabelsDistinct(hand: seq<Card>)
    requires forall k :: 0 <= k < |hand| ==> hand[k] in TichuDeck()
    ensures LabelsDistinct(hand)
  {
    forall i, j | 0 <= i < |hand| && 0 <= j < |hand| && Labelled(hand[j], hand[i].name, hand[i].suit)
      ensures hand[i] == hand[j]
    {
      var a :| 0 <= a < 56 && TichuDeck()[a] == hand[i];
      var b :| 0 <= b < 56 && TichuDeck()[b] == hand[j];
      DeckLabelsUnique(a, b);
    }
  }

  lemma DeckCardsPlain(cs: seq<Card>, hand: seq<Card>)
    requires forall k :: 0 <= k < |hand| ==> hand[k] in TichuDeck()
    requires forall k :: 0 <= k < |cs| ==> cs[k] in hand
    ensures forall k :: 0 <= k < |cs| ==> PlainCard(cs[k])
  {
    forall k | 0 <= k < |cs| ensures PlainCard(cs[k]) {
      var a :| 0 <= a < 56 && TichuDeck()[a] == cs[k];
      DeckCardPlain(a);
    }
  }

  /** No two positions of the deck hold cards with the same name and suit. */
  lemma DeckLabelsUnique(a: nat, b: nat)
    requires a < 56 && b < 56
    requires Labelled(TichuDeck()[b], TichuDeck()[a].name, TichuDeck()[a].suit)
    ensures a == b
  {
    if a < b {
      DeckIdsDistinct(a, b);
    } else if b < a {
      DeckIdsDistinct(b, a);
    }
  }

  // ---------------------------------------------------------------------------
  // Closing a trick
  // ---------------------------------------------------------------------------

  /** The card lists of the plays of a trick, in order. */
  function PlayedCards(trick: seq<Play>): (r: seq<seq<Card>>)
    ensures |r| == |trick| && forall k :: 0 <= k < |trick| ==> r[k] == trick[k].combo.cards
  {
    seq(|trick|, k requires 0 <= k < |trick| => trick[k].combo.cards)
  }

  /**
   * `[card for trick in current_trick for card in trick["combo"].cards]`:
   * every card played in the trick, play by play; its points are the sum of
   * the points of the plays.
   */
  function TrickCards(trick: seq<Play>): (r: seq<Card>)
    ensures |r| == TotalLength(PlayedCards(trick))
    ensures forall c :: c in r <==> exists k :: 0 <= k < |trick| && c in trick[k].combo.cards
    ensures SumPoints(r) == SumPointsEach(PlayedCards(trick))
  {
    var css := PlayedCards(trick);
    FlattenLength(css);
    FlattenPoints(css);
    forall c ensures c in Flatten(css) <==> exists k :: 0 <= k < |trick| && c in trick[k].combo.cards {
      FlattenMembers(css, c);
    }
    Flatten(css)
  }

  /** `[p.name for p in players if p.team != team]`. */
  function NamesNotOn(ps: seq<Player>, team: Option<Team>): (r: seq<string>)
    reads ps
    ensures |r| <= |ps|
    ensures forall n :: n in r <==> exists i :: 0 <= i < |ps| && ps[i].team != team && ps[i].name == n
  {
    if ps == [] then []
    else
      var front := ps[..|ps| - 1];
      var last := ps[|ps| - 1];
      assert forall i :: 0 <= i < |front| ==> front[i] == ps[i];
      NamesNotOn(front, team) + (if last.team != team then [last.name] else [])
  }

  /** With teams fixed by seat parity, the Dragon recipients are the names of the two seats of the other parity, in seat order. */
  lemma RecipientsAreOpponents(g: TichuGame, w: int)
    requires g.Seated() && 0 <= w < 4
    ensures var o := (w + 1) % 2;
      NamesNotOn(g.players, g.players[w].team) == [g.players[o].name, g.players[o + 2].name]
  {
    var ps, t := g.players, g.players[w].team;
    assert forall i :: 0 <= i < 4 ==> (ps[i].team != t <==> i % 2 != w % 2);
    assert ps[..1][..0] == [] && ps[..2][..1] == ps[..1] && ps[..3][..2] == ps[..2] && ps[..3] == ps[..|ps| - 1];
    assert NamesNotOn(ps[..1], t) == (if w % 2 != 0 then [ps[0].name] else []);
    assert NamesNotOn(ps[..2], t) == (if w % 2 != 0 then [ps[0].name] else [ps[1].name]);
    assert NamesNotOn(ps[..3], t) == (if w % 2 != 0 then [ps[0].name, ps[2].name] else [ps[1].name]);
  }

  /** What a sender that cannot pass is told. */
  datatype PassRejection = PlayerNotFound | NotYourTurn | NothingToPass

  /**
   * `handle_pass`. A pass by the player on turn over a running trick counts
   * one more pass. Below four passes the turn moves on. At four, the player
   * of the last play wins the trick: with the Dragon in the winning combo the
   * game waits for the choice of a recipient among the other team, the trick
   * kept as it is; otherwise the winner takes all the cards of the trick and
   * leads the next one.
   */
  method HandlePass(g: TichuGame, sender: Option<Player>) returns (r: Option<PassRejection>)
    requires g.Valid()
    modifies g`passCount, g`currentTrick, g`turnIndex, g`waitingForDragonChoice, g`dragonWinner, g`dragonRecipients
    modifies g.players`tricksWon
    ensures g.Valid()
    ensures forall i :: 0 <= i < 4 ==> g.players[i].hand == old(g.players[i].hand)
    ensures r == (if sender.None? then Some(PlayerNotFound)
      else if sender.value != g.players[old(g.turnIndex)] then Some(NotYourTurn)
      else if old(g.currentTrick) == [] then Some(NothingToPass)
      else None)
    ensures r.Some? ==> unchanged(g) && unchanged(g.players)
    ensures r.None? && old(g.passCount) + 1 < 4 ==>
      g.passCount == old(g.passCount) + 1 && g.currentTrick == old(g.currentTrick)
      && g.waitingForDragonChoice == old(g.waitingForDragonChoice)
      && g.dragonWinner == old(g.dragonWinner) && g.dragonRecipients == old(g.dragonRecipients)
      && (|g.finishedPlayers| >= 3 ==> g.turnIndex == old(g.turnIndex))
      && (|g.finishedPlayers| < 3 ==>
            g.players[g.turnIndex] !in g.finishedPlayers && g.MovedOnTo(old(g.turnIndex), g.turnIndex))
      && unchanged(g.players)
    ensures r.None? && old(g.passCount) + 1 >= 4 ==>
      var top := old(g.currentTrick[|g.currentTrick| - 1]);
      if top.combo.containsDragon then
        g.passCount == old(g.passCount) + 1 && g.currentTrick == old(g.currentTrick)
        && g.waitingForDragonChoice && g.dragonWinner == Some(top.player)
        && g.dragonRecipients == Some(NamesNotOn(g.players, top.player.team))
        && g.turnIndex == old(g.turnIndex) && unchanged(g.players)
      else
        g.passCount == 0 && g.currentTrick == [] && g.players[g.turnIndex] == top.player
        && g.waitingForDragonChoice == old(g.waitingForDragonChoice)
        && g.dragonWinner == old(g.dragonWinner) && g.dragonRecipients == old(g.dragonRecipients)
        && top.player.tricksWon == old(top.player.tricksWon) + old(TrickCards(g.currentTrick))
        && forall i :: 0 <= i < 4 && g.players[i] != top.player ==> unchanged(g.players[i])
  {
    if sender.None? {
      return Some(PlayerNotFound);
    }
    if g.players[g.turnIndex] != sender.value {
      return Some(NotYourTurn);
    }
    if g.currentTrick == [] {
      return Some(NothingToPass);
    }
    PassOnTrick(g);
    return None;
  }

  /** A pass that `handle_pass` accepts: count it, then move the turn on or close the trick. */
  method PassOnTrick(g: TichuGame)
    requires g.Valid() && g.currentTrick != []
    modifies g`passCount, g`currentTrick, g`turnIndex, g`waitingForDragonChoice, g`dragonWinner, g`dragonRecipients
    modifies g.players`tricksWon
    ensures g.Valid()
    ensures old(g.passCount) + 1 < 4 ==>
      g.passCount == old(g.passCount) + 1 && g.currentTrick == old(g.currentTrick)
      && g.waitingForDragonChoice == old(g.waitingForDragonChoice)
      && g.dragonWinner == old(g.dragonWinner) && g.dragonRecipients == old(g.dragonRecipients)
      && (|g.finishedPlayers| >= 3 ==> g.turnIndex == old(g.turnIndex))
      && (|g.finishedPlayers| < 3 ==>
            g.players[g.turnIndex] !in g.finishedPlayers && g.MovedOnTo(old(g.turnIndex), g.turnIndex))
      && unchanged(g.players)
    ensures old(g.passCount) + 1 >= 4 ==>
      var top := old(g.currentTrick[|g.currentTrick| - 1]);
      if top.combo.containsDragon then
        g.passCount == old(g.passCount) + 1 && g.currentTrick == old(g.currentTrick)
        && g.waitingForDragonChoice && g.dragonWinner == Some(top.player)
        && g.dragonRecipients == Some(NamesNotOn(g.players, top.player.team))
        && g.turnIndex == old(g.turnIndex) && unchanged(g.players)
      else
        g.passCount == 0 && g.currentTrick == [] && g.players[g.turnIndex] == top.player
        && g.waitingForDragonChoice == old(g.waitingForDragonChoice)
        && g.dragonWinner == old(g.dragonWinner) && g.dragonRecipients == old(g.dragonRecipients)
        && top.player.tricksWon == old(top.player.tricksWon) + old(TrickCards(g.currentTrick))
        && forall i :: 0 <= i < 4 && g.players[i] != top.player ==> unchanged(g.players[i])
  {
    g.passCount := g.passCount + 1;
    if g.passCount >= 4 {
      var top := g.currentTrick[|g.currentTrick| - 1];
      if top.combo.containsDragon {
        AwaitDragonChoice(g, top.player);
      } else {
        TakeTrick(g, top.player);
      }
    } else {
      g.AdvanceTurn();
    }
  }

  /** The Dragon branch of `handle_pass`: the other team's names become the candidates and the winner is recorded. */
  method AwaitDragonChoice(g: TichuGame, winner: Player)
    requires g.Valid() && winner in g.players
    modifies g`waitingForDragonChoice, g`dragonWinner, g`dragonRecipients
    ensures g.Valid()
    ensures g.waitingForDragonChoice && g.dragonWinner == Some(winner)
    ensures g.dragonRecipients == Some(NamesNotOn(g.players, winner.team))
  {
    g.dragonRecipients := Some(NamesNotOn(g.players, winner.team));
    g.waitingForDragonChoice := true;
    g.dragonWinner := Some(winner);
  }

  /** The other branch: the winner takes the cards of the trick and leads the next one. */
  method TakeTrick(g: TichuGame, winner: Player)
    requires g.Valid() && winner in g.players
    modifies g`currentTrick, g`passCount, g`turnIndex, winner`tricksWon
    ensures g.Valid()
    ensures g.currentTrick == [] && g.passCount == 0 && g.players[g.turnIndex] == winner
    ensures winner.tricksWon == old(winner.tricksWon) + old(TrickCards(g.currentTrick))
  {
    var cards := TrickCards(g.currentTrick);
    winner.AddTrick(cards);
    g.currentTrick := [];
    g.passCount := 0;
    g.turnIndex := IndexOf(g.players, winner);
  }


  // ---------------------------------------------------------------------------
  // Giving away a trick won with the Dragon
  // ---------------------------------------------------------------------------

  /** Why a Dragon-recipient choice is ignored or refused. */
  datatype ChoiceRejection = NoDragonWinner | NoCandidates | InvalidRecipient

  /** The candidate search finds the chosen name, and that name is not empty (an empty name is falsy). */
  predicate ValidChoice(candidates: seq<string>, name: Option<string>) {
    name.Some? && name.value in candidates && name.value != ""
  }

  /**
   * `handle_dragon_recipient_selected`. Without a pending Dragon trick
   * nothing happens; a name outside the candidates is refused. Otherwise
   * every seat with the chosen name takes all the cards of the trick, the
   * Dragon fields, the trick and the pass count are cleared, and the
   * Dragon's winner leads the next trick.
   */
  method HandleDragonRecipientSelected(g: TichuGame, recipient: Option<string>) returns (r: Option<ChoiceRejection>)
    requires g.Valid()
    modifies g`passCount, g`currentTrick, g`turnIndex, g`waitingForDragonChoice, g`dragonWinner, g`dragonRecipients
    modifies g.players`tricksWon
    ensures g.Valid()
    ensures forall i :: 0 <= i < 4 ==> g.players[i].hand == old(g.players[i].hand)
    ensures r == (if old(g.dragonWinner).None? then Some(NoDragonWinner)
      else if old(g.dragonRecipients).None? then Some(NoCandidates)
      else if !ValidChoice(old(g.dragonRecipients).value, recipient) then Some(InvalidRecipient)
      else None)
    ensures r.Some? ==> unchanged(g) && unchanged(g.players)
    ensures r.None? ==>
      !g.waitingForDragonChoice && g.dragonWinner == None && g.dragonRecipients == None
      && g.currentTrick == [] && g.passCount == 0 && g.players[g.turnIndex] == old(g.dragonWinner).value
      && forall i :: 0 <= i < 4 ==>
           g.players[i].tricksWon
             == old(g.players[i].tricksWon) + (if g.players[i].name == recipient.value then old(TrickCards(g.currentTrick)) else [])
  {
    if g.dragonWinner.None? {
      return Some(NoDragonWinner);
    }
    var winner := g.dragonWinner.value;
    if g.dragonRecipients.None? {
      return Some(NoCandidates);
    }
    if !ValidChoice(g.dragonRecipients.value, recipient) {
      return Some(InvalidRecipient);
    }
    GiveTrickTo(g, recipient.value);
    EndDragonTrick(g, winner);
    return None;
  }

  /** The clean-up after the gift: no Dragon choice pending, an empty trick, and the winner on turn. */
  method EndDragonTrick(g: TichuGame, winner: Player)
    requires g.Valid() && winner in g.players
    modifies g`passCount, g`currentTrick, g`turnIndex, g`waitingForDragonChoice, g`dragonWinner, g`dragonRecipients
    ensures g.Valid()
    ensures !g.waitingForDragonChoice && g.dragonWinner == None && g.dragonRecipients == None
    ensures g.currentTrick == [] && g.passCount == 0 && g.players[g.turnIndex] == winner
  {
    g.waitingForDragonChoice := false;
    g.dragonWinner := None;
    g.dragonRecipients := None;
    g.currentTrick := [];
    g.passCount := 0;
    g.turnIndex := IndexOf(g.players, winner);
  }

  /** The `for p in game.players` loop: each seat named `name` adds the trick's cards to its pile. */
  method GiveTrickTo(g: TichuGame, name: string)
    requires g.Valid()
    modifies g.players`tricksWon
    ensures g.Valid()
    ensures forall i :: 0 <= i < 4 ==>
      g.players[i].tricksWon
        == old(g.players[i].tricksWon) + (if g.players[i].name == name then TrickCards(g.currentTrick) else [])
  {
    var cards := TrickCards(g.currentTrick);
    for i := 0 to 4
      invariant g.Valid()
      invariant forall j :: 0 <= j < 4 ==>
        g.players[j].tricksWon == old(g.players[j].tricksWon) + (if j < i && g.players[j].name == name then cards else [])
    {
      if g.players[i].name == name {
        g.players[i].AddTrick(cards);
      }
    }
  }

  // ---------------------------------------------------------------------------
  // The won pile on the non-Dragon path, as written and as intended
  // ---------------------------------------------------------------------------

  /** An entry of a won pile: a card, or a whole list of cards where a list was appended by mistake. */
  datatype PileEntry = CardEntry(card: Card) | ListEntry(cards: seq<Card>)

  /** The sum of `card.points` over the pile; reading `points` of a list fails, which is `None`. */
  function EntryPoints(pile: seq<PileEntry>): (r: Option<int>)
    ensures r.Some? <==> forall k :: 0 <= k < |pile| ==> pile[k].CardEntry?
  {
    if pile == [] then Some(0)
    else
      assert forall k :: 1 <= k < |pile| ==> pile[k] == pile[1..][k - 1];
      if pile[0].ListEntry? then None
      else
        var rest := EntryPoints(pile[1..]);
        if rest.None? then None else Some(pile[0].card.points + rest.value)
  }

  /** A pile of cards as entries. */
  function CardEntries(cs: seq<Card>): (r: seq<PileEntry>)
    ensures |r| == |cs| && forall k :: 0 <= k < |cs| ==> r[k] == CardEntry(cs[k])
  {
    seq(|cs|, k requires 0 <= k < |cs| => CardEntry(cs[k]))
  }

  /**
   * The non-Dragon trick win as written: the comprehension yields the card
   * list of each play, and `extend` appends each list as one entry.
   */
  function WinAsWritten(pile: seq<PileEntry>, trick: seq<Play>): (r: seq<PileEntry>)
    ensures |r| == |pile| + |trick| && r[..|pile|] == pile
    ensures forall k :: 0 <= k < |trick| ==> r[|pile| + k] == ListEntry(trick[k].combo.cards)
  {
    pile + seq(|trick|, k requires 0 <= k < |trick| => ListEntry(trick[k].combo.cards))
  }

  /** Once a trick is won this way, the winner's points can no longer be summed. */
  lemma WinAsWrittenUnscorable(pile: seq<PileEntry>, trick: seq<Play>)
    requires trick != []
    ensures EntryPoints(WinAsWritten(pile, trick)) == None
  {
    assert WinAsWritten(pile, trick)[|pile| + 0].ListEntry?;
  }

  /** A trick of one Five, led and then passed four times, leaves a pile that cannot be scored although it is worth 5 points. */
  lemma FiveTrickAsWritten(leader: Player, five: Combo)
    requires five.cards == [StandardCard("spades", 3)]
    ensures EntryPoints(WinAsWritten([], [Play(five, leader)])) == None
    ensures SumPoints(TrickCards([Play(five, leader)])) == 5
  {
    var trick := [Play(five, leader)];
    WinAsWrittenUnscorable([], trick);
    var c := StandardCard("spades", 3);
    assert Names[3] == "5" && c.points == 5;
    assert PlayedCards(trick) == [[c]];
    assert SumPoints([c]) == 5 by {
      assert [c][1..] == [];
    }
    assert SumPointsEach([[c]]) == 5 by {
      assert [[c]][1..] == [];
    }
  }

  /** The cards a pile holds, with each list entry opened up in place. */
  function EntryCards(pile: seq<PileEntry>): seq<Card> {
    if pile == [] then []
    else (if pile[0].CardEntry? then [pile[0].card] else pile[0].cards) + EntryCards(pile[1..])
  }

  lemma {:induction false} EntryCardsAppend(a: seq<PileEntry>, b: seq<PileEntry>)
    ensures EntryCards(a + b) == EntryCards(a) + EntryCards(b)
  {
    if a != [] {
      assert (a + b)[1..] == a[1..] + b;
      EntryCardsAppend(a[1..], b);
    } else {
      assert a + b == b;
    }
  }

  lemma {:induction false} CardEntriesCards(cs: seq<Card>)
    ensures EntryCards(CardEntries(cs)) == cs
  {
    if cs != [] {
      assert CardEntries(cs)[1..] == CardEntries(cs[1..]);
      CardEntriesCards(cs[1..]);
    }
  }

  /** One list entry per play holds, opened up, the trick's cards in play order. */
  lemma {:induction false} ListEntriesCards(trick: seq<Play>)
    ensures EntryCards(seq(|trick|, k requires 0 <= k < |trick| => ListEntry(trick[k].combo.cards)))
            == TrickCards(trick)
  {
    var es := seq(|trick|, k requires 0 <= k < |trick| => ListEntry(trick[k].combo.cards));
    if trick != [] {
      ListEntriesCards(trick[1..]);
      assert es[1..] == seq(|trick| - 1, k requires 0 <= k < |trick| - 1 => ListEntry(trick[1..][k].combo.cards));
      assert PlayedCards(trick)[1..] == PlayedCards(trick[1..]);
    }
  }

  /**
   * The pile as written and the pile `TakeTrick` builds hold the same cards in the
   * same order; they differ only in that the written one keeps each play's cards
   * together as one entry.
   */
  lemma AsWrittenHoldsTrickCards(pile: seq<Card>, trick: seq<Play>)
    ensures EntryCards(WinAsWritten(CardEntries(pile), trick)) == pile + TrickCards(trick)
  {
    var es := seq(|trick|, k requires 0 <= k < |trick| => ListEntry(trick[k].combo.cards));
    assert WinAsWritten(CardEntries(pile), trick) == CardEntries(pile) + es;
    EntryCardsAppend(CardEntries(pile), es);
    CardEntriesCards(pile);
    ListEntriesCards(trick);
  }

  /** Points are additive over a pile made of two parts. */
  lemma {:induction false} EntryPointsAppend(a: seq<PileEntry>, b: seq<PileEntry>)
    requires EntryPoints(a).Some? && EntryPoints(b).Some?
    ensures EntryPoints(a + b) == Some(EntryPoints(a).value + EntryPoints(b).value)
  {
    if a != [] {
      assert (a + b)[1..] == a[1..] + b;
      EntryPointsAppend(a[1..], b);
    } else {
      assert a + b == b;
    }
  }

  /** The points of a pile of card entries are the points of the cards. */
  lemma {:induction false} CardEntriesPoints(cs: seq<Card>)
    ensures EntryPoints(CardEntries(cs)) == Some(SumPoints(cs))
  {
    if cs != [] {
      assert CardEntries(cs)[1..] == CardEntries(cs[1..]);
      CardEntriesPoints(cs[1..]);
    }
  }

  /**
   * The win as intended (and as `TakeTrick` does it): the trick's cards one
   * by one, so the pile's points grow by exactly the trick's points.
   */
  lemma WinAsIntendedScores(pile: seq<Card>, trick: seq<Play>)
    ensures EntryPoints(CardEntries(pile + TrickCards(trick))) == Some(SumPoints(pile) + SumPoints(TrickCards(trick)))
  {
    CardEntriesPoints(pile + TrickCards(trick));
    SumPointsAppend(pile, TrickCards(trick));
  }
}
