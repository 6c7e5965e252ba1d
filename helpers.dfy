/** Presentation helpers (game_logic/Helpers.py): image file names and list flattening; also two counting facts about sets that several proofs use. */
module Helpers {
  import opened Cards
  import Text

  /** `card_to_filename`: `suit_name.png` for a suited card, `name.png` otherwise. */
  function CardToFilename(c: Card): (f: string)
    ensures |f| >= 4 && f[|f| - 4..] == ".png"
    ensures Suited(c) ==> f[..|f| - 4] == c.suit.value + "_" + c.name
    ensures !Suited(c) ==> f[..|f| - 4] == c.name
  {
    if Suited(c) then c.suit.value + "_" + c.name + ".png" else c.name + ".png"
  }

  /** `flatten`: the inner sequences, concatenated in order. */
  function Flatten<T>(xss: seq<seq<T>>): seq<T> {
    if xss == [] then [] else xss[0] + Flatten(xss[1..])
  }

  function TotalLength<T>(xss: seq<seq<T>>): nat {
    if xss == [] then 0 else |xss[0]| + TotalLength(xss[1..])
  }

  /** The flattened sequence is as long as all inner sequences together. */
  lemma {:induction false} FlattenLength<T>(xss: seq<seq<T>>)
    ensures |Flatten(xss)| == TotalLength(xss)
  {
    if xss != [] {
      FlattenLength(xss[1..]);
    }
  }

  /** Flattening keeps the order: `xss + [ys]` flattens to the flattening of `xss` followed by `ys`. */
  lemma {:induction false} FlattenSnoc<T>(xss: seq<seq<T>>, ys: seq<T>)
    ensures Flatten(xss + [ys]) == Flatten(xss) + ys
  {
    if xss == [] {
      assert xss + [ys] == [ys];
      assert Flatten([ys][1..]) == [];
    } else {
      assert (xss + [ys])[1..] == xss[1..] + [ys];
      FlattenSnoc(xss[1..], ys);
    }
  }

  /** Every element of an inner sequence appears in the flattening, and nothing else does. */
  lemma {:induction false} FlattenMembers<T>(xss: seq<seq<T>>, x: T)
    ensures x in Flatten(xss) <==> exists k :: 0 <= k < |xss| && x in xss[k]
  {
    if xss != [] {
      FlattenMembers(xss[1..], x);
      if x in Flatten(xss[1..]) {
        var k :| 0 <= k < |xss[1..]| && x in xss[1..][k];
        assert x in xss[k + 1];
      }
      if k :| 1 <= k < |xss| && x in xss[k] {
        assert xss[k] == xss[1..][k - 1];
      }
    }
  }

  /** Points are additive over flattening. */
  lemma {:induction false} FlattenPoints(xss: seq<seq<Card>>)
    ensures SumPoints(Flatten(xss)) == SumPointsEach(xss)
  {
    if xss != [] {
      FlattenPoints(xss[1..]);
      SumPointsAppend(xss[0], Flatten(xss[1..]));
    }
  }

  function SumPointsEach(xss: seq<seq<Card>>): int {
    if xss == [] then 0 else SumPoints(xss[0]) + SumPointsEach(xss[1..])
  }
}
