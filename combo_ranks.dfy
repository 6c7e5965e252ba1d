/**
 * Integer-sequence facts behind the straight test of game_logic/combo.py:
 * `sorted(set(values))`, `sorted(values + [i])` and the "every step is +1" check.
 */
module RankRuns {

  predicate Increasing(s: seq<int>) {
    forall i, j :: 0 <= i < j < |s| ==> s[i] < s[j]
  }

  /** `all(s[j + 1] == s[j] + 1 for j in range(len(s) - 1))`. */
  predicate Consecutive(s: seq<int>) {
    forall j :: 0 <= j < |s| - 1 ==> s[j + 1] == s[j] + 1
  }

  /** An increasing run with no holes: its last value is exactly `|s| - 1` above its first. */
  predicate Contiguous(s: seq<int>) {
    |s| == 0 || s[|s| - 1] - s[0] == |s| - 1
  }

  /** `sorted(s + [x])` for an already sorted `s`. */
  function Insert(s: seq<int>, x: int): (r: seq<int>)
    ensures |r| == |s| + 1
    ensures multiset(r) == multiset(s) + multiset{x}
  {
    if s == [] then [x]
    else if x <= s[0] then [x] + s
    else
      assert s == [s[0]] + s[1..];
      [s[0]] + Insert(s[1..], x)
  }

  /** Inserting a new value into an increasing run keeps it increasing, with the smaller first and the larger last value. */
  lemma {:induction false} InsertIncreasing(s: seq<int>, x: int)
    requires Increasing(s) && x !in s
    ensures Increasing(Insert(s, x))
    ensures s != [] ==> Insert(s, x)[0] == (if x < s[0] then x else s[0])
    ensures s != [] ==> Insert(s, x)[|s|] == (if x > s[|s| - 1] then x else s[|s| - 1])
    decreases |s|, 1
  {
    if s == [] {
    } else if x <= s[0] {
      forall y | y in s ensures x < y {
        var k :| 0 <= k < |s| && s[k] == y;
        assert s[0] <= s[k];
      }
      ConsIncreasing(x, s);
    } else {
      InsertIncreasingTail(s, x);
    }
  }

  lemma {:induction false} InsertIncreasingTail(s: seq<int>, x: int)
    requires Increasing(s) && x !in s && s != [] && x > s[0]
    ensures Increasing(Insert(s, x))
    ensures Insert(s, x)[0] == s[0]
    ensures Insert(s, x)[|s|] == (if x > s[|s| - 1] then x else s[|s| - 1])
    decreases |s|, 0
  {
    var tail := s[1..];
    assert s == [s[0]] + tail;
    assert Increasing(tail);
    InsertIncreasing(tail, x);
    var rest := Insert(tail, x);
    forall y | y in rest ensures s[0] < y {
      assert y in multiset(rest);
      assert y == x || y in tail;
    }
    ConsIncreasing(s[0], rest);
    if tail != [] {
      assert tail[|tail| - 1] == s[|s| - 1];
    }
  }

  /** Putting a value below every element of an increasing run in front keeps it increasing. */
  lemma ConsIncreasing(a: int, t: seq<int>)
    requires Increasing(t) && forall y :: y in t ==> a < y
    ensures Increasing([a] + t)
  {
    var r := [a] + t;
    forall i, j | 0 <= i < j < |r| ensures r[i] < r[j] {
      assert r[j] == t[j - 1] && t[j - 1] in t;
      if i > 0 {
        assert r[i] == t[i - 1];
      }
    }
  }

  /** `sorted(set(xs))`: the distinct values of `xs` in increasing order. */
  function SortedSet(xs: seq<int>): (r: seq<int>)
    ensures Increasing(r)
    ensures forall x :: x in r <==> x in xs
  {
    if xs == [] then []
    else
      var s := SortedSet(xs[..|xs| - 1]);
      var x := xs[|xs| - 1];
      assert xs == xs[..|xs| - 1] + [x];
      if x in s then s
      else
        var r := Insert(s, x);
        InsertIncreasing(s, x);
        assert forall y :: y in r <==> y in multiset(s) + multiset{x};
        r
  }

  lemma {:induction false} IncreasingGap(s: seq<int>, i: nat, j: nat)
    requires Increasing(s) && i <= j < |s|
    ensures s[j] - s[i] >= j - i
  {
    if i < j {
      IncreasingGap(s, i, j - 1);
    }
  }

  lemma {:induction false} ConsecutiveOffset(s: seq<int>, j: nat)
    requires Consecutive(s) && j < |s|
    ensures s[j] == s[0] + j
  {
    if j > 0 {
      ConsecutiveOffset(s, j - 1);
    }
  }

  /** For an increasing sequence the step-by-step check and the span check agree. */
  lemma ConsecutiveIffContiguous(s: seq<int>)
    requires Increasing(s)
    ensures Consecutive(s) <==> Contiguous(s)
  {
    if Consecutive(s) && |s| > 0 {
      ConsecutiveOffset(s, |s| - 1);
    }
    if Contiguous(s) && !Consecutive(s) {
      var j :| 0 <= j < |s| - 1 && s[j + 1] != s[j] + 1;
      IncreasingGap(s, 0, j);
      IncreasingGap(s, j + 1, |s| - 1);
    }
  }

  lemma {:induction false} ConsecutiveIncreasing(s: seq<int>)
    requires Consecutive(s)
    ensures Increasing(s)
  {
    forall i, j | 0 <= i < j < |s| ensures s[i] < s[j] {
      ConsecutiveOffset(s, i);
      ConsecutiveOffset(s, j);
    }
  }

  lemma {:induction false} IncreasingCountAtMostOne(s: seq<int>, y: int)
    requires Increasing(s)
    ensures multiset(s)[y] <= 1
  {
    if s != [] {
      assert s == [s[0]] + s[1..];
      IncreasingCountAtMostOne(s[1..], y);
      if s[0] == y {
        assert y !in s[1..];
      }
    }
  }

  /**
   * Trying `x` as the Phoenix's value in the increasing run `w`, for `x` between
   * `min(w)` and `max(w) + 1`: the trial run has no gap exactly when `x` is new and
   * either closes the one gap of `w`, or sits on top of an already gapless `w`.
   */
  lemma InsertConsecutive(w: seq<int>, x: int)
    requires Increasing(w) && |w| >= 1
    requires w[0] <= x <= w[|w| - 1] + 1
    ensures Consecutive(Insert(w, x)) <==>
      x !in w && (if x == w[|w| - 1] + 1 then Contiguous(w) else w[|w| - 1] - w[0] == |w|)
  {
    var t := Insert(w, x);
    if x in w {
      assert multiset(t)[x] >= 2;
      if Consecutive(t) {
        ConsecutiveIncreasing(t);
        IncreasingCountAtMostOne(t, x);
      }
    } else {
      InsertIncreasing(w, x);
      ConsecutiveIffContiguous(t);
    }
  }

  /** A run spanning one more value than it has elements misses a value strictly inside it. */
  lemma MissingInside(w: seq<int>) returns (g: int)
    requires Increasing(w) && |w| >= 1 && w[|w| - 1] - w[0] == |w|
    ensures w[0] < g < w[|w| - 1] && g !in w
  {
    ConsecutiveIffContiguous(w);
    var j :| 0 <= j < |w| - 1 && w[j + 1] != w[j] + 1;
    g := w[j] + 1;
    IncreasingGap(w, 0, j);
    IncreasingGap(w, j + 1, |w| - 1);
  }

  lemma {:induction false} IncreasingSetSize(s: seq<int>)
    requires Increasing(s)
    ensures |set x | x in s| == |s|
  {
    if s != [] {
      IncreasingSetSize(s[1..]);
      assert (set x | x in s) == {s[0]} + (set x | x in s[1..]);
      assert s[0] !in (set x | x in s[1..]);
    }
  }
}
