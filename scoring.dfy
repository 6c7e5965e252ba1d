/**
 * Round settlement (`calculate_round_points`) on values: what each seat
 * contributes to the two team totals once a round is over.
 */
module Scoring {
  import opened Wrappers
  import opened Players

  /** The `{"A": .., "B": ..}` score dictionaries. */
  datatype TeamPoints = TeamPoints(a: int, b: int) {
    function Get(t: Team): int {
      if t == A then a else b
    }

    function Add(t: Team, n: int): (r: TeamPoints)
      ensures r.Get(t) == Get(t) + n && r.Get(Other(t)) == Get(Other(t))
    {
      if t == A then TeamPoints(a + n, b) else TeamPoints(a, b + n)
    }

    /** Adding a round's points to the running scores, team by team. */
    function Plus(other: TeamPoints): (r: TeamPoints)
      ensures forall t :: r.Get(t) == Get(t) + other.Get(t)
    {
      TeamPoints(a + other.a, b + other.b)
    }
  }

  /**
   * What settlement needs of one seat: its team, the points of the cards it
   * won in tricks, the points still in its hand, and whether it went out.
   */
  datatype Seat = Seat(team: Team, trickPoints: int, handPoints: int, finished: bool)

  /**
   * `calculate_round_points`, seat by seat in table order. A seat that went
   * out scores its tricks for its own team. A seat still holding cards gives
   * its hand's points to the team of the first player out (`first`) and its
   * tricks to the other team. With no first player out (an empty finishing
   * list) the first such seat makes the source raise `IndexError`: `None`.
   */
  function RoundPointsOf(seats: seq<Seat>, first: Option<Team>): Option<TeamPoints> {
    if seats == [] then Some(TeamPoints(0, 0))
    else
      match RoundPointsOf(seats[..|seats| - 1], first)
      case None => None
      case Some(r) =>
        var s := seats[|seats| - 1];
        if s.finished then Some(r.Add(s.team, s.trickPoints))
        else if first.None? then None
        else Some(r.Add(first.value, s.handPoints).Add(Other(s.team), s.trickPoints))
  }

  /** The trick points of all seats. */
  function TrickTotal(seats: seq<Seat>): int {
    if seats == [] then 0 else TrickTotal(seats[..|seats| - 1]) + seats[|seats| - 1].trickPoints
  }

  /** The points left in the hands of the seats that did not go out. */
  function LeftInHands(seats: seq<Seat>): int {
    if seats == [] then 0
    else
      var s := seats[|seats| - 1];
      LeftInHands(seats[..|seats| - 1]) + (if s.finished then 0 else s.handPoints)
  }

  /** The trick points of the seats of team `t` that went out. */
  function WonBy(seats: seq<Seat>, t: Team): int {
    if seats == [] then 0
    else
      var s := seats[|seats| - 1];
      WonBy(seats[..|seats| - 1], t) + (if s.finished && s.team == t then s.trickPoints else 0)
  }

  /** The trick points of the seats of team `t` that did not go out. */
  function ConcededBy(seats: seq<Seat>, t: Team): int {
    if seats == [] then 0
    else
      var s := seats[|seats| - 1];
      ConcededBy(seats[..|seats| - 1], t) + (if !s.finished && s.team == t then s.trickPoints else 0)
  }

  /** Settlement fails exactly when some seat is still in and nobody has gone out first. */
  lemma {:induction false} RoundPointsFail(seats: seq<Seat>, first: Option<Team>)
    ensures RoundPointsOf(seats, first).None? <==>
      first.None? && exists k :: 0 <= k < |seats| && !seats[k].finished
  {
    if seats != [] {
      var front := seats[..|seats| - 1];
      RoundPointsFail(front, first);
      if first.None? && exists k :: 0 <= k < |front| && !front[k].finished {
        var k :| 0 <= k < |front| && !front[k].finished;
        assert !seats[k].finished;
      }
      if exists k :: 0 <= k < |seats| && !seats[k].finished {
        var k :| 0 <= k < |seats| && !seats[k].finished;
        if k < |front| {
          assert !front[k].finished;
        }
      }
    }
  }

  /**
   * Each team gets the tricks of its own seats that went out, the tricks of
   * the other team's seats that are still in, and, if its player went out
   * first, every point left in a hand.
   */
  lemma {:induction false} RoundPointsShares(seats: seq<Seat>, first: Option<Team>, t: Team)
    requires RoundPointsOf(seats, first).Some?
    ensures RoundPointsOf(seats, first).value.Get(t) ==
      WonBy(seats, t) + ConcededBy(seats, Other(t)) + (if first == Some(t) then LeftInHands(seats) else 0)
  {
    if seats != [] {
      var front := seats[..|seats| - 1];
      RoundPointsShares(front, first, t);
      assert Other(Other(t)) == t;
    }
  }

  /** No point is created or lost: the two teams share every trick point and every point left in a hand. */
  lemma {:induction false} RoundPointsConserved(seats: seq<Seat>, first: Option<Team>)
    requires RoundPointsOf(seats, first).Some?
    ensures RoundPointsOf(seats, first).value.a + RoundPointsOf(seats, first).value.b ==
      TrickTotal(seats) + LeftInHands(seats)
  {
    if seats != [] {
      RoundPointsConserved(seats[..|seats| - 1], first);
    }
  }

  /** Once settlement has failed on a prefix of the seats it fails on the whole table. */
  lemma {:induction false} RoundPointsFailureSticks(seats: seq<Seat>, n: nat, first: Option<Team>)
    requires n <= |seats| && RoundPointsOf(seats[..n], first).None?
    ensures RoundPointsOf(seats, first).None?
  {
    if n < |seats| {
      assert seats[..|seats| - 1][..n] == seats[..n];
      RoundPointsFailureSticks(seats[..|seats| - 1], n, first);
    } else {
      assert seats[..n] == seats;
    }
  }
}
