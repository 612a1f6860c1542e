/** The rules of five-in-a-row as pure definitions over a snapshot of the
    board: what a cell holds, how the win check counts stones along one
    direction, the independent geometric notion of "five in a row" that the
    counting is proved to decide, and the states a game can be in. */
module Rules {

  /** Side length of the square board. */
  const BoardSize: int := 15

  /** Cell contents: no stone, a black stone (first player), a white stone. */
  const Empty: int := 0
  const Black: int := 1
  const White: int := 2

  /** A board snapshot, indexed row first: g[y][x]. */
  type Grid = seq<seq<int>>

  predicate WellFormed(g: Grid)
  {
    |g| == BoardSize && forall y :: 0 <= y < |g| ==> |g[y]| == BoardSize
  }

  predicate InBounds(x: int, y: int)
  {
    0 <= x < BoardSize && 0 <= y < BoardSize
  }

  predicate IsPlayer(p: int)
  {
    p == Black || p == White
  }

  /** Every cell holds one of the three cell values. */
  ghost predicate CellsValid(g: Grid)
    requires WellFormed(g)
  {
    forall y, x :: InBounds(x, y) ==> g[y][x] == Empty || IsPlayer(g[y][x])
  }

  ghost predicate AllEmpty(g: Grid)
    requires WellFormed(g)
  {
    forall y, x :: InBounds(x, y) ==> g[y][x] == Empty
  }

  /** The board has no empty cell left. */
  ghost predicate IsFull(g: Grid)
    requires WellFormed(g)
  {
    forall y, x :: InBounds(x, y) ==> g[y][x] != Empty
  }

  /** The player who moves after p. */
  function Opponent(p: int): (q: int)
    ensures IsPlayer(p) ==> IsPlayer(q) && q != p
  {
    if p == Black then White else Black
  }

  /** The board after a stone of player p is written at column x, row y. */
  function Place(g: Grid, x: int, y: int, p: int): (h: Grid)
    requires WellFormed(g) && InBounds(x, y)
    ensures WellFormed(h)
    ensures h[y][x] == p
    ensures forall y', x' :: InBounds(x', y') && (x' != x || y' != y) ==> h[y'][x'] == g[y'][x']
  {
    g[y := g[y][x := p]]
  }

  /** (x, y) is on the board and holds a stone of player p. */
  predicate IsStone(g: Grid, x: int, y: int, p: int)
    requires WellFormed(g)
  {
    InBounds(x, y) && g[y][x] == p
  }

  /** A step vector (dx, dy). */
  datatype Vec = Vec(dx: int, dy: int)

  /** The four line directions the win check looks along: horizontal,
      vertical, diagonal and anti-diagonal. */
  const Directions: seq<Vec> := [Vec(1, 0), Vec(0, 1), Vec(1, 1), Vec(1, -1)]

  function Neg(v: Vec): Vec
  {
    Vec(-v.dx, -v.dy)
  }

  /** The displacement d * k of k steps along a component d of a direction;
      every component of a direction is -1, 0 or 1, so it is written as a
      case split that stays within linear arithmetic. */
  function Offset(d: int, k: int): int
  {
    if d > 0 then k else if d < 0 then -k else 0
  }

  /** The cell k steps from (x, y) along v (k may be negative) is on the
      board and holds a stone of player p. */
  predicate StoneAt(g: Grid, x: int, y: int, v: Vec, p: int, k: int)
    requires WellFormed(g)
  {
    IsStone(g, x + Offset(v.dx, k), y + Offset(v.dy, k), p)
  }

  /** Number of p's stones met on steps i, i+1, ..., 4 from (x, y) along v,
      stopping at the first step that leaves the board or misses p's stone. */
  function RunFrom(g: Grid, x: int, y: int, v: Vec, p: int, i: int): nat
    requires WellFormed(g)
    decreases 5 - i
  {
    if i >= 5 || !StoneAt(g, x, y, v, p, i) then 0
    else 1 + RunFrom(g, x, y, v, p, i + 1)
  }

  /** The run of p's stones beyond (x, y) along v, at most four steps long. */
  function Run(g: Grid, x: int, y: int, v: Vec, p: int): nat
    requires WellFormed(g)
  {
    RunFrom(g, x, y, v, p, 1)
  }

  /** The stone at (x, y) plus the runs on both sides of it along v. */
  function LineCount(g: Grid, x: int, y: int, v: Vec, p: int): int
    requires WellFormed(g)
  {
    1 + Run(g, x, y, v, p) + Run(g, x, y, Neg(v), p)
  }

  /** What the win check decides for a stone of p at (x, y): some direction
      counts five or more. */
  ghost predicate WinsAt(g: Grid, x: int, y: int, p: int)
    requires WellFormed(g)
  {
    exists i :: 0 <= i < |Directions| && LineCount(g, x, y, Directions[i], p) >= 5
  }

  /** Steps a..b (inclusive) from (x, y) along v all hold p's stones. */
  ghost predicate Segment(g: Grid, x: int, y: int, v: Vec, p: int, a: int, b: int)
    requires WellFormed(g)
  {
    forall k :: a <= k <= b ==> StoneAt(g, x, y, v, p, k)
  }

  /** The cell (x, y) lies in an unbroken line of five or more of p's stones
      in one of the four directions (lines longer than five included). */
  ghost predicate FiveThrough(g: Grid, x: int, y: int, p: int)
    requires WellFormed(g)
  {
    exists i, a, b :: 0 <= i < |Directions| && a <= 0 <= b && b - a >= 4 &&
      Segment(g, x, y, Directions[i], p, a, b)
  }

  /** Somewhere on the board p has five stones in a row. */
  ghost predicate HasFive(g: Grid, p: int)
    requires WellFormed(g)
  {
    exists cx, cy, i :: 0 <= i < |Directions| && Segment(g, cx, cy, Directions[i], p, 0, 4)
  }

  // ---------------------------------------------------------------------
  // Steps along a line

  /** Stepping backwards along v is stepping forwards along Neg(v). */
  lemma NegStep(g: Grid, x: int, y: int, v: Vec, p: int, k: int)
    requires WellFormed(g)
    ensures StoneAt(g, x, y, Neg(v), p, k) == StoneAt(g, x, y, v, p, -k)
  {
    assert Offset(Neg(v).dx, k) == Offset(v.dx, -k) && Offset(Neg(v).dy, k) == Offset(v.dy, -k);
  }

  /** Step k from the cell j steps along v is step j + k from the origin. */
  lemma ShiftStep(g: Grid, x: int, y: int, v: Vec, p: int, j: int, k: int)
    requires WellFormed(g)
    ensures StoneAt(g, x + Offset(v.dx, j), y + Offset(v.dy, j), v, p, k) == StoneAt(g, x, y, v, p, j + k)
  {
    assert Offset(v.dx, j) + Offset(v.dx, k) == Offset(v.dx, j + k);
    assert Offset(v.dy, j) + Offset(v.dy, k) == Offset(v.dy, j + k);
  }

  // ---------------------------------------------------------------------
  // Runs

  /** A run counts p's stones on the consecutive steps it covers, covers no
      step beyond 4, and ends exactly where the next step is off the board or
      not p's stone. */
  lemma {:induction false} RunFromSteps(g: Grid, x: int, y: int, v: Vec, p: int, i: int)
    requires WellFormed(g) && 1 <= i <= 5
    ensures RunFrom(g, x, y, v, p, i) <= 5 - i
    ensures forall k :: i <= k < i + RunFrom(g, x, y, v, p, i) ==> StoneAt(g, x, y, v, p, k)
    ensures i + RunFrom(g, x, y, v, p, i) < 5 ==> !StoneAt(g, x, y, v, p, i + RunFrom(g, x, y, v, p, i))
    decreases 5 - i
  {
    if i < 5 && StoneAt(g, x, y, v, p, i) {
      RunFromSteps(g, x, y, v, p, i + 1);
    }
  }

  /** A run reaches at least as far as an unbroken stretch of p's stones on
      steps 1..m, m <= 4. */
  lemma {:induction false} RunCoversSegment(g: Grid, x: int, y: int, v: Vec, p: int, m: int)
    requires WellFormed(g) && 0 <= m <= 4
    requires Segment(g, x, y, v, p, 1, m)
    ensures Run(g, x, y, v, p) >= m
  {
    RunFromSteps(g, x, y, v, p, 1);
  }

  /** The run is exactly n long when steps 1..n hold p's stones and either
      n is 4 or step n + 1 is off the board or not p's stone. */
  lemma {:induction false} RunIsExact(g: Grid, x: int, y: int, v: Vec, p: int, n: int)
    requires WellFormed(g) && 0 <= n <= 4
    requires forall k :: 1 <= k <= n ==> StoneAt(g, x, y, v, p, k)
    requires n < 4 ==> !StoneAt(g, x, y, v, p, n + 1)
    ensures Run(g, x, y, v, p) == n
  {
    RunFromSteps(g, x, y, v, p, 1);
  }

  // ---------------------------------------------------------------------
  // The win check decides "five in a row through the placed stone"

  /** The placed stone and the two runs beside it form one unbroken segment. */
  lemma {:induction false} RunsFormSegment(g: Grid, x: int, y: int, v: Vec, p: int)
    requires WellFormed(g) && IsStone(g, x, y, p)
    ensures Segment(g, x, y, v, p, -(Run(g, x, y, Neg(v), p) as int), Run(g, x, y, v, p))
  {
    var f: int, b: int := Run(g, x, y, v, p), Run(g, x, y, Neg(v), p);
    RunFromSteps(g, x, y, v, p, 1);
    RunFromSteps(g, x, y, Neg(v), p, 1);
    forall k | -b <= k <= f
      ensures StoneAt(g, x, y, v, p, k)
    {
      if k < 0 {
        assert StoneAt(g, x, y, Neg(v), p, -k);
        NegStep(g, x, y, v, p, -k);
      } else if k == 0 {
        assert Offset(v.dx, k) == 0 && Offset(v.dy, k) == 0;
      }
    }
  }

  lemma {:induction false} WinsAtGivesFiveThrough(g: Grid, x: int, y: int, p: int)
    requires WellFormed(g) && IsStone(g, x, y, p) && WinsAt(g, x, y, p)
    ensures FiveThrough(g, x, y, p)
  {
    var i :| 0 <= i < |Directions| && LineCount(g, x, y, Directions[i], p) >= 5;
    var v := Directions[i];
    RunsFormSegment(g, x, y, v, p);
    assert Segment(g, x, y, v, p, -(Run(g, x, y, Neg(v), p) as int), Run(g, x, y, v, p));
  }

  lemma {:induction false} FiveThroughGivesWinsAt(g: Grid, x: int, y: int, p: int)
    requires WellFormed(g) && FiveThrough(g, x, y, p)
    ensures WinsAt(g, x, y, p)
  {
    var i, a, b :| 0 <= i < |Directions| && a <= 0 <= b && b - a >= 4 &&
      Segment(g, x, y, Directions[i], p, a, b);
    var v := Directions[i];
    var m, n := if b < 4 then b else 4, if -a < 4 then -a else 4;
    RunCoversSegment(g, x, y, v, p, m);
    forall k | 1 <= k <= n
      ensures StoneAt(g, x, y, Neg(v), p, k)
    {
      NegStep(g, x, y, v, p, k);
      assert a <= -k <= b;
    }
    RunCoversSegment(g, x, y, Neg(v), p, n);
    assert LineCount(g, x, y, v, p) >= 5;
  }

  /** Given the stone just placed at (x, y) belongs to p, the counting check
      succeeds exactly when that stone lies in an unbroken line of five or
      more of p's stones; in particular lines of six or more also win. */
  lemma {:induction false} WinsAtIffFiveThrough(g: Grid, x: int, y: int, p: int)
    requires WellFormed(g) && IsStone(g, x, y, p)
    ensures WinsAt(g, x, y, p) <==> FiveThrough(g, x, y, p)
  {
    if WinsAt(g, x, y, p) {
      WinsAtGivesFiveThrough(g, x, y, p);
    }
    if FiveThrough(g, x, y, p) {
      FiveThroughGivesWinsAt(g, x, y, p);
    }
  }

  /** An overline: six stones in a row through the placed stone still win. */
  lemma {:induction false} OverlineWins(g: Grid, x: int, y: int, p: int, i: int, a: int)
    requires WellFormed(g) && 0 <= i < |Directions| && -5 <= a <= 0
    requires Segment(g, x, y, Directions[i], p, a, a + 5)
    ensures WinsAt(g, x, y, p)
  {
    assert FiveThrough(g, x, y, p);
    FiveThroughGivesWinsAt(g, x, y, p);
  }

  // ---------------------------------------------------------------------
  // Global consequences: checking only around the placed stone suffices

  /** A segment seen from a point j steps further along the same line. */
  lemma {:induction false} ShiftSegment(g: Grid, x: int, y: int, v: Vec, p: int, a: int, b: int, j: int)
    requires WellFormed(g) && Segment(g, x, y, v, p, a, b)
    ensures Segment(g, x + Offset(v.dx, j), y + Offset(v.dy, j), v, p, a - j, b - j)
  {
    var x', y' := x + Offset(v.dx, j), y + Offset(v.dy, j);
    forall k | a - j <= k <= b - j
      ensures StoneAt(g, x', y', v, p, k)
    {
      ShiftStep(g, x, y, v, p, j, k);
    }
  }

  /** A line of five through a cell is a five anywhere on the board. */
  lemma {:induction false} FiveThroughGivesHasFive(g: Grid, x: int, y: int, p: int)
    requires WellFormed(g) && FiveThrough(g, x, y, p)
    ensures HasFive(g, p)
  {
    var i, a, b :| 0 <= i < |Directions| && a <= 0 <= b && b - a >= 4 &&
      Segment(g, x, y, Directions[i], p, a, b);
    var v := Directions[i];
    ShiftSegment(g, x, y, v, p, a, b, a);
    assert Segment(g, x + Offset(v.dx, a), y + Offset(v.dy, a), v, p, 0, 4);
  }

  /** Writing p's stone at (x, y) turns no other cell into anyone's stone. */
  lemma PlaceAddsOnlyThatStone(g: Grid, x: int, y: int, p: int, a: int, b: int, q: int)
    requires WellFormed(g) && InBounds(x, y)
    requires IsStone(Place(g, x, y, p), a, b, q) && !IsStone(g, a, b, q)
    ensures a == x && b == y && q == p
  {
  }

  /** A five of player q from (cx, cy) along v that appears when p's stone
      is written at (x, y) is p's, and (x, y) is its j-th stone. */
  lemma {:induction false} NewSegmentRunsThroughMove(g: Grid, x: int, y: int, p: int,
                                                    cx: int, cy: int, v: Vec, q: int) returns (j: int)
    requires WellFormed(g) && InBounds(x, y)
    requires Segment(Place(g, x, y, p), cx, cy, v, q, 0, 4) && !Segment(g, cx, cy, v, q, 0, 4)
    ensures q == p && 0 <= j <= 4 && Segment(Place(g, x, y, p), x, y, v, p, -j, 4 - j)
  {
    var h := Place(g, x, y, p);
    j :| 0 <= j <= 4 && !StoneAt(g, cx, cy, v, q, j);
    assert StoneAt(h, cx, cy, v, q, j);
    PlaceAddsOnlyThatStone(g, x, y, p, cx + Offset(v.dx, j), cy + Offset(v.dy, j), q);
    ShiftSegment(h, cx, cy, v, q, 0, 4, j);
  }

  /** A five of player q that appears when p's stone is written at (x, y)
      must be p's and must run through (x, y). */
  lemma {:induction false} NewFiveRunsThroughMove(g: Grid, x: int, y: int, p: int, q: int)
    requires WellFormed(g) && InBounds(x, y)
    requires !HasFive(g, q) && HasFive(Place(g, x, y, p), q)
    ensures q == p && FiveThrough(Place(g, x, y, p), x, y, p)
  {
    var h := Place(g, x, y, p);
    var cx, cy, i :| 0 <= i < |Directions| && Segment(h, cx, cy, Directions[i], q, 0, 4);
    var j := NewSegmentRunsThroughMove(g, x, y, p, cx, cy, Directions[i], q);
    assert Segment(h, x, y, Directions[i], p, -j, 4 - j);
  }

  /** A move that the win check does not report creates no five for anyone. */
  lemma {:induction false} QuietMoveKeepsNoFive(g: Grid, x: int, y: int, p: int, q: int)
    requires WellFormed(g) && InBounds(x, y)
    requires !HasFive(g, q) && !WinsAt(Place(g, x, y, p), x, y, p)
    ensures !HasFive(Place(g, x, y, p), q)
  {
    if HasFive(Place(g, x, y, p), q) {
      NewFiveRunsThroughMove(g, x, y, p, q);
      FiveThroughGivesWinsAt(Place(g, x, y, p), x, y, p);
    }
  }

  /** A move that the win check reports leaves a five of the mover on the board. */
  lemma {:induction false} WinningMoveMakesFive(g: Grid, x: int, y: int, p: int)
    requires WellFormed(g) && InBounds(x, y) && WinsAt(Place(g, x, y, p), x, y, p)
    ensures HasFive(Place(g, x, y, p), p)
  {
    WinsAtGivesFiveThrough(Place(g, x, y, p), x, y, p);
    FiveThroughGivesHasFive(Place(g, x, y, p), x, y, p);
  }

  // ---------------------------------------------------------------------
  // The game as a state machine

  /** Why a tapped cell is ignored. */
  datatype Rejection = GameAlreadyOver | OutOfBounds | CellOccupied

  /** What a move leads to; the page shows it in its status line. */
  datatype Outcome =
    | Rejected(reason: Rejection)
    | Won(winner: int)
    | Drawn
    | TurnPassed(next: int)

  /** The outcome of a move of p at (x, y), judged on the board g after the
      stone is written: a win is looked for first, then a full board, and
      otherwise the turn passes to the other player. */
  ghost function Verdict(g: Grid, x: int, y: int, p: int): Outcome
    requires WellFormed(g)
  {
    if WinsAt(g, x, y, p) then Won(p)
    else if IsFull(g) then Drawn
    else TurnPassed(Opponent(p))
  }

  /** The states a game can be in. Cells hold Empty, Black or White and the
      player is Black or White; a game that is still running has a free cell
      and no five in a row for either player; a game that has ended shows a
      five of the player who moved last, or a full board. */
  ghost predicate GameInvariant(g: Grid, player: int, over: bool)
  {
    WellFormed(g) && IsPlayer(player) && CellsValid(g) &&
    if over then
      HasFive(g, player) || IsFull(g)
    else
      !HasFive(g, Black) && !HasFive(g, White) && !IsFull(g)
  }

  /** A new game, an empty board with Black to move, is in the invariant. */
  lemma {:induction false} NewGameInvariant(g: Grid)
    requires WellFormed(g) && AllEmpty(g)
    ensures GameInvariant(g, Black, false)
  {
    forall cx, cy, i, p | 0 <= i < |Directions| && p != Empty
      ensures !Segment(g, cx, cy, Directions[i], p, 0, 4)
    {
      assert !StoneAt(g, cx, cy, Directions[i], p, 0);
    }
    assert g[0][0] == Empty;
  }

  /** Every move of a running game leads to a state in the invariant: the
      mover stays current and the game ends on a win or a draw, and
      otherwise the other player is to move in a game still running. */
  lemma {:induction false} MoveKeepsInvariant(g: Grid, x: int, y: int, p: int)
    requires GameInvariant(g, p, false) && InBounds(x, y)
    ensures var h := Place(g, x, y, p);
            var o := Verdict(h, x, y, p);
            GameInvariant(h, if o.TurnPassed? then Opponent(p) else p, !o.TurnPassed?)
  {
    var h := Place(g, x, y, p);
    if WinsAt(h, x, y, p) {
      WinningMoveMakesFive(g, x, y, p);
    } else if !IsFull(h) {
      QuietMoveKeepsNoFive(g, x, y, p, Black);
      QuietMoveKeepsNoFive(g, x, y, p, White);
    }
  }

  // ---------------------------------------------------------------------
  // Helpers for relating the board array to snapshots

  /** Two well-formed snapshots that agree on every cell are equal. */
  lemma GridsAgree(g: Grid, h: Grid)
    requires WellFormed(g) && WellFormed(h)
    requires forall y, x :: InBounds(x, y) ==> g[y][x] == h[y][x]
    ensures g == h
  {
    forall y | 0 <= y < BoardSize
      ensures g[y] == h[y]
    {
      assert forall x :: 0 <= x < BoardSize ==> g[y][x] == h[y][x];
    }
  }

  /** For a unit component d, multiplying by the step number is Offset. */
  lemma UnitStep(d: int, k: int)
    requires -1 <= d <= 1
    ensures d * k == Offset(d, k)
  {
  }
}
