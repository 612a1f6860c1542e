/** The game state of the five-in-a-row page (the board, whose turn it is,
    whether the game has ended) as one object, with the operations the page
    runs on it: starting a new game, accepting a tapped cell, placing a stone,
    and the win and draw checks. */
module Game {
  import opened Rules

  /** The contents of a two-dimensional board array as a value. */
  ghost function Snapshot(b: array2<int>): (g: Grid)
    reads b
    ensures |g| == b.Length0
    ensures forall y :: 0 <= y < |g| ==> |g[y]| == b.Length1
    ensures forall y, x :: 0 <= y < b.Length0 && 0 <= x < b.Length1 ==> g[y][x] == b[y, x]
  {
    seq(b.Length0, y requires 0 <= y < b.Length0 reads b =>
      seq(b.Length1, x requires 0 <= x < b.Length1 reads b => b[y, x]))
  }

  class Gomoku {
    /** board[y, x] is the cell in row y, column x: Empty, Black or White. */
    var board: array2<int>
    var currentPlayer: int
    var gameOver: bool

    /** The board as a value. */
    ghost function Cells(): Grid
      reads this, board
    {
      Snapshot(board)
    }

    ghost predicate Shaped()
      reads this
    {
      board.Length0 == BoardSize && board.Length1 == BoardSize
    }

    /** The object invariant: the board is BoardSize by BoardSize and the
        state is one a game can be in. */
    ghost predicate Valid()
      reads this, board
    {
      Shaped() && GameInvariant(Cells(), currentPlayer, gameOver)
    }

    /** Page load: the game starts as a new one. */
    constructor ()
      ensures Valid() && fresh(board)
      ensures AllEmpty(Cells()) && currentPlayer == Black && !gameOver
    {
      board := new int[BoardSize, BoardSize]((y, x) => Empty);
      currentPlayer := Black;
      gameOver := false;
      new;
      NewGameInvariant(Cells());
    }

    /** New game: a fresh empty board, Black to move, game running. */
    method Initialize()
      modifies this
      ensures Valid() && fresh(board)
      ensures AllEmpty(Cells()) && currentPlayer == Black && !gameOver
    {
      board := new int[BoardSize, BoardSize]((y, x) => Empty);
      currentPlayer := Black;
      gameOver := false;
      NewGameInvariant(Cells());
    }

    /** The tap handler once the tap is turned into a cell: it ignores the
        tap when the game is over, the cell is off the board or occupied, and
        otherwise places the current player's stone there. */
    method HandleInput(x: int, y: int) returns (outcome: Outcome)
      requires Valid()
      modifies this, board
      ensures Valid() && board == old(board)
      ensures old(gameOver) ==> outcome == Rejected(GameAlreadyOver)
      ensures !old(gameOver) && !InBounds(x, y) ==> outcome == Rejected(OutOfBounds)
      ensures !old(gameOver) && InBounds(x, y) && old(board[y, x]) != Empty ==>
                outcome == Rejected(CellOccupied)
      ensures outcome.Rejected? ==> unchanged(this) && unchanged(board)
      ensures !old(gameOver) && InBounds(x, y) && old(board[y, x]) == Empty ==>
                Cells() == Place(old(Cells()), x, y, old(currentPlayer)) &&
                outcome == Verdict(Cells(), x, y, old(currentPlayer)) &&
                gameOver == !outcome.TurnPassed? &&
                currentPlayer == (if outcome.TurnPassed? then Opponent(old(currentPlayer)) else old(currentPlayer))
    {
      if gameOver {
        return Rejected(GameAlreadyOver);
      }
      if !(0 <= x < BoardSize && 0 <= y < BoardSize) {
        return Rejected(OutOfBounds);
      }
      if board[y, x] != Empty {
        return Rejected(CellOccupied);
      }
      outcome := PlaceStone(x, y);
    }

    /** Writes the current player's stone at (x, y); then a win ends the game
        with the mover still current, else a full board ends it as a draw,
        else the turn passes to the other player. */
    method PlaceStone(x: int, y: int) returns (outcome: Outcome)
      requires Valid() && !gameOver && InBounds(x, y) && board[y, x] == Empty
      modifies this, board
      ensures Valid() && board == old(board)
      ensures Cells() == Place(old(Cells()), x, y, old(currentPlayer))
      ensures outcome == Verdict(Cells(), x, y, old(currentPlayer))
      ensures gameOver == !outcome.TurnPassed?
      ensures currentPlayer == if outcome.TurnPassed? then Opponent(old(currentPlayer)) else old(currentPlayer)
    {
      ghost var before := Cells();
      var player := currentPlayer;
      board[y, x] := player;
      GridsAgree(Cells(), Place(before, x, y, player));
      ghost var after := Snapshot(board);
      MoveKeepsInvariant(before, x, y, player);
      var won := CheckWin(x, y, player);
      if won {
        gameOver := true;
        outcome := Won(player);
      } else {
        var full := CheckDraw();
        if full {
          gameOver := true;
          outcome := Drawn;
        } else {
          currentPlayer := Opponent(player);
          outcome := TurnPassed(currentPlayer);
        }
      }
      assert Snapshot(board) == after;
    }

    /** Looks along each of the four directions in turn and reports a win as
        soon as the placed stone plus the runs on both sides of it reach
        five. */
    method CheckWin(x: int, y: int, player: int) returns (won: bool)
      requires Shaped()
      ensures won == WinsAt(Cells(), x, y, player)
    {
      for d := 0 to |Directions|
        invariant forall e :: 0 <= e < d ==> LineCount(Cells(), x, y, Directions[e], player) < 5
      {
        var dir := Directions[d];
        var count := 1;
        var forward := CountRun(x, y, dir, player);
        count := count + forward;
        var backward := CountRun(x, y, Neg(dir), player);
        count := count + backward;
        if count >= 5 {
          return true;
        }
      }
      return false;
    }

    /** One counting loop of the win check: steps 1 to 4 from (x, y) by v,
        counting player's stones and stopping at the first step that leaves
        the board or misses player's stone. */
    method CountRun(x: int, y: int, v: Vec, player: int) returns (n: int)
      requires Shaped() && -1 <= v.dx <= 1 && -1 <= v.dy <= 1
      ensures n == Run(Cells(), x, y, v, player)
    {
      ghost var g := Cells();
      assert WellFormed(g);
      n := 0;
      for i := 1 to 5
        invariant n == i - 1
        invariant forall k :: 1 <= k < i ==> StoneAt(g, x, y, v, player, k)
      {
        var nx, ny := x + v.dx * i, y + v.dy * i;
        var hit := 0 <= nx < BoardSize && 0 <= ny < BoardSize && board[ny, nx] == player;
        assert hit == StoneAt(g, x, y, v, player, i) by {
          UnitStep(v.dx, i);
          UnitStep(v.dy, i);
        }
        if hit {
          n := n + 1;
        } else {
          RunIsExact(g, x, y, v, player, n);
          break;
        }
      }
      if n == 4 {
        RunIsExact(g, x, y, v, player, n);
      }
      assert g == Cells();
    }

    /** Scans the board row by row for an empty cell. */
    method CheckDraw() returns (full: bool)
      requires Shaped()
      ensures full == IsFull(Cells())
    {
      for y := 0 to BoardSize
        invariant forall y', x' :: 0 <= y' < y && 0 <= x' < BoardSize ==> board[y', x'] != Empty
      {
        for x := 0 to BoardSize
          invariant forall x' :: 0 <= x' < x ==> board[y, x'] != Empty
        {
          if board[y, x] == Empty {
            return false;
          }
        }
      }
      return true;
    }
  }
}
