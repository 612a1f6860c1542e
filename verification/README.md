# Five-in-a-row rules engine

This project models the rules engine of a browser five-in-a-row (gomoku)
game and proves properties about it. The game is played on a 15 by 15
board. Black (1) moves first and White (2) second, and an empty cell is 0.
A tapped cell is accepted only while the game runs and only when the cell
is on the board and empty. The mover's stone is written there. Then the
game checks for a win: the placed stone plus the unbroken runs of the
mover's stones on both sides of it reach five in one of four directions.
If there is no win, it checks for a draw (a full board). Otherwise the
turn passes to the other player.

The model has two modules:

- `Rules` (rules.dfy) holds pure definitions over a snapshot of the
  board. These are the cell values, writing a stone (`Place`), and the run
  counting the win check performs (`RunFrom`, `Run`, `LineCount`,
  `WinsAt`). It also holds an independent geometric notion of five in a
  row (`Segment`, `FiveThrough`, `HasFive`) and the states a game can be
  in (`GameInvariant`, `Verdict`).
- `Game` (game.dfy) holds the class `Gomoku`. The page's three global
  variables become its fields: `board` (an `array2<int>`, indexed
  `board[y, x]`), `currentPlayer` and `gameOver`. The page's functions
  become methods with loops, proved against the functions in `Rules`. The
  object invariant `Valid()` says the board is 15 by 15 and the state is
  one `GameInvariant` allows. Every method that changes state keeps it.

Each component of a direction is -1, 0 or 1. The products `dx * i` of the
win check are related to the case split `Offset(dx, i)` by the lemma
`UnitStep`, so the proofs stay within linear arithmetic.

The two inner counting loops of the win check share one method,
`CountRun`. The backward loop's step `x - dx * i` is the forward step along
the negated direction `Neg(dir)`, whose step is `x + (-dx) * i`.

A move's effect on the page is a status message. The model instead
returns an `Outcome`:

- `Won(player)`;
- `Drawn`;
- `TurnPassed(next)`;
- `Rejected(reason)` for a tap that the page ignores.

## Model

| member | source | states |
|---|---|---|
| Rules.Opponent | app.js:132 | for Black or White, the result is the other one of the two players |
| Rules.Place | app.js:120 | the new board has the same shape, holds p at (x, y) and keeps every other cell |
| Rules.PlaceAddsOnlyThatStone | app.js:120 | writing p's stone at (x, y) makes no other cell into anyone's stone |
| Rules.UnitStep | app.js:152-153 | for a direction component of -1, 0 or 1, the product `dx * i` equals the step offset used in the model |
| Rules.NegStep | app.js:161-164 | a step along the negated direction is the step `x - dx * i` of the backward loop |
| Rules.RunFromSteps | app.js:151-159 | a run counts at most the remaining steps (at most 4 from step 1); every step it counts holds p's stone; the step after it is off the board or not p's stone |
| Rules.RunIsExact | app.js:151-159 | a run is exactly n when steps 1..n hold p's stones and either n is 4 or step n + 1 is off the board or not p's, so the loop's break rule determines the count |
| Rules.RunCoversSegment | app.js:151-159 | a run reaches at least as far as any unbroken stretch of p's stones on steps 1..m, for m of at most 4 |
| Rules.RunsFormSegment | app.js:149-169 | the placed stone together with the forward and backward runs forms one unbroken line of p's stones |
| Rules.WinsAtGivesFiveThrough | app.js:139-175 | when the count reaches five in some direction, the placed stone lies in an unbroken line of at least five of p's stones |
| Rules.FiveThroughGivesWinsAt | app.js:139-175 | when the placed stone lies in an unbroken line of at least five of p's stones, the count reaches five in that direction |
| Rules.WinsAtIffFiveThrough | app.js:139-175 | for p's stone at (x, y), the win check succeeds if and only if (x, y) lies in an unbroken line of five or more of p's stones in one of the four directions |
| Rules.OverlineWins | app.js:149-172 | six stones in a row through the placed stone still win, because the test is `count >= 5` |
| Rules.FiveThroughGivesHasFive | app.js:139-175 | a line of five through the placed stone is a five on the board |
| Rules.NewSegmentRunsThroughMove | app.js:120-123 | a line of five that appears when a stone is written belongs to the mover, and the written cell is one of its five cells |
| Rules.NewFiveRunsThroughMove | app.js:120-123 | a five that a move creates belongs to the mover and runs through the placed stone, so checking only through the placed stone misses no win |
| Rules.QuietMoveKeepsNoFive | app.js:123-135 | a move the win check does not report leaves no five for either player on a board that had none |
| Rules.WinningMoveMakesFive | app.js:123-126 | a move the win check reports leaves a five of the mover on the board |
| Rules.NewGameInvariant | app.js:24-27 | an empty board with Black to move and the game running satisfies the game invariant |
| Rules.MoveKeepsInvariant | app.js:119-136 | from any running game, a move leads to an invariant state: a win ends the game with the mover current, else a full board ends it, else the other player moves in a game still running with no five and a free cell |
| Game.Gomoku.constructor | app.js:194-195 | page load: the state declared at app.js:15-17 is set up by the start-up call to the new-game routine (app.js:24-27), giving a freshly allocated board with all cells empty, Black to move, game running, invariant established |
| Game.Gomoku.Initialize | app.js:24-27 | a new game: a fresh, all-empty 15 by 15 board, Black to move, game running, invariant established |
| Game.Gomoku.HandleInput | app.js:85-115 | a tap is rejected as game over, off the board or occupied, checked in that order, and a rejected tap changes nothing; otherwise the move is made as PlaceStone states; the invariant is kept |
| Game.Gomoku.PlaceStone | app.js:119-136 | only cell (x, y) changes, and it gets the mover's stone; a win is reported first (game over, mover stays current, even on a full board), then a draw (game over), else the turn passes to the opponent; the invariant is kept |
| Game.Gomoku.CheckWin | app.js:139-175 | returns true exactly when 1 plus the forward run plus the backward run reaches five in one of the four directions; changes nothing |
| Game.Gomoku.CountRun | app.js:151-169 | returns the number of player's stones on steps 1..4 along v, stopping at the first step off the board or without player's stone; changes nothing |
| Game.Gomoku.CheckDraw | app.js:178-187 | returns true exactly when no cell of the board is empty; changes nothing |

## Left out

- Drawing the board and stones (app.js:34-81) is not modelled. It is canvas rendering with pixel geometry and floating point. The calls to it at app.js:30 and app.js:121 are left out too.
- Converting a mouse or touch event into a cell (app.js:87-107) is not modelled. It covers the event type, `getBoundingClientRect` and `Math.floor` on floating-point pixel coordinates. `HandleInput` takes integer cell coordinates instead. The early return for unsupported event types (app.js:97-99) is part of this conversion.
- Status message text and colours (app.js:28-29, app.js:124-134) are not modelled. The model returns the `Outcome` those messages report.
- Registering event listeners (app.js:1-5, app.js:190-192) is browser wiring and is not modelled. Running the start-up call at page load (app.js:195) is modelled by the constructor.
- A rejected tap is ignored silently by the page. The model returns `Rejected` with the reason instead and proves that the state is unchanged.
