# Tic-tac-toe engine in Dafny

A model of the game engine of a small browser tic-tac-toe game (`script.js`). It covers three parts:

- the **board** (`Gameboard`): nine cells in row-major order, each empty or holding "X" or "O";
- the **players** (`createPlayer`): Player1 plays "X", Player2 plays "O". A player's move writes its marker into a cell and then asks the game to evaluate the board;
- the **game** (`Game`): it keeps whose turn it is. After every move it evaluates the board with `checkWinner`. This scans the eight rows, columns and diagonals in a fixed order and, within each, tries the players in list order. It reports the first winning player, a tie on a full board, or "in progress". While the game is in progress, the turn passes to the other player; otherwise the game reports the end.

Modules, one per part of the program:

- `Board` (board.dfy): the `Marker`, `Cell` and `Option` types, and the class `Gameboard`, whose nine-cell `array` is created once and written in place.
- `Rules` (rules.dfy): players, markers, the winning combinations, and the evaluation of a board. `Scan` and `Evaluate` are the specification functions. `CheckWinner` is the nested loop with early return, proved equal to `Evaluate`. The lemmas give `Evaluate` its meaning: who wins, when it is a tie, and when the game goes on.
- `Play` (play.dfy): the class `Game`, with `currentPlayer`, `SwitchPlayer`, `HandleMove`, the players' `MakeMove`, and `Init`.
- `Fixtures` (fixtures.dfy): the two sample boards shipped with the program (`MOCK_BOARDS`), the top-level `Game.init(MOCK_BOARDS.tie)` call, and two short games played through `MakeMove`.

`checkWinner`'s three-way result (a player, `null`, `undefined`) becomes the datatype `Outcome = Win(winner) | Tie | InProgress`. An empty cell (`null`) becomes `None`. Reading past the end of a board reads as empty, as `undefined` does in the original. So `Evaluate` is defined on boards of any length.

The model follows the code, which is more permissive than a typical engine:

- No move is ever refused. A move on an occupied cell overwrites it (`Fixtures.OverwriteOccupied`). A move outside the board leaves the nine cells as they were, and the board is still evaluated (`Fixtures.MoveOffBoard`). Moves after the game has ended are accepted too. A player may move out of turn.
- `checkWinner` tests both players against every combination, not only the player who just moved.
- `getBoard` returns the board's own array, not a copy.
- The outcome records only the winner, not the winning combination.

## Model

| member | source | states |
|---|---|---|
| `Board.Gameboard.constructor` | script.js:2 | a new board has exactly nine cells, all empty |
| `Board.Gameboard.GetBoard` | script.js:4-6 | returns the board's own array (the same object), not a copy |
| `Board.Gameboard.SetCell` | script.js:8-10 | for an index from 0 to 8, that cell holds the given marker afterwards, whatever it held before, and every other cell is unchanged; for any other index the nine cells are unchanged |
| `Board.Gameboard.SetBoard` | script.js:12-16 | after the copy, cell i equals the mock's cell i for every index of the mock; cells past the mock's end keep their old value |
| `Rules.GetMarker` | script.js:31-33 | Player1's marker is X and Player2's is O, the markers the players are created with at script.js:41-42 |
| `Rules.Scan` | script.js:73-83 | the nested scan resumed at combination k; a player it returns owns some combination from k on |
| `Rules.Evaluate` | script.js:61-90 | a reported winner owns one of the eight combinations; a tie is reported only on a full board; "in progress" only when some cell is empty |
| `Rules.MarkersDistinct` | script.js:39-43 | the two players' markers are equal exactly when the players are the same |
| `Rules.CheckWinner` | script.js:61-90 | the nested scan with early return yields exactly `Evaluate(board)` |
| `Rules.ScanCharacterized` | script.js:73-83 | the scan resumed at (combination k, player i) finds nothing iff no later test succeeds. It returns a player iff that player owns the first later test that succeeds (combinations outer, players inner) |
| `Rules.OneOwnerPerCombination` | script.js:73-83 | no combination can be entirely both players' markers |
| `Rules.EvaluateWinIff` | script.js:73-83 | the result is `Win(p)` iff p owns the earliest winning combination, with ties inside a combination broken by players-list order |
| `Rules.EvaluateTieIff` | script.js:85-87 | the result is `Tie` iff no combination is won and no cell is empty |
| `Rules.EvaluateInProgressIff` | script.js:85-89 | the result is `InProgress` iff no combination is won and some cell is empty |
| `Rules.EvaluateSound` | script.js:62-83 | a reported winner owns at least one of the eight combinations |
| `Rules.EvaluateComplete` | script.js:73-83 | if combination k is won, a winner is reported, and the winner owns combination k or an earlier one |
| `Rules.EvaluateWinFirstCombination` | script.js:73-83 | the owner of the first combination anyone owns is the reported winner (players-list order never has to decide) |
| `Play.Other` | script.js:58 | the player the turn passes to is never the current one |
| `Play.OtherTwice` | script.js:57-59 | switching twice restores the original player |
| `Play.Game.constructor` | script.js:39-45 | a new game has an empty board, Player1 to move, and nothing reported |
| `Play.Game.SwitchPlayer` | script.js:57-59 | `currentPlayer` becomes the other player, and nothing else changes |
| `Play.Game.GameOver` | script.js:92-103 | the outcome (a win or a tie, never "in progress") is appended to the reports |
| `Play.Game.HandleMove` | script.js:47-55 | if the board evaluates to in progress, the turn passes to the other player and nothing is reported. Otherwise the turn stays and the outcome is reported. The board is unchanged |
| `Play.Game.MakeMove` | script.js:22-25 | the player's marker is written into the cell with no legality check and no index check (an index outside 0 to 8 leaves the nine cells unchanged), then the board is evaluated as in `HandleMove` |
| `Play.Game.Init` | script.js:105-108 | the mock board is copied in, then the board is evaluated as in `HandleMove` |
| `Fixtures.MockTieIsTie` | script.js:115-119 | the tie sample board is full, has no line, and evaluates to `Tie` |
| `Fixtures.MockXWinsIsPlayer1` | script.js:120-124 | the "X wins" sample board is won by Player1 through the middle row [3, 4, 5] |
| `Fixtures.InitWithMockTie` | script.js:127 | starting on the tie board reports exactly one tie and leaves the turn with Player1 |
| `Fixtures.ColumnBoardInProgress` | script.js:61-90 | each of the four boards of the game X:0, O:1, X:3, O:7 evaluates to in progress |
| `Fixtures.ColumnLastBoardWon` | script.js:61-90 | after X:6 the board is won by Player1 through the first column [0, 3, 6] |
| `Fixtures.ColumnWin` | script.js:22-25 | playing X:0, O:1, X:3, O:7, X:6 reports one win for Player1 and leaves the turn with Player1 |
| `Fixtures.CentreBoards` | script.js:61-90 | a board with a single marker in the centre evaluates to in progress |
| `Fixtures.EmptyBoardInProgress` | script.js:85-89 | the empty board evaluates to in progress |
| `Fixtures.MoveOffBoard` | script.js:22-25 | a move at index 9 on a new game leaves the nine cells empty, reports nothing and passes the turn to Player2 |
| `Fixtures.OverwriteOccupied` | script.js:22-25 | X then O on cell 4 leaves O's marker there, reports nothing and passes the turn back to Player1 |

## Left out

- Board.Gameboard.SetCell: a write outside 0 to 8 is modelled as leaving the nine cells unchanged. The original stores it outside the nine cells, growing the array or adding a property. `checkWinner` then never reads it as a line cell, and since such a write comes from a move it always holds a marker, so it never makes the board look unfull. The model therefore requires that a write outside the board carries a marker. The stored entry itself is not modelled.
- Board.Gameboard.SetBoard: requires a mock of at most nine cells. A longer one would grow the array in the original; both sample boards have nine.
- Play.Game.MakeMove: the index comes from the player and is not checked. An index outside 0 to 8 is handled as described for `SetCell`.
- Cell contents are limited to empty, "X" and "O". In the original a cell can hold any value.
- Player display names (`getName`) are left out: they do not affect the game. `gameOver`'s console output is modelled as a list of reported outcomes (`announced`).
- `Gameboard` and `Game` are single global objects in the original. Here they are constructible instances: a `Game` owns its `Gameboard`.
- Aliasing through `getBoard`: the returned array is the board's own, and the model says so, but it models no caller that writes through it.
- The original has no legality check, reset, game-over flag, computer player or timer, so none is modelled.
