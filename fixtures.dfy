/** The two sample boards shipped with the game, and what the engine does with them. */
module Fixtures {
  import opened Board
  import opened Rules
  import opened Play

  const x: Cell := Some(X)
  const o: Cell := Some(O)

  /** A full board without a line. */
  const MockTie: seq<Cell> := [
    x, o, x,
    x, o, x,
    o, x, o
  ]

  /** A full board whose middle row is all "X". */
  const MockXWins: seq<Cell> := [
    o, o, x,
    x, x, x,
    o, x, o
  ]

  /** The tie board evaluates to a tie. */
  lemma MockTieIsTie()
    ensures NoLine(MockTie) && Full(MockTie)
    ensures Evaluate(MockTie) == Tie
  {
    forall k: nat, i: nat ensures !WonAt(MockTie, k, i) {
      if k < |WinningCombinations| && i < |Players| {
        assert Blocked(MockTie, k, GetMarker(Players[i]));
      }
    }
    EvaluateTieIff(MockTie);
  }

  /** The "X wins" board evaluates to Player1, through the middle row [3, 4, 5],
      the first combination that anyone owns. */
  lemma MockXWinsIsPlayer1()
    ensures WinningCombinations[1] == [3, 4, 5] && IsWinning(MockXWins, WinningCombinations[1], X)
    ensures Evaluate(MockXWins) == Win(Player1)
  {
    forall j: nat, q: Player | j < 1 ensures !IsWinning(MockXWins, WinningCombinations[j], GetMarker(q)) {
      assert Blocked(MockXWins, j, GetMarker(q));
    }
    EvaluateWinFirstCombination(MockXWins, Player1, 1);
  }

  /** Combination k holds a cell other than `m`: it is not `m`'s line. Stated on the three cells one by one. */
  predicate Blocked(board: seq<Cell>, k: nat, m: Marker)
    requires k < |WinningCombinations|
  {
    var c := WinningCombinations[k];
    CellAt(board, c[0]) != Some(m) || CellAt(board, c[1]) != Some(m) || CellAt(board, c[2]) != Some(m)
  }

  /** A board where every combination is blocked for both markers has no line. */
  lemma NoLineWhenBlocked(board: seq<Cell>)
    requires forall k: nat :: k < |WinningCombinations| ==> Blocked(board, k, X) && Blocked(board, k, O)
    ensures NoLine(board)
  {
    forall k: nat, i: nat | k < |WinningCombinations| && i < |Players| ensures !WonAt(board, k, i) {
      assert Blocked(board, k, GetMarker(Players[i]));
    }
  }

  /** The boards of the game X:0, O:1, X:3, O:7, X:6. */
  const Column1: seq<Cell> := [x, None, None, None, None, None, None, None, None]
  const Column2: seq<Cell> := [x, o, None, None, None, None, None, None, None]
  const Column3: seq<Cell> := [x, o, None, x, None, None, None, None, None]
  const Column4: seq<Cell> := [x, o, None, x, None, None, None, o, None]
  const Column5: seq<Cell> := [x, o, None, x, None, None, x, o, None]

  /** Each board of that game is the one before it with the next move written in. */
  lemma ColumnBoardsFollowMoves()
    ensures Column1 == seq(Size, _ => None)[0 := x] && Column2 == Column1[1 := o]
    ensures Column3 == Column2[3 := x] && Column4 == Column3[7 := o] && Column5 == Column4[6 := x]
  {
  }

  /** A board where every combination is blocked for both markers and some cell is empty is in progress. */
  lemma InProgressWhenBlocked(board: seq<Cell>, empty: nat)
    requires forall k: nat :: k < |WinningCombinations| ==> Blocked(board, k, X) && Blocked(board, k, O)
    requires empty < |board| && board[empty] == None
    ensures Evaluate(board) == InProgress
  {
    NoLineWhenBlocked(board);
    EvaluateInProgressIff(board);
  }

  /** The board after the first n moves of that game, for n from 1 to 5. */
  function ColumnBoard(n: nat): seq<Cell>
    requires 1 <= n <= 5
  {
    [Column1, Column2, Column3, Column4, Column5][n - 1]
  }

  /** Every board before the last move is still in progress. */
  lemma ColumnBoardInProgress(n: nat)
    requires 1 <= n <= 4
    ensures Evaluate(ColumnBoard(n)) == InProgress
  {
    var board := ColumnBoard(n);
    forall k: nat | k < |WinningCombinations| ensures Blocked(board, k, X) && Blocked(board, k, O) {
      if n == 1 { assert board == Column1; }
      else if n == 2 { assert board == Column2; }
      else if n == 3 { assert board == Column3; }
      else { assert board == Column4; }
    }
    InProgressWhenBlocked(board, 8);
  }

  /** After the last move Player1 wins, through the first column [0, 3, 6]. */
  lemma ColumnLastBoardWon()
    ensures WinningCombinations[3] == [0, 3, 6] && IsWinning(Column5, WinningCombinations[3], X)
    ensures Evaluate(Column5) == Win(Player1)
  {
    forall j: nat, q: Player | j < 3 ensures !IsWinning(Column5, WinningCombinations[j], GetMarker(q)) {
      assert Blocked(Column5, j, GetMarker(q));
    }
    EvaluateWinFirstCombination(Column5, Player1, 3);
  }

  /** Starting a game on the tie board: the tie is reported and the turn stays with Player1. */
  method InitWithMockTie() returns (game: Game)
    ensures game.board.cells[..] == MockTie
    ensures game.currentPlayer == Player1 && game.announced == [Tie]
  {
    game := new Game();
    game.Init(MockTie);
    assert game.board.cells[..] == MockTie;
    MockTieIsTie();
  }

  /** X plays 0, 3 and 6 while O plays 1 and 7: X completes the first column [0, 3, 6]. */
  method ColumnWin() returns (game: Game)
    ensures game.board.cells[..] == Column5
    ensures game.currentPlayer == Player1 && game.announced == [Win(Player1)]
  {
    ColumnBoardsFollowMoves();
    ColumnBoardInProgress(1);
    ColumnBoardInProgress(2);
    ColumnBoardInProgress(3);
    ColumnBoardInProgress(4);
    ColumnLastBoardWon();
    game := new Game();
    game.MakeMove(Player1, 0);
    game.MakeMove(Player2, 1);
    game.MakeMove(Player1, 3);
    game.MakeMove(Player2, 7);
    game.MakeMove(Player1, 6);
  }

  /** The boards after X plays 4 and then O plays 4 too. */
  const Centre1: seq<Cell> := [None, None, None, None, x, None, None, None, None]
  const Centre2: seq<Cell> := [None, None, None, None, o, None, None, None, None]

  /** Each board is the one before it with the next move written in. */
  lemma CentreBoardsFollowMoves()
    ensures Centre1 == seq(Size, _ => None)[4 := x] && Centre2 == Centre1[4 := o]
  {
  }

  /** Neither board has a line and both have empty cells. */
  lemma CentreBoards()
    ensures Evaluate(Centre1) == InProgress && Evaluate(Centre2) == InProgress
  {
    forall k: nat | k < |WinningCombinations| ensures Blocked(Centre1, k, X) && Blocked(Centre1, k, O) { }
    InProgressWhenBlocked(Centre1, 0);
    forall k: nat | k < |WinningCombinations| ensures Blocked(Centre2, k, X) && Blocked(Centre2, k, O) { }
    InProgressWhenBlocked(Centre2, 0);
  }

  /** A move on an occupied cell is not refused: O's marker replaces X's, and the turn
      passes back to Player1 as after any move that leaves the game in progress. */
  method OverwriteOccupied() returns (game: Game)
    ensures game.board.cells[..] == Centre2
    ensures game.currentPlayer == Player1 && game.announced == []
  {
    CentreBoardsFollowMoves();
    CentreBoards();
    game := new Game();
    game.MakeMove(Player1, 4);
    game.MakeMove(Player2, 4);
  }

  /** The empty board is in progress. */
  lemma EmptyBoardInProgress()
    ensures Evaluate(seq(Size, _ => None)) == InProgress
  {
    var empty: seq<Cell> := seq(Size, _ => None);
    forall k: nat, i: nat | k < |WinningCombinations| && i < |Players| ensures !WonAt(empty, k, i) {
      assert CellAt(empty, WinningCombinations[k][0]) == None;
    }
    assert empty[0] == None;
    EvaluateInProgressIff(empty);
  }

  /** A move outside the board is not refused: the nine cells stay empty, the board is
      evaluated as in progress, and the turn passes to Player2. */
  method MoveOffBoard() returns (game: Game)
    ensures game.board.cells[..] == seq(Size, _ => None)
    ensures game.currentPlayer == Player2 && game.announced == []
  {
    EmptyBoardInProgress();
    game := new Game();
    game.MakeMove(Player1, 9);
  }
}
