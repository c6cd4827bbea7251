/** The game object: whose turn it is, moves, and what happens after each move. */
module Play {
  import opened Board
  import opened Rules

  /** The player switchPlayer hands the turn to. */
  function Other(player: Player): (r: Player)
    ensures r != player
  {
    if player == Player1 then Player2 else Player1
  }

  /** Switching twice hands the turn back. */
  lemma OtherTwice(player: Player)
    ensures Other(Other(player)) == player
  {
  }

  class Game {
    /** The board the game plays on. */
    const board: Gameboard
    /** The player whose turn it is. */
    var currentPlayer: Player
    /** The outcomes gameOver has reported, oldest first (its console output). */
    var announced: seq<Outcome>

    ghost predicate Valid() {
      board.Valid()
    }

    /** A game on an empty board, Player1 to move, nothing reported yet. */
    constructor ()
      ensures Valid() && fresh(board) && fresh(board.cells)
      ensures board.cells[..] == seq(Size, _ => None)
      ensures currentPlayer == Player1 && announced == []
    {
      board := new Gameboard();
      currentPlayer := Player1;
      announced := [];
    }

    /** Hands the turn to the other player. */
    method SwitchPlayer()
      modifies this`currentPlayer
      ensures currentPlayer == Other(old(currentPlayer))
    {
      currentPlayer := if currentPlayer == Player1 then Player2 else Player1;
    }

    /** Reports the end of the game: a win or a tie. */
    method GameOver(winner: Outcome)
      requires winner != InProgress
      modifies this`announced
      ensures announced == old(announced) + [winner]
    {
      announced := announced + [winner];
    }

    /** Evaluates the board: while the game goes on the turn passes to the other player;
        otherwise the outcome is reported and the turn stays where it is. */
    method HandleMove()
      requires Valid()
      modifies this`currentPlayer, this`announced
      ensures var outcome := Evaluate(board.cells[..]);
        if outcome == InProgress then
          currentPlayer == Other(old(currentPlayer)) && announced == old(announced)
        else
          currentPlayer == old(currentPlayer) && announced == old(announced) + [outcome]
    {
      var cells := board.GetBoard();
      var winner := CheckWinner(cells[..]);
      if winner == InProgress {
        SwitchPlayer();
      } else {
        GameOver(winner);
      }
    }

    /** A player's move: writes the player's marker into the cell, whatever it held and
        whoever's turn it is, then evaluates the board. The index is not checked: one
        outside 0..8 leaves the nine cells as they were, and the board is evaluated all the same. */
    method MakeMove(player: Player, cellIndex: int)
      requires Valid()
      modifies board.cells, this`currentPlayer, this`announced
      ensures 0 <= cellIndex < Size ==> board.cells[..] == old(board.cells[..])[cellIndex := Some(GetMarker(player))]
      ensures !(0 <= cellIndex < Size) ==> board.cells[..] == old(board.cells[..])
      ensures var outcome := Evaluate(board.cells[..]);
        if outcome == InProgress then
          currentPlayer == Other(old(currentPlayer)) && announced == old(announced)
        else
          currentPlayer == old(currentPlayer) && announced == old(announced) + [outcome]
    {
      board.SetCell(cellIndex, Some(GetMarker(player)));
      HandleMove();
    }

    /** Loads a whole board and evaluates it. */
    method Init(mockBoard: seq<Cell>)
      requires Valid() && |mockBoard| <= Size
      modifies board.cells, this`currentPlayer, this`announced
      ensures board.cells[..] == mockBoard + old(board.cells[..])[|mockBoard|..]
      ensures var outcome := Evaluate(board.cells[..]);
        if outcome == InProgress then
          currentPlayer == Other(old(currentPlayer)) && announced == old(announced)
        else
          currentPlayer == old(currentPlayer) && announced == old(announced) + [outcome]
    {
      board.SetBoard(mockBoard);
      HandleMove();
    }
  }
}
