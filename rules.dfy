/** The players, their markers, and the evaluation of a board (checkWinner). */
module Rules {
  import opened Board

  /** The two players, in the order of the players list: Player1 plays "X", Player2 plays "O". */
  datatype Player = Player1 | Player2

  /** What checkWinner reports. The original overloads one value: a player (a win),
      `null` (a full board with no line) or `undefined` (the game goes on). */
  datatype Outcome = Win(winner: Player) | Tie | InProgress

  const Markers: seq<Marker> := [X, O]

  /** The players list, in the order checkWinner tries them. */
  const Players: seq<Player> := [Player1, Player2]

  /** The marker a player was created with. */
  function GetMarker(player: Player): (m: Marker)
    ensures m == X <==> player == Player1
  {
    match player
    case Player1 => Markers[0]
    case Player2 => Markers[1]
  }

  /** The rows, then the columns, then the two diagonals, in the order checkWinner scans them. */
  const WinningCombinations: seq<seq<nat>> := [
    [0, 1, 2], [3, 4, 5], [6, 7, 8],
    [0, 3, 6], [1, 4, 7], [2, 5, 8],
    [0, 4, 8], [2, 4, 6]
  ]

  /** Reading a board index: an index past the end reads as empty (an `undefined`, never equal to a marker). */
  function CellAt(board: seq<Cell>, cellIndex: nat): Cell {
    if cellIndex < |board| then board[cellIndex] else None
  }

  /** Every cell of the combination holds `marker`. */
  predicate IsWinning(board: seq<Cell>, combination: seq<nat>, marker: Marker) {
    forall t :: 0 <= t < |combination| ==> CellAt(board, combination[t]) == Some(marker)
  }

  /** No cell of the board is empty. */
  predicate Full(board: seq<Cell>) {
    forall i :: 0 <= i < |board| ==> board[i] != None
  }

  /** Test number (k, i) of the scan: combination k is entirely the marker of Players[i]. */
  predicate WonAt(board: seq<Cell>, k: nat, i: nat) {
    k < |WinningCombinations| && i < |Players| &&
    IsWinning(board, WinningCombinations[k], GetMarker(Players[i]))
  }

  /** Test (j, r) comes strictly before test (k, i): combinations outer, players inner. */
  predicate Precedes(j: nat, r: nat, k: nat, i: nat) {
    j < k || (j == k && r < i)
  }

  /** None of the tests from (k0, i0) inclusive up to (k1, i1) exclusive succeeds. */
  ghost predicate NoWinBetween(board: seq<Cell>, k0: nat, i0: nat, k1: nat, i1: nat) {
    forall j: nat, r: nat :: !Precedes(j, r, k0, i0) && Precedes(j, r, k1, i1) ==> !WonAt(board, j, r)
  }

  /** No combination is entirely one player's marker. */
  ghost predicate NoLine(board: seq<Cell>) {
    forall k: nat, i: nat :: !WonAt(board, k, i)
  }

  /** `player` is the first success of the scan: the earliest winning combination,
      and within it the earlier player in the players list. */
  ghost predicate FirstWinner(board: seq<Cell>, player: Player) {
    exists k: nat, i: nat :: WonAt(board, k, i) && Players[i] == player && NoWinBetween(board, 0, 0, k, i)
  }

  /** The nested scan of checkWinner, resumed at combination k and player i; returns the first player that wins. */
  function Scan(board: seq<Cell>, k: nat, i: nat): (r: Option<Player>)
    requires k <= |WinningCombinations| && i <= |Players|
    ensures r.Some? ==>
      (exists j :: k <= j < |WinningCombinations| && IsWinning(board, WinningCombinations[j], GetMarker(r.value)))
    decreases |WinningCombinations| - k, |Players| - i
  {
    if k == |WinningCombinations| then None
    else if i == |Players| then Scan(board, k + 1, 0)
    else if IsWinning(board, WinningCombinations[k], GetMarker(Players[i])) then Some(Players[i])
    else Scan(board, k, i + 1)
  }

  /** What checkWinner returns for `board`. */
  function Evaluate(board: seq<Cell>): (r: Outcome)
    ensures r.Win? ==>
      (exists k :: 0 <= k < |WinningCombinations| && IsWinning(board, WinningCombinations[k], GetMarker(r.winner)))
    ensures r == Tie ==> Full(board)
    ensures r == InProgress ==> exists i :: 0 <= i < |board| && board[i] == None
  {
    match Scan(board, 0, 0)
    case Some(player) => Win(player)
    case None => if Full(board) then Tie else InProgress
  }

  /** checkWinner: for each combination in order, for each player in order, return the
      player if the combination is entirely that player's marker; otherwise a tie on a
      full board and "in progress" on a board with an empty cell. */
  method CheckWinner(board: seq<Cell>) returns (r: Outcome)
    ensures r == Evaluate(board)
  {
    var k := 0;
    while k < |WinningCombinations|
      invariant 0 <= k <= |WinningCombinations|
      invariant Scan(board, k, 0) == Scan(board, 0, 0)
    {
      var combination := WinningCombinations[k];
      var i := 0;
      while i < |Players|
        invariant 0 <= i <= |Players|
        invariant Scan(board, k, i) == Scan(board, 0, 0)
      {
        var player := Players[i];
        var marker := GetMarker(player);
        if IsWinning(board, combination, marker) {
          return Win(player);
        }
        i := i + 1;
      }
      k := k + 1;
    }
    if Full(board) {
      return Tie;
    }
    return InProgress;
  }

  /** The scan from (k, i) finds nothing exactly when no test from (k, i) on succeeds,
      and finds `player` exactly when `player` owns the first test from (k, i) on that succeeds. */
  lemma {:induction false} ScanCharacterized(board: seq<Cell>, k: nat, i: nat, player: Player)
    requires k <= |WinningCombinations| && i <= |Players|
    ensures Scan(board, k, i) == None <==> NoWinBetween(board, k, i, |WinningCombinations|, 0)
    ensures Scan(board, k, i) == Some(player) <==>
      exists j: nat, r: nat :: WonAt(board, j, r) && Players[r] == player &&
        !Precedes(j, r, k, i) && NoWinBetween(board, k, i, j, r)
    decreases |WinningCombinations| - k, |Players| - i
  {
    if k == |WinningCombinations| {
    } else if i == |Players| {
      ScanCharacterized(board, k + 1, 0, player);
    } else if WonAt(board, k, i) {
      if Scan(board, k, i) != Some(player) {
        forall j: nat, r: nat | WonAt(board, j, r) && Players[r] == player && !Precedes(j, r, k, i)
          ensures !NoWinBetween(board, k, i, j, r)
        {
          assert (j, r) != (k, i);
          assert Precedes(k, i, j, r);
        }
      }
    } else {
      ScanCharacterized(board, k, i + 1, player);
    }
  }

  /** The markers of the two players differ. */
  lemma MarkersDistinct(p: Player, q: Player)
    ensures GetMarker(p) == GetMarker(q) <==> p == q
  {
  }

  /** A combination belongs to at most one player. */
  lemma OneOwnerPerCombination(board: seq<Cell>, k: nat, p: Player, q: Player)
    requires k < |WinningCombinations|
    requires IsWinning(board, WinningCombinations[k], GetMarker(p))
    requires IsWinning(board, WinningCombinations[k], GetMarker(q))
    ensures p == q
  {
    assert CellAt(board, WinningCombinations[k][0]) == Some(GetMarker(p));
  }

  /** checkWinner returns `player` exactly when `player` is the first success of the scan. */
  lemma EvaluateWinIff(board: seq<Cell>, player: Player)
    ensures Evaluate(board) == Win(player) <==> FirstWinner(board, player)
  {
    ScanCharacterized(board, 0, 0, player);
  }

  /** checkWinner reports a tie exactly when no combination is won and no cell is empty. */
  lemma EvaluateTieIff(board: seq<Cell>)
    ensures Evaluate(board) == Tie <==> NoLine(board) && Full(board)
  {
    ScanCharacterized(board, 0, 0, Player1);
  }

  /** checkWinner reports the game in progress exactly when no combination is won and some cell is empty. */
  lemma EvaluateInProgressIff(board: seq<Cell>)
    ensures Evaluate(board) == InProgress <==> NoLine(board) && !Full(board)
  {
    ScanCharacterized(board, 0, 0, Player1);
  }

  /** Soundness: a reported winner owns some winning combination. */
  lemma EvaluateSound(board: seq<Cell>, player: Player)
    requires Evaluate(board) == Win(player)
    ensures exists k :: 0 <= k < |WinningCombinations| && IsWinning(board, WinningCombinations[k], GetMarker(player))
  {
    EvaluateWinIff(board, player);
  }

  /** Completeness and order: when combination k is won by `player`, checkWinner reports a
      winner, and that winner owns combination k or one listed before it. */
  lemma EvaluateComplete(board: seq<Cell>, k: nat, player: Player)
    requires k < |WinningCombinations| && IsWinning(board, WinningCombinations[k], GetMarker(player))
    ensures Evaluate(board).Win?
    ensures exists j :: 0 <= j <= k && IsWinning(board, WinningCombinations[j], GetMarker(Evaluate(board).winner))
  {
    var i := if player == Player1 then 0 else 1;
    assert WonAt(board, k, i);
    EvaluateTieIff(board);
    EvaluateInProgressIff(board);
    var w := Evaluate(board).winner;
    EvaluateWinIff(board, w);
    var j: nat, r: nat :| WonAt(board, j, r) && Players[r] == w && NoWinBetween(board, 0, 0, j, r);
    if j > k {
      assert Precedes(k, i, j, r);
      assert false;
    }
  }

  /** As the players' markers differ, the players-list order never decides between two
      claimants: the winner is the owner of the first combination that anyone owns. */
  lemma EvaluateWinFirstCombination(board: seq<Cell>, player: Player, k: nat)
    requires k < |WinningCombinations| && IsWinning(board, WinningCombinations[k], GetMarker(player))
    requires forall j: nat, q: Player :: j < k ==> !IsWinning(board, WinningCombinations[j], GetMarker(q))
    ensures Evaluate(board) == Win(player)
  {
    var i := if player == Player1 then 0 else 1;
    forall j: nat, r: nat | Precedes(j, r, k, i) ensures !WonAt(board, j, r) {
      if j == k && r < |Players| {
        assert r == 0 && i == 1;
        if WonAt(board, j, r) {
          OneOwnerPerCombination(board, k, Players[r], player);
        }
      } else if r < |Players| {
        assert !IsWinning(board, WinningCombinations[j], GetMarker(Players[r]));
      }
    }
    assert WonAt(board, k, i) && Players[i] == player;
    EvaluateWinIff(board, player);
  }
}
