/**
 * `GenericTicTacToe`: an N×N board, `k` in a row to win, up to eight players taking turns.
 * The board is updated in place by `make_move`; `advance_turn` moves the turn index on.
 */
module GenericTicTacToeGame {
  import opened Wrappers
  import opened Grid
  import opened GameInterface
  import Py

  const SYMBOLS: seq<string> := ["X", "O", "A", "B", "C", "D", "E", "F"]

  // ----- the lines `_check_win` hands to `_check_line` -----

  function RowLine(n: int, r: int): seq<(int, int)>
  {
    seq(Dim(n), c => (r, c))
  }

  function ColLine(n: int, c: int): seq<(int, int)>
  {
    seq(Dim(n), r => (r, c))
  }

  function DiagLine(n: int): seq<(int, int)>
  {
    seq(Dim(n), i => (i, i))
  }

  function AntiLine(n: int): seq<(int, int)>
  {
    seq(Dim(n), i => (i, n - 1 - i))
  }

  /** Positions s .. s+k-1 of the line all hold `p`. */
  predicate RunAt(b: Board, ps: seq<(int, int)>, p: string, k: int, s: int)
  {
    0 <= s && s + k <= |ps| && forall j :: s <= j < s + k ==> CellIs(b, ps[j], p)
  }

  ghost predicate HasRun(b: Board, ps: seq<(int, int)>, p: string, k: int)
  {
    exists s :: RunAt(b, ps, p, k, s)
  }

  /**
   * What `_check_line` answers: a run of `k` consecutive cells of `p`; with `k <= 0` the
   * counter reaches `k` at the first cell of `p`, and an empty line equal in length to `k`
   * passes the `all(...)` test vacuously.
   */
  ghost predicate LineWins(b: Board, ps: seq<(int, int)>, p: string, k: int)
  {
    if k >= 1 then HasRun(b, ps, p, k)
    else k == |ps| || exists j :: 0 <= j < |ps| && CellIs(b, ps[j], p)
  }

  /** Some full row, full column or one of the two main diagonals wins. */
  ghost predicate LinesWin(b: Board, n: int, p: string, k: int)
  {
    (exists r :: 0 <= r < n && LineWins(b, RowLine(n, r), p, k))
    || (exists c :: 0 <= c < n && LineWins(b, ColLine(n, c), p, k))
    || LineWins(b, DiagLine(n), p, k) || LineWins(b, AntiLine(n), p, k)
  }

  /**
   * What `_check_win` decides for every configuration: on a board of non-negative size,
   * a window of `k` cells of `p`; a negative size leaves an empty board on which only the
   * degenerate window lengths win.
   */
  ghost predicate Wins(b: Board, n: int, k: int, p: string)
  {
    if n >= 0 then HasWindow(b, n, n, p, k)
    else k == 0 || (k != n && HasWindow(b, n, n, p, k))
  }

  lemma RunOnRow(b: Board, n: int, r: int, p: string, k: int, s: int)
    requires k >= 1 && 0 <= r < n && RunAt(b, RowLine(n, r), p, k, s)
    ensures Run(b, n, n, p, k, r, s, Horizontal)
  {
    forall i | 0 <= i < k
      ensures CellIs(b, Pos(r, s, Horizontal, i), p)
    {
      assert RowLine(n, r)[s + i] == Pos(r, s, Horizontal, i);
    }
  }

  lemma RunOnCol(b: Board, n: int, c: int, p: string, k: int, s: int)
    requires k >= 1 && 0 <= c < n && RunAt(b, ColLine(n, c), p, k, s)
    ensures Run(b, n, n, p, k, s, c, Vertical)
  {
    forall i | 0 <= i < k
      ensures CellIs(b, Pos(s, c, Vertical, i), p)
    {
      assert ColLine(n, c)[s + i] == Pos(s, c, Vertical, i);
    }
  }

  lemma RunOnDiag(b: Board, n: int, p: string, k: int, s: int)
    requires k >= 1 && RunAt(b, DiagLine(n), p, k, s)
    ensures Run(b, n, n, p, k, s, s, Diagonal)
  {
    forall i | 0 <= i < k
      ensures CellIs(b, Pos(s, s, Diagonal, i), p)
    {
      assert DiagLine(n)[s + i] == Pos(s, s, Diagonal, i);
    }
  }

  lemma RunOnAnti(b: Board, n: int, p: string, k: int, s: int)
    requires k >= 1 && RunAt(b, AntiLine(n), p, k, s)
    ensures Run(b, n, n, p, k, s, n - 1 - s, AntiDiagonal)
  {
    var c := n - 1 - s;
    forall i | 0 <= i < k
      ensures CellIs(b, Pos(s, c, AntiDiagonal, i), p)
    {
      assert AntiLine(n)[s + i] == Pos(s, c, AntiDiagonal, i);
    }
  }

  /** A winning row, column or main diagonal is a winning window. */
  lemma LinesSound(b: Board, n: int, p: string, k: int)
    requires n >= 0 && LinesWin(b, n, p, k)
    ensures HasWindow(b, n, n, p, k)
  {
    if k <= 0 {
      EmptyWindowWins(b, n, n, p, k);
    } else if exists r :: 0 <= r < n && LineWins(b, RowLine(n, r), p, k) {
      var r :| 0 <= r < n && LineWins(b, RowLine(n, r), p, k);
      var s :| RunAt(b, RowLine(n, r), p, k, s);
      RunOnRow(b, n, r, p, k, s);
    } else if exists c :: 0 <= c < n && LineWins(b, ColLine(n, c), p, k) {
      var c :| 0 <= c < n && LineWins(b, ColLine(n, c), p, k);
      var s :| RunAt(b, ColLine(n, c), p, k, s);
      RunOnCol(b, n, c, p, k, s);
    } else if LineWins(b, DiagLine(n), p, k) {
      var s :| RunAt(b, DiagLine(n), p, k, s);
      RunOnDiag(b, n, p, k, s);
    } else {
      var s :| RunAt(b, AntiLine(n), p, k, s);
      RunOnAnti(b, n, p, k, s);
    }
  }

  /** When the window is as long as the board, every window is a full row, column or diagonal. */
  lemma FullLinesComplete(b: Board, n: int, p: string)
    requires n >= 1 && HasWindow(b, n, n, p, n)
    ensures LinesWin(b, n, p, n)
  {
    if HasWindowIn(b, n, n, p, n, Horizontal) {
      var r, c :| Run(b, n, n, p, n, r, c, Horizontal);
      forall j | 0 <= j < n ensures CellIs(b, RowLine(n, r)[j], p) {
        assert RowLine(n, r)[j] == Pos(r, 0, Horizontal, j);
      }
      assert RunAt(b, RowLine(n, r), p, n, 0);
    } else if HasWindowIn(b, n, n, p, n, Vertical) {
      var r, c :| Run(b, n, n, p, n, r, c, Vertical);
      forall j | 0 <= j < n ensures CellIs(b, ColLine(n, c)[j], p) {
        assert ColLine(n, c)[j] == Pos(0, c, Vertical, j);
      }
      assert RunAt(b, ColLine(n, c), p, n, 0);
    } else if HasWindowIn(b, n, n, p, n, Diagonal) {
      var r, c :| Run(b, n, n, p, n, r, c, Diagonal);
      forall j | 0 <= j < n ensures CellIs(b, DiagLine(n)[j], p) {
        assert DiagLine(n)[j] == Pos(0, 0, Diagonal, j);
      }
      assert RunAt(b, DiagLine(n), p, n, 0);
    } else {
      var r, c :| Run(b, n, n, p, n, r, c, AntiDiagonal);
      forall j | 0 <= j < n ensures CellIs(b, AntiLine(n)[j], p) {
        assert AntiLine(n)[j] == Pos(0, n - 1, AntiDiagonal, j);
      }
      assert RunAt(b, AntiLine(n), p, n, 0);
    }
  }


  /** Row-major order on cells: an earlier row, or the same row and an earlier column. */
  predicate Precedes(a: (int, int), b: (int, int))
  {
    a.0 < b.0 || (a.0 == b.0 && a.1 < b.1)
  }

  /** Cells listed in strictly increasing row-major order (so each at most once). */
  predicate RowMajor(ms: seq<(int, int)>)
  {
    forall i, j :: 0 <= i < j < |ms| ==> Precedes(ms[i], ms[j])
  }

  /** Appending a cell that follows every listed one keeps the order. */
  lemma RowMajorSnoc(ms: seq<(int, int)>, x: (int, int))
    requires RowMajor(ms) && forall i :: 0 <= i < |ms| ==> Precedes(ms[i], x)
    ensures RowMajor(ms + [x])
  {
    var ms' := ms + [x];
    forall i, j | 0 <= i < j < |ms'| ensures Precedes(ms'[i], ms'[j]) {
      if j < |ms| {
        assert ms'[i] == ms[i] && ms'[j] == ms[j];
      } else {
        assert ms'[i] == ms[i] && ms'[j] == x;
      }
    }
  }

  /**
   * The line checks followed, for boards larger than 3 or windows shorter than the board,
   * by the scan of every window decide exactly `Wins`.
   */
  lemma WinFormula(b: Board, n: int, k: int, p: string)
    requires Shaped(b, n, n)
    ensures (LinesWin(b, n, p, k) || ((n > 3 || k != n) && HasWindow(b, n, n, p, k)))
            == Wins(b, n, k, p)
  {
    if n < 0 {
      assert DiagLine(n) == [] && AntiLine(n) == [];
      assert k >= 1 ==> !HasRun(b, DiagLine(n), p, k) && !HasRun(b, AntiLine(n), p, k);
    } else {
      if LinesWin(b, n, p, k) {
        LinesSound(b, n, p, k);
      }
      if !(n > 3 || k != n) && HasWindow(b, n, n, p, k) {
        if n == 0 {
          assert DiagLine(n) == [];
          assert LineWins(b, DiagLine(n), p, k);
        } else {
          FullLinesComplete(b, n, p);
        }
      }
    }
  }

  /** The first of `syms`, in turn order, that has won on `b`. */
  ghost function FirstWinner(b: Board, n: int, k: int, syms: seq<string>): Option<string>
  {
    if syms == [] then None
    else if Wins(b, n, k, syms[0]) then Some(syms[0])
    else FirstWinner(b, n, k, syms[1..])
  }

  /** What `is_game_over` answers on `b` after `count` moves. */
  ghost function StatusOf(b: Board, n: int, k: int, syms: seq<string>, count: int): GameStatus
  {
    var w := FirstWinner(b, n, k, syms);
    if w.Some? then GameStatus(true, w) else GameStatus(count >= n * n, None)
  }

  /** The reported winner has won and no symbol before it in turn order has; no winner means nobody has. */
  lemma {:induction false} FirstWinnerMeaning(b: Board, n: int, k: int, syms: seq<string>)
    ensures FirstWinner(b, n, k, syms).None? <==> forall j :: 0 <= j < |syms| ==> !Wins(b, n, k, syms[j])
    ensures FirstWinner(b, n, k, syms).Some? ==>
      exists i :: 0 <= i < |syms| && syms[i] == FirstWinner(b, n, k, syms).value
        && Wins(b, n, k, syms[i]) && forall j :: 0 <= j < i ==> !Wins(b, n, k, syms[j])
  {
    if syms != [] && !Wins(b, n, k, syms[0]) {
      FirstWinnerMeaning(b, n, k, syms[1..]);
      var t := syms[1..];
      if FirstWinner(b, n, k, t).Some? {
        var i :| 0 <= i < |t| && t[i] == FirstWinner(b, n, k, t).value
          && Wins(b, n, k, t[i]) && forall j :: 0 <= j < i ==> !Wins(b, n, k, t[j]);
        assert syms[i + 1] == t[i];
        forall j | 0 <= j < i + 1 ensures !Wins(b, n, k, syms[j]) {
          if j > 0 { assert syms[j] == t[j - 1]; }
        }
      } else {
        forall j | 0 <= j < |syms| ensures !Wins(b, n, k, syms[j]) {
          if j > 0 { assert syms[j] == t[j - 1]; }
        }
      }
    } else if syms != [] {
      assert Wins(b, n, k, syms[0]);
    }
  }

  class GenericTicTacToe {
    const config: GameConfig
    const boardSize: int
    const winLength: int
    const numPlayers: int
    const playerSymbols: seq<string>
    var board: Board
    var moveCount: int
    var currentPlayerIndex: int

    predicate Valid()
      reads this
    {
      boardSize == config.boardSize && winLength == config.winLength
      && numPlayers == config.numPlayers && playerSymbols == Py.Prefix(SYMBOLS, numPlayers)
      && Shaped(board, boardSize, boardSize)
    }

    /** Only `make_move` touched the board: the counter equals the number of marks on it. */
    predicate CountsMarks()
      reads this
    {
      moveCount == Filled(board)
    }

    constructor (config: GameConfig)
      ensures Valid() && CountsMarks()
      ensures this.config == config && board == EmptyBoard(config.boardSize, config.boardSize)
      ensures moveCount == 0 && currentPlayerIndex == 0
    {
      this.config := config;
      boardSize := config.boardSize;
      winLength := config.winLength;
      numPlayers := config.numPlayers;
      playerSymbols := Py.Prefix(SYMBOLS, config.numPlayers);
      board := EmptyBoard(config.boardSize, config.boardSize);
      moveCount := 0;
      currentPlayerIndex := 0;
      EmptyBoardUnfilled(config.boardSize, config.boardSize);
    }

    /** `is_valid_move`: a `(row, col)` pair naming an empty cell of the board. */
    predicate IsValidMove(move: MoveArg, player: string)
      requires Valid()
      reads this
      ensures IsValidMove(move, player) <==>
        move.CellMove? && InBounds(board, move.row, move.col) && board[move.row][move.col] == EMPTY
    {
      move.CellMove? && 0 <= move.row < boardSize && 0 <= move.col < boardSize
      && board[move.row][move.col] == EMPTY
    }

    /** `make_move`: a valid move writes exactly that cell and counts the move; else nothing changes. */
    method MakeMove(move: MoveArg, player: string) returns (ok: bool)
      requires Valid()
      modifies this
      ensures Valid()
      ensures ok == old(IsValidMove(move, player))
      ensures ok ==> board == old(Place(board, move.row, move.col, player))
                     && moveCount == old(moveCount) + 1
      ensures !ok ==> board == old(board) && moveCount == old(moveCount)
      ensures currentPlayerIndex == old(currentPlayerIndex)
      ensures player != EMPTY && old(CountsMarks()) ==> CountsMarks()
    {
      if !move.CellMove? {
        return false;
      }
      if !IsValidMove(move, player) {
        return false;
      }
      PlaceKeepsShape(board, boardSize, boardSize, move.row, move.col, player);
      if player != EMPTY {
        PlaceFills(board, move.row, move.col, player);
      }
      board := Place(board, move.row, move.col, player);
      moveCount := moveCount + 1;
      return true;
    }

    /** None of the first `i` player symbols has won. */
    ghost predicate NoneWonBefore(i: int)
      requires 0 <= i <= |playerSymbols|
      reads this
    {
      forall j :: 0 <= j < i ==> !Wins(board, boardSize, winLength, playerSymbols[j])
    }

    /** `is_game_over`: the first symbol in turn order that has won, else a draw on a full count. */
    method IsGameOver() returns (status: GameStatus)
      requires Valid()
      ensures status.winner.Some? ==>
        status.isOver
        && (exists i ::
              0 <= i < |playerSymbols| && playerSymbols[i] == status.winner.value
              && NoneWonBefore(i) && Wins(board, boardSize, winLength, playerSymbols[i]))
      ensures status.winner.None? ==>
        NoneWonBefore(|playerSymbols|) && (status.isOver <==> moveCount >= boardSize * boardSize)
      ensures status == StatusOf(board, boardSize, winLength, playerSymbols, moveCount)
    {
      var i := 0;
      while i < |playerSymbols|
        invariant 0 <= i <= |playerSymbols|
        invariant NoneWonBefore(i)
        invariant FirstWinner(board, boardSize, winLength, playerSymbols)
          == FirstWinner(board, boardSize, winLength, playerSymbols[i..])
      {
        var won := CheckWin(playerSymbols[i]);
        if won {
          return GameStatus(true, Some(playerSymbols[i]));
        }
        assert playerSymbols[i..][1..] == playerSymbols[i + 1..];
        i := i + 1;
      }
      if moveCount >= boardSize * boardSize {
        return GameStatus(true, None);
      }
      return GameStatus(false, None);
    }

    /** `get_valid_moves`: every empty cell exactly once, in row-major order. */
    method GetValidMoves(player: string) returns (moves: seq<(int, int)>)
      requires Valid()
      ensures forall i :: 0 <= i < |moves| ==>
        IsValidMove(CellMove(moves[i].0, moves[i].1), player)
      ensures forall r, c :: IsValidMove(CellMove(r, c), player) ==> (r, c) in moves
      ensures RowMajor(moves)
    {
      moves := [];
      var row := 0;
      while row < boardSize
        invariant 0 <= row && (boardSize >= 0 ==> row <= boardSize)
        invariant forall i :: 0 <= i < |moves| ==>
          IsValidMove(CellMove(moves[i].0, moves[i].1), player) && moves[i].0 < row
        invariant forall r, c :: r < row && IsValidMove(CellMove(r, c), player) ==> (r, c) in moves
        invariant RowMajor(moves)
      {
        moves := ScanRow(player, row, moves);
        row := row + 1;
      }
    }

    /** One pass of `get_valid_moves`' inner loop: the empty cells of `row`, appended in column order. */
    method ScanRow(player: string, row: int, moves: seq<(int, int)>) returns (moves': seq<(int, int)>)
      requires Valid() && 0 <= row < boardSize
      requires forall i :: 0 <= i < |moves| ==>
        IsValidMove(CellMove(moves[i].0, moves[i].1), player) && moves[i].0 < row
      requires forall r, c :: r < row && IsValidMove(CellMove(r, c), player) ==> (r, c) in moves
      requires RowMajor(moves)
      ensures forall i :: 0 <= i < |moves'| ==>
        IsValidMove(CellMove(moves'[i].0, moves'[i].1), player) && moves'[i].0 <= row
      ensures forall r, c :: r <= row && IsValidMove(CellMove(r, c), player) ==> (r, c) in moves'
      ensures RowMajor(moves')
    {
      moves' := moves;
      var col := 0;
      while col < boardSize
        invariant 0 <= col <= boardSize
        invariant forall i :: 0 <= i < |moves'| ==>
          IsValidMove(CellMove(moves'[i].0, moves'[i].1), player)
          && (moves'[i].0 < row || (moves'[i].0 == row && moves'[i].1 < col))
        invariant forall r, c ::
          (r < row || (r == row && c < col)) && IsValidMove(CellMove(r, c), player) ==> (r, c) in moves'
        invariant RowMajor(moves')
      {
        if IsValidMove(CellMove(row, col), player) {
          RowMajorSnoc(moves', (row, col));
          moves' := moves' + [(row, col)];
        }
        col := col + 1;
      }
    }

    /** `copy`: a fresh game with the same configuration, board, counter and turn. */
    method Copy() returns (g: GenericTicTacToe)
      requires Valid()
      ensures fresh(g) && g.Valid()
      ensures g.config == config && g.board == board
      ensures g.moveCount == moveCount && g.currentPlayerIndex == currentPlayerIndex
    {
      g := new GenericTicTacToe(config);
      g.board := board;
      g.moveCount := moveCount;
      g.currentPlayerIndex := currentPlayerIndex;
    }

    /** `_check_line`: the all-cells test when the line is exactly `win_length` long, else a counter. */
    method CheckLine(player: string, positions: seq<(int, int)>) returns (found: bool)
      requires Valid()
      requires forall j :: 0 <= j < |positions| ==>
        InBounds(board, positions[j].0, positions[j].1)
      ensures found == LineWins(board, positions, player, winLength)
    {
      var k := winLength;
      if |positions| < k {
        return false;
      }
      if k == |positions| {
        var i := 0;
        while i < |positions|
          invariant 0 <= i <= |positions|
          invariant forall j :: 0 <= j < i ==> CellIs(board, positions[j], player)
        {
          if board[positions[i].0][positions[i].1] != player {
            assert !RunAt(board, positions, player, k, 0);
            return false;
          }
          i := i + 1;
        }
        assert k >= 1 ==> RunAt(board, positions, player, k, 0);
        return true;
      }
      var consecutive := 0;
      var i := 0;
      while i < |positions|
        invariant 0 <= i <= |positions|
        invariant 0 <= consecutive <= i
        invariant forall j :: i - consecutive <= j < i ==> CellIs(board, positions[j], player)
        invariant consecutive < i ==> !CellIs(board, positions[i - 1 - consecutive], player)
        invariant k >= 1 ==> consecutive < k
        invariant k >= 1 ==> forall s :: 0 <= s && s + k <= i ==> !RunAt(board, positions, player, k, s)
        invariant k <= 0 ==> forall j :: 0 <= j < i ==> !CellIs(board, positions[j], player)
      {
        if board[positions[i].0][positions[i].1] == player {
          consecutive := consecutive + 1;
          if consecutive >= k {
            assert k >= 1 ==> RunAt(board, positions, player, k, i + 1 - k);
            return true;
          }
          if k >= 1 && 0 <= i + 1 - k {
            assert !CellIs(board, positions[i - consecutive], player);
            assert !RunAt(board, positions, player, k, i + 1 - k);
          }
        } else {
          consecutive := 0;
          if k >= 1 && 0 <= i + 1 - k {
            assert !RunAt(board, positions, player, k, i + 1 - k);
          }
        }
        i := i + 1;
      }
      return false;
    }

    /** `_check_all_sequences`: every window of `win_length` cells in the four directions. */
    method CheckAllSequences(player: string) returns (found: bool)
      requires Valid()
      ensures found == HasWindow(board, boardSize, boardSize, player, winLength)
    {
      found := ScanWindows(board, boardSize, boardSize, player, winLength);
    }

    /** `_check_win`: rows, columns, the two main diagonals, then (unless 3×3-like) every window. */
    method CheckWin(player: string) returns (won: bool)
      requires Valid()
      ensures won == Wins(board, boardSize, winLength, player)
    {
      var n := boardSize;
      var k := winLength;
      var row := 0;
      while row < n
        invariant 0 <= row && (n >= 0 ==> row <= n)
        invariant forall r :: 0 <= r < row ==> !LineWins(board, RowLine(n, r), player, k)
      {
        won := CheckLine(player, RowLine(n, row));
        if won {
          WinFormula(board, n, k, player);
          return;
        }
        row := row + 1;
      }
      var col := 0;
      while col < n
        invariant 0 <= col && (n >= 0 ==> col <= n)
        invariant forall c :: 0 <= c < col ==> !LineWins(board, ColLine(n, c), player, k)
      {
        won := CheckLine(player, ColLine(n, col));
        if won {
          WinFormula(board, n, k, player);
          return;
        }
        col := col + 1;
      }
      won := CheckLine(player, DiagLine(n));
      if won {
        WinFormula(board, n, k, player);
        return;
      }
      won := CheckLine(player, AntiLine(n));
      if won {
        WinFormula(board, n, k, player);
        return;
      }
      assert !LinesWin(board, n, player, k);
      if n > 3 || k != n {
        won := CheckAllSequences(player);
      } else {
        won := false;
      }
      WinFormula(board, n, k, player);
    }

    /** `get_current_player`; None stands for the IndexError of an index past the symbols. */
    function GetCurrentPlayer(): (p: Option<string>)
      reads this
      ensures p.Some? <==> -|playerSymbols| <= currentPlayerIndex < |playerSymbols|
    {
      Py.Index(playerSymbols, currentPlayerIndex)
    }

    /**
     * `advance_turn`: the index moves to `(index + 1) % num_players` and the new current
     * player is returned. With no players the modulo raises ZeroDivisionError before the
     * index is written; past the symbols the lookup raises IndexError after it is written.
     */
    method AdvanceTurn() returns (next: Result<string>)
      modifies this
      ensures numPlayers == 0 ==> next.Err? && currentPlayerIndex == old(currentPlayerIndex)
      ensures numPlayers != 0 ==> currentPlayerIndex == Py.Mod(old(currentPlayerIndex) + 1, numPlayers)
      ensures numPlayers != 0 ==> (next.Ok? <==> GetCurrentPlayer().Some?)
      ensures next.Ok? ==> GetCurrentPlayer() == Some(next.value)
      ensures board == old(board) && moveCount == old(moveCount)
    {
      if numPlayers == 0 {
        return Err("integer division or modulo by zero");
      }
      currentPlayerIndex := Py.Mod(currentPlayerIndex + 1, numPlayers);
      var p := GetCurrentPlayer();
      if p.Some? {
        next := Ok(p.value);
      } else {
        next := Err("list index out of range");
      }
    }
  }

  /** With one to eight players the turn index always names a player. */
  lemma TurnStaysInRange(numPlayers: int, index: int)
    requires 1 <= numPlayers <= 8 && 0 <= index < numPlayers
    ensures 0 <= Py.Mod(index + 1, numPlayers) < |Py.Prefix(SYMBOLS, numPlayers)|
    ensures Py.Index(Py.Prefix(SYMBOLS, numPlayers), Py.Mod(index + 1, numPlayers)).Some?
  {
  }
}
