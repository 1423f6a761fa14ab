/**
 * `ConnectFour`: pieces dropped into columns fall to the lowest empty row; row 0 is the top.
 * The board is a `height × width` grid updated in place by `make_move`.
 */
module ConnectFourGame {
  import opened Wrappers
  import opened Grid
  import opened GameInterface
  import Py

  const SYMBOLS: seq<string> := ["R", "Y", "B", "G"]

  /** The configuration `ConnectFour()` builds when given none: 7 wide, 6 high, 4 to win. */
  function DefaultConfig(): (c: GameConfig)
    ensures c.boardSize == 7 && c.winLength == 4 && c.numPlayers == 2 && c.maxMoves == 42
    ensures c.extra == map["height" := VInt(6)]
  {
    GameConfigRecord(7, 4, 2, 42, map["height" := VInt(6)])
  }

  /**
   * `config.extra_params.get('height', 6)` as `range()` takes it: an integer (a bool counts
   * as 1 or 0), or the TypeError `range()` raises on a string.
   */
  function HeightValue(c: GameConfig): (r: Result<int>)
    ensures "height" !in c.extra ==> r == Ok(6)
    ensures r.Err? <==> "height" in c.extra && c.extra["height"].VStr?
    ensures "height" in c.extra && c.extra["height"].VInt? ==> r == Ok(c.extra["height"].i)
  {
    if "height" !in c.extra then Ok(6)
    else match c.extra["height"]
      case VInt(i) => Ok(i)
      case VBool(b) => Ok(if b then 1 else 0)
      case VStr(_) => Err("'str' object cannot be interpreted as an integer")
  }

  /** Column `c` read from top to bottom. */
  function Column(b: Board, c: int): (col: seq<string>)
    ensures |col| == |b| && forall r :: InBounds(b, r, c) ==> col[r] == b[r][c]
  {
    seq(|b|, r => if InBounds(b, r, c) then b[r][c] else EMPTY)
  }

  /** The number of occupied cells counted upward from the bottom until the first empty one. */
  function StackHeight(col: seq<string>): (n: nat)
    ensures n <= |col|
  {
    if col == [] || col[|col| - 1] == EMPTY then 0 else 1 + StackHeight(col[..|col| - 1])
  }

  lemma {:induction false} StackHeightAt(col: seq<string>, row: int)
    requires 0 <= row < |col| && col[row] == EMPTY
    requires forall r :: row < r < |col| ==> col[r] != EMPTY
    ensures StackHeight(col) == |col| - 1 - row
  {
    if row < |col| - 1 {
      StackHeightAt(col[..|col| - 1], row);
    }
  }

  lemma {:induction false} StackHeightFull(col: seq<string>)
    requires forall r :: 0 <= r < |col| ==> col[r] != EMPTY
    ensures StackHeight(col) == |col|
  {
    if col != [] {
      StackHeightFull(col[..|col| - 1]);
    }
  }

  /** Below the stack sit only occupied cells, and the cell on top of it is empty. */
  lemma {:induction false} StackHeightShape(col: seq<string>)
    ensures forall r :: |col| - StackHeight(col) <= r < |col| ==> col[r] != EMPTY
    ensures StackHeight(col) < |col| ==> col[|col| - 1 - StackHeight(col)] == EMPTY
  {
    if col != [] && col[|col| - 1] != EMPTY {
      StackHeightShape(col[..|col| - 1]);
    }
  }

  predicate Occupied(b: Board, r: int, c: int)
  {
    InBounds(b, r, c) && b[r][c] != EMPTY
  }

  /** Gravity: in every column no empty cell lies below an occupied one. */
  predicate Settled(b: Board)
  {
    forall r1, r2, c :: 0 <= r1 < r2 < |b| && 0 <= c < |b[r1]| && b[r1][c] != EMPTY ==>
      Occupied(b, r2, c)
  }

  lemma SettledBelow(b: Board, r1: int, r2: int, c: int)
    requires Settled(b) && r1 < r2 < |b| && Occupied(b, r1, c)
    ensures Occupied(b, r2, c)
  {
  }

  /** The number of pieces in column `c` of a `h × w` board; 0 for a column off the board. */
  function HeightIn(b: Board, h: int, w: int, c: int): (n: nat)
    requires Shaped(b, h, w)
    ensures n <= Dim(h)
  {
    if 0 <= c < w then StackHeight(Column(b, c)) else 0
  }

  /** Column `col` has pieces below `row` and an empty cell at `row`. */
  predicate DropsAt(b: Board, h: int, w: int, row: int, col: int)
  {
    Shaped(b, h, w) && 0 <= row < h && 0 <= col < w && b[row][col] == EMPTY
    && forall r :: row < r < h ==> b[r][col] != EMPTY
  }

  /** The piece lands on top of the stack. */
  lemma DropLands(b: Board, h: int, w: int, row: int, col: int)
    requires DropsAt(b, h, w, row, col)
    ensures row == h - 1 - HeightIn(b, h, w, col)
  {
    StackHeightAt(Column(b, col), row);
  }

  /** Dropping keeps gravity. */
  lemma DropSettled(b: Board, h: int, w: int, row: int, col: int, player: string)
    requires DropsAt(b, h, w, row, col) && Settled(b)
    ensures Settled(Place(b, row, col, player))
  {
    var nb := Place(b, row, col, player);
    forall r1, r2, c | 0 <= r1 < r2 < |nb| && 0 <= c < |nb[r1]| && nb[r1][c] != EMPTY
      ensures Occupied(nb, r2, c)
    {
      if (r1, c) != (row, col) && (r2, c) != (row, col) {
        SettledBelow(b, r1, r2, c);
      } else if (r2, c) == (row, col) {
        SettledBelow(b, r1, r2, c);
      }
    }
  }

  /** The column dropped into grows by one when the piece is a player's mark. */
  lemma DropGrows(b: Board, h: int, w: int, row: int, col: int, player: string)
    requires DropsAt(b, h, w, row, col) && Settled(b) && player != EMPTY
    ensures HeightIn(Place(b, row, col, player), h, w, col) == HeightIn(b, h, w, col) + 1
  {
    var nb := Place(b, row, col, player);
    PlaceKeepsShape(b, h, w, row, col, player);
    DropLands(b, h, w, row, col);
    var newCol := Column(nb, col);
    if row == 0 {
      assert forall r :: 0 <= r < |newCol| ==> newCol[r] != EMPTY;
      StackHeightFull(newCol);
    } else {
      if Occupied(b, row - 1, col) {
        SettledBelow(b, row - 1, row, col);
      }
      StackHeightAt(newCol, row - 1);
    }
  }

  /** No other column changes. */
  lemma DropKeepsOthers(b: Board, h: int, w: int, row: int, col: int, player: string, c: int)
    requires DropsAt(b, h, w, row, col) && c != col
    ensures Shaped(Place(b, row, col, player), h, w)
    ensures HeightIn(Place(b, row, col, player), h, w, c) == HeightIn(b, h, w, c)
  {
    PlaceKeepsShape(b, h, w, row, col, player);
    if 0 <= c < w {
      assert Column(Place(b, row, col, player), c) == Column(b, c);
    }
  }

  /** Everything a drop into `col` at `row` changes and keeps. */
  lemma DropFacts(b: Board, h: int, w: int, row: int, col: int, player: string)
    requires DropsAt(b, h, w, row, col)
    ensures Shaped(Place(b, row, col, player), h, w) && row == h - 1 - HeightIn(b, h, w, col)
    ensures player != EMPTY ==> Filled(Place(b, row, col, player)) == Filled(b) + 1
    ensures Settled(b) ==> Settled(Place(b, row, col, player))
    ensures Settled(b) && player != EMPTY ==>
      HeightIn(Place(b, row, col, player), h, w, col) == HeightIn(b, h, w, col) + 1
    ensures forall c :: c != col ==> HeightIn(Place(b, row, col, player), h, w, c) == HeightIn(b, h, w, c)
  {
    DropLands(b, h, w, row, col);
    PlaceKeepsShape(b, h, w, row, col, player);
    if player != EMPTY {
      PlaceFills(b, row, col, player);
    }
    if Settled(b) {
      DropSettled(b, h, w, row, col, player);
      if player != EMPTY {
        DropGrows(b, h, w, row, col, player);
      }
    }
    forall c | c != col
      ensures HeightIn(Place(b, row, col, player), h, w, c) == HeightIn(b, h, w, c)
    {
      DropKeepsOthers(b, h, w, row, col, player, c);
    }
  }

  class ConnectFour {
    const config: GameConfig
    const width: int
    const height: int
    const winLength: int
    const numPlayers: int
    const playerSymbols: seq<string>
    var board: Board
    var moveCount: int
    var currentPlayerIndex: int

    predicate Valid()
      reads this
    {
      width == config.boardSize && winLength == config.winLength
      && numPlayers == config.numPlayers && playerSymbols == Py.Prefix(SYMBOLS, numPlayers)
      && HeightValue(config) == Ok(height)
      && Shaped(board, height, width)
    }

    predicate Gravity()
      reads this
    {
      Settled(board)
    }

    predicate CountsMarks()
      reads this
    {
      moveCount == Filled(board)
    }

    /** The game `__init__` builds once the height is a number; see `NewConnectFour`. */
    constructor (config: GameConfig)
      requires HeightValue(config).Ok?
      ensures Valid() && Gravity() && CountsMarks()
      ensures this.config == config && height == HeightValue(config).value
      ensures board == EmptyBoard(height, config.boardSize)
      ensures moveCount == 0 && currentPlayerIndex == 0
    {
      this.config := config;
      width := config.boardSize;
      height := HeightValue(config).value;
      winLength := config.winLength;
      numPlayers := config.numPlayers;
      playerSymbols := Py.Prefix(SYMBOLS, config.numPlayers);
      board := EmptyBoard(HeightValue(config).value, config.boardSize);
      moveCount := 0;
      currentPlayerIndex := 0;
      EmptyBoardUnfilled(HeightValue(config).value, config.boardSize);
    }

    /** The number of pieces in column `c`; 0 for a column off the board. */
    function Height(c: int): (n: nat)
      requires Valid()
      reads this
      ensures n <= Dim(height)
    {
      HeightIn(board, height, width, c)
    }

    /**
     * `is_valid_move`: an integer column on the board whose top cell is empty. A board with
     * no rows has no top cell: reading it raises IndexError.
     */
    function IsValidMove(move: MoveArg, player: string): (r: Result<bool>)
      requires Valid()
      reads this
      ensures r.Err? <==> move.ColumnMove? && 0 <= move.col < width && height <= 0
      ensures r == Ok(true) ==> move.ColumnMove? && 0 <= move.col < width && height >= 1
    {
      if !move.ColumnMove? || !(0 <= move.col < width) then Ok(false)
      else if |board| == 0 then Err("list index out of range")
      else Ok(board[0][move.col] == EMPTY)
    }

    /** A column accepts a piece exactly when it is not yet full. */
    lemma ValidIffRoom(move: MoveArg, player: string)
      requires Valid() && Gravity()
      ensures IsValidMove(move, player) == Ok(true) <==>
        move.ColumnMove? && 0 <= move.col < width && Height(move.col) < height
    {
      if move.ColumnMove? && 0 <= move.col < width && height >= 1 {
        var col := Column(board, move.col);
        StackHeightShape(col);
        assert col[0] == board[0][move.col];
        if board[0][move.col] != EMPTY {
          forall r | 0 < r < |col| ensures col[r] != EMPTY {
            SettledBelow(board, 0, r, move.col);
          }
          StackHeightFull(col);
        }
      }
    }

    /**
     * `make_move`: a valid move puts the piece on top of the column's stack and changes no
     * other cell; an invalid one changes nothing; the IndexError of `is_valid_move` passes
     * through.
     */
    method MakeMove(move: MoveArg, player: string) returns (r: Result<bool>)
      requires Valid()
      modifies this
      ensures Valid()
      ensures r == old(IsValidMove(move, player))
      ensures r == Ok(true) ==> (0 <= move.col < width && old(Height(move.col)) < height
        && board == old(Place(board, height - 1 - Height(move.col), move.col, player))
        && moveCount == old(moveCount) + 1)
      ensures r != Ok(true) ==> board == old(board) && moveCount == old(moveCount)
      ensures currentPlayerIndex == old(currentPlayerIndex)
      ensures old(Gravity()) ==> Gravity()
      ensures player != EMPTY && old(CountsMarks()) ==> CountsMarks()
      ensures r == Ok(true) && player != EMPTY && old(Gravity()) ==>
        Height(move.col) == old(Height(move.col)) + 1
      ensures r == Ok(true) ==> forall c :: c != move.col ==> Height(c) == old(Height(c))
    {
      if !move.ColumnMove? {
        return Ok(false);
      }
      r := IsValidMove(move, player);
      if r != Ok(true) {
        return;
      }
      var col := move.col;
      var row := height - 1;
      while row >= 0
        invariant -1 <= row < height
        invariant forall r :: row < r < height ==> board[r][col] != EMPTY
      {
        if board[row][col] == EMPTY {
          DropFacts(board, height, width, row, col, player);
          board := Place(board, row, col, player);
          moveCount := moveCount + 1;
          return;
        }
        row := row - 1;
      }
      assert false;
    }

    /** `get_column_height`: counts occupied cells from the bottom and stops at the first gap. */
    method GetColumnHeight(col: int) returns (count: int)
      requires Valid()
      ensures count == Height(col)
    {
      if !(0 <= col < width) {
        return 0;
      }
      ghost var column := Column(board, col);
      count := 0;
      var row := height - 1;
      while row >= 0
        invariant height < 0 ==> row == height - 1 && count == 0
        invariant height >= 0 ==> -1 <= row < height && count == height - 1 - row
        invariant forall r :: row < r < height ==> board[r][col] != EMPTY
      {
        if board[row][col] != EMPTY {
          count := count + 1;
        } else {
          StackHeightAt(column, row);
          return;
        }
        row := row - 1;
      }
      StackHeightFull(column);
    }

    /**
     * `get_valid_moves`: the columns with an empty top cell, in ascending order; on a board
     * with no rows the first column's check raises IndexError.
     */
    method GetValidMoves(player: string) returns (r: Result<seq<int>>)
      requires Valid()
      ensures r.Err? <==> width >= 1 && height <= 0
      ensures r.Ok? ==> forall i :: 0 <= i < |r.value| ==> IsValidMove(ColumnMove(r.value[i]), player) == Ok(true)
      ensures r.Ok? ==> forall c :: IsValidMove(ColumnMove(c), player) == Ok(true) ==> c in r.value
      ensures r.Ok? ==> forall i, j :: 0 <= i < j < |r.value| ==> r.value[i] < r.value[j]
    {
      var moves := [];
      var col := 0;
      while col < width
        invariant 0 <= col && (width >= 0 ==> col <= width)
        invariant col >= 1 ==> height >= 1
        invariant forall i :: 0 <= i < |moves| ==>
          IsValidMove(ColumnMove(moves[i]), player) == Ok(true) && moves[i] < col
        invariant forall c :: c < col && IsValidMove(ColumnMove(c), player) == Ok(true) ==> c in moves
        invariant forall i, j :: 0 <= i < j < |moves| ==> moves[i] < moves[j]
      {
        var valid := IsValidMove(ColumnMove(col), player);
        if valid.Err? {
          return Err(valid.message);
        }
        if valid.value {
          moves := moves + [col];
        }
        col := col + 1;
      }
      return Ok(moves);
    }

    /** `_check_win`: some window of `win_length` cells in one of the four directions. */
    method CheckWin(player: string) returns (won: bool)
      requires Valid()
      ensures won == HasWindow(board, height, width, player, winLength)
    {
      won := ScanWindows(board, height, width, player, winLength);
    }

    ghost predicate NoneWonBefore(i: int)
      requires 0 <= i <= |playerSymbols|
      reads this
    {
      forall j :: 0 <= j < i ==> !HasWindow(board, height, width, playerSymbols[j], winLength)
    }

    /** `is_game_over`: the first symbol in turn order that has won, else a draw on a full count. */
    method IsGameOver() returns (status: GameStatus)
      requires Valid()
      ensures status.winner.Some? ==>
        status.isOver
        && (exists i ::
              0 <= i < |playerSymbols| && playerSymbols[i] == status.winner.value
              && NoneWonBefore(i) && HasWindow(board, height, width, playerSymbols[i], winLength))
      ensures status.winner.None? ==>
        NoneWonBefore(|playerSymbols|) && (status.isOver <==> moveCount >= width * height)
    {
      var i := 0;
      while i < |playerSymbols|
        invariant 0 <= i <= |playerSymbols|
        invariant NoneWonBefore(i)
      {
        var won := CheckWin(playerSymbols[i]);
        if won {
          return GameStatus(true, Some(playerSymbols[i]));
        }
        i := i + 1;
      }
      if moveCount >= width * height {
        return GameStatus(true, None);
      }
      return GameStatus(false, None);
    }

    /** `copy`: a fresh game with the same configuration, board, counter and turn. */
    method Copy() returns (g: ConnectFour)
      requires Valid()
      ensures fresh(g) && g.Valid()
      ensures g.config == config && g.board == board
      ensures g.moveCount == moveCount && g.currentPlayerIndex == currentPlayerIndex
    {
      g := new ConnectFour(config);
      g.board := board;
      g.moveCount := moveCount;
      g.currentPlayerIndex := currentPlayerIndex;
    }

    function GetCurrentPlayer(): (p: Option<string>)
      reads this
      ensures p.Some? <==> -|playerSymbols| <= currentPlayerIndex < |playerSymbols|
    {
      Py.Index(playerSymbols, currentPlayerIndex)
    }

    /**
     * `advance_turn`: the index moves to `(index + 1) % num_players` and the new current
     * player is returned. With no players the modulo raises ZeroDivisionError before the
     * index is written; past the symbols the lookup raises IndexError after it is written.
     */
    method AdvanceTurn() returns (next: Result<string>)
      modifies this
      ensures numPlayers == 0 ==> next.Err? && currentPlayerIndex == old(currentPlayerIndex)
      ensures numPlayers != 0 ==> currentPlayerIndex == Py.Mod(old(currentPlayerIndex) + 1, numPlayers)
      ensures numPlayers != 0 ==> (next.Ok? <==> GetCurrentPlayer().Some?)
      ensures next.Ok? ==> GetCurrentPlayer() == Some(next.value)
      ensures board == old(board) && moveCount == old(moveCount)
    {
      if numPlayers == 0 {
        return Err("integer division or modulo by zero");
      }
      currentPlayerIndex := Py.Mod(currentPlayerIndex + 1, numPlayers);
      var p := GetCurrentPlayer();
      if p.Some? {
        next := Ok(p.value);
      } else {
        next := Err("list index out of range");
      }
    }
  }

  /** `ConnectFour(config)`: the game, or the TypeError `range()` raises on a string height. */
  method NewConnectFour(config: GameConfig) returns (r: Result<ConnectFour>)
    ensures r.Err? <==> HeightValue(config).Err?
    ensures r.Ok? ==> fresh(r.value) && r.value.Valid() && r.value.config == config
    ensures r.Ok? ==> r.value.board == EmptyBoard(HeightValue(config).value, config.boardSize)
    ensures r.Ok? ==> r.value.moveCount == 0 && r.value.currentPlayerIndex == 0
  {
    var h := HeightValue(config);
    if h.Err? {
      return Err(h.message);
    }
    var game := new ConnectFour(config);
    return Ok(game);
  }
}
