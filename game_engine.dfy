/**
 * The original fixed 3×3 Tic-Tac-Toe `Board` and the referee loop `play_game` that lets
 * two agents alternate, X first, substituting the first empty cell for any move that is
 * invalid or that the agent fails to produce.
 */
module GameEngine {
  import opened Wrappers
  import Grid
  import opened GameInterface

  const EMPTY: string := Grid.EMPTY

  predicate Is3x3(g: Grid.Board)
  {
    Grid.Shaped(g, 3, 3)
  }

  predicate RowAll(g: Grid.Board, r: int, s: string)
    requires Is3x3(g) && 0 <= r < 3
  {
    forall i :: 0 <= i < 3 ==> g[r][i] == s
  }

  predicate ColAll(g: Grid.Board, c: int, s: string)
    requires Is3x3(g) && 0 <= c < 3
  {
    forall i :: 0 <= i < 3 ==> g[i][c] == s
  }

  predicate DiagAll(g: Grid.Board, s: string)
    requires Is3x3(g)
  {
    forall i :: 0 <= i < 3 ==> g[i][i] == s
  }

  predicate AntiAll(g: Grid.Board, s: string)
    requires Is3x3(g)
  {
    forall i :: 0 <= i < 3 ==> g[i][2 - i] == s
  }

  /** `s` fills a row, a column or one of the two diagonals. */
  predicate ThreeInARow(g: Grid.Board, s: string)
    requires Is3x3(g)
  {
    (exists r :: 0 <= r < 3 && RowAll(g, r, s)) || (exists c :: 0 <= c < 3 && ColAll(g, c, s))
    || DiagAll(g, s) || AntiAll(g, s)
  }

  /** The fixed board's lines are exactly the generic game's windows of three on a 3×3 grid. */
  lemma ThreeInARowIsWindow(g: Grid.Board, s: string)
    requires Is3x3(g)
    ensures ThreeInARow(g, s) <==> Grid.HasWindow(g, 3, 3, s, 3)
  {
    RowsAreWindows(g, s);
    ColumnsAreWindows(g, s);
    DiagonalIsWindow(g, s);
    AntiDiagonalIsWindow(g, s);
  }

  lemma RowsAreWindows(g: Grid.Board, s: string)
    requires Is3x3(g)
    ensures (exists r :: 0 <= r < 3 && RowAll(g, r, s)) <==> Grid.HasWindowIn(g, 3, 3, s, 3, Grid.Horizontal)
  {
    if exists r :: 0 <= r < 3 && RowAll(g, r, s) {
      var r :| 0 <= r < 3 && RowAll(g, r, s);
      assert Grid.Run(g, 3, 3, s, 3, r, 0, Grid.Horizontal);
    }
    if Grid.HasWindowIn(g, 3, 3, s, 3, Grid.Horizontal) {
      var r, c :| Grid.Run(g, 3, 3, s, 3, r, c, Grid.Horizontal);
      forall i | 0 <= i < 3 ensures g[r][i] == s {
        assert Grid.CellIs(g, Grid.Pos(r, c, Grid.Horizontal, i), s);
      }
      assert RowAll(g, r, s);
    }
  }

  lemma ColumnsAreWindows(g: Grid.Board, s: string)
    requires Is3x3(g)
    ensures (exists c :: 0 <= c < 3 && ColAll(g, c, s)) <==> Grid.HasWindowIn(g, 3, 3, s, 3, Grid.Vertical)
  {
    if exists c :: 0 <= c < 3 && ColAll(g, c, s) {
      var c :| 0 <= c < 3 && ColAll(g, c, s);
      assert Grid.Run(g, 3, 3, s, 3, 0, c, Grid.Vertical);
    }
    if Grid.HasWindowIn(g, 3, 3, s, 3, Grid.Vertical) {
      var r, c :| Grid.Run(g, 3, 3, s, 3, r, c, Grid.Vertical);
      forall i | 0 <= i < 3 ensures g[i][c] == s {
        assert Grid.CellIs(g, Grid.Pos(r, c, Grid.Vertical, i), s);
      }
      assert ColAll(g, c, s);
    }
  }

  lemma DiagonalIsWindow(g: Grid.Board, s: string)
    requires Is3x3(g)
    ensures DiagAll(g, s) <==> Grid.HasWindowIn(g, 3, 3, s, 3, Grid.Diagonal)
  {
    if DiagAll(g, s) {
      assert Grid.Run(g, 3, 3, s, 3, 0, 0, Grid.Diagonal);
    }
    if Grid.HasWindowIn(g, 3, 3, s, 3, Grid.Diagonal) {
      var r, c :| Grid.Run(g, 3, 3, s, 3, r, c, Grid.Diagonal);
      forall i | 0 <= i < 3 ensures g[i][i] == s {
        assert Grid.CellIs(g, Grid.Pos(r, c, Grid.Diagonal, i), s);
      }
    }
  }

  lemma AntiDiagonalIsWindow(g: Grid.Board, s: string)
    requires Is3x3(g)
    ensures AntiAll(g, s) <==> Grid.HasWindowIn(g, 3, 3, s, 3, Grid.AntiDiagonal)
  {
    if AntiAll(g, s) {
      assert Grid.Run(g, 3, 3, s, 3, 0, 2, Grid.AntiDiagonal);
    }
    if Grid.HasWindowIn(g, 3, 3, s, 3, Grid.AntiDiagonal) {
      var r, c :| Grid.Run(g, 3, 3, s, 3, r, c, Grid.AntiDiagonal);
      forall i | 0 <= i < 3 ensures g[i][2 - i] == s {
        assert Grid.CellIs(g, Grid.Pos(r, c, Grid.AntiDiagonal, i), s);
      }
    }
  }

  /** Writing `s` into one cell cannot complete a line for a different symbol `t`. */
  lemma PlaceOtherNoWin(g: Grid.Board, r: int, c: int, s: string, t: string)
    requires Is3x3(g) && 0 <= r < 3 && 0 <= c < 3 && s != t && !ThreeInARow(g, t)
    ensures Is3x3(Grid.Place(g, r, c, s)) && !ThreeInARow(Grid.Place(g, r, c, s), t)
  {
    Grid.PlaceKeepsShape(g, 3, 3, r, c, s);
    PlaceOtherKeepsLines(g, r, c, s, t);
  }

  /** A line of `t` after writing a different symbol `s` was already a line of `t` before. */
  lemma PlaceOtherKeepsLines(g: Grid.Board, r: int, c: int, s: string, t: string)
    requires Is3x3(g) && 0 <= r < 3 && 0 <= c < 3 && s != t
    ensures var ng := Grid.Place(g, r, c, s);
      Is3x3(ng)
      && (forall r' :: 0 <= r' < 3 && RowAll(ng, r', t) ==> RowAll(g, r', t))
      && (forall c' :: 0 <= c' < 3 && ColAll(ng, c', t) ==> ColAll(g, c', t))
      && (DiagAll(ng, t) ==> DiagAll(g, t)) && (AntiAll(ng, t) ==> AntiAll(g, t))
  {
    var ng := Grid.Place(g, r, c, s);
    Grid.PlaceKeepsShape(g, 3, 3, r, c, s);
    forall r' | 0 <= r' < 3 && RowAll(ng, r', t) ensures RowAll(g, r', t) {
      forall i | 0 <= i < 3 ensures g[r'][i] == t {
        assert ng[r'][i] == t;
      }
    }
    forall c' | 0 <= c' < 3 && ColAll(ng, c', t) ensures ColAll(g, c', t) {
      forall i | 0 <= i < 3 ensures g[i][c'] == t {
        assert ng[i][c'] == t;
      }
    }
    if DiagAll(ng, t) {
      forall i | 0 <= i < 3 ensures g[i][i] == t {
        assert ng[i][i] == t;
      }
    }
    if AntiAll(ng, t) {
      forall i | 0 <= i < 3 ensures g[i][2 - i] == t {
        assert ng[i][2 - i] == t;
      }
    }
  }

  /** Nobody owns a line on the empty board. */
  lemma EmptyNoLine(s: string)
    requires s != EMPTY
    ensures !ThreeInARow(Grid.EmptyBoard(3, 3), s)
  {
    var g := Grid.EmptyBoard(3, 3);
    forall r | 0 <= r < 3 ensures !RowAll(g, r, s) && !ColAll(g, r, s) {
      assert g[r][0] == EMPTY && g[0][r] == EMPTY;
    }
    assert g[0][0] == EMPTY && g[0][2] == EMPTY;
  }

  /** (r1, c1) comes before (r2, c2) in row-major order. */
  predicate Before(r1: int, c1: int, r2: int, c2: int)
  {
    r1 < r2 || (r1 == r2 && c1 < c2)
  }

  predicate OnBoard(r: int, c: int)
  {
    0 <= r < 3 && 0 <= c < 3
  }

  /** The first empty cell at or after (r, c) in row-major order. */
  function FirstEmptyFrom(g: Grid.Board, r: nat, c: nat): (p: Option<(int, int)>)
    requires Is3x3(g) && c <= 3
    ensures p.None? <==>
      forall r', c' :: OnBoard(r', c') && !Before(r', c', r, c) ==> g[r'][c'] != EMPTY
    ensures p.Some? ==>
      OnBoard(p.value.0, p.value.1) && g[p.value.0][p.value.1] == EMPTY
      && !Before(p.value.0, p.value.1, r, c)
      && forall r', c' ::
           (OnBoard(r', c') && !Before(r', c', r, c) && Before(r', c', p.value.0, p.value.1))
           ==> g[r'][c'] != EMPTY
    decreases 3 - r, 3 - c
  {
    if r >= 3 then None
    else if c == 3 then FirstEmptyFrom(g, r + 1, 0)
    else if g[r][c] == EMPTY then Some((r, c))
    else FirstEmptyFrom(g, r, c + 1)
  }

  function FirstEmpty(g: Grid.Board): Option<(int, int)>
    requires Is3x3(g)
  {
    FirstEmptyFrom(g, 0, 0)
  }

  class Board {
    var grid: Grid.Board
    var moveCount: int

    predicate Valid()
      reads this
    {
      Is3x3(grid)
    }

    /** Every move went through `make_move`: the counter is the number of occupied cells. */
    predicate CountsMarks()
      reads this
    {
      moveCount == Grid.Filled(grid)
    }

    constructor ()
      ensures Valid() && CountsMarks()
      ensures grid == Grid.EmptyBoard(3, 3) && moveCount == 0
    {
      grid := Grid.EmptyBoard(3, 3);
      moveCount := 0;
      Grid.EmptyBoardUnfilled(3, 3);
    }

    /** `is_valid_move`: both coordinates in 0..2 and the cell empty. */
    predicate IsValidMove(row: int, col: int)
      requires Valid()
      reads this
    {
      0 <= row <= 2 && 0 <= col <= 2 && grid[row][col] == EMPTY
    }

    /** `make_move`: writes the one cell and counts the move, or changes nothing if invalid. */
    method MakeMove(row: int, col: int, symbol: string) returns (ok: bool)
      requires Valid()
      modifies this
      ensures Valid()
      ensures ok == old(IsValidMove(row, col))
      ensures ok ==> grid == old(Grid.Place(grid, row, col, symbol)) && moveCount == old(moveCount) + 1
      ensures !ok ==> grid == old(grid) && moveCount == old(moveCount)
      ensures symbol != EMPTY && old(CountsMarks()) ==> CountsMarks()
    {
      if !IsValidMove(row, col) {
        return false;
      }
      Grid.PlaceKeepsShape(grid, 3, 3, row, col, symbol);
      if symbol != EMPTY {
        Grid.PlaceFills(grid, row, col, symbol);
      }
      grid := Grid.Place(grid, row, col, symbol);
      moveCount := moveCount + 1;
      return true;
    }

    /** `check_win`: the rows, then the columns, then the two diagonals. */
    method CheckWin(symbol: string) returns (won: bool)
      requires Valid()
      ensures won == ThreeInARow(grid, symbol)
    {
      for r := 0 to 3
        invariant forall r' :: 0 <= r' < r ==> !RowAll(grid, r', symbol)
      {
        if RowAll(grid, r, symbol) {
          return true;
        }
      }
      for c := 0 to 3
        invariant forall c' :: 0 <= c' < c ==> !ColAll(grid, c', symbol)
      {
        if ColAll(grid, c, symbol) {
          return true;
        }
      }
      if DiagAll(grid, symbol) {
        return true;
      }
      if AntiAll(grid, symbol) {
        return true;
      }
      return false;
    }

    /** `check_draw`: nine moves made and neither X nor O has a line. */
    method CheckDraw() returns (draw: bool)
      requires Valid()
      ensures draw <==> moveCount == 9 && !ThreeInARow(grid, "X") && !ThreeInARow(grid, "O")
    {
      var x := CheckWin("X");
      var o := CheckWin("O");
      return moveCount == 9 && !(x || o);
    }

    /** `is_game_over`: X's line is reported before O's, then a draw, else the game goes on. */
    method IsGameOver() returns (status: GameStatus)
      requires Valid()
      ensures status.winner == Some("X") <==> ThreeInARow(grid, "X")
      ensures status.winner == Some("O") <==> !ThreeInARow(grid, "X") && ThreeInARow(grid, "O")
      ensures status.winner.Some? ==> status.winner.value in {"X", "O"} && status.isOver
      ensures status.winner.None? ==> (status.isOver <==> moveCount == 9)
    {
      var x := CheckWin("X");
      if x {
        return GameStatus(true, Some("X"));
      }
      var o := CheckWin("O");
      if o {
        return GameStatus(true, Some("O"));
      }
      var draw := CheckDraw();
      if draw {
        return GameStatus(true, None);
      }
      return GameStatus(false, None);
    }
  }

  /** `find_valid_move`: the first empty cell scanning rows, then columns; None on a full board. */
  method FindValidMove(board: Board) returns (v: Option<(int, int)>)
    requires board.Valid()
    ensures v == FirstEmpty(board.grid)
  {
    for row := 0 to 3
      invariant FirstEmpty(board.grid) == FirstEmptyFrom(board.grid, row, 0)
    {
      for col := 0 to 3
        invariant FirstEmpty(board.grid) == FirstEmptyFrom(board.grid, row, col)
      {
        if board.IsValidMove(row, col) {
          return Some((row, col));
        }
      }
    }
    return None;
  }

  /** A board with no empty cell holds nine marks. */
  lemma FullBoardCount(g: Grid.Board)
    requires Is3x3(g) && FirstEmpty(g).None?
    ensures Grid.Filled(g) == 9
  {
    forall r, c | Grid.InBounds(g, r, c) ensures g[r][c] != EMPTY {
      assert OnBoard(r, c) && !Before(r, c, 0, 0);
    }
    Grid.FilledFull(g, 3, 3);
  }

  // ----- the referee loop -----

  /** The symbol that makes move number `i`: X moves first. */
  function Symbol(i: int): string
  {
    if i % 2 == 0 then "X" else "O"
  }

  lemma SymbolNext(i: nat)
    ensures Symbol(i) == "X" || Symbol(i) == "O"
    ensures Symbol(i + 1) == (if Symbol(i) == "X" then "O" else "X")
  {
    assert "X" != "O";
  }

  /**
   * The agent playing `symbol` asked for move number `i` on board `g`: a `(row, col)` pair, any
   * other value (so that unpacking or comparing it raises), or a raised exception.
   */
  type Agent = (string, nat, Grid.Board) -> AgentReply

  predicate AllOnBoard(cells: seq<(int, int)>)
  {
    forall i :: 0 <= i < |cells| ==> OnBoard(cells[i].0, cells[i].1)
  }

  /** The board after playing `cells` from an empty board, X first, alternating. */
  function Replay(cells: seq<(int, int)>): (g: Grid.Board)
    requires AllOnBoard(cells)
    ensures Is3x3(g)
  {
    if cells == [] then Grid.EmptyBoard(3, 3)
    else
      var last := cells[|cells| - 1];
      Grid.Place(Replay(cells[..|cells| - 1]), last.0, last.1, Symbol(|cells| - 1))
  }

  /** The cell actually played: the agent's own pair when it is valid, else the first empty cell. */
  function Resolve(reply: AgentReply, g: Grid.Board): Option<(int, int)>
    requires Is3x3(g)
  {
    if reply.Reply? && reply.move.CellMove? && OnBoard(reply.move.row, reply.move.col)
       && g[reply.move.row][reply.move.col] == EMPTY
    then Some((reply.move.row, reply.move.col))
    else FirstEmpty(g)
  }

  /** Every move of `cells` is the cell `agent` got to play on the board of that moment. */
  predicate Played(cells: seq<(int, int)>, agent: Agent)
  {
    cells == []
    || (var n := |cells| - 1;
        Played(cells[..n], agent) && AllOnBoard(cells)
        && Resolve(agent(Symbol(n), n, Replay(cells[..n])), Replay(cells[..n])) == Some(cells[n]))
  }

  lemma PlayedExtend(cells: seq<(int, int)>, agent: Agent, cell: (int, int))
    requires Played(cells, agent) && OnBoard(cell.0, cell.1)
    requires Resolve(agent(Symbol(|cells|), |cells|, Replay(cells)), Replay(cells)) == Some(cell)
    ensures Played(cells + [cell], agent)
    ensures Replay(cells + [cell]) == Grid.Place(Replay(cells), cell.0, cell.1, Symbol(|cells|))
  {
    var next := cells + [cell];
    assert next[..|cells|] == cells;
    assert AllOnBoard(cells) by {
      if cells != [] {}
    }
  }

  /** No position reached before the last move had a line: the game stops at the first one. */
  predicate NoLineBefore(cells: seq<(int, int)>)
    requires AllOnBoard(cells)
  {
    forall j :: 0 <= j < |cells| ==>
      !ThreeInARow(Replay(cells[..j]), "X") && !ThreeInARow(Replay(cells[..j]), "O")
  }

  lemma NoLineBeforeSnoc(cells: seq<(int, int)>, cell: (int, int))
    requires AllOnBoard(cells) && OnBoard(cell.0, cell.1) && NoLineBefore(cells)
    requires !ThreeInARow(Replay(cells), "X") && !ThreeInARow(Replay(cells), "O")
    ensures AllOnBoard(cells + [cell]) && NoLineBefore(cells + [cell])
  {
    var next := cells + [cell];
    forall j | 0 <= j < |next|
      ensures !ThreeInARow(Replay(next[..j]), "X") && !ThreeInARow(Replay(next[..j]), "O")
    {
      assert next[..j] == cells[..j];
    }
  }

  /** A turn extends the history by the resolved cell and leaves the other symbol without a line. */
  lemma TurnExtends(cells: seq<(int, int)>, agent: Agent, cell: (int, int))
    requires Played(cells, agent) && OnBoard(cell.0, cell.1)
    requires Resolve(agent(Symbol(|cells|), |cells|, Replay(cells)), Replay(cells)) == Some(cell)
    requires !ThreeInARow(Replay(cells), "X") && !ThreeInARow(Replay(cells), "O")
    ensures Played(cells + [cell], agent)
    ensures Replay(cells + [cell]) == Grid.Place(Replay(cells), cell.0, cell.1, Symbol(|cells|))
    ensures Symbol(|cells|) == "X" ==> !ThreeInARow(Replay(cells + [cell]), "O")
    ensures Symbol(|cells|) == "O" ==> !ThreeInARow(Replay(cells + [cell]), "X")
  {
    PlayedExtend(cells, agent, cell);
    SymbolNext(|cells|);
    if Symbol(|cells|) == "X" {
      PlaceOtherNoWin(Replay(cells), cell.0, cell.1, "X", "O");
    } else {
      PlaceOtherNoWin(Replay(cells), cell.0, cell.1, "O", "X");
    }
  }

  /**
   * One turn of `play_game`: the agent's pair when `make_move` accepts it, otherwise the cell
   * `find_valid_move` offers; None when there is no empty cell left.
   */
  method TakeTurn(board: Board, reply: AgentReply, symbol: string) returns (cell: Option<(int, int)>)
    requires board.Valid()
    modifies board
    ensures board.Valid()
    ensures cell == Resolve(reply, old(board.grid))
    ensures cell.Some? ==> (OnBoard(cell.value.0, cell.value.1)
      && board.grid == Grid.Place(old(board.grid), cell.value.0, cell.value.1, symbol)
      && board.moveCount == old(board.moveCount) + 1)
    ensures cell.None? ==> board.grid == old(board.grid) && board.moveCount == old(board.moveCount)
    ensures symbol != EMPTY && old(board.CountsMarks()) ==> board.CountsMarks()
  {
    if reply.Reply? && reply.move.CellMove? {
      var ok := board.MakeMove(reply.move.row, reply.move.col, symbol);
      if ok {
        return Some((reply.move.row, reply.move.col));
      }
    }
    cell := FindValidMove(board);
    if cell.Some? {
      var ok := board.MakeMove(cell.value.0, cell.value.1, symbol);
    }
  }


  /**
   * One turn of the loop: the agent to move is asked, its resolved cell is played and the
   * board is checked. A win can only be the mover's, and a game that is not over has no line
   * and a free cell.
   */
  method PlayTurn(board: Board, agent: Agent, current: string, ghost cells: seq<(int, int)>)
    returns (cell: (int, int), status: GameStatus)
    requires board.Valid() && board.CountsMarks()
    requires |cells| == board.moveCount < 9 && current == Symbol(|cells|)
    requires Played(cells, agent) && board.grid == Replay(cells)
    requires !ThreeInARow(board.grid, "X") && !ThreeInARow(board.grid, "O")
    modifies board
    ensures board.Valid() && board.CountsMarks() && board.moveCount == |cells| + 1
    ensures Played(cells + [cell], agent) && board.grid == Replay(cells + [cell])
    ensures OnBoard(cell.0, cell.1)
    ensures status.winner.Some? ==> status.isOver && status.winner.value == current && ThreeInARow(board.grid, current)
    ensures status.winner.None? ==> !ThreeInARow(board.grid, "X") && !ThreeInARow(board.grid, "O")
    ensures status.winner.None? ==> (status.isOver <==> |cells| + 1 == 9)
  {
    SymbolNext(|cells|);
    var reply := agent(current, board.moveCount, board.grid);
    ghost var before := board.grid;
    var played := TakeTurn(board, reply, current);
    if played.None? {
      FullBoardCount(before);
      assert false;
      return (0, 0), GameStatus(true, None);
    }
    cell := played.value;
    TurnExtends(cells, agent, cell);
    Grid.FilledBound(board.grid, 3, 3);
    status := board.IsGameOver();
  }

  /**
   * `play_game`: at most `max_moves` moves, X and O alternating, each one the agent's own
   * valid cell or else the first empty cell. The result is ("win", w) exactly when the last
   * move gave its mover `w` a line, and ("draw", None) when the board filled up without a
   * line or the move limit ran out. The loop's "no valid move" exit is never taken, since
   * the game ends as soon as the ninth mark is placed. No earlier position had a line, so
   * the game stops at the first line.
   */
  method PlayGame(agent: Agent, maxMoves: int)
    returns (result: string, winner: Option<string>, ghost cells: seq<(int, int)>)
    ensures Played(cells, agent) && AllOnBoard(cells) && NoLineBefore(cells)
    ensures |cells| <= Grid.Dim(maxMoves) && |cells| <= 9
    ensures result == (if winner.Some? then "win" else "draw")
    ensures winner.Some? ==>
      |cells| >= 1 && winner.value == Symbol(|cells| - 1) && ThreeInARow(Replay(cells), winner.value)
    ensures winner.None? ==>
      !ThreeInARow(Replay(cells), "X") && !ThreeInARow(Replay(cells), "O")
      && (|cells| == 9 || |cells| == Grid.Dim(maxMoves))
  {
    var board := new Board();
    var current := "X";
    var moveCount := 0;
    cells := [];
    EmptyNoLine("X");
    EmptyNoLine("O");
    while moveCount < maxMoves
      invariant board.Valid() && board.CountsMarks()
      invariant moveCount == |cells| == board.moveCount && moveCount < 9
      invariant moveCount == 0 || moveCount <= maxMoves
      invariant current == Symbol(moveCount)
      invariant Played(cells, agent) && board.grid == Replay(cells)
      invariant AllOnBoard(cells) && NoLineBefore(cells)
      invariant !ThreeInARow(board.grid, "X") && !ThreeInARow(board.grid, "O")
      decreases maxMoves - moveCount
    {
      var cell, status := PlayTurn(board, agent, current, cells);
      SymbolNext(moveCount);
      NoLineBeforeSnoc(cells, cell);
      cells := cells + [cell];
      if status.isOver {
        result := if status.winner.Some? then "win" else "draw";
        winner := status.winner;
        return;
      }
      current := if current == "X" then "O" else "X";
      moveCount := moveCount + 1;
    }
    result, winner := "draw", None;
  }
}
