/**
 * Cell grids shared by the board games: a board is a list of rows of cell strings,
 * " " marks an empty cell, and a player wins by owning every cell of a window of
 * `k` cells in one of four directions.
 */
module Grid {

  const EMPTY: string := " "

  type Board = seq<seq<string>>

  /** `range(n)` has `Dim(n)` elements. */
  function Dim(n: int): nat
  {
    if n < 0 then 0 else n
  }

  /** `h` rows of `w` cells each, as `[[" " for _ in range(w)] for _ in range(h)]` builds. */
  predicate Shaped(b: Board, h: int, w: int)
  {
    |b| == Dim(h) && forall r :: 0 <= r < |b| ==> |b[r]| == Dim(w)
  }

  function EmptyBoard(h: int, w: int): (b: Board)
    ensures Shaped(b, h, w)
    ensures forall r, c :: 0 <= r < |b| && 0 <= c < |b[r]| ==> b[r][c] == EMPTY
  {
    seq(Dim(h), _ => seq(Dim(w), _ => EMPTY))
  }

  predicate InBounds(b: Board, r: int, c: int)
  {
    0 <= r < |b| && 0 <= c < |b[r]|
  }

  /** The board after `b[r][c] = v`. */
  function Place(b: Board, r: int, c: int, v: string): (nb: Board)
    requires InBounds(b, r, c)
    ensures |nb| == |b| && forall i :: 0 <= i < |b| ==> |nb[i]| == |b[i]|
    ensures nb[r][c] == v
    ensures forall i, j :: InBounds(b, i, j) && (i, j) != (r, c) ==> nb[i][j] == b[i][j]
  {
    b[r := b[r][c := v]]
  }

  lemma PlaceKeepsShape(b: Board, h: int, w: int, r: int, c: int, v: string)
    requires Shaped(b, h, w) && InBounds(b, r, c)
    ensures Shaped(Place(b, r, c, v), h, w)
  {
  }

  // ----- counting occupied cells -----

  function CountFilled(row: seq<string>): (n: nat)
    ensures n <= |row|
  {
    if row == [] then 0
    else CountFilled(row[..|row| - 1]) + (if row[|row| - 1] != EMPTY then 1 else 0)
  }

  /** The number of non-empty cells of the board. */
  function Filled(b: Board): nat
  {
    if b == [] then 0 else Filled(b[..|b| - 1]) + CountFilled(b[|b| - 1])
  }

  lemma {:induction false} CountFilledUpdate(row: seq<string>, c: int, v: string)
    requires 0 <= c < |row| && row[c] == EMPTY && v != EMPTY
    ensures CountFilled(row[c := v]) == CountFilled(row) + 1
  {
    var last := |row| - 1;
    if c < last {
      assert row[c := v][..last] == row[..last][c := v];
      CountFilledUpdate(row[..last], c, v);
    } else {
      assert row[c := v][..last] == row[..last];
    }
  }

  lemma {:induction false} FilledUpdate(b: Board, r: int, row: seq<string>)
    requires 0 <= r < |b|
    ensures Filled(b[r := row]) == Filled(b) - CountFilled(b[r]) + CountFilled(row)
  {
    var last := |b| - 1;
    if r < last {
      assert b[r := row][..last] == b[..last][r := row];
      FilledUpdate(b[..last], r, row);
      assert b[..last][r] == b[r];
    } else {
      assert b[r := row][..last] == b[..last];
    }
  }

  /** Writing a player's mark into an empty cell occupies exactly one more cell. */
  lemma PlaceFills(b: Board, r: int, c: int, v: string)
    requires InBounds(b, r, c) && b[r][c] == EMPTY && v != EMPTY
    ensures Filled(Place(b, r, c, v)) == Filled(b) + 1
  {
    CountFilledUpdate(b[r], c, v);
    FilledUpdate(b, r, b[r][c := v]);
  }

  lemma {:induction false} EmptyRowUnfilled(row: seq<string>)
    requires forall c :: 0 <= c < |row| ==> row[c] == EMPTY
    ensures CountFilled(row) == 0
  {
    if row != [] {
      EmptyRowUnfilled(row[..|row| - 1]);
    }
  }

  lemma {:induction false} EmptyBoardUnfilled(h: int, w: int)
    ensures Filled(EmptyBoard(h, w)) == 0
  {
    var b := EmptyBoard(h, w);
    if b != [] {
      assert b[..|b| - 1] == EmptyBoard(h - 1, w);
      EmptyBoardUnfilled(h - 1, w);
      EmptyRowUnfilled(b[|b| - 1]);
    }
  }

  lemma {:induction false} FilledBound(b: Board, h: int, w: int)
    requires Shaped(b, h, w)
    ensures Filled(b) <= Dim(h) * Dim(w)
  {
    if b != [] {
      FilledBound(b[..|b| - 1], h - 1, w);
    }
  }

  lemma {:induction false} CountFilledFull(row: seq<string>)
    requires forall c :: 0 <= c < |row| ==> row[c] != EMPTY
    ensures CountFilled(row) == |row|
  {
    if row != [] {
      CountFilledFull(row[..|row| - 1]);
    }
  }

  lemma {:induction false} CountFilledGap(row: seq<string>, c: int)
    requires 0 <= c < |row| && row[c] == EMPTY
    ensures CountFilled(row) < |row|
  {
    if c < |row| - 1 {
      CountFilledGap(row[..|row| - 1], c);
    }
  }

  /** One row more adds one row of cells. */
  lemma DimStep(h: int, w: int)
    requires h >= 1
    ensures Dim(h) * Dim(w) == Dim(h - 1) * Dim(w) + Dim(w)
  {
    var n := Dim(w);
    assert Dim(h) == Dim(h - 1) + 1;
    assert (Dim(h - 1) + 1) * n == Dim(h - 1) * n + n;
  }

  /** A board with no empty cell counts every cell as occupied. */
  lemma {:induction false} FilledFull(b: Board, h: int, w: int)
    requires Shaped(b, h, w)
    requires forall r, c :: InBounds(b, r, c) ==> b[r][c] != EMPTY
    ensures Filled(b) == Dim(h) * Dim(w)
  {
    if b != [] {
      var last := |b| - 1;
      assert forall r, c :: InBounds(b[..last], r, c) ==> InBounds(b, r, c);
      FilledFull(b[..last], h - 1, w);
      assert forall c :: 0 <= c < |b[last]| ==> InBounds(b, last, c);
      CountFilledFull(b[last]);
      DimStep(h, w);
    }
  }

  /** A board with an empty cell counts fewer occupied cells than it has cells. */
  lemma {:induction false} FilledGap(b: Board, h: int, w: int, r: int, c: int)
    requires Shaped(b, h, w) && InBounds(b, r, c) && b[r][c] == EMPTY
    ensures Filled(b) < Dim(h) * Dim(w)
  {
    var last := |b| - 1;
    if r < last {
      FilledGap(b[..last], h - 1, w, r, c);
    } else {
      FilledBound(b[..last], h - 1, w);
      CountFilledGap(b[last], c);
    }
    DimStep(h, w);
  }

  // ----- winning windows -----

  datatype Direction = Horizontal | Vertical | Diagonal | AntiDiagonal

  /** Start rows range over `range(RowEnd)`, start columns over `range(ColStart, ColEnd)`. */
  function RowEnd(h: int, k: int, d: Direction): int
  {
    if d == Horizontal then h else h - k + 1
  }

  function ColStart(k: int, d: Direction): int
  {
    if d == AntiDiagonal then k - 1 else 0
  }

  function ColEnd(w: int, k: int, d: Direction): int
  {
    if d == Horizontal || d == Diagonal then w - k + 1 else w
  }

  /** The start cells the win-scanning loops visit. */
  predicate StartOK(h: int, w: int, k: int, r: int, c: int, d: Direction)
  {
    0 <= r < RowEnd(h, k, d) && ColStart(k, d) <= c < ColEnd(w, k, d)
  }

  /** The `i`-th cell of the window that starts at (r, c) in direction d. */
  function Pos(r: int, c: int, d: Direction, i: int): (int, int)
  {
    match d
    case Horizontal => (r, c + i)
    case Vertical => (r + i, c)
    case Diagonal => (r + i, c + i)
    case AntiDiagonal => (r + i, c - i)
  }

  predicate CellIs(b: Board, pos: (int, int), p: string)
  {
    InBounds(b, pos.0, pos.1) && b[pos.0][pos.1] == p
  }

  predicate AllCells(b: Board, p: string, k: int, r: int, c: int, d: Direction)
  {
    forall i :: 0 <= i < k ==> CellIs(b, Pos(r, c, d, i), p)
  }

  /** A window the loops visit whose `k` cells all hold `p`. */
  predicate Run(b: Board, h: int, w: int, p: string, k: int, r: int, c: int, d: Direction)
  {
    StartOK(h, w, k, r, c, d) && AllCells(b, p, k, r, c, d)
  }

  ghost predicate HasWindowIn(b: Board, h: int, w: int, p: string, k: int, d: Direction)
  {
    exists r, c :: Run(b, h, w, p, k, r, c, d)
  }

  /** `p` owns some window of `k` cells in some direction. */
  ghost predicate HasWindow(b: Board, h: int, w: int, p: string, k: int)
  {
    HasWindowIn(b, h, w, p, k, Horizontal) || HasWindowIn(b, h, w, p, k, Vertical)
    || HasWindowIn(b, h, w, p, k, Diagonal) || HasWindowIn(b, h, w, p, k, AntiDiagonal)
  }

  /** Every visited window of a well-shaped board lies inside the board. */
  lemma WindowInside(b: Board, h: int, w: int, k: int, r: int, c: int, d: Direction, i: int)
    requires Shaped(b, h, w) && StartOK(h, w, k, r, c, d) && 0 <= i < k
    ensures InBounds(b, Pos(r, c, d, i).0, Pos(r, c, d, i).1)
  {
  }

  /** `all(board[...] == p for i in range(k))` for one window, stopping at the first mismatch. */
  method CheckWindow(b: Board, h: int, w: int, p: string, k: int, r: int, c: int, d: Direction)
    returns (ok: bool)
    requires Shaped(b, h, w) && StartOK(h, w, k, r, c, d)
    ensures ok == AllCells(b, p, k, r, c, d)
  {
    var i := 0;
    while i < k
      invariant 0 <= i && (k >= 0 ==> i <= k)
      invariant forall j :: 0 <= j < i ==> CellIs(b, Pos(r, c, d, j), p)
    {
      var pos := Pos(r, c, d, i);
      WindowInside(b, h, w, k, r, c, d, i);
      if b[pos.0][pos.1] != p {
        return false;
      }
      i := i + 1;
    }
    return true;
  }

  /** One direction's nested start loops: rows outermost, columns innermost. */
  method ScanDirection(b: Board, h: int, w: int, p: string, k: int, d: Direction)
    returns (found: bool)
    requires Shaped(b, h, w)
    ensures found == HasWindowIn(b, h, w, p, k, d)
  {
    var r := 0;
    while r < RowEnd(h, k, d)
      invariant 0 <= r
      invariant forall r', c' :: 0 <= r' < r ==> !Run(b, h, w, p, k, r', c', d)
    {
      var c := ColStart(k, d);
      while c < ColEnd(w, k, d)
        invariant ColStart(k, d) <= c
        invariant forall c' :: ColStart(k, d) <= c' < c ==> !Run(b, h, w, p, k, r, c', d)
      {
        var ok := CheckWindow(b, h, w, p, k, r, c, d);
        if ok {
          assert Run(b, h, w, p, k, r, c, d);
          return true;
        }
        c := c + 1;
      }
      r := r + 1;
    }
    return false;
  }

  /** The horizontal, vertical, diagonal and anti-diagonal scans, in that order. */
  method ScanWindows(b: Board, h: int, w: int, p: string, k: int) returns (found: bool)
    requires Shaped(b, h, w)
    ensures found == HasWindow(b, h, w, p, k)
  {
    found := ScanDirection(b, h, w, p, k, Horizontal);
    if found { return; }
    found := ScanDirection(b, h, w, p, k, Vertical);
    if found { return; }
    found := ScanDirection(b, h, w, p, k, Diagonal);
    if found { return; }
    found := ScanDirection(b, h, w, p, k, AntiDiagonal);
  }

  /** With a non-positive window length the empty window at the corner already wins. */
  lemma EmptyWindowWins(b: Board, h: int, w: int, p: string, k: int)
    requires k <= 0 && h >= 0 && w >= 0
    ensures HasWindow(b, h, w, p, k)
  {
    assert Run(b, h, w, p, k, 0, 0, Diagonal);
  }

  /** Writing `v` into one cell gives no other mark `p` a window it did not already have. */
  lemma PlaceOtherKeepsWindows(b: Board, h: int, w: int, r: int, c: int, v: string, p: string, k: int)
    requires InBounds(b, r, c) && p != v && HasWindow(Place(b, r, c, v), h, w, p, k)
    ensures HasWindow(b, h, w, p, k)
  {
    var nb := Place(b, r, c, v);
    forall d | HasWindowIn(nb, h, w, p, k, d)
      ensures HasWindowIn(b, h, w, p, k, d)
    {
      var r0, c0 :| Run(nb, h, w, p, k, r0, c0, d);
      forall i | 0 <= i < k
        ensures CellIs(b, Pos(r0, c0, d, i), p)
      {
        assert CellIs(nb, Pos(r0, c0, d, i), p);
      }
      assert Run(b, h, w, p, k, r0, c0, d);
    }
  }

  /** On an empty board no mark owns a window of one cell or more. */
  lemma EmptyBoardNoWindow(h: int, w: int, p: string, k: int)
    requires k >= 1 && p != EMPTY
    ensures !HasWindow(EmptyBoard(h, w), h, w, p, k)
  {
    var b := EmptyBoard(h, w);
    forall r, c, d | StartOK(h, w, k, r, c, d)
      ensures !Run(b, h, w, p, k, r, c, d)
    {
      assert !CellIs(b, Pos(r, c, d, 0), p);
    }
  }

  /** A window longer than the board fits nowhere. */
  lemma NoRoomNoWindow(b: Board, h: int, w: int, p: string, k: int)
    requires Shaped(b, h, w) && k >= 1 && k > h && k > w
    ensures !HasWindow(b, h, w, p, k)
  {
  }
}
