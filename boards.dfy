/**
 * The 2048 board: a size x size grid of integers (0 is an empty cell), the
 * four directional moves built from the line slide, and the board tests
 * used after every move (stuck test, win test, empty cells).
 */
module Boards {
  import opened Common
  import opened Lines

  type Board = seq<seq<int>>

  /** The value whose first appearance wins the game (`boardHasTarget`'s default target). */
  const WinTile := 2048

  datatype Direction = Up | Down | Left | Right {
    /** Rows are slid for left and right, columns for the rest. */
    predicate Horizontal() { this == Left || this == Right }
    /** Lines are reversed before and after the collapse for right and down. */
    predicate Reversing() { this == Right || this == Down }
  }

  /**
   * How `moveBoard` reads a direction string: "left" and "right" slide rows,
   * every other string slides columns, and only "down" reverses them, so an
   * unknown token moves like "up".
   */
  function Heading(token: string): (d: Direction)
    ensures d == Up <==> token != "left" && token != "right" && token != "down"
    ensures d.Horizontal() <==> token == "left" || token == "right"
    ensures d.Reversing() <==> token == "right" || token == "down"
  {
    if token == "left" then Left
    else if token == "right" then Right
    else if token == "down" then Down
    else Up
  }

  predicate IsSquare(b: Board, n: int)
  {
    n >= 0 && |b| == n && forall r :: 0 <= r < |b| ==> |b[r]| == n
  }

  /** `createEmptyBoard(size)`. */
  function EmptyBoard(n: nat): (b: Board)
    ensures IsSquare(b, n)
  {
    seq(n, _ => Zeros(n))
  }

  function Column(b: Board, c: nat): (col: seq<int>)
    requires forall r :: 0 <= r < |b| ==> c < |b[r]|
    ensures |col| == |b|
  {
    seq(|b|, r requires 0 <= r < |b| => b[r][c])
  }

  /** The lines a move slides: the rows, or the columns read top to bottom. */
  function LinesOf(b: Board, n: nat, d: Direction): (ls: seq<seq<int>>)
    requires IsSquare(b, n)
    ensures |ls| == n && forall i :: 0 <= i < n ==> |ls[i]| == n
  {
    if d.Horizontal() then b else seq(n, c requires 0 <= c < n => Column(b, c))
  }

  function Slides(b: Board, n: nat, d: Direction): (s: seq<Slide>)
    requires IsSquare(b, n)
    ensures |s| == n && forall i :: 0 <= i < n ==> |s[i].line| == n
  {
    SlideAll(LinesOf(b, n, d), d.Reversing())
  }

  /** Every line slid the same way, in order. */
  function SlideAll(ls: seq<seq<int>>, reverse: bool): (s: seq<Slide>)
    ensures |s| == |ls| && forall i :: 0 <= i < |ls| ==> |s[i].line| == |ls[i]|
  {
    if ls == [] then [] else [Slid(ls[0], reverse)] + SlideAll(ls[1..], reverse)
  }

  /** Slide `i` of a move is line `i` slid. */
  lemma SlidesAt(b: Board, n: nat, d: Direction, i: nat)
    requires IsSquare(b, n) && i < n
    ensures Slides(b, n, d)[i] == Slid(LinesOf(b, n, d)[i], d.Reversing())
  {
    SlideAllAt(LinesOf(b, n, d), d.Reversing(), i);
  }

  lemma {:induction false} SlideAllAt(ls: seq<seq<int>>, reverse: bool, i: nat)
    requires i < |ls|
    ensures SlideAll(ls, reverse)[i] == Slid(ls[i], reverse)
  {
    var rest := SlideAll(ls[1..], reverse);
    assert SlideAll(ls, reverse) == [Slid(ls[0], reverse)] + rest;
    if i > 0 {
      SlideAllAt(ls[1..], reverse, i - 1);
      assert ls[1..][i - 1] == ls[i];
    }
  }

  /** The score of the first `k` slides, added up in order (`gainedTotal += result.gained`). */
  function GainedBefore(s: seq<Slide>, k: nat): int
    requires k <= |s|
  {
    if k == 0 then 0 else GainedBefore(s, k - 1) + s[k - 1].gained
  }

  /** The lines of the first `k` slides. */
  function LinesBefore(s: seq<Slide>, k: nat): (ls: seq<seq<int>>)
    requires k <= |s|
    ensures |ls| == k && forall i :: 0 <= i < k ==> ls[i] == s[i].line
  {
    if k == 0 then [] else LinesBefore(s, k - 1) + [s[k - 1].line]
  }

  /** The square grid whose column `c` is `ls[c]`. */
  function Transpose(ls: seq<seq<int>>, n: nat): (b: Board)
    requires |ls| == n && forall c :: 0 <= c < n ==> |ls[c]| == n
    ensures IsSquare(b, n)
  {
    seq(n, r requires 0 <= r < n => seq(n, c requires 0 <= c < n => ls[c][r]))
  }

  /** Whether one of the first `k` slides moved its line. */
  function MovedBefore(s: seq<Slide>, k: nat): bool
    requires k <= |s|
  {
    k > 0 && (MovedBefore(s, k - 1) || s[k - 1].moved)
  }

  datatype MoveOutcome = MoveOutcome(board: Board, moved: bool, gained: int)

  /** What `moveBoard(direction)` leaves on the board and returns. */
  function Moved(b: Board, n: nat, d: Direction): MoveOutcome
    requires IsSquare(b, n)
  {
    var s := Slides(b, n, d);
    var lines := LinesBefore(s, n);
    MoveOutcome(if d.Horizontal() then lines else Transpose(lines, n), MovedBefore(s, n), GainedBefore(s, n))
  }

  /** One step of `canMove`'s scan: an empty cell, or an equal right or lower neighbour. */
  predicate CellMovable(b: Board, r: int, c: int)
    requires IsSquare(b, |b|) && 0 <= r < |b| && 0 <= c < |b|
  {
    b[r][c] == 0
    || (c + 1 < |b| && b[r][c + 1] == b[r][c])
    || (r + 1 < |b| && b[r + 1][c] == b[r][c])
  }

  predicate Movable(b: Board)
    requires IsSquare(b, |b|)
  {
    exists r, c :: 0 <= r < |b| && 0 <= c < |b| && CellMovable(b, r, c)
  }

  predicate HasCellAtLeast(b: Board, target: int)
  {
    exists r, c :: 0 <= r < |b| && 0 <= c < |b[r]| && b[r][c] >= target
  }

  datatype Cell = Cell(r: nat, c: nat)

  predicate IsEmptyCell(b: Board, cell: Cell)
  {
    cell.r < |b| && cell.c < |b[cell.r]| && b[cell.r][cell.c] == 0
  }

  predicate HasEmptyCell(b: Board)
  {
    exists r, c :: 0 <= r < |b| && 0 <= c < |b[r]| && b[r][c] == 0
  }

  /** Row-major order, the order in which `getEmptyCells` lists cells. */
  predicate Before(x: Cell, y: Cell)
  {
    x.r < y.r || (x.r == y.r && x.c < y.c)
  }

  /** The board with `v` written into `cell`. */
  function Place(b: Board, cell: Cell, v: int): Board
    requires cell.r < |b| && cell.c < |b[cell.r]|
  {
    b[cell.r := b[cell.r][cell.c := v]]
  }

  /** `after` is `before` with a 2 or a 4 written into the empty cell `cell`. */
  predicate Spawned(before: Board, after: Board, cell: Cell)
  {
    IsEmptyCell(before, cell) && (after == Place(before, cell, 2) || after == Place(before, cell, 4))
  }

  /** How many cells hold a tile. */
  function TileCount(b: Board): nat
  {
    if b == [] then 0 else |NonZeros(b[0])| + TileCount(b[1..])
  }

  /** Every cell is empty or holds a 2 or a 4. */
  predicate OnlyStarterTiles(b: Board)
  {
    forall r, c :: 0 <= r < |b| && 0 <= c < |b[r]| ==> b[r][c] in {0, 2, 4}
  }

  // ---------------------------------------------------------------------
  // The board scans of the source

  /** `canMove`: scan every cell for an empty cell or an equal right or lower neighbour. */
  method CanMove(b: Board) returns (ok: bool)
    requires IsSquare(b, |b|)
    ensures ok <==> Movable(b)
  {
    var size := |b|;
    var r := 0;
    while r < size
      invariant 0 <= r <= size
      invariant forall rr, c :: 0 <= rr < r && 0 <= c < size ==> !CellMovable(b, rr, c)
    {
      var c := 0;
      while c < size
        invariant 0 <= c <= size
        invariant forall rr, cc :: 0 <= rr < r && 0 <= cc < size ==> !CellMovable(b, rr, cc)
        invariant forall cc :: 0 <= cc < c ==> !CellMovable(b, r, cc)
      {
        var value := b[r][c];
        if CellMovable(b, r, c) {
          assert value == 0 || (c + 1 < size && b[r][c + 1] == value) || (r + 1 < size && b[r + 1][c] == value);
        }
        if value == 0 {
          return true;
        }
        if c + 1 < size && b[r][c + 1] == value {
          return true;
        }
        if r + 1 < size && b[r + 1][c] == value {
          return true;
        }
        c := c + 1;
      }
      r := r + 1;
    }
    return false;
  }

  /** `boardHasTarget`: is some cell at least `target`. */
  method BoardHasTarget(b: Board, target: int) returns (found: bool)
    ensures found <==> HasCellAtLeast(b, target)
  {
    var r := 0;
    while r < |b|
      invariant 0 <= r <= |b|
      invariant forall rr, c :: 0 <= rr < r && 0 <= c < |b[rr]| ==> b[rr][c] < target
    {
      var row := b[r];
      if exists c :: 0 <= c < |row| && row[c] >= target {
        return true;
      }
      r := r + 1;
    }
    return false;
  }

  /** `getEmptyCells`: every empty cell, once, in row-major order. */
  method GetEmptyCells(b: Board) returns (cells: seq<Cell>)
    ensures forall k :: 0 <= k < |cells| ==> IsEmptyCell(b, cells[k])
    ensures forall cell :: IsEmptyCell(b, cell) ==> cell in cells
    ensures forall k, l :: 0 <= k < l < |cells| ==> Before(cells[k], cells[l])
    ensures cells == [] <==> !HasEmptyCell(b)
  {
    cells := [];
    var r := 0;
    while r < |b|
      invariant 0 <= r <= |b|
      invariant forall k :: 0 <= k < |cells| ==> IsEmptyCell(b, cells[k]) && cells[k].r < r
      invariant forall cell :: IsEmptyCell(b, cell) && cell.r < r ==> cell in cells
      invariant forall k, l :: 0 <= k < l < |cells| ==> Before(cells[k], cells[l])
    {
      var c := 0;
      while c < |b[r]|
        invariant 0 <= c <= |b[r]|
        invariant forall k :: 0 <= k < |cells| ==> IsEmptyCell(b, cells[k])
        invariant forall k :: 0 <= k < |cells| ==> cells[k].r < r || (cells[k].r == r && cells[k].c < c)
        invariant forall cell :: IsEmptyCell(b, cell) && (cell.r < r || (cell.r == r && cell.c < c)) ==> cell in cells
        invariant forall k, l :: 0 <= k < l < |cells| ==> Before(cells[k], cells[l])
      {
        if b[r][c] == 0 {
          cells := cells + [Cell(r, c)];
        }
        c := c + 1;
      }
      r := r + 1;
    }
    if HasEmptyCell(b) {
      var rr, cc :| 0 <= rr < |b| && 0 <= cc < |b[rr]| && b[rr][cc] == 0;
      assert IsEmptyCell(b, Cell(rr, cc));
    }
    if cells != [] {
      var first := cells[0];
      assert b[first.r][first.c] == 0;
    }
  }

  /** The row branch of `moveBoard` ("left", "right"): slide each row and keep the ones that moved. */
  method SlideRows(b: Board, n: nat, d: Direction) returns (nb: Board, moved: bool, gained: int)
    requires IsSquare(b, n) && d.Horizontal()
    ensures RowsDone(Slides(b, n, d), b, n, nb, moved, gained)
  {
    nb := b;
    moved := false;
    gained := 0;
    for r := 0 to n
      invariant RowsDone(Slides(b, n, d), b, r, nb, moved, gained)
    {
      SlidesRowAt(b, n, d, r);
      nb, moved, gained := SlideRowInPlace(b, n, d, r, nb, moved, gained, Slides(b, n, d));
    }
  }

  /**
   * One pass of the row loop: slide row `r`, write it back if it moved, add
   * its score. `s` holds the slides of the whole move.
   */
  method SlideRowInPlace(b: Board, n: nat, d: Direction, r: nat, nb: Board, moved: bool, gained: int,
                         ghost s: seq<Slide>)
    returns (nb': Board, moved': bool, gained': int)
    requires IsSquare(b, n) && r < n && |s| == n
    requires s[r] == Slid(b[r], d == Right) && (s[r].moved <==> s[r].line != b[r])
    requires RowsDone(s, b, r, nb, moved, gained)
    ensures RowsDone(s, b, r + 1, nb', moved', gained')
  {
    RowStillUnread(s, b, r, nb, moved, gained);
    var result := SlideRow(nb[r], d == Right);
    RowStep(s, b, r, nb, moved, gained, result);
    nb', moved' := nb, moved;
    if result.moved {
      nb' := nb[r := result.line];
      moved' := true;
    }
    gained' := gained + result.gained;
  }

  /** The state of the row loop after `r` rows: those rows slid, the rest untouched. */
  ghost predicate RowsDone(s: seq<Slide>, b: Board, r: nat, nb: Board, moved: bool, gained: int)
    requires |s| == |b| && r <= |b|
  {
    && |nb| == |b|
    && nb[..r] == LinesBefore(s, r)
    && nb[r..] == b[r..]
    && moved == MovedBefore(s, r)
    && gained == GainedBefore(s, r)
  }

  lemma RowStillUnread(s: seq<Slide>, b: Board, r: nat, nb: Board, moved: bool, gained: int)
    requires |s| == |b| && r < |b|
    requires RowsDone(s, b, r, nb, moved, gained)
    ensures nb[r] == b[r]
  {
  }

  lemma RowStep(s: seq<Slide>, b: Board, r: nat, nb: Board, moved: bool, gained: int, result: Slide)
    requires |s| == |b| && r < |b| && result == s[r]
    requires result.moved <==> result.line != b[r]
    requires RowsDone(s, b, r, nb, moved, gained)
    ensures result.moved ==> RowsDone(s, b, r + 1, nb[r := result.line], true, gained + result.gained)
    ensures !result.moved ==> RowsDone(s, b, r + 1, nb, moved, gained + result.gained)
  {
  }

  /** The column branch of `moveBoard` (every other direction): read each column, slide it, write it back. */
  method SlideColumns(b: Board, n: nat, d: Direction) returns (nb: Board, moved: bool, gained: int)
    requires IsSquare(b, n) && !d.Horizontal()
    ensures ColumnsDone(Slides(b, n, d), b, n, n, nb, moved, gained)
  {
    nb := b;
    moved := false;
    gained := 0;
    for c := 0 to n
      invariant ColumnsDone(Slides(b, n, d), b, n, c, nb, moved, gained)
    {
      SlidesColumnAt(b, n, d, c);
      nb, moved, gained := SlideColumnInPlace(b, n, d, c, nb, moved, gained, Slides(b, n, d));
    }
  }

  /**
   * One pass of the column loop: copy column `c` out, slide it, write it
   * back, add its score. `s` holds the slides of the whole move.
   */
  method SlideColumnInPlace(b: Board, n: nat, d: Direction, c: nat, nb: Board, moved: bool, gained: int,
                            ghost s: seq<Slide>)
    returns (nb': Board, moved': bool, gained': int)
    requires IsSquare(b, n) && c < n && |s| == n
    requires s[c] == Slid(Column(b, c), d == Down) && (s[c].moved <==> s[c].line != Column(b, c))
    requires ColumnsDone(s, b, n, c, nb, moved, gained)
    ensures ColumnsDone(s, b, n, c + 1, nb', moved', gained')
  {
    var column := ReadColumn(nb, n, c);
    ColumnStillUnread(s, b, n, c, nb, moved, gained);
    var result := SlideRow(column, d == Down);
    nb' := WriteColumn(nb, n, c, result.line);
    ColumnStep(s, b, n, c, nb, moved, gained, result, nb');
    moved' := moved || result.moved;
    gained' := gained + result.gained;
  }

  /** The state of the column loop after `c` columns: those columns slid, the rest untouched. */
  ghost predicate ColumnsDone(s: seq<Slide>, b: Board, n: nat, c: nat, nb: Board, moved: bool, gained: int)
    requires IsSquare(b, n) && |s| == n && c <= n
  {
    && IsSquare(nb, n)
    && (forall i :: 0 <= i < n ==> |s[i].line| == n)
    && (forall r, cc :: 0 <= r < n && 0 <= cc < c ==> nb[r][cc] == s[cc].line[r])
    && (forall r, cc :: 0 <= r < n && c <= cc < n ==> nb[r][cc] == b[r][cc])
    && moved == MovedBefore(s, c)
    && gained == GainedBefore(s, c)
  }

  lemma ColumnStillUnread(s: seq<Slide>, b: Board, n: nat, c: nat, nb: Board, moved: bool, gained: int)
    requires IsSquare(b, n) && |s| == n && c < n
    requires ColumnsDone(s, b, n, c, nb, moved, gained)
    ensures Column(nb, c) == Column(b, c)
  {
  }

  lemma ColumnStep(s: seq<Slide>, b: Board, n: nat, c: nat, nb: Board, moved: bool, gained: int,
                   result: Slide, written: Board)
    requires IsSquare(b, n) && |s| == n && c < n && result == s[c]
    requires result.moved <==> result.line != Column(b, c)
    requires ColumnsDone(s, b, n, c, nb, moved, gained)
    requires IsSquare(written, n)
    requires forall r :: 0 <= r < n ==> written[r][c] == result.line[r]
    requires forall r, cc :: 0 <= r < n && 0 <= cc < n && cc != c ==> written[r][cc] == nb[r][cc]
    ensures result.moved ==> ColumnsDone(s, b, n, c + 1, written, true, gained + result.gained)
    ensures !result.moved ==> ColumnsDone(s, b, n, c + 1, written, moved, gained + result.gained)
  {
  }

  /** Slide `i` reports `moved` exactly when it changed its line. */
  lemma SlidesMovedAt(b: Board, n: nat, d: Direction, i: nat)
    requires IsSquare(b, n) && i < n
    ensures Slides(b, n, d)[i].moved <==> Slides(b, n, d)[i].line != LinesOf(b, n, d)[i]
  {
    SlidesAt(b, n, d, i);
    SlidMovedIff(LinesOf(b, n, d)[i], d.Reversing());
  }

  /** Slide `r` of a row move is row `r` slid, and it reports `moved` exactly when the row changed. */
  lemma SlidesRowAt(b: Board, n: nat, d: Direction, r: nat)
    requires IsSquare(b, n) && d.Horizontal() && r < n
    ensures Slides(b, n, d)[r] == Slid(b[r], d == Right)
    ensures Slides(b, n, d)[r].moved <==> Slides(b, n, d)[r].line != b[r]
  {
    SlidesAt(b, n, d, r);
    SlidMovedIff(b[r], d == Right);
  }

  /** Slide `c` of a column move is column `c` slid, and it reports `moved` exactly when the column changed. */
  lemma SlidesColumnAt(b: Board, n: nat, d: Direction, c: nat)
    requires IsSquare(b, n) && !d.Horizontal() && c < n
    ensures Slides(b, n, d)[c] == Slid(Column(b, c), d == Down)
    ensures Slides(b, n, d)[c].moved <==> Slides(b, n, d)[c].line != Column(b, c)
  {
    SlidesAt(b, n, d, c);
    SlidMovedIff(Column(b, c), d == Down);
  }

  lemma {:induction false} MovedBeforeExists(s: seq<Slide>, k: nat)
    requires k <= |s|
    ensures MovedBefore(s, k) <==> exists i :: 0 <= i < k && s[i].moved
  {
    if k > 0 {
      MovedBeforeExists(s, k - 1);
    }
  }

  /** The finished row loop leaves the board, the flag and the score of a row move. */
  lemma MovedRowsParts(b: Board, n: nat, d: Direction, nb: Board, moved: bool, gained: int)
    requires IsSquare(b, n) && d.Horizontal()
    requires RowsDone(Slides(b, n, d), b, n, nb, moved, gained)
    ensures MoveOutcome(nb, moved, gained) == Moved(b, n, d)
  {
    assert nb == nb[..n];
  }

  /** The finished column loop leaves the board, the flag and the score of a column move. */
  lemma MovedColumnsParts(b: Board, n: nat, d: Direction, nb: Board, moved: bool, gained: int)
    requires IsSquare(b, n) && !d.Horizontal()
    requires ColumnsDone(Slides(b, n, d), b, n, n, nb, moved, gained)
    ensures MoveOutcome(nb, moved, gained) == Moved(b, n, d)
  {
    var m := Moved(b, n, d);
    forall r | 0 <= r < n
      ensures nb[r] == m.board[r]
    {
    }
  }

  /** The inner loop that copies column `c` out, top to bottom. */
  method ReadColumn(b: Board, n: nat, c: nat) returns (column: seq<int>)
    requires IsSquare(b, n) && c < n
    ensures column == Column(b, c)
  {
    column := [];
    var r := 0;
    while r < n
      invariant 0 <= r <= n
      invariant column == Column(b, c)[..r]
    {
      column := column + [b[r][c]];
      r := r + 1;
    }
  }

  /** The inner loop that writes `line` back into column `c`, changing no other column. */
  method WriteColumn(b: Board, n: nat, c: nat, line: seq<int>) returns (nb: Board)
    requires IsSquare(b, n) && c < n && |line| == n
    ensures IsSquare(nb, n)
    ensures forall r :: 0 <= r < n ==> nb[r][c] == line[r]
    ensures forall r, cc :: 0 <= r < n && 0 <= cc < n && cc != c ==> nb[r][cc] == b[r][cc]
  {
    nb := b;
    var r := 0;
    while r < n
      invariant 0 <= r <= n
      invariant IsSquare(nb, n)
      invariant forall rr :: 0 <= rr < r ==> nb[rr][c] == line[rr]
      invariant forall rr :: r <= rr < n ==> nb[rr][c] == b[rr][c]
      invariant forall rr, cc :: 0 <= rr < n && 0 <= cc < n && cc != c ==> nb[rr][cc] == b[rr][cc]
    {
      nb := nb[r := nb[r][c := line[r]]];
      r := r + 1;
    }
  }

  /**
   * `addRandomTile(board)`: a 2 or a 4 in some empty cell, or nothing on a
   * full board. The cell and the value are the source's random choices.
   */
  method AddRandomTile(b: Board) returns (nb: Board, spot: Option<Cell>)
    ensures spot.None? <==> !HasEmptyCell(b)
    ensures spot.None? ==> nb == b
    ensures spot.Some? ==> Spawned(b, nb, spot.value)
  {
    var empty := GetEmptyCells(b);
    if |empty| == 0 {
      return b, None;
    }
    var k :| 0 <= k < |empty|;
    var cell := empty[k];
    var four: bool :| true;
    nb := Place(b, cell, if four then 4 else 2);
    spot := Some(cell);
  }

  // ---------------------------------------------------------------------
  // The promises of moveBoard

  /** A move keeps the board size x size. */
  lemma MovedShape(b: Board, n: nat, d: Direction)
    requires IsSquare(b, n)
    ensures IsSquare(Moved(b, n, d).board, n)
  {
  }

  /** The new row r (left/right) or column r (up/down) is the slid line r. */
  lemma MovedLine(b: Board, n: nat, d: Direction, i: nat)
    requires IsSquare(b, n) && i < n
    ensures LinesOf(Moved(b, n, d).board, n, d)[i] == Slides(b, n, d)[i].line
  {
    MovedShape(b, n, d);
  }

  /** A move reports `moved` exactly when the board changed. */
  lemma MovedIffChanged(b: Board, n: nat, d: Direction)
    requires IsSquare(b, n)
    ensures Moved(b, n, d).moved <==> Moved(b, n, d).board != b
  {
    var m := Moved(b, n, d);
    var s := Slides(b, n, d);
    var ls := LinesOf(b, n, d);
    MovedShape(b, n, d);
    MovedBeforeExists(s, n);
    if m.moved {
      var i :| 0 <= i < n && s[i].moved;
      MovedLine(b, n, d, i);
      SlidesMovedAt(b, n, d, i);
      assert LinesOf(m.board, n, d)[i] != ls[i];
    } else {
      forall i | 0 <= i < n
        ensures LinesOf(m.board, n, d)[i] == ls[i]
      {
        MovedLine(b, n, d, i);
        SlidesMovedAt(b, n, d, i);
      }
      if d.Horizontal() {
        assert m.board == b;
      } else {
        forall r | 0 <= r < n
          ensures m.board[r] == b[r]
        {
          forall c | 0 <= c < n
            ensures m.board[r][c] == b[r][c]
          {
            assert LinesOf(m.board, n, d)[c] == ls[c];
            assert LinesOf(m.board, n, d)[c][r] == m.board[r][c];
          }
        }
        assert m.board == b;
      }
    }
  }

  lemma {:induction false} GainedBeforeStill(s: seq<Slide>, k: nat)
    requires k <= |s|
    requires forall i :: 0 <= i < |s| ==> s[i].gained == 0
    ensures GainedBefore(s, k) == 0
  {
    if k > 0 {
      GainedBeforeStill(s, k - 1);
    }
  }

  /** A move that reports no movement leaves every line as it was and earns nothing. */
  lemma MovedStill(b: Board, n: nat, d: Direction)
    requires IsSquare(b, n)
    requires !Moved(b, n, d).moved
    ensures Moved(b, n, d).board == b && Moved(b, n, d).gained == 0
  {
    MovedIffChanged(b, n, d);
    var s := Slides(b, n, d);
    MovedBeforeExists(s, n);
    forall i | 0 <= i < |s|
      ensures s[i].gained == 0
    {
      SlidesAt(b, n, d, i);
      SlidStill(LinesOf(b, n, d)[i], d.Reversing());
    }
    GainedBeforeStill(s, n);
  }

  /** A move that moved nothing can be repeated in the same direction with the same result. */
  lemma NoMoveIsStable(b: Board, n: nat, d: Direction)
    requires IsSquare(b, n)
    requires !Moved(b, n, d).moved
    ensures Moved(b, n, d).board == b && !Moved(Moved(b, n, d).board, n, d).moved
  {
    MovedStill(b, n, d);
  }

  /** A move that moves leaves an empty cell, so the spawn that follows it always finds room. */
  lemma MovedLeavesGap(b: Board, n: nat, d: Direction)
    requires IsSquare(b, n)
    requires Moved(b, n, d).moved
    ensures HasEmptyCell(Moved(b, n, d).board)
  {
    var m := Moved(b, n, d);
    var s := Slides(b, n, d);
    MovedBeforeExists(s, n);
    var i :| 0 <= i < n && s[i].moved;
    SlidesAt(b, n, d, i);
    SlidLeavesGap(LinesOf(b, n, d)[i], d.Reversing());
    var k :| 0 <= k < n && s[i].line[k] == 0;
    MovedShape(b, n, d);
    if d.Horizontal() {
      assert m.board[i][k] == 0;
    } else {
      assert m.board[k][i] == 0;
    }
  }

  /** When `canMove` is false no direction moves anything. */
  lemma StuckBoardCannotMove(b: Board, d: Direction)
    requires IsSquare(b, |b|)
    requires !Movable(b)
    ensures !Moved(b, |b|, d).moved
  {
    var n := |b|;
    var s := Slides(b, n, d);
    forall i | 0 <= i < n
      ensures !s[i].moved
    {
      StuckLine(b, d, i);
    }
    MovedBeforeExists(s, n);
  }

  /** On a stuck board every line is full with distinct neighbours, so its slide does not move. */
  lemma StuckLine(b: Board, d: Direction, i: nat)
    requires IsSquare(b, |b|) && i < |b|
    requires !Movable(b)
    ensures !Slides(b, |b|, d)[i].moved
  {
    var n := |b|;
    var line := LinesOf(b, n, d)[i];
    forall k | 0 <= k < n
      ensures line[k] != 0 && (k + 1 < n ==> line[k] != line[k + 1])
    {
      if d.Horizontal() {
        assert !CellMovable(b, i, k);
      } else {
        assert line[k] == b[k][i];
        assert !CellMovable(b, k, i);
      }
    }
    SlidesAt(b, n, d, i);
    SlidFixed(line, d.Reversing());
  }

  /** A line of a move that moved nothing did not slide. */
  lemma StillLine(b: Board, d: Direction, i: nat)
    requires IsSquare(b, |b|) && i < |b|
    requires !Moved(b, |b|, d).moved
    ensures !Slid(LinesOf(b, |b|, d)[i], d.Reversing()).moved
  {
    MovedBeforeExists(Slides(b, |b|, d), |b|);
    SlidesAt(b, |b|, d, i);
  }

  /** Every row slides in neither direction. */
  predicate RowsStill(b: Board)
  {
    forall r :: 0 <= r < |b| ==> !Slid(b[r], false).moved && !Slid(b[r], true).moved
  }

  /** Every column slides in neither direction. */
  predicate ColumnsStill(b: Board)
    requires IsSquare(b, |b|)
  {
    forall c :: 0 <= c < |b| ==> !Slid(Column(b, c), false).moved && !Slid(Column(b, c), true).moved
  }

  /** When neither `left` nor `right` moves anything, no row slides. */
  lemma NoMoveStillRows(b: Board)
    requires IsSquare(b, |b|)
    requires !Moved(b, |b|, Left).moved && !Moved(b, |b|, Right).moved
    ensures RowsStill(b)
  {
    forall r | 0 <= r < |b|
      ensures !Slid(b[r], false).moved && !Slid(b[r], true).moved
    {
      StillLine(b, Left, r);
      StillLine(b, Right, r);
      assert LinesOf(b, |b|, Left)[r] == LinesOf(b, |b|, Right)[r] == b[r];
    }
  }

  /** When neither `up` nor `down` moves anything, no column slides. */
  lemma NoMoveStillColumns(b: Board)
    requires IsSquare(b, |b|)
    requires !Moved(b, |b|, Up).moved && !Moved(b, |b|, Down).moved
    ensures ColumnsStill(b)
  {
    forall c | 0 <= c < |b|
      ensures !Slid(Column(b, c), false).moved && !Slid(Column(b, c), true).moved
    {
      StillLine(b, Up, c);
      StillLine(b, Down, c);
      assert LinesOf(b, |b|, Up)[c] == LinesOf(b, |b|, Down)[c] == Column(b, c);
    }
  }

  /** Row `r` of a board whose rows do not slide is empty, or full with no equal neighbours. */
  lemma StillRow(b: Board, r: nat)
    requires IsSquare(b, |b|) && r < |b| && RowsStill(b)
    ensures || (forall c :: 0 <= c < |b| ==> b[r][c] == 0)
            || (NoZeros(b[r]) && forall c :: 0 <= c < |b| - 1 ==> b[r][c] != b[r][c + 1])
  {
    StuckLineShape(b[r]);
  }

  /** Column `c` of a board whose columns do not slide is empty, or full with no equal neighbours. */
  lemma StillColumn(b: Board, c: nat)
    requires IsSquare(b, |b|) && c < |b| && ColumnsStill(b)
    ensures || (forall r :: 0 <= r < |b| ==> b[r][c] == 0)
            || ((forall r :: 0 <= r < |b| ==> b[r][c] != 0)
                && (forall r :: 0 <= r < |b| - 1 ==> b[r][c] != b[r + 1][c]))
  {
    var col := Column(b, c);
    StuckLineShape(col);
    ColumnShape(b, c, col);
  }

  /** Facts about column `c` as a line are facts about the cells of the board. */
  lemma ColumnShape(b: Board, c: nat, col: seq<int>)
    requires IsSquare(b, |b|) && c < |b| && col == Column(b, c)
    ensures (forall i :: 0 <= i < |col| ==> col[i] == 0) ==> forall r :: 0 <= r < |b| ==> b[r][c] == 0
    ensures NoZeros(col) ==> forall r :: 0 <= r < |b| ==> b[r][c] != 0
    ensures (forall i :: 0 <= i < |col| - 1 ==> col[i] != col[i + 1])
            ==> forall r :: 0 <= r < |b| - 1 ==> b[r][c] != b[r + 1][c]
  {
    assert forall r :: 0 <= r < |b| ==> col[r] == b[r][c];
  }

  /** A board with a tile has a non-empty cell. */
  lemma {:induction false} TileOnBoard(b: Board) returns (r: nat, c: nat)
    requires TileCount(b) > 0
    ensures r < |b| && c < |b[r]| && b[r][c] != 0
  {
    if |NonZeros(b[0])| > 0 {
      r := 0;
      c := TileInLine(b[0]);
    } else {
      var r', c' := TileOnBoard(b[1..]);
      r, c := r' + 1, c';
    }
  }

  /** A board with a tile whose rows and columns all stay put is full. */
  lemma StillBoardFull(b: Board)
    requires IsSquare(b, |b|) && RowsStill(b) && ColumnsStill(b) && TileCount(b) > 0
    ensures forall r, c :: 0 <= r < |b| && 0 <= c < |b| ==> b[r][c] != 0
  {
    var r0, c0 := TileOnBoard(b);
    StillRow(b, r0);
    forall r, c | 0 <= r < |b| && 0 <= c < |b|
      ensures b[r][c] != 0
    {
      assert b[r0][c] != 0;
      StillColumn(b, c);
    }
  }

  /** A board with a tile whose rows and columns all stay put is stuck. */
  lemma StillBoardIsStuck(b: Board)
    requires IsSquare(b, |b|) && RowsStill(b) && ColumnsStill(b) && TileCount(b) > 0
    ensures !Movable(b)
  {
    StillBoardFull(b);
    forall r, c | 0 <= r < |b| && 0 <= c < |b|
      ensures !CellMovable(b, r, c)
    {
      StillColumn(b, c);
      StillRow(b, r);
    }
  }

  /**
   * A board with a tile that `canMove` accepts moves in some direction: the
   * converse of `StuckBoardCannotMove`. (A board without any tile is
   * accepted by `canMove`, yet no direction moves it.)
   */
  lemma MovableBoardMoves(b: Board)
    requires IsSquare(b, |b|) && Movable(b) && TileCount(b) > 0
    ensures exists d :: Moved(b, |b|, d).moved
  {
    if forall d :: !Moved(b, |b|, d).moved {
      NoMoveStillRows(b);
      NoMoveStillColumns(b);
      StillBoardIsStuck(b);
      assert false;
    }
  }

  /** Once a board holds a tile, `canMove` is false exactly when no direction moves anything. */
  lemma GameOverIffNoMove(b: Board)
    requires IsSquare(b, |b|) && TileCount(b) > 0
    ensures !Movable(b) <==> forall d :: !Moved(b, |b|, d).moved
  {
    if !Movable(b) {
      forall d
        ensures !Moved(b, |b|, d).moved
      {
        StuckBoardCannotMove(b, d);
      }
    } else {
      MovableBoardMoves(b);
    }
  }

  // ---------------------------------------------------------------------
  // Tiles stay powers of two

  /** Every cell is empty or a power-of-two tile. */
  predicate PowerBoard(b: Board)
  {
    forall r :: 0 <= r < |b| ==> PowerLine(b[r])
  }

  /** A move keeps every tile a power of two. */
  lemma MovedKeepsPowers(b: Board, n: nat, d: Direction)
    requires IsSquare(b, n) && PowerBoard(b)
    ensures PowerBoard(Moved(b, n, d).board)
  {
    var m := Moved(b, n, d).board;
    MovedShape(b, n, d);
    forall i | 0 <= i < n
      ensures PowerLine(LinesOf(m, n, d)[i])
    {
      var line := LinesOf(b, n, d)[i];
      assert PowerLine(line) by {
        if !d.Horizontal() {
          assert forall r :: 0 <= r < n ==> line[r] == b[r][i];
        }
      }
      SlidesAt(b, n, d, i);
      SlidKeepsPowers(line, d.Reversing());
      MovedLine(b, n, d, i);
    }
    forall r | 0 <= r < n
      ensures PowerLine(m[r])
    {
      if d.Horizontal() {
        assert LinesOf(m, n, d)[r] == m[r];
      } else {
        forall c | 0 <= c < n
          ensures m[r][c] == 0 || IsPowerTile(m[r][c])
        {
          assert LinesOf(m, n, d)[c][r] == m[r][c];
        }
      }
    }
  }

  /** A spawn keeps every tile a power of two, and a board of 2s and 4s is one. */
  lemma SpawnedKeepsPowers(before: Board, after: Board, cell: Cell)
    requires Spawned(before, after, cell)
    ensures PowerBoard(before) ==> PowerBoard(after)
    ensures OnlyStarterTiles(after) ==> PowerBoard(after)
  {
    assert IsPowerTile(4) by {
      assert IsPowerTile(2);
    }
  }

  // ---------------------------------------------------------------------
  // Tile counting, for the spawns

  lemma {:induction false} NonZerosPlace(row: seq<int>, c: nat, v: int)
    requires c < |row| && row[c] == 0 && v != 0
    ensures |NonZeros(row[c := v])| == |NonZeros(row)| + 1
  {
    if c == 0 {
      assert row[c := v][1..] == row[1..];
    } else {
      assert row[c := v][1..] == row[1..][c - 1 := v];
      NonZerosPlace(row[1..], c - 1, v);
    }
  }

  /** Writing a tile into an empty cell adds exactly one tile. */
  lemma {:induction false} TileCountPlace(b: Board, cell: Cell, v: int)
    requires IsEmptyCell(b, cell) && v != 0
    ensures TileCount(Place(b, cell, v)) == TileCount(b) + 1
  {
    if cell.r == 0 {
      NonZerosPlace(b[0], cell.c, v);
      assert Place(b, cell, v)[1..] == b[1..];
    } else {
      var rest := Cell(cell.r - 1, cell.c);
      assert Place(b, cell, v)[1..] == Place(b[1..], rest, v);
      TileCountPlace(b[1..], rest, v);
    }
  }

  lemma {:induction false} TileCountEmpty(n: nat, rows: nat)
    requires rows <= n
    ensures TileCount(EmptyBoard(n)[..rows]) == 0
  {
    if rows > 0 {
      NonZerosOfZeros(n);
      assert EmptyBoard(n)[..rows][1..] == EmptyBoard(n)[..rows - 1][..] by {
        assert forall k :: 0 <= k < rows - 1 ==> EmptyBoard(n)[..rows][1..][k] == Zeros(n);
      }
      TileCountEmpty(n, rows - 1);
    }
  }

  /** A fresh board holds no tile. */
  lemma EmptyBoardHasNoTiles(n: nat)
    ensures TileCount(EmptyBoard(n)) == 0
  {
    TileCountEmpty(n, n);
    assert EmptyBoard(n)[..n] == EmptyBoard(n);
  }

  /** A spawn keeps the board size x size. */
  lemma SpawnedShape(before: Board, after: Board, cell: Cell, n: nat)
    requires IsSquare(before, n) && Spawned(before, after, cell)
    ensures IsSquare(after, n)
  {
  }

  /** A spawn adds exactly one tile, a 2 or a 4. */
  lemma SpawnedTiles(before: Board, after: Board, cell: Cell)
    requires Spawned(before, after, cell)
    ensures TileCount(after) == TileCount(before) + 1
    ensures OnlyStarterTiles(before) ==> OnlyStarterTiles(after)
  {
    TileCountPlace(before, cell, after[cell.r][cell.c]);
  }

  /** The examples of a stuck board and of a playable one. */
  lemma MovableExamples()
    ensures !Movable([[2, 4], [4, 2]])
    ensures Movable([[2, 2], [4, 8]])
  {
    var stuck: Board := [[2, 4], [4, 2]];
    assert !CellMovable(stuck, 0, 0) && !CellMovable(stuck, 0, 1);
    assert !CellMovable(stuck, 1, 0) && !CellMovable(stuck, 1, 1);
    assert CellMovable([[2, 2], [4, 8]], 0, 0);
  }
}
