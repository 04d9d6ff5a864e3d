/** The viewer's grid: a flat cell array that output deltas are painted on. */
module Viewer {
  import opened Wire
  import opened Wrappers

  datatype ViewCell = ViewCell(ch: nat, fg: WireColor, bg: WireColor, attrs: Half, reserved: Half)

  const NO_COLOR := WireColor(0, 0, 0, 0)
  const BLANK := ViewCell(' ' as int, NO_COLOR, NO_COLOR, 0, 0)

  function FromWire(w: WireCell): ViewCell {
    ViewCell(w.ch as int, w.fg, w.bg, w.attrs, 0)
  }

  /** What the renderer reads. */
  datatype Picture = Picture(cells: seq<ViewCell>, cols: Half, rows: Half, cursor: Cursor, number: nat, top: nat,
      total: nat)

  predicate Framed(p: Picture) {
    |p.cells| == p.rows * p.cols
  }

  const EMPTY := Picture([], 0, 0, Cursor(0, 0, true), 0, 0, 0)

  /** A row of the wire cut or padded to the grid's width. */
  function Fitted(line: seq<WireCell>, cols: nat): (row: seq<ViewCell>)
    ensures |row| == cols
  {
    seq(cols, i requires 0 <= i < cols => if i < |line| then FromWire(line[i]) else BLANK)
  }

  function PaintRow(cells: seq<ViewCell>, rows: nat, cols: nat, r: nat, row: seq<ViewCell>): (painted: seq<ViewCell>)
    requires |cells| == rows * cols && r < rows && |row| == cols
    ensures |painted| == |cells|
  {
    RowFits(r, rows, cols);
    cells[..r * cols] + row + cells[(r + 1) * cols..]
  }

  function PaintLine(cells: seq<ViewCell>, rows: nat, cols: nat, line: WireRow): (painted: seq<ViewCell>)
    requires |cells| == rows * cols
    ensures |painted| == |cells|
  {
    if line.row < rows then PaintRow(cells, rows, cols, line.row, Fitted(line.cells, cols)) else cells
  }

  function PaintLines(cells: seq<ViewCell>, rows: nat, cols: nat, lines: seq<WireRow>): (painted: seq<ViewCell>)
    requires |cells| == rows * cols
    ensures |painted| == |cells|
  {
    if lines == [] then cells
    else PaintLine(PaintLines(cells, rows, cols, lines[..|lines| - 1]), rows, cols, lines[|lines| - 1])
  }

  function Blanks(n: nat): seq<ViewCell> {
    seq(n, _ => BLANK)
  }

  function Resets(p: Picture, d: Delta): bool {
    d.full || d.cols != p.cols || d.rows != p.rows
  }

  /** The cells a delta is painted on. */
  function Canvas(p: Picture, d: Delta): (cells: seq<ViewCell>)
    requires Framed(p)
    ensures |cells| == d.rows * d.cols
  {
    if Resets(p, d) then Blanks(d.rows * d.cols) else p.cells
  }

  function Applied(p: Picture, d: Delta): (q: Picture)
    requires Framed(p)
    ensures Framed(q)
  {
    Picture(PaintLines(Canvas(p, d), d.rows, d.cols, d.lines), d.cols, d.rows, d.cursor, d.number, d.top, d.total)
  }

  /** The cells with the first i of a row overwritten. */
  function Painted(cells: seq<ViewCell>, start: nat, row: seq<ViewCell>, i: nat): (r: seq<ViewCell>)
    requires i <= |row| && start + |row| <= |cells|
    ensures |r| == |cells|
  {
    cells[..start] + row[..i] + cells[start + i..]
  }

  lemma PaintOne(cells: seq<ViewCell>, start: nat, row: seq<ViewCell>, i: nat)
    requires i < |row| && start + |row| <= |cells|
    ensures Painted(cells, start, row, 0) == cells
    ensures Painted(cells, start, row, i + 1) == Painted(cells, start, row, i)[start + i := row[i]]
  {
  }

  class Grid {
    var cells: array<ViewCell>
    var cols: Half
    var rows: Half
    var cursor: Cursor
    var number: nat
    var top: nat
    var total: nat

    ghost function View(): Picture
      reads this, cells
    {
      Picture(cells[..], cols, rows, cursor, number, top, total)
    }

    constructor ()
      ensures View() == EMPTY && Framed(View()) && fresh(cells)
    {
      cells := new ViewCell[0];
      cols, rows, cursor, number, top, total := 0, 0, Cursor(0, 0, true), 0, 0, 0;
    }

    /** Overwrites one row in place. */
    method Overwrite(line: WireRow)
      requires Framed(View()) && line.row < rows
      modifies cells
      ensures cells[..] == PaintLine(old(cells[..]), rows, cols, line)
      ensures forall r :: 0 <= r < rows && r != line.row ==>
        Row(cells[..], rows, cols, r) == Row(old(cells[..]), rows, cols, r)
      ensures forall i :: 0 <= i < cols && i < |line.cells| ==>
        Row(cells[..], rows, cols, line.row)[i]
        == ViewCell(line.cells[i].ch as int, line.cells[i].fg, line.cells[i].bg, line.cells[i].attrs, 0)
      ensures forall i :: |line.cells| <= i < cols ==>
        CellDraws(Row(cells[..], rows, cols, line.row)[i], Cell(' ', Default, Default, 0))
    {
      ghost var before := cells[..];
      ghost var row := Fitted(line.cells, cols);
      RowFits(line.row, rows, cols);
      var start := line.row * cols;
      for i := 0 to cols
        invariant cells[..] == Painted(before, start, row, i)
      {
        PaintOne(before, start, row, i);
        cells[start + i] := if i < |line.cells| then FromWire(line.cells[i]) else BLANK;
      }
      assert row[..cols] == row;
      assert cells[..] == PaintLine(before, rows, cols, line);
      forall r | 0 <= r < rows
        ensures Row(cells[..], rows, cols, r) == if r == line.row then row else Row(before, rows, cols, r)
      {
        PaintRowIs(before, rows, cols, line.row, row, r);
      }
    }

    method Apply(d: Delta)
      requires Framed(View())
      modifies this, cells
      ensures Framed(View()) && View() == Applied(old(View()), d)
      ensures cells == old(cells) || fresh(cells)
    {
      ghost var canvas := Canvas(View(), d);
      if d.full || d.cols != cols || d.rows != rows {
        cols := d.cols;
        rows := d.rows;
        cells := new ViewCell[rows * cols](_ => BLANK);
        assert cells[..] == Blanks(rows * cols);
      }
      for i := 0 to |d.lines|
        invariant cols == d.cols && rows == d.rows
        invariant cells == old(cells) || fresh(cells)
        invariant cells.Length == rows * cols
        invariant cells[..] == PaintLines(canvas, rows, cols, d.lines[..i])
      {
        var line := d.lines[i];
        assert d.lines[..i + 1][..i] == d.lines[..i];
        if line.row >= rows {
          continue;
        }
        Overwrite(line);
      }
      assert d.lines[..|d.lines|] == d.lines;
      cursor := d.cursor;
      number := d.number;
      top := d.top;
      total := d.total;
    }
  }

  // ----- what a picture should be

  /** A cell of the daemon as the renderer sees it. */
  function ShownCell(c: Cell): ViewCell {
    FromWire(EncodeCell(c))
  }

  function ShownCells(cells: seq<Cell>): seq<ViewCell> {
    seq(|cells|, i requires 0 <= i < |cells| => ShownCell(cells[i]))
  }

  /** The picture of a snapshot under a sequence number. */
  function Shown(snap: Snapshot, n: nat): Picture {
    Picture(ShownCells(snap.cells), snap.cols, snap.rows, snap.cursor, n, snap.top, snap.total)
  }

  // ----- what the renderer draws

  /** A colour as the renderer takes its four bytes. */
  function Decoded(w: WireColor): Option<Color> {
    if w.kind == 0 then Some(Default)
    else if w.kind == 1 then Some(Indexed(w.a))
    else if w.kind == 2 then Some(Rgb(w.a, w.b, w.c))
    else None
  }

  /** Drawing the one is drawing the other: character, colours and attributes. */
  predicate CellDraws(v: ViewCell, c: Cell) {
    v.ch == c.ch as int && Decoded(v.fg) == Some(c.fg) && Decoded(v.bg) == Some(c.bg) && v.attrs == c.attrs
    && v.reserved == 0
  }

  predicate RowDraws(row: seq<ViewCell>, cells: seq<Cell>) {
    |row| == |cells| && forall i :: 0 <= i < |row| ==> CellDraws(row[i], cells[i])
  }

  predicate FrameDraws(p: Picture, snap: Snapshot, n: nat) {
    && p.cols == snap.cols && p.rows == snap.rows && p.cursor == snap.cursor
    && p.number == n && p.top == snap.top && p.total == snap.total
  }

  /** Drawing the picture is drawing the snapshot, under a sequence number. */
  predicate Draws(p: Picture, snap: Snapshot, n: nat) {
    FrameDraws(p, snap, n) && RowDraws(p.cells, snap.cells)
  }

  /** Whatever a picture draws, it draws nothing else. */
  lemma DrawsOne(p: Picture, s: Snapshot, t: Snapshot, n: nat, m: nat)
    requires Draws(p, s, n) && Draws(p, t, m)
    ensures s == t && n == m
  {
    forall i | 0 <= i < |s.cells| ensures s.cells[i] == t.cells[i] {
      assert CellDraws(p.cells[i], s.cells[i]) && CellDraws(p.cells[i], t.cells[i]);
    }
  }

  lemma ShownDraws(snap: Snapshot, n: nat)
    ensures Draws(Shown(snap, n), snap, n)
  {
  }

  lemma ShownRowDraws(snap: Snapshot, r: Half)
    requires Shaped(snap) && r < snap.rows
    ensures RowDraws(Row(ShownCells(snap.cells), snap.rows, snap.cols, r), Row(snap.cells, snap.rows, snap.cols, r))
  {
    RowFits(r, snap.rows, snap.cols);
  }

  lemma Splice<T>(cells: seq<T>, a: nat, b: nat, row: seq<T>, x: nat, y: nat)
    requires a <= b <= |cells| && |row| == b - a && x <= y <= |cells|
    ensures var painted := cells[..a] + row + cells[b..];
            |painted| == |cells| && painted[a..b] == row && (y <= a || b <= x ==> painted[x..y] == cells[x..y])
  {
  }

  lemma PaintRowIs(cells: seq<ViewCell>, rows: nat, cols: nat, r: nat, row: seq<ViewCell>, s: nat)
    requires |cells| == rows * cols && r < rows && |row| == cols && s < rows
    ensures Row(PaintRow(cells, rows, cols, r, row), rows, cols, s) == if s == r then row else Row(cells, rows, cols, s)
  {
    RowFits(r, rows, cols);
    RowFits(s, rows, cols);
    if s < r {
      RowsApart(s, r, rows, cols);
    } else if r < s {
      RowsApart(r, s, rows, cols);
    }
    Splice(cells, r * cols, (r + 1) * cols, row, s * cols, (s + 1) * cols);
  }

  lemma FittedIsShown(snap: Snapshot, r: Half)
    requires Shaped(snap) && r < snap.rows
    ensures Fitted(EncodeRow(snap, r).cells, snap.cols) == Row(ShownCells(snap.cells), snap.rows, snap.cols, r)
  {
    RowFits(r, snap.rows, snap.cols);
    var a, b := Fitted(EncodeRow(snap, r).cells, snap.cols), Row(ShownCells(snap.cells), snap.rows, snap.cols, r);
    forall i | 0 <= i < snap.cols ensures a[i] == b[i] {
      assert Row(snap.cells, snap.rows, snap.cols, r)[i] == snap.cells[r * snap.cols + i];
    }
  }

  /** Painting rows of a snapshot shows exactly those rows of it. */
  lemma {:induction false} PaintLinesAre(cells: seq<ViewCell>, snap: Snapshot, lines: seq<WireRow>, s: Half)
    requires Shaped(snap) && |cells| == snap.rows * snap.cols && s < snap.rows
    requires forall w :: w in lines ==> w.row < snap.rows && w == EncodeRow(snap, w.row)
    ensures Row(PaintLines(cells, snap.rows, snap.cols, lines), snap.rows, snap.cols, s) ==
            if exists w :: w in lines && w.row == s then Row(ShownCells(snap.cells), snap.rows, snap.cols, s)
            else Row(cells, snap.rows, snap.cols, s)
    decreases |lines|
  {
    if lines != [] {
      var init, last := lines[..|lines| - 1], lines[|lines| - 1];
      PaintLinesAre(cells, snap, init, s);
      var mid := PaintLines(cells, snap.rows, snap.cols, init);
      assert last in lines;
      PaintRowIs(mid, snap.rows, snap.cols, last.row, Fitted(last.cells, snap.cols), s);
      FittedIsShown(snap, last.row);
      assert lines == init + [last];
    }
  }

  /** A full delta shows the snapshot, whatever was there before. */
  lemma FullDeltaShows(p: Picture, id: string, snap: Snapshot, n: nat)
    requires Framed(p) && Shaped(snap)
    ensures Applied(p, FullDelta(id, snap, n)) == Shown(snap, n)
    ensures FullDelta(id, snap, n).full && Draws(Applied(p, FullDelta(id, snap, n)), snap, n)
  {
    ShownDraws(snap, n);
    var d := FullDelta(id, snap, n);
    var q := Applied(p, d);
    EncodeRowsAre(snap, Upto(snap.rows));
    forall r | 0 <= r < snap.rows
      ensures Row(q.cells, snap.rows, snap.cols, r) == Row(ShownCells(snap.cells), snap.rows, snap.cols, r)
    {
      assert Upto(snap.rows)[r] == r && EncodeRow(snap, r) in d.lines;
      PaintLinesAre(Canvas(p, d), snap, d.lines, r);
    }
    RowsDetermine(q.cells, ShownCells(snap.cells), snap.rows, snap.cols);
  }

  /** A delta of another size starts from blank cells, one of the same size that is
      not full from what there was. */
  lemma CanvasIs(p: Picture, d: Delta, i: nat)
    requires Framed(p) && i < d.rows * d.cols
    ensures d.full || d.cols != p.cols || d.rows != p.rows ==>
      CellDraws(Canvas(p, d)[i], Cell(' ', Default, Default, 0))
    ensures !d.full && d.cols == p.cols && d.rows == p.rows ==> i < |p.cells| && Canvas(p, d)[i] == p.cells[i]
  {
  }

  /** A line of any length: its cells as far as they fit, then blanks. */
  lemma FittedDraws(line: seq<WireCell>, cols: nat, i: nat)
    requires i < cols
    ensures i < |line| ==>
      var v := Fitted(line, cols)[i]; v.ch == line[i].ch as int && v.fg == line[i].fg && v.bg == line[i].bg
                                      && v.attrs == line[i].attrs
    ensures i >= |line| ==> CellDraws(Fitted(line, cols)[i], Cell(' ', Default, Default, 0))
  {
  }

  /** A partial delta shows the damaged rows of the snapshot and keeps the
      rest of the canvas. */
  lemma LinesDeltaShows(p: Picture, id: string, snap: Snapshot, lines: seq<LineDamage>, n: nat, r: Half)
    requires Framed(p) && Shaped(snap) && r < snap.rows
    ensures var d := DeltaOf(id, snap, Lines(lines), n);
            Row(Applied(p, d).cells, snap.rows, snap.cols, r) ==
            if r in DamagedRows(lines) then Row(ShownCells(snap.cells), snap.rows, snap.cols, r)
            else Row(Canvas(p, d), snap.rows, snap.cols, r)
    ensures var d := DeltaOf(id, snap, Lines(lines), n);
      && FrameDraws(Applied(p, d), snap, n)
      && (r in DamagedRows(lines) ==>
            RowDraws(Row(Applied(p, d).cells, snap.rows, snap.cols, r), Row(snap.cells, snap.rows, snap.cols, r)))
  {
    ShownRowDraws(snap, r);
    var d := DeltaOf(id, snap, Lines(lines), n);
    EncodeRowsAre(snap, DamagedRows(lines));
    PaintLinesAre(Canvas(p, d), snap, d.lines, r);
    if r in DamagedRows(lines) {
      assert EncodeRow(snap, r) in d.lines;
    }
  }
}
