/** Snapshots of a terminal and the messages that carry them to a viewer. */
module Wire {
  import opened Bytes

  type Half = x: int | 0 <= x < 0x1_0000

  datatype Color = Default | Indexed(index: Byte) | Rgb(r: Byte, g: Byte, b: Byte)

  /** `[kind, a, b, c]` as it crosses the wire. */
  datatype WireColor = WireColor(kind: Byte, a: Byte, b: Byte, c: Byte)

  datatype Cell = Cell(ch: char, fg: Color, bg: Color, attrs: Half)

  datatype WireCell = WireCell(ch: char, fg: WireColor, bg: WireColor, attrs: Half)

  datatype Cursor = Cursor(row: Half, col: Half, visible: bool)

  /** Row-major cells with the geometry they were taken at. */
  datatype Snapshot = Snapshot(cols: Half, rows: Half, cursor: Cursor, cells: seq<Cell>, top: nat, total: nat)

  datatype LineDamage = LineDamage(row: Half, left: Half, right: Half)

  datatype Damage = Full | Lines(lines: seq<LineDamage>)

  datatype WireRow = WireRow(row: Half, cells: seq<WireCell>)

  datatype Delta = Delta(
    id: string, cols: Half, rows: Half, full: bool, lines: seq<WireRow>,
    cursor: Cursor, number: nat, top: nat, total: nat)

  predicate Shaped(snap: Snapshot) {
    |snap.cells| == snap.rows * snap.cols
  }

  function EncodeColor(c: Color): WireColor {
    match c
    case Default => WireColor(0, 0, 0, 0)
    case Indexed(i) => WireColor(1, i, 0, 0)
    case Rgb(r, g, b) => WireColor(2, r, g, b)
  }

  function EncodeCell(c: Cell): WireCell {
    WireCell(c.ch, EncodeColor(c.fg), EncodeColor(c.bg), c.attrs)
  }

  function EncodeCells(cells: seq<Cell>): seq<WireCell> {
    seq(|cells|, i requires 0 <= i < |cells| => EncodeCell(cells[i]))
  }

  lemma Distribute(a: nat, b: nat, c: nat)
    ensures (a + b) * c == a * c + b * c && a * c >= 0 && b * c >= 0
  {
  }

  lemma RowFits(r: nat, rows: nat, cols: nat)
    requires r < rows
    ensures 0 <= r * cols <= (r + 1) * cols <= rows * cols
    ensures (r + 1) * cols == r * cols + cols
  {
    Distribute(r + 1, rows - r - 1, cols);
    Distribute(r, 1, cols);
  }

  /** Row `r` of a row-major grid. */
  function Row<T>(cells: seq<T>, rows: nat, cols: nat, r: nat): (row: seq<T>)
    requires |cells| == rows * cols && r < rows
    ensures |row| == cols
  {
    RowFits(r, rows, cols);
    cells[r * cols..(r + 1) * cols]
  }

  function EncodeRow(snap: Snapshot, r: Half): WireRow
    requires Shaped(snap) && r < snap.rows
  {
    WireRow(r, EncodeCells(Row(snap.cells, snap.rows, snap.cols, r)))
  }

  /** The rows of `rs` that the snapshot has, in order. */
  function EncodeRows(snap: Snapshot, rs: seq<Half>): seq<WireRow>
    requires Shaped(snap)
  {
    if rs == [] then []
    else if rs[0] < snap.rows then [EncodeRow(snap, rs[0])] + EncodeRows(snap, rs[1..])
    else EncodeRows(snap, rs[1..])
  }

  function Upto(n: Half): seq<Half> {
    seq(n, i requires 0 <= i < n => i)
  }

  function DamagedRows(lines: seq<LineDamage>): seq<Half> {
    seq(|lines|, i requires 0 <= i < |lines| => lines[i].row)
  }

  /** Every row: attach, resize, full damage. */
  function FullDelta(id: string, snap: Snapshot, n: nat): Delta
    requires Shaped(snap)
  {
    Delta(id, snap.cols, snap.rows, true, EncodeRows(snap, Upto(snap.rows)), snap.cursor, n, snap.top, snap.total)
  }

  /** Only the damaged rows, unless everything is. */
  function DeltaOf(id: string, snap: Snapshot, damage: Damage, n: nat): Delta
    requires Shaped(snap)
  {
    match damage
    case Full => FullDelta(id, snap, n)
    case Lines(lines) =>
      Delta(id, snap.cols, snap.rows, false, EncodeRows(snap, DamagedRows(lines)), snap.cursor, n, snap.top, snap.total)
  }

  // ----- properties

  /** No information is lost on the way. */
  lemma EncodingIsInjective(c: Cell, d: Cell)
    ensures EncodeCell(c) == EncodeCell(d) ==> c == d
  {
  }

  /** A row is sent exactly when it is asked for and exists, with its cells. */
  lemma {:induction false} EncodeRowsAre(snap: Snapshot, rs: seq<Half>)
    requires Shaped(snap)
    ensures forall w :: w in EncodeRows(snap, rs) <==> w.row in rs && w.row < snap.rows && w == EncodeRow(snap, w.row)
  {
    if rs != [] {
      EncodeRowsAre(snap, rs[1..]);
      assert rs == [rs[0]] + rs[1..];
    }
  }

  lemma RowsApart(r: nat, s: nat, rows: nat, cols: nat)
    requires r < s < rows
    ensures (r + 1) * cols <= s * cols && (s + 1) * cols <= rows * cols
  {
    RowFits(r, s, cols);
    RowFits(s, rows, cols);
  }

  /** The rows of a grid without its last row. */
  lemma RowOfFront<T>(a: seq<T>, rows: nat, cols: nat, r: nat)
    requires |a| == rows * cols && r + 1 < rows
    ensures (rows - 1) * cols <= |a| && |a[..(rows - 1) * cols]| == (rows - 1) * cols
    ensures Row(a[..(rows - 1) * cols], rows - 1, cols, r) == Row(a, rows, cols, r)
  {
    RowFits(rows - 1, rows, cols);
    RowsApart(r, rows - 1, rows, cols);
  }

  /** Equal rows make equal grids. */
  lemma {:induction false} RowsDetermine<T>(a: seq<T>, b: seq<T>, rows: nat, cols: nat)
    requires |a| == |b| == rows * cols
    requires forall r :: 0 <= r < rows ==> Row(a, rows, cols, r) == Row(b, rows, cols, r)
    ensures a == b
    decreases rows
  {
    if rows > 0 {
      var last := rows - 1;
      RowFits(last, rows, cols);
      var a', b' := a[..last * cols], b[..last * cols];
      forall r | 0 <= r < last ensures Row(a', last, cols, r) == Row(b', last, cols, r) {
        RowOfFront(a, rows, cols, r);
        RowOfFront(b, rows, cols, r);
      }
      RowsDetermine(a', b', last, cols);
      assert a == a' + Row(a, rows, cols, last);
      assert b == b' + Row(b, rows, cols, last);
    }
  }
}
