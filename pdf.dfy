/**
 * The documents the export buttons build, as the sequence of drawing
 * operations issued on a jsPDF document: text lines at a position, two-column
 * "Field"/"Value" tables started at a vertical offset, and page breaks.
 *
 * Where the table ends is decided by the table-layout library; the pages read
 * it back (`lastAutoTable.finalY`) to place what follows.  Here it is the
 * parameter `finalY`, a function of the table's start offset and rows.
 */
module Pdf {
  import opened Wrappers
  import opened JsValues

  /**
   * What a table cell shows: a value as the page passes it to the table
   * (converted to text by the library), or `JSON.stringify` of a value.
   * A stringified value is a non-empty string, hence truthy.
   */
  datatype Cell = Value(v: JsValue) | Json(v: JsValue)

  datatype Row = Row(field: string, cell: Cell)

  datatype PdfOp =
    | Text(line: string, x: int, y: int)
    | Table(startY: int, body: seq<Row>)
    | AddPage

  /** A saved document: what was drawn, and the file name it was saved under. */
  datatype Document = Document(ops: seq<PdfOp>, fileName: string)

  /** The vertical offset where a table that starts at `startY` with these rows ends. */
  type Layout = (int, seq<Row>) -> int

  const NA := Value(JStr("N/A"))

  /** The cell shows something: a truthy value or a stringified one. */
  predicate CellTruthy(c: Cell)
  {
    c.Json? || Truthy(c.v)
  }

  /** `value || "N/A"` on a cell. */
  function OrNA(c: Cell): (r: Cell)
    ensures CellTruthy(r)
    ensures CellTruthy(c) ==> r == c
    ensures !CellTruthy(c) ==> r == NA
  {
    if CellTruthy(c) then c else NA
  }

  /**
   * The heading-and-table loop shared by the Users and Payment exports: for
   * every table from the `k`-th on, a heading line at the cursor `y`, the
   * table ten units below it, and the cursor moved ten units below the table.
   */
  function Sections(tables: seq<seq<Row>>, heading: nat -> string, k: nat, y: int, finalY: Layout): seq<PdfOp>
    requires k <= |tables|
    decreases |tables| - k
  {
    if k == |tables| then []
    else
      [Text(heading(k), 10, y), Table(y + 10, tables[k])]
      + Sections(tables, heading, k + 1, finalY(y + 10, tables[k]) + 10, finalY)
  }

  /** The cursor before the heading of table `k`, when the first heading is at `y0`. */
  function Cursor(tables: seq<seq<Row>>, k: nat, y0: int, finalY: Layout): int
    requires k <= |tables|
  {
    if k == 0 then y0
    else finalY(Cursor(tables, k - 1, y0, finalY) + 10, tables[k - 1]) + 10
  }

  /**
   * The layout the loop produces: two operations per table; table `k` gets
   * its heading at cursor `Cursor(k)` and starts ten units lower; the next
   * cursor is ten units below where the table ended.
   */
  lemma SectionsLayout(tables: seq<seq<Row>>, heading: nat -> string, y0: int, finalY: Layout)
    ensures |Sections(tables, heading, 0, y0, finalY)| == 2 * |tables|
    ensures forall k :: 0 <= k < |tables| ==>
              Sections(tables, heading, 0, y0, finalY)[2 * k] == Text(heading(k), 10, Cursor(tables, k, y0, finalY)) &&
              Sections(tables, heading, 0, y0, finalY)[2 * k + 1] == Table(Cursor(tables, k, y0, finalY) + 10, tables[k])
  {
    SectionsLength(tables, heading, 0, y0, finalY);
    forall k | 0 <= k < |tables|
      ensures Sections(tables, heading, 0, y0, finalY)[2 * k] == Text(heading(k), 10, Cursor(tables, k, y0, finalY))
      ensures Sections(tables, heading, 0, y0, finalY)[2 * k + 1] == Table(Cursor(tables, k, y0, finalY) + 10, tables[k])
    {
      SectionsAt(tables, heading, y0, finalY, k);
    }
  }

  /** Table `k` of the drawing: its heading at `2 k`, its table at `2 k + 1`. */
  lemma SectionsAt(tables: seq<seq<Row>>, heading: nat -> string, y0: int, finalY: Layout, k: nat)
    requires k < |tables|
    ensures 2 * k + 1 < |Sections(tables, heading, 0, y0, finalY)|
    ensures Sections(tables, heading, 0, y0, finalY)[2 * k] == Text(heading(k), 10, Cursor(tables, k, y0, finalY))
    ensures Sections(tables, heading, 0, y0, finalY)[2 * k + 1] == Table(Cursor(tables, k, y0, finalY) + 10, tables[k])
  {
    var all := Sections(tables, heading, 0, y0, finalY);
    SectionsLength(tables, heading, 0, y0, finalY);
    SectionsSuffix(tables, heading, k, y0, finalY);
    var rest := Sections(tables, heading, k, Cursor(tables, k, y0, finalY), finalY);
    assert all[2 * k] == rest[0] && all[2 * k + 1] == rest[1];
  }

  /** The same, after `header`: the drawing's operations follow whatever was written before it. */
  lemma HeaderedSectionsAt(header: seq<PdfOp>, tables: seq<seq<Row>>, heading: nat -> string, y0: int, finalY: Layout, k: nat)
    requires k < |tables|
    ensures |header| + 2 * k + 1 < |header + Sections(tables, heading, 0, y0, finalY)|
    ensures (header + Sections(tables, heading, 0, y0, finalY))[|header| + 2 * k] == Text(heading(k), 10, Cursor(tables, k, y0, finalY))
    ensures (header + Sections(tables, heading, 0, y0, finalY))[|header| + 2 * k + 1] == Table(Cursor(tables, k, y0, finalY) + 10, tables[k])
  {
    SectionsAt(tables, heading, y0, finalY, k);
  }

  lemma {:induction false} SectionsLength(tables: seq<seq<Row>>, heading: nat -> string, k: nat, y: int, finalY: Layout)
    requires k <= |tables|
    ensures |Sections(tables, heading, k, y, finalY)| == 2 * (|tables| - k)
    decreases |tables| - k
  {
    if k < |tables| {
      SectionsLength(tables, heading, k + 1, finalY(y + 10, tables[k]) + 10, finalY);
    }
  }

  /**
   * One pass of a loop that draws the tables: if the operations so far
   * followed by the drawing from table `k` give the whole drawing, then so
   * do the operations with table `k`'s heading and table added, followed by
   * the drawing from table `k + 1` at the next cursor.
   */
  lemma SectionsAdvance(tables: seq<seq<Row>>, heading: nat -> string, k: nat, y0: int, finalY: Layout, ops: seq<PdfOp>)
    requires k < |tables|
    requires ops + Sections(tables, heading, k, Cursor(tables, k, y0, finalY), finalY) == Sections(tables, heading, 0, y0, finalY)
    ensures Cursor(tables, k + 1, y0, finalY) == finalY(Cursor(tables, k, y0, finalY) + 10, tables[k]) + 10
    ensures var y := Cursor(tables, k, y0, finalY);
            ops + [Text(heading(k), 10, y)] + [Table(y + 10, tables[k])]
              + Sections(tables, heading, k + 1, Cursor(tables, k + 1, y0, finalY), finalY)
            == Sections(tables, heading, 0, y0, finalY)
  {
    var y := Cursor(tables, k, y0, finalY);
    var rest := Sections(tables, heading, k + 1, Cursor(tables, k + 1, y0, finalY), finalY);
    assert Sections(tables, heading, k, y, finalY) == [Text(heading(k), 10, y), Table(y + 10, tables[k])] + rest;
    assert ops + [Text(heading(k), 10, y)] + [Table(y + 10, tables[k])] + rest
        == ops + ([Text(heading(k), 10, y), Table(y + 10, tables[k])] + rest);
  }

  /** What the loop draws from table `k` on is the tail of the whole drawing, started at the cursor of table `k`. */
  lemma {:induction false} SectionsSuffix(tables: seq<seq<Row>>, heading: nat -> string, k: nat, y0: int, finalY: Layout)
    requires k <= |tables|
    ensures 2 * k <= |Sections(tables, heading, 0, y0, finalY)|
    ensures Sections(tables, heading, 0, y0, finalY)[2 * k..]
         == Sections(tables, heading, k, Cursor(tables, k, y0, finalY), finalY)
  {
    SectionsLength(tables, heading, 0, y0, finalY);
    if k > 0 {
      SectionsSuffix(tables, heading, k - 1, y0, finalY);
      var all := Sections(tables, heading, 0, y0, finalY);
      var c := Cursor(tables, k - 1, y0, finalY);
      var next := Sections(tables, heading, k, Cursor(tables, k, y0, finalY), finalY);
      var prev := Sections(tables, heading, k - 1, c, finalY);
      assert Cursor(tables, k, y0, finalY) == finalY(c + 10, tables[k - 1]) + 10;
      assert prev == [Text(heading(k - 1), 10, c), Table(c + 10, tables[k - 1])] + next;
      assert prev[2..] == next;
      assert all[2 * k..] == all[2 * (k - 1)..][2..];
    }
  }

  /** What drawing one item as a table gives: its rows, or `None` when building them throws. */
  type TableOf = JsValue -> Option<seq<Row>>

  /** Every item's table is built without throwing. */
  predicate AllTables(items: seq<JsValue>, table: TableOf)
  {
    forall k :: 0 <= k < |items| ==> table(items[k]).Some?
  }

  /**
   * The table of each item; an item whose table throws has an empty one.
   * A helper: its contract spells the body out pointwise.
   */
  function ItemTables(items: seq<JsValue>, table: TableOf): (ts: seq<seq<Row>>)
    ensures |ts| == |items|
    ensures forall k :: 0 <= k < |items| && table(items[k]).Some? ==> ts[k] == table(items[k]).value
  {
    seq(|items|, k requires 0 <= k < |items| => table(items[k]).GetOr([]))
  }

  /**
   * A `forEach` that draws a heading and a table per item: the operations
   * and the cursor after the last table, or `None` when some item's table
   * throws.
   */
  function ItemSections(items: seq<JsValue>, table: TableOf, heading: nat -> string, y: int, finalY: Layout): Option<(seq<PdfOp>, int)>
  {
    if AllTables(items, table) then
      Some((Sections(ItemTables(items, table), heading, 0, y, finalY), Cursor(ItemTables(items, table), |items|, y, finalY)))
    else None
  }

  /**
   * After drawing tables `0 .. k - 1` from the cursor `y0`, the operations
   * so far are `ops` and the cursor is `y`: the cursor of table `k`, and
   * `ops` followed by the drawing from table `k` on is the whole drawing.
   */
  predicate DrawnUpTo(tables: seq<seq<Row>>, heading: nat -> string, k: nat, y0: int, finalY: Layout, ops: seq<PdfOp>, y: int)
    requires k <= |tables|
  {
    y == Cursor(tables, k, y0, finalY) &&
    ops + Sections(tables, heading, k, y, finalY) == Sections(tables, heading, 0, y0, finalY)
  }

  /** Drawing table `k`'s heading and table keeps `DrawnUpTo`, one table further on. */
  lemma DrawnStep(tables: seq<seq<Row>>, heading: nat -> string, k: nat, y0: int, finalY: Layout, ops: seq<PdfOp>, y: int)
    requires k < |tables|
    requires DrawnUpTo(tables, heading, k, y0, finalY, ops, y)
    ensures DrawnUpTo(tables, heading, k + 1, y0, finalY,
                      ops + [Text(heading(k), 10, y)] + [Table(y + 10, tables[k])], finalY(y + 10, tables[k]) + 10)
  {
    SectionsAdvance(tables, heading, k, y0, finalY, ops);
  }

  /** Having drawn every table, the operations are the whole drawing and the cursor is past the last table. */
  lemma DrawnFinished(tables: seq<seq<Row>>, heading: nat -> string, y0: int, finalY: Layout, ops: seq<PdfOp>, y: int)
    requires DrawnUpTo(tables, heading, |tables|, y0, finalY, ops, y)
    ensures ops == Sections(tables, heading, 0, y0, finalY) && y == Cursor(tables, |tables|, y0, finalY)
  {
    assert ops + [] == ops;
  }

  /** Having drawn every item's table, the operations and the cursor are those of the whole `forEach`. */
  lemma DrawnAll(items: seq<JsValue>, table: TableOf, heading: nat -> string, y0: int, finalY: Layout, ops: seq<PdfOp>, y: int)
    requires AllTables(items, table)
    requires DrawnUpTo(ItemTables(items, table), heading, |items|, y0, finalY, ops, y)
    ensures ItemSections(items, table, heading, y0, finalY) == Some((ops, y))
  {
    DrawnFinished(ItemTables(items, table), heading, y0, finalY, ops, y);
  }

  /** An item whose table throws makes the whole `forEach` throw. */
  lemma ThrowingItem(items: seq<JsValue>, table: TableOf, heading: nat -> string, y0: int, finalY: Layout, k: nat)
    requires k < |items| && table(items[k]).None?
    ensures ItemSections(items, table, heading, y0, finalY) == None
  {
  }

  /** The `forEach` itself: for item `k`, its heading at the cursor, then its table ten units lower. */
  method DrawItems(items: seq<JsValue>, table: TableOf, heading: nat -> string, y0: int, finalY: Layout)
    returns (ok: bool, ops: seq<PdfOp>, y: int)
    ensures ItemSections(items, table, heading, y0, finalY) == if ok then Some((ops, y)) else None
  {
    ghost var tables := ItemTables(items, table);
    ops := [];
    y := y0;
    var k := 0;
    while k < |items|
      invariant 0 <= k <= |items|
      invariant forall j :: 0 <= j < k ==> table(items[j]).Some?
      invariant DrawnUpTo(tables, heading, k, y0, finalY, ops, y)
      decreases |items| - k
    {
      var rows := table(items[k]);
      if rows.None? {
        ThrowingItem(items, table, heading, y0, finalY, k);
        return false, [], y;
      }
      assert tables[k] == rows.value;
      DrawnStep(tables, heading, k, y0, finalY, ops, y);
      ops := ops + [Text(heading(k), 10, y)];
      y := y + 10;
      ops := ops + [Table(y, rows.value)];
      y := finalY(y, rows.value) + 10;
      k := k + 1;
    }
    DrawnAll(items, table, heading, y0, finalY, ops, y);
    return true, ops, y;
  }

  /** What drawing one attribute does: the operations and the cursor after them, or `None` when it throws. */
  type EntryStep = (string, JsValue, int) -> Option<(seq<PdfOp>, int)>

  /**
   * The `for (const [key, value] of Object.entries(record))` loop of the
   * enrolment exports: what the attributes from the `i`-th on draw when the
   * cursor starts at `y`; `None` as soon as one of them throws.
   */
  function Walk(entries: JsObject, i: nat, y: int, step: EntryStep): Option<seq<PdfOp>>
    requires i <= |entries|
    decreases |entries| - i
  {
    if i == |entries| then Some([])
    else
      match step(entries[i].0, entries[i].1, y)
      case None => None
      case Some((ops, y2)) => Then(ops, Walk(entries, i + 1, y2, step))
  }

  /** `ops` followed by `rest`, when `rest` did not throw (a helper; its contract spells the body out). */
  function Then(ops: seq<PdfOp>, rest: Option<seq<PdfOp>>): (r: Option<seq<PdfOp>>)
    ensures r.Some? <==> rest.Some?
    ensures r.Some? ==> |r.value| == |ops| + |rest.value| && r.value[..|ops|] == ops && r.value[|ops|..] == rest.value
  {
    if rest.None? then None else Some(ops + rest.value)
  }

  /** Drawing attribute `i` and then the rest, after `ops`, is drawing the rest after `ops` and attribute `i`. */
  lemma ThenAssoc(ops: seq<PdfOp>, part: seq<PdfOp>, rest: Option<seq<PdfOp>>)
    ensures Then(ops, Then(part, rest)) == Then(ops + part, rest)
  {
    if rest.Some? {
      assert ops + (part + rest.value) == (ops + part) + rest.value;
    }
  }
}
