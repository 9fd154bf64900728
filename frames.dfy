/** Tables as the dashboard sees them: CSV text as read, the cells after date coercion,
    the errors that halt the page, and the data frame the overlay coerces in place. */
module Frames {
  import opened Wrappers

  /** A CSV field as read: `None` is a field the reader turns into NaN (an empty field). */
  type RawCell = Option<string>

  /** A table as read from a CSV file: header names and rows of fields. */
  datatype RawFrame = RawFrame(columns: seq<string>, rows: seq<seq<RawCell>>)

  /** A cell of the loaded series: missing (NaN or NaT), text as read, or a timestamp
      produced by date coercion. Timestamps are integers ordered as time. */
  datatype Cell = Blank | Text(text: string) | Stamp(t: int)

  /** A table whose cells have been lifted out of the CSV text. */
  datatype Frame = Frame(columns: seq<string>, rows: seq<seq<Cell>>)

  /** The reasons the page halts with an error message instead of a chart. */
  datatype ConfigError =
    | NoDateColumn(seen: seq<string>)
    | MissingValueColumns(missing: seq<string>, seen: seq<string>)
    | MissingEventColumns(required: seq<string>, seen: seq<string>)

  /** Field `i` of a CSV row; a short row reads as NaN past its end. */
  function RawAt(row: seq<RawCell>, i: nat): RawCell {
    if i < |row| then row[i] else None
  }

  /** Cell `i` of a row; a short row reads as missing past its end. */
  function CellAt(row: seq<Cell>, i: nat): Cell {
    if i < |row| then row[i] else Blank
  }

  /** The cell a CSV field becomes before any coercion. */
  function Lift(c: RawCell): (r: Cell)
    ensures r.Blank? <==> c.None?
  {
    match c
    case None => Blank
    case Some(s) => Text(s)
  }

  function LiftRow(row: seq<RawCell>): (r: seq<Cell>)
    ensures |r| == |row|
    ensures forall i :: 0 <= i < |row| ==> r[i] == Lift(row[i])
  {
    seq(|row|, i requires 0 <= i < |row| => Lift(row[i]))
  }

  function LiftRows(rows: seq<seq<RawCell>>): (r: seq<seq<Cell>>)
    ensures |r| == |rows|
    ensures forall k :: 0 <= k < |rows| ==> r[k] == LiftRow(rows[k])
  {
    seq(|rows|, k requires 0 <= k < |rows| => LiftRow(rows[k]))
  }

  /** `pd.to_datetime(..., errors="coerce")` on one cell: text goes through the date
      parser and becomes a timestamp or NaT; a timestamp stays as it is. */
  function ToStamp(c: Cell, parseDate: string -> Option<int>): (r: Cell)
    ensures r.Stamp? || r.Blank?
    ensures r.Stamp? <==> (c.Stamp? || (c.Text? && parseDate(c.text).Some?))
    ensures c.Stamp? ==> r == c
    ensures c.Text? && parseDate(c.text).Some? ==> r == Stamp(parseDate(c.text).value)
  {
    match c
    case Blank => Blank
    case Stamp(_) => c
    case Text(s) => if parseDate(s).Some? then Stamp(parseDate(s).value) else Blank
  }

  /** `df[col] = pd.to_datetime(df[col], errors="coerce")`: column `col` of every row
      coerced, every other cell untouched. */
  function CoerceColumn(rows: seq<seq<Cell>>, col: nat, parseDate: string -> Option<int>): (r: seq<seq<Cell>>)
    ensures |r| == |rows|
    ensures forall k :: 0 <= k < |rows| ==>
              |r[k]| == |rows[k]|
              && CellAt(r[k], col) == ToStamp(CellAt(rows[k], col), parseDate)
              && forall i :: 0 <= i < |rows[k]| && i != col ==> r[k][i] == rows[k][i]
  {
    seq(|rows|, k requires 0 <= k < |rows| =>
      if col < |rows[k]| then rows[k][col := ToStamp(rows[k][col], parseDate)] else rows[k])
  }

  /** Coercing a column that already holds only timestamps changes nothing. */
  lemma {:induction false} CoerceStampedColumn(rows: seq<seq<Cell>>, col: nat, parseDate: string -> Option<int>)
    requires forall k :: 0 <= k < |rows| ==> CellAt(rows[k], col).Stamp?
    ensures CoerceColumn(rows, col, parseDate) == rows
  {
    var r := CoerceColumn(rows, col, parseDate);
    forall k | 0 <= k < |rows| ensures r[k] == rows[k] {
      assert CellAt(r[k], col) == CellAt(rows[k], col);
      assert col < |rows[k]|;
      assert forall i :: 0 <= i < |rows[k]| ==> r[k][i] == rows[k][i];
    }
  }

  /** Coercion is idempotent: coercing a coerced column again changes nothing. */
  lemma CoerceIdempotent(rows: seq<seq<Cell>>, col: nat, parseDate: string -> Option<int>)
    ensures CoerceColumn(CoerceColumn(rows, col, parseDate), col, parseDate)
            == CoerceColumn(rows, col, parseDate)
  {
    var once := CoerceColumn(rows, col, parseDate);
    var twice := CoerceColumn(once, col, parseDate);
    forall k | 0 <= k < |rows| ensures twice[k] == once[k] {
      assert CellAt(twice[k], col) == CellAt(once[k], col);
      assert forall i :: 0 <= i < |once[k]| ==> twice[k][i] == once[k][i];
    }
  }

  /** The data frame handed to the overlay; the overlay coerces one of its columns in
      place, so the caller sees the change. */
  class DataFrame {
    var columns: seq<string>
    var rows: seq<seq<Cell>>

    constructor (f: Frame)
      ensures columns == f.columns && rows == f.rows
    {
      columns := f.columns;
      rows := f.rows;
    }

    /** Replaces column `col` by its date coercion. */
    method CoerceDates(col: nat, parseDate: string -> Option<int>)
      modifies this
      ensures columns == old(columns)
      ensures rows == CoerceColumn(old(rows), col, parseDate)
    {
      rows := CoerceColumn(rows, col, parseDate);
    }
  }
}
