/** The primary series loader at the top of the page: strip the header names, find the
    date column among its aliases, coerce it, drop the rows whose date did not parse, and
    insist on the three value columns. */
module SeriesLoader {
  import opened Wrappers
  import opened Seqs
  import opened Columns
  import opened Frames

  /** Recognised names of the date column, in order of preference. */
  const DATE_CANDIDATES: seq<string> := ["日付", "date", "Date", "DATE"]

  /** The three plotted value columns. */
  const VALUE_COLUMNS: seq<string> := ["①", "②", "③"]

  /** The loaded series: its table and the name of its date column. */
  datatype Series = Series(frame: Frame, dateCol: string)

  /** The rows with the date column coerced, before any row is dropped. */
  function CoercedRows(raw: RawFrame, col: nat, parseDate: string -> Option<int>): (r: seq<seq<Cell>>)
    ensures |r| == |raw.rows|
    ensures forall k :: 0 <= k < |r| ==>
              (CellAt(r[k], col).Stamp? <==>
                 RawAt(raw.rows[k], col).Some? && parseDate(RawAt(raw.rows[k], col).value).Some?)
  {
    var r := CoerceColumn(LiftRows(raw.rows), col, parseDate);
    assert forall k :: 0 <= k < |r| ==> CellAt(LiftRows(raw.rows)[k], col) == Lift(RawAt(raw.rows[k], col));
    r
  }

  /** `df.dropna(subset=[col])` after coercion: the rows whose date parsed. */
  function DatedRows(rows: seq<seq<Cell>>, col: nat): seq<seq<Cell>> {
    Filter(rows, row => CellAt(row, col).Stamp?)
  }

  /** The loader, from the CSV as read to the series or the error that halts the page. */
  function LoadSeries(raw: RawFrame, parseDate: string -> Option<int>): Result<Series, ConfigError> {
    var columns := TrimColumns(raw.columns);
    match FirstPresent(DATE_CANDIDATES, columns)
    case None => Failure(NoDateColumn(columns))
    case Some(dateCol) =>
      var col := IndexOf(columns, dateCol);
      var rows := DatedRows(CoercedRows(raw, col, parseDate), col);
      var missing := Missing(VALUE_COLUMNS, columns);
      if missing != [] then Failure(MissingValueColumns(missing, columns))
      else Success(Series(Frame(columns, rows), dateCol))
  }

  /** The loader halts for want of a date column exactly when none of the aliases is a
      (stripped) header name, and then reports the stripped names it saw. On success the
      date column is the first alias, in preference order, that is a header name. */
  lemma LoadSeriesDateColumn(raw: RawFrame, parseDate: string -> Option<int>)
    ensures var columns := TrimColumns(raw.columns);
            LoadSeries(raw, parseDate) == Failure(NoDateColumn(columns))
            <==> forall i :: 0 <= i < |DATE_CANDIDATES| ==> DATE_CANDIDATES[i] !in columns
    ensures var columns := TrimColumns(raw.columns);
            LoadSeries(raw, parseDate).Success? ==>
              var dateCol := LoadSeries(raw, parseDate).value.dateCol;
              exists i :: 0 <= i < |DATE_CANDIDATES| && DATE_CANDIDATES[i] == dateCol && dateCol in columns
                          && forall j :: 0 <= j < i ==> DATE_CANDIDATES[j] !in columns
  {
  }

  /** Once a date column is found, the loader halts exactly when some value column is
      absent, and the report lists exactly the absent ones, in the order `①②③`, with the
      stripped names it saw. */
  lemma LoadSeriesValueColumns(raw: RawFrame, parseDate: string -> Option<int>)
    requires FirstPresent(DATE_CANDIDATES, TrimColumns(raw.columns)).Some?
    ensures var columns := TrimColumns(raw.columns);
            LoadSeries(raw, parseDate).Success? <==> forall c :: c in VALUE_COLUMNS ==> c in columns
    ensures var columns := TrimColumns(raw.columns);
            LoadSeries(raw, parseDate).Failure? ==>
              LoadSeries(raw, parseDate).error.MissingValueColumns?
              && LoadSeries(raw, parseDate).error.seen == columns
              && IsSubsequence(LoadSeries(raw, parseDate).error.missing, VALUE_COLUMNS)
              && forall c :: c in LoadSeries(raw, parseDate).error.missing <==> c in VALUE_COLUMNS && c !in columns
  {
    MissingExactly(VALUE_COLUMNS, TrimColumns(raw.columns));
  }

  /** On success the header names are the stripped ones, and the rows are exactly the rows
      whose date parsed, in their original order; each of them carries a timestamp in the
      date column, and the row count falls by exactly the number of dates that did not
      parse. */
  lemma LoadSeriesRows(raw: RawFrame, parseDate: string -> Option<int>)
    requires LoadSeries(raw, parseDate).Success?
    ensures var s := LoadSeries(raw, parseDate).value;
            var columns := TrimColumns(raw.columns);
            var col := IndexOf(columns, s.dateCol);
            var all := CoercedRows(raw, col, parseDate);
            && s.frame.columns == columns
            && IsSubsequence(s.frame.rows, all)
            && (forall row :: row in s.frame.rows ==> CellAt(row, col).Stamp?)
            && (forall k :: 0 <= k < |all| && CellAt(all[k], col).Stamp? ==> all[k] in s.frame.rows)
            && |s.frame.rows| == |raw.rows| - Count(all, row => !CellAt(row, col).Stamp?)
  {
    var s := LoadSeries(raw, parseDate).value;
    var columns := TrimColumns(raw.columns);
    var col := IndexOf(columns, s.dateCol);
    var all := CoercedRows(raw, col, parseDate);
    CountComplement(all, row => CellAt(row, col).Stamp?, row => !CellAt(row, col).Stamp?);
  }

  /** A header whose names need no stripping and that holds the three value columns
      loads, with the first alias it holds as the date column. */
  lemma {:induction false} CleanHeaderLoads(header: seq<string>, rows: seq<seq<RawCell>>, parseDate: string -> Option<int>)
    requires forall k :: 0 <= k < |header| ==> Unpadded(header[k])
    requires forall c :: c in VALUE_COLUMNS ==> c in header
    requires FirstPresent(DATE_CANDIDATES, header).Some?
    ensures LoadSeries(RawFrame(header, rows), parseDate).Success?
    ensures LoadSeries(RawFrame(header, rows), parseDate).value.dateCol == FirstPresent(DATE_CANDIDATES, header).value
    ensures LoadSeries(RawFrame(header, rows), parseDate).value.frame.columns == header
  {
    TrimUnpadded(header);
    MissingExactly(VALUE_COLUMNS, header);
    assert Missing(VALUE_COLUMNS, header) == [];
  }

  lemma TrimUnpadded(header: seq<string>)
    requires forall k :: 0 <= k < |header| ==> Unpadded(header[k])
    ensures TrimColumns(header) == header
  {
    forall k | 0 <= k < |header| ensures Strip(header[k]) == header[k] {
      StripPadded([], header[k], []);
      assert [] + header[k] + [] == header[k];
    }
  }

  /** Every alias works on its own: a header made of one alias and the three value
      columns loads, with that alias as the date column. */
  lemma {:induction false} EachAliasLoads(i: nat, rows: seq<seq<RawCell>>, parseDate: string -> Option<int>)
    requires i < |DATE_CANDIDATES|
    ensures var raw := RawFrame([DATE_CANDIDATES[i]] + VALUE_COLUMNS, rows);
            LoadSeries(raw, parseDate).Success?
            && LoadSeries(raw, parseDate).value.dateCol == DATE_CANDIDATES[i]
  {
    var header := [DATE_CANDIDATES[i]] + VALUE_COLUMNS;
    assert header == [DATE_CANDIDATES[i], "①", "②", "③"];
    assert forall k :: 0 <= k < |header| ==> header[k] != [] && Unpadded(header[k]);
    assert forall j :: 0 <= j < i ==> DATE_CANDIDATES[j] !in header;
    CleanHeaderLoads(header, rows, parseDate);
  }

  /** Only the stripped header names matter: two tables whose header names strip to the
      same names load the same way. */
  lemma LoadSeriesSeesStrippedNames(a: RawFrame, b: RawFrame, parseDate: string -> Option<int>)
    requires TrimColumns(a.columns) == TrimColumns(b.columns) && a.rows == b.rows
    ensures LoadSeries(a, parseDate) == LoadSeries(b, parseDate)
  {
  }

  /** However the header name `date` is padded with whitespace, it is found as the date
      column `date`: `" date "` loads like `"date"`. */
  lemma {:induction false} PaddedDateHeaderLoads(pre: string, post: string, rows: seq<seq<RawCell>>, parseDate: string -> Option<int>)
    requires forall k :: 0 <= k < |pre| ==> IsSpace(pre[k])
    requires forall k :: 0 <= k < |post| ==> IsSpace(post[k])
    ensures var raw := RawFrame([pre + "date" + post] + VALUE_COLUMNS, rows);
            LoadSeries(raw, parseDate).Success?
            && LoadSeries(raw, parseDate).value.dateCol == "date"
            && LoadSeries(raw, parseDate).value.frame.columns == ["date"] + VALUE_COLUMNS
  {
    var header := ["date"] + VALUE_COLUMNS;
    PaddedDateHeaderStrips(pre, post);
    assert DATE_CANDIDATES[0] !in header;
    CleanHeaderLoads(header, rows, parseDate);
    LoadSeriesSeesStrippedNames(RawFrame([pre + "date" + post] + VALUE_COLUMNS, rows), RawFrame(header, rows), parseDate);
  }

  lemma PaddedDateHeaderStrips(pre: string, post: string)
    requires forall k :: 0 <= k < |pre| ==> IsSpace(pre[k])
    requires forall k :: 0 <= k < |post| ==> IsSpace(post[k])
    ensures TrimColumns([pre + "date" + post] + VALUE_COLUMNS) == ["date"] + VALUE_COLUMNS
  {
    var padded := [pre + "date" + post] + VALUE_COLUMNS;
    var header := ["date"] + VALUE_COLUMNS;
    assert Strip(padded[0]) == header[0] by {
      StripPadded(pre, "date", post);
    }
    forall k | 1 <= k < |header| ensures Strip(padded[k]) == header[k] {
      assert padded[k] == header[k];
      StripPadded([], header[k], []);
      assert [] + header[k] + [] == header[k];
    }
    TrimColumnsAre(padded, header);
  }
}
