/** The chart part of the page in order: load the series, draw its three lines, lay the
    shock-event overlay over them, and halt with the first error met. */
module Page {
  import opened Wrappers
  import opened Seqs
  import opened Columns
  import opened Frames
  import opened SeriesLoader
  import opened CrashEvents

  /** A loaded series has its date column and all three value columns. */
  lemma LoadedColumns(raw: RawFrame, parseDate: string -> Option<int>)
    requires LoadSeries(raw, parseDate).Success?
    ensures var s := LoadSeries(raw, parseDate).value;
            s.dateCol in s.frame.columns && forall c :: c in VALUE_COLUMNS ==> c in s.frame.columns
  {
    LoadSeriesDateColumn(raw, parseDate);
    LoadSeriesValueColumns(raw, parseDate);
    LoadSeriesRows(raw, parseDate);
  }

  /** The three series lines, one per value column, drawn before the overlay. */
  function BaseTraces(): seq<Primitive> {
    [LineTrace("①"), LineTrace("②"), LineTrace("③")]
  }

  /** The chart built from the series table and the events table, or the error that
      halts the page. The overlay is laid over column `①` against the date column. */
  function RenderChart(series: RawFrame, events: RawFrame, parseDate: string -> Option<int>,
                       parseNumber: string -> Option<real>): Result<seq<Primitive>, ConfigError>
  {
    match LoadSeries(series, parseDate)
    case Failure(e) => Failure(e)
    case Success(s) =>
      LoadedColumns(series, parseDate);
      match CrashOverlay(s.frame.columns, s.frame.rows, s.dateCol, "①", events, parseDate, parseNumber)
      case Failure(e) => Failure(e)
      case Success(o) => Success(BaseTraces() + o.added)
  }

  /** Every row the loader keeps holds a timestamp in its date column. */
  lemma LoadedDatesStamped(series: RawFrame, parseDate: string -> Option<int>)
    requires LoadSeries(series, parseDate).Success?
    ensures var s := LoadSeries(series, parseDate).value;
            s.dateCol in s.frame.columns
            && forall k :: 0 <= k < |s.frame.rows| ==> CellAt(s.frame.rows[k], IndexOf(s.frame.columns, s.dateCol)).Stamp?
  {
    var s := LoadSeries(series, parseDate).value;
    LoadedColumns(series, parseDate);
    LoadSeriesRows(series, parseDate);
    forall k | 0 <= k < |s.frame.rows|
      ensures CellAt(s.frame.rows[k], IndexOf(s.frame.columns, s.dateCol)).Stamp?
    {
      assert s.frame.rows[k] in s.frame.rows;
    }
  }

  /** The overlay's in-place date coercion leaves the loaded series as it is: the loader
      already turned every date of that column into a timestamp. */
  lemma OverlayKeepsLoadedSeries(series: RawFrame, events: RawFrame, parseDate: string -> Option<int>,
                                 parseNumber: string -> Option<real>)
    requires LoadSeries(series, parseDate).Success?
    ensures var s := LoadSeries(series, parseDate).value;
            s.dateCol in s.frame.columns && "①" in s.frame.columns
            && var r := CrashOverlay(s.frame.columns, s.frame.rows, s.dateCol, "①", events, parseDate, parseNumber);
               r.Success? ==> r.value.rows == s.frame.rows
  {
    var s := LoadSeries(series, parseDate).value;
    LoadedColumns(series, parseDate);
    LoadedDatesStamped(series, parseDate);
    CoerceStampedColumn(s.frame.rows, IndexOf(s.frame.columns, s.dateCol), parseDate);
  }

  /** The page halts exactly when the series lacks a date column or a value column, or
      the events table lacks a required column; a series error is reported first. On
      success the chart is the three series lines followed by the overlay. */
  lemma RenderChartOutcome(series: RawFrame, events: RawFrame, parseDate: string -> Option<int>,
                           parseNumber: string -> Option<real>)
    ensures var r := RenderChart(series, events, parseDate, parseNumber);
            r.Failure? <==> (LoadSeries(series, parseDate).Failure?
                             || exists c :: c in REQUIRED_EVENT_COLUMNS && c !in TrimColumns(events.columns))
    ensures var r := RenderChart(series, events, parseDate, parseNumber);
            LoadSeries(series, parseDate).Failure? ==> r == Failure(LoadSeries(series, parseDate).error)
    ensures var r := RenderChart(series, events, parseDate, parseNumber);
            r.Success? ==> LoadSeries(series, parseDate).Success?
                           && var s := LoadSeries(series, parseDate).value;
                              s.dateCol in s.frame.columns && "①" in s.frame.columns
                              && var o := CrashOverlay(s.frame.columns, s.frame.rows, s.dateCol, "①", events, parseDate, parseNumber);
                                 o.Success? && r.value == BaseTraces() + o.value.added
  {
    if LoadSeries(series, parseDate).Success? {
      var s := LoadSeries(series, parseDate).value;
      LoadedColumns(series, parseDate);
      CrashOverlayHalts(s.frame.columns, s.frame.rows, s.dateCol, "①", events, parseDate, parseNumber);
    }
  }
}
