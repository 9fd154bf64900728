/** The shock-event overlay: read the events table, align every dated event with the
    plotted series, draw a dotted vertical line and a short label for each, and add one
    invisible hover trace for the events whose magnitude parsed. */
module CrashEvents {
  import opened Wrappers
  import opened Seqs
  import opened Columns
  import opened Frames
  import opened Alignment

  /** Short codes shown at the top of the chart for the known shocks. */
  const SHORT_LABEL: map<string, string> := map[
    "Lehman Collapse Shock" := "LEH",
    "Bernanke Taper Shock" := "TAPER",
    "Ebola Panic Shock" := "EBOLA",
    "VIX Shock" := "VIX",
    "COVID Outbreak Shock" := "COVID",
    "Ukraine Invasion Shock" := "UKR",
    "BOJ Rate Hike Shock" := "BOJ",
    "Trump Tariff Shock" := "TARIFF"
  ]

  /** The columns the events table must have, in the sorted order the error message
      lists them. */
  const REQUIRED_EVENT_COLUMNS: seq<string> := ["date", "opt_max_ret_pct", "shock"]

  /** `SHORT_LABEL.get(shock, shock)`. */
  function DisplayLabel(shock: string): (r: string)
    ensures |r| <= |shock|
  {
    if shock in SHORT_LABEL then SHORT_LABEL[shock] else shock
  }

  /** `str(cell)` of a label field: an empty field was read as NaN and prints as `nan`. */
  function Str(c: RawCell): string {
    match c
    case None => "nan"
    case Some(s) => s
  }

  /** A dated shock event; the magnitude is absent when it did not parse. */
  datatype Event = Event(date: int, shock: RawCell, magnitude: Option<real>)

  /** A row of the cleaned series: its timestamp and its plotted value. */
  datatype Point = Point(x: int, y: Cell)

  /** An event with the series value it is drawn against. */
  datatype AlignedEvent = AlignedEvent(event: Event, y: Cell)

  /** What the overlay adds to the chart: a dotted vertical line at a date, a text label
      at the top of the plot at a date, and an invisible marker trace whose points show
      the raw label and the magnitude on hover. `LineTrace` stands for the series lines
      already on the chart when the overlay is drawn. */
  datatype Primitive =
    | LineTrace(name: string)
    | VLine(x: int)
    | Annotation(x: int, text: string)
    | HoverTrace(points: seq<AlignedEvent>)

  function EventDate(e: Event): int { e.date }
  function PointX(p: Point): int { p.x }
  predicate HasMagnitude(a: AlignedEvent) { a.event.magnitude.Some? }

  /** `pd.to_datetime(..., errors="coerce")` of one events field. */
  function DateOf(c: RawCell, parseDate: string -> Option<int>): (r: Option<int>)
    ensures r.Some? <==> c.Some? && parseDate(c.value).Some?
    ensures r.Some? ==> r == parseDate(c.value)
  {
    var s := ToStamp(Lift(c), parseDate);
    if s.Stamp? then Some(s.t) else None
  }

  /** `pd.to_numeric(..., errors="coerce")` of one events field. */
  function NumberOf(c: RawCell, parseNumber: string -> Option<real>): (r: Option<real>)
    ensures r.Some? <==> c.Some? && parseNumber(c.value).Some?
    ensures r.Some? ==> r == parseNumber(c.value)
  {
    match c
    case None => None
    case Some(s) => parseNumber(s)
  }

  /** The event rows whose date parsed, in file order. */
  function DatedEventRows(rows: seq<seq<RawCell>>, di: nat, parseDate: string -> Option<int>): seq<seq<RawCell>> {
    Filter(rows, row => DateOf(RawAt(row, di), parseDate).Some?)
  }

  /** The events of the dated rows, in file order. */
  function RowEvents(columns: seq<string>, rows: seq<seq<RawCell>>,
                     parseDate: string -> Option<int>, parseNumber: string -> Option<real>): (evs: seq<Event>)
    requires forall c :: c in REQUIRED_EVENT_COLUMNS ==> c in columns
    ensures |evs| == |DatedEventRows(rows, IndexOf(columns, "date"), parseDate)|
    ensures forall k :: 0 <= k < |evs| ==>
              var row := DatedEventRows(rows, IndexOf(columns, "date"), parseDate)[k];
              && Some(evs[k].date) == DateOf(RawAt(row, IndexOf(columns, "date")), parseDate)
              && evs[k].shock == RawAt(row, IndexOf(columns, "shock"))
              && evs[k].magnitude == NumberOf(RawAt(row, IndexOf(columns, "opt_max_ret_pct")), parseNumber)
  {
    var di, si, mi := IndexOf(columns, "date"), IndexOf(columns, "shock"), IndexOf(columns, "opt_max_ret_pct");
    var dated := DatedEventRows(rows, di, parseDate);
    assert forall k :: 0 <= k < |dated| ==> DateOf(RawAt(dated[k], di), parseDate).Some? by {
      forall k | 0 <= k < |dated| ensures DateOf(RawAt(dated[k], di), parseDate).Some? {
        assert dated[k] in dated;
      }
    }
    seq(|dated|, k requires 0 <= k < |dated| =>
      assert dated[k] in dated;
      Event(DateOf(RawAt(dated[k], di), parseDate).value, RawAt(dated[k], si), NumberOf(RawAt(dated[k], mi), parseNumber)))
  }

  /** The events table after `dropna(subset=["date"]).sort_values("date")`. */
  function CleanEvents(columns: seq<string>, rows: seq<seq<RawCell>>,
                       parseDate: string -> Option<int>, parseNumber: string -> Option<real>): seq<Event>
    requires forall c :: c in REQUIRED_EVENT_COLUMNS ==> c in columns
  {
    SortBy(RowEvents(columns, rows, parseDate, parseNumber), EventDate)
  }

  /** The series rows with both a timestamp and a value, as points, in table order. */
  function RowPoints(rows: seq<seq<Cell>>, xi: nat, yi: nat): (pts: seq<Point>)
    ensures var kept := Filter(rows, row => CellAt(row, xi).Stamp? && !CellAt(row, yi).Blank?);
            |pts| == |kept|
            && forall k :: 0 <= k < |pts| ==> CellAt(kept[k], xi) == Stamp(pts[k].x) && pts[k].y == CellAt(kept[k], yi)
  {
    var kept := Filter(rows, row => CellAt(row, xi).Stamp? && !CellAt(row, yi).Blank?);
    assert forall k :: 0 <= k < |kept| ==> CellAt(kept[k], xi).Stamp? by {
      forall k | 0 <= k < |kept| ensures CellAt(kept[k], xi).Stamp? {
        assert kept[k] in kept;
      }
    }
    seq(|kept|, k requires 0 <= k < |kept| =>
      assert kept[k] in kept;
      Point(CellAt(kept[k], xi).t, CellAt(kept[k], yi)))
  }

  /** The series after `dropna(subset=[x_col, y_col]).sort_values(x_col)`. */
  function SeriesPoints(rows: seq<seq<Cell>>, xi: nat, yi: nat): seq<Point> {
    SortBy(RowPoints(rows, xi, yi), PointX)
  }

  function Xs(pts: seq<Point>): (xs: seq<int>)
    ensures |xs| == |pts| && forall i :: 0 <= i < |pts| ==> xs[i] == pts[i].x
  {
    seq(|pts|, i requires 0 <= i < |pts| => pts[i].x)
  }

  function Ys(pts: seq<Point>): (ys: seq<Cell>)
    ensures |ys| == |pts| && forall i :: 0 <= i < |pts| ==> ys[i] == pts[i].y
  {
    seq(|pts|, i requires 0 <= i < |pts| => pts[i].y)
  }

  function Dates(evs: seq<Event>): (ds: seq<int>)
    ensures |ds| == |evs| && forall k :: 0 <= k < |evs| ==> ds[k] == evs[k].date
  {
    seq(|evs|, k requires 0 <= k < |evs| => evs[k].date)
  }

  /** Every event paired with the value of the series row it is aligned with. */
  function Aligned(pts: seq<Point>, evs: seq<Event>): (al: seq<AlignedEvent>)
    requires |pts| > 0
    ensures |al| == |evs|
    ensures forall k :: 0 <= k < |evs| ==> al[k].event == evs[k]
  {
    seq(|evs|, k requires 0 <= k < |evs| => AlignedEvent(evs[k], pts[AlignIndex(Xs(pts), evs[k].date)].y))
  }

  /** The line and the label of each event, in event order. */
  function Markers(evs: seq<Event>): seq<Primitive> {
    if evs == [] then []
    else [VLine(evs[0].date), Annotation(evs[0].date, DisplayLabel(Str(evs[0].shock)))] + Markers(evs[1..])
  }

  /** The hover trace, present only when some event has a magnitude. */
  function HoverTraces(al: seq<AlignedEvent>): seq<Primitive> {
    var h := Filter(al, HasMagnitude);
    if h == [] then [] else [HoverTrace(h)]
  }

  /** The primitives the overlay appends for the cleaned series and events: nothing when
      either is empty, else every event's line and label followed by the hover trace. */
  function Draw(pts: seq<Point>, evs: seq<Event>): seq<Primitive> {
    if |pts| == 0 || |evs| == 0 then []
    else Markers(evs) + HoverTraces(Aligned(pts, evs))
  }

  /** What the overlay leaves behind when it does not halt: the caller's series rows
      after the in-place date coercion, and the primitives appended to the figure. */
  datatype Overlay = Overlay(rows: seq<seq<Cell>>, added: seq<Primitive>)

  /** The overlay as a whole, given the series table, the names of its x and y columns
      and the events table as read. */
  function CrashOverlay(columns: seq<string>, rows: seq<seq<Cell>>, xCol: string, yCol: string,
                        events: RawFrame, parseDate: string -> Option<int>,
                        parseNumber: string -> Option<real>): Result<Overlay, ConfigError>
    requires xCol in columns && yCol in columns
  {
    var eventColumns := TrimColumns(events.columns);
    if !HasAll((set c | c in REQUIRED_EVENT_COLUMNS), eventColumns) then
      Failure(MissingEventColumns(REQUIRED_EVENT_COLUMNS, eventColumns))
    else
      HasAllIffNoneMissing(REQUIRED_EVENT_COLUMNS, eventColumns);
      MissingExactly(REQUIRED_EVENT_COLUMNS, eventColumns);
      var evs := CleanEvents(eventColumns, events.rows, parseDate, parseNumber);
      var xi := IndexOf(columns, xCol);
      var coerced := CoerceColumn(rows, xi, parseDate);
      Success(Overlay(coerced, Draw(SeriesPoints(coerced, xi, IndexOf(columns, yCol)), evs)))
  }

  /** The chart the overlay draws on. */
  class Figure {
    var primitives: seq<Primitive>

    constructor (traces: seq<Primitive>)
      ensures primitives == traces
    {
      primitives := traces;
    }

    /** `fig.add_vline(x=...)`. */
    method AddVline(x: int)
      modifies this
      ensures primitives == old(primitives) + [VLine(x)]
    {
      primitives := primitives + [VLine(x)];
    }

    /** `fig.add_annotation(x=..., text=...)`. */
    method AddAnnotation(x: int, text: string)
      modifies this
      ensures primitives == old(primitives) + [Annotation(x, text)]
    {
      primitives := primitives + [Annotation(x, text)];
    }

    /** `fig.add_trace(...)`. */
    method AddTrace(trace: Primitive)
      modifies this
      ensures primitives == old(primitives) + [trace]
    {
      primitives := primitives + [trace];
    }
  }

  /** Appending one event appends its line and its label. */
  lemma {:induction false} MarkersAppend(evs: seq<Event>, e: Event)
    ensures Markers(evs + [e]) == Markers(evs) + [VLine(e.date), Annotation(e.date, DisplayLabel(Str(e.shock)))]
  {
    if evs == [] {
      assert evs + [e] == [e];
    } else {
      assert (evs + [e])[1..] == evs[1..] + [e];
      MarkersAppend(evs[1..], e);
    }
  }

  /** The drawing half of `add_crash_events`, once the series and the events are clean:
      nothing when either is empty; otherwise the aligned values, then a line and a label
      per event, then the hover trace if any event has a magnitude. */
  method DrawOverlay(fig: Figure, pts: seq<Point>, evs: seq<Event>)
    requires SortedBy(pts, PointX)
    modifies fig
    ensures fig.primitives == old(fig.primitives) + Draw(pts, evs)
  {
    if |pts| == 0 || |evs| == 0 {
      return;
    }
    var xs := Xs(pts);
    PointsSorted(pts);
    var eventY := AlignEvents(xs, Ys(pts), Dates(evs));
    var aligned := seq(|evs|, k requires 0 <= k < |evs| => AlignedEvent(evs[k], eventY[k]));
    assert aligned == Aligned(pts, evs);

    for k := 0 to |evs|
      invariant fig.primitives == old(fig.primitives) + Markers(evs[..k])
    {
      fig.AddVline(evs[k].date);
      fig.AddAnnotation(evs[k].date, DisplayLabel(Str(evs[k].shock)));
      MarkersAppend(evs[..k], evs[k]);
      assert evs[..k + 1] == evs[..k] + [evs[k]];
    }
    assert evs[..|evs|] == evs;

    var hover := Filter(aligned, HasMagnitude);
    if |hover| == 0 {
      return;
    }
    fig.AddTrace(HoverTrace(hover));
  }

  /** `add_crash_events`: halts with the error when the events table lacks a required
      column, before touching anything; otherwise coerces the caller's x column in place
      and appends the overlay to the figure. */
  method AddCrashEvents(fig: Figure, df: DataFrame, xCol: string, yCol: string, events: RawFrame,
                        parseDate: string -> Option<int>, parseNumber: string -> Option<real>)
    returns (halt: Option<ConfigError>)
    requires xCol in df.columns && yCol in df.columns
    modifies fig, df
    ensures df.columns == old(df.columns)
    ensures var r := CrashOverlay(old(df.columns), old(df.rows), xCol, yCol, events, parseDate, parseNumber);
            match r
            case Failure(e) => halt == Some(e) && df.rows == old(df.rows) && fig.primitives == old(fig.primitives)
            case Success(o) => halt == None && df.rows == o.rows && fig.primitives == old(fig.primitives) + o.added
  {
    var eventColumns := TrimColumns(events.columns);
    if !HasAll((set c | c in REQUIRED_EVENT_COLUMNS), eventColumns) {
      return Some(MissingEventColumns(REQUIRED_EVENT_COLUMNS, eventColumns));
    }
    HasAllIffNoneMissing(REQUIRED_EVENT_COLUMNS, eventColumns);
    MissingExactly(REQUIRED_EVENT_COLUMNS, eventColumns);
    var evs := CleanEvents(eventColumns, events.rows, parseDate, parseNumber);

    var xi, yi := IndexOf(df.columns, xCol), IndexOf(df.columns, yCol);
    df.CoerceDates(xi, parseDate);
    DrawOverlay(fig, SeriesPoints(df.rows, xi, yi), evs);
    halt := None;
  }

  // Properties of the overlay

  /** The overlay halts exactly when a required column is missing from the stripped
      header of the events table, and the message lists all three required names, sorted,
      and the names it saw. */
  lemma CrashOverlayHalts(columns: seq<string>, rows: seq<seq<Cell>>, xCol: string, yCol: string,
                          events: RawFrame, parseDate: string -> Option<int>,
                          parseNumber: string -> Option<real>)
    requires xCol in columns && yCol in columns
    ensures var r := CrashOverlay(columns, rows, xCol, yCol, events, parseDate, parseNumber);
            r.Failure? <==> exists c :: c in REQUIRED_EVENT_COLUMNS && c !in TrimColumns(events.columns)
    ensures var r := CrashOverlay(columns, rows, xCol, yCol, events, parseDate, parseNumber);
            r.Failure? ==> r.error == MissingEventColumns(["date", "opt_max_ret_pct", "shock"], TrimColumns(events.columns))
  {
    HasAllIffNoneMissing(REQUIRED_EVENT_COLUMNS, TrimColumns(events.columns));
    MissingExactly(REQUIRED_EVENT_COLUMNS, TrimColumns(events.columns));
  }

  /** The events are exactly the rows whose date parsed, ordered by date: one event per
      such row, and the count falls by exactly the number of dates that did not parse. */
  lemma CleanEventsSpec(columns: seq<string>, rows: seq<seq<RawCell>>,
                        parseDate: string -> Option<int>, parseNumber: string -> Option<real>)
    requires forall c :: c in REQUIRED_EVENT_COLUMNS ==> c in columns
    ensures var evs := CleanEvents(columns, rows, parseDate, parseNumber);
            var di := IndexOf(columns, "date");
            && SortedBy(evs, EventDate)
            && multiset(evs) == multiset(RowEvents(columns, rows, parseDate, parseNumber))
            && |evs| + Count(rows, row => DateOf(RawAt(row, di), parseDate).None?) == |rows|
  {
    var di := IndexOf(columns, "date");
    CountComplement(rows, row => DateOf(RawAt(row, di), parseDate).Some?, row => DateOf(RawAt(row, di), parseDate).None?);
  }

  /** The cleaned series holds one point per row with both a timestamp and a value, in
      timestamp order; the rows lacking either are the only ones dropped. */
  lemma SeriesPointsSpec(rows: seq<seq<Cell>>, xi: nat, yi: nat)
    ensures var pts := SeriesPoints(rows, xi, yi);
            && SortedBy(pts, PointX)
            && multiset(pts) == multiset(RowPoints(rows, xi, yi))
            && |pts| + Count(rows, row => !CellAt(row, xi).Stamp? || CellAt(row, yi).Blank?) == |rows|
  {
    CountComplement(rows, row => CellAt(row, xi).Stamp? && !CellAt(row, yi).Blank?,
                    row => !CellAt(row, xi).Stamp? || CellAt(row, yi).Blank?);
  }

  /** Points in timestamp order give sorted timestamps for the search. */
  lemma PointsSorted(pts: seq<Point>)
    requires SortedBy(pts, PointX)
    ensures Sorted(Xs(pts))
  {
  }

  /** The value an event is drawn against is the series value "as of" its date: that of
      the latest timestamp at or before the date, or the first value when the event is
      earlier than all the data. */
  lemma AlignedValue(pts: seq<Point>, evs: seq<Event>, k: nat)
    requires SortedBy(pts, PointX) && |pts| > 0 && k < |evs|
    ensures var d := evs[k].date;
            var i := AlignIndex(Xs(pts), d);
            && Aligned(pts, evs)[k].y == pts[i].y
            && ((exists j :: 0 <= j < |pts| && pts[j].x <= d) ==>
                  && pts[i].x <= d
                  && (i == |pts| - 1 || d < pts[i + 1].x)
                  && forall j :: 0 <= j < |pts| && pts[j].x <= d ==> pts[j].x <= pts[i].x)
            && (d < pts[0].x ==> i == 0)
  {
    var d := evs[k].date;
    var xs := Xs(pts);
    if exists j :: 0 <= j < |pts| && pts[j].x <= d {
      var j :| 0 <= j < |pts| && pts[j].x <= d;
      assert xs[j] <= d;
      AlignIndexIsLatest(xs, d);
    }
    if d < pts[0].x {
      AlignIndexBeforeAll(xs, d);
    }
  }

  /** Events in date order are drawn against rows in non-decreasing order; events on the
      same date are drawn against the same row. */
  lemma AlignedRowsNondecreasing(pts: seq<Point>, evs: seq<Event>)
    requires |pts| > 0 && SortedBy(evs, EventDate)
    ensures forall k1, k2 :: 0 <= k1 <= k2 < |evs| ==>
              AlignIndex(Xs(pts), evs[k1].date) <= AlignIndex(Xs(pts), evs[k2].date)
  {
    forall k1, k2 | 0 <= k1 <= k2 < |evs|
      ensures AlignIndex(Xs(pts), evs[k1].date) <= AlignIndex(Xs(pts), evs[k2].date)
    {
      if k1 < k2 {
        assert EventDate(evs[k1]) <= EventDate(evs[k2]);
      }
      AlignIndexMonotone(Xs(pts), evs[k1].date, evs[k2].date);
    }
  }

  /** Every event contributes exactly one line and one label, in event order: the line
      at its date and the label, abbreviated when known, at its date. */
  lemma {:induction false} MarkersShape(evs: seq<Event>)
    ensures |Markers(evs)| == 2 * |evs|
    ensures forall k :: 0 <= k < |evs| ==>
              && Markers(evs)[2 * k] == VLine(evs[k].date)
              && Markers(evs)[2 * k + 1] == Annotation(evs[k].date, DisplayLabel(Str(evs[k].shock)))
  {
    if evs != [] {
      MarkersShape(evs[1..]);
      var m := Markers(evs);
      var rest := Markers(evs[1..]);
      assert m == [VLine(evs[0].date), Annotation(evs[0].date, DisplayLabel(Str(evs[0].shock)))] + rest;
      forall k | 1 <= k < |evs|
        ensures m[2 * k] == VLine(evs[k].date)
        ensures m[2 * k + 1] == Annotation(evs[k].date, DisplayLabel(Str(evs[k].shock)))
      {
        assert m[2 * k] == rest[2 * (k - 1)];
        assert m[2 * k + 1] == rest[2 * (k - 1) + 1];
        assert evs[1..][k - 1] == evs[k];
      }
    }
  }

  /** The overlay draws nothing exactly when the cleaned series or the cleaned events are
      empty. */
  lemma DrawNothingIffEmpty(pts: seq<Point>, evs: seq<Event>)
    ensures Draw(pts, evs) == [] <==> |pts| == 0 || |evs| == 0
  {
    MarkersShape(evs);
  }

  /** The hover trace is there exactly when some aligned event has a magnitude, and its
      points are exactly those aligned events, in their order, one point per event (two
      identical events give two points). */
  lemma HoverTracesShape(al: seq<AlignedEvent>)
    ensures var anyMagnitude := exists k :: 0 <= k < |al| && HasMagnitude(al[k]);
            && |HoverTraces(al)| == (if anyMagnitude then 1 else 0)
            && (anyMagnitude ==>
                  && HoverTraces(al)[0].HoverTrace?
                  && IsSubsequence(HoverTraces(al)[0].points, al)
                  && |HoverTraces(al)[0].points| == Count(al, HasMagnitude)
                  && forall k :: 0 <= k < |al| ==> (al[k] in HoverTraces(al)[0].points <==> HasMagnitude(al[k])))
  {
    var h := Filter(al, HasMagnitude);
    if exists k :: 0 <= k < |al| && HasMagnitude(al[k]) {
      var k :| 0 <= k < |al| && HasMagnitude(al[k]);
      assert al[k] in h;
    } else {
      CountNone(al, HasMagnitude);
    }
  }

  /** With data on both sides, the overlay is every event's line and label followed by at
      most one hover trace; the trace is there exactly when some event has a magnitude,
      and its points are exactly the aligned events with a magnitude, in date order. */
  lemma DrawShape(pts: seq<Point>, evs: seq<Event>)
    requires |pts| > 0 && |evs| > 0
    ensures var out := Draw(pts, evs);
            var al := Aligned(pts, evs);
            var anyMagnitude := exists k :: 0 <= k < |evs| && evs[k].magnitude.Some?;
            && |out| == 2 * |evs| + (if anyMagnitude then 1 else 0)
            && (forall k :: 0 <= k < |evs| ==>
                  out[2 * k] == VLine(evs[k].date)
                  && out[2 * k + 1] == Annotation(evs[k].date, DisplayLabel(Str(evs[k].shock))))
            && (anyMagnitude ==>
                  && out[2 * |evs|].HoverTrace?
                  && IsSubsequence(out[2 * |evs|].points, al)
                  && |out[2 * |evs|].points| == Count(al, HasMagnitude)
                  && (forall k :: 0 <= k < |evs| ==> (al[k] in out[2 * |evs|].points <==> evs[k].magnitude.Some?)))
  {
    MarkersShape(evs);
    var al := Aligned(pts, evs);
    HoverTracesShape(al);
    assert forall k :: 0 <= k < |evs| ==> (HasMagnitude(al[k]) <==> evs[k].magnitude.Some?);
    var out := Draw(pts, evs);
    assert out == Markers(evs) + HoverTraces(al);
    assert forall i :: 0 <= i < |Markers(evs)| ==> out[i] == Markers(evs)[i];
    if exists k :: 0 <= k < |evs| && evs[k].magnitude.Some? {
      assert out[2 * |evs|] == HoverTraces(al)[0];
    }
  }

  /** The abbreviation table gives every known shock its own code, so the short label
      still tells known shocks apart. */
  lemma ShortCodesDistinct()
    ensures forall a, b :: a in SHORT_LABEL && b in SHORT_LABEL && a != b ==> SHORT_LABEL[a] != SHORT_LABEL[b]
  {
  }

  /** No short code is itself a known shock name, so abbreviating twice is abbreviating
      once. */
  lemma DisplayLabelIdempotent(shock: string)
    ensures DisplayLabel(DisplayLabel(shock)) == DisplayLabel(shock)
  {
  }

  /** `Lehman Collapse Shock` is shown as `LEH`; an unknown label is shown as it is. */
  lemma DisplayLabelExamples()
    ensures DisplayLabel("Lehman Collapse Shock") == "LEH"
    ensures DisplayLabel("Random Custom Event") == "Random Custom Event"
    ensures |SHORT_LABEL| == 8
  {
  }
}
