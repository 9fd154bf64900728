# Shock-event overlay of the option-return dashboard

This project models the data logic behind the dashboard's main chart and proves
properties of it in Dafny. The chart has three parts:

- **Series loader.** It reads the primary CSV and strips the header names. It picks the
  date column as the first of `日付`, `date`, `Date`, `DATE` that is present. It coerces
  that column to timestamps and drops the rows whose date did not parse. Then it insists
  on the three value columns `①`, `②`, `③`.
- **Three series lines.** One line is drawn per value column.
- **Shock-event overlay** (`add_crash_events`). It reads the events CSV, strips its
  header, and insists on `date`, `shock` and `opt_max_ret_pct`. It coerces the caller's
  x column in place. It cleans and sorts both the series and the events. It aligns every
  event with the series value "as of" its date: a right-biased binary search, then an
  offset and a clamp. It draws a dotted vertical line and a short label per event, then
  one invisible hover trace holding the events whose magnitude parsed.

A missing column halts the page with an error message. Every message shows the column
names seen. The value-column message also lists the missing value columns, and the
events message lists all three required names. In the model this is a
`Failure(ConfigError)` result carrying those names.

Modules, one per concern:

| file | module | contents |
|---|---|---|
| `wrappers.dfy` | `Wrappers` | `Option`, `Result` |
| `seqs.dfy` | `Seqs` | order-keeping filter, count, subsequence, a sort specified by sortedness and permutation |
| `columns.dfy` | `Columns` | `str.strip()`, header trimming, the first-match alias search, the missing-column list, the subset check |
| `frames.dfy` | `Frames` | CSV fields and cells, date coercion of a column, the `DataFrame` class the overlay coerces in place, the errors that halt the page |
| `series_loader.dfy` | `SeriesLoader` | the loader |
| `alignment.dfy` | `Alignment` | `searchsorted(side="right")` as a specification function and as a binary-search method, the clamped index, the alignment loop |
| `crash_events.dfy` | `CrashEvents` | the overlay: `CrashOverlay` specifies it as a function, and `AddCrashEvents` performs it on a `Figure` and a `DataFrame` |
| `page.dfy` | `Page` | loader, then the three lines, then the overlay, in page order |

Some inputs are parameters of the model:

- The two parsers are parameters. `parseDate: string -> Option<int>` stands for
  `pd.to_datetime(..., errors="coerce")` on one field. `parseNumber: string -> Option<real>`
  stands for `pd.to_numeric(..., errors="coerce")`.
- Timestamps are integers ordered as time.
- A CSV field is `Option<string>`. `None` is a field the reader turns into NaN.
- The CSV files are given as already-read tables (`RawFrame`).

## Model

| member | source | states |
|---|---|---|
| Columns.StripPadded | app.py:186 | a header name padded with any Python whitespace on either side strips to the bare name, so `" date "` is matched as `date` |
| Columns.StripIdempotent | app.py:67 | stripping a stripped name changes nothing |
| Columns.StripCutsWhitespace | app.py:186 | stripping keeps one contiguous middle part of the name and removes only whitespace on either side |
| Columns.TrimColumns | app.py:67 | the trimmed header has one name per original column, each the stripped original |
| Columns.FirstPresent | app.py:189-190 | the alias search returns nothing exactly when no candidate is a column; otherwise it returns the earliest candidate that is a column, and every earlier candidate is absent |
| Columns.IndexOf | app.py:197 | the column selected by name is the first position holding that name |
| Columns.MissingExactly | app.py:202 | the missing list holds exactly the wanted names that are not columns, in wanted order, and it is empty exactly when all are present |
| Columns.HasAllIffNoneMissing | app.py:69-70 | the subset check fails exactly when the missing list is non-empty |
| Frames.ToStamp | app.py:197 | coercing a field gives a timestamp exactly when the field is present and parses, and NaT otherwise; a timestamp is kept |
| Frames.CoerceColumn | app.py:79 | date coercion changes only the named column, and that column is coerced cell by cell in every row |
| Frames.CoerceStampedColumn | app.py:79 | coercing a column that holds only timestamps changes nothing |
| Frames.CoerceIdempotent | app.py:79 | coercing a column twice is coercing it once |
| Frames.DataFrame.CoerceDates | app.py:79 | the in-place coercion keeps the header and replaces the rows by their coercion |
| SeriesLoader.CoercedRows | app.py:197 | after coercion a row has a timestamp in the date column exactly when its date field was present and parsed |
| SeriesLoader.LoadSeriesDateColumn | app.py:186-194 | the loader halts with the stripped names exactly when no alias is a stripped header name; otherwise the date column is the first alias present |
| SeriesLoader.LoadSeriesValueColumns | app.py:200-205 | once a date column is found, the loader halts exactly when a value column is absent, and it reports exactly the absent ones, in order, with the stripped names |
| SeriesLoader.LoadSeriesRows | app.py:196-198 | the loaded rows are exactly the rows whose date parsed, in original order, each with a timestamp; the row count falls by exactly the number of unparsed dates |
| SeriesLoader.CleanHeaderLoads | app.py:186-205 | a header with no padding, some alias and all three value columns loads, with that header and the first alias present as the date column |
| SeriesLoader.EachAliasLoads | app.py:189-190 | each of the four aliases, alone with the value columns, is found as the date column |
| SeriesLoader.LoadSeriesSeesStrippedNames | app.py:186 | two tables whose header names strip alike load alike |
| SeriesLoader.PaddedDateHeaderLoads | app.py:186-190 | a whitespace-padded `date` header is found as the date column `date` |
| Alignment.SearchSortedSplits | app.py:94 | on sorted timestamps the right-side search position splits them into those at or before the date and those after it |
| Alignment.SearchSortedMonotone | app.py:94 | a later date never gives an earlier search position |
| Alignment.SearchSortedRight | app.py:94 | the binary search returns the position that splits the sorted timestamps into those at or before the date and those after it |
| Alignment.AlignIndex | app.py:94-95 | the clamped index is always a valid row index |
| Alignment.AlignIndexIsLatest | app.py:94-95 | when some timestamp is at or before the date, the index picks the latest such one: it is at or before the date, the next is after it, and none at or before it is later |
| Alignment.AlignIndexBeforeAll | app.py:95 | a date before all the data is clamped to the first row |
| Alignment.AlignIndexMonotone | app.py:93-95 | a later date never lands on an earlier row; equal dates land on the same row |
| Alignment.ForwardFillExample | app.py:91-96 | a mid-month date reads the value of the month's first day, a date on or after the last timestamp reads the last value, and a date before the data reads the first value |
| Alignment.AlignEvents | app.py:92-97 | the loop yields one value per event, in event order, each the value at that event's clamped index |
| CrashEvents.DisplayLabel | app.py:110 | the displayed label is never longer than the raw label |
| CrashEvents.DisplayLabelExamples | app.py:53-62 | `Lehman Collapse Shock` displays as `LEH`, an unknown label displays as itself, and the table has eight entries |
| CrashEvents.ShortCodesDistinct | app.py:53-62 | no two known shocks share a short code |
| CrashEvents.DisplayLabelIdempotent | app.py:53-62 | no short code is itself a known shock, so abbreviating twice is abbreviating once |
| CrashEvents.DateOf | app.py:75 | an event date is present exactly when its field is present and parses |
| CrashEvents.NumberOf | app.py:76 | a magnitude is present exactly when its field is present and parses |
| CrashEvents.RowEvents | app.py:75-83 | one event per row whose date parsed, in file order, carrying that row's parsed date, raw label and parsed magnitude |
| CrashEvents.RowPoints | app.py:82 | one point per series row with a timestamp and a value, in table order, carrying both |
| CrashEvents.Aligned | app.py:88-97 | one aligned event per event, in order, each carrying its event |
| CrashEvents.CrashOverlayHalts | app.py:67-72 | the overlay halts exactly when a required column is missing from the stripped events header, and it reports the three required names, sorted, with the names it saw |
| CrashEvents.CleanEventsSpec | app.py:75-83 | the cleaned events are sorted by date and are a permutation of the dated rows' events; their count is the row count minus the number of unparsed dates |
| CrashEvents.SeriesPointsSpec | app.py:79-82 | the cleaned series is sorted by timestamp and is a permutation of the rows having both a timestamp and a value; only rows lacking one are dropped |
| CrashEvents.PointsSorted | app.py:82 | the cleaned series gives the sorted timestamps the search needs |
| CrashEvents.AlignedValue | app.py:88-97 | each event is drawn against the series value of the latest timestamp at or before its date, or against the first value when it is earlier than all data |
| CrashEvents.AlignedRowsNondecreasing | app.py:83-95 | events in date order are drawn against rows in non-decreasing order |
| CrashEvents.MarkersShape | app.py:100-115 | every event gives exactly one vertical line and one label at its date, in event order, and the label is the abbreviation when known |
| CrashEvents.MarkersAppend | app.py:100-115 | one more event appends exactly its line and its label |
| CrashEvents.DrawNothingIffEmpty | app.py:85-86 | the overlay adds nothing exactly when the cleaned series or the cleaned events are empty |
| CrashEvents.HoverTracesShape | app.py:118-134 | the hover trace is there exactly when some event has a magnitude, and its points are exactly those events, in order, one point per event |
| CrashEvents.DrawShape | app.py:100-134 | with data on both sides, the overlay is each event's line and label followed by one hover trace exactly when some magnitude parsed, holding exactly the events with a magnitude, one point each, in date order |
| CrashEvents.Figure.AddVline | app.py:101-107 | adding a vertical line appends it to the figure |
| CrashEvents.Figure.AddAnnotation | app.py:108-115 | adding a label appends it to the figure |
| CrashEvents.Figure.AddTrace | app.py:122-134 | adding a trace appends it to the figure |
| CrashEvents.DrawOverlay | app.py:85-134 | the drawing steps append to the figure exactly the primitives the overlay specification gives for the cleaned series and events |
| CrashEvents.AddCrashEvents | app.py:50-136 | on a missing event column the overlay halts with that error and leaves the figure and the frame as they were; otherwise the frame's x column is coerced in place and the figure gains exactly the overlay's primitives |
| Page.LoadedColumns | app.py:190-205 | a loaded series has its date column and all three value columns |
| Page.LoadedDatesStamped | app.py:197-198 | every loaded row holds a timestamp in the date column |
| Page.OverlayKeepsLoadedSeries | app.py:231-237 | the overlay's in-place coercion leaves the loaded series unchanged |
| Page.RenderChartOutcome | app.py:183-237 | the page halts exactly when the loader halts or an event column is missing, with a loader error reported first; otherwise the chart is the three series lines followed by exactly the overlay's primitives for the loaded series |

## Left out

- Streamlit: the page styling, the widget embeds, the tabs, and showing the chart and
  the error message. Halting with `st.error` and `st.stop` is modelled as a
  `Failure(ConfigError)` result; the message text is reduced to the names it shows (the
  names seen, plus the missing value columns or the required event columns).
- Plotly styling: colours, widths, opacity, fonts, anchors and layout. A primitive
  records only its position, its text or its hover points. The three series lines are
  recorded by column name only.
- Reading the CSV files. The tables arrive already read, with an empty field as `None`.
  The reader's type inference is not modelled. For example, a label column that pandas
  reads as floating-point numbers (numeric labels with a blank among them) prints as
  `1.0` rather than `1`.
- The parsing rules of `pd.to_datetime` and `pd.to_numeric`. Each is a parameter
  applied field by field. Format inference across a whole column is not modelled.
- The `float()` conversion of the aligned value, and the `:.0f` hover formatting.
  Aligned values stay cells. A value that `float()` would reject is not modelled as an
  error.
- CrashEvents.CleanEventsSpec: states sortedness and permutation only, not which of
  several events on the same date comes first. pandas' default sort is not stable. The
  model's sort is stable.
- CrashEvents.SeriesPointsSpec: same for rows sharing a timestamp. So the model does not
  say which of them supplies an aligned value.
- Duplicate header names after stripping. Selecting a duplicated name in pandas yields
  several columns; the model uses the first.
- CrashEvents.AddCrashEvents: requires that the x and y column names are columns of the
  frame. pandas raises a `KeyError` otherwise. The page always passes the loader's date
  column and `①`, and `Page.LoadedColumns` proves both are present.
- NaN or infinite magnitudes produced by parsing: only "parsed" or "did not parse" is
  modelled.
- An empty primary series is not an error: the loader returns it, the overlay then draws
  nothing, and the model does the same.
