# Advanced Measure Tool — measurement session model

A Dafny model of the measuring map tool of the QGIS "Advanced Measure Tool"
plugin. The user clicks points on the map canvas. The tool keeps an
in-memory segment table: one row per click. Each row starts at a click point
and ends at the next one. Each completed row stores its geodesic length and
the running total, in metres and nautical miles. A double-click turns the
completed rows into output line features. Escape clears the drawings.

The model is functional. A `Tool` value holds:
- the session fields of `_MeasureMapTool`: `table_rows`, `n`,
  `point_id_counter`, `var_cum_length_m`, `click_count`, `last_point` and
  `is_measuring`;
- the two rubber bands, as cleared / non-empty flags;
- the distance calculator configured when the tool was built.

Each canvas event handler is a pure function from a `Tool` to the next
`Tool` and what the user sees (`Handled`). The host services are passed in
as function values in a `Services` datatype:
- the geodesic length (`QgsDistanceArea.measureLength`);
- Python's `round`;
- the `:.4f` formatting;
- the transformation to EPSG:4326.

Each service is a fixed function of its arguments; the project's coordinate
transform context, which the code reads next to the CRS, is folded into
`measureLength` and `toWgs84` (see Left out). So every property is proved for
every possible behaviour of those services,
with one exception: `Geo.LatitudeFirst` assumes that the formatted latitude
contains no comma. `:.4f` renders a number as digits, an optional minus sign
and a decimal point, so its output never contains one.

Modules:
- `Geo` (`geo.dfy`): points, CRSs, the calculator configuration, the services,
  and the "latitude, longitude" text.
- `Table` (`table.dfy`): rows, the chained shape of the table, and the
  accounting of raw lengths against stored rounded lengths.
- `Finalize` (`finalize.dfy`): the complete-row filter and the output records.
- `MeasureMapTool` (`measure_map_tool.dfy`): the event handlers, the
  reachable-state invariant, and the lemmas about clicks, finishing and traces.
- `EarlyFinish` (`early_finish.dfy`): the zero-complete-row finish as written,
  and a corrected version (see Findings).
- `Plugin` (`plugin.dfy`): the toolbar toggle that reuses one tool instance.

The key invariants are `MeasureMapTool.Valid` and `MeasureMapTool.Consistent`.
`Valid` holds in every reachable state:
- the table is chained: ids are 1..k, each row ends where the next starts,
  and only the last row is open;
- there is one row per counted click;
- `n` is the index of the last row;
- the counter equals the number of rows.

`Consistent` relates the table to a ghost sequence of raw segment lengths:
- each raw length was measured between its row's stored endpoints;
- the accumulator is their sum;
- each row stores its rounded length and the rounded running total.

## Behaviour that follows the code

The model follows `AdvancedMeasureTool.py` as written, including where a
reader might expect something else. Some of these points contradict the
code's own comments; those comments are cited.
- A segment's length is measured between the row's stored, 6-decimal-rounded
  endpoints (lines 325-328), not between the raw click points.
- The move preview measures with the calculator built in `__init__`
  (line 183), not a fresh one, although the helper's docstring
  (lines 316-317) gives the reason for a fresh calculator: avoiding CRS
  mismatch after CRS changes. The preview also measures from the unrounded
  last point. So after a CRS change, the preview and the committed length may
  differ.
- A press with a button other than left does nothing (lines 112-113). No
  right-click undo exists, though the class docstring (lines 71-72) promises
  one.
- Escape only clears the drawings (lines 305-309), although its comment
  (line 304) says it cancels the measurement. The table, the counters and the
  measuring flag are left as they were.
- Switching the tool off and on keeps the same instance and its in-progress
  session (lines 59-67). Nothing is torn down.
- A finish with no completed row returns early without resetting
  (lines 217-222). See Findings.

## Model

| member | source | states |
|---|---|---|
| Geo.Calculator | AdvancedMeasureTool.py:315-322 | the calculator measures in the canvas CRS of that moment; its ellipsoid string is the project's, used as it is, unless that string is empty, in which case it is WGS84; so it is never empty |
| Geo.ToGeographic | AdvancedMeasureTool.py:255-265 | in a geographic CRS a point passes through untransformed; otherwise it is the EPSG:4326 transform of the point |
| Geo.LatitudeFirst | AdvancedMeasureTool.py:267-269 | the coordinate text is latitude first: when the formatted y has no comma (as `:.4f` output never does), splitting the text at its first comma gives the formatted y, then the formatted x |
| Finalize.CompleteRows | AdvancedMeasureTool.py:219-220 | keeps exactly the rows that have an end point, and only those; when every row is complete, it keeps the whole table |
| Finalize.CompleteRowsAppend | AdvancedMeasureTool.py:219-220 | the filter distributes over concatenation: the complete rows of a joined table are those of each part, in order |
| Finalize.CompleteRowsOfChain | AdvancedMeasureTool.py:219-222 | on a table reachable by clicking, the complete rows are all rows but the open last one, so none exist with fewer than two rows |
| Finalize.RecordOf | AdvancedMeasureTool.py:246-279 | a record copies its row's Line_ID, endpoints and four stored lengths unchanged; Start and Stop describe the endpoints in lon/lat, latitude first |
| Finalize.BuildRecords | AdvancedMeasureTool.py:246-280 | one record per completed row, in table order |
| Finalize.GeographicPassThrough | AdvancedMeasureTool.py:255-269 | in a geographic CRS, Start and Stop are the stored coordinates formatted as "y, x", with no transformation |
| Finalize.RecordsOfAccountedChain | AdvancedMeasureTool.py:246-279 | from k+1 accounted rows there are k records with Line_IDs 1..k, each carrying the rounded raw length and the rounded running total through it; each Stop equals the next record's Start |
| MeasureMapTool.NewTool | AdvancedMeasureTool.py:74-106 | a new tool holds an empty, valid, non-measuring session with no click counted, cleared drawings, and a calculator configured from the host state of that moment (canvas CRS; project ellipsoid, or WGS84 when it is empty) |
| MeasureMapTool.StartNewMeasurement | AdvancedMeasureTool.py:347-356 | starting clears the table, counters, accumulator, last point and drawings, and enters measuring with one click counted |
| MeasureMapTool.CalculateSegment | AdvancedMeasureTool.py:324-340 | the accumulator grows by exactly the raw length between the row's stored endpoints; the row stores that length and the new accumulator, rounded (nautical miles = metres / 1852); no other row or field changes |
| MeasureMapTool.PressEvent | AdvancedMeasureTool.py:111-164 | a non-left press leaves the whole tool unchanged; a left press counts exactly one more click, sets the last point to the click point, and leaves an open last row at the rounded click point |
| MeasureMapTool.MoveEvent | AdvancedMeasureTool.py:170-196 | the session is never changed; a preview is shown exactly when measuring with a last point; its total is the accumulator plus the hypothetical length, and its nautical miles are its metres / 1852 |
| MeasureMapTool.KeyPressEvent | AdvancedMeasureTool.py:303-309 | Escape clears both drawings and shows the cancel notice with the session untouched; other keys do nothing |
| MeasureMapTool.FinishMeasurement | AdvancedMeasureTool.py:216-298 | measuring stops; a layer is emitted if and only if some row is complete; if so, the records are those of the complete rows and the whole session is reset; if not, only the measuring flag changes |
| MeasureMapTool.DoubleClickEvent | AdvancedMeasureTool.py:202-210 | outside a measurement it does nothing; inside one it clears the preview and then is exactly the finish of the measurement, so measuring ends |
| MeasureMapTool.FirstClickStartsSession | AdvancedMeasureTool.py:116-134 | whatever the table held, the first left click leaves one row: Line_ID 1, starting at the rounded click point, with no end and no lengths; counters and accumulator are reset, measuring is on, and the last point is the click point |
| MeasureMapTool.SubsequentClickChains | AdvancedMeasureTool.py:136-164 | a later left click ends row n at the rounded click point and stores its rounded lengths; the raw length is added to the accumulator; row n+1 starts at that same point with the next Line_ID; earlier rows are unchanged; the last point becomes the click point |
| MeasureMapTool.LeftClickShape | AdvancedMeasureTool.py:116-164 | after every left click n = rows - 1, the counter equals the number of rows, row i has Line_ID i+1, every row but the last has P2 set, and the last row has none |
| MeasureMapTool.PressKeepsAccounts | AdvancedMeasureTool.py:136-142 | a completing click appends exactly its measured raw length to the accounted lengths; a first click restarts them from empty |
| MeasureMapTool.StepKeepsAccounts | AdvancedMeasureTool.py:111-309 | no event rewrites a committed raw length: each event keeps the lengths, appends one, or (on a reset) empties them |
| MeasureMapTool.RunKeepsAccounts | AdvancedMeasureTool.py:324-340 | over any event sequence, the accumulator equals the sum of the raw lengths of the completed rows, and every row stores its rounded length and rounded running total |
| MeasureMapTool.ReachableSessions | AdvancedMeasureTool.py:82-106 | every session reachable from a new tool is valid and fully accounted |
| MeasureMapTool.FinishEmitsCompletedSegments | AdvancedMeasureTool.py:216-298 | a double-click while measuring emits a layer if and only if there are at least two rows; its k records have Line_IDs 1..k and carry the rounded raw lengths and running totals, and the session is then empty; otherwise nothing is emitted and only the measuring flag changes |
| MeasureMapTool.OnlySessionMatters | AdvancedMeasureTool.py:170-196 | previews and Escape cannot affect later behaviour: tools with the same session and calculator give the same outputs and sessions for every event sequence |
| EarlyFinish.LockedAfterImmediateDoubleClick | AdvancedMeasureTool.py:202-222 | a left press on a new tool followed by a double-click leaves clicks counted and measuring off |
| EarlyFinish.EarlyFinishLocksSession | AdvancedMeasureTool.py:216-222 | as written, from that state no event sequence restarts measuring or emits a layer |
| EarlyFinish.FinishCorrected | AdvancedMeasureTool.py:216-222 | corrected finish: it always leaves an empty session, and emits the same layer as `FinishMeasurement` exactly when some row is complete; otherwise it emits nothing and clears the committed line |
| EarlyFinish.StepCorrectedKeepsLive | AdvancedMeasureTool.py:216-222 | with the corrected finish, every event keeps "measuring exactly while clicks are counted", so the locked state is unreachable |
| Plugin.ToggleTool | AdvancedMeasureTool.py:59-67 | the tool is built at most once and then reused with its session; the action is checked exactly when the canvas has the tool; a toggle activates unless the tool was active, and deactivating leaves the canvas with no map tool |
| Plugin.Dispatch | AdvancedMeasureTool.py:62-67 | canvas events change the tool only while the canvas has it |
| Plugin.PluginKeepsValid | AdvancedMeasureTool.py:59-67 | toggling and dispatching any event keep the tool's session valid, so a built tool can always handle a left press |
| Plugin.ToggleTwiceRestores | AdvancedMeasureTool.py:59-67 | switching off and on again (or on and off) restores the plugin exactly, in-progress session included |

## Left out

- Rubber-band geometry: the two bands are only tracked as cleared / non-empty flags. Their points and styling are visual only.
- Message-bar text: the preview's `.1f` / `.2f` rendering, `clearWidgets` and the cancel message text. The model returns the four preview numbers and a cancel notice instead.
- Layer creation: the memory layer, its fields, `updateFields`, `addFeatures`, `updateExtents`, `addMapLayer` and `showAttributeTable`. These are host I/O. The records are the features' content.
- The timestamped layer name (`datetime.now`) and the CRS authid in the layer URI: clock and host strings.
- `initGui` and `unload`: toolbar wiring and its exception swallowing are host plumbing.
- Screen-to-map conversion (`toMapCoordinates`): each event carries the map point directly.
- Floating point: coordinates and lengths are exact reals. The accumulator is an exact sum. Float rounding error in `+=` and `/ 1852.0` is not modelled. `round` and `:.4f` are opaque services.
- Exceptions raised by host services, and the Python `IndexError` a left press would raise if `n` were past the table: `PressEvent` requires that case away. `Valid` (true of every reachable session) shows it never happens.
- Qt's delivery order of press, release and double-click events: each event is an independent input.
- Selecting another map tool on the canvas: the `OtherTool` slot can be the starting state of a toggle, but the host's tool switching is not an operation of the model.
- The project's coordinate transform context (`transformContext()` at lines 102 and 320, and the project passed to `QgsCoordinateTransform` at line 261) is taken as fixed for the tool's lifetime and folded into the `measureLength` and `toWgs84` services. Events carry only the canvas CRS and the project ellipsoid, so a change of the datum transformations between clicks is not modelled.
- MeasureMapTool.RunKeepsAccounts: each raw length is stated to be the measurement by a calculator configured from some host state (canvas CRS and project ellipsoid), not from the state at its click, because the model keeps no history of the host state per click.

## Findings

| source | as written | input that shows it | evidently intended | confidence | as-written member | corrected member |
|---|---|---|---|---|---|---|
| AdvancedMeasureTool.py:216-222 | with no completed row, `finish_measurement` clears `is_measuring` and returns before the reset, so `click_count` stays at 1 | a left press followed directly by a double-click, i.e. a double-click as the first action. After that, every press takes the "later click" branch and never restarts measuring; moves and double-clicks are ignored; the toggle reuses the same instance. The tool never emits a layer again. | reset the session as a successful finish does, so the next press starts a new measurement | high (not executed) | EarlyFinish.EarlyFinishLocksSession | EarlyFinish.StepCorrectedKeepsLive |

`EarlyFinish.LockedAfterImmediateDoubleClick` shows that the locked state is
reached from a new tool. `EarlyFinish.EarlyFinishLocksSession` shows that it is
never left. The event handlers in `MeasureMapTool` keep the code's behaviour.
`EarlyFinish.StepCorrected` is the same step with `FinishCorrected`. Under it,
the invariant "measuring exactly while clicks are counted" holds for every
event (`StepCorrectedKeepsLive`), and a new tool satisfies it (`NewToolIsLive`).
