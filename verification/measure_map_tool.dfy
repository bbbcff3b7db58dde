/**
  The measuring map tool: a session state machine driven by canvas events.
  A left press records a click, a move previews the next segment, a
  double-click finishes the measurement into output records, Escape clears
  the drawings. Each handler is a pure function from the tool's state to
  the next state and what the user sees.
*/
module MeasureMapTool {
  import opened Optional
  import opened Geo
  import opened Table
  import opened Finalize

  /**
    The session fields of the tool: the table, the index `n` of the open row,
    the Line_ID counter, the running raw length in metres, the click count,
    the last click point (unrounded) and whether a measurement is in progress.
  */
  datatype Session = Session(
    rows: seq<Row>,
    n: nat,
    pointIdCounter: nat,
    cumLengthM: real,
    clickCount: nat,
    lastPoint: Option<Point>,
    isMeasuring: bool)

  /** The two rubber bands, each either cleared (false) or holding points (true). */
  datatype Overlays = Overlays(committed: bool, preview: bool)

  /** The tool instance: its session, its drawings, and the calculator configured when it was built. */
  datatype Tool = Tool(session: Session, overlays: Overlays, calculator: DistanceArea)

  datatype Button = LeftButton | OtherButton
  datatype Key = Escape | OtherKey

  /** A canvas event, carrying what the host reports when it is handled. */
  datatype Event =
    | Press(button: Button, pt: Point, env: Env)
    | Move(pt: Point)
    | DoubleClick(crs: Crs)
    | KeyPress(key: Key)

  /** The segment and total lengths, metres and nautical miles, that a move reports. */
  datatype Preview = Preview(segmentM: real, segmentNm: real, totalM: real, totalNm: real)

  /** What an event shows: nothing, a status line, the cancel notice, or a new layer of records. */
  datatype Output = Silent | Status(preview: Preview) | CancelNotice | Layer(records: seq<Record>)

  datatype Handled = Handled(tool: Tool, out: Output)

  const Cleared := Overlays(false, false)

  /** The session with an empty table and zeroed counters, not measuring. */
  const EmptySession := Session([], 0, 0, 0.0, 0, None, false)

  /** The table, counters, accumulator and last point are all reset. */
  predicate Idle(s: Session)
  {
    s.rows == [] && s.n == 0 && s.pointIdCounter == 0 && s.cumLengthM == 0.0 && s.lastPoint == None
  }

  /**
    The invariant of every reachable session: the table is chained; with no
    click the session is idle; otherwise there is one row per click, `n`
    indexes the last (open) row, the counter equals the number of rows and a
    last point is set.
  */
  predicate Valid(s: Session)
  {
    && Chained(s.rows)
    && (s.clickCount == 0 ==> Idle(s) && !s.isMeasuring)
    && (s.clickCount > 0 ==>
          |s.rows| == s.clickCount && s.n + 1 == |s.rows| && s.pointIdCounter == |s.rows| && s.lastPoint.Some?)
  }

  /** The open row starts at the rounded last click point. */
  predicate Anchored(svc: Services, s: Session)
  {
    s.lastPoint.Some? && |s.rows| > 0 ==> s.rows[|s.rows| - 1].p1 == Round6(svc, s.lastPoint.value)
  }

  /** `raws` are the raw lengths of the session's completed rows, and the open row hangs off the last point. */
  ghost predicate Consistent(svc: Services, s: Session, raws: seq<real>)
  {
    Accounted(svc, s.rows, s.cumLengthM, raws) && Anchored(svc, s)
  }

  /** A fresh tool, its calculator configured from the host's state at construction. */
  function NewTool(env: Env): (t: Tool)
    ensures Valid(t.session) && t.session.clickCount == 0 && !t.session.isMeasuring
    ensures t.overlays == Cleared
    ensures t.calculator == Calculator(env)
  {
    Tool(EmptySession, Cleared, Calculator(env))
  }

  /** Starting a measurement clears the table, counters, accumulator and drawings, and counts one click. */
  function StartNewMeasurement(t: Tool): (r: Tool)
    ensures Idle(r.session) && r.session.isMeasuring && r.session.clickCount == 1
    ensures r.overlays == Cleared && r.calculator == t.calculator
  {
    Tool(Session([], 0, 0, 0.0, 1, None, true), Cleared, t.calculator)
  }

  /**
    Computing the open row's segment: the raw length between the row's stored
    endpoints, measured with `da`, is added to the accumulator unrounded, and
    the row stores its rounded length and the rounded accumulator. Nothing
    else changes.
  */
  function CalculateSegment(svc: Services, s: Session, idx: nat, da: DistanceArea): (r: Session)
    requires idx < |s.rows| && s.rows[idx].p2.Some?
    ensures r.cumLengthM == s.cumLengthM + SegmentLength(svc, da, s.rows[idx])
    ensures |r.rows| == |s.rows|
    ensures StoredLengths(svc, r.rows[idx], SegmentLength(svc, da, s.rows[idx]), r.cumLengthM)
    ensures r.rows[idx].lineId == s.rows[idx].lineId
    ensures r.rows[idx].p1 == s.rows[idx].p1 && r.rows[idx].p2 == s.rows[idx].p2
    ensures forall j :: 0 <= j < |s.rows| && j != idx ==> r.rows[j] == s.rows[j]
    ensures r == s.(rows := r.rows, cumLengthM := r.cumLengthM)
  {
    var row := s.rows[idx];
    var lengthM := SegmentLength(svc, da, row);
    var lengthNm := lengthM / MetresPerNauticalMile;
    var acc := s.cumLengthM + lengthM;
    var cumNm := acc / MetresPerNauticalMile;
    var row' := row.(lengthM := Some(svc.round(lengthM, 1)),
                     lengthNm := Some(svc.round(lengthNm, 2)),
                     cumLengthM := Some(svc.round(acc, 1)),
                     cumLengthNm := Some(svc.round(cumNm, 2)));
    s.(cumLengthM := acc, rows := s.rows[idx := row'])
  }

  /** A left press can be handled without indexing past the table. */
  predicate PressDefined(s: Session)
  {
    s.clickCount == 0 || s.n < |s.rows|
  }

  /**
    A press: anything but the left button is ignored. The first left click
    starts a measurement and opens row 1 at the click point; every later one
    completes the open row at the click point, computes its segment with a
    calculator resolved from the host's current state, draws it, and opens
    the next row at the same point.
  */
  function PressEvent(svc: Services, t: Tool, button: Button, pt: Point, env: Env): (r: Tool)
    requires button == LeftButton ==> PressDefined(t.session)
    ensures button != LeftButton ==> r == t
    ensures button == LeftButton ==>
      && r.session.clickCount == t.session.clickCount + 1
      && r.session.lastPoint == Some(pt)
      && |r.session.rows| > 0
      && r.session.rows[|r.session.rows| - 1] == OpenRow(svc, r.session.pointIdCounter, pt)
    ensures r.calculator == t.calculator
  {
    if button != LeftButton then t
    else
      var clicks := t.session.clickCount + 1;
      if clicks == 1 then
        var started := StartNewMeasurement(t);
        var s := started.session.(lastPoint := Some(pt));
        var s' := s.(pointIdCounter := s.pointIdCounter + 1);
        started.(session := s'.(rows := s'.rows + [OpenRow(svc, s'.pointIdCounter, pt)]))
      else
        var s := t.session.(clickCount := clicks);
        var filled := s.(rows := s.rows[s.n := s.rows[s.n].(p2 := Some(Round6(svc, pt)))]);
        var measured := CalculateSegment(svc, filled, filled.n, Calculator(env));
        var moved := measured.(lastPoint := Some(pt), pointIdCounter := measured.pointIdCounter + 1,
                               n := measured.n + 1);
        Tool(moved.(rows := moved.rows + [OpenRow(svc, moved.pointIdCounter, pt)]),
             t.overlays.(committed := true), t.calculator)
  }

  /**
    A move previews the next segment while a measurement with a last point is
    in progress, and is a no-op otherwise. The preview is measured from the
    unrounded last point with the calculator built with the tool, and the
    total it reports is the accumulator plus that hypothetical length. The
    session is never touched.
  */
  function MoveEvent(svc: Services, t: Tool, pt: Point): (h: Handled)
    ensures h.tool.session == t.session && h.tool.calculator == t.calculator
    ensures h.tool.overlays.committed == t.overlays.committed
    ensures h.out.Status? <==> t.session.isMeasuring && t.session.lastPoint.Some?
    ensures !h.out.Status? ==> h.tool == t && h.out == Silent
    ensures h.out.Status? ==>
      && h.out.preview.segmentM == svc.measureLength(t.calculator, t.session.lastPoint.value, pt)
      && h.out.preview.totalM == t.session.cumLengthM + h.out.preview.segmentM
      && h.out.preview.segmentNm * MetresPerNauticalMile == h.out.preview.segmentM
      && h.out.preview.totalNm * MetresPerNauticalMile == h.out.preview.totalM
      && h.tool.overlays.preview
  {
    if !t.session.isMeasuring || t.session.lastPoint.None? then Handled(t, Silent)
    else
      var lengthM := svc.measureLength(t.calculator, t.session.lastPoint.value, pt);
      var cumM := t.session.cumLengthM + lengthM;
      Handled(t.(overlays := t.overlays.(preview := true)),
              Status(Preview(lengthM, lengthM / MetresPerNauticalMile, cumM, cumM / MetresPerNauticalMile)))
  }

  /**
    Escape clears both drawings and shows the cancel notice; it leaves the
    session, table included, exactly as it was. Other keys do nothing.
  */
  function KeyPressEvent(t: Tool, key: Key): (h: Handled)
    ensures h.tool.session == t.session && h.tool.calculator == t.calculator
    ensures key == Escape ==> h.tool.overlays == Cleared && h.out == CancelNotice
    ensures key != Escape ==> h == Handled(t, Silent)
  {
    if key == Escape then Handled(t.(overlays := Cleared), CancelNotice) else Handled(t, Silent)
  }

  /**
    Finishing: the measurement stops. With no completed row it returns at once,
    leaving table, counters and click count as they were. Otherwise it emits
    the records of the completed rows, then resets the whole session and
    clears the committed drawing.
  */
  function FinishMeasurement(svc: Services, t: Tool, crs: Crs): (h: Handled)
    ensures !h.tool.session.isMeasuring && h.tool.calculator == t.calculator
    ensures h.out.Layer? <==> exists i :: 0 <= i < |t.session.rows| && t.session.rows[i].p2.Some?
    ensures h.out.Layer? ==>
      && h.tool.session == EmptySession
      && !h.tool.overlays.committed && h.tool.overlays.preview == t.overlays.preview
      && h.out.records == BuildRecords(svc, crs, CompleteRows(t.session.rows))
    ensures !h.out.Layer? ==>
      h.tool == t.(session := t.session.(isMeasuring := false)) && h.out == Silent
  {
    var s := t.session.(isMeasuring := false);
    var finalRows := CompleteRows(s.rows);
    if |finalRows| == 0 then
      assert forall i :: 0 <= i < |s.rows| ==> s.rows[i] in s.rows;
      Handled(t.(session := s), Silent)
    else
      assert finalRows[0] in s.rows;
      Handled(Tool(EmptySession, t.overlays.(committed := false), t.calculator),
              Layer(BuildRecords(svc, crs, finalRows)))
  }

  /** A double-click outside a measurement is ignored; inside one it clears the preview and finishes. */
  function DoubleClickEvent(svc: Services, t: Tool, crs: Crs): (h: Handled)
    ensures !t.session.isMeasuring ==> h == Handled(t, Silent)
    ensures t.session.isMeasuring ==> !h.tool.session.isMeasuring && !h.tool.overlays.preview
    ensures t.session.isMeasuring ==> h == FinishMeasurement(svc, t.(overlays := t.overlays.(preview := false)), crs)
  {
    if !t.session.isMeasuring then Handled(t, Silent)
    else FinishMeasurement(svc, t.(overlays := t.overlays.(preview := false)), crs)
  }

  /** Dispatches one event to its handler. */
  function Step(svc: Services, t: Tool, ev: Event): Handled
    requires ev.Press? && ev.button == LeftButton ==> PressDefined(t.session)
  {
    match ev
    case Press(button, pt, env) => Handled(PressEvent(svc, t, button, pt, env), Silent)
    case Move(pt) => MoveEvent(svc, t, pt)
    case DoubleClick(crs) => DoubleClickEvent(svc, t, crs)
    case KeyPress(key) => KeyPressEvent(t, key)
  }

  datatype Trace = Trace(tool: Tool, outs: seq<Output>)

  /** Handles a sequence of events in order, collecting what each one shows. */
  function Run(svc: Services, t: Tool, evs: seq<Event>): (tr: Trace)
    requires Valid(t.session)
    ensures Valid(tr.tool.session)
    ensures |tr.outs| == |evs|
    decreases |evs|
  {
    if |evs| == 0 then Trace(t, [])
    else
      StepPreservesValid(svc, t, evs[0]);
      var h := Step(svc, t, evs[0]);
      var rest := Run(svc, h.tool, evs[1..]);
      Trace(rest.tool, [h.out] + rest.outs)
  }

  /**
    The first left click of a session, whatever the table held before:
    exactly one row, Line_ID 1, starting at the rounded click point with no
    end and no lengths; counters and accumulator zeroed; measuring; and the
    last point is the click point.
  */
  lemma FirstClickStartsSession(svc: Services, t: Tool, pt: Point, env: Env)
    requires t.session.clickCount == 0
    ensures var s := PressEvent(svc, t, LeftButton, pt, env).session;
      && s.rows == [OpenRow(svc, 1, pt)]
      && s.rows[0].lineId == 1 && s.rows[0].p1 == Round6(svc, pt) && Open(s.rows[0])
      && s.n == 0 && s.pointIdCounter == 1 && s.clickCount == 1 && s.cumLengthM == 0.0
      && s.lastPoint == Some(pt) && s.isMeasuring
  {
  }

  /**
    Every later left click: the open row `n` ends at the rounded click point
    and stores its segment, whose raw length is added to the accumulator; a
    new row with the next Line_ID starts at that same rounded point; the last
    point becomes the click point; the earlier rows are untouched.
  */
  lemma SubsequentClickChains(svc: Services, t: Tool, pt: Point, env: Env)
    requires Valid(t.session) && t.session.clickCount > 0
    ensures var s := t.session;
      var r := PressEvent(svc, t, LeftButton, pt, env).session;
      var q := Round6(svc, pt);
      var raw := svc.measureLength(Calculator(env), s.rows[s.n].p1, q);
      && |r.rows| == |s.rows| + 1
      && r.rows[..s.n] == s.rows[..s.n]
      && r.rows[s.n].lineId == s.rows[s.n].lineId && r.rows[s.n].p1 == s.rows[s.n].p1
      && r.rows[s.n].p2 == Some(q)
      && r.rows[s.n + 1] == OpenRow(svc, s.n + 2, pt)
      && r.rows[s.n + 1].p1 == q
      && r.cumLengthM == s.cumLengthM + raw
      && StoredLengths(svc, r.rows[s.n], raw, r.cumLengthM)
      && r.n == s.n + 1 && r.pointIdCounter == s.pointIdCounter + 1 && r.clickCount == s.clickCount + 1
      && r.lastPoint == Some(pt) && r.isMeasuring == s.isMeasuring
      && r.rows == s.rows[..s.n] + [r.rows[s.n], r.rows[s.n + 1]]
  {
    var s := t.session;
    var r := PressEvent(svc, t, LeftButton, pt, env).session;
    assert forall i :: 0 <= i < s.n ==> r.rows[i] == s.rows[i];
  }

  /** After every left click the table has one row per click, ids 1..k, only the last row open. */
  lemma LeftClickShape(svc: Services, t: Tool, pt: Point, env: Env)
    requires Valid(t.session)
    ensures var s := PressEvent(svc, t, LeftButton, pt, env).session;
      && Valid(s) && s.clickCount > 0
      && s.n == |s.rows| - 1 && s.pointIdCounter == |s.rows|
      && (forall i :: 0 <= i < |s.rows| ==> s.rows[i].lineId == i + 1)
      && (forall i :: 0 <= i < |s.rows| - 1 ==> s.rows[i].p2.Some?)
      && s.rows[|s.rows| - 1].p2.None?
  {
    var s := t.session;
    if s.clickCount > 0 {
      SubsequentClickChains(svc, t, pt, env);
      var r := PressEvent(svc, t, LeftButton, pt, env).session;
      ChainedExtend(s.rows, r.rows[s.n], r.rows[s.n + 1]);
    }
    var r := PressEvent(svc, t, LeftButton, pt, env).session;
    forall i | 0 <= i < |r.rows| - 1
      ensures r.rows[i].p2.Some?
    {
      assert r.rows[i].p2 == Some(r.rows[i + 1].p1);
    }
  }

  lemma StepPreservesValid(svc: Services, t: Tool, ev: Event)
    requires Valid(t.session)
    ensures Valid(Step(svc, t, ev).tool.session)
  {
    match ev
    case Press(button, pt, env) =>
      if button == LeftButton {
        LeftClickShape(svc, t, pt, env);
      }
    case Move(pt) =>
    case DoubleClick(crs) =>
    case KeyPress(key) =>
  }

  /** A left click keeps the raw lengths accounted, appending the length it measured when it completes a row. */
  lemma PressKeepsAccounts(svc: Services, t: Tool, pt: Point, env: Env, raws: seq<real>) returns (raws': seq<real>)
    requires Valid(t.session) && Consistent(svc, t.session, raws)
    ensures Consistent(svc, PressEvent(svc, t, LeftButton, pt, env).session, raws')
    ensures t.session.clickCount == 0 ==> raws' == []
    ensures t.session.clickCount > 0 ==> |raws'| == |raws| + 1 && raws'[..|raws|] == raws
  {
    var s := t.session;
    if s.clickCount == 0 {
      raws' := [];
    } else {
      SubsequentClickChains(svc, t, pt, env);
      var r := PressEvent(svc, t, LeftButton, pt, env).session;
      var done := r.rows[s.n];
      var raw := SegmentLength(svc, Calculator(env), done);
      assert MeasuredIn(svc, env, done, raw);
      AccountedExtend(svc, s.rows, s.cumLengthM, raws, done, raw, r.rows[s.n + 1]);
      raws' := raws + [raw];
      assert raws'[..|raws|] == raws;
    }
  }

  /** A double-click either keeps the raw lengths or, when it resets the session, empties them. */
  lemma DoubleClickKeepsAccounts(svc: Services, t: Tool, crs: Crs, raws: seq<real>) returns (raws': seq<real>)
    requires Valid(t.session) && Consistent(svc, t.session, raws)
    ensures Consistent(svc, DoubleClickEvent(svc, t, crs).tool.session, raws')
    ensures raws' == [] || raws' == raws
  {
    var h := DoubleClickEvent(svc, t, crs);
    if !t.session.isMeasuring || !h.out.Layer? {
      assert h.tool.session.rows == t.session.rows && h.tool.session.cumLengthM == t.session.cumLengthM;
      assert h.tool.session.lastPoint == t.session.lastPoint;
      raws' := raws;
    } else {
      assert h.tool.session == EmptySession;
      raws' := [];
    }
  }

  /**
    Every event keeps the raw lengths accounted: a completing click appends
    the one raw length it measured, a successful finish starts over from no
    lengths, and every other event leaves them as they were.
  */
  lemma StepKeepsAccounts(svc: Services, t: Tool, ev: Event, raws: seq<real>) returns (raws': seq<real>)
    requires Valid(t.session) && Consistent(svc, t.session, raws)
    ensures Consistent(svc, Step(svc, t, ev).tool.session, raws')
    ensures raws' == [] || raws' == raws || (|raws'| == |raws| + 1 && raws'[..|raws|] == raws)
  {
    match ev
    case Press(button, pt, env) =>
      if button == LeftButton {
        raws' := PressKeepsAccounts(svc, t, pt, env, raws);
      } else {
        raws' := raws;
      }
    case Move(pt) =>
      raws' := raws;
    case DoubleClick(crs) =>
      raws' := DoubleClickKeepsAccounts(svc, t, crs, raws);
    case KeyPress(key) =>
      raws' := raws;
  }

  /**
    Over any event sequence the session stays valid and the accumulator is
    the sum of the raw lengths of the completed rows, each row storing its
    rounded length and rounded running total.
  */
  lemma {:induction false} RunKeepsAccounts(svc: Services, t: Tool, evs: seq<Event>, raws: seq<real>)
    returns (raws': seq<real>)
    requires Valid(t.session) && Consistent(svc, t.session, raws)
    ensures Consistent(svc, Run(svc, t, evs).tool.session, raws')
    decreases |evs|
  {
    if |evs| == 0 {
      raws' := raws;
    } else {
      var mid := StepKeepsAccounts(svc, t, evs[0], raws);
      StepPreservesValid(svc, t, evs[0]);
      raws' := RunKeepsAccounts(svc, Step(svc, t, evs[0]).tool, evs[1..], mid);
    }
  }

  /** From a freshly built tool, every event sequence leads to a valid, fully accounted session. */
  lemma ReachableSessions(svc: Services, env: Env, evs: seq<Event>) returns (raws: seq<real>)
    ensures Valid(Run(svc, NewTool(env), evs).tool.session)
    ensures Consistent(svc, Run(svc, NewTool(env), evs).tool.session, raws)
  {
    raws := RunKeepsAccounts(svc, NewTool(env), evs, []);
  }

  /**
    A double-click during a measurement of k+1 clicks emits a layer exactly
    when k >= 1. The layer has k records with Line_IDs 1..k in table order,
    each copying its row's rounded length and the rounded running total of
    the raw lengths through it; each Stop text equals the next record's
    Start. Afterwards the session is empty. With k = 0 nothing is emitted and
    only the measuring flag changes.
  */
  lemma FinishEmitsCompletedSegments(svc: Services, t: Tool, crs: Crs, raws: seq<real>)
    requires Valid(t.session) && Consistent(svc, t.session, raws) && t.session.isMeasuring
    ensures var h := DoubleClickEvent(svc, t, crs);
      && (h.out.Layer? <==> |t.session.rows| >= 2)
      && (h.out.Layer? ==>
            && h.tool.session == EmptySession
            && AccountedRecords(svc, crs, t.session.rows, raws, h.out.records))
      && (!h.out.Layer? ==> h.tool.session == t.session.(isMeasuring := false) && h.out == Silent)
  {
    var t' := t.(overlays := t.overlays.(preview := false));
    assert DoubleClickEvent(svc, t, crs) == FinishMeasurement(svc, t', crs);
    if |t.session.rows| >= 2 {
      FinishWithSegments(svc, t', crs, raws);
    } else {
      FinishWithoutSegments(svc, t', crs);
    }
  }

  lemma FinishWithSegments(svc: Services, t: Tool, crs: Crs, raws: seq<real>)
    requires Valid(t.session) && Accounted(svc, t.session.rows, t.session.cumLengthM, raws)
    requires |t.session.rows| >= 2
    ensures var h := FinishMeasurement(svc, t, crs);
      && h.out.Layer? && h.tool.session == EmptySession
      && AccountedRecords(svc, crs, t.session.rows, raws, h.out.records)
  {
    var rows := t.session.rows;
    CompleteRowsOfChain(rows);
    assert rows[0].p2.Some? && rows[0] in rows;
    forall i | 0 <= i < |raws|
      ensures StoredLengths(svc, rows[i], raws[i], Sum(raws[..i + 1]))
    {
      assert RowAccounted(svc, rows[i], raws[i], Sum(raws[..i + 1]));
    }
    RecordsOfAccountedChain(svc, crs, rows, raws, rows[..|raws|]);
  }

  lemma FinishWithoutSegments(svc: Services, t: Tool, crs: Crs)
    requires Valid(t.session) && |t.session.rows| < 2
    ensures var h := FinishMeasurement(svc, t, crs);
      !h.out.Layer? && h.tool.session == t.session.(isMeasuring := false) && h.out == Silent
  {
    assert forall i :: 0 <= i < |t.session.rows| ==> t.session.rows[i].p2.None?;
  }

  /**
    A preview, an Escape or any other key changes nothing any later event
    depends on: two tools with the same session and calculator handle every
    event sequence with the same outputs and end in the same session.
  */
  lemma {:induction false} OnlySessionMatters(svc: Services, t1: Tool, t2: Tool, evs: seq<Event>)
    requires Valid(t1.session) && t1.session == t2.session && t1.calculator == t2.calculator
    ensures Run(svc, t1, evs).outs == Run(svc, t2, evs).outs
    ensures Run(svc, t1, evs).tool.session == Run(svc, t2, evs).tool.session
    decreases |evs|
  {
    if |evs| > 0 {
      StepPreservesValid(svc, t1, evs[0]);
      StepDependsOnSession(svc, t1, t2, evs[0]);
      OnlySessionMatters(svc, Step(svc, t1, evs[0]).tool, Step(svc, t2, evs[0]).tool, evs[1..]);
    }
  }

  /** One event's output and resulting session depend on the session and calculator only. */
  lemma StepDependsOnSession(svc: Services, t1: Tool, t2: Tool, ev: Event)
    requires Valid(t1.session) && t1.session == t2.session && t1.calculator == t2.calculator
    ensures Step(svc, t1, ev).out == Step(svc, t2, ev).out
    ensures Step(svc, t1, ev).tool.session == Step(svc, t2, ev).tool.session
    ensures Step(svc, t1, ev).tool.calculator == Step(svc, t2, ev).tool.calculator
  {
    match ev
    case Press(button, pt, env) =>
    case Move(pt) =>
    case DoubleClick(crs) =>
      if t1.session.isMeasuring {
        var u1 := t1.(overlays := t1.overlays.(preview := false));
        var u2 := t2.(overlays := t2.overlays.(preview := false));
        assert FinishMeasurement(svc, u1, crs).out == FinishMeasurement(svc, u2, crs).out;
      }
    case KeyPress(key) =>
  }
}
