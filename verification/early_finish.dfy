/**
  The double-click that finds no completed row. As written, the tool
  returns early with the measuring flag cleared and the click count kept, so
  no later press restarts a measurement and no later double-click finishes
  one: the tool instance is locked. The corrected finish resets the session
  in that case too, which keeps "measuring exactly while clicks are counted".
*/
module EarlyFinish {
  import opened Optional
  import opened Geo
  import opened Table
  import opened Finalize
  import opened MeasureMapTool

  /** Clicks are counted but no measurement is in progress. */
  predicate Locked(s: Session)
  {
    Valid(s) && !s.isMeasuring && s.clickCount > 0
  }

  /**
    Counterexample: a left press on a fresh tool followed directly by a
    double-click (a double-click as the first action) locks the tool.
  */
  lemma LockedAfterImmediateDoubleClick(svc: Services, env: Env, pt: Point, crs: Crs)
    ensures Locked(DoubleClickEvent(svc, PressEvent(svc, NewTool(env), LeftButton, pt, env), crs).tool.session)
  {
    var t0 := NewTool(env);
    FirstClickStartsSession(svc, t0, pt, env);
    var t1 := PressEvent(svc, t0, LeftButton, pt, env);
    assert t1.session.rows == [OpenRow(svc, 1, pt)];
    assert !(exists i :: 0 <= i < |t1.session.rows| && t1.session.rows[i].p2.Some?);
  }

  /** From a locked session no event unlocks it, emits a layer or previews a segment. */
  lemma LockedStep(svc: Services, t: Tool, ev: Event)
    requires Locked(t.session)
    ensures Locked(Step(svc, t, ev).tool.session)
    ensures !Step(svc, t, ev).out.Layer? && !Step(svc, t, ev).out.Status?
  {
    StepPreservesValid(svc, t, ev);
    if ev.Press? && ev.button == LeftButton {
      SubsequentClickChains(svc, t, ev.pt, ev.env);
    }
  }

  /**
    As written: once locked, the tool stays locked under every event
    sequence and never emits a layer, although left presses keep extending
    the table.
  */
  lemma {:induction false} EarlyFinishLocksSession(svc: Services, t: Tool, evs: seq<Event>)
    requires Locked(t.session)
    ensures Locked(Run(svc, t, evs).tool.session)
    ensures forall i :: 0 <= i < |evs| ==> !Run(svc, t, evs).outs[i].Layer?
    decreases |evs|
  {
    if |evs| > 0 {
      LockedStep(svc, t, evs[0]);
      var h := Step(svc, t, evs[0]);
      EarlyFinishLocksSession(svc, h.tool, evs[1..]);
      var rest := Run(svc, h.tool, evs[1..]);
      assert Run(svc, t, evs).outs == [h.out] + rest.outs;
      assert forall i :: 1 <= i < |evs| ==> Run(svc, t, evs).outs[i] == rest.outs[i - 1];
    }
  }

  /** Corrected finish: with no completed row it emits nothing and still resets the session. */
  function FinishCorrected(svc: Services, t: Tool, crs: Crs): (h: Handled)
    ensures h.tool.session == EmptySession && h.tool.calculator == t.calculator
    ensures h.out.Layer? <==> exists i :: 0 <= i < |t.session.rows| && t.session.rows[i].p2.Some?
    ensures h.out.Layer? ==> h == FinishMeasurement(svc, t, crs)
    ensures !h.out.Layer? ==> h.out == Silent && h.tool.overlays == t.overlays.(committed := false)
  {
    var h := FinishMeasurement(svc, t, crs);
    if h.out.Layer? then h
    else Handled(Tool(EmptySession, t.overlays.(committed := false), t.calculator), Silent)
  }

  function DoubleClickCorrected(svc: Services, t: Tool, crs: Crs): (h: Handled)
    ensures !t.session.isMeasuring ==> h == Handled(t, Silent)
    ensures t.session.isMeasuring ==> h.tool.session == EmptySession
  {
    if !t.session.isMeasuring then Handled(t, Silent)
    else FinishCorrected(svc, t.(overlays := t.overlays.(preview := false)), crs)
  }

  /** The event step with the corrected finish; every other event is handled as written. */
  function StepCorrected(svc: Services, t: Tool, ev: Event): (h: Handled)
    requires ev.Press? && ev.button == LeftButton ==> PressDefined(t.session)
    ensures !ev.DoubleClick? ==> h == Step(svc, t, ev)
  {
    if ev.DoubleClick? then DoubleClickCorrected(svc, t, ev.crs) else Step(svc, t, ev)
  }

  /** The intended invariant: valid, and measuring exactly while clicks are counted. */
  predicate Live(s: Session)
  {
    Valid(s) && (s.isMeasuring <==> s.clickCount > 0)
  }

  /**
    Corrected: every event keeps the session live, so a fresh tool never
    reaches a locked session, and every double-click during a measurement
    leaves a session that the next left press restarts.
  */
  lemma StepCorrectedKeepsLive(svc: Services, t: Tool, ev: Event)
    requires Live(t.session)
    ensures Live(StepCorrected(svc, t, ev).tool.session)
    ensures !Locked(StepCorrected(svc, t, ev).tool.session)
  {
    match ev
    case Press(button, pt, env) =>
      if button == LeftButton {
        PressKeepsLive(svc, t, pt, env);
      }
    case Move(pt) =>
    case DoubleClick(crs) =>
    case KeyPress(key) =>
  }

  lemma PressKeepsLive(svc: Services, t: Tool, pt: Point, env: Env)
    requires Live(t.session)
    ensures Live(PressEvent(svc, t, LeftButton, pt, env).session)
  {
    LeftClickShape(svc, t, pt, env);
    if t.session.clickCount == 0 {
      FirstClickStartsSession(svc, t, pt, env);
    } else {
      SubsequentClickChains(svc, t, pt, env);
    }
  }

  /** A freshly built tool is live. */
  lemma NewToolIsLive(env: Env)
    ensures Live(NewTool(env).session) && !Locked(NewTool(env).session)
  {
  }
}
