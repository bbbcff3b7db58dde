/**
  The plugin's toolbar toggle. It builds the map tool once and afterwards
  only switches the canvas between that instance and no tool, so the
  session inside the instance survives being switched off and on.
*/
module Plugin {
  import opened Optional
  import opened Geo
  import opened MeasureMapTool

  /** Which map tool the canvas currently has: none, this plugin's instance, or another tool. */
  datatype MapToolSlot = NoMapTool | OurTool | OtherTool

  /** The plugin: its tool instance once built, the canvas's map tool and the action's checked state. */
  datatype PluginState = PluginState(tool: Option<Tool>, canvasTool: MapToolSlot, checked: bool)

  /**
    The toggle: build the tool if there is none yet; then, if the canvas has
    this instance, unset it and uncheck the action, otherwise set it and
    check the action. An existing instance is reused with its session intact.
  */
  function ToggleTool(p: PluginState, env: Env): (r: PluginState)
    ensures r.tool.Some?
    ensures p.tool.Some? ==> r.tool == p.tool
    ensures p.tool.None? ==> r.tool == Some(NewTool(env))
    ensures r.checked <==> r.canvasTool == OurTool
    ensures r.canvasTool == OurTool <==> !(p.tool.Some? && p.canvasTool == OurTool)
    ensures p.tool.Some? && p.canvasTool == OurTool ==> r.canvasTool == NoMapTool
  {
    var tool := if p.tool.None? then NewTool(env) else p.tool.value;
    if p.tool.Some? && p.canvasTool == OurTool then PluginState(Some(tool), NoMapTool, false)
    else PluginState(Some(tool), OurTool, true)
  }

  /** Canvas events reach the session only while the canvas has this plugin's tool. */
  function Dispatch(svc: Services, p: PluginState, ev: Event): (r: PluginState)
    requires p.tool.Some? && ev.Press? && ev.button == LeftButton ==> PressDefined(p.tool.value.session)
    ensures p.canvasTool != OurTool || p.tool.None? ==> r == p
    ensures p.canvasTool == OurTool && p.tool.Some? ==> r.tool == Some(Step(svc, p.tool.value, ev).tool)
    ensures r.canvasTool == p.canvasTool && r.checked == p.checked
  {
    if p.canvasTool == OurTool && p.tool.Some? then p.(tool := Some(Step(svc, p.tool.value, ev).tool))
    else p
  }

  /** The plugin's tool, once built, holds a session reachable by events. */
  predicate PluginValid(p: PluginState)
  {
    p.tool.Some? ==> Valid(p.tool.value.session)
  }

  /** Toggling and dispatching keep the tool's session valid, so every left press can be handled. */
  lemma PluginKeepsValid(svc: Services, p: PluginState, env: Env, ev: Event)
    requires PluginValid(p)
    ensures PluginValid(ToggleTool(p, env))
    ensures PluginValid(Dispatch(svc, p, ev))
    ensures p.tool.Some? ==> PressDefined(p.tool.value.session)
  {
    if p.tool.Some? {
      StepPreservesValid(svc, p.tool.value, ev);
    }
  }

  /**
    Switching the tool off and on again, with no other tool selected in
    between, restores the plugin exactly, the in-progress session included:
    deactivation does not discard the measurement.
  */
  lemma ToggleTwiceRestores(p: PluginState, env1: Env, env2: Env)
    requires p.tool.Some? && p.canvasTool != OtherTool && (p.checked <==> p.canvasTool == OurTool)
    ensures ToggleTool(ToggleTool(p, env1), env2) == p
  {
  }
}
