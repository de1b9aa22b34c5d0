/** The render-mode orchestrator of src/main.ts as a state machine on values.
    A `State` holds every renderer constructed so far (indexed by its id), the
    module-level `renderer` handle, the optional toon-shading controller handle,
    the toon controls present in the GUI panel, the sticky `toonShadingEnabled`
    flag and the log of externally visible events. The class in app.dfy is
    proved to follow these functions step by step. */
module Orchestration {
  import opened Options
  import opened RenderModes

  /** What the orchestrator can observe of one renderer instance. */
  datatype RendererRec = RendererRec(kind: RendererKind, stopped: bool)

  /** Calls the orchestrator makes on renderers and on the GUI, in order. */
  datatype Event =
    | Stop(id: nat)                        // `renderer.stop()`
    | Construct(id: nat, kind: RendererKind) // `new XRenderer(stage)`
    | AddControl(handle: nat, shown: bool)   // `gui.add(toonShadingEnabled, 'enabled')`
    | RemoveControl(handle: nat)             // `gui.remove(toonShadingController)`
    | ForwardToon(id: nat, enabled: bool)    // `renderer.setToonShading(value)`

  datatype State = State(
    renderers: seq<RendererRec>,
    current: Option<nat>,
    control: Option<nat>,
    gui: seq<nat>,
    nextHandle: nat,
    toonEnabled: bool,
    log: seq<Event>)

  /** The stored renderer handle refers to a constructed renderer. */
  predicate WellFormed(st: State) {
    st.current.Some? ==> st.current.value < |st.renderers|
  }

  /** The module state before the start-up calls: no renderer, no toon control,
      `toonShadingEnabled = { enabled: false }` (src/main.ts:34, 56-57). */
  const Initial: State := State([], None, None, [], 0, false, [])

  /** Removes a controller handle from the GUI panel (`gui.remove`). */
  function RemoveHandle(gui: seq<nat>, h: nat): (r: seq<nat>)
    ensures forall x :: x in r <==> x in gui && x != h
    ensures h !in gui ==> r == gui
    ensures |r| <= |gui|
  {
    if gui == [] then []
    else if gui[0] == h then RemoveHandle(gui[1..], h)
    else [gui[0]] + RemoveHandle(gui[1..], h)
  }

  /** `renderer?.stop()`: stops the stored renderer, if there is one. */
  function StopCurrent(st: State): (r: State)
    requires WellFormed(st)
    ensures WellFormed(r) && |r.renderers| == |st.renderers| && r.current == st.current
    // the stored renderer ends up stopped and its Stop is logged; nothing else is touched
    ensures st.current.Some? ==>
      r.renderers[st.current.value] == st.renderers[st.current.value].(stopped := true) &&
      r.log == st.log + [Stop(st.current.value)]
    ensures st.current.None? ==> r == st
    ensures forall i :: 0 <= i < |st.renderers| && Some(i) != st.current ==>
      r.renderers[i] == st.renderers[i]
    ensures r.control == st.control && r.gui == st.gui && r.toonEnabled == st.toonEnabled
    ensures r.nextHandle == st.nextHandle
  {
    if st.current.Some? then
      var id := st.current.value;
      st.(renderers := st.renderers[id := st.renderers[id].(stopped := true)],
          log := st.log + [Stop(id)])
    else st
  }

  /** `setRenderer(mode)` (src/main.ts:36-50). */
  function SetRenderer(st: State, mode: string): (r: State)
    requires WellFormed(st)
    ensures WellFormed(r)
    ensures |st.renderers| <= |r.renderers|
    // the renderer stored before the call is stopped, as the first thing logged
    ensures st.current.Some? ==>
      r.renderers[st.current.value] == st.renderers[st.current.value].(stopped := true) &&
      |st.log| < |r.log| && r.log[|st.log|] == Stop(st.current.value)
    // a tag stores a new instance, with a fresh id, of the matching kind; its
    // construction is the last thing logged, after the stop
    ensures KindForTag(mode).Some? ==>
      var id := |st.renderers|;
      |r.renderers| == id + 1 && r.current == Some(id) &&
      r.renderers[id] == RendererRec(KindForTag(mode).value, false) &&
      |r.log| == |st.log| + (if st.current.Some? then 2 else 1) &&
      r.log[|r.log| - 1] == Construct(id, KindForTag(mode).value)
    // any other string constructs nothing and leaves the (stopped) handle stored
    ensures KindForTag(mode).None? ==>
      |r.renderers| == |st.renderers| && r.current == st.current &&
      |r.log| == |st.log| + (if st.current.Some? then 1 else 0)
    // no other renderer is touched
    ensures forall i :: 0 <= i < |st.renderers| && Some(i) != st.current ==>
      r.renderers[i] == st.renderers[i]
    // the old log is kept; only stops and constructions are added
    ensures |st.log| <= |r.log| && r.log[..|st.log|] == st.log
    ensures forall i :: |st.log| <= i < |r.log| ==> r.log[i].Stop? || r.log[i].Construct?
    ensures r.control == st.control && r.gui == st.gui && r.nextHandle == st.nextHandle
    ensures r.toonEnabled == st.toonEnabled
  {
    var stopped := StopCurrent(st);
    match KindForTag(mode)
    case Some(k) =>
      var id := |stopped.renderers|;
      stopped.(renderers := stopped.renderers + [RendererRec(k, false)],
               current := Some(id),
               log := stopped.log + [Construct(id, k)])
    case None => stopped
  }

  /** `updateToonShadingController(mode)` (src/main.ts:59-75). */
  function UpdateToonControl(st: State, mode: string): (r: State)
    // afterwards the control exists exactly in clustered-deferred mode
    ensures r.control.Some? <==> mode == ClusteredDeferredTag
    // it is added only when absent, and shows the sticky value when added
    ensures st.control.None? && mode == ClusteredDeferredTag ==>
      r.control == Some(st.nextHandle) && r.gui == st.gui + [st.nextHandle] &&
      r.nextHandle == st.nextHandle + 1 &&
      r.log == st.log + [AddControl(st.nextHandle, st.toonEnabled)]
    // it is removed only when present, and then leaves the panel
    ensures st.control.Some? && mode != ClusteredDeferredTag ==>
      r.gui == RemoveHandle(st.gui, st.control.value) && st.control.value !in r.gui &&
      r.nextHandle == st.nextHandle && r.log == st.log + [RemoveControl(st.control.value)]
    // otherwise nothing changes: in particular no second control is ever added
    ensures (st.control.Some? <==> mode == ClusteredDeferredTag) ==> r == st
    ensures r.renderers == st.renderers && r.current == st.current
    ensures r.toonEnabled == st.toonEnabled
  {
    if mode == ClusteredDeferredTag then
      if st.control.None? then
        var h := st.nextHandle;
        st.(control := Some(h), gui := st.gui + [h], nextHandle := h + 1,
            log := st.log + [AddControl(h, st.toonEnabled)])
      else st
    else if st.control.Some? then
      var h := st.control.value;
      st.(control := None, gui := RemoveHandle(st.gui, h),
          log := st.log + [RemoveControl(h)])
    else st
  }

  /** The toon control's `onChange` callback (src/main.ts:63-67). The GUI has already
      written `value` into the bound `toonShadingEnabled.enabled`; the callback
      forwards it to the stored renderer, if any. It can only fire while the control
      exists. */
  function ToonToggled(st: State, value: bool): (r: State)
    requires st.control.Some?
    ensures r.toonEnabled == value
    // the only renderer told is the stored one, and only when there is one
    ensures st.current.Some? ==> r.log == st.log + [ForwardToon(st.current.value, value)]
    ensures st.current.None? ==> r.log == st.log
    ensures r.renderers == st.renderers && r.current == st.current
    ensures r.control == st.control && r.gui == st.gui && r.nextHandle == st.nextHandle
  {
    var bound := st.(toonEnabled := value);
    if bound.current.Some? then
      bound.(log := bound.log + [ForwardToon(bound.current.value, value)])
    else bound
  }

  /** The mode selector's `onChange` handler (src/main.ts:77-80): the renderer is
      replaced first, then the toon control is reconciled. */
  function OnModeChange(st: State, mode: string): (r: State)
    requires WellFormed(st)
    ensures WellFormed(r)
    ensures r.control.Some? <==> mode == ClusteredDeferredTag
    ensures |st.log| <= |r.log| && r.log[..|st.log|] == st.log
    // every stop and construction of this call is logged before any control change
    ensures forall i, j :: |st.log| <= i < j < |r.log| && (r.log[j].Stop? || r.log[j].Construct?) ==>
      r.log[i].Stop? || r.log[i].Construct?
  {
    var replaced := SetRenderer(st, mode);
    var r := UpdateToonControl(replaced, mode);
    assert r.log == replaced.log || |r.log| == |replaced.log| + 1;
    assert |r.log| == |replaced.log| + 1 ==> !r.log[|replaced.log|].Stop? && !r.log[|replaced.log|].Construct?;
    assert r.log[..|replaced.log|] == replaced.log;
    assert r.log[..|st.log|] == r.log[..|replaced.log|][..|st.log|];
    forall i, j | |st.log| <= i < j < |r.log| && (r.log[j].Stop? || r.log[j].Construct?)
      ensures r.log[i].Stop? || r.log[i].Construct?
    {
      assert r.log[i] == replaced.log[i];
    }
    r
  }

  /** The start-up calls (src/main.ts:82-84), with the selector at its initial value
      `renderModes.naive` (src/main.ts:53). Note the order: control first, then renderer. */
  function Startup(): (r: State)
    ensures r.control.None? && r.gui == []
    ensures r.current == Some(0) && r.renderers == [RendererRec(NaiveRenderer, false)]
    ensures r.log == [Construct(0, NaiveRenderer)]
  {
    SetRenderer(UpdateToonControl(Initial, NaiveTag), NaiveTag)
  }

  /** A user action on the GUI. */
  datatype Input = ModeChange(mode: string) | ToonChange(value: bool)

  /** One user action; toggling is possible only while the toon control is shown. */
  function Step(st: State, inp: Input): (r: State)
    requires WellFormed(st)
    ensures WellFormed(r)
  {
    match inp
    case ModeChange(m) => OnModeChange(st, m)
    case ToonChange(v) => if st.control.Some? then ToonToggled(st, v) else st
  }

  /** A session: the user actions applied in order. */
  function Run(st: State, inputs: seq<Input>): (r: State)
    requires WellFormed(st)
    ensures WellFormed(r)
    decreases |inputs|
  {
    if inputs == [] then st else Run(Step(st, inputs[0]), inputs[1..])
  }

  // ---------------------------------------------------------------------------
  // Liveness as it can be read off the event log

  /** The ids of renderers constructed and not yet stopped after the given events. */
  function LiveIn(log: seq<Event>): set<nat>
  {
    if log == [] then {}
    else
      var rest := LiveIn(log[..|log| - 1]);
      match log[|log| - 1]
      case Construct(id, _) => rest + {id}
      case Stop(id) => rest - {id}
      case _ => rest
  }

  predicate AtMostOne(s: set<nat>) {
    forall a, b :: a in s && b in s ==> a == b
  }

  /** After every event at most one renderer is live, and a renderer is constructed
      only when none is live. */
  predicate WellOrderedLog(log: seq<Event>) {
    log == [] ||
    (WellOrderedLog(log[..|log| - 1]) && AtMostOne(LiveIn(log)) &&
     (log[|log| - 1].Construct? ==> LiveIn(log[..|log| - 1]) == {}))
  }

  lemma SnocPrefix(log: seq<Event>, e: Event)
    ensures (log + [e])[..|log|] == log
  {
  }

  /** The step-by-step definition of a well-ordered log, stated for every prefix:
      at no instant are two renderers live, and each construction happens when
      every earlier renderer has been stopped. */
  lemma {:induction false} WellOrderedPrefixes(log: seq<Event>)
    requires WellOrderedLog(log)
    ensures forall k :: 0 <= k <= |log| ==> AtMostOne(LiveIn(log[..k]))
    ensures forall i :: 0 <= i < |log| && log[i].Construct? ==> LiveIn(log[..i]) == {}
  {
    if log != [] {
      var init := log[..|log| - 1];
      WellOrderedPrefixes(init);
      forall k | 0 <= k <= |log|
        ensures AtMostOne(LiveIn(log[..k]))
      {
        if k < |log| {
          assert log[..k] == init[..k];
        } else {
          assert log[..k] == log;
        }
      }
      forall i | 0 <= i < |log| && log[i].Construct?
        ensures LiveIn(log[..i]) == {}
      {
        if i < |log| - 1 {
          assert log[..i] == init[..i];
          assert init[i] == log[i];
        }
      }
    }
  }

  // ---------------------------------------------------------------------------
  // The invariant kept by every reachable state

  /** The ids of live renderers according to the state. */
  function LiveIds(st: State): set<nat>
    requires WellFormed(st)
  {
    if st.current.Some? && !st.renderers[st.current.value].stopped
    then {st.current.value} else {}
  }

  /** Renderer events in the log name constructed renderers only. */
  predicate IdsBelow(log: seq<Event>, n: nat) {
    forall e :: e in log && (e.Stop? || e.Construct? || e.ForwardToon?) ==> e.id < n
  }

  /** The toon control is shown exactly while the live renderer is a
      clustered-deferred one, the only renderer that toon shading applies to. */
  predicate ControlMatchesRenderer(st: State)
    requires WellFormed(st)
  {
    st.control.Some? <==>
      (st.current.Some? && !st.renderers[st.current.value].stopped &&
       st.renderers[st.current.value].kind == ClusteredDeferredRenderer)
  }

  ghost predicate Inv(st: State) {
    WellFormed(st)
    // the stored renderer is always the most recently constructed one
    && (st.current.Some? ==> st.current.value == |st.renderers| - 1)
    // every renderer but the stored one is stopped
    && (forall i :: 0 <= i < |st.renderers| && !st.renderers[i].stopped ==> st.current == Some(i))
    && LiveIn(st.log) == LiveIds(st)
    && WellOrderedLog(st.log)
    && IdsBelow(st.log, |st.renderers|)
    // the GUI panel holds the toon control exactly when the handle is stored
    && st.gui == (if st.control.Some? then [st.control.value] else [])
  }
}
