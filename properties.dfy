/** What the render-mode orchestrator guarantees over whole sessions: the invariant
    every reachable state keeps, single liveness and stop-before-construct read off
    the event log, control reconciliation, the sticky toon flag, and two
    mode-switching scenarios. */
module OrchestratorProperties {
  import opened Options
  import opened RenderModes
  import opened Orchestration

  // ---------------------------------------------------------------------------
  // The invariant is established at start-up and kept by every user action

  /** How one more event changes the live set. */
  lemma LiveInAppend(log: seq<Event>, e: Event)
    ensures e.Construct? ==> LiveIn(log + [e]) == LiveIn(log) + {e.id}
    ensures e.Stop? ==> LiveIn(log + [e]) == LiveIn(log) - {e.id}
    ensures !e.Construct? && !e.Stop? ==> LiveIn(log + [e]) == LiveIn(log)
  {
    SnocPrefix(log, e);
  }

  /** A log stays well ordered when the event leaves at most one renderer live and,
      if it is a construction, nothing was live before it. */
  lemma WellOrderedAppend(log: seq<Event>, e: Event)
    requires WellOrderedLog(log)
    requires AtMostOne(LiveIn(log + [e]))
    requires e.Construct? ==> LiveIn(log) == {}
    ensures WellOrderedLog(log + [e])
  {
    SnocPrefix(log, e);
  }

  /** An event that is not about a renderer keeps the log well ordered. */
  lemma GuiEventKeepsOrder(log: seq<Event>, e: Event, n: nat)
    requires WellOrderedLog(log) && IdsBelow(log, n)
    requires !e.Construct? && !e.Stop?
    requires e.ForwardToon? ==> e.id < n
    ensures WellOrderedLog(log + [e]) && LiveIn(log + [e]) == LiveIn(log)
    ensures IdsBelow(log + [e], n)
  {
    LiveInAppend(log, e);
    WellOrderedAppend(log, e);
  }

  /** Stopping the stored renderer leaves every renderer stopped and nothing live. */
  lemma StopCurrentClearsLive(st: State)
    requires Inv(st)
    ensures var s1 := StopCurrent(st);
      LiveIn(s1.log) == {} && WellOrderedLog(s1.log) &&
      IdsBelow(s1.log, |st.renderers|) && |s1.renderers| == |st.renderers| &&
      (forall i :: 0 <= i < |s1.renderers| ==> s1.renderers[i].stopped)
  {
    if st.current.Some? {
      var c := st.current.value;
      LiveInAppend(st.log, Stop(c));
      WellOrderedAppend(st.log, Stop(c));
    }
  }

  /** Building a renderer once every earlier one is stopped keeps the invariant. */
  lemma ConstructKeepsInv(st: State, k: RendererKind)
    requires WellFormed(st) && LiveIn(st.log) == {} && WellOrderedLog(st.log)
    requires IdsBelow(st.log, |st.renderers|)
    requires forall i :: 0 <= i < |st.renderers| ==> st.renderers[i].stopped
    requires st.gui == (if st.control.Some? then [st.control.value] else [])
    ensures var id := |st.renderers|;
      Inv(st.(renderers := st.renderers + [RendererRec(k, false)], current := Some(id),
              log := st.log + [Construct(id, k)]))
  {
    var id := |st.renderers|;
    LiveInAppend(st.log, Construct(id, k));
    WellOrderedAppend(st.log, Construct(id, k));
  }

  lemma SetRendererKeepsInv(st: State, mode: string)
    requires Inv(st)
    ensures Inv(SetRenderer(st, mode))
  {
    var s1 := StopCurrent(st);
    StopCurrentClearsLive(st);
    match KindForTag(mode)
    case Some(k) =>
      ConstructKeepsInv(s1, k);
    case None =>
      assert SetRenderer(st, mode) == s1;
  }

  lemma UpdateToonControlKeepsInv(st: State, mode: string)
    requires Inv(st)
    ensures Inv(UpdateToonControl(st, mode))
  {
    if mode == ClusteredDeferredTag && st.control.None? {
      GuiEventKeepsOrder(st.log, AddControl(st.nextHandle, st.toonEnabled), |st.renderers|);
    } else if mode != ClusteredDeferredTag && st.control.Some? {
      GuiEventKeepsOrder(st.log, RemoveControl(st.control.value), |st.renderers|);
      assert RemoveHandle(st.gui, st.control.value) == [];
    }
  }

  lemma ToonToggledKeepsInv(st: State, value: bool)
    requires Inv(st) && st.control.Some?
    ensures Inv(ToonToggled(st, value))
  {
    if st.current.Some? {
      GuiEventKeepsOrder(st.log, ForwardToon(st.current.value, value), |st.renderers|);
    }
  }

  lemma StepKeepsInv(st: State, inp: Input)
    requires Inv(st)
    ensures Inv(Step(st, inp))
  {
    match inp
    case ModeChange(m) =>
      SetRendererKeepsInv(st, m);
      UpdateToonControlKeepsInv(SetRenderer(st, m), m);
    case ToonChange(v) =>
      if st.control.Some? {
        ToonToggledKeepsInv(st, v);
      }
  }

  lemma StartupSatisfiesInv()
    ensures Inv(Startup()) && ControlMatchesRenderer(Startup())
  {
    UpdateToonControlKeepsInv(Initial, NaiveTag);
    SetRendererKeepsInv(UpdateToonControl(Initial, NaiveTag), NaiveTag);
  }

  /** After a mode change the toon control is shown exactly when the new live
      renderer is a clustered-deferred one, whatever the state before. */
  lemma ModeChangeMatchesControl(st: State, mode: string)
    requires Inv(st)
    ensures ControlMatchesRenderer(OnModeChange(st, mode))
  {
    StopCurrentClearsLive(st);
  }

  lemma StepKeepsControlMatch(st: State, inp: Input)
    requires Inv(st) && ControlMatchesRenderer(st)
    ensures ControlMatchesRenderer(Step(st, inp))
  {
    if inp.ModeChange? {
      ModeChangeMatchesControl(st, inp.mode);
    }
  }

  lemma {:induction false} RunKeepsInv(st: State, inputs: seq<Input>)
    requires Inv(st) && ControlMatchesRenderer(st)
    ensures Inv(Run(st, inputs)) && ControlMatchesRenderer(Run(st, inputs))
    decreases |inputs|
  {
    if inputs != [] {
      StepKeepsInv(st, inputs[0]);
      StepKeepsControlMatch(st, inputs[0]);
      RunKeepsInv(Step(st, inputs[0]), inputs[1..]);
    }
  }

  // ---------------------------------------------------------------------------
  // Whole-session guarantees

  /** Whatever the user does after start-up: at most one constructed renderer is
      not stopped, at no point in the event history are two renderers live, every
      construction happens when no renderer is live (the previous one was stopped
      first), the GUI never holds more than one toon control, and that control is
      shown exactly while a clustered-deferred renderer is live. */
  lemma SessionSafety(inputs: seq<Input>)
    ensures var r := Run(Startup(), inputs);
      (forall i, j ::
         (0 <= i < |r.renderers| && 0 <= j < |r.renderers| &&
          !r.renderers[i].stopped && !r.renderers[j].stopped) ==> i == j) &&
      (forall k :: 0 <= k <= |r.log| ==> AtMostOne(LiveIn(r.log[..k]))) &&
      (forall i :: 0 <= i < |r.log| && r.log[i].Construct? ==> LiveIn(r.log[..i]) == {}) &&
      |r.gui| <= 1 && (r.control.Some? <==> |r.gui| == 1) &&
      ControlMatchesRenderer(r)
  {
    StartupSatisfiesInv();
    RunKeepsInv(Startup(), inputs);
    WellOrderedPrefixes(Run(Startup(), inputs).log);
  }

  /** One mode change from any reachable state: the control exists exactly in
      clustered-deferred mode, the panel holds no duplicate, a tag leaves exactly one
      live renderer, of the matching kind and newly built, any other string leaves
      none live and the old handle stored, and no toon value is pushed. */
  lemma ModeChangeOutcome(st: State, mode: string)
    requires Inv(st)
    ensures var r := OnModeChange(st, mode);
      (r.control.Some? <==> mode == ClusteredDeferredTag) &&
      |r.gui| == (if mode == ClusteredDeferredTag then 1 else 0) &&
      (KindForTag(mode).Some? ==>
         r.current == Some(|st.renderers|) && LiveIds(r) == {|st.renderers|} &&
         r.renderers[|st.renderers|].kind == KindForTag(mode).value) &&
      (KindForTag(mode).None? ==> r.current == st.current && LiveIds(r) == {}) &&
      (forall i :: |st.log| <= i < |r.log| ==> !r.log[i].ForwardToon?)
  {
    var s1 := SetRenderer(st, mode);
    var r := UpdateToonControl(s1, mode);
    SetRendererKeepsInv(st, mode);
    UpdateToonControlKeepsInv(s1, mode);
    assert LiveIds(r) == LiveIds(s1);
    ModeChangeAddsNoToon(st, mode);
  }

  /** A mode change logs stops, constructions and control changes, never a toon value. */
  lemma ModeChangeAddsNoToon(st: State, mode: string)
    requires WellFormed(st)
    ensures var r := OnModeChange(st, mode);
      |st.log| <= |r.log| && r.log[..|st.log|] == st.log &&
      forall i :: |st.log| <= i < |r.log| ==> !r.log[i].ForwardToon?
  {
    var s1 := SetRenderer(st, mode);
    var r := UpdateToonControl(s1, mode);
    assert |s1.log| <= |r.log| && r.log[..|s1.log|] == s1.log;
    assert r.log[..|st.log|] == st.log by {
      assert r.log[..|st.log|] == r.log[..|s1.log|][..|st.log|];
    }
    forall i | |st.log| <= i < |r.log|
      ensures !r.log[i].ForwardToon?
    {
      if i < |s1.log| {
        assert r.log[i] == s1.log[i];
      }
    }
  }

  /** Toggling the toon control forwards the value to exactly one renderer, the live
      clustered-deferred one, and keeps it in the sticky flag. */
  lemma ToonValueReachesLiveClusteredDeferred(st: State, value: bool)
    requires Inv(st) && ControlMatchesRenderer(st) && st.control.Some?
    ensures var r := ToonToggled(st, value);
      r.toonEnabled == value && st.current.Some? &&
      r.log == st.log + [ForwardToon(st.current.value, value)] &&
      !st.renderers[st.current.value].stopped &&
      st.renderers[st.current.value].kind == ClusteredDeferredRenderer
  {
  }

  /** Neither switching modes nor re-adding the control pushes the sticky toon value
      into a freshly built renderer: it has received nothing right after the switch. */
  lemma FreshRendererGetsNoToonValue(st: State, mode: string)
    requires Inv(st) && KindForTag(mode).Some?
    ensures var r := OnModeChange(st, mode);
      forall e :: e in r.log && e.ForwardToon? ==> e.id != |st.renderers|
  {
    ModeChangeAddsNoToon(st, mode);
    var r := OnModeChange(st, mode);
    forall e | e in r.log && e.ForwardToon?
      ensures e.id != |st.renderers|
    {
      var i :| 0 <= i < |r.log| && r.log[i] == e;
      assert i < |st.log|;
      assert st.log[i] == r.log[..|st.log|][i] == e;
    }
  }

  /** Selecting the mode already active is not a no-op: the old instance is stopped
      and a distinct instance of the same kind takes its place; in clustered-deferred
      mode the existing toon control is kept rather than added again. */
  lemma ReselectBuildsNewInstance(st: State, mode: string)
    requires Inv(st) && st.current.Some? && KindForTag(mode).Some?
    requires !st.renderers[st.current.value].stopped
    requires st.renderers[st.current.value].kind == KindForTag(mode).value
    requires ControlMatchesRenderer(st)
    ensures var r := OnModeChange(st, mode);
      r.current.Some? && r.current != st.current &&
      r.renderers[st.current.value].stopped &&
      r.renderers[r.current.value] == RendererRec(st.renderers[st.current.value].kind, false) &&
      r.control == st.control && r.gui == st.gui
  {
  }

  /** A string that is none of the tags stops the stored renderer but does not
      replace it: the stopped instance stays stored and nothing is live. */
  lemma UnknownModeLeavesStoppedRenderer(st: State, mode: string)
    requires Inv(st) && !IsTag(mode)
    ensures var r := OnModeChange(st, mode);
      r.current == st.current && LiveIds(r) == {} &&
      |r.renderers| == |st.renderers| &&
      (st.current.Some? ==> r.renderers[st.current.value].stopped)
  {
  }

  /** Because an unknown mode leaves the stopped renderer stored, the next mode change
      calls `stop()` on that same instance a second time. */
  lemma UnknownModeThenTagStopsTwice(st: State, bad: string, good: string)
    requires Inv(st) && st.current.Some? && !IsTag(bad)
    ensures var r := OnModeChange(OnModeChange(st, bad), good);
      exists i, j :: 0 <= i < j < |r.log| &&
        r.log[i] == Stop(st.current.value) && r.log[j] == Stop(st.current.value)
  {
    var c := st.current.value;
    var s1 := OnModeChange(st, bad);
    var r := OnModeChange(s1, good);
    var t1 := SetRenderer(st, bad);
    assert s1.log[..|t1.log|] == t1.log;
    assert s1.log[|st.log|] == Stop(c);
    var t2 := SetRenderer(s1, good);
    assert r.log[..|t2.log|] == t2.log;
    assert t2.log[..|s1.log|] == s1.log;
    assert r.log[|st.log|] == Stop(c);
    assert r.log[|s1.log|] == Stop(c);
  }

  // ---------------------------------------------------------------------------
  // Scenarios

  /** A session of four user actions is the four steps in order. */
  lemma RunFourSteps(st: State, inputs: seq<Input>)
    requires WellFormed(st) && |inputs| == 4
    ensures Run(st, inputs) ==
      Step(Step(Step(Step(st, inputs[0]), inputs[1]), inputs[2]), inputs[3])
  {
    var s1 := Step(st, inputs[0]);
    var s2 := Step(s1, inputs[1]);
    var s3 := Step(s2, inputs[2]);
    assert Run(st, inputs) == Run(s1, inputs[1..]);
    assert Run(s1, inputs[1..]) == Run(s2, inputs[2..]);
    assert Run(s2, inputs[2..]) == Run(s3, inputs[3..]);
  }

  /** Start-up with the default mode `naive` ends with one live Naive renderer and
      no toon control; the control reconciliation ran first and did nothing. */
  lemma StartupOutcome()
    ensures var r := Startup();
      r.current == Some(0) && LiveIds(r) == {0} &&
      r.renderers[0].kind == NaiveRenderer &&
      r.control.None? && r.gui == [] && !r.toonEnabled &&
      r.log == [Construct(0, NaiveRenderer)]
  {
  }

  /** Start-up, clustered deferred, toon on: the state the sticky-flag scenario
      reaches before leaving clustered deferred. */
  const ToonOnUnderClusteredDeferred: State :=
    State([RendererRec(NaiveRenderer, true), RendererRec(ClusteredDeferredRenderer, false)],
          Some(1), Some(0), [0], 1, true,
          [Construct(0, NaiveRenderer), Stop(0), Construct(1, ClusteredDeferredRenderer),
           AddControl(0, false), ForwardToon(1, true)])

  /** ... then naive and clustered deferred again. */
  const ToonOnAfterRoundTrip: State :=
    State([RendererRec(NaiveRenderer, true), RendererRec(ClusteredDeferredRenderer, true),
           RendererRec(NaiveRenderer, true), RendererRec(ClusteredDeferredRenderer, false)],
          Some(3), Some(1), [1], 2, true,
          [Construct(0, NaiveRenderer), Stop(0), Construct(1, ClusteredDeferredRenderer),
           AddControl(0, false), ForwardToon(1, true),
           Stop(1), Construct(2, NaiveRenderer), RemoveControl(0),
           Stop(2), Construct(3, ClusteredDeferredRenderer), AddControl(1, true)])

  lemma ToonTurnedOnUnderClusteredDeferred()
    ensures Step(Step(Startup(), ModeChange(ClusteredDeferredTag)), ToonChange(true)) ==
            ToonOnUnderClusteredDeferred
  {
    var s1 := Step(Startup(), ModeChange(ClusteredDeferredTag));
    assert s1 == State([RendererRec(NaiveRenderer, true), RendererRec(ClusteredDeferredRenderer, false)],
                       Some(1), Some(0), [0], 1, false,
                       [Construct(0, NaiveRenderer), Stop(0), Construct(1, ClusteredDeferredRenderer),
                        AddControl(0, false)]);
  }

  lemma NaiveAndBackToClusteredDeferred()
    ensures Step(Step(ToonOnUnderClusteredDeferred, ModeChange(NaiveTag)), ModeChange(ClusteredDeferredTag)) ==
            ToonOnAfterRoundTrip
  {
    var s2 := ToonOnUnderClusteredDeferred;
    var s3 := Step(s2, ModeChange(NaiveTag));
    assert s3 == State([RendererRec(NaiveRenderer, true), RendererRec(ClusteredDeferredRenderer, true),
                        RendererRec(NaiveRenderer, false)], Some(2), None, [], 1, true,
                       s2.log + [Stop(1), Construct(2, NaiveRenderer), RemoveControl(0)]);
  }

  /** The toon flag is sticky: turned on under clustered deferred, it survives a switch
      to naive (which removes the control) and the control re-added on the way back
      shows it; the new clustered-deferred renderer (id 3) is not told. */
  lemma StickyToonFlag()
    ensures var r := Run(Startup(), [ModeChange(ClusteredDeferredTag), ToonChange(true),
                                     ModeChange(NaiveTag), ModeChange(ClusteredDeferredTag)]);
      r.toonEnabled && r.control == Some(1) && r.gui == [1] &&
      r.current == Some(3) && r.renderers[3] == RendererRec(ClusteredDeferredRenderer, false) &&
      r.log == [Construct(0, NaiveRenderer), Stop(0), Construct(1, ClusteredDeferredRenderer),
                AddControl(0, false), ForwardToon(1, true),
                Stop(1), Construct(2, NaiveRenderer), RemoveControl(0),
                Stop(2), Construct(3, ClusteredDeferredRenderer), AddControl(1, true)]
  {
    ToonTurnedOnUnderClusteredDeferred();
    NaiveAndBackToClusteredDeferred();
    RunFourSteps(Startup(), [ModeChange(ClusteredDeferredTag), ToonChange(true),
                             ModeChange(NaiveTag), ModeChange(ClusteredDeferredTag)]);
    assert Run(Startup(), [ModeChange(ClusteredDeferredTag), ToonChange(true),
                           ModeChange(NaiveTag), ModeChange(ClusteredDeferredTag)]) == ToonOnAfterRoundTrip;
  }

  /** Start-up, forward+, clustered deferred: the state the switching scenario
      reaches before toon shading is turned on. */
  const ClusteredDeferredAfterForwardPlus: State :=
    State([RendererRec(NaiveRenderer, true), RendererRec(ForwardPlusRenderer, true),
           RendererRec(ClusteredDeferredRenderer, false)],
          Some(2), Some(0), [0], 1, false,
          [Construct(0, NaiveRenderer), Stop(0), Construct(1, ForwardPlusRenderer),
           Stop(1), Construct(2, ClusteredDeferredRenderer), AddControl(0, false)])

  /** ... then toon on and naive. */
  const NaiveAfterToonOn: State :=
    State([RendererRec(NaiveRenderer, true), RendererRec(ForwardPlusRenderer, true),
           RendererRec(ClusteredDeferredRenderer, true), RendererRec(NaiveRenderer, false)],
          Some(3), None, [], 1, true,
          [Construct(0, NaiveRenderer), Stop(0), Construct(1, ForwardPlusRenderer),
           Stop(1), Construct(2, ClusteredDeferredRenderer), AddControl(0, false),
           ForwardToon(2, true), Stop(2), Construct(3, NaiveRenderer), RemoveControl(0)])

  lemma ForwardPlusThenClusteredDeferred()
    ensures Step(Step(Startup(), ModeChange(ForwardPlusTag)), ModeChange(ClusteredDeferredTag)) ==
            ClusteredDeferredAfterForwardPlus
  {
    var s1 := Step(Startup(), ModeChange(ForwardPlusTag));
    assert s1 == State([RendererRec(NaiveRenderer, true), RendererRec(ForwardPlusRenderer, false)],
                       Some(1), None, [], 0, false,
                       [Construct(0, NaiveRenderer), Stop(0), Construct(1, ForwardPlusRenderer)]);
  }

  lemma ToonOnThenNaive()
    ensures Step(Step(ClusteredDeferredAfterForwardPlus, ToonChange(true)), ModeChange(NaiveTag)) ==
            NaiveAfterToonOn
  {
    var s2 := ClusteredDeferredAfterForwardPlus;
    var s3 := Step(s2, ToonChange(true));
    assert s3 == s2.(toonEnabled := true, log := s2.log + [ForwardToon(2, true)]);
  }

  /** Naive → forward+ → clustered deferred → toon on → naive, from start-up: each
      switch stops the previous renderer before building the next, the toon control
      appears with the default `false`, the clustered-deferred renderer receives
      `true`, and leaving that mode removes the control while the flag stays `true`. */
  lemma SwitchingScenario()
    ensures var r := Run(Startup(), [ModeChange(ForwardPlusTag), ModeChange(ClusteredDeferredTag),
                                     ToonChange(true), ModeChange(NaiveTag)]);
      r.log == [Construct(0, NaiveRenderer),
                Stop(0), Construct(1, ForwardPlusRenderer),
                Stop(1), Construct(2, ClusteredDeferredRenderer), AddControl(0, false),
                ForwardToon(2, true),
                Stop(2), Construct(3, NaiveRenderer), RemoveControl(0)] &&
      r.renderers == [RendererRec(NaiveRenderer, true), RendererRec(ForwardPlusRenderer, true),
                      RendererRec(ClusteredDeferredRenderer, true), RendererRec(NaiveRenderer, false)] &&
      r.current == Some(3) && r.control.None? && r.gui == [] && r.toonEnabled
  {
    ForwardPlusThenClusteredDeferred();
    ToonOnThenNaive();
    RunFourSteps(Startup(), [ModeChange(ForwardPlusTag), ModeChange(ClusteredDeferredTag),
                             ToonChange(true), ModeChange(NaiveTag)]);
    assert Run(Startup(), [ModeChange(ForwardPlusTag), ModeChange(ClusteredDeferredTag),
                           ToonChange(true), ModeChange(NaiveTag)]) == NaiveAfterToonOn;
  }
}
