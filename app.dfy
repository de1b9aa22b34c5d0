/** The module-level state of src/main.ts and the functions that update it in place:
    the `renderer` variable, the `toonShadingController` handle, the bound
    `toonShadingEnabled` object and the GUI panel, with the calls made on them
    recorded in `log`. Each method is proved to do exactly what the matching
    function of module Orchestration says, and the session invariant is kept. */
module App {
  import opened Options
  import opened RenderModes
  import opened Orchestration
  import OrchestratorProperties

  /** A renderer instance (`NaiveRenderer`, `ForwardPlusRenderer` or
      `ClusteredDeferredRenderer`) reduced to what the orchestrator relies on:
      an identity, its class and whether `stop()` has been called. */
  class Renderer {
    const id: nat
    const kind: RendererKind
    var stopped: bool
    var toonShading: Option<bool>  // the last value passed to `setToonShading`, if any

    constructor (id: nat, kind: RendererKind)
      ensures this.id == id && this.kind == kind && !stopped && toonShading.None?
    {
      this.id := id;
      this.kind := kind;
      stopped := false;
      toonShading := None;
    }

    method Stop()
      modifies this
      ensures stopped && toonShading == old(toonShading)
    {
      stopped := true;
    }

    method SetToonShading(enabled: bool)
      modifies this
      ensures toonShading == Some(enabled) && stopped == old(stopped)
    {
      toonShading := Some(enabled);
    }
  }

  class Orchestrator {
    var renderer: Renderer?
    var toonShadingController: Option<nat>
    var toonShadingEnabled: bool
    var gui: seq<nat>          // the toon controls present in the GUI panel
    var nextHandle: nat        // the handle the next `gui.add` returns
    var rendererCount: nat     // renderers constructed so far; the next one's id
    var log: seq<Event>
    ghost var constructed: seq<Renderer>    // every renderer built, by id
    ghost var records: seq<RendererRec>     // what each of them looks like

    ghost predicate Valid()
      reads this, constructed
    {
      rendererCount == |constructed| == |records| &&
      (forall i :: 0 <= i < |constructed| ==>
         constructed[i].id == i &&
         records[i] == RendererRec(constructed[i].kind, constructed[i].stopped)) &&
      (renderer != null ==> renderer.id < |constructed| && constructed[renderer.id] == renderer)
    }

    /** The abstract state of module Orchestration that this object stands for. */
    ghost function Model(): State
      reads this
    {
      State(records, if renderer == null then None else Some(renderer.id),
            toonShadingController, gui, nextHandle, toonShadingEnabled, log)
    }

    /** The start-up sequence: module state as declared, then
        `updateToonShadingController` and `setRenderer` with the selector's
        initial value `renderModes.naive` (src/main.ts:34, 53, 56-57, 82-84). */
    constructor ()
      ensures Valid() && Model() == Startup()
      ensures Inv(Model()) && ControlMatchesRenderer(Model())
      ensures fresh(constructed[0]) && renderer == constructed[0] && renderer.toonShading.None?
    {
      renderer := null;
      toonShadingController := None;
      toonShadingEnabled := false;
      gui := [];
      nextHandle := 0;
      rendererCount := 0;
      log := [];
      constructed := [];
      records := [];
      new;
      UpdateToonShadingController(NaiveTag);
      SetRenderer(NaiveTag);
      OrchestratorProperties.StartupSatisfiesInv();
    }

    /** `renderer?.stop()`: stops the stored renderer, if there is one. */
    method StopStored()
      requires Valid()
      modifies this`log, this`records, constructed
      ensures Valid() && constructed == old(constructed)
      ensures Model() == StopCurrent(old(Model()))
      // no renderer built earlier is handed a toon value
      ensures forall i :: 0 <= i < |old(constructed)| ==>
        constructed[i].toonShading == old(constructed[i].toonShading)
    {
      if renderer != null {
        renderer.Stop();
        log := log + [Stop(renderer.id)];
        records := records[renderer.id := RendererRec(renderer.kind, true)];
      }
    }

    /** Builds a renderer of the given kind and stores it in `renderer`. */
    method Construct(kind: RendererKind)
      requires Valid()
      modifies this
      ensures Valid()
      ensures fresh(renderer) && constructed == old(constructed) + [renderer]
      ensures renderer.toonShading.None?
      ensures Model() == old(Model()).(
        renderers := old(records) + [RendererRec(kind, false)],
        current := Some(old(rendererCount)),
        log := old(log) + [Orchestration.Construct(old(rendererCount), kind)])
    {
      var r := new Renderer(rendererCount, kind);
      renderer := r;
      constructed := constructed + [r];
      records := records + [RendererRec(kind, false)];
      log := log + [Orchestration.Construct(rendererCount, kind)];
      rendererCount := rendererCount + 1;
    }

    /** `setRenderer(mode)` (src/main.ts:36-50). */
    method SetRenderer(mode: string)
      requires Valid()
      modifies this, constructed
      ensures Valid()
      ensures Model() == Orchestration.SetRenderer(old(Model()), mode)
      ensures |old(constructed)| <= |constructed| && constructed[..|old(constructed)|] == old(constructed)
      ensures forall i :: |old(constructed)| <= i < |constructed| ==> fresh(constructed[i])
      // a newly built renderer is not handed the sticky toon value
      ensures renderer != old(renderer) ==> renderer != null && renderer.toonShading.None?
      // no renderer built earlier is handed a toon value
      ensures forall i :: 0 <= i < |old(constructed)| ==>
        constructed[i].toonShading == old(constructed[i].toonShading)
    {
      StopStored();
      if mode == NaiveTag {
        Construct(NaiveRenderer);
      } else if mode == ForwardPlusTag {
        Construct(ForwardPlusRenderer);
      } else if mode == ClusteredDeferredTag {
        Construct(ClusteredDeferredRenderer);
      }
    }

    /** `updateToonShadingController(mode)` (src/main.ts:59-75). */
    method UpdateToonShadingController(mode: string)
      requires Valid()
      modifies this
      ensures Valid()
      ensures Model() == UpdateToonControl(old(Model()), mode)
      ensures constructed == old(constructed)
    {
      if mode == ClusteredDeferredTag {
        if toonShadingController.None? {
          var h := nextHandle;
          nextHandle := nextHandle + 1;
          gui := gui + [h];
          toonShadingController := Some(h);
          log := log + [AddControl(h, toonShadingEnabled)];
        }
      } else {
        if toonShadingController.Some? {
          var h := toonShadingController.value;
          gui := RemoveHandle(gui, h);
          log := log + [RemoveControl(h)];
          toonShadingController := None;
        }
      }
    }

    /** The toon control's `onChange` callback (src/main.ts:63-67); the GUI has
        already stored `value` in the bound flag before calling it. */
    method OnToonShadingChange(value: bool)
      requires Valid() && Inv(Model()) && ControlMatchesRenderer(Model())
      requires toonShadingController.Some?
      modifies this, renderer
      ensures Valid() && Inv(Model()) && ControlMatchesRenderer(Model())
      ensures Model() == ToonToggled(old(Model()), value)
      ensures constructed == old(constructed)
      ensures renderer != null && renderer.toonShading == Some(value)
    {
      ghost var before := Model();
      toonShadingEnabled := value;
      if renderer != null {
        TellRenderer(value);
      }
      assert Model() == ToonToggled(before, value);
      OrchestratorProperties.ToonToggledKeepsInv(before, value);
    }

    /** `renderer.setToonShading(value)` on the stored renderer. */
    method TellRenderer(value: bool)
      requires Valid() && renderer != null
      modifies this`log, renderer
      ensures Valid() && Model() == old(Model()).(log := old(log) + [ForwardToon(renderer.id, value)])
      ensures renderer.toonShading == Some(value)
    {
      renderer.SetToonShading(value);
      log := log + [ForwardToon(renderer.id, value)];
    }

    /** The mode selector's `onChange` handler (src/main.ts:77-80). From any state
        reached by start-up and user actions it keeps the session invariant. */
    method OnModeChange(mode: string)
      requires Valid() && Inv(Model())
      modifies this, constructed
      ensures Valid() && Inv(Model()) && ControlMatchesRenderer(Model())
      ensures Model() == Orchestration.OnModeChange(old(Model()), mode)
      // the renderers built before stay where they were; any new one is fresh
      // and has not been handed the sticky toon value
      ensures |old(constructed)| <= |constructed| && constructed[..|old(constructed)|] == old(constructed)
      ensures forall i :: |old(constructed)| <= i < |constructed| ==> fresh(constructed[i])
      ensures renderer != old(renderer) ==> renderer != null && renderer.toonShading.None?
      // no renderer built earlier is handed a toon value
      ensures forall i :: 0 <= i < |old(constructed)| ==>
        constructed[i].toonShading == old(constructed[i].toonShading)
    {
      ghost var before := Model();
      SetRenderer(mode);
      UpdateToonShadingController(mode);
      OrchestratorProperties.SetRendererKeepsInv(before, mode);
      OrchestratorProperties.UpdateToonControlKeepsInv(Orchestration.SetRenderer(before, mode), mode);
      OrchestratorProperties.ModeChangeMatchesControl(before, mode);
    }
  }
}
