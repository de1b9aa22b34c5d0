# Render-mode orchestrator of the WebGPU forward-plus / clustered-deferred demo

The demo's entry script (`src/main.ts`) lets the user switch between three
renderers at run time: naive forward, forward+ and clustered deferred. Around
that switch it keeps a small piece of state:

- the module-level `renderer`, the one renderer instance that draws frames;
- the "Toon Shading" GUI control, which exists only in clustered-deferred mode;
- the `toonShadingEnabled` flag that the control is bound to and that outlives it.

This project models that orchestration and proves its rules:

- the old renderer is stopped before the new one is constructed;
- at most one renderer is live at any point of the event history;
- calling `setRenderer` with the active mode still builds a fresh instance;
- a string that is none of the three tags stops the renderer without replacing it;
- the toon control exists exactly in clustered-deferred mode and is never added twice;
- the toon flag is sticky, and only the stored renderer is told when it changes.

Layout:

- `modes.dfy` holds the mode tags of the selector, the `Mode` datatype
  (`Naive | ForwardPlus | ClusteredDeferred | Other(tag)`, because the `switch`
  has no default branch) and the dispatch from a tag to a renderer class.
- `orchestration.dfy` holds the orchestrator as functions on a `State` value:
  renderers constructed so far, the stored renderer handle, the optional control
  handle, the toon controls in the GUI panel, the sticky flag and a log of the
  calls made (`Stop(id)`, `Construct(id, kind)`, `AddControl`, `RemoveControl`,
  `ForwardToon(id, b)`). It also defines the invariant `Inv` of reachable
  states and reads liveness off the log (`LiveIn`, `WellOrderedLog`).
- `properties.dfy` proves that start-up establishes the invariant and every
  user action keeps it. It also proves the whole-session guarantees and two
  scenarios.
- `app.dfy` holds the imperative form. `Renderer` objects have an id, a kind,
  a `stopped` flag and the last toon value they were given. The `Orchestrator`
  class has the fields of the script's module state, and each of its methods
  is proved to do exactly what the matching function of `orchestration.dfy`
  says, via `Model()`.

Behaviour of the code that the model keeps as written:

- An unknown mode string is not an error. `setRenderer` stops the stored
  renderer and leaves it stored, so nothing is live afterwards. The next mode
  change then calls `stop()` a second time on that same instance
  (`UnknownModeThenTagStopsTwice`). The GUI's drop-down only ever delivers the
  three tags, so this is not treated as a defect.
- Whether the toon control exists is decided by comparing the mode string,
  not by asking the renderer. The lemmas `RunKeepsInv` and `SessionSafety`
  prove that, in every reachable state, this comes to the same thing
  (`ControlMatchesRenderer`): the control is shown exactly while a
  clustered-deferred renderer is live.
- The toggle callback forwards to whatever renderer is stored. In reachable
  states that is always the live clustered-deferred one
  (`ToonValueReachesLiveClusteredDeferred`).
- The sticky flag is not pushed into a newly built renderer. After clustered
  deferred, toon on, naive, clustered deferred, the re-added control shows
  `true`, but the new clustered-deferred renderer has not been told
  (`StickyToonFlag`, `FreshRendererGetsNoToonValue`); it learns the value only
  when the user toggles the control again.
- Start-up reconciles the control before constructing the first renderer
  (src/main.ts:82-84). The mode-change handler does it the other way round
  (src/main.ts:77-80).
- Re-selecting the active mode is a property of `setRenderer` and of the
  handler as functions of the mode string (`ReselectBuildsNewInstance`). The
  drop-down's `change` event does not fire when the option already selected is
  picked again, so from the GUI alone this case is not reached.

## Model

| member | source | states |
|---|---|---|
| RenderModes.ParseMode | src/main.ts:39-52 | a selector string is one of the three tags exactly when it is classified as a tagged mode; any other string is kept as `Other`; the tag of the result is the input string |
| RenderModes.ParseModeTag | src/main.ts:52 | parsing the tag of a canonical mode gives that mode back |
| RenderModes.KindFor | src/main.ts:39-49 | the `switch` constructs a renderer exactly for the three tagged modes (there is no default branch), and the kind it constructs leads back to the same mode |
| RenderModes.KindForModeOfKind | src/main.ts:39-49 | every renderer class is constructed for its own tag |
| RenderModes.KindForTag | src/main.ts:39-52 | "naive" builds a NaiveRenderer, "forward+" a ForwardPlusRenderer, "clustered deferred" a ClusteredDeferredRenderer, and no other string builds anything |
| Orchestration.StopCurrent | src/main.ts:37 | `renderer?.stop()`: when a renderer is stored it ends up stopped, keeps its kind, and its Stop is logged; no other renderer changes; the GUI, the next control handle and the toon flag are unchanged; with none stored nothing happens |
| Orchestration.SetRenderer | src/main.ts:36-50 | the previously stored renderer is stopped and keeps its kind, and that Stop is the first event of the call; a tag then stores a new instance with a fresh id and the matching kind, constructed last; any other string constructs nothing and leaves the stopped handle stored; no other renderer is touched; only stops and constructions are logged; GUI state and the toon flag are unchanged |
| Orchestration.RemoveHandle | src/main.ts:71 | `gui.remove` leaves exactly the other controls in the panel; removing a control that is absent changes nothing |
| Orchestration.UpdateToonControl | src/main.ts:59-75 | afterwards the control exists exactly when the mode is "clustered deferred"; it is added only when absent and then shows the sticky flag; it is added under the next handle, which then advances; it is removed only when present, and then exactly that control leaves the panel (`RemoveHandle`) and the handle counter stays; in every other case the state is unchanged, so a second control is never added |
| Orchestration.ToonToggled | src/main.ts:56-67 | the bound flag takes the new value; the value is forwarded to the stored renderer and to no other, and only when one is stored; renderers and GUI are unchanged |
| Orchestration.OnModeChange | src/main.ts:77-80 | afterwards the control exists exactly in clustered-deferred mode; the old log is kept, and every stop and construction of the call is logged before any control change |
| Orchestration.Startup | src/main.ts:82-84 | start-up with the default mode `naive` ends with one Naive renderer (id 0), no toon control, and a log holding only that construction |
| Orchestration.Step | src/main.ts:63-80 | one GUI event (a mode change, or a toggle delivered only while the control exists) keeps the stored handle pointing at a constructed renderer |
| Orchestration.Run | src/main.ts:77-80 | a session of GUI events keeps the stored handle pointing at a constructed renderer |
| Orchestration.WellOrderedPrefixes | src/main.ts:36-49 | a log built event by event under the ordering rule satisfies it at every prefix: at most one renderer is live at any instant, and every construction happens when no renderer is live |
| OrchestratorProperties.SetRendererKeepsInv | src/main.ts:36-50 | `setRenderer` keeps the invariant: the stored renderer is the newest, all others are stopped, the log agrees with the renderers' states and is well ordered, and the panel holds the toon control exactly when its handle is stored |
| OrchestratorProperties.UpdateToonControlKeepsInv | src/main.ts:59-75 | control reconciliation keeps the invariant |
| OrchestratorProperties.ToonToggledKeepsInv | src/main.ts:63-67 | the toggle callback keeps the invariant |
| OrchestratorProperties.StepKeepsInv | src/main.ts:63-80 | every GUI event keeps the invariant |
| OrchestratorProperties.StartupSatisfiesInv | src/main.ts:82-84 | start-up establishes the invariant, and the toon control matches the live renderer |
| OrchestratorProperties.ModeChangeMatchesControl | src/main.ts:77-80 | after any mode change the toon control is shown exactly while a clustered-deferred renderer is live |
| OrchestratorProperties.StepKeepsControlMatch | src/main.ts:63-80 | every GUI event keeps the toon control matched to the live renderer |
| OrchestratorProperties.RunKeepsInv | src/main.ts:77-80 | any session of GUI events keeps the invariant and the control match |
| OrchestratorProperties.SessionSafety | src/main.ts:36-84 | after start-up and any user session: at most one constructed renderer is not stopped; at no prefix of the event history are two renderers live; each construction happens when nothing is live; the panel holds at most one toon control, present exactly when the handle is stored and exactly while a clustered-deferred renderer is live |
| OrchestratorProperties.ModeChangeOutcome | src/main.ts:36-80 | from any reachable state, a mode change leaves the control present exactly in clustered-deferred mode and never duplicated; a tag leaves exactly one live renderer, newly built, of the matching kind; any other string leaves none live and the old handle stored; no toon value is forwarded |
| OrchestratorProperties.ModeChangeAddsNoToon | src/main.ts:36-80 | a mode change keeps the old log and adds no toon-value event |
| OrchestratorProperties.ToonValueReachesLiveClusteredDeferred | src/main.ts:60-67 | in a reachable state with the control shown, toggling stores the value and forwards it to exactly one renderer, which is the live clustered-deferred one |
| OrchestratorProperties.FreshRendererGetsNoToonValue | src/main.ts:39-67 | neither switching modes nor re-adding the control pushes the sticky value into the newly built renderer |
| OrchestratorProperties.ReselectBuildsNewInstance | src/main.ts:36-48 | selecting the mode already active stops the old instance and stores a distinct new one of the same kind; in clustered-deferred mode the existing control is kept, not added again |
| OrchestratorProperties.UnknownModeLeavesStoppedRenderer | src/main.ts:37-49 | a string that is none of the tags stops the stored renderer without reassigning `renderer`: the stopped instance stays stored and nothing is live |
| OrchestratorProperties.UnknownModeThenTagStopsTwice | src/main.ts:37-49 | after an unknown mode, the next mode change calls `stop()` again on the same, already stopped, instance |
| OrchestratorProperties.StartupOutcome | src/main.ts:82-84 | start-up ends with renderer 0 live and of kind Naive, no toon control, the flag false, and only that construction logged |
| OrchestratorProperties.StickyToonFlag | src/main.ts:56-75 | clustered deferred, toon on, naive, clustered deferred: the flag stays true, the control is re-added showing true, renderer 3 is the live clustered-deferred one, and the only toon value forwarded went to renderer 1 |
| OrchestratorProperties.SwitchingScenario | src/main.ts:36-80 | naive, then forward+, clustered deferred, toon on, naive: the exact call log (each stop before the next construction; the control added showing false; renderer 2 told true; the control removed on leaving); all but the last renderer stopped; the flag stays true |
| App.Renderer.constructor | src/main.ts:41-47 | a newly constructed renderer has the given id and kind, is not stopped, and has been given no toon value |
| App.Renderer.Stop | src/main.ts:37 | `stop()` marks the instance stopped and leaves its toon value alone |
| App.Renderer.SetToonShading | src/main.ts:65 | `setToonShading(value)` records the value and does not restart a stopped instance |
| App.Orchestrator.constructor | src/main.ts:82-84 | the script's start-up yields exactly the state `Startup` describes, satisfies the invariant, and the first renderer is fresh and has been given no toon value |
| App.Orchestrator.StopStored | src/main.ts:37 | stops the stored renderer object, if any, exactly as `StopCurrent` says; no renderer's toon value changes |
| App.Orchestrator.Construct | src/main.ts:41-47 | allocates a fresh renderer of the given kind with the next id, stores it and logs its construction |
| App.Orchestrator.SetRenderer | src/main.ts:36-50 | updates the objects exactly as `Orchestration.SetRenderer` says; earlier renderers keep their place; a newly stored renderer is fresh and has been given no toon value; no earlier renderer's toon value changes |
| App.Orchestrator.UpdateToonShadingController | src/main.ts:59-75 | updates the controller handle and the panel exactly as `UpdateToonControl` says; the renderer objects are not touched |
| App.Orchestrator.OnToonShadingChange | src/main.ts:63-67 | updates the state exactly as `ToonToggled` says, keeps the invariant, and the stored renderer object holds the new value |
| App.Orchestrator.TellRenderer | src/main.ts:64-66 | calls `setToonShading` on the stored renderer object and logs it; the abstract renderer states are unchanged |
| App.Orchestrator.OnModeChange | src/main.ts:77-80 | updates the objects exactly as `Orchestration.OnModeChange` says, keeps the invariant and the control match, hands no toon value to any renderer (earlier ones keep theirs, a new one has none), and keeps every earlier renderer object in place |

## Left out

- WebGPU initialisation, loader setup, glTF scene loading and top-level `await` (src/main.ts:14-18): asynchronous I/O and GPU calls.
- The Stats panel and its DOM append (src/main.ts:23-25): browser UI plumbing.
- The `numLights` slider and its uniform update (src/main.ts:28-30): a thin wrapper over `Lights`, which is not part of this model.
- The internals of `NaiveRenderer`, `ForwardPlusRenderer`, `ClusteredDeferredRenderer`, `Stage`, `Scene`, `Camera` and the frame loop: shading and culling on the GPU. A renderer is modelled only by its id, kind, `stopped` flag and the last toon value it was given.
- Failures of a renderer's constructor or of `stop()`: the script does not handle them, so the model assumes both succeed.
- dat.gui internals: `gui.add` and `gui.remove` add and remove an abstract control handle. Only toon controls are tracked in the panel; the mode selector and the lights slider are not.
- The first `onChange(setRenderer)` registration (src/main.ts:54): dat.gui keeps one change callback per controller, so the handler of src/main.ts:77-80 replaces it. Only that later handler is modelled as the mode-change event.
- Orderly shutdown: the script has no teardown path, so nothing stops the last renderer.
- Orchestration.ToonToggled: requires the control to exist, because its callback is attached to the control and cannot fire once the control has been removed.
- Orchestration.Step: a toggle while no control exists is treated as no event, for the same reason.
- Orchestration.Step: its contract only says the stored handle stays valid. What an event does is stated by the functions it dispatches to and by the lemmas in `properties.dfy`.
- Orchestration.Run: its contract only says the stored handle stays valid. Session-wide properties are the lemmas `RunKeepsInv` and `SessionSafety`.
