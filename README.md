# Idempotent DOM-patch scripts: a verified model

This project models two A/B-test variant scripts that share one pattern. A
script watches the live document until a condition holds. It then patches the
document once, guarded by a marker element id. After the patch it pushes a
`variantRendered` event onto the page-wide `window.CFQ` queue.

- **variant-c** replaces the home page's `#hero-section` content with a
  wrapper `#cf-hero-replacement-wrapper`. It registers itself in the shared
  registry `window.CF` (`testsRunning`, `testFlags`). It exits early when a
  test of the same name is already running. It uses a persistent watcher. A
  `hasRendered` flag keeps the event to one even when a re-render removes the
  wrapper and the patch is applied again.
- **ramp.com-variant-b** inserts a `#cf-how-it-works` section immediately
  before the first `section.bg-white.spacer-p-t-l`. It uses a one-shot watcher
  with no timer.

The document is abstract. For variant-c it is the hero section's children
(or its absence) plus the ids elsewhere. For variant-b it is the target
section's place among its parent's children (or its absence, or a missing
parent) plus the ids elsewhere. The observer is a `connected` flag (and, in
variant-c, an armed kill-switch timer). A watcher log of `Disconnect` and
`RunCode` steps records their order. The host's deliveries are explicit
steps: a re-render of the document, a mutation batch, the timer firing, and
another script's `initTest`.

Files and modules:

- `wrappers.dfy` (`Wrappers`): `Option`.
- `browser.dfy` (`Browser`): nodes seen through their id, `CFQ` events, watcher steps.
- `test_registry.dfy` (`TestRegistry`): `window.CF`, `initTest`, the `hasRendered` flags.
- `hero_watcher.dfy` (`HeroWatcher`) and `ramp_watcher.dfy` (`RampWatcher`): the two
  versions of `monitorChangesByConditionAndRun`, generic over the predicate's value.
- `hero_variant.dfy` (`HeroVariant`) and `ramp_variant.dfy` (`RampVariant`): each
  script as functions on values, with the lemmas over interleavings.
- `hero_page.dfy` (`HeroPage`) and `ramp_page.dfy` (`RampPage`): each script as a
  class whose fields are the page state. Its methods mirror the script's functions
  statement by statement. Each method's `ensures` gives the page's whole new
  state, as a function of the old one (`HeroVariant`, `RampVariant`,
  `TestRegistry`), or written out for the `Disconnect` methods.

The three details in which the two watchers differ are pinned down:

- `HeroWatcher.Monitor` defaults to `keepChecking := false`; `RampWatcher.Monitor`
  defaults to `disconnectAfterRun := true`.
- variant-c disconnects before the code (`DisconnectsBeforeRuns`); variant-b
  after it (`DisconnectsAfterRuns`). So in variant-b a callback that throws
  skips the disconnect.
- Only variant-c has the 10-second kill-switch (`HeroWatcher.Timer`).

Several properties one might expect of this pattern do not hold in these scripts:

- A watcher whose predicate already holds at registration does subscribe. The
  observer is connected first and disconnected afterwards; it is not "never
  subscribed".
- Neither watcher catches exceptions. In variant-b an exception from the
  callback skips `disconnect()`, so the one-shot watcher stays connected and
  runs the callback again (`RampWatcher.ThrowingCallbackRunsAgain`).
- In variant-c an exception from the eager call skips `setTimeout`, so no
  kill-switch is armed (`HeroWatcher.Monitor`).
- Variant-b has no kill-switch, even though its watcher is one-shot.
- "Exactly one event per page load" is "at most one" in the code. Variant-c
  pushes again on every re-application while `window.CF.testFlags` does not
  exist (`EmitOnce` needs it; `initTest` creates it). Variant-b relies only on
  disconnecting after the first run.

## Model

| member | source | states |
|---|---|---|
| TestRegistry.Find | variant-c/variant.js:202 | `find` by name returns an entry iff some running test has that name, and it returns the first such entry |
| TestRegistry.InitTest | variant-c/variant.js:199-212 | a name already running gives `false` and changes nothing. Otherwise the info is appended exactly once, `testFlags` exists afterwards (kept if it existed), `qaTesting` is kept or is false for a new registry, the same object is stored and returned, the name is running, render flags are unchanged and unique names stay unique |
| TestRegistry.MarkRendered | variant-c/variant.js:64-66 | the render flag is set when `CF` and `testFlags` exist and nothing changes otherwise; other tests' flags and the running list are untouched |
| TestRegistry.InitAllKeepsNamesUnique | variant-c/variant.js:202-207 | whatever sequence of `initTest` calls is made, no name appears twice in `testsRunning` |
| TestRegistry.InitAllRegistersEveryName | variant-c/variant.js:199-212 | after a sequence of `initTest` calls a name is running iff it was before or some call carried it |
| TestRegistry.DuplicateRegistrationRejected | variant-c/variant.js:202-205 | of two registrations under one name the second is always rejected and changes nothing; the first succeeds iff the name was not running |
| HeroWatcher.CheckAndRun | variant-c/variant.js:172-179 | the code runs iff the check holds, at most once per call. A one-shot watcher disconnects exactly then, and before the code; a persistent one never does |
| HeroWatcher.Monitor | variant-c/variant.js:171-192 | registration runs the code at once iff the check holds. The observer stays connected iff persistent or the check failed. The kill-switch is armed iff one-shot and the eager call did not throw. One-shot: at most one run, after a disconnect. Persistent: no disconnect |
| HeroWatcher.Deliver | variant-c/variant.js:181-191 | a batch reaching a connected observer runs the code iff the check holds, leaves it connected iff persistent or the check failed, and a one-shot watcher disconnects before the code; a disconnected observer never runs the code and stays disconnected; the timer never runs the code, and an armed timer disconnects |
| HeroWatcher.DisconnectedIsSilent | variant-c/variant.js:174-176 | once disconnected, no sequence of signals runs the code or reconnects |
| HeroWatcher.KillSwitchSilences | variant-c/variant.js:189-191 | after the kill-switch fires the code never runs again |
| HeroWatcher.PersistentNeverDisconnects | variant-c/variant.js:172-179 | with `keepChecking` the watcher never disconnects and runs the code once per batch whose check holds |
| HeroWatcher.OneShotAfter | variant-c/variant.js:172-179 | a one-shot watcher runs the code at most once (never if already disconnected), each run right after a disconnect, and is disconnected after it |
| HeroWatcher.OneShotRunsAtMostOnce | variant-c/variant.js:171-192 | with the default flag, over registration and any later signals, the code runs at most once and only right after a disconnect |
| HeroVariant.OnElementsFound | variant-c/variant.js:26-71 | no change without `#hero-section` or with the marker present. Otherwise the wrapper is the only child of the cleared hero section and the marker is present. At most one event is pushed, only in a call that added the marker; none once the flag is set, one if not. The flag is set when `testFlags` exists |
| HeroVariant.Monitor | variant-c/variant.js:171-192 | with this script's check and code: if the hero section is present at registration the marker is present before registration returns; otherwise nothing changes |
| HeroVariant.Load | variant-c/variant.js:7-17 | an already-registered test makes the script exit with no observer and no change. Otherwise the script is appended to `testsRunning`, `testFlags` exists, a persistent connected observer without timer exists, and an already-present hero section is patched |
| HeroVariant.ConsistentForever | variant-c/variant.js:8-11 | on any run of steps, running names stay unique and an observer exists only while the test is registered |
| HeroVariant.LoadIsConsistent | variant-c/variant.js:7-11 | loading onto a registry with unique names gives a consistent page |
| HeroVariant.ReinjectionIsInert | variant-c/variant.js:8-11 | a second copy of the script on the same page creates no observer and changes nothing |
| HeroVariant.EmitOnceStep | variant-c/variant.js:60-66 | while `testFlags` exists, one step never increases events pushed plus notification still owed |
| HeroVariant.EmitOnce | variant-c/variant.js:59-67 | while `testFlags` exists, over any interleaving of re-renders (which may remove the marker), batches, timer firings and other registrations, at most one `variantRendered` is pushed, and none once the flag is set |
| HeroVariant.LoadedPageRendersAtMostOnce | variant-c/variant.js:7-17 | from the script's registration on, whatever happens, the queue gains at most one `variantRendered` |
| HeroVariant.MarkerRestoredWithoutReemit | variant-c/variant.js:29-66 | after a re-render that drops the wrapper, the next batch puts the wrapper back as the hero section's only child and pushes nothing once the flag is set |
| HeroVariant.PersistentWatcherStays | variant-c/variant.js:172-179 | a persistent connected observer stays unchanged and logs no disconnect over any run of steps |
| HeroVariant.LoadedWatcherNeverDisconnects | variant-c/variant.js:15-17 | the script's own watcher is never disconnected, whatever happens on the page |
| HeroVariant.CheckGuardsApplication | variant-c/variant.js:77-81 | when `checkForElements` fails `onElementsFound` changes nothing; when it holds the marker is present afterwards |
| HeroVariant.OnElementsFoundIdempotent | variant-c/variant.js:29-32 | a second `onElementsFound` right after the first changes nothing |
| HeroPage.Page.Load | variant-c/variant.js:7-17 | running the top level on a page gives the state `HeroVariant.Load` describes |
| HeroPage.Page.InitTest | variant-c/variant.js:199-212 | returns and stores exactly what `TestRegistry.InitTest` gives, and leaves document, queue and observer unchanged |
| HeroPage.Page.OnElementsFound | variant-c/variant.js:26-71 | the window afterwards is `HeroVariant.OnElementsFound` of the window before; the observer and log are unchanged |
| HeroPage.Page.Disconnect | variant-c/variant.js:175 | the observer is disconnected and the log records it; the window is unchanged |
| HeroPage.Page.CheckAndRun | variant-c/variant.js:172-179 | the state afterwards is the watcher turn `HeroWatcher.CheckAndRun` carried out on the page |
| HeroPage.Page.MonitorChangesByConditionAndRun | variant-c/variant.js:171-192 | the state afterwards is `HeroVariant.Monitor` of the window before |
| HeroPage.Page.OnMutationBatch | variant-c/variant.js:181-185 | a delivered batch gives the state of a `Batch` step |
| HeroPage.Page.KillSwitch | variant-c/variant.js:190 | the timer firing gives the state of a `KillSwitch` step |
| RampWatcher.Run | ramp.com-variant-b/variant.js:7-13 | the callback runs iff the condition holds, at most once and before anything else. The observer is disconnected iff the condition holds, `disconnectAfterRun` is set and the callback returned, and then right after the callback |
| RampWatcher.Monitor | ramp.com-variant-b/variant.js:2-27 | registration runs the callback at once iff the condition holds. The observer stays connected unless it ran, returned and `disconnectAfterRun` is set; nothing happens when the condition fails |
| RampWatcher.Deliver | ramp.com-variant-b/variant.js:7-14 | the callback runs iff the observer is connected and the condition holds, and before anything else; the observer stays connected unless the condition held, `disconnectAfterRun` is set and the callback returned; a disconnected observer does nothing |
| RampWatcher.DisconnectedIsSilent | ramp.com-variant-b/variant.js:10-12 | once disconnected, no batch runs the callback or changes the watcher |
| RampWatcher.OneShotAfter | ramp.com-variant-b/variant.js:7-13 | with `disconnectAfterRun` and callbacks that return, the callback runs at most once (never if already disconnected), each run right before a disconnect |
| RampWatcher.DefaultRunsAtMostOnce | ramp.com-variant-b/variant.js:2-27 | with the default flag and returning callbacks, the callback runs at most once over registration and all later batches; if the condition holds at registration it runs there and never again |
| RampWatcher.KeepObserving | ramp.com-variant-b/variant.js:7-13 | with `disconnectAfterRun = false` the observer never disconnects and the callback runs at every batch whose condition holds |
| RampWatcher.ThrowingCallbackRunsAgain | ramp.com-variant-b/variant.js:21-26 | an eager callback that throws leaves the default one-shot observer connected, and the callback runs again at the next true batch |
| RampVariant.ApplyVariant | ramp.com-variant-b/variant.js:32-51 | no change without the target section, without its parent, or with `#cf-how-it-works` present. Otherwise the new section sits immediately before the target, the other children keep their order, the marker occurs exactly once among them, and exactly one `variantRendered` is pushed. An event is pushed only in a call that added the marker |
| RampVariant.InsertedBefore | ramp.com-variant-b/variant.js:44-47 | `insertBefore` puts the new section immediately in front of the target, keeps the other siblings in order, and leaves exactly one marker among siblings that had none |
| RampVariant.ApplyVariantIdempotent | ramp.com-variant-b/variant.js:39-50 | two consecutive calls give one marker section and one event |
| RampVariant.IsReadyGuardsApplication | ramp.com-variant-b/variant.js:53 | when `isReady` fails `applyVariant` changes nothing; when it holds and the section has a parent the marker is present afterwards |
| RampVariant.Monitor | ramp.com-variant-b/variant.js:2-27 | with this script's condition and callback: if the target is present at registration the variant is applied before registration returns, and the observer is disconnected when `disconnectAfterRun` is set; otherwise nothing changes and the observer is connected |
| RampVariant.DisconnectedPageIsSilent | ramp.com-variant-b/variant.js:7-13 | once the observer is disconnected, no re-render or batch changes the queue, the log or the observer |
| RampVariant.EagerApplyThenSilence | ramp.com-variant-b/variant.js:21-26 | a target present at load is patched during registration, the observer is disconnected right after, and nothing later runs the callback or pushes an event |
| RampVariant.OneShotForever | ramp.com-variant-b/variant.js:7-13 | over any run of steps the queue is untouched while the observer is connected, and gains at most one event with at most one callback run once it is disconnected |
| RampVariant.LoadedPageRendersAtMostOnce | ramp.com-variant-b/variant.js:2-55 | whatever re-renders and batches follow the load, the callback runs at most once and the queue gains at most one `variantRendered` |
| RampPage.Page.Load | ramp.com-variant-b/variant.js:55 | running the top level on a page gives the state `RampVariant.Load` describes |
| RampPage.Page.ApplyVariant | ramp.com-variant-b/variant.js:32-51 | the window afterwards is `RampVariant.ApplyVariant` of the window before; the observer and log are unchanged |
| RampPage.Page.Disconnect | ramp.com-variant-b/variant.js:11 | the observer is disconnected and the log records it; the window is unchanged |
| RampPage.Page.RunIfReady | ramp.com-variant-b/variant.js:8-13 | the state afterwards is the watcher turn `RampWatcher.Run` carried out on the page |
| RampPage.Page.MonitorChangesByConditionAndRun | ramp.com-variant-b/variant.js:2-27 | the state afterwards is `RampVariant.Monitor` of the window before |
| RampPage.Page.OnMutationBatch | ramp.com-variant-b/variant.js:7-14 | a delivered batch gives the state of a `Batch` step |

## Left out

- JSX markup and copy (`NewHeroSection`, `HowItWorksSection`, `Step`): the inserted node is an opaque element that carries only the marker id.
- `addStyling` and the cosmetic writes in `onElementsFound`: the `cf-test-active` body attribute, background colour, `marginTop` and the removal of the background elements. They have no behaviour to state.
- The real `MutationObserver`, `setTimeout` and the 10-second delay. They are a `connected` flag, an armed-timer flag and explicit `Batch`/`KillSwitch` steps; host batching and wall-clock time are not modelled.
- `console.log`, `console.warn` and `console.error` output.
- Exceptions inside the `try` block of `onElementsFound`: a partly applied patch is not modelled. A throwing callback is modelled only in the generic watchers, as an input.
- The spread merge `window.CF = {...window.CF, ...cfObj}` as object identity: only its effect on `testsRunning`, `testFlags` and `qaTesting` is modelled.
- A `window.CF` that exists without a `testsRunning` array. `initTest` would throw on it; the model always has the array.
- The top-level `return` of variant-c is "exit when already registered" (`HeroVariant.Load`), not a host-wrapper return.
- Scripts other than these two: they appear only through their `initTest` calls (`HeroVariant.Init`). Their own pushes to `CFQ` are not modelled.
- One observer per page object: `MonitorChangesByConditionAndRun` is modelled as called once, from the script's top level. Variant-b has no duplicate guard, so a second injection of it would create a second observer; that is not modelled.
- `isReady` and `checkForElements` have no contract of their own. They are stated through `RampVariant.IsReadyGuardsApplication` and `HeroVariant.CheckGuardsApplication`.
