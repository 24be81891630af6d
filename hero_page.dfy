/**
 * Variant-c/variant.js as the script runs it: a page object whose fields are
 * the document, `window.CF`, `window.CFQ` and the observer, and whose methods
 * are the script's functions, each proved to do what HeroVariant says.
 */
module HeroPage {
  import opened Wrappers
  import opened Browser
  import opened TestRegistry
  import HV = HeroVariant
  import W = HeroWatcher

  class Page {
    var doc: HV.Dom
    var cf: Option<CF>
    var cfq: seq<Event>
    var watch: Option<W.Watcher>
    var log: seq<Step>

    function Win(): HV.Window reads this {
      HV.Window(doc, cf, cfq)
    }

    function State(): HV.Session reads this {
      HV.Session(Win(), watch, log)
    }

    /** The script's top level, run on a page: the duplicate guard, `initTest`, and a persistent watcher. */
    constructor Load(doc: HV.Dom, cf: Option<CF>, cfq: seq<Event>)
      ensures State() == HV.Load(HV.Window(doc, cf, cfq))
    {
      this.doc, this.cf, this.cfq := doc, cf, cfq;
      this.watch, this.log := None, [];
      new;
      if cf.Some? {
        var running := Find(cf.value.testsRunning, HV.Info.name);
        if running.Some? {
          return;
        }
      }
      var _ := InitTest(HV.Info);
      MonitorChangesByConditionAndRun(true);
    }

    /** `initTest`: reject a name already running, else append it and make sure `testFlags` exists. */
    method InitTest(info: TestInfo) returns (r: InitResult)
      modifies this
      ensures (r, cf) == TestRegistry.InitTest(old(cf), info)
      ensures doc == old(doc) && cfq == old(cfq) && watch == old(watch) && log == old(log)
    {
      var cfObj := cf.GetOr(Empty);
      var running := Find(cfObj.testsRunning, info.name);
      if running.Some? {
        return AlreadyRunning;
      }
      cfObj := cfObj.(testsRunning := cfObj.testsRunning + [info]);
      cfObj := cfObj.(testFlags := Some(cfObj.testFlags.GetOr(map[])));
      cf := Some(cfObj);
      r := Registered(cfObj);
    }

    /** `onElementsFound`: the guarded replacement of the hero content, then the one-time notification. */
    method OnElementsFound()
      modifies this
      ensures Win() == HV.OnElementsFound(old(Win()))
      ensures watch == old(watch) && log == old(log)
    {
      if doc.hero.None? || HV.HasMarker(doc) {
        return;
      }
      doc := doc.(hero := Some([]));
      doc := doc.(hero := Some(doc.hero.value + [HV.Wrapper]));
      if !HasRendered(cf, HV.Info.name) {
        cfq := cfq + [VariantRendered];
        if cf.Some? && cf.value.testFlags.Some? {
          cf := Some(cf.value.(testFlags := Some(cf.value.testFlags.value[HV.Info.name := true])));
        }
      }
    }

    /** `observer.disconnect()`. */
    method Disconnect()
      requires watch.Some?
      modifies this
      ensures watch == Some(old(watch).value.(connected := false)) && log == old(log) + [Browser.Disconnect]
      ensures Win() == old(Win())
    {
      watch := Some(watch.value.(connected := false));
      log := log + [Browser.Disconnect];
    }

    /** `checkAndRun`: on a true check, disconnect unless keeping on checking, then run the code. */
    method CheckAndRun()
      requires watch.Some?
      modifies this
      ensures State() == HV.Perform(old(Win()), old(log), W.CheckAndRun(old(watch).value, HV.CheckForElements(old(doc))))
    {
      if HV.CheckForElements(doc) {
        if !watch.value.keepChecking {
          Disconnect();
        }
        log := log + [RunCode];
        OnElementsFound();
      }
    }

    /** `monitorChangesByConditionAndRun(checkForElements, onElementsFound, keepChecking)` on a page with no observer yet. */
    method MonitorChangesByConditionAndRun(keepChecking: bool := false)
      requires watch.None? && log == []
      modifies this
      ensures State() == HV.Monitor(old(Win()), keepChecking)
    {
      watch := Some(W.Watcher(keepChecking, true, false));
      CheckAndRun();
      if !keepChecking {
        watch := Some(watch.value.(timerArmed := true));
      }
    }

    /** The host hands the observer a batch of mutations. */
    method OnMutationBatch()
      modifies this
      ensures State() == HV.Next(old(State()), HV.Batch)
    {
      if watch.Some? && watch.value.connected {
        CheckAndRun();
      }
    }

    /** The 10-second kill-switch timer fires. */
    method KillSwitch()
      modifies this
      ensures State() == HV.Next(old(State()), HV.KillSwitch)
    {
      if watch.Some? && watch.value.timerArmed {
        watch := Some(watch.value.(timerArmed := false));
        Disconnect();
      }
    }

    /** The page's own code re-renders the document. */
    method Rerender(d: HV.Dom)
      modifies this
      ensures State() == HV.Next(old(State()), HV.Mutate(d))
    {
      doc := d;
    }
  }
}
