/**
 * Ramp.com-variant-b/variant.js as the script runs it: a page object whose
 * fields are the document, `window.CFQ` and the observer, and whose methods are
 * the script's functions, each proved to do what RampVariant says.
 */
module RampPage {
  import opened Browser
  import RV = RampVariant
  import W = RampWatcher

  class Page {
    var doc: RV.Dom
    var cfq: seq<Event>
    var watch: W.Watcher
    var log: seq<Step>

    function Win(): RV.Window reads this {
      RV.Window(doc, cfq)
    }

    function State(): RV.Session reads this {
      RV.Session(Win(), watch, log)
    }

    /** The script's top level, run on a page: `monitorChangesByConditionAndRun(isReady, applyVariant)`. */
    constructor Load(doc: RV.Dom, cfq: seq<Event>)
      ensures State() == RV.Load(RV.Window(doc, cfq))
    {
      this.doc, this.cfq := doc, cfq;
      this.watch, this.log := W.Watcher(true, false), [];
      new;
      MonitorChangesByConditionAndRun();
    }

    /** `applyVariant`: the guarded insertion of the new section, then the notification. */
    method ApplyVariant()
      modifies this
      ensures Win() == RV.ApplyVariant(old(Win()))
      ensures watch == old(watch) && log == old(log)
    {
      if !doc.target.Within? {
        return;
      }
      if RV.HasMarker(doc) {
        return;
      }
      doc := doc.(target := RV.Within(doc.target.before + [RV.HowItWorks], doc.target.after));
      cfq := cfq + [VariantRendered];
    }

    /** `obs.disconnect()`. */
    method Disconnect()
      modifies this
      ensures watch == old(watch).(connected := false) && log == old(log) + [Browser.Disconnect]
      ensures Win() == old(Win())
    {
      watch := watch.(connected := false);
      log := log + [Browser.Disconnect];
    }

    /** The condition check shared by the observer callback and the eager check. */
    method RunIfReady()
      modifies this
      ensures State() == RV.Perform(old(Win()), old(log), W.Run(old(watch), RV.IsReady(old(doc)), false))
    {
      if RV.IsReady(doc) {
        log := log + [RunCode];
        ApplyVariant();
        if watch.disconnectAfterRun {
          Disconnect();
        }
      }
    }

    /** `monitorChangesByConditionAndRun(isReady, applyVariant, disconnectAfterRun)` on a page with no observer yet. */
    method MonitorChangesByConditionAndRun(disconnectAfterRun: bool := true)
      requires log == []
      modifies this
      ensures State() == RV.Monitor(old(Win()), disconnectAfterRun)
    {
      watch := W.Watcher(disconnectAfterRun, true);
      RunIfReady();
    }

    /** The host hands the observer a batch of mutations; a disconnected observer gets none. */
    method OnMutationBatch()
      modifies this
      ensures State() == RV.Next(old(State()), RV.Batch)
    {
      if watch.connected {
        RunIfReady();
      }
    }

    /** The page's own code re-renders the document. */
    method Rerender(d: RV.Dom)
      modifies this
      ensures State() == RV.Next(old(State()), RV.Mutate(d))
    {
      doc := d;
    }
  }
}
