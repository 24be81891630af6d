/**
 * Variant-c/variant.js, the resilient hero-section replacement: the document,
 * registry and event queue as values, the script's operations as functions on
 * them, and what holds over any interleaving of page re-renders, observer
 * batches, kill-switch firings and other scripts' registrations.
 */
module HeroVariant {
  import opened Wrappers
  import opened Browser
  import opened TestRegistry
  import W = HeroWatcher

  /** The test's configuration: its name and the id of the wrapper that marks it as applied. */
  const Info := TestInfo("CFXXX - Homepage: Resilient Hero Section Replacement", "cf-hero-replacement-wrapper")

  /** The `<div id="cf-hero-replacement-wrapper">` holding the new hero content. */
  const Wrapper := Element(Some(Info.id))

  /**
   * The document: `#hero-section` with its children (None when there is no such
   * element), and the ids present outside it.
   */
  datatype Dom = Dom(hero: Option<seq<Node>>, elsewhere: set<string>)

  /** `document.getElementById(testInfo.id)` finds something. */
  predicate HasMarker(d: Dom) {
    Info.id in d.elsewhere || (d.hero.Some? && Wrapper in d.hero.value)
  }

  /** `checkForElements`: `#hero-section` is in the document. */
  function CheckForElements(d: Dom): bool {
    d.hero.Some?
  }

  /** The parts of `window` the script reads and writes: the document, `window.CF` and `window.CFQ`. */
  datatype Window = Window(doc: Dom, cf: Option<CF>, cfq: seq<Event>)

  /** 1 while the render notification is still owed, 0 once the flag says it was sent. */
  function Pending(cf: Option<CF>): nat {
    if HasRendered(cf, Info.name) then 0 else 1
  }

  /**
   * `onElementsFound`: unless the hero section is missing or the marker is
   * already in the document, empty the hero section and append the wrapper;
   * then, unless the render flag is set, push `variantRendered` and set the flag.
   */
  function OnElementsFound(w: Window): (r: Window)
    ensures !CheckForElements(w.doc) || HasMarker(w.doc) ==> r == w
    ensures CheckForElements(w.doc) && !HasMarker(w.doc) ==>
              r.doc == Dom(Some([Wrapper]), w.doc.elsewhere)
    ensures HasMarker(r.doc) <==> HasMarker(w.doc) || CheckForElements(w.doc)
    ensures r.cfq == w.cfq ||
            (r.cfq == w.cfq + [VariantRendered] && !HasMarker(w.doc) && HasMarker(r.doc))
    ensures HasRendered(w.cf, Info.name) ==> r.cfq == w.cfq
    ensures CheckForElements(w.doc) && !HasMarker(w.doc) && !HasRendered(w.cf, Info.name) ==>
              r.cfq == w.cfq + [VariantRendered]
    ensures FlagsExist(w.cf) && r.cfq != w.cfq ==> HasRendered(r.cf, Info.name)
    ensures HasRendered(w.cf, Info.name) ==> HasRendered(r.cf, Info.name)
    ensures Running(r.cf) == Running(w.cf) && FlagsExist(r.cf) == FlagsExist(w.cf)
    ensures forall name :: name != Info.name ==> HasRendered(r.cf, name) == HasRendered(w.cf, name)
  {
    if !CheckForElements(w.doc) || HasMarker(w.doc) then
      w
    else
      var cleared := w.doc.(hero := Some([]));
      var doc := cleared.(hero := Some(cleared.hero.value + [Wrapper]));
      assert doc.hero.value == [Wrapper];
      if HasRendered(w.cf, Info.name) then
        w.(doc := doc)
      else
        Window(doc, MarkRendered(w.cf, Info.name), w.cfq + [VariantRendered])
  }

  /** The page with the script loaded: the window, the observer if one was created, and the watcher's log. */
  datatype Session = Session(win: Window, watch: Option<W.Watcher>, log: seq<Step>)

  /** Carries out a watcher turn: `onElementsFound` runs exactly when the turn ran the code. */
  function Perform(win: Window, log: seq<Step>, t: W.Turn): Session
  {
    Session(if RunCode in t.steps then OnElementsFound(win) else win, Some(t.watcher), log + t.steps)
  }

  /** `monitorChangesByConditionAndRun(checkForElements, onElementsFound, keepChecking)`. */
  function Monitor(win: Window, keepChecking: bool := false): (s: Session)
    ensures s.watch.Some? && s.watch.value.keepChecking == keepChecking
    ensures CheckForElements(win.doc) ==> HasMarker(s.win.doc) && RunCode in s.log
    ensures !CheckForElements(win.doc) ==> s.win == win && s.log == []
  {
    Perform(win, [], W.Monitor(CheckForElements(win.doc), false, keepChecking))
  }

  /**
   * The script's top level: exit when a test of this name is already running;
   * otherwise register it and start a persistent watcher.
   */
  function Load(win: Window): (s: Session)
    ensures IsRunning(win.cf, Info.name) ==> s == Session(win, None, [])
    ensures !IsRunning(win.cf, Info.name) ==>
              s.watch == Some(W.Watcher(true, true, false)) &&
              Running(s.win.cf) == Running(win.cf) + [Info] && FlagsExist(s.win.cf)
    ensures !IsRunning(win.cf, Info.name) && CheckForElements(win.doc) ==> HasMarker(s.win.doc)
    ensures IsRunning(s.win.cf, Info.name)
  {
    if IsRunning(win.cf, Info.name) then
      Session(win, None, [])
    else
      Monitor(win.(cf := InitTest(win.cf, Info).1), true)
  }

  /**
   * What may happen once the script has run: the page re-renders the document,
   * the observer is handed a mutation batch, the kill-switch timer fires, or
   * another script calls `initTest`.
   */
  datatype Action = Mutate(doc: Dom) | Batch | KillSwitch | Init(info: TestInfo)

  function Next(s: Session, a: Action): Session {
    match a
    case Mutate(d) => s.(win := s.win.(doc := d))
    case Batch =>
      if s.watch.Some? then Perform(s.win, s.log, W.Deliver(s.watch.value, W.Batch(CheckForElements(s.win.doc))))
      else s
    case KillSwitch =>
      if s.watch.Some? then Perform(s.win, s.log, W.Deliver(s.watch.value, W.Timer)) else s
    case Init(info) => s.(win := s.win.(cf := InitTest(s.win.cf, info).1))
  }

  function Run(s: Session, acts: seq<Action>): Session
    decreases |acts|
  {
    if acts == [] then s else Run(Next(s, acts[0]), acts[1..])
  }

  /** A reachable page: running names are unique and an observer exists only for a registered test. */
  predicate Consistent(s: Session) {
    Unique(s.win.cf) && (s.watch.Some? ==> IsRunning(s.win.cf, Info.name))
  }

  lemma {:induction false} ConsistentForever(s: Session, acts: seq<Action>)
    requires Consistent(s)
    ensures Consistent(Run(s, acts))
    decreases |acts|
  {
    if acts != [] {
      var next := Next(s, acts[0]);
      if acts[0].Init? {
        assert Consistent(next) by {
          var before := Running(s.win.cf);
          if IsRunning(s.win.cf, Info.name) {
            var i :| 0 <= i < |before| && before[i].name == Info.name;
            if !IsRunning(s.win.cf, acts[0].info.name) {
              assert Running(next.win.cf)[i] == before[i];
            }
          }
        }
      }
      ConsistentForever(next, acts[1..]);
    }
  }

  /** Loading the script onto a page whose registry has unique names gives a consistent page. */
  lemma LoadIsConsistent(win: Window)
    requires Unique(win.cf)
    ensures Consistent(Load(win))
  {
  }

  /** A second copy of the script injected into the same page does nothing: no second observer, no change. */
  lemma ReinjectionIsInert(win: Window)
    ensures var s := Load(win); Load(s.win) == Session(s.win, None, [])
  {
  }

  /** The render notification and the flag, taken together, never grow in one step. */
  lemma EmitOnceStep(s: Session, a: Action)
    requires FlagsExist(s.win.cf)
    ensures FlagsExist(Next(s, a).win.cf)
    ensures Rendered(Next(s, a).win.cfq) + Pending(Next(s, a).win.cf) <= Rendered(s.win.cfq) + Pending(s.win.cf)
  {
  }

  /**
   * Emit-once: while `testFlags` exists, over any interleaving of re-renders
   * (including ones that remove the marker), batches, timer firings and other
   * registrations, at most one `variantRendered` is pushed, and none once the
   * flag is set.
   */
  lemma {:induction false} EmitOnce(s: Session, acts: seq<Action>)
    requires FlagsExist(s.win.cf)
    ensures Rendered(Run(s, acts).win.cfq) + Pending(Run(s, acts).win.cf) <= Rendered(s.win.cfq) + Pending(s.win.cf)
    decreases |acts|
  {
    if acts != [] {
      EmitOnceStep(s, acts[0]);
      EmitOnce(Next(s, acts[0]), acts[1..]);
    }
  }

  /** From the moment the script registers, the page receives at most one render notification in all. */
  lemma LoadedPageRendersAtMostOnce(win: Window, acts: seq<Action>)
    requires !IsRunning(win.cf, Info.name)
    ensures Rendered(Run(Load(win), acts).win.cfq) <= Rendered(win.cfq) + 1
  {
    var s := Load(win);
    var registered := win.(cf := InitTest(win.cf, Info).1);
    assert Pending(registered.cf) == Pending(win.cf);
    assert Rendered(s.win.cfq) + Pending(s.win.cf) <= Rendered(win.cfq) + Pending(win.cf);
    EmitOnce(s, acts);
  }

  /**
   * Resilience: when a re-render brings back a hero section without the wrapper,
   * the next batch puts the wrapper back as the section's only child, and pushes
   * no second notification.
   */
  lemma MarkerRestoredWithoutReemit(s: Session, d: Dom)
    requires s.watch.Some? && s.watch.value.connected
    requires CheckForElements(d) && !HasMarker(d)
    requires HasRendered(s.win.cf, Info.name)
    ensures var r := Next(Next(s, Mutate(d)), Batch);
            r.win.doc == Dom(Some([Wrapper]), d.elsewhere) && HasMarker(r.win.doc) && r.win.cfq == s.win.cfq
  {
  }

  /** A persistent, connected observer stays so, and no step of the page disconnects it. */
  lemma {:induction false} PersistentWatcherStays(s: Session, acts: seq<Action>)
    requires s.watch == Some(W.Watcher(true, true, false)) && Disconnect !in s.log
    ensures Run(s, acts).watch == s.watch && Disconnect !in Run(s, acts).log
    decreases |acts|
  {
    if acts != [] {
      PersistentWatcherStays(Next(s, acts[0]), acts[1..]);
    }
  }

  /** The script's own watcher is persistent: it never disconnects, whatever happens on the page. */
  lemma LoadedWatcherNeverDisconnects(win: Window, acts: seq<Action>)
    requires !IsRunning(win.cf, Info.name)
    ensures Run(Load(win), acts).watch == Some(W.Watcher(true, true, false))
    ensures Disconnect !in Run(Load(win), acts).log
  {
    PersistentWatcherStays(Load(win), acts);
  }

  /** `checkForElements` is exactly the first guard of `onElementsFound`: when it fails, nothing changes. */
  lemma CheckGuardsApplication(w: Window)
    ensures !CheckForElements(w.doc) ==> OnElementsFound(w) == w
    ensures CheckForElements(w.doc) ==> HasMarker(OnElementsFound(w).doc)
  {
  }

  /** `onElementsFound` is idempotent: a second call right after the first changes nothing. */
  lemma OnElementsFoundIdempotent(w: Window)
    ensures OnElementsFound(OnElementsFound(w)) == OnElementsFound(w)
  {
  }
}
