/**
 * Ramp.com-variant-b/variant.js, the "How it works" section: the document and
 * event queue as values, `applyVariant` and `isReady` as functions on them, and
 * what holds over any interleaving of page re-renders and observer batches once
 * the script has registered its one-shot watcher.
 */
module RampVariant {
  import opened Wrappers
  import opened Browser
  import W = RampWatcher

  /** The id of the inserted section, used to detect that the variant was applied. */
  const MarkerId := "cf-how-it-works"

  /** The `<section id="cf-how-it-works">` the variant inserts. */
  const HowItWorks := Element(Some(MarkerId))

  /**
   * The first `section.bg-white.spacer-p-t-l` of the document, in front of which
   * the new section goes. As a node it is only "an element without an id"; the
   * target is identified by its position in `Siblings`, not by this value.
   */
  const ProductSuite := Element(None)

  /**
   * Where that section is: missing, present without a parent element, or a
   * child of its parent with the siblings `before` and `after` it.
   */
  datatype Target = Missing | Detached | Within(before: seq<Node>, after: seq<Node>)

  /** The document: the target section and the ids present elsewhere. */
  datatype Dom = Dom(target: Target, elsewhere: set<string>)

  /** The children of the target's parent, the target included. */
  function Siblings(t: Target): seq<Node> {
    if t.Within? then t.before + [ProductSuite] + t.after else []
  }

  /** `document.querySelector('#cf-how-it-works')` finds something. */
  predicate HasMarker(d: Dom) {
    MarkerId in d.elsewhere || HowItWorks in Siblings(d.target)
  }

  /** `isReady`: the target section is in the document. */
  function IsReady(d: Dom): bool {
    !d.target.Missing?
  }

  /** The parts of `window` the script touches: the document and `window.CFQ`. */
  datatype Window = Window(doc: Dom, cfq: seq<Event>)

  /**
   * `applyVariant`: unless the target section or its parent is missing, or the
   * marker section already exists, insert the new section before the target and
   * push `variantRendered`.
   */
  function ApplyVariant(w: Window): (r: Window)
    ensures !w.doc.target.Within? ==> r == w
    ensures HasMarker(w.doc) ==> r == w
    ensures w.doc.target.Within? && !HasMarker(w.doc) ==>
              var i := |w.doc.target.before|;
              var was := Siblings(w.doc.target);
              var now := Siblings(r.doc.target);
              r.doc.target.Within? && |r.doc.target.before| == i + 1 &&
              now == was[..i] + [HowItWorks] + was[i..] &&
              now[i] == HowItWorks && now[i + 1] == ProductSuite &&
              IdCount(now, MarkerId) == 1 &&
              r.doc.elsewhere == w.doc.elsewhere &&
              r.cfq == w.cfq + [VariantRendered]
    ensures r.cfq != w.cfq ==> !HasMarker(w.doc) && HasMarker(r.doc) && r.cfq == w.cfq + [VariantRendered]
    ensures r != w ==> r.cfq != w.cfq
  {
    if !w.doc.target.Within? then
      w
    else if HasMarker(w.doc) then
      w
    else
      var before, after := w.doc.target.before, w.doc.target.after;
      InsertedBefore(before, after);
      Window(w.doc.(target := Within(before + [HowItWorks], after)), w.cfq + [VariantRendered])
  }

  /** Inserting the new section in front of the target, as `insertBefore` does, among siblings without a marker. */
  lemma InsertedBefore(before: seq<Node>, after: seq<Node>)
    requires HowItWorks !in Siblings(Within(before, after))
    ensures var i := |before|;
            var was := Siblings(Within(before, after));
            var now := Siblings(Within(before + [HowItWorks], after));
            now == was[..i] + [HowItWorks] + was[i..] &&
            now[i] == HowItWorks && now[i + 1] == ProductSuite &&
            IdCount(now, MarkerId) == 1
  {
    var was := Siblings(Within(before, after));
    var now := Siblings(Within(before + [HowItWorks], after));
    assert was[..|before|] == before;
    assert was[|before|..] == [ProductSuite] + after;
    assert now == before + [HowItWorks] + ([ProductSuite] + after);
    assert multiset(before + [ProductSuite] + after)[HowItWorks] == 0;
  }

  /** Two calls in a row give one marker section and one notification. */
  lemma ApplyVariantIdempotent(w: Window)
    requires w.doc.target.Within? && !HasMarker(w.doc)
    ensures var once := ApplyVariant(w);
            ApplyVariant(once) == once &&
            IdCount(Siblings(once.doc.target), MarkerId) == 1 &&
            Rendered(once.cfq) == Rendered(w.cfq) + 1
  {
  }

  /** `isReady` guards the application: when it fails nothing changes; when the section has a parent and no marker exists, the section appears. */
  lemma IsReadyGuardsApplication(w: Window)
    ensures !IsReady(w.doc) ==> ApplyVariant(w) == w
    ensures IsReady(w.doc) && !w.doc.target.Detached? ==> HasMarker(ApplyVariant(w).doc)
  {
  }

  /** The page with the script loaded: the window, the observer, and the watcher's log. */
  datatype Session = Session(win: Window, watch: W.Watcher, log: seq<Step>)

  /** Carries out a watcher turn: `applyVariant` runs exactly when the turn ran the callback. */
  function Perform(win: Window, log: seq<Step>, t: W.Turn): Session
  {
    Session(if RunCode in t.steps then ApplyVariant(win) else win, t.watcher, log + t.steps)
  }

  /** `monitorChangesByConditionAndRun(isReady, applyVariant, disconnectAfterRun)`. */
  function Monitor(win: Window, disconnectAfterRun: bool := true): (s: Session)
    ensures s.watch.disconnectAfterRun == disconnectAfterRun
    ensures IsReady(win.doc) ==> RunCode in s.log && s.win == ApplyVariant(win)
    ensures IsReady(win.doc) && disconnectAfterRun ==> !s.watch.connected
    ensures !IsReady(win.doc) ==> s == Session(win, W.Watcher(disconnectAfterRun, true), [])
  {
    Perform(win, [], W.Monitor(IsReady(win.doc), false, disconnectAfterRun))
  }

  /** The script's top level: a watcher with the default `disconnectAfterRun = true`. */
  function Load(win: Window): Session {
    Monitor(win)
  }

  /** What may happen once the script has run: the page re-renders, or the observer is handed a batch. */
  datatype Action = Mutate(doc: Dom) | Batch

  function Next(s: Session, a: Action): Session {
    match a
    case Mutate(d) => s.(win := s.win.(doc := d))
    case Batch => Perform(s.win, s.log, W.Deliver(s.watch, W.Batch(IsReady(s.win.doc), false)))
  }

  function Run(s: Session, acts: seq<Action>): Session
    decreases |acts|
  {
    if acts == [] then s else Run(Next(s, acts[0]), acts[1..])
  }

  /** Once the observer is disconnected, no batch changes the queue or runs the callback. */
  lemma {:induction false} DisconnectedPageIsSilent(s: Session, acts: seq<Action>)
    requires !s.watch.connected
    ensures Run(s, acts).win.cfq == s.win.cfq && Run(s, acts).log == s.log && Run(s, acts).watch == s.watch
    decreases |acts|
  {
    if acts != [] {
      assert Next(s, acts[0]).log == s.log + [];
      DisconnectedPageIsSilent(Next(s, acts[0]), acts[1..]);
    }
  }

  /**
   * Eager short-circuit: when the target is there at load time, the variant is
   * applied before `monitorChangesByConditionAndRun` returns, the observer is
   * disconnected, and nothing that happens later runs it again.
   */
  lemma EagerApplyThenSilence(win: Window, acts: seq<Action>)
    requires IsReady(win.doc)
    ensures var s := Load(win);
            s.win == ApplyVariant(win) && s.log == [RunCode, Disconnect] &&
            Run(s, acts).win.cfq == s.win.cfq && Run(s, acts).log == s.log
  {
    DisconnectedPageIsSilent(Load(win), acts);
  }

  /** The invariant behind LoadedPageRendersAtMostOnce. */
  predicate OneShot(s: Session, q0: seq<Event>) {
    s.watch.disconnectAfterRun &&
    (s.watch.connected ==> s.win.cfq == q0 && Runs(s.log) == 0) &&
    (!s.watch.connected ==> Rendered(s.win.cfq) <= Rendered(q0) + 1 && Runs(s.log) <= 1)
  }

  lemma {:induction false} OneShotForever(s: Session, q0: seq<Event>, acts: seq<Action>)
    requires OneShot(s, q0)
    ensures OneShot(Run(s, acts), q0)
    decreases |acts|
  {
    if acts != [] {
      var next := Next(s, acts[0]);
      assert OneShot(next, q0) by {
        if acts[0].Batch? && s.watch.connected && IsReady(s.win.doc) {
          assert next.log == s.log + [RunCode, Disconnect];
          assert Runs(next.log) == Runs(s.log) + 1;
        } else if acts[0].Batch? {
          assert next.log == s.log + [];
        }
      }
      OneShotForever(next, q0, acts[1..]);
    }
  }

  /**
   * Whatever re-renders and batches follow the script's load, the callback runs
   * at most once and the page receives at most one render notification.
   */
  lemma LoadedPageRendersAtMostOnce(win: Window, acts: seq<Action>)
    ensures Rendered(Run(Load(win), acts).win.cfq) <= Rendered(win.cfq) + 1
    ensures Runs(Run(Load(win), acts).log) <= 1
  {
    var s := Load(win);
    if IsReady(win.doc) {
      assert s.log == [RunCode, Disconnect];
    }
    assert OneShot(s, win.cfq);
    OneShotForever(s, win.cfq, acts);
  }
}
