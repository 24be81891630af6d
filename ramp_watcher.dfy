/**
 * `monitorChangesByConditionAndRun(condition, callback, disconnectAfterRun = true)`
 * of ramp.com-variant-b/variant.js, over an abstract observer. The condition is
 * seen through its value at each evaluation; the callback through whether it ran
 * and whether it threw. There is no timer: the observer is disconnected only
 * after a callback that returned, and only when `disconnectAfterRun` is set.
 */
module RampWatcher {
  import opened Browser

  datatype Watcher = Watcher(disconnectAfterRun: bool, connected: bool)

  /** The watcher after a turn, and the steps it took during that turn. */
  datatype Turn = Turn(watcher: Watcher, steps: seq<Step>)

  /** A mutation batch: the condition's value at that time, and whether the callback would throw. */
  datatype Signal = Batch(condition: bool, throws: bool)

  /**
   * The body of the observer callback, and of the eager check: when the
   * condition holds, run the callback, and afterwards disconnect if asked to.
   * A callback that throws leaves before the disconnect.
   */
  function Run(w: Watcher, condition: bool, throws: bool): (t: Turn)
    ensures RunCode in t.steps <==> condition
    ensures Runs(t.steps) <= 1
    ensures Disconnect in t.steps <==> condition && w.disconnectAfterRun && !throws
    ensures t.steps != [] ==> t.steps[0] == RunCode
    ensures w.disconnectAfterRun && !throws ==> DisconnectsAfterRuns(t.steps)
    ensures t.watcher.disconnectAfterRun == w.disconnectAfterRun
    ensures t.watcher.connected == (w.connected && Disconnect !in t.steps)
  {
    if !condition then
      Turn(w, [])
    else if throws || !w.disconnectAfterRun then
      Turn(w, [RunCode])
    else
      Turn(w.(connected := false), [RunCode, Disconnect])
  }

  /** Registration: observe (connect), then check once at once. */
  function Monitor(condition: bool, throws: bool, disconnectAfterRun: bool := true): (t: Turn)
    ensures RunCode in t.steps <==> condition
    ensures t.watcher.disconnectAfterRun == disconnectAfterRun
    ensures t.watcher.connected <==> !(condition && disconnectAfterRun && !throws)
    ensures !condition ==> t.steps == []
  {
    Run(Watcher(disconnectAfterRun, true), condition, throws)
  }

  /** The host hands a batch to the observer; a disconnected observer gets none. */
  function Deliver(w: Watcher, s: Signal): (t: Turn)
    ensures RunCode in t.steps <==> w.connected && s.condition
    ensures t.watcher.connected <==> w.connected && !(s.condition && w.disconnectAfterRun && !s.throws)
    ensures !w.connected ==> t.steps == [] && t.watcher == w
    ensures t.steps != [] ==> t.steps[0] == RunCode
    ensures t.watcher.disconnectAfterRun == w.disconnectAfterRun
  {
    if w.connected then Run(w, s.condition, s.throws) else Turn(w, [])
  }

  /** A run of batches, in delivery order; the steps of all turns are concatenated. */
  function Deliveries(w: Watcher, ss: seq<Signal>): Turn
    decreases |ss|
  {
    if ss == [] then Turn(w, [])
    else
      var first := Deliver(w, ss[0]);
      var rest := Deliveries(first.watcher, ss[1..]);
      Turn(rest.watcher, first.steps + rest.steps)
  }

  /** No callback throws in any of the batches. */
  predicate NoThrows(ss: seq<Signal>) {
    forall i :: 0 <= i < |ss| ==> !ss[i].throws
  }

  /** Once disconnected, the callback never runs again. */
  lemma {:induction false} DisconnectedIsSilent(w: Watcher, ss: seq<Signal>)
    requires !w.connected
    ensures Deliveries(w, ss) == Turn(w, [])
    decreases |ss|
  {
    if ss != [] {
      DisconnectedIsSilent(w, ss[1..]);
    }
  }

  lemma ConcatKeepsDisconnectsAfterRuns(a: seq<Step>, b: seq<Step>)
    requires DisconnectsAfterRuns(a) && DisconnectsAfterRuns(b)
    ensures DisconnectsAfterRuns(a + b)
  {
    forall i | 0 <= i < |a + b| && (a + b)[i] == RunCode
      ensures i + 1 < |a + b| && (a + b)[i + 1] == Disconnect
    {
      if i >= |a| { assert b[i - |a|] == RunCode; }
    }
  }

  /**
   * With `disconnectAfterRun` set and callbacks that return, the callback runs
   * at most once, and is followed straight away by the disconnect.
   */
  lemma {:induction false} OneShotAfter(w: Watcher, ss: seq<Signal>)
    requires w.disconnectAfterRun && NoThrows(ss)
    ensures var t := Deliveries(w, ss);
            Runs(t.steps) <= (if w.connected then 1 else 0) &&
            DisconnectsAfterRuns(t.steps) &&
            (Runs(t.steps) == 1 ==> !t.watcher.connected)
    decreases |ss|
  {
    if ss != [] {
      var first := Deliver(w, ss[0]);
      var rest := Deliveries(first.watcher, ss[1..]);
      assert NoThrows(ss[1..]) by {
        forall i | 0 <= i < |ss[1..]| ensures !ss[1..][i].throws { assert ss[1..][i] == ss[i + 1]; }
      }
      assert !ss[0].throws;
      OneShotAfter(first.watcher, ss[1..]);
      if RunCode in first.steps {
        DisconnectedIsSilent(first.watcher, ss[1..]);
      }
      ConcatKeepsDisconnectsAfterRuns(first.steps, rest.steps);
    }
  }

  /**
   * A watcher registered with the default `disconnectAfterRun = true`, whose
   * callback returns, runs it at most once over its whole life; when the
   * condition already holds at registration, it runs before registration
   * returns and never again.
   */
  lemma DefaultRunsAtMostOnce(condition: bool, ss: seq<Signal>)
    requires NoThrows(ss)
    ensures var reg := Monitor(condition, false);
            var log := reg.steps + Deliveries(reg.watcher, ss).steps;
            Runs(log) <= 1 && DisconnectsAfterRuns(log) &&
            (condition ==> RunCode in reg.steps && Deliveries(reg.watcher, ss).steps == [])
  {
    var reg := Monitor(condition, false);
    OneShotAfter(reg.watcher, ss);
    var rest := Deliveries(reg.watcher, ss).steps;
    if condition {
      DisconnectedIsSilent(reg.watcher, ss);
    }
    ConcatKeepsDisconnectsAfterRuns(reg.steps, rest);
  }

  /**
   * With `disconnectAfterRun = false` the observer is never disconnected and the
   * callback runs at every batch whose condition holds.
   */
  lemma {:induction false} KeepObserving(w: Watcher, ss: seq<Signal>)
    requires !w.disconnectAfterRun && w.connected
    ensures Deliveries(w, ss).watcher == w
    ensures Disconnect !in Deliveries(w, ss).steps
    ensures Runs(Deliveries(w, ss).steps) == multiset(ss)[Batch(true, false)] + multiset(ss)[Batch(true, true)]
    decreases |ss|
  {
    if ss != [] {
      KeepObserving(w, ss[1..]);
      assert ss == [ss[0]] + ss[1..];
    }
  }

  /**
   * A callback that throws skips the disconnect: the default one-shot watcher
   * then stays connected and runs its callback again at the next true batch.
   */
  lemma ThrowingCallbackRunsAgain(throwsLater: bool)
    ensures var reg := Monitor(true, true);
            reg.watcher.connected && Runs(reg.steps + Deliveries(reg.watcher, [Batch(true, throwsLater)]).steps) == 2
  {
    var reg := Monitor(true, true);
    assert reg.steps == [RunCode];
    var later := Deliveries(reg.watcher, [Batch(true, throwsLater)]).steps;
    assert [Batch(true, throwsLater)][1..] == [];
    assert later[0] == RunCode;
    assert multiset(reg.steps + later)[RunCode] == multiset(reg.steps)[RunCode] + multiset(later)[RunCode];
  }
}
