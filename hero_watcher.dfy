/**
 * `monitorChangesByConditionAndRun(check, code, keepChecking = false)` of
 * variant-c/variant.js, over an abstract observer. The predicate is seen
 * through its value at each evaluation; the callback through whether it was
 * run. The observer is connected at registration and only ever disconnected:
 * by a successful check when `keepChecking` is false, or by the 10 s kill-switch.
 */
module HeroWatcher {
  import opened Browser

  /** The observer (`connected`) and the pending kill-switch timer (`timerArmed`). */
  datatype Watcher = Watcher(keepChecking: bool, connected: bool, timerArmed: bool)

  /** The watcher after a turn, and the steps it took during that turn. */
  datatype Turn = Turn(watcher: Watcher, steps: seq<Step>)

  /** What the host delivers: a mutation batch (with the predicate's value at that time), or the timer firing. */
  datatype Signal = Batch(check: bool) | Timer

  /**
   * `checkAndRun`: when the check holds, a one-shot watcher disconnects first
   * and then runs the code; a persistent one only runs it.
   */
  function CheckAndRun(w: Watcher, check: bool): (t: Turn)
    ensures RunCode in t.steps <==> check
    ensures Runs(t.steps) <= 1
    ensures Disconnect in t.steps <==> check && !w.keepChecking
    ensures DisconnectsBeforeRuns(t.steps) || w.keepChecking
    ensures t.watcher.keepChecking == w.keepChecking && t.watcher.timerArmed == w.timerArmed
    ensures t.watcher.connected == (w.connected && !(check && !w.keepChecking))
  {
    if !check then
      Turn(w, [])
    else if !w.keepChecking then
      Turn(w.(connected := false), [Disconnect, RunCode])
    else
      Turn(w, [RunCode])
  }

  /**
   * Registration: observe (connect), run `checkAndRun` once at once, then arm
   * the kill-switch unless `keepChecking`. When the eager call of the code
   * throws, the exception leaves the function before the timer is armed.
   */
  function Monitor(check: bool, throws: bool, keepChecking: bool := false): (t: Turn)
    ensures RunCode in t.steps <==> check
    ensures t.watcher.keepChecking == keepChecking
    ensures t.watcher.connected <==> keepChecking || !check
    ensures t.watcher.timerArmed <==> !keepChecking && !(check && throws)
    ensures !keepChecking ==> DisconnectsBeforeRuns(t.steps) && Runs(t.steps) <= 1
    ensures keepChecking ==> Disconnect !in t.steps
  {
    var eager := CheckAndRun(Watcher(keepChecking, true, false), check);
    if check && throws then eager
    else eager.(watcher := eager.watcher.(timerArmed := !keepChecking))
  }

  /**
   * The host delivers a signal. A batch reaches `checkAndRun` only while the
   * observer is connected; the timer disconnects once.
   */
  function Deliver(w: Watcher, s: Signal): (t: Turn)
    ensures !w.connected ==> RunCode !in t.steps
    ensures !w.connected ==> !t.watcher.connected
    ensures s.Batch? && w.connected ==>
              (RunCode in t.steps <==> s.check) &&
              (t.watcher.connected <==> w.keepChecking || !s.check) &&
              (w.keepChecking || DisconnectsBeforeRuns(t.steps))
    ensures s.Timer? ==> RunCode !in t.steps && !t.watcher.timerArmed
    ensures s.Timer? && w.timerArmed ==> !t.watcher.connected
    ensures t.watcher.keepChecking == w.keepChecking
    ensures t.watcher.timerArmed ==> w.timerArmed
  {
    match s
    case Batch(check) =>
      if w.connected then CheckAndRun(w, check) else Turn(w, [])
    case Timer =>
      if w.timerArmed then Turn(w.(connected := false, timerArmed := false), [Disconnect]) else Turn(w, [])
  }

  /** A run of signals, in delivery order; the steps of all turns are concatenated. */
  function Deliveries(w: Watcher, ss: seq<Signal>): Turn
    decreases |ss|
  {
    if ss == [] then Turn(w, [])
    else
      var first := Deliver(w, ss[0]);
      var rest := Deliveries(first.watcher, ss[1..]);
      Turn(rest.watcher, first.steps + rest.steps)
  }

  /** Once disconnected, a watcher never runs its code again, whatever is delivered. */
  lemma {:induction false} DisconnectedIsSilent(w: Watcher, ss: seq<Signal>)
    requires !w.connected
    ensures RunCode !in Deliveries(w, ss).steps
    ensures !Deliveries(w, ss).watcher.connected
    decreases |ss|
  {
    if ss != [] {
      DisconnectedIsSilent(Deliver(w, ss[0]).watcher, ss[1..]);
    }
  }

  /** After the kill-switch has fired, the code never runs again. */
  lemma KillSwitchSilences(w: Watcher, ss: seq<Signal>)
    requires w.timerArmed
    ensures RunCode !in Deliveries(w, [Timer] + ss).steps
  {
    var fired := Deliver(w, Timer);
    DisconnectedIsSilent(fired.watcher, ss);
    assert ([Timer] + ss)[1..] == ss;
  }

  /** A persistent watcher never disconnects and runs its code at every batch whose check holds. */
  lemma {:induction false} PersistentNeverDisconnects(w: Watcher, ss: seq<Signal>)
    requires w.keepChecking && w.connected && !w.timerArmed
    ensures Deliveries(w, ss).watcher == w
    ensures Disconnect !in Deliveries(w, ss).steps
    ensures Runs(Deliveries(w, ss).steps) == multiset(ss)[Batch(true)]
    decreases |ss|
  {
    if ss != [] {
      var first := Deliver(w, ss[0]);
      assert first.watcher == w;
      assert first.steps == (if ss[0] == Batch(true) then [RunCode] else []);
      PersistentNeverDisconnects(w, ss[1..]);
      assert ss == [ss[0]] + ss[1..];
    }
  }

  /**
   * A one-shot watcher (registered with the default `keepChecking = false`) runs
   * its code at most once over its whole life, and disconnects right before it does.
   */
  lemma OneShotRunsAtMostOnce(check: bool, throws: bool, ss: seq<Signal>)
    ensures var reg := Monitor(check, throws);
            var log := reg.steps + Deliveries(reg.watcher, ss).steps;
            Runs(log) <= 1 && DisconnectsBeforeRuns(log)
  {
    var reg := Monitor(check, throws);
    OneShotAfter(reg.watcher, ss);
    var rest := Deliveries(reg.watcher, ss).steps;
    if check {
      DisconnectedIsSilent(reg.watcher, ss);
      assert multiset(rest)[RunCode] == 0;
    }
    ConcatKeepsDisconnectsBeforeRuns(reg.steps, rest);
  }

  /** The invariant behind OneShotRunsAtMostOnce, for any reachable one-shot watcher. */
  lemma {:induction false} OneShotAfter(w: Watcher, ss: seq<Signal>)
    requires !w.keepChecking
    ensures var t := Deliveries(w, ss);
            Runs(t.steps) <= (if w.connected then 1 else 0) &&
            DisconnectsBeforeRuns(t.steps) &&
            (Runs(t.steps) == 1 ==> !t.watcher.connected)
    decreases |ss|
  {
    if ss != [] {
      var first := Deliver(w, ss[0]);
      var rest := Deliveries(first.watcher, ss[1..]);
      OneShotAfter(first.watcher, ss[1..]);
      if RunCode in first.steps {
        DisconnectedIsSilent(first.watcher, ss[1..]);
        assert multiset(rest.steps)[RunCode] == 0;
      }
      ConcatKeepsDisconnectsBeforeRuns(first.steps, rest.steps);
    }
  }

  lemma ConcatKeepsDisconnectsBeforeRuns(a: seq<Step>, b: seq<Step>)
    requires DisconnectsBeforeRuns(a) && DisconnectsBeforeRuns(b)
    ensures DisconnectsBeforeRuns(a + b)
  {
    forall i | 0 <= i < |a + b| && (a + b)[i] == RunCode
      ensures 0 < i && (a + b)[i - 1] == Disconnect
    {
      if i >= |a| { assert b[i - |a|] == RunCode; }
    }
  }
}
