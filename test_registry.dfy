/**
 * The page-wide test registry `window.CF` of variant-c/variant.js: the list of
 * running tests, with check-then-append registration (`initTest`), and the
 * per-test `testFlags[name].hasRendered` flags.
 */
module TestRegistry {
  import opened Wrappers

  datatype TestInfo = TestInfo(name: string, id: string)

  /** `window.CF` once it exists. `testFlags` may be missing; `testsRunning` is always an array here. */
  datatype CF = CF(qaTesting: bool, testsRunning: seq<TestInfo>, testFlags: Option<map<string, bool>>)

  /** What `initTest` returns: `false`, or the registry object. */
  datatype InitResult = AlreadyRunning | Registered(cf: CF)

  /** The object `initTest` starts from when `window.CF` does not exist yet. */
  const Empty := CF(false, [], Some(map[]))

  /** Some entry of `tests` has the name `name`. */
  predicate Lists(tests: seq<TestInfo>, name: string) {
    exists i :: 0 <= i < |tests| && tests[i].name == name
  }

  function Running(cf: Option<CF>): seq<TestInfo> {
    if cf.Some? then cf.value.testsRunning else []
  }

  /** The guard of both `initTest` and the script's first statement: a test of that name is registered. */
  predicate IsRunning(cf: Option<CF>, name: string) {
    Lists(Running(cf), name)
  }

  /** No two running tests share a name. */
  predicate NoDuplicates(tests: seq<TestInfo>) {
    forall i, j :: 0 <= i < j < |tests| ==> tests[i].name != tests[j].name
  }

  predicate Unique(cf: Option<CF>) {
    NoDuplicates(Running(cf))
  }

  /** `window.CF.testFlags` exists, so that the render flag can be recorded. */
  predicate FlagsExist(cf: Option<CF>) {
    cf.Some? && cf.value.testFlags.Some?
  }

  /** `window.CF?.testFlags?.[name]?.hasRendered` is truthy. */
  predicate HasRendered(cf: Option<CF>, name: string) {
    FlagsExist(cf) && name in cf.value.testFlags.value && cf.value.testFlags.value[name]
  }

  /**
   * `Array.prototype.find` over the running tests: the first entry named `name`,
   * if there is one.
   */
  method Find(tests: seq<TestInfo>, name: string) returns (r: Option<TestInfo>)
    ensures r.Some? <==> Lists(tests, name)
    ensures r.Some? ==> exists i :: 0 <= i < |tests| && tests[i] == r.value && r.value.name == name &&
                                    forall j :: 0 <= j < i ==> tests[j].name != name
  {
    var i := 0;
    while i < |tests|
      invariant 0 <= i <= |tests|
      invariant forall j :: 0 <= j < i ==> tests[j].name != name
    {
      if tests[i].name == name {
        return Some(tests[i]);
      }
      i := i + 1;
    }
    return None;
  }

  /**
   * `initTest(info)`: on a name already running, `false` and no change. Otherwise
   * `info` is appended to `testsRunning`, `testFlags` is created if missing, and
   * the registry object is both stored in `window.CF` and returned.
   */
  function InitTest(cf: Option<CF>, info: TestInfo): (r: (InitResult, Option<CF>))
    ensures IsRunning(cf, info.name) ==> r == (AlreadyRunning, cf)
    ensures !IsRunning(cf, info.name) ==>
              r.0.Registered? && r.1 == Some(r.0.cf) &&
              r.0.cf.testsRunning == Running(cf) + [info] &&
              r.0.cf.qaTesting == (cf.Some? && cf.value.qaTesting) &&
              r.0.cf.testFlags.Some? &&
              (FlagsExist(cf) ==> r.0.cf.testFlags == cf.value.testFlags)
    ensures IsRunning(r.1, info.name)
    ensures forall name :: HasRendered(r.1, name) == HasRendered(cf, name)
    ensures FlagsExist(cf) ==> FlagsExist(r.1)
    ensures Unique(cf) ==> Unique(r.1)
  {
    var cfObj := cf.GetOr(Empty);
    if Lists(cfObj.testsRunning, info.name) then
      (AlreadyRunning, cf)
    else
      var pushed := cfObj.(testsRunning := cfObj.testsRunning + [info]);
      var flagged := pushed.(testFlags := Some(pushed.testFlags.GetOr(map[])));
      assert flagged.testsRunning[|flagged.testsRunning| - 1] == info;
      (Registered(flagged), Some(flagged))
  }

  /** `window.CF.testFlags[name] = { hasRendered: true }`, done only when `CF` and `testFlags` exist. */
  function MarkRendered(cf: Option<CF>, name: string): (r: Option<CF>)
    ensures FlagsExist(cf) ==> FlagsExist(r) && HasRendered(r, name)
    ensures !FlagsExist(cf) ==> r == cf
    ensures forall other :: other != name ==> HasRendered(r, other) == HasRendered(cf, other)
    ensures Running(r) == Running(cf)
  {
    if FlagsExist(cf) then
      Some(cf.value.(testFlags := Some(cf.value.testFlags.value[name := true])))
    else
      cf
  }

  /** A sequence of `initTest` calls, from any number of scripts, in order. */
  function InitAll(cf: Option<CF>, infos: seq<TestInfo>): Option<CF>
    decreases |infos|
  {
    if infos == [] then cf else InitAll(InitTest(cf, infos[0]).1, infos[1..])
  }

  /** Whatever sequence of `initTest` calls is made, no name is ever registered twice. */
  lemma {:induction false} InitAllKeepsNamesUnique(cf: Option<CF>, infos: seq<TestInfo>)
    requires Unique(cf)
    ensures Unique(InitAll(cf, infos))
    decreases |infos|
  {
    if infos != [] {
      InitAllKeepsNamesUnique(InitTest(cf, infos[0]).1, infos[1..]);
    }
  }

  /** After a sequence of `initTest` calls, a name is running exactly when it was before or one of the calls carried it. */
  lemma {:induction false} InitAllRegistersEveryName(cf: Option<CF>, infos: seq<TestInfo>, name: string)
    ensures IsRunning(InitAll(cf, infos), name) <==>
            IsRunning(cf, name) || exists k :: 0 <= k < |infos| && infos[k].name == name
    decreases |infos|
  {
    if infos != [] {
      var next := InitTest(cf, infos[0]).1;
      InitAllRegistersEveryName(next, infos[1..], name);
      assert IsRunning(next, name) <==> IsRunning(cf, name) || infos[0].name == name by {
        if !IsRunning(cf, infos[0].name) {
          assert Running(next) == Running(cf) + [infos[0]];
          if IsRunning(next, name) && name != infos[0].name {
            var i :| 0 <= i < |Running(next)| && Running(next)[i].name == name;
            assert Running(cf)[i].name == name;
          }
          if IsRunning(cf, name) {
            var i :| 0 <= i < |Running(cf)| && Running(cf)[i].name == name;
            assert Running(next)[i].name == name;
          }
        }
      }
      if exists k :: 0 <= k < |infos| && infos[k].name == name {
        var k :| 0 <= k < |infos| && infos[k].name == name;
        if k > 0 { assert infos[1..][k - 1].name == name; }
      }
      if exists k :: 0 <= k < |infos[1..]| && infos[1..][k].name == name {
        var k :| 0 <= k < |infos[1..]| && infos[1..][k].name == name;
        assert infos[k + 1].name == name;
      }
    }
  }

  /** Two registrations under one name, in either order, give exactly one success and one rejection. */
  lemma DuplicateRegistrationRejected(cf: Option<CF>, a: TestInfo, b: TestInfo)
    requires a.name == b.name
    ensures var (first, after) := InitTest(cf, a);
            var (second, last) := InitTest(after, b);
            second == AlreadyRunning && last == after &&
            (first.Registered? <==> !IsRunning(cf, a.name))
  {
  }
}
