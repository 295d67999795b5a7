/**
 * Whole callback sequences driven through one `JasmineReporter`, as Jasmine
 * would deliver them for a small spec file: the event names that reach the
 * downstream reporter and the failure count afterwards.
 */
module ReporterScenarios {
  import opened Wrappers
  import opened Text
  import opened StackTrace
  import opened Reporter

  /** The names of two logs one after the other. */
  lemma NamesAppend(a: seq<Event>, b: seq<Event>)
    ensures Names(a + b) == Names(a) + Names(b)
  {
  }

  /** The names of a log with two more events. */
  lemma NamesSnoc2(a: seq<Event>, x: Event, y: Event)
    ensures Names(a + [x, y]) == Names(a) + [x.0, y.0]
  {
    NamesAppend(a, [x, y]);
  }

  /** On a fresh reporter: one suite opens and one spec starts inside it. */
  method OpenSuiteAndSpec(r: JasmineReporter, suite: Payload, spec: Payload, t0: int, t1: int)
    requires r.Valid() && r.parent == [] && r.emitted == [] && r.failedCount == 0
    modifies r
    ensures r.Valid() && |r.parent| == 1 && r.parent[0].tests == 1 && r.failedCount == 0
    ensures Names(r.emitted) == ["suite:start", "test:start"]
  {
    var _ := r.SuiteStarted(suite, t0);
    var _ := r.SpecStarted(spec, t1);
  }

  /**
   * A spec that passed or failed finishes: its status event and `test:end`
   * follow, the failure is counted, and `reported` is what the status event
   * carries as `errors`.
   */
  method FinishSpec(r: JasmineReporter, spec: Payload, t2: int) returns (reported: Option<seq<Expectation>>)
    requires r.Valid() && (spec.status == Some("passed") || spec.status == Some("failed"))
    modifies r
    ensures r.Valid() && r.parent == old(r.parent)
    ensures Names(r.emitted) == Names(old(r.emitted)) + [if spec.status == Some("passed") then "test:pass" else "test:fail", "test:end"]
    ensures r.failedCount == old(r.failedCount) + (if spec.status == Some("failed") then 1 else 0)
    ensures HasFailures(spec) && r.shouldCleanStack ==>
      reported.Some? && |reported.value| == |spec.failedExpectations.value|
      && forall i :: 0 <= i < |reported.value| ==> reported.value[i] == CleanStack(spec.failedExpectations.value[i])
  {
    var k := |r.emitted|;
    ghost var before := r.emitted;
    ghost var name := if spec.status == Some("passed") then "test:pass" else "test:fail";
    EventNameOutcome(spec.status.value);
    assert EventName(spec.status) == name;
    var stamped := r.SpecDone(spec, t2);
    assert stamped.status == spec.status;
    assert r.emitted == before + [r.emitted[k], r.emitted[k + 1]];
    NamesSnoc2(before, r.emitted[k], r.emitted[k + 1]);
    reported := r.emitted[k].1.errors;
    assert reported == stamped.errors;
  }

  /** The only open suite, which started a test, ends: `suite:end` follows and nothing more is counted. */
  method CloseSuite(r: JasmineReporter, suite: Payload, t3: int)
    requires r.Valid() && |r.parent| == 1 && r.parent[0].tests > 0
    modifies r
    ensures r.Valid() && r.parent == [] && r.failedCount == old(r.failedCount)
    ensures Names(r.emitted) == Names(old(r.emitted)) + ["suite:end"]
  {
    ghost var before := r.emitted;
    var _ := r.SuiteDone(suite, t3, "");
    assert r.emitted == before + [r.emitted[|before|]];
    NamesAppend(before, [r.emitted[|before|]]);
  }

  /**
   * One suite holding one passing spec, each callback at its own instant:
   * `suite:start, test:start, test:pass, test:end, suite:end` and no failure
   * counted.
   */
  method PassingSpec(cid: string, suite: Payload, spec: Payload, t0: int, t1: int, t2: int, t3: int)
    returns (names: seq<string>, failedCount: nat)
    requires spec.status == Some("passed")
    ensures names == ["suite:start", "test:start", "test:pass", "test:end", "suite:end"]
    ensures failedCount == 0
  {
    var r := new JasmineReporter(cid, map[], [], None);
    OpenSuiteAndSpec(r, suite, spec, t0, t1);
    var _ := FinishSpec(r, spec, t2);
    CloseSuite(r, suite, t3);
    names := Names(r.emitted);
    failedCount := r.GetFailedCount();
  }

  /**
   * One suite holding one spec that fails with one failure record: the spec
   * is reported as `test:fail` and counted, and, with cleaning on by default,
   * the reported record is the cleaned one, whose stack has no noise line.
   */
  method FailingSpec(cid: string, suite: Payload, spec: Payload, record: Expectation, t0: int, t1: int, t2: int, t3: int)
    returns (names: seq<string>, failedCount: nat, reported: Expectation)
    requires spec.status == Some("failed") && spec.failedExpectations == Some([record])
    ensures names == ["suite:start", "test:start", "test:fail", "test:end", "suite:end"]
    ensures failedCount == 1
    ensures reported == CleanStack(record)
    ensures reported.stack.Some? ==>
      forall i :: 0 <= i < |Split(reported.stack.value, '\n')| ==> !IsNoise(Split(reported.stack.value, '\n')[i])
  {
    var r := new JasmineReporter(cid, map[], [], None);
    OpenSuiteAndSpec(r, suite, spec, t0, t1);
    var errors := FinishSpec(r, spec, t2);
    reported := errors.value[0];
    CloseSuite(r, suite, t3);
    names := Names(r.emitted);
    failedCount := r.GetFailedCount();
  }

  /** On a fresh reporter: one suite opens and nothing runs inside it yet. */
  method OpenSuite(r: JasmineReporter, suite: Payload, t0: int)
    requires r.Valid() && r.parent == [] && r.emitted == [] && r.failedCount == 0
    modifies r
    ensures r.Valid() && r.parent == [Frame(suite.description, suite.id, 0)] && r.failedCount == 0
    ensures Names(r.emitted) == ["suite:start"]
  {
    var _ := r.SuiteStarted(suite, t0);
  }

  /**
   * The only open suite, which started no test, ends with failure records:
   * the placeholder test's three events precede `suite:end`, one failure is
   * counted, and `uid` is the placeholder's uid.
   */
  method CloseFailedSuite(r: JasmineReporter, suite: Payload, random: string, t1: int) returns (uid: string)
    requires r.Valid() && |r.parent| == 1 && r.parent[0].tests == 0 && HasFailures(suite)
    modifies r
    ensures r.Valid() && r.parent == [] && r.failedCount == old(r.failedCount) + 1
    ensures Names(r.emitted) == Names(old(r.emitted)) + ["test:start", "test:fail", "test:end", "suite:end"]
    ensures uid == "<unknown test>spec" + random
  {
    var k := |r.emitted|;
    ghost var before := r.emitted;
    ghost var top := r.parent[0];
    var _ := r.SuiteDone(suite, t1, random);
    ghost var placeholder := r.PlaceholderEvents(Uid(top.description, top.id), "spec" + random, suite.failedExpectations.value, t1);
    assert r.emitted == before + placeholder + [r.emitted[k + 3]];
    NamesAppend(before + placeholder, [r.emitted[k + 3]]);
    NamesAppend(before, placeholder);
    uid := r.emitted[k].1.uid;
  }

  /**
   * A suite whose body throws before any spec starts: the adapter reports a
   * failed `<unknown test>` inside it before the suite's own end.
   */
  method FailingSuiteBody(cid: string, suite: Payload, failure: Expectation, random: string, t0: int, t1: int)
    returns (names: seq<string>, failedCount: nat, uid: string)
    requires suite.failedExpectations == Some([failure])
    ensures names == ["suite:start", "test:start", "test:fail", "test:end", "suite:end"]
    ensures failedCount == 1
    ensures uid == "<unknown test>spec" + random
  {
    var r := new JasmineReporter(cid, map[], [], None);
    OpenSuite(r, suite, t0);
    uid := CloseFailedSuite(r, suite, random, t1);
    names := Names(r.emitted);
    failedCount := r.GetFailedCount();
  }
}
