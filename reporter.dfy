/**
 * The Jasmine reporter adapter: Jasmine calls `SuiteStarted`, `SpecStarted`,
 * `SpecDone` and `SuiteDone` in order; the adapter keeps a stack of open
 * suites and a failure counter, and re-emits every callback as a normalized
 * message to the downstream reporter (here the `emitted` log).
 */
module Reporter {
  import opened Wrappers
  import opened Text
  import opened StackTrace

  /** An open suite: its description, its Jasmine id and how many tests started directly in it. */
  datatype Frame = Frame(description: string, id: string, tests: nat)

  /**
   * A Jasmine suite or spec result as the callbacks receive it, with the
   * fields the adapter reads or stamps (`type` is called `kind` here).
   */
  datatype Payload = Payload(
    id: string,
    description: string,
    fullName: string,
    status: Option<string>,
    failedExpectations: Option<seq<Expectation>>,
    pendingReason: Option<string>,
    kind: Option<string>,
    error: Option<Expectation>,
    errors: Option<seq<Expectation>>,
    duration: Option<int>,
    start: Option<int>)

  /** The normalized message handed to the downstream reporter. */
  datatype Message = Message(
    cid: string,
    uid: string,
    event: string,
    title: string,
    fullTitle: string,
    pending: bool,
    pendingReason: Option<string>,
    parent: Option<string>,
    kind: Option<string>,
    error: Option<Expectation>,
    errors: Option<seq<Expectation>>,
    duration: int,
    specs: seq<string>,
    start: Option<int>)

  /** An emitted event: its name and its message. */
  type Event = (string, Message)

  /** Whatever capabilities the worker runs with; the adapter only stores them. */
  type Capabilities = map<string, string>

  /** `getUniqueIdentifier`: a suite's or test's uid is its description followed by its id. */
  function Uid(description: string, id: string): (r: string)
    ensures |r| == |description| + |id|
    ensures r[..|description|] == description && r[|description|..] == id
  {
    description + id
  }

  /** Two different (description, id) pairs can share a uid: the scheme does not guarantee uniqueness. */
  lemma UidNotInjective()
    ensures Uid("ab", "c") == Uid("a", "bc")
  {
  }

  /** The uid of the innermost open suite, or none when no suite is open. */
  function ParentUid(stack: seq<Frame>): (r: Option<string>)
    ensures r.None? <==> |stack| == 0
    ensures |stack| > 0 ==> r == Some(Uid(stack[|stack| - 1].description, stack[|stack| - 1].id))
  {
    if |stack| == 0 then None
    else Some(Uid(stack[|stack| - 1].description, stack[|stack| - 1].id))
  }

  /** `failedExpectations?.length` is truthy: the record list is present and not empty. */
  predicate HasFailures(p: Payload) {
    p.failedExpectations.Some? && |p.failedExpectations.value| > 0
  }

  /** An absent record list and an empty one are both "no failures"; otherwise there is a first record. */
  lemma FailuresTruthy(p: Payload)
    ensures HasFailures(p) ==> p.failedExpectations.Some? && |p.failedExpectations.value| >= 1
    ensures p.failedExpectations == Some([]) || p.failedExpectations.None? ==> !HasFailures(p)
  {
  }

  /** Jasmine's "excluded" category is reported as "pending"; every other status is kept. */
  function NormalizeStatus(status: Option<string>): (r: Option<string>)
    ensures status == Some("excluded") ==> r == Some("pending")
    ensures status != Some("excluded") ==> r == status
  {
    if status == Some("excluded") then Some("pending") else status
  }

  /**
   * The event name `specDone` emits first: `"test:"` followed by the status
   * with its FIRST `"ed"` removed (an absent status prints as "undefined").
   */
  function EventName(status: Option<string>): (r: string)
    ensures |r| >= 5 && r[..5] == "test:"
    ensures status.Some? ==> r == "test:" + ReplaceFirst(status.value, "ed", "")
    ensures status.None? ==> r == "test:undefined"
  {
    match status
    case Some(s) => "test:" + ReplaceFirst(s, "ed", "")
    case None => "test:undefined"
  }

  /** No "ed" starts before index `k` when no 'e' before `k` is followed by a 'd'. */
  lemma NoEdBefore(s: string, k: int)
    requires forall i :: 0 <= i < k && i + 1 < |s| ==> !(s[i] == 'e' && s[i + 1] == 'd')
    ensures forall i :: 0 <= i < k ==> !OccursAt(s, "ed", i)
  {
    forall i | 0 <= i < k ensures !OccursAt(s, "ed", i) {
      if i + 2 <= |s| {
        assert s[i..i + 2] == [s[i], s[i + 1]];
      }
    }
  }

  /**
   * A past-tense status `stem + "ed"` whose stem holds no "ed" loses exactly
   * its final "ed": the event is `"test:" + stem`.
   */
  lemma EventNameOfPast(status: string, stem: string)
    requires status == stem + "ed" && !Contains(stem, "ed")
    ensures EventName(Some(status)) == "test:" + stem
  {
    var n := |stem|;
    forall i | 0 <= i < n ensures !OccursAt(status, "ed", i) {
      if i + 2 <= n {
        assert status[i..i + 2] == stem[i..i + 2];
        assert !OccursAt(stem, "ed", i);
      } else {
        assert status[i..i + 2] == [stem[n - 1], 'e'];
      }
    }
    assert status[n..n + 2] == "ed";
    assert FirstOccurrence(status, "ed", n);
    assert status[..n] + "" + status[n + 2..] == stem;
  }

  /**
   * A failed test is reported as `test:fail` and a passed one as `test:pass`:
   * the status loses its final "ed".
   */
  lemma EventNameOutcome(status: string)
    requires status == "failed" || status == "passed"
    ensures EventName(Some(status)) == "test:" + status[..4]
  {
    var stem := status[..4];
    assert status == stem + "ed";
    NoEdBefore(stem, |stem| + 1);
    EventNameOfPast(status, stem);
  }

  /** "pending" holds no "ed", so a pending test is reported as `test:pending`, not `test:pend`. */
  lemma EventNamePending(status: string)
    requires status == "pending"
    ensures EventName(Some(status)) == "test:pending"
  {
    assert status[1] == 'e' && status[2] != 'd';
    assert forall k :: 0 <= k < 6 && k != 1 ==> status[k] != 'e';
    NoEdBefore(status, |status| + 1);
    assert !Contains(status, "ed");
  }

  /** The failure list a finished test reports: the records themselves, or their cleaned copies. */
  function ErrorsFor(failed: seq<Expectation>, clean: bool): (r: seq<Expectation>)
    ensures |r| == |failed|
    ensures !clean ==> r == failed
    ensures clean ==> forall i :: 0 <= i < |r| ==> r[i] == CleanStack(failed[i])
  {
    if clean then seq(|failed|, i requires 0 <= i < |failed| => CleanStack(failed[i])) else failed
  }

  /**
   * The spec result as `specDone` leaves it: status normalized, failure
   * records (cleaned when `clean`) copied to `errors` and the first one to
   * `error`, kind "test", and the measured duration.
   */
  function StampSpecDone(test: Payload, clean: bool, duration: int): (r: Payload)
    ensures r.status == NormalizeStatus(test.status)
    ensures r.kind == Some("test") && r.duration == Some(duration)
    ensures HasFailures(test) ==>
      r.errors.Some? && |r.errors.value| == |test.failedExpectations.value|
      && r.error == Some(r.errors.value[0]) && r.failedExpectations == r.errors
    ensures HasFailures(test) && !clean ==> r.errors == test.failedExpectations
    ensures HasFailures(test) && clean ==>
      forall i :: 0 <= i < |r.errors.value| ==> r.errors.value[i] == CleanStack(test.failedExpectations.value[i])
    ensures !HasFailures(test) ==>
      r.errors == test.errors && r.error == test.error && r.failedExpectations == test.failedExpectations
    ensures r.id == test.id && r.description == test.description && r.fullName == test.fullName
    ensures r.pendingReason == test.pendingReason && r.start == test.start
  {
    var t := test.(status := NormalizeStatus(test.status));
    var t := if HasFailures(t) then
        var errors := ErrorsFor(t.failedExpectations.value, clean);
        t.(failedExpectations := Some(errors), errors := Some(errors), error := Some(errors[0]))
      else t;
    t.(kind := Some("test"), duration := Some(duration))
  }

  /** The spec result `suiteDone` synthesizes to start its placeholder test. */
  function PlaceholderStart(id: string, now: int): (r: Payload) {
    Payload(id, "<unknown test>", "<unknown test>", None, None, None, None, None, None, None, Some(now))
  }

  /** The spec result `suiteDone` synthesizes to finish its placeholder test: failed, with the suite's records. */
  function PlaceholderDone(id: string, failed: seq<Expectation>, now: int): (r: Payload) {
    Payload(id, "<unknown test>", "<unknown test>", Some("failed"), Some(failed), None, None, None, None, None, Some(now))
  }

  /**
   * Both placeholder results carry the generated id and the "<unknown test>"
   * title; the first has no status and no failures, the second is failed and
   * has failures exactly when the suite had records.
   */
  lemma PlaceholderPayloads(id: string, failed: seq<Expectation>, now: int)
    ensures var s := PlaceholderStart(id, now);
      s.id == id && s.description == "<unknown test>" && s.fullName == "<unknown test>"
      && s.status.None? && !HasFailures(s) && s.start == Some(now)
    ensures var d := PlaceholderDone(id, failed, now);
      d.id == id && d.description == "<unknown test>" && d.fullName == "<unknown test>"
      && NormalizeStatus(d.status) == Some("failed") && d.failedExpectations == Some(failed)
      && (HasFailures(d) <==> failed != [])
  {
  }

  /** Once `specDone` has stamped it, the placeholder result is failed and is reported as `test:fail`. */
  lemma PlaceholderReportedFailed(id: string, failed: seq<Expectation>, now: int, clean: bool)
    ensures var d := StampSpecDone(PlaceholderDone(id, failed, now), clean, 0);
      d.status == Some("failed") && EventName(d.status) == "test:fail"
  {
    EventNameOutcome("failed");
  }

  /** How many of the emitted events carry the name `name`. */
  function Count(log: seq<Event>, name: string): (r: nat)
    decreases |log|
  {
    if |log| == 0 then 0
    else Count(log[..|log| - 1], name) + (if log[|log| - 1].0 == name then 1 else 0)
  }

  lemma CountSnoc(log: seq<Event>, e: Event, name: string)
    ensures Count(log + [e], name) == Count(log, name) + (if e.0 == name then 1 else 0)
  {
    assert (log + [e])[..|log|] == log;
  }

  /** How many of the recorded final statuses are "failed". */
  function CountFailed(statuses: seq<Option<string>>): (r: nat)
    decreases |statuses|
  {
    if |statuses| == 0 then 0
    else CountFailed(statuses[..|statuses| - 1]) + (if statuses[|statuses| - 1] == Some("failed") then 1 else 0)
  }

  lemma CountFailedSnoc(statuses: seq<Option<string>>, s: Option<string>)
    ensures CountFailed(statuses + [s]) == CountFailed(statuses) + (if s == Some("failed") then 1 else 0)
  {
    assert (statuses + [s])[..|statuses|] == statuses;
  }

  /** The names of the emitted events, in order. */
  function Names(log: seq<Event>): (r: seq<string>)
    ensures |r| == |log| && forall i :: 0 <= i < |log| ==> r[i] == log[i].0
  {
    seq(|log|, i requires 0 <= i < |log| => log[i].0)
  }

  class JasmineReporter {
    const cid: string
    const capabilities: Capabilities
    const specs: seq<string>
    const shouldCleanStack: bool

    /** The open suites, innermost last. */
    var parent: seq<Frame>
    var failedCount: nat
    /** The latest suite and test start times (`null` in the source until first set). */
    var suiteStart: Option<int>
    var testStart: Option<int>
    /** Everything handed to the downstream reporter, in order. */
    var emitted: seq<Event>

    /** The final status of every test `SpecDone` finished, in order. */
    ghost var finished: seq<Option<string>>
    /** How many times the missing-root-suite warning was logged. */
    ghost var warnings: nat

    /**
     * The counter counts exactly the failed tests, and every open suite is a
     * `suite:start` still waiting for its `suite:end`.
     */
    ghost predicate Valid()
      reads this
    {
      failedCount == CountFailed(finished)
      && |parent| + Count(emitted, "suite:end") == Count(emitted, "suite:start")
    }

    /** `cleanStack` defaults to on: only a boolean `cleanStack` parameter (here `Some(b)`) overrides it. */
    constructor (cid: string, capabilities: Capabilities, specs: seq<string>, cleanStack: Option<bool>)
      ensures Valid()
      ensures this.cid == cid && this.capabilities == capabilities && this.specs == specs
      ensures shouldCleanStack <==> cleanStack != Some(false)
      ensures parent == [] && failedCount == 0 && emitted == []
      ensures suiteStart == None && testStart == None
      ensures finished == [] && warnings == 0
    {
      this.cid := cid;
      this.capabilities := capabilities;
      this.specs := specs;
      this.shouldCleanStack := cleanStack.GetOr(true);
      parent := [];
      failedCount := 0;
      suiteStart, testStart := None, None;
      emitted := [];
      finished, warnings := [], 0;
    }

    /** The message `emit` builds for `payload` while the innermost open suite has uid `parentUid`. */
    function MessageFor(parentUid: Option<string>, event: string, payload: Payload): (r: Message) {
      Message(cid, Uid(payload.description, payload.id), event, payload.description, payload.fullName,
              payload.status == Some("pending"), payload.pendingReason, parentUid, payload.kind,
              payload.error, payload.errors, payload.duration.GetOr(0), specs, payload.start)
    }

    /**
     * A message carries the runner's cid and the reporter's specs, is placed under
     * `parentUid`, is identified by the description followed by the id, is
     * pending exactly for status "pending", and has duration 0 when none was measured.
     */
    lemma MessageFields(parentUid: Option<string>, event: string, payload: Payload)
      ensures var m := MessageFor(parentUid, event, payload);
        m.cid == cid && m.specs == specs && m.event == event
        && m.parent == parentUid && m.uid == Uid(payload.description, payload.id)
        && (m.pending <==> payload.status == Some("pending"))
        && (payload.duration.None? ==> m.duration == 0)
    {
    }

    /**
     * `emit`: hands one message to the downstream reporter. Its `parent` is
     * the uid of the suite open at that moment, its `pending` flag says whether
     * the status is "pending".
     */
    method Emit(event: string, payload: Payload)
      modifies this`emitted
      ensures emitted == old(emitted) + [(event, MessageFor(ParentUid(parent), event, payload))]
      ensures forall name :: Count(emitted, name) == Count(old(emitted), name) + (if name == event then 1 else 0)
    {
      var e := (event, MessageFor(ParentUid(parent), event, payload));
      forall name ensures Count(emitted + [e], name) == Count(emitted, name) + (if name == event then 1 else 0) {
        CountSnoc(emitted, e, name);
      }
      emitted := emitted + [e];
    }

    /**
     * `suiteStarted`: emits `suite:start` (its parent is the suite that was
     * innermost before) and then pushes a new frame with no tests.
     */
    method SuiteStarted(suite: Payload, now: int) returns (stamped: Payload)
      requires Valid()
      modifies this
      ensures Valid()
      ensures stamped == suite.(kind := Some("suite"), start := Some(now))
      ensures parent == old(parent) + [Frame(suite.description, suite.id, 0)]
      ensures emitted == old(emitted) + [("suite:start", MessageFor(ParentUid(old(parent)), "suite:start", stamped))]
      ensures suiteStart == Some(now) && testStart == old(testStart)
      ensures failedCount == old(failedCount) && finished == old(finished) && warnings == old(warnings)
    {
      suiteStart := Some(now);
      stamped := suite.(kind := Some("suite"), start := Some(now));
      Emit("suite:start", stamped);
      parent := parent + [Frame(suite.description, suite.id, 0)];
    }

    /**
     * `specStarted`: counts the test against the innermost open suite, or,
     * with no suite open, only logs a warning; then emits `test:start`.
     */
    method SpecStarted(test: Payload, now: int) returns (stamped: Payload)
      requires Valid()
      modifies this
      ensures Valid()
      ensures stamped == test.(kind := Some("test"), start := Some(now))
      ensures |old(parent)| == 0 ==> parent == old(parent) && warnings == old(warnings) + 1
      ensures |old(parent)| > 0 ==>
        var n := |old(parent)| - 1;
        parent == old(parent)[n := old(parent)[n].(tests := old(parent)[n].tests + 1)]
        && warnings == old(warnings)
      ensures emitted == old(emitted) + [("test:start", MessageFor(ParentUid(old(parent)), "test:start", stamped))]
      ensures testStart == Some(now) && suiteStart == old(suiteStart)
      ensures failedCount == old(failedCount) && finished == old(finished)
    {
      testStart := Some(now);
      stamped := test.(kind := Some("test"), start := Some(now));
      if |parent| == 0 {
        warnings := warnings + 1;
      } else {
        var n := |parent| - 1;
        parent := parent[n := parent[n].(tests := parent[n].tests + 1)];
      }
      Emit("test:start", stamped);
    }

    /**
     * `specDone`: normalizes the result, emits the status event and then
     * `test:end` with the same message, and counts the test if it failed.
     */
    method SpecDone(test: Payload, now: int) returns (stamped: Payload)
      requires Valid()
      modifies this
      ensures Valid()
      ensures stamped == StampSpecDone(test, shouldCleanStack, now - old(testStart).GetOr(0))
      ensures
        var m1 := MessageFor(ParentUid(parent), EventName(stamped.status), stamped);
        var m2 := MessageFor(ParentUid(parent), "test:end", stamped);
        emitted == old(emitted) + [(EventName(stamped.status), m1), ("test:end", m2)]
      ensures failedCount == old(failedCount) + (if stamped.status == Some("failed") then 1 else 0)
      ensures finished == old(finished) + [stamped.status]
      ensures parent == old(parent) && suiteStart == old(suiteStart) && testStart == old(testStart)
      ensures warnings == old(warnings)
    {
      stamped := StampSpecDone(test, shouldCleanStack, now - testStart.GetOr(0));
      var e := EventName(stamped.status);
      assert e[0] == 't' && "suite:end"[0] == 's' && "suite:start"[0] == 's';
      Emit(e, stamped);
      CountFailedSnoc(finished, stamped.status);
      failedCount := failedCount + (if stamped.status == Some("failed") then 1 else 0);
      finished := finished + [stamped.status];
      Emit("test:end", stamped);
    }

    /**
     * An excluded test is reported as a pending one: both messages `specDone`
     * emits for it have `pending` set, and the first is `test:pending`.
     */
    lemma ExcludedReportedPending(test: Payload, clean: bool, duration: int, parentUid: Option<string>)
      requires test.status == Some("excluded")
      ensures
        var stamped := StampSpecDone(test, clean, duration);
        EventName(stamped.status) == "test:pending"
        && MessageFor(parentUid, EventName(stamped.status), stamped).pending
        && MessageFor(parentUid, "test:end", stamped).pending
    {
      EventNamePending(StampSpecDone(test, clean, duration).status.value);
    }

    /** `getFailedCount`: the number of finished tests whose status was "failed"; changes nothing. */
    method GetFailedCount() returns (n: nat)
      requires Valid()
      ensures n == failedCount && n == CountFailed(finished)
    {
      n := failedCount;
    }

    /**
     * The anomaly branch of `suiteDone`: the innermost suite started no test
     * but failed, so a placeholder test `<unknown test>` with id
     * `"spec" + random` is started (counted against that suite) and finished
     * as failed with the suite's failure records.
     */
    method ReportUnknownTest(failed: seq<Expectation>, now: int, random: string)
      requires Valid() && |parent| > 0 && failed != []
      modifies this
      ensures Valid()
      ensures
        var n := |old(parent)| - 1;
        parent == old(parent)[n := old(parent)[n].(tests := old(parent)[n].tests + 1)]
      ensures
        var top := old(parent)[|old(parent)| - 1];
        emitted == old(emitted) + PlaceholderEvents(Uid(top.description, top.id), "spec" + random, failed, now)
      ensures failedCount == old(failedCount) + 1 && finished == old(finished) + [Some("failed")]
      ensures testStart == Some(now) && suiteStart == old(suiteStart) && warnings == old(warnings)
    {
      var id := "spec" + random;
      ghost var top := parent[|parent| - 1];
      ghost var suiteUid := Uid(top.description, top.id);
      ghost var before := emitted;
      var started := SpecStarted(PlaceholderStart(id, now), now);
      assert ParentUid(parent) == Some(suiteUid);
      ghost var mid := emitted;
      assert mid == before + [("test:start", MessageFor(Some(suiteUid), "test:start", started))];
      var done := PlaceholderDone(id, failed, now);
      PlaceholderReportedFailed(id, failed, now, shouldCleanStack);
      assert now - testStart.GetOr(0) == 0;
      var stamped := SpecDone(done, now);
      assert stamped == StampSpecDone(done, shouldCleanStack, 0);
      assert emitted == mid + [("test:fail", MessageFor(Some(suiteUid), "test:fail", stamped)),
                               ("test:end", MessageFor(Some(suiteUid), "test:end", stamped))];
    }

    /**
     * `suiteDone` with a suite open: when the innermost suite started no test
     * but carries failure records, a failed placeholder test `<unknown test>`
     * holding those records is started and finished first; then the frame is
     * popped and `suite:end` is emitted with the enclosing suite as its parent.
     */
    method EndSuite(suite: Payload, now: int, random: string) returns (stamped: Payload)
      requires Valid() && |parent| > 0
      modifies this
      ensures Valid()
      ensures stamped == suite.(kind := Some("suite"), duration := Some(now - old(suiteStart).GetOr(0)))
      ensures parent == old(parent)[..|old(parent)| - 1]
      ensures
        var top := old(parent)[|old(parent)| - 1];
        var anomaly := top.tests == 0 && HasFailures(suite);
        emitted == old(emitted)
          + (if anomaly then PlaceholderEvents(Uid(top.description, top.id), "spec" + random, suite.failedExpectations.value, now) else [])
          + [("suite:end", MessageFor(ParentUid(parent), "suite:end", stamped))]
      ensures
        var anomaly := old(parent)[|old(parent)| - 1].tests == 0 && HasFailures(suite);
        failedCount == old(failedCount) + (if anomaly then 1 else 0)
        && finished == old(finished) + (if anomaly then [Some("failed")] else [])
        && testStart == (if anomaly then Some(now) else old(testStart))
      ensures suiteStart == old(suiteStart) && warnings == old(warnings)
    {
      var top := parent[|parent| - 1];
      assert top == old(parent)[|old(parent)| - 1];
      var anomaly := top.tests == 0 && HasFailures(suite);
      if anomaly {
        ReportUnknownTest(suite.failedExpectations.value, now, random);
      }
      assert emitted == old(emitted)
        + (if anomaly then PlaceholderEvents(Uid(top.description, top.id), "spec" + random, suite.failedExpectations.value, now) else []);
      ghost var before := parent;
      assert before[..|before| - 1] == old(parent)[..|old(parent)| - 1];
      parent := parent[..|parent| - 1];
      stamped := suite.(kind := Some("suite"), duration := Some(now - suiteStart.GetOr(0)));
      Emit("suite:end", stamped);
    }

    /**
     * `suiteDone`. With no suite open, reading the top frame throws and nothing
     * changes; otherwise the suite is ended as `EndSuite` describes.
     */
    method SuiteDone(suite: Payload, now: int, random: string) returns (r: Result<Payload, string>)
      requires Valid()
      modifies this
      ensures Valid()
      ensures |old(parent)| == 0 ==>
        r.Failure? && parent == old(parent) && emitted == old(emitted) && failedCount == old(failedCount)
        && suiteStart == old(suiteStart) && testStart == old(testStart)
        && finished == old(finished) && warnings == old(warnings)
      ensures |old(parent)| > 0 ==>
        r == Success(suite.(kind := Some("suite"), duration := Some(now - old(suiteStart).GetOr(0))))
      ensures |old(parent)| > 0 ==> parent == old(parent)[..|old(parent)| - 1]
      ensures |old(parent)| > 0 ==>
        var top := old(parent)[|old(parent)| - 1];
        var anomaly := top.tests == 0 && HasFailures(suite);
        emitted == old(emitted)
          + (if anomaly then PlaceholderEvents(Uid(top.description, top.id), "spec" + random, suite.failedExpectations.value, now) else [])
          + [("suite:end", MessageFor(ParentUid(parent), "suite:end", r.value))]
      ensures |old(parent)| > 0 ==>
        var anomaly := old(parent)[|old(parent)| - 1].tests == 0 && HasFailures(suite);
        failedCount == old(failedCount) + (if anomaly then 1 else 0)
        && finished == old(finished) + (if anomaly then [Some("failed")] else [])
        && testStart == (if anomaly then Some(now) else old(testStart))
        && suiteStart == old(suiteStart) && warnings == old(warnings)
    {
      if |parent| == 0 {
        return Failure("TypeError: Cannot read properties of undefined (reading 'tests')");
      }
      var stamped := EndSuite(suite, now, random);
      r := Success(stamped);
    }

    /**
     * The three events of the placeholder test inside the suite with uid
     * `suiteUid`: its `test:start`, then `test:fail` and `test:end` carrying
     * the suite's failure records (cleaned when cleaning is on).
     */
    function PlaceholderEvents(suiteUid: string, id: string, failed: seq<Expectation>, now: int): (r: seq<Event>)
      ensures |r| == 3 && r[0].0 == "test:start" && r[1].0 == "test:fail" && r[2].0 == "test:end"
      ensures forall i :: 0 <= i < 3 ==> r[i].1.parent == Some(suiteUid) && r[i].1.uid == Uid("<unknown test>", id)
      ensures failed != [] ==> r[1].1.errors == Some(ErrorsFor(failed, shouldCleanStack)) && r[2].1 == r[1].1.(event := "test:end")
    {
      var started := PlaceholderStart(id, now).(kind := Some("test"), start := Some(now));
      var done := StampSpecDone(PlaceholderDone(id, failed, now), shouldCleanStack, 0);
      [("test:start", MessageFor(Some(suiteUid), "test:start", started)),
       ("test:fail", MessageFor(Some(suiteUid), "test:fail", done)),
       ("test:end", MessageFor(Some(suiteUid), "test:end", done))]
    }
  }
}
