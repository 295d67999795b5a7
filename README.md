# Jasmine reporter adapter and stack-trace sanitizing, in Dafny

This project models two pieces of WebdriverIO.

**The Jasmine reporter adapter** (`JasmineReporter`). Jasmine calls `suiteStarted`, `specStarted`, `specDone` and `suiteDone` in order. For each callback the adapter:
- updates a stack of open suites (`parent`, one frame `{description, id, tests}` per suite) and a failure counter;
- re-emits the callback as a normalized message to the downstream reporter;
- reports `excluded` specs as pending;
- derives the event name from the status by removing its first `"ed"`;
- cleans noise lines out of failure stack traces;
- when a suite fails without having started a test, invents a failed placeholder test `<unknown test>`.

**`sanitizeErrorMessage`** of the synchronous-command layer. It gives the error a command settled with the call-site trace saved when the command was issued. The steps are:
1. merge the two traces;
2. filter the lines;
3. drop every line already contained in the text built so far;
4. trim the result.

Modules:

- `Wrappers` (`wrappers.dfy`): `Option` and `Result`.
- `Text` (`text.dfy`): the JavaScript built-ins both files rely on:
  - `includes` is `Contains`;
  - `IndexOf` is the left-most search that `replace` performs for a string pattern (`packages/wdio-sync/src/utils.ts:32`);
  - `replace` of the first occurrence is `ReplaceFirst`;
  - `split` and `join` are `Split` and `Join`;
  - `trim` is `Trim`;
  - `filter` is `Filter`;
  - truthiness of an optional string is `Truthy`.
- `StackTrace` (`stack_trace.dfy`): the failure record, the noise pattern `STACKTRACE_FILTER` and `cleanStack`.
- `Reporter` (`reporter.dfy`): the class `JasmineReporter`. Its fields are updated in place by the callbacks. The ghost `Valid()` invariant ties `failedCount` to the statuses of the finished tests. It also ties the depth of the suite stack to the numbers of `suite:start` and `suite:end` events emitted.
- `ReporterScenarios` (`reporter_scenarios.dfy`): whole callback sequences driven through one reporter.
- `Sanitize` (`sanitize.dfy`): `sanitizeErrorMessage`. It is an imperative method, proved equal to the specification function `Sanitized`. Its filter / reduce / trim tail is a recursive fold with lemmas about what it keeps.

How the model represents the source:

- **Payloads and failure records are values.** Each callback returns the payload as it stamped it. This stands for the caller's object, which the source mutates in place.
- **Downstream reporter.** `this.reporter.emit` is the `emitted` log of `(event, message)` pairs.
- **Clock.** The clock is read as a `now` parameter of each callback.
- **Placeholder id.** `Math.random()` is a `random` string, so the id is `"spec" + random`.

Event names: a natural reading says the trailing `"ed"` is removed. The code (`status?.replace(/ed/, '')`) removes the **first** `"ed"`. The model follows the code. As a result, `pending` is reported as `test:pending` (`EventNamePending`).

## Model

| member | source | states |
|---|---|---|
| Text.IndexOf | packages/wdio-sync/src/utils.ts:32 | the search `replace` does for a string pattern: -1 exactly when the pattern does not occur, otherwise its left-most occurrence |
| Text.ReplaceFirst | packages/wdio-sync/src/utils.ts:32 | replacing with a string pattern changes only the left-most occurrence, and nothing when there is none |
| Text.Contains | packages/wdio-sync/src/utils.ts:46 | `includes` can only hold when the pattern is no longer than the text, and always holds for the empty pattern |
| Text.ContainsEmpty | packages/wdio-sync/src/utils.ts:46 | the empty string is included in every text, so `includes('')` is always true |
| Text.ContainsExtend | packages/wdio-sync/src/utils.ts:46 | a text that grows at the end keeps every substring it had |
| Text.Split | packages/wdio-sync/src/utils.ts:24 | `split('\n')` yields at least one piece and no piece holds the separator |
| Text.Join | packages/wdio-jasmine-framework/src/reporter.ts:179 | joining no lines gives the empty text; otherwise the text starts with the first line |
| Text.JoinSplit | packages/wdio-jasmine-framework/src/reporter.ts:177-179 | joining the pieces of a split restores the text |
| Text.SplitJoin | packages/wdio-jasmine-framework/src/reporter.ts:177-179 | splitting joined separator-free lines restores the lines |
| Text.Trim | packages/wdio-sync/src/utils.ts:48 | the result neither starts nor ends with whitespace and is the middle of the input with only whitespace around it |
| Text.TrimIdempotent | packages/wdio-sync/src/utils.ts:48 | trimming twice is trimming once |
| Text.Filter | packages/wdio-sync/src/utils.ts:43 | every kept element passes the predicate and comes from the input; every passing element is kept with exactly its number of copies in the input, and no failing one is |
| Text.FilterSubsequence | packages/wdio-sync/src/utils.ts:43 | the filtered array is a subsequence of the input (relative order kept) |
| Text.FilterKeepsAll | packages/wdio-sync/src/utils.ts:43 | filtering an array whose every element passes returns it unchanged |
| Text.FilterIdempotent | packages/wdio-jasmine-framework/src/reporter.ts:178 | filtering twice is filtering once |
| StackTrace.IsNoise | packages/wdio-jasmine-framework/src/reporter.ts:9 | a noise line has at least nine characters (the shortest alternative is `- - - - -`), so an empty line is never noise |
| StackTrace.CleanLines | packages/wdio-jasmine-framework/src/reporter.ts:178 | the kept lines are exactly the input lines the noise pattern does not match, each with its number of copies, in their original order |
| StackTrace.CleanStack | packages/wdio-jasmine-framework/src/reporter.ts:172-181 | a record without a stack or with an empty one is returned unchanged; otherwise only the stack changes, and its lines are the non-noise lines of the old stack |
| StackTrace.CleanStackIdempotent | packages/wdio-jasmine-framework/src/reporter.ts:172-181 | cleaning a cleaned record changes nothing |
| Reporter.Uid | packages/wdio-jasmine-framework/src/reporter.ts:168-170 | a uid starts with the description and continues with the id |
| Reporter.UidNotInjective | packages/wdio-jasmine-framework/src/reporter.ts:168-170 | two different (description, id) pairs can have the same uid |
| Reporter.ParentUid | packages/wdio-jasmine-framework/src/reporter.ts:149 | the message's parent is absent exactly when no suite is open, else the uid of the innermost open suite |
| Reporter.NormalizeStatus | packages/wdio-jasmine-framework/src/reporter.ts:83-85 | `excluded` becomes `pending`; any other status is kept |
| Reporter.EventName | packages/wdio-jasmine-framework/src/reporter.ts:99 | the first event name is `"test:"` followed by the status with its first `"ed"` removed; an absent status gives `test:undefined` |
| Reporter.EventNameOfPast | packages/wdio-jasmine-framework/src/reporter.ts:99 | a status that is a stem without `"ed"` followed by `"ed"` is reported as `"test:"` plus the stem |
| Reporter.EventNameOutcome | packages/wdio-jasmine-framework/src/reporter.ts:99 | `failed` is reported as `test:fail` and `passed` as `test:pass`: the status without its final `"ed"` |
| Reporter.EventNamePending | packages/wdio-jasmine-framework/src/reporter.ts:99 | `pending` holds no `"ed"` and is reported as `test:pending` |
| Reporter.FailuresTruthy | packages/wdio-jasmine-framework/src/reporter.ts:87 | `failedExpectations?.length` is truthy only when the list is present with at least one record; an absent or empty list is falsy |
| Reporter.PlaceholderPayloads | packages/wdio-jasmine-framework/src/reporter.ts:117-130 | both placeholder results carry the generated id and the title `<unknown test>`; the first has no status and no failures; the second normalizes to `failed` and has failures exactly when the suite had records |
| Reporter.PlaceholderReportedFailed | packages/wdio-jasmine-framework/src/reporter.ts:123-130 | the stamped placeholder result is `failed` and is reported as `test:fail` |
| Reporter.ErrorsFor | packages/wdio-jasmine-framework/src/reporter.ts:87-92 | the error list has one entry per failure record: the records themselves without cleaning, their cleaned copies with it |
| Reporter.StampSpecDone | packages/wdio-jasmine-framework/src/reporter.ts:79-101 | status normalized; with failures, `errors` has their number of entries, `error` is `errors[0]`, and cleaning applies only when on; without failures, the error fields are untouched |
| Reporter.JasmineReporter.constructor | packages/wdio-jasmine-framework/src/reporter.ts:31-42 | empty stack, zero failures, and stack cleaning on unless `cleanStack` is the boolean `false` |
| Reporter.JasmineReporter.MessageFields | packages/wdio-jasmine-framework/src/reporter.ts:141-159 | a message carries the runner's cid, the specs and the event; its parent is the given suite uid; its uid is description then id; it is pending exactly for status `pending`; its duration is 0 when none was measured |
| Reporter.JasmineReporter.Emit | packages/wdio-jasmine-framework/src/reporter.ts:140-162 | exactly one event is appended, its message parented by the innermost open suite, and only that event's name count grows |
| Reporter.JasmineReporter.SuiteStarted | packages/wdio-jasmine-framework/src/reporter.ts:44-56 | `suite:start` is emitted with the enclosing suite as parent, then exactly one frame with no tests is pushed |
| Reporter.JasmineReporter.SpecStarted | packages/wdio-jasmine-framework/src/reporter.ts:58-77 | with a suite open only the top frame's test count grows by one; with none the stack is unchanged and a warning is counted; one `test:start` is emitted either way |
| Reporter.JasmineReporter.SpecDone | packages/wdio-jasmine-framework/src/reporter.ts:79-105 | exactly two events, the status event then `test:end`; the failure counter grows by one exactly for `failed`; the stack is unchanged |
| Reporter.JasmineReporter.ExcludedReportedPending | packages/wdio-jasmine-framework/src/reporter.ts:83-85 | an excluded test is reported as `test:pending`, and both of its messages have `pending` set |
| Reporter.JasmineReporter.GetFailedCount | packages/wdio-jasmine-framework/src/reporter.ts:164-166 | returns the number of finished tests that failed, changing nothing |
| Reporter.JasmineReporter.PlaceholderEvents | packages/wdio-jasmine-framework/src/reporter.ts:114-131 | the placeholder's events are `test:start`, `test:fail`, `test:end`, parented by the failing suite, with uid `<unknown test>` + id, and carrying the suite's (cleaned) failures |
| Reporter.JasmineReporter.ReportUnknownTest | packages/wdio-jasmine-framework/src/reporter.ts:114-131 | the placeholder test is counted against the top suite, its three events are emitted, and one failure is added |
| Reporter.JasmineReporter.EndSuite | packages/wdio-jasmine-framework/src/reporter.ts:107-138 | a suite with no tests and failures first gets the placeholder test; the stack shrinks by exactly one frame; `suite:end` is emitted last, parented by the enclosing suite |
| Reporter.JasmineReporter.SuiteDone | packages/wdio-jasmine-framework/src/reporter.ts:107-138 | with no suite open it fails (reading `tests` of undefined) and nothing changes; otherwise it behaves as `EndSuite` |
| ReporterScenarios.PassingSpec | packages/wdio-jasmine-framework/src/reporter.ts:44-138 | one suite with one passing spec emits `suite:start, test:start, test:pass, test:end, suite:end` and counts no failure |
| ReporterScenarios.FailingSpec | packages/wdio-jasmine-framework/src/reporter.ts:44-138 | one suite with one failing spec emits `suite:start, test:start, test:fail, test:end, suite:end`, counts one failure, and reports the cleaned record, whose stack has no noise line |
| ReporterScenarios.FailingSuiteBody | packages/wdio-jasmine-framework/src/reporter.ts:107-138 | a suite that fails before starting any spec emits a placeholder `test:start, test:fail, test:end` before `suite:end`, with uid `<unknown test>spec…`, and counts one failure |
| Sanitize.NameOf | packages/wdio-sync/src/utils.ts:11-16 | an `Error` keeps its name; any other value is named `Error` |
| Sanitize.MessageOf | packages/wdio-sync/src/utils.ts:11-18 | an `Error` keeps its message; any other value becomes the message, and `undefined` gives the empty message |
| Sanitize.CommandLines | packages/wdio-sync/src/utils.ts:32-37 | at least one line, none holding a newline, and joined back they are exactly the command stack with its first `"Name: Name"` collapsed to `"Name"` |
| Sanitize.Merged | packages/wdio-sync/src/utils.ts:23-39 | with a command stack: its lines, then `"\n"` in place of the saved header, then the rest of the saved lines; without one: the saved lines unchanged, header included |
| Sanitize.DedupFold | packages/wdio-sync/src/utils.ts:45-47 | the reduce only appends: its text starts with the start text |
| Sanitize.DedupFoldIsKept | packages/wdio-sync/src/utils.ts:45-47 | the reduce's text is the start text followed by each kept line after a newline |
| Sanitize.KeptFresh | packages/wdio-sync/src/utils.ts:45-47 | no kept line is empty, occurs in the start text, or occurs inside an earlier kept line, so no line is kept twice |
| Sanitize.KeptSubsequence | packages/wdio-sync/src/utils.ts:45-47 | the kept lines are a subsequence of the input lines |
| Sanitize.DedupFoldCovers | packages/wdio-sync/src/utils.ts:45-47 | the reduce loses nothing: the text contains the start text and every input line, kept or skipped |
| Sanitize.CleanTrace | packages/wdio-sync/src/utils.ts:41-48 | the cleaned trace has no leading or trailing whitespace |
| Sanitize.CleanTraceLines | packages/wdio-sync/src/utils.ts:41-48 | the surviving lines are a subsequence of the merged lines; each passes the filter and is non-empty; none repeats; the fold's text is exactly those lines, and the stack is that text trimmed |
| Sanitize.SanitizedStack | packages/wdio-sync/src/utils.ts:41-48 | with a saved stack, the result's stack is the trimmed fold text of lines that are a subsequence of the merged lines, each passing the filter, non-empty and never repeated |
| Sanitize.Sanitized | packages/wdio-sync/src/utils.ts:9-51 | it fails exactly when the saved stack is absent or empty; otherwise the result has the command error's name and message and a trimmed stack |
| Sanitize.SanitizeErrorMessage | packages/wdio-sync/src/utils.ts:9-51 | the imperative procedure (overwriting the saved header in place) returns exactly `Sanitized` |
| Sanitize.DoubledHeaderCollapsed | packages/wdio-sync/src/utils.ts:32 | a command stack starting `"N: N"` loses one copy of the name |
| Sanitize.FoldSkipsRepeat | packages/wdio-sync/src/utils.ts:45-47 | the reduce over `[a, b, a]` appends `a` and `b` and skips the repeated `a` |
| Sanitize.TrimLeadingNewline | packages/wdio-sync/src/utils.ts:48 | trimming removes the newline the first fold step puts in front |
| Sanitize.SplitThreeLines | packages/wdio-sync/src/utils.ts:24 | splitting `a\nb\na` (no newline in `a` or `b`) gives the three lines `a, b, a` |
| Sanitize.CleanSkipsRepeat | packages/wdio-sync/src/utils.ts:41-48 | cleaning `[a, b, a]` with both lines kept gives `a\nb` |
| Sanitize.RepeatedLineDropped | packages/wdio-sync/src/utils.ts:9-51 | a non-error value with a saved trace `a, b, a` gives an `Error` with an empty message and the stack `a\nb` |

## Left out

- **Logging.** `log.warn` for a spec with no open suite is a ghost `warnings` counter.
- **The downstream reporter.** `this.reporter.emit` is an append to the `emitted` log. The downstream reporter itself is not part of this model.
- **Clock.** `new Date()` readings are `now` parameters. Each callback reads the clock once, although the source calls `new Date()` twice in `suiteStarted` and `specStarted`. `start` and `duration` are integer milliseconds.
- **Randomness.** `Math.random()` in the placeholder id is a `random` string parameter.
- **Opaque data.** `capabilities` and `specs` are opaque values that are only stored and copied.
- **Dead state.** The `startedSuite` and `startedTest` fields are written but never read, so they are not modelled.
- **In-place mutation.** The source mutates payloads and failure records, and the arrays `failedExpectations`, `errors` and `error` share the records that `cleanStack` rewrites. Here payloads and records are values: each callback returns its stamped copy, and the cleaned list is stored in all three fields. Aliasing between the caller's objects is not captured.
- **Regular expressions.** They are substring predicates. `STACKTRACE_FILTER` becomes "contains one of its five literal alternatives"; its `(\w+)*` tail can match the empty string, so it never changes which lines match. The event-name `/ed/` becomes a replacement of the first `"ed"`.
- **Stack filter.** `STACKTRACE_FILTER_FN` comes from a constants file that is not part of this model. It is the parameter `keep`.
- Sanitize.CommandLines: does not model the `$` replacement patterns (`$&`, `$1`, …) that `String.prototype.replace` would interpret if an error name contained them.
- Sanitize.Sanitized: a missing or empty saved stack is modelled as a `Failure` result (the `TypeError` thrown at `.filter`), not as a precondition.
- **Non-error messages.** `new Error(message)` converts any non-error value with `String(...)`. The model takes that string conversion as given (`Other(text)`), with `None` for `undefined`.
- **Fibers.** The fibers module-loading test of the synchronous-command package is not part of this model; it exercises module loading, not logic.
