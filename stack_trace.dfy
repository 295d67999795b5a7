/**
 * The Jasmine adapter's stack-trace cleaning: the noise pattern
 * `STACKTRACE_FILTER` and `cleanStack`, which drops every stack line that
 * matches it.
 */
module StackTrace {
  import opened Wrappers
  import opened Text

  /**
   * One of Jasmine's failed expectations, the failure record a test or suite
   * carries; only `stack` is ever rewritten.
   */
  datatype Expectation = Expectation(matcherName: string, message: string, stack: Option<string>, passed: bool)

  /**
   * A line the noise pattern matches: a frame from a dependency directory
   * (`node_modules/` or `node_modules\`), from the synchronous-command layer
   * (`@wdio/sync/build`, `@wdio/sync/src`), or a `- - - - -` separator. The
   * pattern's `(\w+)*` tail may match the empty string, so it does not change
   * which lines match. The shortest alternative has nine characters, so an
   * empty line is never noise.
   */
  predicate IsNoise(line: string): (r: bool)
    ensures r ==> |line| >= |"- - - - -"|
  {
    Contains(line, "node_modules/") || Contains(line, "node_modules\\")
    || Contains(line, "@wdio/sync/build") || Contains(line, "@wdio/sync/src")
    || Contains(line, "- - - - -")
  }

  /** The lines `cleanStack` keeps: those the noise pattern does not match, in order. */
  function CleanLines(lines: seq<string>): (r: seq<string>)
    ensures IsSubsequence(r, lines)
    ensures forall i :: 0 <= i < |r| ==> !IsNoise(r[i])
    ensures forall i :: 0 <= i < |lines| && !IsNoise(lines[i]) ==> lines[i] in r
    ensures forall x :: multiset(r)[x] == (if IsNoise(x) then 0 else multiset(lines)[x])
  {
    FilterSubsequence(lines, l => !IsNoise(l));
    Filter(lines, l => !IsNoise(l))
  }

  /**
   * `cleanStack`: a record without a stack, or with an empty one, is returned
   * as it is; otherwise its stack is split into lines, the noise lines are
   * dropped and the rest joined again. Nothing but the stack changes.
   */
  function CleanStack(e: Expectation): (r: Expectation)
    ensures r.(stack := e.stack) == e
    ensures !Truthy(e.stack) ==> r == e
    ensures Truthy(e.stack) ==>
      var kept := CleanLines(Split(e.stack.value, '\n'));
      r.stack.Some?
      && (kept == [] ==> r.stack.value == "")
      && (kept != [] ==> Split(r.stack.value, '\n') == kept)
    ensures r.stack.Some? ==> forall i :: 0 <= i < |Split(r.stack.value, '\n')| ==> !IsNoise(Split(r.stack.value, '\n')[i])
  {
    if !Truthy(e.stack) then
      e
    else
      var kept := CleanLines(Split(e.stack.value, '\n'));
      if kept != [] then
        SplitJoin(kept, '\n');
        e.(stack := Some(Join(kept, '\n')))
      else
        assert Split("", '\n') == [""];
        e.(stack := Some(""))
  }

  /** Cleaning an already cleaned record changes nothing. */
  lemma {:induction false} CleanStackIdempotent(e: Expectation)
    ensures CleanStack(CleanStack(e)) == CleanStack(e)
  {
    var once := CleanStack(e);
    if Truthy(e.stack) && Truthy(once.stack) {
      var lines := Split(e.stack.value, '\n');
      var kept := CleanLines(lines);
      assert kept != [];
      assert Split(once.stack.value, '\n') == kept;
      FilterIdempotent(lines, l => !IsNoise(l));
      assert CleanLines(kept) == kept;
      assert once.stack.value == Join(kept, '\n');
    }
  }
}
