/**
 * `sanitizeErrorMessage` of the synchronous-command layer: the error a
 * command settled with is given the call-site stack trace captured when the
 * command was issued. The two traces are merged (command frames first), the
 * lines the stack filter rejects are dropped, every line already present in
 * the text built so far is skipped, and the result is trimmed.
 */
module Sanitize {
  import opened Wrappers
  import opened Text

  /**
   * What a command settled with: a real `Error` (name, message, optional
   * stack), or any other value, given by its string conversion (`None` for
   * `undefined`).
   */
  datatype CommandError =
    | ErrorValue(name: string, message: string, stack: Option<string>)
    | Other(text: Option<string>)

  /** The error `sanitizeErrorMessage` returns. */
  datatype ErrorRecord = ErrorRecord(name: string, message: string, stack: string)

  /** The name the new error takes: the command error's own, or "Error" for a non-error value. */
  function NameOf(e: CommandError): (r: string)
    ensures e.Other? ==> r == "Error"
    ensures e.ErrorValue? ==> r == e.name
  {
    match e
    case ErrorValue(name, _, _) => name
    case Other(_) => "Error"
  }

  /**
   * The message the new error takes: the command error's own, or the value
   * itself (`new Error(undefined)` has the empty message).
   */
  function MessageOf(e: CommandError): (r: string)
    ensures e.ErrorValue? ==> r == e.message
    ensures e.Other? && e.text.Some? ==> r == e.text.value
    ensures e == Other(None) ==> r == ""
  {
    match e
    case ErrorValue(_, message, _) => message
    case Other(text) => text.GetOr("")
  }

  /** The command error's stack, if it is an error with one. */
  function StackOf(e: CommandError): (r: Option<string>)
    ensures e.Other? ==> r.None?
  {
    match e
    case ErrorValue(_, _, stack) => stack
    case Other(_) => None
  }

  /**
   * The command error's stack lines once a doubled header `"Name: Name"`
   * (left by wrapping an error twice) has its first occurrence collapsed to
   * `"Name"`.
   */
  function CommandLines(e: CommandError): (r: seq<string>)
    requires Truthy(StackOf(e))
    ensures |r| >= 1 && forall k :: 0 <= k < |r| ==> '\n' !in r[k]
    ensures Join(r, '\n') == ReplaceFirst(StackOf(e).value, NameOf(e) + ": " + NameOf(e), NameOf(e))
  {
    var name := NameOf(e);
    var collapsed := ReplaceFirst(StackOf(e).value, name + ": " + name, name);
    JoinSplit(collapsed, '\n');
    Split(collapsed, '\n')
  }

  /**
   * The lines to clean. When the command error has a stack, its lines come
   * first and the saved trace follows with its header line (the saved
   * error's own "Error: message") replaced by a lone "\n"; otherwise the
   * saved trace is used as it is, header included.
   */
  function Merged(e: CommandError, saved: seq<string>): (r: seq<string>)
    requires |saved| >= 1
    ensures !Truthy(StackOf(e)) ==> r == saved
    ensures Truthy(StackOf(e)) ==>
      var cmd := CommandLines(e);
      |r| == |cmd| + |saved| && r[..|cmd|] == cmd && r[|cmd|] == "\n" && r[|cmd| + 1..] == saved[1..]
  {
    if Truthy(StackOf(e)) then
      var r := CommandLines(e) + saved[0 := "\n"];
      assert r[|CommandLines(e)| + 1..] == saved[0 := "\n"][1..];
      r
    else saved
  }

  // ---------------------------------------------------------------------------
  // The deduplicating fold

  /**
   * The `reduce` step by step from `acc`: a line is appended after a newline
   * unless it already occurs as a SUBSTRING of the text accumulated so far.
   */
  function DedupFold(acc: string, lines: seq<string>): (r: string)
    ensures |acc| <= |r| && r[..|acc|] == acc
    decreases |lines|
  {
    if |lines| == 0 then acc
    else if Contains(acc, lines[0]) then DedupFold(acc, lines[1..])
    else DedupFold(acc + "\n" + lines[0], lines[1..])
  }

  /** The lines the fold from `acc` appends, in order: a reference description of what survives. */
  function Kept(acc: string, lines: seq<string>): (r: seq<string>)
    ensures |r| <= |lines|
    decreases |lines|
  {
    if |lines| == 0 then []
    else if Contains(acc, lines[0]) then Kept(acc, lines[1..])
    else [lines[0]] + Kept(acc + "\n" + lines[0], lines[1..])
  }

  /** Every line preceded by a newline. */
  function NewlineEach(lines: seq<string>): (r: string)
    ensures |r| >= |lines|
    decreases |lines|
  {
    if |lines| == 0 then "" else "\n" + lines[0] + NewlineEach(lines[1..])
  }

  /** The fold's text is the starting text followed by each kept line on its own line. */
  lemma {:induction false} DedupFoldIsKept(acc: string, lines: seq<string>)
    ensures DedupFold(acc, lines) == acc + NewlineEach(Kept(acc, lines))
    decreases |lines|
  {
    if |lines| > 0 {
      if Contains(acc, lines[0]) {
        DedupFoldIsKept(acc, lines[1..]);
      } else {
        var next := acc + "\n" + lines[0];
        DedupFoldIsKept(next, lines[1..]);
        var rest := Kept(next, lines[1..]);
        assert Kept(acc, lines) == [lines[0]] + rest;
        assert ([lines[0]] + rest)[1..] == rest;
        assert NewlineEach([lines[0]] + rest) == "\n" + lines[0] + NewlineEach(rest);
      }
    }
  }

  /**
   * No line of `k` occurs in `acc` or inside an earlier line of `k`: in
   * particular no line is there twice and none is empty.
   */
  predicate Fresh(acc: string, k: seq<string>) {
    (forall i :: 0 <= i < |k| ==> !Contains(acc, k[i]))
    && (forall i, j :: 0 <= i < j < |k| ==> !Contains(k[i], k[j]))
  }

  /** The lines the fold keeps are fresh with respect to its starting text, and none is empty. */
  lemma {:induction false} KeptFresh(acc: string, lines: seq<string>)
    ensures Fresh(acc, Kept(acc, lines))
    ensures forall i :: 0 <= i < |Kept(acc, lines)| ==> Kept(acc, lines)[i] != ""
    decreases |lines|
  {
    ContainsEmpty(acc);
    if |lines| > 0 {
      if Contains(acc, lines[0]) {
        KeptFresh(acc, lines[1..]);
        assert Kept(acc, lines) == Kept(acc, lines[1..]);
      } else {
        var l := lines[0];
        var next := acc + "\n" + l;
        KeptFresh(next, lines[1..]);
        var rest := Kept(next, lines[1..]);
        var k := Kept(acc, lines);
        assert k == [l] + rest;
        assert next == acc + ("\n" + l);
        assert next == (acc + "\n") + l;
        forall x | Contains(acc, x) ensures Contains(next, x) {
          ContainsExtend(acc, "\n" + l, x);
        }
        forall x | Contains(l, x) ensures Contains(next, x) {
          ContainsSuffix(acc + "\n", l, x);
        }
        forall i | 1 <= i < |k| ensures !Contains(acc, k[i]) && !Contains(l, k[i]) {
          assert k[i] == rest[i - 1];
          assert !Contains(next, rest[i - 1]);
        }
        forall i, j | 0 <= i < j < |k| ensures !Contains(k[i], k[j]) {
          if i > 0 {
            assert k[i] == rest[i - 1] && k[j] == rest[j - 1];
          }
        }
        ContainsEmpty(l);
      }
    }
  }

  /** The kept lines are some of the input lines, in their input order. */
  lemma {:induction false} KeptSubsequence(acc: string, lines: seq<string>)
    ensures IsSubsequence(Kept(acc, lines), lines)
    decreases |lines|
  {
    if |lines| > 0 {
      if Contains(acc, lines[0]) {
        KeptSubsequence(acc, lines[1..]);
        var k := Kept(acc, lines[1..]);
        assert |k| > 0 ==> IsSubsequence(k, lines[1..]);
      } else {
        var rest := Kept(acc + "\n" + lines[0], lines[1..]);
        KeptSubsequence(acc + "\n" + lines[0], lines[1..]);
        assert ([lines[0]] + rest)[0] == lines[0] && ([lines[0]] + rest)[1..] == rest;
      }
    }
  }

  /**
   * Nothing is lost: the fold's text still contains whatever the starting
   * text contained, and every input line, kept or skipped.
   */
  lemma {:induction false} DedupFoldCovers(acc: string, lines: seq<string>)
    ensures forall x :: Contains(acc, x) ==> Contains(DedupFold(acc, lines), x)
    ensures forall i :: 0 <= i < |lines| ==> Contains(DedupFold(acc, lines), lines[i])
    decreases |lines|
  {
    if |lines| > 0 {
      var l := lines[0];
      var next := if Contains(acc, l) then acc else acc + "\n" + l;
      DedupFoldCovers(next, lines[1..]);
      if !Contains(acc, l) {
        ContainsAppended(acc, l);
        assert next == acc + ("\n" + l);
        forall x | Contains(acc, x) ensures Contains(next, x) {
          ContainsExtend(acc, "\n" + l, x);
        }
      }
      forall i | 1 <= i < |lines| ensures Contains(DedupFold(acc, lines), lines[i]) {
        assert lines[i] == lines[1..][i - 1];
      }
    }
  }

  // ---------------------------------------------------------------------------
  // The whole cleaning pipeline

  /**
   * `filter(keep)`, then the deduplicating `reduce` from the empty text, then
   * `trim`: the final stack has no leading or trailing whitespace (and, by
   * `Trim`, is the folded text with only whitespace removed around it).
   */
  function CleanTrace(lines: seq<string>, keep: string -> bool): (r: string)
    ensures |r| > 0 ==> !IsWhitespace(r[0]) && !IsWhitespace(r[|r| - 1])
  {
    Trim(DedupFold("", Filter(lines, keep)))
  }

  /**
   * The lines that survive cleaning: they satisfy the filter, appear in the
   * merged input in the same order, are never empty and never repeat (none
   * occurs inside an earlier one); every filtered line is covered by the
   * text the fold builds, of which the final stack is the trimmed middle.
   */
  lemma CleanTraceLines(lines: seq<string>, keep: string -> bool)
    ensures var f := Filter(lines, keep);
      var k := Kept("", f);
      IsSubsequence(k, lines)
      && (forall i :: 0 <= i < |k| ==> keep(k[i]) && k[i] != "")
      && Fresh("", k)
      && DedupFold("", f) == NewlineEach(k)
      && (forall i :: 0 <= i < |f| ==> Contains(DedupFold("", f), f[i]))
      && CleanTrace(lines, keep) == Trim(NewlineEach(k))
  {
    var f := Filter(lines, keep);
    var k := Kept("", f);
    KeptSubsequence("", f);
    FilterSubsequence(lines, keep);
    SubsequenceTransitive(k, f, lines);
    KeptFresh("", f);
    DedupFoldIsKept("", f);
    DedupFoldCovers("", f);
    assert "" + NewlineEach(k) == NewlineEach(k);
    forall i | 0 <= i < |k| ensures keep(k[i]) {
      SubsequenceMember(k, f, i);
    }
  }

  /** An element of a subsequence is an element of the whole. */
  lemma {:induction false} SubsequenceMember<T>(a: seq<T>, b: seq<T>, i: int)
    requires IsSubsequence(a, b) && 0 <= i < |a|
    ensures a[i] in b
    decreases |b|
  {
    if IsSubsequence(a, b[1..]) {
      SubsequenceMember(a, b[1..], i);
    } else if i > 0 {
      SubsequenceMember(a[1..], b[1..], i - 1);
    }
  }

  /**
   * The specification of `sanitizeErrorMessage(commandError, savedError)`,
   * `keep` standing for the stack filter: it throws when the saved error has
   * no stack (or an empty one); otherwise the new error takes the command
   * error's name and message and the cleaned merged trace as its stack.
   */
  function Sanitized(e: CommandError, savedStack: Option<string>, keep: string -> bool): (r: Result<ErrorRecord, string>)
    ensures r.Failure? <==> !Truthy(savedStack)
    ensures r.Success? ==> r.value.name == NameOf(e) && r.value.message == MessageOf(e)
    ensures r.Success? && |r.value.stack| > 0 ==>
      !IsWhitespace(r.value.stack[0]) && !IsWhitespace(r.value.stack[|r.value.stack| - 1])
  {
    if !Truthy(savedStack) then Failure("TypeError: stackArr.filter is not a function")
    else Success(ErrorRecord(NameOf(e), MessageOf(e), CleanTrace(Merged(e, Split(savedStack.value, '\n')), keep)))
  }

  /**
   * The stack of a successful result, line by line: it is the trimmed text of
   * the kept lines, each after a newline; they are a subsequence of the
   * merged lines, pass the filter, are never empty and never repeat.
   */
  lemma SanitizedStack(e: CommandError, savedStack: Option<string>, keep: string -> bool)
    requires Truthy(savedStack)
    ensures var merged := Merged(e, Split(savedStack.value, '\n'));
      var k := Kept("", Filter(merged, keep));
      var r := Sanitized(e, savedStack, keep);
      r.Success? && r.value.stack == Trim(NewlineEach(k))
      && IsSubsequence(k, merged)
      && (forall i :: 0 <= i < |k| ==> keep(k[i]) && k[i] != "")
      && Fresh("", k)
  {
    CleanTraceLines(Merged(e, Split(savedStack.value, '\n')), keep);
  }

  /**
   * `sanitizeErrorMessage`, step by step: destructure the command error,
   * split the saved stack, overwrite its first line in place, merge, then
   * filter, fold and trim.
   */
  method SanitizeErrorMessage(commandError: CommandError, savedStack: Option<string>, keep: string -> bool)
    returns (r: Result<ErrorRecord, string>)
    ensures r == Sanitized(commandError, savedStack, keep)
  {
    var name, message, stack;
    match commandError {
      case ErrorValue(n, m, s) =>
        name, message, stack := n, m, s;
      case Other(text) =>
        name, message, stack := "Error", text.GetOr(""), None;
    }

    var stackArr: Option<seq<string>> := None;
    if Truthy(savedStack) {
      stackArr := Some(Split(savedStack.value, '\n'));
    }

    if Truthy(stack) {
      var cmd := ReplaceFirst(stack.value, name + ": " + name, name);
      if stackArr.Some? {
        var saved := stackArr.value;
        var arr := new string[|saved|](i requires 0 <= i < |saved| => saved[i]);
        arr[0] := "\n";
        stackArr := Some(Split(cmd, '\n') + arr[..]);
        assert arr[..] == saved[0 := "\n"];
      }
    }

    if stackArr.None? {
      return Failure("TypeError: stackArr.filter is not a function");
    }
    r := Success(ErrorRecord(name, message, CleanTrace(stackArr.value, keep)));
  }

  // ---------------------------------------------------------------------------
  // Examples

  /**
   * A command stack that starts with a doubled header `"N: N"` loses one
   * copy of the name: its lines are those of `"N" + rest`.
   */
  lemma DoubledHeaderCollapsed(name: string, message: string, rest: string)
    ensures var e := ErrorValue(name, message, Some(name + ": " + name + rest));
      Truthy(StackOf(e)) && CommandLines(e) == Split(name + rest, '\n')
  {
    var p := name + ": " + name;
    var s := p + rest;
    assert s[0..|p|] == p;
    assert FirstOccurrence(s, p, 0);
    assert s[..0] + name + s[|p|..] == name + rest;
  }

  /** The fold over `[a, b, a]` appends `a` and `b` and skips the second `a`. */
  lemma FoldSkipsRepeat(a: string, b: string)
    requires a != "" && !Contains("\n" + a, b)
    ensures DedupFold("", [a, b, a]) == "\n" + (a + "\n" + b)
  {
    var lines := [a, b, a];
    ContainsEmpty("");
    assert !Contains("", a);
    var s1 := "\n" + a;
    var s2 := s1 + "\n" + b;
    assert s2[1..1 + |a|] == a;
    assert OccursAt(s2, a, 1);
    assert DedupFold(s2, lines[3..]) == s2;
    assert DedupFold(s2, lines[2..]) == s2;
    assert DedupFold(s1, lines[1..]) == s2;
    assert "" + "\n" + a == s1;
    assert DedupFold("", lines) == DedupFold(s1, lines[1..]);
  }

  /** Trimming a text whose first and last characters are not whitespace, behind one newline, gives the text. */
  lemma TrimLeadingNewline(t: string)
    requires t != "" && !IsWhitespace(t[0]) && !IsWhitespace(t[|t| - 1])
    ensures Trim("\n" + t) == t
  {
    var s := "\n" + t;
    assert s[1..] == t;
    assert TrimStart(t) == t;
    assert TrimStart(s) == t;
    assert TrimEnd(t) == t;
  }

  /** Cleaning `[a, b, a]` with a filter that keeps both lines gives `a + "\n" + b`. */
  lemma CleanSkipsRepeat(a: string, b: string, keep: string -> bool)
    requires a != "" && b != ""
    requires !IsWhitespace(a[0]) && !IsWhitespace(b[|b| - 1])
    requires !Contains("\n" + a, b)
    requires keep(a) && keep(b)
    ensures CleanTrace([a, b, a], keep) == a + "\n" + b
  {
    FilterKeepsAll([a, b, a], keep);
    FoldSkipsRepeat(a, b);
    TrimLeadingNewline(a + "\n" + b);
  }

  /**
   * A saved trace with lines `[a, b, a]`, no command stack, and a filter
   * that keeps both lines: the repeated `a` is dropped and the stack is
   * `a + "\n" + b` (for instance "A", "B", "A" gives "A\nB").
   */
  lemma RepeatedLineDropped(a: string, b: string, keep: string -> bool)
    requires a != "" && b != "" && '\n' !in a && '\n' !in b
    requires !IsWhitespace(a[0]) && !IsWhitespace(b[|b| - 1])
    requires !Contains("\n" + a, b)
    requires keep(a) && keep(b)
    ensures Sanitized(Other(None), Some(a + "\n" + b + "\n" + a), keep)
      == Success(ErrorRecord("Error", "", a + "\n" + b))
  {
    SplitThreeLines(a, b);
    CleanSkipsRepeat(a, b, keep);
    assert Merged(Other(None), [a, b, a]) == [a, b, a];
  }

  /** The text `a\nb\na` of two newline-free lines splits into `[a, b, a]`. */
  lemma SplitThreeLines(a: string, b: string)
    requires '\n' !in a && '\n' !in b
    ensures Split(a + "\n" + b + "\n" + a, '\n') == [a, b, a]
  {
    var lines := [a, b, a];
    assert Join(lines, '\n') == a + "\n" + b + "\n" + a by {
      assert Join(lines[2..], '\n') == a;
      assert Join(lines[1..], '\n') == b + "\n" + a;
    }
    SplitJoin(lines, '\n');
  }

}
