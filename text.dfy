/**
 * The JavaScript string and array built-ins the two core files rely on:
 * `includes`, `replace` of the first occurrence (with the left-most search
 * it performs), `split`, `join`, `trim` and `filter`, with the properties
 * the rest of the model needs.
 */
module Text {
  import opened Wrappers

  /** JavaScript truthiness of a string that may be `undefined`: present and non-empty. */
  predicate Truthy(s: Option<string>) {
    s.Some? && s.value != ""
  }

  // ---------------------------------------------------------------------------
  // Substrings

  /** `p` occurs in `s` starting at index `i`. */
  predicate OccursAt(s: string, p: string, i: int) {
    0 <= i && i + |p| <= |s| && s[i..i + |p|] == p
  }

  /** `s.includes(p)`: `p` is a substring of `s` (the empty string is a substring of every string). */
  predicate Contains(s: string, p: string): (r: bool)
    ensures r ==> |p| <= |s|
    ensures |p| == 0 ==> r
  {
    assert |p| == 0 ==> OccursAt(s, p, 0);
    exists i :: 0 <= i <= |s| && OccursAt(s, p, i)
  }

  /** `i` is the left-most occurrence of `p` in `s`. */
  predicate FirstOccurrence(s: string, p: string, i: int) {
    OccursAt(s, p, i) && forall j :: 0 <= j < i ==> !OccursAt(s, p, j)
  }

  /** `s.indexOf(p, k)`: the left-most occurrence of `p` at or after `k`, or -1. */
  function IndexOfFrom(s: string, p: string, k: nat): (r: int)
    requires k <= |s|
    ensures r == -1 || (k <= r <= |s| && OccursAt(s, p, r))
    ensures forall j :: k <= j < (if r == -1 then |s| + 1 else r) ==> !OccursAt(s, p, j)
    decreases |s| - k
  {
    if OccursAt(s, p, k) then k
    else if k == |s| then -1
    else IndexOfFrom(s, p, k + 1)
  }

  /** `s.indexOf(p)`. */
  function IndexOf(s: string, p: string): (r: int)
    ensures r == -1 <==> !Contains(s, p)
    ensures r != -1 ==> FirstOccurrence(s, p, r)
  {
    var r := IndexOfFrom(s, p, 0);
    assert r == -1 ==> forall j :: !OccursAt(s, p, j) by {
      if r == -1 {
        forall j ensures !OccursAt(s, p, j) {
          if 0 <= j <= |s| { } 
        }
      }
    }
    r
  }

  /**
   * `s.replace(p, rep)` with a string (or a non-global regular expression
   * matching exactly `p`): only the left-most occurrence is replaced.
   */
  function ReplaceFirst(s: string, p: string, rep: string): (r: string)
    ensures !Contains(s, p) ==> r == s
    ensures forall i :: FirstOccurrence(s, p, i) ==> r == s[..i] + rep + s[i + |p|..]
  {
    var i := IndexOf(s, p);
    if i < 0 then s else s[..i] + rep + s[i + |p|..]
  }

  lemma ContainsEmpty(s: string)
    ensures Contains(s, "")
  {
    assert OccursAt(s, "", 0);
  }

  lemma ContainsAppended(acc: string, x: string)
    ensures Contains(acc + "\n" + x, x)
  {
    var t := acc + "\n" + x;
    assert t[|acc| + 1..|acc| + 1 + |x|] == x;
    assert OccursAt(t, x, |acc| + 1);
  }

  /** Text only grows, so what it already contains stays contained. */
  lemma ContainsExtend(acc: string, t: string, x: string)
    requires Contains(acc, x)
    ensures Contains(acc + t, x)
  {
    var i :| 0 <= i <= |acc| && OccursAt(acc, x, i);
    assert (acc + t)[i..i + |x|] == acc[i..i + |x|];
    assert OccursAt(acc + t, x, i);
  }

  /** Text that ends with `s` contains whatever `s` contains. */
  lemma ContainsSuffix(pre: string, s: string, x: string)
    requires Contains(s, x)
    ensures Contains(pre + s, x)
  {
    var i :| 0 <= i <= |s| && OccursAt(s, x, i);
    assert (pre + s)[|pre| + i..|pre| + i + |x|] == s[i..i + |x|];
    assert OccursAt(pre + s, x, |pre| + i);
  }

  // ---------------------------------------------------------------------------
  // Lines

  /** `s.split(sep)` on a one-character separator: always at least one piece, none holding `sep`. */
  function Split(s: string, sep: char): (r: seq<string>)
    ensures |r| >= 1
    ensures forall k :: 0 <= k < |r| ==> sep !in r[k]
    decreases |s|
  {
    if |s| == 0 then [""]
    else
      var rest := Split(s[1..], sep);
      if s[0] == sep then [""] + rest
      else [[s[0]] + rest[0]] + rest[1..]
  }

  /** `lines.join(sep)`; the empty array joins to the empty string. */
  function Join(lines: seq<string>, sep: char): (r: string)
    ensures |lines| == 0 ==> r == ""
    ensures |lines| > 0 ==> |lines[0]| <= |r| && r[..|lines[0]|] == lines[0]
    decreases |lines|
  {
    if |lines| == 0 then ""
    else if |lines| == 1 then lines[0]
    else lines[0] + [sep] + Join(lines[1..], sep)
  }

  /** Joining the pieces of a split gives back the original text. */
  lemma {:induction false} JoinSplit(s: string, sep: char)
    ensures Join(Split(s, sep), sep) == s
    decreases |s|
  {
    if |s| > 0 {
      var rest := Split(s[1..], sep);
      JoinSplit(s[1..], sep);
      if s[0] == sep {
        assert Split(s, sep) == [""] + rest;
        assert ([""] + rest)[1..] == rest;
      } else if |rest| == 1 {
        assert Split(s, sep) == [[s[0]] + rest[0]];
      } else {
        var r := Split(s, sep);
        assert r == [[s[0]] + rest[0]] + rest[1..];
        assert r[1..] == rest[1..];
        assert Join(rest, sep) == rest[0] + [sep] + Join(rest[1..], sep);
      }
      assert s == [s[0]] + s[1..];
    }
  }

  /** Splitting a text that starts with a separator-free piece `a`. */
  lemma {:induction false} SplitPrefix(a: string, t: string, sep: char)
    requires sep !in a
    ensures Split(a + t, sep) == [a + Split(t, sep)[0]] + Split(t, sep)[1..]
    decreases |a|
  {
    if |a| == 0 {
      var r := Split(t, sep);
      assert a + t == t && a + r[0] == r[0];
      assert [r[0]] + r[1..] == r;
    } else {
      SplitPrefix(a[1..], t, sep);
      assert (a + t)[1..] == a[1..] + t;
      var rest := Split(a[1..] + t, sep);
      assert rest[0] == a[1..] + Split(t, sep)[0];
      assert rest[1..] == Split(t, sep)[1..];
      assert Split(a + t, sep) == [[a[0]] + rest[0]] + rest[1..];
      assert [a[0]] + (a[1..] + Split(t, sep)[0]) == a + Split(t, sep)[0];
    }
  }

  /** Splitting joined separator-free lines gives back the lines. */
  lemma {:induction false} SplitJoin(lines: seq<string>, sep: char)
    requires |lines| >= 1
    requires forall k :: 0 <= k < |lines| ==> sep !in lines[k]
    ensures Split(Join(lines, sep), sep) == lines
    decreases |lines|
  {
    if |lines| == 1 {
      SplitPrefix(lines[0], "", sep);
      assert lines[0] + "" == lines[0];
    } else {
      SplitJoin(lines[1..], sep);
      var j := Join(lines[1..], sep);
      assert Join(lines, sep) == lines[0] + ([sep] + j);
      SplitPrefix(lines[0], [sep] + j, sep);
      assert ([sep] + j)[1..] == j;
      assert Split([sep] + j, sep) == [""] + Split(j, sep);
      assert ([""] + lines[1..])[0] == "" && ([""] + lines[1..])[1..] == lines[1..];
      assert lines[0] + "" == lines[0];
      assert lines == [lines[0]] + lines[1..];
    }
  }

  // ---------------------------------------------------------------------------
  // Whitespace

  /** ECMAScript WhiteSpace and LineTerminator code points, the characters `trim` removes. */
  predicate IsWhitespace(c: char) {
    c == '\t' || c == '\n' || c == '\U{000B}' || c == '\U{000C}' || c == '\r' || c == ' '
    || c == '\U{00A0}' || c == '\U{1680}' || ('\U{2000}' <= c <= '\U{200A}')
    || c == '\U{2028}' || c == '\U{2029}' || c == '\U{202F}' || c == '\U{205F}'
    || c == '\U{3000}' || c == '\U{FEFF}'
  }

  predicate AllWhitespace(s: string) {
    forall i :: 0 <= i < |s| ==> IsWhitespace(s[i])
  }

  /** `s.trimStart()`: the longest suffix of `s` that does not start with whitespace. */
  function TrimStart(s: string): (r: string)
    ensures |r| <= |s| && r == s[|s| - |r|..]
    ensures AllWhitespace(s[..|s| - |r|])
    ensures |r| > 0 ==> !IsWhitespace(r[0])
    decreases |s|
  {
    if |s| > 0 && IsWhitespace(s[0]) then
      var r := TrimStart(s[1..]);
      assert s[..|s| - |r|] == [s[0]] + s[1..][..|s| - 1 - |r|];
      r
    else s
  }

  /** `s.trimEnd()`: the longest prefix of `s` that does not end with whitespace. */
  function TrimEnd(s: string): (r: string)
    ensures |r| <= |s| && r == s[..|r|]
    ensures AllWhitespace(s[|r|..])
    ensures |r| > 0 ==> !IsWhitespace(r[|r| - 1])
    decreases |s|
  {
    if |s| > 0 && IsWhitespace(s[|s| - 1]) then
      var r := TrimEnd(s[..|s| - 1]);
      assert s[|r|..] == s[..|s| - 1][|r|..] + [s[|s| - 1]];
      r
    else s
  }

  /** `r` is the part of `s` at index `i` once whitespace of `s` before and after it is removed. */
  predicate TrimmedAt(s: string, r: string, i: int) {
    0 <= i && i + |r| <= |s| && s[i..i + |r|] == r
    && AllWhitespace(s[..i]) && AllWhitespace(s[i + |r|..])
  }

  /**
   * Whitespace removed from the front of `s` (leaving `t`) and then from the
   * back of `t` (leaving `r`) leaves `r` trimmed out of `s` where `t` starts.
   */
  lemma TrimmedInTwoSteps(s: string, t: string, r: string)
    requires |t| <= |s| && t == s[|s| - |t|..] && AllWhitespace(s[..|s| - |t|])
    requires |r| <= |t| && r == t[..|r|] && AllWhitespace(t[|r|..])
    ensures TrimmedAt(s, r, |s| - |t|)
  {
    assert s[|s| - |t|..|s| - |t| + |r|] == r;
    assert s[|s| - |t| + |r|..] == t[|r|..];
  }

  /** `s.trim()`: `s` without its leading and trailing whitespace, and nothing else removed. */
  function Trim(s: string): (r: string)
    ensures |r| > 0 ==> !IsWhitespace(r[0]) && !IsWhitespace(r[|r| - 1])
    ensures TrimmedAt(s, r, |s| - |TrimStart(s)|)
  {
    var t := TrimStart(s);
    var r := TrimEnd(t);
    TrimmedInTwoSteps(s, t, r);
    assert |r| > 0 ==> r[0] == t[0];
    r
  }

  lemma {:induction false} TrimIdempotent(s: string)
    ensures Trim(Trim(s)) == Trim(s)
  {
    var r := Trim(s);
    if |r| > 0 {
      assert TrimStart(r) == r;
      assert TrimEnd(r) == r;
    }
  }

  // ---------------------------------------------------------------------------
  // Sequences

  /** `s.filter(keep)`: the elements of `s` that satisfy `keep`, in order. */
  function Filter<T(!new)>(s: seq<T>, keep: T -> bool): (r: seq<T>)
    ensures |r| <= |s|
    ensures forall i :: 0 <= i < |r| ==> keep(r[i]) && r[i] in s
    ensures forall i :: 0 <= i < |s| && keep(s[i]) ==> s[i] in r
    ensures forall x :: multiset(r)[x] == (if keep(x) then multiset(s)[x] else 0)
    decreases |s|
  {
    if |s| == 0 then []
    else
      var rest := Filter(s[1..], keep);
      assert s == [s[0]] + s[1..];
      if keep(s[0]) then
        assert multiset([s[0]] + rest) == multiset([s[0]]) + multiset(rest);
        [s[0]] + rest
      else
        rest
  }

  /** `a` can be obtained from `b` by deleting elements, keeping the order of the rest. */
  predicate IsSubsequence<T(==)>(a: seq<T>, b: seq<T>)
    decreases |b|
  {
    |a| == 0 ||
    (|b| > 0 && ((a[0] == b[0] && IsSubsequence(a[1..], b[1..])) || IsSubsequence(a, b[1..])))
  }

  lemma {:induction false} SubsequenceTransitive<T>(a: seq<T>, b: seq<T>, c: seq<T>)
    requires IsSubsequence(a, b) && IsSubsequence(b, c)
    ensures IsSubsequence(a, c)
    decreases |c|
  {
    if |a| > 0 {
      if IsSubsequence(b, c[1..]) {
        SubsequenceTransitive(a, b, c[1..]);
      } else if a[0] == b[0] && IsSubsequence(a[1..], b[1..]) {
        SubsequenceTransitive(a[1..], b[1..], c[1..]);
      } else {
        SubsequenceTransitive(a, b[1..], c[1..]);
      }
    }
  }

  lemma {:induction false} FilterSubsequence<T(!new)>(s: seq<T>, keep: T -> bool)
    ensures IsSubsequence(Filter(s, keep), s)
    decreases |s|
  {
    if |s| > 0 {
      FilterSubsequence(s[1..], keep);
      var rest := Filter(s[1..], keep);
      if keep(s[0]) {
        assert Filter(s, keep) == [s[0]] + rest;
        assert ([s[0]] + rest)[1..] == rest;
      } else {
        assert Filter(s, keep) == rest;
      }
    }
  }

  /** Filtering keeps a sequence whose every element passes as it is. */
  lemma {:induction false} FilterKeepsAll<T(!new)>(s: seq<T>, keep: T -> bool)
    requires forall i :: 0 <= i < |s| ==> keep(s[i])
    ensures Filter(s, keep) == s
    decreases |s|
  {
    if |s| > 0 {
      FilterKeepsAll(s[1..], keep);
      assert [s[0]] + s[1..] == s;
    }
  }

  lemma {:induction false} FilterIdempotent<T(!new)>(s: seq<T>, keep: T -> bool)
    ensures Filter(Filter(s, keep), keep) == Filter(s, keep)
    decreases |s|
  {
    if |s| > 0 {
      FilterIdempotent(s[1..], keep);
      var rest := Filter(s[1..], keep);
      if keep(s[0]) {
        assert Filter(s, keep) == [s[0]] + rest;
        assert ([s[0]] + rest)[0] == s[0] && ([s[0]] + rest)[1..] == rest;
        assert Filter([s[0]] + rest, keep) == [s[0]] + Filter(rest, keep);
      } else {
        assert Filter(s, keep) == rest;
      }
    }
  }
}
