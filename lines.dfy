/**
 * Python's `str.splitlines()`: the text is cut at every line boundary, a
 * line boundary being `\n`, `\r`, the pair `\r\n`, or one of the other
 * separators Python recognises; the boundaries are dropped, and a boundary at
 * the very end does not start another, empty line.
 */
module Lines {

  /**
   * The characters `str.splitlines` treats as line boundaries: `\n`, `\v`,
   * `\f`, `\r`, the file, group and record separators, the next-line
   * character, and the Unicode line and paragraph separators.
   */
  predicate IsLineBreak(c: char) {
    || '\n' <= c <= '\r'
    || '\U{1C}' <= c <= '\U{1E}'
    || c == '\U{85}' || c == '\U{2028}' || c == '\U{2029}'
  }

  predicate NoBreaks(s: string) {
    forall i :: 0 <= i < |s| ==> !IsLineBreak(s[i])
  }

  /** Printable ASCII text holds no line boundary. */
  lemma PrintableHasNoBreaks(s: string)
    requires forall i :: 0 <= i < |s| ==> ' ' <= s[i] <= '~'
    ensures NoBreaks(s)
  {
  }

  lemma NoBreaksConcat(a: string, b: string)
    requires NoBreaks(a) && NoBreaks(b)
    ensures NoBreaks(a + b)
  {
    assert forall i :: |a| <= i < |a + b| ==> (a + b)[i] == b[i - |a|];
  }

  /** The index of the first line boundary, or |s| when there is none. */
  function FirstBreak(s: string): (j: nat)
    ensures j <= |s|
  {
    if s == [] || IsLineBreak(s[0]) then 0 else 1 + FirstBreak(s[1..])
  }

  /** No boundary comes before the first one, and the first one is a boundary. */
  lemma {:induction false} FirstBreakSpec(s: string)
    ensures forall i :: 0 <= i < FirstBreak(s) ==> !IsLineBreak(s[i])
    ensures FirstBreak(s) < |s| ==> IsLineBreak(s[FirstBreak(s)])
  {
    if s != [] && !IsLineBreak(s[0]) {
      FirstBreakSpec(s[1..]);
    }
  }

  /** The first line boundary is determined by the text in front of it. */
  lemma {:induction false} FirstBreakIs(s: string, j: nat)
    requires j <= |s| && forall i :: 0 <= i < j ==> !IsLineBreak(s[i])
    requires j < |s| ==> IsLineBreak(s[j])
    ensures FirstBreak(s) == j
  {
    if s != [] && j > 0 {
      FirstBreakIs(s[1..], j - 1);
    }
  }

  /** Where the line that ends at the boundary `j` is followed by the next one. */
  function NextLineStart(s: string, j: nat): (k: nat)
    requires j < |s|
    ensures j < k <= |s|
  {
    if s[j] == '\r' && j + 1 < |s| && s[j + 1] == '\n' then j + 2 else j + 1
  }

  function SplitLines(s: string): (lines: seq<string>)
    ensures lines == [] <==> s == []
    decreases |s|
  {
    if s == [] then []
    else
      var j := FirstBreak(s);
      if j == |s| then [s]
      else [s[..j]] + SplitLines(s[NextLineStart(s, j)..])
  }

  /** One step of the split: the first line, then the lines of the rest. */
  lemma SplitLinesStep(s: string, j: nat, k: nat)
    requires s != [] && j == FirstBreak(s) && j < |s| && k == NextLineStart(s, j)
    ensures SplitLines(s) == [s[..j]] + SplitLines(s[k..])
  {
  }

  /** No line holds a line boundary, so text with a boundary is never a line. */
  lemma {:induction false} LinesHaveNoBreaks(s: string, line: string)
    requires line in SplitLines(s)
    ensures NoBreaks(line)
    decreases |s|
  {
    if s != [] {
      var j := FirstBreak(s);
      FirstBreakSpec(s);
      if line == s[..j] {
        assert forall i :: 0 <= i < |line| ==> line[i] == s[i];
      } else if j < |s| {
        LinesHaveNoBreaks(s[NextLineStart(s, j)..], line);
      }
    }
  }

  lemma ConcatAssoc<T>(x: seq<T>, p: seq<T>, q: seq<T>)
    ensures x + (p + q) == (x + p) + q
  {
  }

  /** The text is empty or ends with a line boundary: appended text starts a new line. */
  predicate EndsLine(s: string) {
    s == [] || IsLineBreak(s[|s| - 1])
  }

  /** When `a` ends a line, the first line of `a + b` is that of `a`. */
  lemma AppendFirstLine(a: string, b: string)
    requires a != [] && EndsLine(a)
    requires a[|a| - 1] == '\r' ==> b == [] || b[0] != '\n'
    ensures FirstBreak(a) < |a| && FirstBreak(a + b) == FirstBreak(a)
    ensures NextLineStart(a + b, FirstBreak(a)) == NextLineStart(a, FirstBreak(a))
    ensures var j, k := FirstBreak(a), NextLineStart(a, FirstBreak(a));
      && (a + b)[..j] == a[..j] && (a + b)[k..] == a[k..] + b
      && (a[k..] != [] ==> a[k..][|a[k..]| - 1] == a[|a| - 1])
  {
    AppendFirstBreak(a, b);
    var j := FirstBreak(a);
    AppendNextLineStart(a, b, j);
    AppendSlices(a, b, j, NextLineStart(a, j));
  }

  /** Text that ends a line has a boundary, and appending does not move the first one. */
  lemma AppendFirstBreak(a: string, b: string)
    requires a != [] && EndsLine(a)
    ensures FirstBreak(a) < |a| && FirstBreak(a + b) == FirstBreak(a)
  {
    FirstBreakSpec(a);
    var j := FirstBreak(a);
    assert j < |a|;
    assert forall i :: 0 <= i <= j ==> (a + b)[i] == a[i];
    FirstBreakIs(a + b, j);
  }

  /** The boundary at `j` is as wide in `a + b` as in `a`. */
  lemma AppendNextLineStart(a: string, b: string, j: nat)
    requires j < |a|
    requires a[|a| - 1] == '\r' ==> b == [] || b[0] != '\n'
    ensures NextLineStart(a + b, j) == NextLineStart(a, j)
  {
    var s := a + b;
    assert s[j] == a[j];
    if j + 1 < |a| {
      assert s[j + 1] == a[j + 1];
    } else if j + 1 < |s| {
      assert s[j + 1] == b[0];
    }
  }

  lemma AppendSlices(a: string, b: string, j: nat, k: nat)
    requires j <= k <= |a|
    ensures (a + b)[..j] == a[..j] && (a + b)[k..] == a[k..] + b
    ensures a[k..] != [] ==> a[k..][|a[k..]| - 1] == a[|a| - 1]
  {
  }

  /**
   * Appending to text that ends a line adds the lines of the appended text
   * and leaves the earlier lines as they were, unless the old text ends with
   * `\r` and the new one starts with `\n`, which join into one boundary.
   */
  lemma {:induction false} SplitLinesAppend(a: string, b: string)
    requires EndsLine(a)
    requires a != [] && a[|a| - 1] == '\r' ==> b == [] || b[0] != '\n'
    ensures SplitLines(a + b) == SplitLines(a) + SplitLines(b)
    decreases |a|
  {
    if a == [] {
      assert a + b == b;
    } else {
      AppendFirstLine(a, b);
      var j := FirstBreak(a);
      var k := NextLineStart(a, j);
      SplitLinesStep(a, j, k);
      SplitLinesStep(a + b, j, k);
      SplitLinesAppend(a[k..], b);
      ConcatAssoc([a[..j]], SplitLines(a[k..]), SplitLines(b));
    }
  }

  /** Text without boundaries is one line, and does not end a line. */
  lemma SingleLine(s: string)
    requires s != [] && NoBreaks(s)
    ensures SplitLines(s) == [s] && !EndsLine(s)
  {
    FirstBreakIs(s, |s|);
  }

  /** A line without boundaries followed by `\n` splits off as one line. */
  lemma SplitLinesFirst(line: string, rest: string)
    requires NoBreaks(line)
    ensures SplitLines(line + "\n" + rest) == [line] + SplitLines(rest)
  {
    var s := line + "\n" + rest;
    FirstBreakIs(s, |line|);
    assert s[..|line|] == line;
    SplitLinesStep(s, |line|, |line| + 1);
    assert s[|line| + 1..] == rest;
  }
}
