/**
 * Character classes and string operations of Python that the script relies on:
 * the `\w` and `\d` classes of `re` (restricted to ASCII), case-insensitive
 * comparison as `re.IGNORECASE` does it for ASCII letters, decimal digits,
 * and `str.split` with a separator.
 */
module Text {
  import opened Wrappers

  /** `\w`: an ASCII letter, digit or underscore. */
  predicate IsWordChar(c: char) {
    'a' <= c <= 'z' || 'A' <= c <= 'Z' || '0' <= c <= '9' || c == '_'
  }

  /** `\d`: an ASCII digit. */
  predicate IsDigit(c: char) {
    '0' <= c <= '9'
  }

  predicate AllWordChars(s: string) {
    forall i :: 0 <= i < |s| ==> IsWordChar(s[i])
  }

  predicate AllDigits(s: string) {
    forall i :: 0 <= i < |s| ==> IsDigit(s[i])
  }

  /** Printable ASCII, from the space to the tilde. */
  predicate Printable(s: string) {
    forall i :: 0 <= i < |s| ==> ' ' <= s[i] <= '~'
  }

  /** Every character of `s` in [i, j) is a word character. */
  predicate WordCharsIn(s: string, i: int, j: int)
    requires 0 <= i <= j <= |s|
  {
    forall k :: i <= k < j ==> IsWordChar(s[k])
  }

  /** Every character of `s` in [i, j) is a digit. */
  predicate DigitsIn(s: string, i: int, j: int)
    requires 0 <= i <= j <= |s|
  {
    forall k :: i <= k < j ==> IsDigit(s[k])
  }

  /**
   * The length of the run of word characters that starts at index `i`:
   * what a greedy `\w+` takes there.
   */
  function WordRunFrom(s: string, i: nat): (n: nat)
    requires i <= |s|
    ensures i + n <= |s| && WordCharsIn(s, i, i + n)
    ensures i + n < |s| ==> !IsWordChar(s[i + n])
    decreases |s| - i
  {
    if i < |s| && IsWordChar(s[i]) then 1 + WordRunFrom(s, i + 1) else 0
  }

  /** The run of word characters is determined by where it stops. */
  lemma WordRunFromIs(s: string, i: nat, n: nat)
    requires i + n <= |s| && WordCharsIn(s, i, i + n)
    requires i + n == |s| || !IsWordChar(s[i + n])
    ensures WordRunFrom(s, i) == n
  {
  }

  /** A greedy `\w+` takes at least every word character in front of it. */
  lemma WordRunFromAtLeast(s: string, i: nat, k: nat)
    requires i + k <= |s| && WordCharsIn(s, i, i + k)
    ensures WordRunFrom(s, i) >= k
  {
  }

  /** The run of word characters at `i` depends only on the text from `i` on. */
  lemma {:induction false} WordRunFromSuffix(s: string, t: string, i: nat)
    requires i <= |s| && i <= |t| && s[i..] == t[i..]
    ensures WordRunFrom(s, i) == WordRunFrom(t, i)
    decreases |s| - i
  {
    if i < |s| {
      assert s[i] == s[i..][0] == t[i..][0] == t[i];
      assert s[i + 1..] == s[i..][1..] == t[i..][1..] == t[i + 1..];
      WordRunFromSuffix(s, t, i + 1);
    }
  }

  /** The decimal value of a string of digits. */
  function DigitsValue(s: string): (v: nat)
    requires AllDigits(s)
    ensures |s| == 1 ==> v == s[0] as int - '0' as int
  {
    if s == [] then 0 else DigitsValue(s[..|s| - 1]) * 10 + (s[|s| - 1] as int - '0' as int)
  }

  /** `%02d`: a number below 100 written with exactly two digits. */
  function TwoDigits(n: nat): (r: string)
    requires n < 100
    ensures |r| == 2 && AllDigits(r) && DigitsValue(r) == n
  {
    var r := [(n / 10 + '0' as int) as char, (n % 10 + '0' as int) as char];
    assert r[..1] == [r[0]];
    r
  }

  /** ASCII lower-casing. */
  function Lower(c: char): char {
    if 'A' <= c <= 'Z' then (c as int + 32) as char else c
  }

  /** Equality up to the case of ASCII letters, as `re.IGNORECASE` compares them. */
  predicate SameIgnoringCase(a: string, b: string) {
    |a| == |b| && forall i :: 0 <= i < |a| ==> Lower(a[i]) == Lower(b[i])
  }

  /** The first index at or after `k` whose table entry equals `s` up to case. */
  function IndexIgnoringCase(s: string, table: seq<string>, k: nat): (r: Option<nat>)
    decreases |table| - k
    ensures r.Some? ==> k <= r.value < |table| && SameIgnoringCase(s, table[r.value])
    ensures r.Some? ==> forall j :: k <= j < r.value ==> !SameIgnoringCase(s, table[j])
    ensures r.None? ==> forall j :: k <= j < |table| ==> !SameIgnoringCase(s, table[j])
  {
    if k >= |table| then None
    else if SameIgnoringCase(s, table[k]) then Some(k)
    else IndexIgnoringCase(s, table, k + 1)
  }

  /** `sep` occurs in `s` starting at index `i`. */
  predicate OccursAt(s: string, sep: string, i: int) {
    0 <= i && i + |sep| <= |s| && s[i..i + |sep|] == sep
  }

  lemma OccursAtShift(s: string, sep: string, k: nat, j: int)
    requires k <= |s| && 0 <= j
    ensures OccursAt(s[k..], sep, j) <==> OccursAt(s, sep, k + j)
  {
    if 0 <= j && j + |sep| <= |s| - k {
      assert s[k..][j..j + |sep|] == s[k + j..k + j + |sep|];
    }
  }

  /** `str.find`: the first index where `sep` occurs, or None when it does not occur. */
  function Find(s: string, sep: string): (r: Option<nat>)
    ensures r.Some? ==> OccursAt(s, sep, r.value)
    ensures r.Some? ==> forall j :: 0 <= j < r.value ==> !OccursAt(s, sep, j)
    ensures r.None? ==> forall j :: !OccursAt(s, sep, j)
    decreases |s|
  {
    if |s| < |sep| then None
    else if s[..|sep|] == sep then Some(0)
    else
      var rest := Find(s[1..], sep);
      assert forall j :: 0 <= j ==> (OccursAt(s[1..], sep, j) <==> OccursAt(s, sep, 1 + j)) by {
        forall j | 0 <= j ensures OccursAt(s[1..], sep, j) <==> OccursAt(s, sep, 1 + j) {
          OccursAtShift(s, sep, 1, j);
        }
      }
      assert forall j :: OccursAt(s, sep, j) ==> j == 0 || OccursAt(s[1..], sep, j - 1) by {
        forall j | OccursAt(s, sep, j) && j > 0 ensures OccursAt(s[1..], sep, j - 1) {
          OccursAtShift(s, sep, 1, j - 1);
        }
      }
      match rest
      case None => None
      case Some(i) => Some(i + 1)
  }

  /**
   * `str.split(sep)`: the pieces between the occurrences of `sep` found by
   * scanning from the left, each occurrence consumed before the search goes on.
   */
  function Split(s: string, sep: string): (parts: seq<string>)
    requires sep != []
    ensures |parts| >= 1
    ensures Join(parts, sep) == s
    decreases |s|
  {
    match Find(s, sep)
    case None => [s]
    case Some(i) =>
      var rest := Split(s[i + |sep|..], sep);
      JoinAround(s, sep, i, rest);
      [s[..i]] + rest
  }

  /** The first part of a split is the text before the first occurrence of the separator. */
  lemma SplitFirstPart(s: string, sep: string)
    requires sep != [] && Find(s, sep).Some?
    ensures Find(s, sep) == Some(|Split(s, sep)[0]|)
    ensures Split(s, sep)[0] == s[..Find(s, sep).value]
  {
  }

  /** No part of a split contains the separator. */
  lemma {:induction false} SplitPartsLackSeparator(s: string, sep: string, k: nat, j: int)
    requires sep != [] && k < |Split(s, sep)|
    ensures !OccursAt(Split(s, sep)[k], sep, j)
    decreases |s|
  {
    match Find(s, sep)
    case None =>
    case Some(i) =>
      var rest := s[i + |sep|..];
      assert Split(s, sep) == [s[..i]] + Split(rest, sep);
      if k == 0 {
        if OccursAt(s[..i], sep, j) {
          assert s[..i][j..j + |sep|] == s[j..j + |sep|];
          assert OccursAt(s, sep, j);
        }
      } else {
        SplitPartsLackSeparator(rest, sep, k - 1, j);
      }
  }

  /** `sep.join(parts)`. */
  function Join(parts: seq<string>, sep: string): string {
    if |parts| == 0 then ""
    else if |parts| == 1 then parts[0]
    else parts[0] + sep + Join(parts[1..], sep)
  }

  lemma JoinCons(p: string, rest: seq<string>, sep: string)
    requires |rest| >= 1
    ensures Join([p] + rest, sep) == p + sep + Join(rest, sep)
  {
    assert ([p] + rest)[1..] == rest;
  }

  lemma SliceAround(s: string, i: nat, n: nat)
    requires i + n <= |s|
    ensures s == s[..i] + s[i..i + n] + s[i + n..]
  {
  }

  /** Joining the text before an occurrence with the parts of the text after it gives the text. */
  lemma JoinAround(s: string, sep: string, i: nat, restParts: seq<string>)
    requires OccursAt(s, sep, i) && |restParts| >= 1
    requires Join(restParts, sep) == s[i + |sep|..]
    ensures Join([s[..i]] + restParts, sep) == s
  {
    JoinCons(s[..i], restParts, sep);
    SliceAround(s, i, |sep|);
  }

  /**
   * A split gives one part exactly when the separator does not occur, and
   * otherwise one part more than the split of the text after its first occurrence.
   */
  lemma SplitCount(s: string, sep: string)
    requires sep != []
    ensures |Split(s, sep)| == 1 <==> Find(s, sep).None?
    ensures Find(s, sep).Some? ==> |Split(s, sep)| == 1 + |Split(s[Find(s, sep).value + |sep|..], sep)|
  {
    if Find(s, sep).Some? {
      var i := Find(s, sep).value;
      assert Split(s, sep) == [s[..i]] + Split(s[i + |sep|..], sep);
    }
  }

  /** With none found in the rest of the string, there is no occurrence from `i` on. */
  lemma NoneAfterFind(s: string, sep: string, i: nat)
    requires i <= |s| && Find(s[i..], sep).None?
    ensures forall j :: i <= j ==> !OccursAt(s, sep, j)
  {
    forall j | i <= j ensures !OccursAt(s, sep, j) {
      OccursAtShift(s, sep, i, j - i);
    }
  }

  lemma SplitInTwoOnlyIf(s: string, sep: string)
    requires sep != [] && |Split(s, sep)| == 2
    ensures Find(s, sep).Some?
    ensures forall j :: Find(s, sep).value + |sep| <= j ==> !OccursAt(s, sep, j)
  {
    SplitCount(s, sep);
    var i := Find(s, sep).value;
    SplitCount(s[i + |sep|..], sep);
    NoneAfterFind(s, sep, i + |sep|);
  }

  /** The first occurrence is found. */
  lemma FindIs(s: string, sep: string, i: int)
    requires OccursAt(s, sep, i) && forall j :: 0 <= j < i ==> !OccursAt(s, sep, j)
    ensures Find(s, sep) == Some(i)
  {
  }

  /** With no occurrence from `i` on, none is found in the rest of the string. */
  lemma FindNoneAfter(s: string, sep: string, i: nat)
    requires i <= |s| && forall j :: i <= j ==> !OccursAt(s, sep, j)
    ensures Find(s[i..], sep).None?
  {
    var f := Find(s[i..], sep);
    if f.Some? {
      OccursAtShift(s, sep, i, f.value);
    }
  }

  lemma SplitInTwoIf(s: string, sep: string, i: int)
    requires sep != [] && OccursAt(s, sep, i)
    requires forall j :: 0 <= j < i ==> !OccursAt(s, sep, j)
    requires forall j :: i + |sep| <= j ==> !OccursAt(s, sep, j)
    ensures |Split(s, sep)| == 2
  {
    FindIs(s, sep, i);
    FindNoneAfter(s, sep, i + |sep|);
    SplitOnce(s, sep, i);
  }

  /** A split at the separator found at `i`, with none found after it, has two parts. */
  lemma SplitOnce(s: string, sep: string, i: nat)
    requires sep != [] && Find(s, sep) == Some(i)
    requires Find(s[i + |sep|..], sep).None?
    ensures |Split(s, sep)| == 2
  {
    SplitCount(s, sep);
    SplitCount(s[i + |sep|..], sep);
  }

  /** `sep` occurs in `s`, and does not occur again after its first occurrence ends. */
  ghost predicate SplitsInTwo(s: string, sep: string) {
    exists i :: OccursAt(s, sep, i)
      && (forall j :: 0 <= j < i ==> !OccursAt(s, sep, j))
      && (forall j :: i + |sep| <= j ==> !OccursAt(s, sep, j))
  }

  /**
   * `s.split(sep)` has exactly two parts precisely when `sep` occurs in `s`
   * and does not occur again after its first occurrence ends.
   */
  lemma SplitInTwo(s: string, sep: string)
    requires sep != []
    ensures |Split(s, sep)| == 2 <==> SplitsInTwo(s, sep)
  {
    if |Split(s, sep)| == 2 {
      SplitInTwoOnlyIf(s, sep);
      var i := Find(s, sep).value;
      assert OccursAt(s, sep, i);
    }
    forall i | OccursAt(s, sep, i)
        && (forall j :: 0 <= j < i ==> !OccursAt(s, sep, j))
        && (forall j :: i + |sep| <= j ==> !OccursAt(s, sep, j))
      ensures |Split(s, sep)| == 2
    {
      SplitInTwoIf(s, sep, i);
    }
  }
}
