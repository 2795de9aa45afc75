/**
 * The string operations the organizer relies on, stated as Python performs them:
 * `str.lower` (on ASCII letters), the `in` substring test, `str.split` with a
 * separator, `str.strip`, `"/".join` and the decimal rendering of an integer.
 */
module Text {
  import opened Wrappers

  // ---------------------------------------------------------------------------
  // Lower-casing

  /** Python's `str.lower` on one character, restricted to ASCII letters. */
  function LowerChar(c: char): char {
    if 'A' <= c <= 'Z' then (c as int + 32) as char else c
  }

  function Lower(s: string): (r: string)
    ensures |r| == |s|
    ensures forall i :: 0 <= i < |s| ==> r[i] == LowerChar(s[i])
  {
    if s == [] then [] else [LowerChar(s[0])] + Lower(s[1..])
  }

  /** No ASCII capital occurs in `s`. */
  predicate IsLower(s: string) {
    forall i :: 0 <= i < |s| ==> !('A' <= s[i] <= 'Z')
  }

  lemma LowerOfLower(s: string)
    requires IsLower(s)
    ensures Lower(s) == s
  {
    assert forall i :: 0 <= i < |s| ==> Lower(s)[i] == s[i];
  }

  lemma LowerIsLower(s: string)
    ensures IsLower(Lower(s))
  {
  }

  // ---------------------------------------------------------------------------
  // Substrings

  /** `pat` occurs in `s` starting at index `i`. */
  predicate OccursAt(s: string, pat: string, i: int) {
    0 <= i && i + |pat| <= |s| && s[i..i + |pat|] == pat
  }

  /** Python's `pat in s` for two strings. */
  predicate Contains(s: string, pat: string) {
    exists i | 0 <= i <= |s| - |pat| :: OccursAt(s, pat, i)
  }

  /** The first occurrence of `pat` in `s` at or after `from`. */
  function FindFrom(s: string, pat: string, from: nat): (r: Option<nat>)
    decreases |s| - from
    ensures r.Some? ==> from <= r.value && OccursAt(s, pat, r.value)
    ensures r.Some? ==> forall j :: from <= j < r.value ==> !OccursAt(s, pat, j)
    ensures r.None? ==> forall j :: from <= j ==> !OccursAt(s, pat, j)
  {
    if from + |pat| > |s| then None
    else if s[from..from + |pat|] == pat then Some(from)
    else FindFrom(s, pat, from + 1)
  }

  /** Python's `s.find(pat)`: the leftmost occurrence, if any. */
  function Find(s: string, pat: string): (r: Option<nat>)
    ensures r.Some? <==> Contains(s, pat)
    ensures r.Some? ==> OccursAt(s, pat, r.value)
    ensures r.Some? ==> forall j :: 0 <= j < r.value ==> !OccursAt(s, pat, j)
  {
    FindFrom(s, pat, 0)
  }

  /** Searching `a + b` from `|a| + j` is searching `b` from `j`, `|a|` characters further on. */
  lemma {:induction false} FindFromShift(a: string, b: string, pat: string, j: nat)
    ensures FindFrom(b, pat, j).None? <==> FindFrom(a + b, pat, |a| + j).None?
    ensures FindFrom(b, pat, j).Some? ==> FindFrom(a + b, pat, |a| + j).value == |a| + FindFrom(b, pat, j).value
    decreases |b| - j
  {
    if j + |pat| <= |b| {
      assert (a + b)[|a| + j..|a| + j + |pat|] == b[j..j + |pat|];
      FindFromShift(a, b, pat, j + 1);
    }
  }

  /** An occurrence found in `a` from `j` is the one found in `a + b` from `j`. */
  lemma {:induction false} FindFromPrefix(a: string, b: string, pat: string, j: nat)
    requires FindFrom(a, pat, j).Some?
    ensures FindFrom(a + b, pat, j) == FindFrom(a, pat, j)
    decreases |a| - j
  {
    assert (a + b)[j..j + |pat|] == a[j..j + |pat|];
    if a[j..j + |pat|] != pat {
      FindFromPrefix(a, b, pat, j + 1);
    }
  }

  /** Searching `s` from `k` is searching the suffix `s[k..]` from its start. */
  lemma FindInSuffix(s: string, pat: string, k: nat)
    requires k <= |s|
    ensures Find(s[k..], pat).None? <==> FindFrom(s, pat, k).None?
    ensures Find(s[k..], pat).Some? ==> FindFrom(s, pat, k).value == k + Find(s[k..], pat).value
  {
    var a, b := s[..k], s[k..];
    assert a + b == s && |a| == k;
    FindFromShift(a, b, pat, 0);
    assert Find(b, pat) == FindFrom(b, pat, 0);
  }

  /** Searching `a + b` from the end of `a` is searching `b` from its start. */
  lemma FindFromJoin(a: string, b: string, pat: string)
    ensures FindFrom(b, pat, 0).None? <==> FindFrom(a + b, pat, |a|).None?
    ensures FindFrom(b, pat, 0).Some? ==> FindFrom(a + b, pat, |a|).value == |a| + FindFrom(b, pat, 0).value
  {
    FindFromShift(a, b, pat, 0);
  }

  /** The first occurrence of `pat` in `a` stays the first one when text is appended. */
  lemma FindInPrefix(a: string, b: string, pat: string)
    requires Find(a, pat).Some?
    ensures Find(a + b, pat) == Find(a, pat)
  {
    FindFromPrefix(a, b, pat, 0);
  }

  /** A text whose first occurrence of `pat` is the one appended to it holds none. */
  lemma FirstAtEnd(body: string, pat: string)
    requires |pat| > 0 && Find(body + pat, pat) == Some(|body|)
    ensures Find(body, pat).None?
  {
    if Find(body, pat).Some? {
      FindInPrefix(body, pat, pat);
    }
  }

  /** `s.split(pat)[0]`: the text before the first occurrence of `pat`, or all of `s`. */
  function Before(s: string, pat: string): (r: string)
    requires |pat| > 0
    ensures r <= s
    ensures !Contains(r, pat)
    ensures Contains(s, pat) ==> OccursAt(s, pat, |r|)
    ensures forall j :: 0 <= j < |r| ==> !OccursAt(s, pat, j)
    ensures !Contains(s, pat) ==> r == s
  {
    match Find(s, pat)
    case None => s
    case Some(i) =>
      var r := s[..i];
      assert forall j :: OccursAt(r, pat, j) ==> OccursAt(s, pat, j) by {
        forall j | OccursAt(r, pat, j) ensures OccursAt(s, pat, j) {
          assert s[j..j + |pat|] == r[j..j + |pat|];
        }
      }
      r
  }

  /** The text after the first occurrence of `pat`. */
  function After(s: string, pat: string): (r: string)
    requires Contains(s, pat)
    ensures |r| + |pat| <= |s| && r == s[|s| - |r|..]
    ensures OccursAt(s, pat, |s| - |r| - |pat|)
    ensures forall j :: 0 <= j < |s| - |r| - |pat| ==> !OccursAt(s, pat, j)
  {
    var i := Find(s, pat).value;
    s[i + |pat|..]
  }

  /**
   * `s.split(pat)[1]` when `pat` occurs in `s`: the text from the end of the
   * first occurrence to the start of the next one that does not overlap it,
   * or to the end.
   */
  function SecondPiece(s: string, pat: string): (r: string)
    requires |pat| > 0 && Contains(s, pat)
    ensures !Contains(r, pat)
    ensures var start := Find(s, pat).value + |pat|;
      start <= |s| && r == s[start..FindFrom(s, pat, start).GetOr(|s|)]
  {
    var start := Find(s, pat).value + |pat|;
    var rest := s[start..];
    assert After(s, pat) == rest;
    FindInSuffix(s, pat, start);
    var r := Before(rest, pat);
    assert r == rest[..Find(rest, pat).GetOr(|rest|)];
    r
  }

  /** A string without the first character of `pat` holds no occurrence of `pat`. */
  lemma NoFirstCharNoOccurrence(s: string, pat: string)
    requires |pat| > 0 && pat[0] !in s
    ensures !Contains(s, pat)
  {
    forall i | 0 <= i <= |s| - |pat| ensures !OccursAt(s, pat, i) {
      assert s[i..i + |pat|][0] == s[i];
    }
  }

  /** When the first character of `pat` does not occur in `a`, the first occurrence of `pat` in `a + pat + rest` is the one right after `a`. */
  lemma FindAfterPrefix(a: string, pat: string, rest: string)
    requires |pat| > 0 && pat[0] !in a
    ensures Find(a + pat + rest, pat) == Some(|a|)
  {
    var s := a + pat + rest;
    assert OccursAt(s, pat, |a|) by { assert s[|a|..|a| + |pat|] == pat; }
  }

  lemma BeforeAfterPrefix(a: string, pat: string, rest: string)
    requires |pat| > 0 && pat[0] !in a
    ensures Before(a + pat + rest, pat) == a
    ensures After(a + pat + rest, pat) == rest
  {
    FindAfterPrefix(a, pat, rest);
    var s := a + pat + rest;
    assert s[..|a|] == a;
    assert s[|a| + |pat|..] == rest;
  }

  /** Text without `pat` is left whole by `Before`. */
  lemma BeforeAbsent(s: string, pat: string)
    requires |pat| > 0 && !Contains(s, pat)
    ensures Before(s, pat) == s
  {
  }

  // ---------------------------------------------------------------------------
  // Whitespace

  /** Python's `str.isspace` on a single character. */
  predicate IsSpace(c: char) {
    var n := c as int;
    (0x09 <= n <= 0x0d) || (0x1c <= n <= 0x20) || n == 0x85 || n == 0xa0 || n == 0x1680
    || (0x2000 <= n <= 0x200a) || n == 0x2028 || n == 0x2029 || n == 0x202f || n == 0x205f
    || n == 0x3000
  }

  /** A string of white space only. */

  /** The first index at or after `i` that does not hold whitespace, or `|s|`. */
  function SkipSpaces(s: string, i: nat): (a: nat)
    requires i <= |s|
    decreases |s| - i
    ensures i <= a <= |s| && (a == |s| || !IsSpace(s[a]))
    ensures forall k :: i <= k < a ==> IsSpace(s[k])
  {
    if i < |s| && IsSpace(s[i]) then SkipSpaces(s, i + 1) else i
  }

  /** The least `b <= j` such that `s[b..j]` is all whitespace. */
  function SkipSpacesBack(s: string, j: nat): (b: nat)
    requires j <= |s|
    ensures b <= j && (b == 0 || !IsSpace(s[b - 1]))
    ensures forall k :: b <= k < j ==> IsSpace(s[k])
  {
    if j > 0 && IsSpace(s[j - 1]) then SkipSpacesBack(s, j - 1) else j
  }

  /**
   * Python's `str.strip()`: the slice of `s` left once the whitespace at
   * both ends is dropped, and nothing else.
   */
  function Strip(s: string): (r: string)
    ensures r == [] || (!IsSpace(r[0]) && !IsSpace(r[|r| - 1]))
    ensures var a := SkipSpaces(s, 0);
      a + |r| <= |s| && r == s[a..a + |r|] &&
      (forall i :: 0 <= i < a ==> IsSpace(s[i])) &&
      (forall i :: a + |r| <= i < |s| ==> IsSpace(s[i]))
  {
    var a := SkipSpaces(s, 0);
    var b := SkipSpacesBack(s, |s|);
    if b <= a then [] else s[a..b]
  }

  // ---------------------------------------------------------------------------
  // Splitting on one character and joining

  function FirstIndex(s: string, c: char): (i: nat)
    requires c in s
    ensures i < |s| && s[i] == c && c !in s[..i]
  {
    if s[0] == c then 0
    else
      assert c in s[1..] by { var k :| 0 <= k < |s| && s[k] == c; assert s[1..][k - 1] == c; }
      var j := FirstIndex(s[1..], c);
      assert s[..j + 1] == [s[0]] + s[1..][..j];
      j + 1
  }

  /** `s.split(c)`: the pieces between occurrences of `c`, empty pieces included. */
  function Split(s: string, c: char): (r: seq<string>)
    ensures |r| >= 1
    ensures forall k :: 0 <= k < |r| ==> c !in r[k]
    decreases |s|
  {
    if c !in s then [s]
    else
      var i := FirstIndex(s, c);
      [s[..i]] + Split(s[i + 1..], c)
  }

  /** `c.join(parts)`. */
  function Join(parts: seq<string>, c: char): string
    decreases |parts|
  {
    if |parts| == 0 then ""
    else if |parts| == 1 then parts[0]
    else parts[0] + [c] + Join(parts[1..], c)
  }

  lemma {:induction false} FirstIndexAfter(p: string, t: string, c: char)
    requires c !in p
    ensures FirstIndex(p + [c] + t, c) == |p|
    decreases |p|
  {
    if p != [] {
      assert (p + [c] + t)[1..] == p[1..] + [c] + t;
      FirstIndexAfter(p[1..], t, c);
    }
  }

  /** Splitting a joined sequence returns the pieces, provided none of them holds `c`. */
  lemma {:induction false} SplitJoin(parts: seq<string>, c: char)
    requires |parts| >= 1
    requires forall k :: 0 <= k < |parts| ==> c !in parts[k]
    ensures Split(Join(parts, c), c) == parts
    decreases |parts|
  {
    if |parts| > 1 {
      var a, rest := parts[0], parts[1..];
      var s, t := Join(parts, c), Join(rest, c);
      assert s == a + [c] + t;
      assert s[|a|] == c;
      FirstIndexAfter(a, t, c);
      assert s[..|a|] == a && s[|a| + 1..] == t;
      SplitJoin(rest, c);
      calc {
        Split(s, c);
        [s[..|a|]] + Split(s[|a| + 1..], c);
        [a] + Split(t, c);
        [a] + rest;
        parts;
      }
    }
  }

  /** Joining the pieces of a split gives back the string. */
  lemma {:induction false} JoinSplit(s: string, c: char)
    ensures Join(Split(s, c), c) == s
    decreases |s|
  {
    if c in s {
      var i := FirstIndex(s, c);
      var parts, rest := Split(s, c), Split(s[i + 1..], c);
      JoinSplit(s[i + 1..], c);
      assert parts == [s[..i]] + rest && |parts| > 1 && parts[1..] == rest;
      assert Join(parts, c) == s[..i] + [c] + Join(rest, c);
      assert s == s[..i] + [c] + s[i + 1..];
    }
  }

  // ---------------------------------------------------------------------------
  // Decimal numerals

  function DigitChar(d: nat): (c: char)
    requires d < 10
    ensures '0' <= c <= '9'
  {
    ('0' as int + d) as char
  }

  predicate AllDigits(s: string) {
    forall i :: 0 <= i < |s| ==> '0' <= s[i] <= '9'
  }

  /** Python's `f"{n}"` for a natural number. */
  function Decimal(n: nat): (r: string)
    ensures |r| >= 1 && AllDigits(r)
    ensures n == 0 ==> r == "0"
    ensures n > 0 ==> r[0] != '0'
  {
    if n < 10 then [DigitChar(n)] else Decimal(n / 10) + [DigitChar(n % 10)]
  }

  /** The value of a string of decimal digits. */
  function DecimalValue(s: string): nat
    requires AllDigits(s)
  {
    if s == [] then 0 else 10 * DecimalValue(s[..|s| - 1]) + (s[|s| - 1] as int - '0' as int)
  }

  lemma {:induction false} DecimalRoundTrip(n: nat)
    ensures DecimalValue(Decimal(n)) == n
  {
    if n >= 10 {
      DecimalRoundTrip(n / 10);
      var s := Decimal(n);
      assert s[..|s| - 1] == Decimal(n / 10);
    }
  }

  /** Distinct numbers render as distinct numerals. */
  lemma DecimalInjective(m: nat, n: nat)
    requires Decimal(m) == Decimal(n)
    ensures m == n
  {
    DecimalRoundTrip(m);
    DecimalRoundTrip(n);
  }
}
