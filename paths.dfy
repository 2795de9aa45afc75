/**
 * Paths as pathlib's PurePosixPath sees them: the sequence of their parts. An
 * absolute path starts with the empty part, so `/home/a.txt` is `["", "home", "a.txt"]`.
 * `str(p)` joins the parts with '/', `Path(s)` splits a string on '/'.
 */
module Paths {
  import opened Wrappers
  import opened Text

  type Path = seq<string>

  /** `str(p)`. */
  function ToText(p: Path): string {
    Join(p, '/')
  }

  /** `Path(s)`, without pathlib's folding of repeated separators and "." parts. */
  function FromText(s: string): (p: Path)
    ensures |p| >= 1
  {
    Split(s, '/')
  }

  /** A path none of whose parts holds a separator; every path pathlib hands out is one. */
  predicate WellFormed(p: Path) {
    |p| >= 1 && forall k :: 0 <= k < |p| ==> '/' !in p[k]
  }

  /** `Path(str(p)) == p`: a path written into the undo log reads back as the same path. */
  lemma TextRoundTrip(p: Path)
    requires WellFormed(p)
    ensures FromText(ToText(p)) == p
  {
    SplitJoin(p, '/');
  }

  /** `str(Path(s)) == s`: the text of the log is reproduced unchanged. */
  lemma PathRoundTrip(s: string)
    ensures ToText(FromText(s)) == s
  {
    JoinSplit(s, '/');
  }

  /** `p.name`. */
  function Name(p: Path): string {
    if p == [] then "" else p[|p| - 1]
  }

  /** `p.parent`. */
  function Parent(p: Path): (q: Path)
    ensures p != [] ==> p == q + [Name(p)]
  {
    if p == [] then [] else p[..|p| - 1]
  }

  /** `p / rel` for a relative path written with '/' separators. */
  function Under(p: Path, rel: string): (q: Path)
    ensures p < q
  {
    p + Split(rel, '/')
  }

  /** The index of the last '.' in `s`, as `str.rfind('.')` reports it. */
  function LastDot(s: string): (r: Option<nat>)
    ensures r.Some? ==> r.value < |s| && s[r.value] == '.' && '.' !in s[r.value + 1..]
    ensures r.None? ==> '.' !in s
  {
    if s == [] then None
    else if s[|s| - 1] == '.' then Some(|s| - 1)
    else
      var r := LastDot(s[..|s| - 1]);
      assert r.Some? ==> s[r.value + 1..] == s[..|s| - 1][r.value + 1..] + [s[|s| - 1]];
      assert r.None? ==> s == s[..|s| - 1] + [s[|s| - 1]];
      r
  }

  /** Where pathlib cuts a file name into stem and suffix: at its last dot, unless that dot is the first or the last character. */
  function SuffixStart(name: string): (r: Option<nat>)
    ensures r.Some? ==> 0 < r.value < |name| - 1 && name[r.value] == '.'
  {
    match LastDot(name)
    case Some(i) => if 0 < i < |name| - 1 then Some(i) else None
    case None => None
  }

  /** `Path(name).suffix`. */
  function Suffix(name: string): string {
    match SuffixStart(name)
    case Some(i) => name[i..]
    case None => ""
  }

  /** `Path(name).stem`. */
  function Stem(name: string): string {
    match SuffixStart(name)
    case Some(i) => name[..i]
    case None => name
  }

  /** A name is its stem followed by its suffix. */
  lemma StemSuffix(name: string)
    ensures Stem(name) + Suffix(name) == name
  {
  }
}
