/**
 * The `os.path` functions the file admin relies on, for POSIX paths
 * (`os.sep` is '/', the extension separator is '.').
 */
module PosixPath {
  import opened Text

  function Repeat(c: char, n: nat): (r: string)
    ensures |r| == n && forall i :: 0 <= i < n ==> r[i] == c
  {
    if n == 0 then [] else [c] + Repeat(c, n - 1)
  }

  /** The component loop of `normpath`: drops '' and '.', resolves '..'. */
  function NormComponents(comps: seq<string>, acc: seq<string>, absolute: bool): seq<string>
    decreases |comps|
  {
    if comps == [] then acc
    else
      var c := comps[0];
      if c == "" || c == "." then NormComponents(comps[1..], acc, absolute)
      else if c != ".." || (!absolute && acc == []) || (acc != [] && acc[|acc| - 1] == "..") then
        NormComponents(comps[1..], acc + [c], absolute)
      else if acc != [] then NormComponents(comps[1..], acc[..|acc| - 1], absolute)
      else NormComponents(comps[1..], acc, absolute)
  }

  /** `os.path.normpath(p)`; one or two leading slashes are kept, three or more become one. */
  function NormPath(p: string): (r: string)
    ensures r != ""
  {
    if p == "" then "."
    else
      var slashes := if StartsWith(p, "/") then
                       (if StartsWith(p, "//") && !StartsWith(p, "///") then 2 else 1)
                     else 0;
      var body := Join(NormComponents(Split(p, '/'), [], slashes > 0), "/");
      var r := Repeat('/', slashes) + body;
      if r == "" then "." else r
  }

  /** `os.path.join(a, b)` */
  function JoinPath(a: string, b: string): string
  {
    if StartsWith(b, "/") then b
    else if a == "" || EndsWith(a, "/") then a + b
    else a + "/" + b
  }

  /** `os.path.join(*parts)` */
  function JoinAll(parts: seq<string>): string
    requires |parts| >= 1
  {
    if |parts| == 1 then parts[0] else JoinPath(JoinAll(parts[..|parts| - 1]), parts[|parts| - 1])
  }

  /**
   * `os.path.splitext(p)[1]`: from the last '.' of the last component on,
   * unless every character before that dot in the component is a dot too.
   */
  function Extension(p: string): (r: string)
    ensures r == "" || (r[0] == '.' && EndsWith(p, r) && '/' !in r)
  {
    var sep := RFind(p, '/');
    var dot := RFind(p, '.');
    if dot > sep && exists k :: sep + 1 <= k < dot && p[k] != '.' then
      AfterLast(p, '/', dot);
      assert p[|p| - |p[dot..]|..] == p[dot..];
      p[dot..]
    else ""
  }

  /** What follows the last occurrence of `c` (or the whole string, when there is none) does not hold `c`. */
  lemma AfterLast(p: string, c: char, from: int)
    requires RFind(p, c) < from <= |p| && 0 <= from
    ensures c !in p[from..]
  {
    var last := RFind(p, c);
    forall i | from <= i < |p|
      ensures p[i] != c
    {
      if last >= 0 {
        assert p[i] == p[last + 1..][i - last - 1];
      } else {
        assert p[i] in p;
      }
    }
  }
}
