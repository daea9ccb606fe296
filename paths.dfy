/** The part of Python's `pathlib.PurePosixPath` the core relies on: the
    string form, `relative_to`, `suffix` and `is_absolute`. A path is its
    anchor (absolute or not) and its list of non-empty components. */
module Paths {
  import opened Wrappers
  import opened Strings

  datatype Path = Path(absolute: bool, parts: seq<string>)

  /** What `pathlib` guarantees of a parsed path: no empty, `.` or
      slash-containing component. */
  predicate WellFormed(p: Path) {
    forall i | 0 <= i < |p.parts| :: p.parts[i] != "" && p.parts[i] != "." && '/' !in p.parts[i]
  }

  /** `str(path)`: the anchor, then the components separated by `/`; the
      empty relative path prints as `.`. */
  function ToStr(p: Path): (s: string)
    ensures p.absolute ==> s != "" && s[0] == '/'
    ensures WellFormed(p) ==> s != "" && (s[0] == '/' <==> p.absolute)
  {
    if p.absolute then "/" + Join(p.parts, "/")
    else if p.parts == [] then "."
    else
      JoinHead(p.parts, "/");
      Join(p.parts, "/")
  }

  /** A joined list begins with its first element. */
  lemma {:induction false} JoinHead(parts: seq<string>, sep: string)
    requires parts != []
    ensures StartsWith(Join(parts, sep), parts[0])
  {
    if |parts| > 1 {
      assert Join(parts, sep) == parts[0] + (sep + Join(parts[1..], sep));
    }
  }

  /** `path.relative_to(base)`: defined exactly when `base` is `path` itself
      or one of its ancestors (same anchor, components a prefix); otherwise
      Python raises ValueError. */
  function RelativeTo(p: Path, base: Path): (r: Option<Path>)
    ensures r.Some? <==> p.absolute == base.absolute && |base.parts| <= |p.parts| && p.parts[..|base.parts|] == base.parts
    ensures r.Some? ==> !r.value.absolute && base.parts + r.value.parts == p.parts
  {
    if p.absolute == base.absolute && |base.parts| <= |p.parts| && p.parts[..|base.parts|] == base.parts then
      assert base.parts + p.parts[|base.parts|..] == p.parts;
      Some(Path(false, p.parts[|base.parts|..]))
    else None
  }

  /** Index of the last `c` in `s`, or -1 (Python's `str.rfind`). */
  function LastIndexOf(s: string, c: char): (i: int)
    ensures -1 <= i < |s|
    ensures i >= 0 ==> s[i] == c
    ensures forall j | i < j < |s| :: s[j] != c
  {
    if s == [] then -1
    else if s[|s| - 1] == c then |s| - 1
    else LastIndexOf(s[..|s| - 1], c)
  }

  /** `path.suffix`: the final component's extension, from its last dot, when
      that dot is neither its first nor its last character. */
  function Suffix(p: Path): (s: string)
    ensures s != "" ==> s[0] == '.' && p.parts != [] && EndsWith(p.parts[|p.parts| - 1], s)
    ensures s != "" ==> '.' !in s[1..]
  {
    if p.parts == [] then ""
    else
      var name := p.parts[|p.parts| - 1];
      var i := LastIndexOf(name, '.');
      if 0 < i < |name| - 1 then
        assert forall j | 0 < j < |name[i..]| :: name[i..][j] == name[i + j];
        name[i..]
      else ""
  }
}
