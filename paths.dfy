/** pathlib paths as the sequence of their components. */
module Paths {
  /** A filesystem path; an absolute path starts with the empty component. */
  datatype Path = Path(parts: seq<string>)

  /** pathlib's `dir / name` for a name that is a single component. */
  function Join(dir: Path, name: string): Path
  {
    Path(dir.parts + [name])
  }

  /** The directory holding a path (pathlib's `.parent`). */
  function Parent(p: Path): Path
    requires |p.parts| > 0
  {
    Path(p.parts[..|p.parts| - 1])
  }

  /** The last component of a path (pathlib's `.name`). */
  function Name(p: Path): string
    requires |p.parts| > 0
  {
    p.parts[|p.parts| - 1]
  }

  /** Joining is undone by `Parent` and `Name`, so it never loses information. */
  lemma JoinSplits(dir: Path, name: string)
    ensures |Join(dir, name).parts| == |dir.parts| + 1
    ensures Parent(Join(dir, name)) == dir && Name(Join(dir, name)) == name
  {
    assert Join(dir, name).parts[..|dir.parts|] == dir.parts;
  }

  /** Two joins give the same path only for the same directory and the same name. */
  lemma JoinInjective(d1: Path, n1: string, d2: Path, n2: string)
    ensures Join(d1, n1) == Join(d2, n2) <==> d1 == d2 && n1 == n2
  {
    if Join(d1, n1) == Join(d2, n2) {
      JoinSplits(d1, n1);
      JoinSplits(d2, n2);
    }
  }

  /** `str(path)`: the components separated by `/`, `.` for the empty path and `/` for the root. */
  function ToText(p: Path): string
  {
    if |p.parts| == 0 then "." else if p.parts == [""] then "/" else JoinParts(p.parts)
  }

  /** The components of a non-empty path separated by `/`. */
  function JoinParts(parts: seq<string>): string
    requires |parts| > 0
    decreases |parts|
  {
    if |parts| == 1 then parts[0] else JoinParts(parts[..|parts| - 1]) + "/" + parts[|parts| - 1]
  }
}
