/** Unix path building and the final-component query, as Rust's `PathBuf::push`,
    `collect::<PathBuf>()` and `Path::file_name` behave on Unix. Paths are plain
    strings; no normalisation beyond what those operations do is modelled. */
module Paths {
  import opened Results

  type Path = string

  predicate IsAbsolute(p: Path) {
    |p| > 0 && p[0] == '/'
  }

  /** `PathBuf::push`: an absolute component replaces the whole path; otherwise
      a separator is inserted unless the path is empty or already ends in one. */
  function Push(base: Path, component: string): (r: Path)
    ensures IsAbsolute(component) ==> r == component
    ensures !IsAbsolute(component) ==> base <= r && |component| <= |r| && r[|r| - |component|..] == component
  {
    if IsAbsolute(component) then component
    else if |base| == 0 || base[|base| - 1] == '/' then base + component
    else base + "/" + component
  }

  /** `[a, b, ...].iter().collect::<PathBuf>()`: pushes the parts in order onto
      an empty path. */
  function Join(parts: seq<string>): (r: Path)
    ensures |parts| == 0 ==> r == ""
  {
    if |parts| == 0 then "" else Push(Join(parts[..|parts| - 1]), parts[|parts| - 1])
  }

  /** Position of the last `/` in `p`, if any. */
  function LastSlash(p: Path): (r: Option<nat>)
    ensures r.Some? ==> r.value < |p| && p[r.value] == '/'
    ensures r.Some? ==> forall j :: r.value < j < |p| ==> p[j] != '/'
    ensures r.None? ==> forall j :: 0 <= j < |p| ==> p[j] != '/'
  {
    if |p| == 0 then None
    else if p[|p| - 1] == '/' then Some(|p| - 1)
    else LastSlash(p[..|p| - 1])
  }

  /** `Path::file_name`: the last component, skipping empty and `.` components
      (trailing or repeated separators), and none for a path ending in `..`, for
      the root and for the empty path. */
  function FileName(p: Path): (r: Option<string>)
    ensures r.Some? ==> r.value != "" && r.value != "." && r.value != ".."
    ensures r.Some? ==> forall i :: 0 <= i < |r.value| ==> r.value[i] != '/'
    decreases |p|
  {
    match LastSlash(p)
    case None =>
      if p == "" || p == "." || p == ".." then None else Some(p)
    case Some(i) =>
      var last := p[i + 1..];
      if last == "" || last == "." then FileName(p[..i])
      else if last == ".." then None
      else Some(last)
  }

  /** A name that is exactly one normal path component. */
  predicate SingleComponent(name: string) {
    && name != "" && name != "." && name != ".."
    && forall i :: 0 <= i < |name| ==> name[i] != '/'
  }

  /** Pushing one normal component onto a directory and taking the file name
      gives the component back. */
  lemma FileNameOfPush(dir: Path, name: string)
    requires SingleComponent(name)
    ensures FileName(Push(dir, name)) == Some(name)
  {
    var p := Push(dir, name);
    assert !IsAbsolute(name);
    assert p[|p| - |name|..] == name;
    var k := |p| - |name|;
    assert forall j :: k <= j < |p| ==> p[j] == name[j - k];
    if |dir| == 0 {
      assert p == name;
      assert LastSlash(p).None?;
    } else {
      assert p[k - 1] == '/';
      match LastSlash(p)
      case None =>
        assert false;
      case Some(i) =>
        assert i == k - 1;
        assert p[i + 1..] == name;
    }
  }

  /** Collecting a directory and a relative name puts one separator between
      them. */
  lemma JoinPair(dir: Path, name: string)
    requires IsAbsolute(dir) && dir[|dir| - 1] != '/' && !IsAbsolute(name)
    ensures Join([dir, name]) == dir + "/" + name
  {
    assert [dir, name][..1] == [dir];
    assert [dir][..0] == [];
  }

  /** Collecting a directory, a normal component and a relative rest puts one
      separator between each. */
  lemma JoinTriple(dir: Path, name: string, rest: string)
    requires IsAbsolute(dir) && dir[|dir| - 1] != '/' && SingleComponent(name) && !IsAbsolute(rest)
    ensures Join([dir, name, rest]) == dir + "/" + name + "/" + rest
  {
    var parts := [dir, name, rest];
    assert parts[..2] == [dir, name];
    JoinPair(dir, name);
    var p := Join([dir, name]);
    assert p[|p| - 1] == name[|name| - 1];
    assert Join(parts) == Push(p, rest);
  }
}
