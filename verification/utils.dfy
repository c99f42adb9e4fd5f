/** File helpers and the confirmation prompt of src/utils.rs (the same `confirm`
    also appears in src/main.rs), plus the `std::fs` calls the task bodies make
    directly (`create_dir_all`, `copy`, `current_exe`). All work on the abstract
    file system of a `World`. */
module Utils {
  import opened Results
  import opened Text
  import opened Errors
  import opened Paths
  import opened Machine

  const NotFound := "No such file or directory (os error 2)"
  const IsADirectory := "Is a directory (os error 21)"
  const AlreadyExists := "File exists (os error 17)"

  /** `exists`: joins the parts into a path and returns it when it names an
      existing non-directory, failing with `InvalidFile(path)` otherwise. */
  function Exists(fs: FileSystem, parts: seq<string>): (r: Result<Path, InstallError>)
    ensures r.Ok? <==> IsFile(fs, Join(parts))
    ensures r.Ok? ==> r.value == Join(parts)
    ensures r.Err? ==> r.error == InvalidFile(Join(parts))
  {
    var p := Join(parts);
    if IsFile(fs, p) then Ok(p) else Err(InvalidFile(p))
  }

  /** `append_to_file`: opens an existing file for appending (never creates
      one) and writes the bytes of `s` after its contents. */
  function AppendToFile(path: Path, s: string, w: World): (r: Step<()>)
    ensures r.result.Ok? <==> IsFile(w.fs, path)
    ensures r.result.Ok? ==> r.world.fs == w.fs[path := File(w.fs[path].data + Utf8(s))]
    ensures r.result.Err? ==> r.world.fs == w.fs && r.result.error.IoError?
    ensures r.world.trace == w.trace && r.world.env == w.env && r.world.exe == w.exe
  {
    var w1 := LogNote(w, "appending " + s + " to " + Quoted(path));
    if path !in w1.fs then Fail(IoError(Os(NotFound)), w1)
    else if w1.fs[path].Dir? then Fail(IoError(Os(IsADirectory)), w1)
    else
      var w2 := w1.(fs := w1.fs[path := File(w1.fs[path].data + Utf8(s))]);
      Done(LogNote(w2, "successfully appended"))
  }

  /** `set_file` as written: creates or truncates the file and then writes the
      bytes of `s` twice, so the file ends up holding `s + s`. */
  function SetFile(path: Path, s: string, w: World): (r: Step<()>)
    ensures r.result.Ok? <==> !(path in w.fs && w.fs[path].Dir?)
    ensures r.result.Ok? ==> r.world.fs == w.fs[path := File(Utf8(s + s))]
    ensures r.result.Err? ==> r.world.fs == w.fs && r.result.error.IoError?
    ensures r.world.trace == w.trace && r.world.env == w.env && r.world.exe == w.exe
  {
    var w1 := LogNote(w, "setting file " + Quoted(path) + " to " + s);
    if path in w1.fs && w1.fs[path].Dir? then Fail(IoError(Os(IsADirectory)), w1)
    else
      var bytes := Utf8(s);
      var w2 := w1.(fs := w1.fs[path := File(bytes)]);
      var w3 := w2.(fs := w2.fs[path := File(w2.fs[path].data + bytes)]);
      Utf8Concat(s, s);
      Done(LogNote(w3, "successfully set"))
  }

  /** `set_file` as its name and its callers intend: the file holds exactly `s`. */
  function SetFileOnce(path: Path, s: string, w: World): (r: Step<()>)
    ensures r.result.Ok? <==> !(path in w.fs && w.fs[path].Dir?)
    ensures r.result.Ok? ==> r.world.fs == w.fs[path := File(Utf8(s))]
    ensures r.result.Err? ==> r.world.fs == w.fs && r.result.error.IoError?
    ensures r.world.trace == w.trace && r.world.env == w.env && r.world.exe == w.exe
  {
    var w1 := LogNote(w, "setting file " + Quoted(path) + " to " + s);
    if path in w1.fs && w1.fs[path].Dir? then Fail(IoError(Os(IsADirectory)), w1)
    else Done(LogNote(w1.(fs := w1.fs[path := File(Utf8(s))]), "successfully set"))
  }

  /** The doubled write is visible: a file set to `s` reads back as `s + s`,
      which differs from `s` whenever `s` is not empty. */
  lemma SetFileDoubles(path: Path, s: string, w: World)
    requires s != ""
    requires !(path in w.fs && w.fs[path].Dir?)
    ensures SetFile(path, s, w).world.fs[path] != SetFileOnce(path, s, w).world.fs[path]
    ensures |SetFile(path, s, w).world.fs[path].data| == 2 * |Utf8(s)|
  {
    Utf8Concat(s, s);
  }

  /** `confirm`: asks the operator; yes continues, no is a `Decline`, and a
      failed interaction surfaces as an I/O error. */
  function Confirm(question: string, w: World, o: Oracle): (r: Step<()>)
    ensures r.world.trace == w.trace + [Asked(question, o.answer(|w.trace|, question))]
    ensures r.result.Ok? <==> o.answer(|w.trace|, question) == Yes
    ensures r.result == Err(Decline) <==> o.answer(|w.trace|, question) == No
    ensures o.answer(|w.trace|, question).Unanswered? ==>
      r.result == Err(IoError(Os(o.answer(|w.trace|, question).reason)))
    ensures r.world.fs == w.fs && r.world.env == w.env && r.world.out == w.out
  {
    var a := o.answer(|w.trace|, question);
    var w1 := w.(trace := w.trace + [Asked(question, a)]);
    match a
    case Yes => Done(w1)
    case No => Fail(Decline, w1)
    case Unanswered(reason) => Fail(IoError(Os(reason)), w1)
  }

  /** `std::fs::create_dir_all` on the path itself (its ancestors are not
      tracked): fails only when a file is in the way. */
  function CreateDirAll(path: Path, w: World): (r: Step<()>)
    ensures r.result.Ok? <==> !IsFile(w.fs, path)
    ensures r.result.Ok? ==> r.world.fs == w.fs[path := Dir]
    ensures r.result.Err? ==> r.world.fs == w.fs && r.result.error.IoError?
    ensures r.world.trace == w.trace && r.world.env == w.env && r.world.out == w.out
  {
    if IsFile(w.fs, path) then Fail(IoError(Os(AlreadyExists)), w)
    else Done(w.(fs := w.fs[path := Dir]))
  }

  /** `std::fs::copy`: the source must be an existing file and the destination
      must not be a directory; the destination then holds the source's bytes. */
  function Copy(from: Path, to: Path, w: World): (r: Step<()>)
    ensures r.result.Ok? <==> IsFile(w.fs, from) && !(to in w.fs && w.fs[to].Dir?)
    ensures r.result.Ok? ==> r.world.fs == w.fs[to := w.fs[from]]
    ensures r.result.Err? ==> r.world.fs == w.fs && r.result.error.IoError?
    ensures r.world.trace == w.trace && r.world.env == w.env && r.world.out == w.out
  {
    if !IsFile(w.fs, from) then Fail(IoError(Os(NotFound)), w)
    else if to in w.fs && w.fs[to].Dir? then Fail(IoError(Os(IsADirectory)), w)
    else Done(w.(fs := w.fs[to := w.fs[from]]))
  }

  /** `copy(&std::env::current_exe()?, to)`: copies the running binary. */
  function CopyExe(to: Path, w: World): (r: Step<()>)
    ensures r.result.Ok? <==> w.exe.Some? && IsFile(w.fs, w.exe.value) && !(to in w.fs && w.fs[to].Dir?)
    ensures r.result.Ok? ==> r.world.fs == w.fs[to := w.fs[w.exe.value]]
    ensures r.result.Err? ==> r.world.fs == w.fs && r.result.error.IoError?
    ensures r.world.trace == w.trace && r.world.env == w.env && r.world.out == w.out
  {
    match w.exe
    case None => Fail(IoError(Os("cannot determine the current executable")), w)
    case Some(e) => Copy(e, to, w)
  }
}
