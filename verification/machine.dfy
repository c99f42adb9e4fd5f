/** The state the installer acts on and the outside world it consults.

    The installer is sequential and deterministic once the answers of the
    outside world are fixed, so every effectful operation is a pure function
    from a `World` and an `Oracle` to a `Step`: the operation's result plus the
    world after it. Processes, prompts and chroot hand-offs are not executed;
    the oracle says how each of them ends, indexed by how many external events
    happened before it. */
module Machine {
  import opened Results
  import opened Text
  import opened Errors
  import opened Paths

  /** A file holds bytes; a directory holds nothing the installer reads. */
  datatype Node = File(data: Bytes) | Dir

  type FileSystem = map<Path, Node>

  /** The process environment (`std::env::vars`). */
  type Env = map<string, string>

  /** A program and its arguments, as `duct::cmd!` receives them. */
  datatype Command = Command(program: string, args: seq<string>)

  /** How the runner consumes a child's output: line by line with stderr merged
      into stdout (`reader`), buffered with stderr merged (`read`), or only
      stdout buffered (`stdout_capture().run()`). */
  datatype Mode = Streaming | Capturing | CapturingStdout

  /** One process start: the command, the environment copied into it, the bytes
      fed to its stdin, and the output mode. */
  datatype Spawn = Spawn(cmd: Command, env: Env, stdin: Option<Bytes>, mode: Mode)

  /** One read from a child's merged output: a line, or a read error. */
  datatype ReadItem = Line(text: string) | Fault(fault: IoFault)

  /** How a spawned process ended: it could not be started, or it exited with
      a status, its merged output (in order) and its stdout bytes. */
  datatype Reply =
    | SpawnFailed(reason: string)
    | Exited(code: int, merged: seq<ReadItem>, stdout: Bytes)

  /** The operator's answer to a yes/no question, or a failed interaction. */
  datatype Answer = Yes | No | Unanswered(reason: string)

  /** What the installer did to the outside world, in order. */
  datatype Event =
    | Spawned(spawn: Spawn)
    | Asked(question: string, answer: Answer)
    | Crossed(selector: string)

  /** Lines of the installer's own standard output and standard error. */
  datatype Output = Note(text: string) | Printed(text: string) | ErrorLine(text: string)

  /** The labels `note` and `error` print before their text (their colours
      are not modelled). */
  const NoteLabel := "NOTE: "
  const ErrorLabel := "Error: "

  /** The line the terminal shows for an output entry: a note or an error
      message behind its label, a child's line exactly as it came. */
  function Shown(o: Output): (r: string)
    ensures |o.text| <= |r| && r[|r| - |o.text|..] == o.text
    ensures o.Note? ==> NoteLabel <= r
    ensures o.ErrorLine? ==> ErrorLabel <= r
    ensures o.Printed? ==> r == o.text
  {
    match o
    case Note(s) => NoteLabel + s
    case Printed(s) => s
    case ErrorLine(s) => ErrorLabel + s
  }

  datatype World = World(
    fs: FileSystem,
    env: Env,
    exe: Option<Path>,       // what `std::env::current_exe` reports
    out: seq<Output>,
    trace: seq<Event>)

  /** How a run handed across the chroot ended: its result and the file
      system it left behind (the nested run may write any file). */
  datatype Handoff = Handoff(result: Result<(), InstallError>, fs: FileSystem)

  /** The answers of the outside world. Each is consulted with the number of
      events already in the trace, so the same question may get different
      answers at different times (a link that comes up on the third poll).
      A chroot hand-off is also told the file system it starts from. */
  datatype Oracle = Oracle(
    reply: (nat, Spawn) -> Reply,
    answer: (nat, string) -> Answer,
    chroot: (nat, string, FileSystem) -> Handoff)

  /** The result of an operation and the world after it. */
  datatype Step<+T> = Step(result: Result<T, InstallError>, world: World)

  function Fail<T>(e: InstallError, w: World): Step<T> {
    Step(Err(e), w)
  }

  function Done(w: World): Step<()> {
    Step(Ok(()), w)
  }

  /** The events that happened after the trace `before`. */
  function Since(before: seq<Event>, after: seq<Event>): seq<Event>
    requires before <= after
  {
    after[|before|..]
  }

  predicate IsFile(fs: FileSystem, p: Path) {
    p in fs && fs[p].File?
  }

  /** Appends one line to the installer's standard output, as `note` does. */
  function LogNote(w: World, text: string): (w': World)
    ensures w'.out == w.out + [Note(text)]
    ensures w'.fs == w.fs && w'.env == w.env && w'.exe == w.exe && w'.trace == w.trace
  {
    w.(out := w.out + [Note(text)])
  }

  /** The `{:?}` rendering of a path (escaping of special characters is not
      modelled). */
  function Quoted(p: Path): string {
    "\"" + p + "\""
  }
}
