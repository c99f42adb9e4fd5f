/** The command runner of src/run.rs: `Wrap` (a command built by `run!`),
    `WrapWithDescription` (the same with a human-readable description), and the
    three ways of consuming a child's output. Every spawn copies the whole
    current environment into the child; the child itself is answered by the
    oracle. */
module Run {
  import opened Results
  import opened Text
  import opened Errors
  import opened Paths
  import opened Machine

  /** `WrapWithDescription`: what `Wrap::desc` builds. */
  datatype Described = Described(cmd: Command, description: string)

  function StartText(description: string): string {
    "--- starting  --- " + description
  }

  function DoneText(description: string): string {
    "--- done --- " + description
  }

  /** The notes among the installer's output lines, in order. */
  function Notes(out: seq<Output>): (r: seq<Output>)
    ensures |r| <= |out|
    ensures forall i :: 0 <= i < |r| ==> r[i].Note?
  {
    if |out| == 0 then []
    else (if out[0].Note? then [out[0]] else []) + Notes(out[1..])
  }

  lemma {:induction false} NotesConcat(a: seq<Output>, b: seq<Output>)
    ensures Notes(a + b) == Notes(a) + Notes(b)
  {
    if |a| == 0 {
      assert a + b == b;
    } else {
      assert (a + b)[0] == a[0];
      assert (a + b)[1..] == a[1..] + b;
      NotesConcat(a[1..], b);
    }
  }

  lemma {:induction false} NotesOfPrinted(out: seq<Output>)
    requires forall i :: 0 <= i < |out| ==> out[i].Printed?
    ensures Notes(out) == []
  {
    if |out| > 0 {
      NotesOfPrinted(out[1..]);
    }
  }

  /** What `BufRead::lines` yields before it stops: the leading lines, and the
      first read error if there is one. */
  function Drain(items: seq<ReadItem>): (d: (seq<string>, Option<IoFault>))
    ensures |d.0| <= |items|
    ensures forall i :: 0 <= i < |d.0| ==> items[i] == Line(d.0[i])
    ensures d.1.None? <==> |d.0| == |items|
    ensures d.1.Some? ==> items[|d.0|] == Fault(d.1.value)
  {
    if |items| == 0 then ([], None)
    else match items[0]
      case Fault(f) => ([], Some(f))
      case Line(t) =>
        var rest := Drain(items[1..]);
        ([t] + rest.0, rest.1)
  }

  /** What a reader over a child's merged output delivers: every read of the
      output, then, for an unsuccessful exit, the error duct raises at the end
      of the stream. */
  function StreamItems(merged: seq<ReadItem>, code: int): seq<ReadItem> {
    merged + (if code == 0 then [] else [Fault(ExitCode(code))])
  }

  /** The stream reads cleanly to its end exactly when the child exited with
      status 0 and every read of its output succeeded. */
  lemma StreamItemsClean(merged: seq<ReadItem>, code: int)
    ensures (forall i :: 0 <= i < |StreamItems(merged, code)| ==> StreamItems(merged, code)[i].Line?)
        <==> code == 0 && forall i :: 0 <= i < |merged| ==> merged[i].Line?
  {
    var items := StreamItems(merged, code);
    assert forall i :: 0 <= i < |merged| ==> items[i] == merged[i];
    if code != 0 {
      assert items[|merged|] == Fault(ExitCode(code));
    }
  }

  /** The child started, exited with status 0, and its output read cleanly. */
  predicate Clean(reply: Reply) {
    && reply.Exited?
    && reply.code == 0
    && forall i :: 0 <= i < |reply.merged| ==> reply.merged[i].Line?
  }

  function PrintAll(out: seq<Output>, lines: seq<string>): (r: seq<Output>)
    ensures |r| == |out| + |lines|
    ensures r[..|out|] == out
    ensures forall i :: 0 <= i < |lines| ==> r[|out| + i] == Printed(lines[i])
  {
    out + seq(|lines|, i requires 0 <= i < |lines| => Printed(lines[i]))
  }

  /** `printed` are the lines a stream of `items` shows before it ends with
      `result`: the leading lines in order, all of them on success, and on
      failure the read error that stopped the stream right after them. */
  predicate StreamedAs(items: seq<ReadItem>, printed: seq<Output>, result: Result<(), InstallError>) {
    && |printed| <= |items|
    && (forall i :: 0 <= i < |printed| ==> printed[i].Printed? && items[i] == Line(printed[i].text))
    && (result.Ok? <==> |printed| == |items|)
    && (result.Err? ==> |printed| < |items| && result.error.IoError? && items[|printed|] == Fault(result.error.fault))
  }

  lemma DrainStreamed(items: seq<ReadItem>, out: seq<Output>)
    ensures var (lines, fault) := Drain(items);
      StreamedAs(items, PrintAll(out, lines)[|out|..], if fault.Some? then Err(IoError(fault.value)) else Ok(()))
  {
    var (lines, fault) := Drain(items);
    var printed := PrintAll(out, lines)[|out|..];
    assert forall i :: 0 <= i < |printed| ==> printed[i] == Printed(lines[i]);
  }

  /** `exec` and `exec_with_stdin`: copies the environment into the child,
      starts it, prints its merged output line by line, and stops at the first
      read error; a non-zero exit is reported at the end of the stream. */
  function Stream(cmd: Command, stdin: Option<Bytes>, w: World, o: Oracle): (r: Step<()>)
    ensures r.world.trace == w.trace + [Spawned(Spawn(cmd, w.env, stdin, Streaming))]
    ensures r.world.fs == w.fs && r.world.env == w.env && r.world.exe == w.exe
    ensures w.out <= r.world.out
    ensures forall i :: |w.out| <= i < |r.world.out| ==> r.world.out[i].Printed?
    ensures r.result.Err? ==> r.result.error.IoError?
    ensures var reply := o.reply(|w.trace|, Spawn(cmd, w.env, stdin, Streaming));
      && (r.result.Ok? <==> Clean(reply))
      && (reply.SpawnFailed? ==> r.result == Err(IoError(Os(reply.reason))) && r.world.out == w.out)
      && (reply.Exited? ==> StreamedAs(StreamItems(reply.merged, reply.code), r.world.out[|w.out|..], r.result))
  {
    var spawn := Spawn(cmd, w.env, stdin, Streaming);
    var reply := o.reply(|w.trace|, spawn);
    var w1 := w.(trace := w.trace + [Spawned(spawn)]);
    match reply
    case SpawnFailed(reason) => Fail(IoError(Os(reason)), w1)
    case Exited(code, merged, _) =>
      var items := StreamItems(merged, code);
      StreamItemsClean(merged, code);
      var (lines, fault) := Drain(items);
      DrainStreamed(items, w1.out);
      var w2 := w1.(out := PrintAll(w1.out, lines));
      if fault.Some? then Fail(IoError(fault.value), w2)
      else
        assert forall i :: 0 <= i < |merged| ==> merged[i] == items[i];
        Done(w2)
  }

  /** `exec`: streams a command with no stdin. */
  function Exec(cmd: Command, w: World, o: Oracle): (r: Step<()>)
  {
    Stream(cmd, None, w, o)
  }

  /** `exec_with_stdin`: streams a command after feeding it `input`. */
  function ExecWithStdin(cmd: Command, input: Bytes, w: World, o: Oracle): (r: Step<()>)
  {
    Stream(cmd, Some(input), w, o)
  }

  /** The text of a captured merged stream that read cleanly. */
  function LineTexts(merged: seq<ReadItem>): (r: seq<string>)
    requires forall i :: 0 <= i < |merged| ==> merged[i].Line?
    ensures |r| == |merged|
    ensures forall i :: 0 <= i < |r| ==> merged[i] == Line(r[i])
  {
    seq(|merged|, i requires 0 <= i < |merged| => merged[i].text)
  }

  /** Reading a captured merged stream to its end: every line in order, or
      the first read error. */
  function ReadLines(merged: seq<ReadItem>): Result<seq<string>, IoFault> {
    if |merged| == 0 then Ok([])
    else match merged[0]
      case Fault(f) => Err(f)
      case Line(t) =>
        match ReadLines(merged[1..])
        case Err(f) => Err(f)
        case Ok(ts) => Ok([t] + ts)
  }

  /** The read succeeds exactly when every item is a line, and then yields
      their texts; otherwise it reports the first fault. */
  lemma {:induction false} ReadLinesSpec(merged: seq<ReadItem>)
    ensures ReadLines(merged).Ok? <==> forall i :: 0 <= i < |merged| ==> merged[i].Line?
    ensures ReadLines(merged).Ok? ==> ReadLines(merged).value == LineTexts(merged)
    ensures ReadLines(merged).Err? ==>
      exists i :: 0 <= i < |merged| && merged[i] == Fault(ReadLines(merged).error)
                  && forall j :: 0 <= j < i ==> merged[j].Line?
  {
    if |merged| > 0 {
      ReadLinesSpec(merged[1..]);
      assert forall i :: 1 <= i < |merged| ==> merged[1..][i - 1] == merged[i];
      if merged[0].Line? && ReadLines(merged[1..]).Err? {
        var i :| 0 <= i < |merged[1..]| && merged[1..][i] == Fault(ReadLines(merged[1..]).error)
                 && forall j :: 0 <= j < i ==> merged[1..][j].Line?;
        assert merged[i + 1] == Fault(ReadLines(merged).error);
      }
      if ReadLines(merged).Ok? {
        assert ReadLines(merged).value == [merged[0].text] + LineTexts(merged[1..]);
      }
    }
  }

  /** What `read` makes of a finished child: its merged output with trailing
      newlines removed, or the error for a failed start, an unsuccessful exit,
      or output that could not be read. */
  function Captured(reply: Reply): (r: Result<string, InstallError>)
    ensures r.Err? ==> r.error.IoError?
  {
    match reply
    case SpawnFailed(reason) => Err(IoError(Os(reason)))
    case Exited(code, merged, _) =>
      if code != 0 then Err(IoError(ExitCode(code)))
      else match ReadLines(merged)
        case Err(f) => Err(IoError(f))
        case Ok(lines) => Ok(TrimNewlines(JoinLines(lines)))
  }

  /** A capture succeeds exactly for a clean child and then holds its output
      lines joined, without trailing newlines; a failed start, a non-zero exit
      and a read error are reported as such. */
  lemma CapturedSpec(reply: Reply)
    ensures var r := Captured(reply);
      && (r.Ok? <==> Clean(reply))
      && (r.Ok? ==> r.value == TrimNewlines(JoinLines(LineTexts(reply.merged))))
      && (reply.SpawnFailed? ==> r == Err(IoError(Os(reply.reason))))
      && (reply.Exited? && reply.code != 0 ==> r == Err(IoError(ExitCode(reply.code))))
      && (reply.Exited? && reply.code == 0 && r.Err? ==>
            exists i :: 0 <= i < |reply.merged| && reply.merged[i].Fault? && r == Err(IoError(reply.merged[i].fault)))
  {
    if reply.Exited? {
      ReadLinesSpec(reply.merged);
    }
  }

  /** `Wrap::to_string`: copies the environment into the child, waits for it,
      and returns what `read` makes of its merged stderr and stdout. */
  function ToString(cmd: Command, w: World, o: Oracle): (r: Step<string>)
    ensures r.world == w.(trace := w.trace + [Spawned(Spawn(cmd, w.env, None, Capturing))])
    ensures r.result == Captured(o.reply(|w.trace|, Spawn(cmd, w.env, None, Capturing)))
  {
    var spawn := Spawn(cmd, w.env, None, Capturing);
    Step(Captured(o.reply(|w.trace|, spawn)), w.(trace := w.trace + [Spawned(spawn)]))
  }

  /** `exec_to_file`: copies the environment into the child, captures only its
      stdout, refuses empty output, and otherwise creates or truncates `path`
      and writes exactly the captured bytes. */
  function ExecToFile(cmd: Command, path: Path, w: World, o: Oracle): (r: Step<()>)
    ensures r.world.trace == w.trace + [Spawned(Spawn(cmd, w.env, None, CapturingStdout))]
    ensures r.world.out == w.out && r.world.env == w.env && r.world.exe == w.exe
    ensures var reply := o.reply(|w.trace|, Spawn(cmd, w.env, None, CapturingStdout));
      && (r.result.Ok? <==>
            reply.Exited? && reply.code == 0 && |reply.stdout| > 0 && !(path in w.fs && w.fs[path].Dir?))
      && (r.result.Ok? ==> r.world.fs == w.fs[path := File(reply.stdout)])
      && (r.result == Err(EmptyResponse) <==> reply.Exited? && reply.code == 0 && |reply.stdout| == 0)
    ensures r.result.Err? ==> r.world.fs == w.fs
  {
    var spawn := Spawn(cmd, w.env, None, CapturingStdout);
    var w1 := w.(trace := w.trace + [Spawned(spawn)]);
    match o.reply(|w.trace|, spawn)
    case SpawnFailed(reason) => Fail(IoError(Os(reason)), w1)
    case Exited(code, _, stdout) =>
      if code != 0 then Fail(IoError(ExitCode(code)), w1)
      else if |stdout| == 0 then Fail(EmptyResponse, w1)
      else if path in w1.fs && w1.fs[path].Dir? then Fail(IoError(Os("Is a directory (os error 21)")), w1)
      else Done(w1.(fs := w1.fs[path := File(stdout)]))
  }

  /** `Wrap::run`: streams the command with no bracket notes. */
  function RunPlain(cmd: Command, w: World, o: Oracle): (r: Step<()>)
    ensures r.world.trace == w.trace + [Spawned(Spawn(cmd, w.env, None, Streaming))]
    ensures w.out <= r.world.out && Notes(r.world.out[|w.out|..]) == []
    ensures r.result == Exec(cmd, w, o).result
  {
    var s := Exec(cmd, w, o);
    NotesOfPrinted(s.world.out[|w.out|..]);
    s
  }

  /** `WrapWithDescription::run` and `run_with_stdin`: a start note, the
      streamed command, and a done note only when the command succeeded. */
  function Bracketed(d: Described, stdin: Option<Bytes>, w: World, o: Oracle): (r: Step<()>)
    ensures r.world.trace == w.trace + [Spawned(Spawn(d.cmd, w.env, stdin, Streaming))]
    ensures r.world.fs == w.fs && r.world.env == w.env && r.world.exe == w.exe
    ensures r.result == Stream(d.cmd, stdin, w, o).result
    ensures |w.out| < |r.world.out| && w.out <= r.world.out
    ensures r.world.out[|w.out|] == Note(StartText(d.description))
    ensures r.result.Ok? ==> r.world.out[|r.world.out| - 1] == Note(DoneText(d.description))
    ensures Notes(r.world.out[|w.out|..]) ==
      [Note(StartText(d.description))] + (if r.result.Ok? then [Note(DoneText(d.description))] else [])
  {
    var start := Note(StartText(d.description));
    var done := Note(DoneText(d.description));
    var w1 := LogNote(w, StartText(d.description));
    var s := Stream(d.cmd, stdin, w1, o);
    var printed := s.world.out[|w1.out|..];
    var tail := if s.result.Ok? then [done] else [];
    assert s.world.out == w.out + [start] + printed;
    BracketShape(w.out, start, printed, tail);
    var r := if s.result.Err? then s else Done(LogNote(s.world, DoneText(d.description)));
    assert r.world.out == w.out + [start] + printed + tail;
    r
  }

  /** The output of a bracketed run: what was there, the start note, the
      printed lines, and at most one closing note. */
  lemma BracketShape(before: seq<Output>, start: Output, printed: seq<Output>, tail: seq<Output>)
    requires start.Note?
    requires forall i :: 0 <= i < |printed| ==> printed[i].Printed?
    requires tail == [] || (|tail| == 1 && tail[0].Note?)
    ensures var out := before + [start] + printed + tail;
      && |before| < |out| && before <= out && out[|before|] == start
      && (tail != [] ==> out[|out| - 1] == tail[0])
      && Notes(out[|before|..]) == [start] + tail
  {
    var out := before + [start] + printed + tail;
    assert out[|before|..] == [start] + printed + tail;
    NotesOfPrinted(printed);
    NotesConcat([start], printed);
    NotesConcat([start] + printed, tail);
    if tail != [] {
      assert Notes(tail) == tail by { assert tail[1..] == []; }
    }
  }

  /** `WrapWithDescription::run`. */
  function RunDescribed(d: Described, w: World, o: Oracle): (r: Step<()>)
  {
    Bracketed(d, None, w, o)
  }

  /** `WrapWithDescription::run_with_stdin`. */
  function RunDescribedWithStdin(d: Described, input: Bytes, w: World, o: Oracle): (r: Step<()>)
  {
    Bracketed(d, Some(input), w, o)
  }

  function SaveText(path: Path): string {
    "will save the result to file: " + Quoted(path)
  }

  /** `WrapWithDescription::to_file`: start note, destination note, the
      captured command, and a done note only when the file was written. */
  function ToFile(d: Described, path: Path, w: World, o: Oracle): (r: Step<()>)
    ensures r.world.trace == w.trace + [Spawned(Spawn(d.cmd, w.env, None, CapturingStdout))]
    ensures r.world.fs == ExecToFile(d.cmd, path, w, o).world.fs
    ensures r.result == ExecToFile(d.cmd, path, w, o).result
    ensures r.world.env == w.env && r.world.exe == w.exe
    ensures r.world.out == w.out + [Note(StartText(d.description)), Note(SaveText(path))]
                                 + (if r.result.Ok? then [Note(DoneText(d.description))] else [])
  {
    var w1 := LogNote(LogNote(w, StartText(d.description)), SaveText(path));
    var s := ExecToFile(d.cmd, path, w1, o);
    if s.result.Err? then s else Done(LogNote(s.world, DoneText(d.description)))
  }
}
