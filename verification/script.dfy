/** Task bodies as scripts. Every body in src/installer.rs and src/installer/
    is a straight sequence of runner calls, file helpers, confirmations and
    chroot hand-offs, each followed by `?`. A `seq<Action>` records that
    sequence and `RunAll` executes it: one action at a time, in order, stopping
    at the first error and returning it. */
module Script {
  import opened Results
  import opened Text
  import opened Errors
  import opened Paths
  import opened Machine
  import Utils
  import Run

  datatype Action =
    | Plain(cmd: Command)                                      // run!(..).run()
    | Described(cmd: Command, description: string)             // run!(..).desc(d).run()
    | DescribedStdin(cmd: Command, description: string, input: Bytes)  // .run_with_stdin(input)
    | SaveOutput(cmd: Command, description: string, path: Path) // .desc(d).to_file(path)
    | SetFile(path: Path, text: string)                        // set_file
    | AppendToFile(path: Path, text: string)                   // append_to_file
    | Confirm(question: string)                                // confirm
    | Note(text: string)                                       // note
    | CreateDirAll(path: Path)                                 // std::fs::create_dir_all
    | Copy(from: Path, to: Path)                               // std::fs::copy
    | CopyExe(to: Path)                                        // copy(current_exe()?, to)
    | WithChroot(selector: string)                             // with_chroot(config, selector)
    | SetVar(key: string, value: string)                       // std::env::set_var

  /** The outside-world event an action causes, without its answer. */
  datatype Mark = Ran(cmd: Command) | Question(question: string) | Cross(selector: string)

  function MarkOf(e: Event): Mark {
    match e
    case Spawned(s) => Ran(s.cmd)
    case Asked(q, _) => Question(q)
    case Crossed(sel) => Cross(sel)
  }

  function Marks(es: seq<Event>): (r: seq<Mark>)
    ensures |r| == |es|
    ensures forall i :: 0 <= i < |es| ==> r[i] == MarkOf(es[i])
  {
    seq(|es|, i requires 0 <= i < |es| => MarkOf(es[i]))
  }

  /** The events an action causes, whether it then succeeds or fails: a
      command is started (or its start attempted), a question is asked, a
      hand-off is made. */
  function Footprint(a: Action): seq<Mark> {
    match a
    case Plain(c) => [Ran(c)]
    case Described(c, _) => [Ran(c)]
    case DescribedStdin(c, _, _) => [Ran(c)]
    case SaveOutput(c, _, _) => [Ran(c)]
    case Confirm(q) => [Question(q)]
    case WithChroot(sel) => [Cross(sel)]
    case _ => []
  }

  /** The events a whole script causes when every action succeeds. */
  function Plan(script: seq<Action>): seq<Mark> {
    if |script| == 0 then [] else Footprint(script[0]) + Plan(script[1..])
  }

  /** Actions that may change the file system: the file helpers, a saved
      command output, and a run handed across the chroot. */
  predicate TouchesFiles(a: Action) {
    a.SaveOutput? || a.SetFile? || a.AppendToFile? || a.CreateDirAll? || a.Copy? || a.CopyExe?
    || a.WithChroot?
  }

  /** Actions whose failure can be an operator's decline: a confirmation, or a
      nested run across a chroot that ended in one. */
  predicate MayDecline(a: Action) {
    a.Confirm? || a.WithChroot?
  }

  /** Every question in these events was answered "yes". */
  predicate AllYes(es: seq<Event>) {
    forall i :: 0 <= i < |es| && es[i].Asked? ==> es[i].answer == Yes
  }

  /** Every command started in these events received exactly `env`. */
  predicate SpawnedWith(es: seq<Event>, env: Env) {
    forall i :: 0 <= i < |es| && es[i].Spawned? ==> es[i].spawn.env == env
  }

  /** One action, as the helper it names does it. */
  function Perform(a: Action, w: World, o: Oracle): Step<()> {
    match a
    case Plain(c) => Run.RunPlain(c, w, o)
    case Described(c, d) => Run.RunDescribed(Run.Described(c, d), w, o)
    case DescribedStdin(c, d, input) => Run.RunDescribedWithStdin(Run.Described(c, d), input, w, o)
    case SaveOutput(c, d, p) => Run.ToFile(Run.Described(c, d), p, w, o)
    case SetFile(p, s) => Utils.SetFile(p, s, w)
    case AppendToFile(p, s) => Utils.AppendToFile(p, s, w)
    case Confirm(q) => Utils.Confirm(q, w, o)
    case Note(s) => Done(LogNote(w, s))
    case CreateDirAll(p) => Utils.CreateDirAll(p, w)
    case Copy(f, t) => Utils.Copy(f, t, w)
    case CopyExe(t) => Utils.CopyExe(t, w)
    case WithChroot(sel) =>
      var h := o.chroot(|w.trace|, sel, w.fs);
      Step(h.result, w.(fs := h.fs, trace := w.trace + [Crossed(sel)]))
    case SetVar(k, v) => Done(w.(env := w.env[k := v]))
  }

  /** What an action guarantees about the events it causes: exactly its
      footprint, every command started with the current environment, and
      only yes answers when it succeeds. */
  predicate TraceSound(a: Action, w: World, r: Step<()>) {
    && w.trace <= r.world.trace && Marks(Since(w.trace, r.world.trace)) == Footprint(a)
    && SpawnedWith(Since(w.trace, r.world.trace), w.env)
    && (r.result.Ok? ==> AllYes(Since(w.trace, r.world.trace)))
  }

  /** What an action guarantees about the state it leaves: output only
      grows, the executable stays, the environment changes only through
      `set_var` and the files only through the file actions. */
  predicate StateSound(a: Action, w: World, r: Step<()>) {
    && w.out <= r.world.out && r.world.exe == w.exe
    && (a.SetVar? ==> r.world.env == w.env[a.key := a.value])
    && (!a.SetVar? ==> r.world.env == w.env)
    && (!TouchesFiles(a) ==> r.world.fs == w.fs)
  }

  /** What every action guarantees, whatever the outside world answers. */
  predicate Sound(a: Action, w: World, r: Step<()>) {
    && TraceSound(a, w, r)
    && StateSound(a, w, r)
    && (r.result == Err(Decline) ==> MayDecline(a))
  }

  /** Each action causes exactly its footprint in the trace, passes the
      current environment to what it starts, leaves the environment and the
      files alone unless it is meant to change them, and only a confirmation
      or a chroot hand-off can end in a decline. */
  lemma PerformSound(a: Action, w: World, o: Oracle)
    ensures Sound(a, w, Perform(a, w, o))
  {
    match a
    case Plain(_) => CommandSound(a, w, o);
    case Described(_, _) => CommandSound(a, w, o);
    case DescribedStdin(_, _, _) => CommandSound(a, w, o);
    case SaveOutput(_, _, _) => CommandSound(a, w, o);
    case SetFile(_, _) => FileSound(a, w, o);
    case AppendToFile(_, _) => FileSound(a, w, o);
    case CreateDirAll(_) => FileSound(a, w, o);
    case Copy(_, _) => FileSound(a, w, o);
    case CopyExe(_) => FileSound(a, w, o);
    case Confirm(q) =>
      var r := Utils.Confirm(q, w, o);
      assert Since(w.trace, r.world.trace) == [Asked(q, o.answer(|w.trace|, q))];
    case Note(_) =>
    case WithChroot(sel) =>
      assert Since(w.trace, Perform(a, w, o).world.trace) == [Crossed(sel)];
    case SetVar(_, _) =>
  }

  lemma CommandSound(a: Action, w: World, o: Oracle)
    requires a.Plain? || a.Described? || a.DescribedStdin? || a.SaveOutput?
    ensures Sound(a, w, Perform(a, w, o))
  {
    var r := Perform(a, w, o);
    var mode := if a.SaveOutput? then CapturingStdout else Streaming;
    var stdin := if a.DescribedStdin? then Some(a.input) else None;
    assert r.world.trace == w.trace + [Spawned(Spawn(a.cmd, w.env, stdin, mode))];
    assert Since(w.trace, r.world.trace) == [Spawned(Spawn(a.cmd, w.env, stdin, mode))];
  }

  lemma FileSound(a: Action, w: World, o: Oracle)
    requires a.SetFile? || a.AppendToFile? || a.CreateDirAll? || a.Copy? || a.CopyExe?
    ensures Sound(a, w, Perform(a, w, o))
  {
    var r := Perform(a, w, o);
    assert r.world.trace == w.trace;
    assert Since(w.trace, r.world.trace) == [];
  }

  /** Actions that can fail only with an I/O error. */
  predicate FailsWithIo(a: Action) {
    a.Plain? || a.Described? || a.DescribedStdin? || a.SetFile? || a.AppendToFile?
    || a.CreateDirAll? || a.Copy? || a.CopyExe? || a.Note? || a.SetVar?
  }

  lemma PerformIoError(a: Action, w: World, o: Oracle)
    requires FailsWithIo(a)
    ensures Perform(a, w, o).result.Err? ==> Perform(a, w, o).result.error.IoError?
  {
  }

  /** Something that performs one action on a world. */
  type Performer = (Action, World) -> Step<()>

  /** The performer the task bodies use: every action as its helper does it,
      against the outside world `o`. */
  function PerformWith(o: Oracle): Performer {
    (a: Action, v: World) => Perform(a, v, o)
  }

  /** A performer that keeps the guarantees of `Sound` for every action. */
  ghost predicate Lawful(step: Performer) {
    forall a: Action, v: World :: Sound(a, v, step(a, v))
  }

  lemma PerformLawful(o: Oracle)
    ensures Lawful(PerformWith(o))
  {
    forall a: Action, v: World
      ensures Sound(a, v, PerformWith(o)(a, v))
    {
      PerformSound(a, v, o);
    }
  }

  /** The `?` chain over any lawful performer: each action in order,
      stopping at the first error. */
  function Chain(step: Performer, script: seq<Action>, w: World): (r: Step<()>)
    requires Lawful(step)
    ensures w.trace <= r.world.trace
    ensures w.out <= r.world.out
    decreases |script|
  {
    if |script| == 0 then Done(w)
    else
      var s := step(script[0], w);
      if s.result.Err? then s else Chain(step, script[1..], s.world)
  }

  /** A task body: its actions chained with `?` against the outside world. */
  function RunAll(script: seq<Action>, w: World, o: Oracle): (r: Step<()>)
    ensures w.trace <= r.world.trace
    ensures w.out <= r.world.out
  {
    PerformLawful(o);
    Chain(PerformWith(o), script, w)
  }

  /** A script's events are a prefix of its plan, all of it when it
      succeeds, and a success means every question got a yes. */
  lemma {:induction false} ChainMarks(step: Performer, script: seq<Action>, w: World)
    requires Lawful(step)
    ensures var r := Chain(step, script, w);
      && Marks(Since(w.trace, r.world.trace)) <= Plan(script)
      && (r.result.Ok? ==> Marks(Since(w.trace, r.world.trace)) == Plan(script))
      && (r.result.Ok? ==> AllYes(Since(w.trace, r.world.trace)))
    decreases |script|
  {
    if |script| > 0 {
      var s := step(script[0], w);
      assert Sound(script[0], w, s);
      var e1 := Since(w.trace, s.world.trace);
      assert Plan(script) == Footprint(script[0]) + Plan(script[1..]);
      if s.result.Err? {
        PrefixOfAppend(Footprint(script[0]), [], Plan(script[1..]));
      } else {
        var r := Chain(step, script[1..], s.world);
        ChainMarks(step, script[1..], s.world);
        var e2 := Since(s.world.trace, r.world.trace);
        SinceSplit(w.trace, s.world.trace, r.world.trace);
        MarksAppend(e1, e2);
        PrefixOfAppend(Footprint(script[0]), Marks(e2), Plan(script[1..]));
        if r.result.Ok? {
          AllYesAppend(e1, e2);
        }
      }
    }
  }

  lemma MarksAppend(a: seq<Event>, b: seq<Event>)
    ensures Marks(a + b) == Marks(a) + Marks(b)
  {
  }

  lemma AllYesAppend(a: seq<Event>, b: seq<Event>)
    requires AllYes(a) && AllYes(b)
    ensures AllYes(a + b)
  {
    forall i | 0 <= i < |a + b| && (a + b)[i].Asked?
      ensures (a + b)[i].answer == Yes
    {
      if i >= |a| { assert (a + b)[i] == b[i - |a|]; }
    }
  }

  lemma PrefixOfAppend<T>(p: seq<T>, x: seq<T>, y: seq<T>)
    requires x <= y
    ensures p + x <= p + y
  {
    assert (p + y)[..|p + x|] == p + y[..|x|];
  }

  /** A script leaves the executable alone; without `set_var` it leaves the
      environment alone and starts every command with it; without file
      actions it leaves the files alone. */
  lemma {:induction false} ChainKeeps(step: Performer, script: seq<Action>, w: World)
    requires Lawful(step)
    ensures var r := Chain(step, script, w);
      && r.world.exe == w.exe
      && ((forall i :: 0 <= i < |script| ==> !script[i].SetVar?) ==>
            r.world.env == w.env && SpawnedWith(Since(w.trace, r.world.trace), w.env))
      && ((forall i :: 0 <= i < |script| ==> !TouchesFiles(script[i])) ==> r.world.fs == w.fs)
    decreases |script|
  {
    if |script| > 0 {
      var s := step(script[0], w);
      if s.result.Ok? {
        var r := Chain(step, script[1..], s.world);
        ChainKeeps(step, script[1..], s.world);
        SinceSplit(w.trace, s.world.trace, r.world.trace);
        assert forall i :: 1 <= i < |script| ==> script[1..][i - 1] == script[i];
      }
    }
  }

  /** A script ends in a decline only through one of its confirmations or
      chroot hand-offs. */
  lemma {:induction false} ChainDeclines(step: Performer, script: seq<Action>, w: World)
    requires Lawful(step)
    ensures Chain(step, script, w).result == Err(Decline) ==> exists i :: 0 <= i < |script| && MayDecline(script[i])
    decreases |script|
  {
    if |script| > 0 {
      var s := step(script[0], w);
      if s.result.Ok? {
        ChainDeclines(step, script[1..], s.world);
        assert forall i :: 1 <= i < |script| ==> script[1..][i - 1] == script[i];
      }
    }
  }

  lemma SinceSplit(a: seq<Event>, b: seq<Event>, c: seq<Event>)
    requires a <= b <= c
    ensures Since(a, c) == Since(a, b) + Since(b, c)
  {
  }

  /** Running two scripts back to back is running their concatenation: the
      second starts only if the first succeeded, from the world it left. */
  lemma {:induction false} ChainAppend(step: Performer, first: seq<Action>, second: seq<Action>, w: World)
    requires Lawful(step)
    ensures Chain(step, first + second, w) ==
      (var s := Chain(step, first, w); if s.result.Err? then s else Chain(step, second, s.world))
    decreases |first|
  {
    if |first| == 0 {
      assert first + second == second;
    } else {
      var both := first + second;
      assert both[0] == first[0];
      assert both[1..] == first[1..] + second;
      var s := step(first[0], w);
      if s.result.Ok? {
        ChainAppend(step, first[1..], second, s.world);
      }
    }
  }

  lemma {:induction false} PlanAppend(first: seq<Action>, second: seq<Action>)
    ensures Plan(first + second) == Plan(first) + Plan(second)
    decreases |first|
  {
    if |first| == 0 {
      assert first + second == second;
    } else {
      assert (first + second)[0] == first[0];
      assert (first + second)[1..] == first[1..] + second;
      PlanAppend(first[1..], second);
    }
  }

  /** The run of `script` is the run of its first `k` actions, which
      succeeded, followed by action `k`, which failed. */
  ghost predicate StopsAt(step: Performer, script: seq<Action>, k: nat, w: World)
    requires Lawful(step) && k < |script|
  {
    var before := Chain(step, script[..k], w);
    && before.result.Ok?
    && Chain(step, script, w) == step(script[k], before.world)
  }

  /** A script's run fails exactly when some action fails, and then it stops
      there: the run is the run of the actions before it followed by the
      failing one, and nothing after it happens. */
  lemma {:induction false} HaltsAtFirstError(step: Performer, script: seq<Action>, w: World)
    requires Lawful(step) && Chain(step, script, w).result.Err?
    ensures exists k :: 0 <= k < |script| && StopsAt(step, script, k, w)
    decreases |script|
  {
    var s := step(script[0], w);
    if s.result.Err? {
      assert script[..0] == [];
      assert Chain(step, script[..0], w) == Done(w);
      assert StopsAt(step, script, 0, w);
    } else {
      HaltsAtFirstError(step, script[1..], s.world);
      var k :| 0 <= k < |script[1..]| && StopsAt(step, script[1..], k, s.world);
      StopsAtShift(step, script, k, w);
    }
  }

  /** Stopping at action `k` of the rest, after a successful first action, is
      stopping at action `k + 1` of the whole script. */
  lemma StopsAtShift(step: Performer, script: seq<Action>, k: nat, w: World)
    requires Lawful(step) && 0 < |script| && k < |script| - 1
    requires step(script[0], w).result.Ok?
    requires StopsAt(step, script[1..], k, step(script[0], w).world)
    ensures StopsAt(step, script, k + 1, w)
  {
    var s := step(script[0], w);
    var pre := script[..k + 1];
    assert pre[0] == script[0] && pre[1..] == script[1..][..k];
    assert Chain(step, pre, w) == Chain(step, script[1..][..k], s.world);
    assert Chain(step, script, w) == Chain(step, script[1..], s.world);
    assert script[1..][k] == script[k + 1];
  }

  lemma ChainSingle(step: Performer, a: Action, w: World)
    requires Lawful(step)
    ensures Chain(step, [a], w) == step(a, w)
  {
    var s := step(a, w);
    assert [a][0] == a && [a][1..] == [];
    if s.result.Ok? {
      var u: () := s.result.value;
      assert u == ();
      assert s.result == Ok(());
      assert Chain(step, [a][1..], s.world) == Done(s.world);
    }
  }

  /** Running a script that starts with `a` is performing `a` and, if it
      succeeded, running the rest from the world it left. */
  lemma ChainCons(step: Performer, a: Action, rest: seq<Action>, w: World)
    requires Lawful(step)
    ensures Chain(step, [a] + rest, w) ==
      (var s := step(a, w); if s.result.Err? then s else Chain(step, rest, s.world))
  {
    assert ([a] + rest)[0] == a;
    assert ([a] + rest)[1..] == rest;
  }

  /** A script made of a gate followed by actions that cannot decline: the
      rest starts only once the whole gate succeeded with every question
      answered yes, a failing gate is the whole run, and a decline can only
      come from the gate. */
  lemma Gated(step: Performer, gate: seq<Action>, rest: seq<Action>, w: World)
    requires Lawful(step)
    requires forall i :: 0 <= i < |rest| ==> !MayDecline(rest[i])
    ensures var g := Chain(step, gate, w); var r := Chain(step, gate + rest, w);
      && (g.result.Err? ==> r == g)
      && (g.result.Ok? ==>
            && g.world.trace <= r.world.trace
            && Marks(Since(w.trace, g.world.trace)) == Plan(gate)
            && AllYes(Since(w.trace, g.world.trace))
            && Marks(Since(g.world.trace, r.world.trace)) <= Plan(rest))
      && (r.result == Err(Decline) ==> r == g)
  {
    ChainAppend(step, gate, rest, w);
    ChainMarks(step, gate, w);
    var g := Chain(step, gate, w);
    if g.result.Ok? {
      ChainMarks(step, rest, g.world);
      ChainDeclines(step, rest, g.world);
    }
  }

  /** A script followed by actions that touch no file: if the script failed
      the rest never starts; otherwise the files stay as the script left them,
      and when everything succeeds the rest adds exactly its plan. */
  lemma ThenQuiet(script: seq<Action>, rest: seq<Action>, w: World, o: Oracle)
    requires forall i :: 0 <= i < |rest| ==> !TouchesFiles(rest[i])
    ensures var s := RunAll(script, w, o); var r := RunAll(script + rest, w, o);
      && (s.result.Err? ==> r == s)
      && (s.result.Ok? ==>
            && s.world.trace <= r.world.trace
            && r.world.fs == s.world.fs
            && (r.result.Ok? ==> Marks(Since(s.world.trace, r.world.trace)) == Plan(rest)))
  {
    PerformLawful(o);
    ChainAppend(PerformWith(o), script, rest, w);
    var s := RunAll(script, w, o);
    if s.result.Ok? {
      ChainKeeps(PerformWith(o), rest, s.world);
      ChainMarks(PerformWith(o), rest, s.world);
    }
  }

  /** A `set_file` followed by actions that touch no file and set no
      variable: on success the file holds the text twice and nothing else
      changed. */
  lemma SetFileThenQuiet(path: Path, text: string, rest: seq<Action>, w: World, o: Oracle)
    requires forall i :: 0 <= i < |rest| ==> !TouchesFiles(rest[i]) && !rest[i].SetVar?
    ensures var r := RunAll([SetFile(path, text)] + rest, w, o);
      && r.world.env == w.env
      && (r.result.Ok? ==> r.world.fs == w.fs[path := File(Utf8(text + text))])
  {
    PerformLawful(o);
    ChainCons(PerformWith(o), SetFile(path, text), rest, w);
    var s1 := Utils.SetFile(path, text, w);
    if s1.result.Ok? {
      ChainKeeps(PerformWith(o), rest, s1.world);
    }
  }

  /** Setting a variable always succeeds and changes only the environment;
      every command a later script starts, if that script sets no variable
      itself, receives the new environment. */
  lemma SetVarReachesChildren(key: string, value: string, later: seq<Action>, w: World, o: Oracle)
    requires forall i :: 0 <= i < |later| ==> !later[i].SetVar?
    ensures var p := RunAll([SetVar(key, value)], w, o);
      && p.result.Ok?
      && p.world.env == w.env[key := value]
      && p.world.trace == w.trace && p.world.fs == w.fs
      && var r := RunAll(later, p.world, o);
         && SpawnedWith(Since(p.world.trace, r.world.trace), w.env[key := value])
         && r.world.env == w.env[key := value]
  {
    var v := w.(env := w.env[key := value]);
    assert Perform(SetVar(key, value), w, o) == Done(v);
    PerformLawful(o);
    ChainSingle(PerformWith(o), SetVar(key, value), w);
    assert RunAll([SetVar(key, value)], w, o) == Done(v);
    ChainKeeps(PerformWith(o), later, v);
  }

  /** What a streamed command leaves: one start in the trace, with the
      current environment, its stdin and streamed output, and the files and
      the environment as they were. */
  lemma CommandStep(a: Action, w: World, o: Oracle)
    requires a.Plain? || a.Described? || a.DescribedStdin?
    ensures var r := Perform(a, w, o);
      && r.world.trace == w.trace + [Spawned(Spawn(a.cmd, w.env, if a.DescribedStdin? then Some(a.input) else None, Streaming))]
      && r.world.fs == w.fs && r.world.env == w.env
  {
  }

  /** A script followed by one `append_to_file`: if the script failed the
      append never happens; otherwise the append succeeds exactly when the
      file exists and then adds the text's bytes at its end. */
  lemma ThenAppend(script: seq<Action>, path: Path, text: string, w: World, o: Oracle)
    ensures var s := RunAll(script, w, o); var r := RunAll(script + [AppendToFile(path, text)], w, o);
      && (s.result.Err? ==> r == s)
      && (s.result.Ok? ==>
            && r.world.trace == s.world.trace
            && (r.result.Ok? <==> IsFile(s.world.fs, path))
            && (r.result.Ok? ==> r.world.fs == s.world.fs[path := File(s.world.fs[path].data + Utf8(text))]))
  {
    PerformLawful(o);
    ChainAppend(PerformWith(o), script, [AppendToFile(path, text)], w);
    var s := RunAll(script, w, o);
    if s.result.Ok? {
      ChainSingle(PerformWith(o), AppendToFile(path, text), s.world);
    }
  }

  /** A script of commands, file helpers, notes and variables fails only
      with an I/O error. */
  lemma {:induction false} RunAllIoErrors(script: seq<Action>, w: World, o: Oracle)
    requires forall i :: 0 <= i < |script| ==> FailsWithIo(script[i])
    ensures RunAll(script, w, o).result.Err? ==> RunAll(script, w, o).result.error.IoError?
    decreases |script|
  {
    if |script| > 0 {
      PerformLawful(o);
      ChainCons(PerformWith(o), script[0], script[1..], w);
      PerformIoError(script[0], w, o);
      var s := Perform(script[0], w, o);
      if s.result.Ok? {
        assert forall i :: 1 <= i < |script| ==> script[1..][i - 1] == script[i];
        RunAllIoErrors(script[1..], s.world, o);
      }
    }
  }

  /** Actions that only start a command. */
  predicate IsCommand(a: Action) {
    a.Plain? || a.Described? || a.DescribedStdin?
  }

  /** A script of commands plans one start per command, in order. */
  lemma {:induction false} PlanOfCommands(script: seq<Action>)
    requires forall i :: 0 <= i < |script| ==> IsCommand(script[i])
    ensures |Plan(script)| == |script|
    ensures forall i :: 0 <= i < |script| && IsCommand(script[i]) ==> Plan(script)[i] == Ran(script[i].cmd)
    decreases |script|
  {
    if |script| > 0 {
      assert forall i :: 1 <= i < |script| ==> script[1..][i - 1] == script[i];
      PlanOfCommands(script[1..]);
    }
  }

  /** A script of commands only: it changes no file and no variable, starts
      every command with the environment it found, fails only with an I/O
      error, and when it succeeds it has started exactly its commands, in
      order. */
  lemma CommandsOnly(script: seq<Action>, w: World, o: Oracle)
    requires forall i :: 0 <= i < |script| ==> IsCommand(script[i])
    ensures var r := RunAll(script, w, o); var t := Marks(Since(w.trace, r.world.trace));
      && r.world.fs == w.fs && r.world.env == w.env
      && SpawnedWith(Since(w.trace, r.world.trace), w.env)
      && (r.result.Err? ==> r.result.error.IoError?)
      && (r.result.Ok? ==> |t| == |script| && forall i :: 0 <= i < |script| && IsCommand(script[i]) ==> t[i] == Ran(script[i].cmd))
  {
    forall i | 0 <= i < |script|
      ensures !script[i].SetVar? && !TouchesFiles(script[i]) && FailsWithIo(script[i])
    {
      assert IsCommand(script[i]);
    }
    PerformLawful(o);
    ChainKeeps(PerformWith(o), script, w);
    ChainMarks(PerformWith(o), script, w);
    RunAllIoErrors(script, w, o);
    PlanOfCommands(script);
  }

  /** One `append_to_file` per text, all to the same file. */
  function Appends(path: Path, texts: seq<string>): (r: seq<Action>)
    ensures |r| == |texts|
    ensures forall i :: 0 <= i < |texts| ==> r[i] == AppendToFile(path, texts[i])
  {
    seq(|texts|, i requires 0 <= i < |texts| => AppendToFile(path, texts[i]))
  }

  /** The texts one after the other, with nothing in between. */
  function Concat(texts: seq<string>): string {
    if |texts| == 0 then "" else texts[0] + Concat(texts[1..])
  }

  /** Appending several texts to an existing file leaves the file's old bytes
      followed by the texts' bytes in order, and nothing else changes; on a
      missing file or a directory the first append fails and the files stay
      as they were. */
  lemma {:induction false} AppendsInOrder(path: Path, texts: seq<string>, w: World, o: Oracle)
    requires |texts| > 0
    ensures var r := RunAll(Appends(path, texts), w, o);
      && (r.result.Ok? <==> IsFile(w.fs, path))
      && (r.result.Ok? ==>
            && IsFile(r.world.fs, path)
            && r.world.fs == w.fs[path := File(w.fs[path].data + Utf8(Concat(texts)))])
      && (r.result.Err? ==> r.world.fs == w.fs)
    decreases |texts|
  {
    var rest := Appends(path, texts[1..]);
    assert Appends(path, texts) == [AppendToFile(path, texts[0])] + rest;
    AppendStep(path, texts[0], rest, w, o);
    var s := Utils.AppendToFile(path, texts[0], w);
    if s.result.Ok? {
      var before, head := w.fs[path].data, Utf8(texts[0]);
      if |texts| == 1 {
        assert rest == [] && texts[1..] == [];
        assert Concat(texts) == texts[0];
      } else {
        var tail := Utf8(Concat(texts[1..]));
        AppendsInOrder(path, texts[1..], s.world, o);
        assert s.world.fs[path].data == before + head;
        assert Concat(texts) == texts[0] + Concat(texts[1..]);
        Utf8Concat(texts[0], Concat(texts[1..]));
        assert Utf8(Concat(texts)) == head + tail;
        AppendAssoc(before, head, tail);
        assert s.world.fs[path := File(before + head + tail)] == w.fs[path := File(before + head + tail)];
      }
    }
  }

  /** A script that starts with an append performs it and, if it succeeded,
      runs the rest from the world it left. */
  lemma AppendStep(path: Path, text: string, rest: seq<Action>, w: World, o: Oracle)
    ensures RunAll([AppendToFile(path, text)] + rest, w, o) ==
      (var s := Utils.AppendToFile(path, text, w); if s.result.Err? then s else RunAll(rest, s.world, o))
  {
    PerformLawful(o);
    ChainCons(PerformWith(o), AppendToFile(path, text), rest, w);
  }
}
