/** The program entry of src/main.rs: announce the install, run it, and turn
    its outcome into the process exit status. */
module Entry {
  import opened Results
  import opened Text
  import opened Errors
  import opened Machine

  /** The world when the process ends, and its exit status. */
  datatype Exit = Exit(world: World, status: int)

  const StartText := "Starting Archlinux install"
  const FailurePrefix := "installation failed: "

  /** Outcomes of `install` that end the process with `exit(1)`. */
  predicate Fatal(res: Result<(), InstallError>) {
    res.Err? && !res.error.Decline?
  }

  /** The `match install()` of `main`: success and a declined confirmation end
      quietly with status 0; any other error is reported on standard error and
      the process exits with status 1. */
  function Finish(s: Step<()>): (x: Exit)
    ensures x.status == 0 || x.status == 1
    ensures x.world.fs == s.world.fs && x.world.env == s.world.env && x.world.trace == s.world.trace
    ensures x.status == 0 ==> x.world == s.world
    ensures x.status == 1 ==> Fatal(s.result)
    ensures x.status == 1 ==>
      |x.world.out| == |s.world.out| + 1 && x.world.out[..|s.world.out|] == s.world.out &&
      x.world.out[|s.world.out|].ErrorLine? &&
      FailurePrefix <= x.world.out[|s.world.out|].text &&
      s.result.Err? && Contains(x.world.out[|s.world.out|].text, Describe(s.result.error))
    ensures x.status == 1 ==>
      |s.world.out| < |x.world.out| && s.result.Err? &&
      ErrorLabel + FailurePrefix <= Shown(x.world.out[|s.world.out|]) &&
      Contains(Shown(x.world.out[|s.world.out|]), Describe(s.result.error))
  {
    match s.result
    case Ok(_) => Exit(s.world, 0)
    case Err(Decline) => Exit(s.world, 0)
    case Err(e) =>
      var line := FailurePrefix + Describe(e);
      ReportShape(Describe(e));
      var out := s.world.out + [ErrorLine(line)];
      assert out[..|s.world.out|] == s.world.out;
      Exit(s.world.(out := out), 1)
  }

  /** The report line for an error text `d`: the message starts with the
      failure prefix and holds `d`, and so does the shown line behind its
      label. */
  lemma ReportShape(d: string)
    ensures FailurePrefix <= FailurePrefix + d && Contains(FailurePrefix + d, d)
    ensures ErrorLabel + FailurePrefix <= Shown(ErrorLine(FailurePrefix + d))
    ensures Contains(Shown(ErrorLine(FailurePrefix + d)), d)
  {
    Labelled(FailurePrefix, d);
    Labelled(ErrorLabel + FailurePrefix, d);
    assert Shown(ErrorLine(FailurePrefix + d)) == ErrorLabel + (FailurePrefix + d);
    AppendAssoc(ErrorLabel, FailurePrefix, d);
  }

  /** A text behind a label starts with the label and contains the text. */
  lemma Labelled(tag: string, d: string)
    ensures tag <= tag + d && Contains(tag + d, d)
  {
    ContainsInfix(tag, d, "");
    assert tag + d + "" == tag + d;
    PrefixOfConcat(tag, d);
  }

  /** The exit status is 1 exactly for the fatal outcomes. */
  lemma FinishClassifies(s: Step<()>)
    ensures Finish(s).status == 1 <==> Fatal(s.result)
    ensures Finish(s).status == 0 <==> s.result.Ok? || s.result == Err(Decline)
  {
  }

  /** A declined confirmation ends the run exactly as success does. */
  lemma DeclineLikeOk(w: World)
    ensures Finish(Step(Err(Decline), w)) == Finish(Step(Ok(()), w))
  {
  }

  /** Two runs that fail with different errors write different reports. */
  lemma ReportsTellErrorsApart(e1: InstallError, e2: InstallError, w: World)
    requires Fatal(Err(e1)) && Fatal(Err(e2)) && Describe(e1) != Describe(e2)
    ensures Finish(Step(Err(e1), w)).world != Finish(Step(Err(e2), w)).world
  {
    var n := |w.out|;
    var t1, t2 := Finish(Step(Err(e1), w)).world.out[n].text, Finish(Step(Err(e2), w)).world.out[n].text;
    assert t1[|FailurePrefix|..] == Describe(e1);
    assert t2[|FailurePrefix|..] == Describe(e2);
  }

  /** `main`: the start note is written before `install` runs, and the
      outcome `install` reaches from there decides the exit status. */
  function Main(install: World -> Step<()>, w: World): (x: Exit)
    ensures x.status == 1 <==> Fatal(install(LogNote(w, StartText)).result)
    ensures !Fatal(install(LogNote(w, StartText)).result) ==> x.world == install(LogNote(w, StartText)).world
  {
    var s := install(LogNote(w, StartText));
    FinishClassifies(s);
    Finish(s)
  }

  /** With an install that only appends to the output, the start note is the
      first line the run writes. */
  lemma StartNoteFirst(install: World -> Step<()>, w: World)
    requires forall v: World :: v.out <= install(v).world.out
    ensures |w.out| < |Main(install, w).world.out|
    ensures Main(install, w).world.out[..|w.out| + 1] == w.out + [Note(StartText)]
    ensures Shown(Main(install, w).world.out[|w.out|]) == NoteLabel + StartText
  {
    var v := LogNote(w, StartText);
    var s := install(v);
    assert v.out <= s.world.out;
    var x := Main(install, w);
    assert s.world.out <= x.world.out by {
      if x.status == 1 { assert x.world.out[..|s.world.out|] == s.world.out; }
    }
    assert x.world.out[..|v.out|] == v.out;
  }
}
