/** The task bodies of src/installer.rs, each as the script of its steps.
    These are the functions the task table of src/tasks.rs points to. */
module Installer {
  import opened Results
  import opened Text
  import opened Errors
  import opened Paths
  import opened Machine
  import opened Script
  import Configuration

  type Config = Configuration.Config

  const InternetQuestion := "Are you connected to Internet"
  const DisksQuestion := "Do you have your disks setup?"

  function DisksChoiceQuestion(c: Config): string {
    "using " + Quoted(c.bootDisk) + " as boot disk and " + Quoted(c.systemDisk) + " as system disk, correct?"
  }

  const IpLink := Command("ip", ["link"])
  const SetNtp := Command("timedatectl", ["set-ntp", "true"])
  const ListDisks := Command("fdisk", ["-l"])
  const MakeEfiDir := Command("mkdir", ["-p", "/mnt/efi"])
  const Genfstab := Command("genfstab", ["-U", "/mnt"])

  /** Commands that format or mount a disk. */
  predicate Destroys(m: Mark) {
    m.Ran? && m.cmd.program in {"mkfs.ext4", "mkfs.fat", "mount"}
  }

  /** `download_base`. */
  function DownloadBase(c: Config): seq<Action> {
    [Described(Pacstrap, "installing essential packages")]
  }

  const Pacstrap := Command("pacstrap", ["/mnt", "base", "linux", "linux-firmware"])

  const FstabPath := "/mnt/etc/fstab"

  /** `base`: writes the fstab from `genfstab`, then hands `base_in_chroot`
      across the chroot. */
  function Base(c: Config): seq<Action> {
    [SaveOutput(Genfstab, "Generating fstab", "/mnt/etc/fstab"), WithChroot("base_in_chroot")]
  }

  const HostName := "wpc"
  const HostsLines := ["127.0.0.1\tlocalhost", "::1\t\tlocalhost", "127.0.1.1\twpc.localdomain\twpc"]

  /** The hostname and hosts-file steps of `base_in_chroot`. */
  function NamingSteps(host: string, entries: seq<string>): seq<Action> {
    [SetFile(HostnamePath, host)] + Appends(HostsPath, entries)
  }

  const Timezone := Command("ln", ["-sf", "/usr/share/zoneinfo/Europe/Moscow", "/etc/localtime"])
  const Hwclock := Command("hwclock", ["--systohc"])
  const LocaleGen := Command("locale-gen", [])
  const Microcode := Command("pacman", ["--noconfirm", "-S", "intel-ucode"])

  /** The timezone, clock and locale steps of `base_in_chroot`. */
  function ClockSteps(): seq<Action> {
    [Described(Timezone, "setting timezone"),
     Described(Hwclock, "setting Hardware Clock from Software Clock"),
     Described(LocaleGen, "generating locale")]
  }

  /** `base_in_chroot`. */
  function BaseInChroot(c: Config): seq<Action> {
    ClockSteps() + NamingSteps(HostName, HostsLines) + [Described(Microcode, "install intel microcode")]
  }

  /** `bootloader`: only hands `bootloader_in_chroot` across the chroot. */
  function Bootloader(c: Config): seq<Action> {
    [WithChroot("bootloader_in_chroot")]
  }

  /** `bootloader_in_chroot` (BIOS variant). */
  function BootloaderInChroot(c: Config): seq<Action> {
    [Described(Command("pacman", ["--noconfirm", "-S", "grub"]), "install grub"),
     Described(GrubBios(c), "Install bootloader (Grub) in bios mode"),
     Described(GrubConfig, "Generating grub config")]
  }

  function GrubBios(c: Config): Command {
    Command("grub-install", ["--debug", c.installDisk])
  }

  const GrubConfig := Command("grub-mkconfig", ["-o", "/boot/grub/grub.cfg"])

  /** The part of `prepare` before anything is formatted: two questions,
      a look at the network, the clock and the disks, and the question about
      the chosen disks. */
  function PrepareChecks(c: Config): seq<Action> {
    [Confirm(InternetQuestion),
     Confirm(DisksQuestion),
     Described(IpLink, "Current network settings"),
     Described(SetNtp, "Updating system clock"),
     Action.Note("Your disks:"),
     Plain(ListDisks),
     Confirm(DisksChoiceQuestion(c))]
  }

  /** The part of `prepare` that formats and mounts (ext4 on both disks). */
  function PrepareDisks(c: Config): seq<Action> {
    [Described(Command("mkfs.ext4", [c.bootDisk]), "formatting boot disk"),
     Described(Command("mkfs.ext4", [c.systemDisk]), "formatting system disk"),
     Action.Note("mounting disks"),
     Plain(Command("mount", [c.systemDisk, "/mnt"])),
     Plain(MakeEfiDir),
     Plain(Command("mount", [c.bootDisk, "/mnt/efi"]))]
  }

  /** `prepare`. */
  function Prepare(c: Config): seq<Action> {
    PrepareChecks(c) + PrepareDisks(c)
  }

  /** The events of the checks of `prepare` when all of them succeed. */
  function ChecksMarks(c: Config): seq<Mark> {
    [Question(InternetQuestion), Question(DisksQuestion), Ran(IpLink), Ran(SetNtp), Ran(ListDisks),
     Question(DisksChoiceQuestion(c))]
  }

  lemma PlanOfPrepareChecks(c: Config)
    ensures Plan(PrepareChecks(c)) == ChecksMarks(c)
  {
    var s := PrepareChecks(c);
    assert Plan(s[6..]) == [Question(DisksChoiceQuestion(c))];
    assert Plan(s[5..]) == [Ran(ListDisks)] + Plan(s[6..]);
    assert Plan(s[4..]) == Plan(s[5..]);
    assert Plan(s[3..]) == [Ran(SetNtp)] + Plan(s[4..]);
    assert Plan(s[2..]) == [Ran(IpLink)] + Plan(s[3..]);
    assert Plan(s[1..]) == [Question(DisksQuestion)] + Plan(s[2..]);
  }

  lemma PlanOfPrepareDisks(c: Config)
    ensures Plan(PrepareDisks(c)) ==
      [Ran(Command("mkfs.ext4", [c.bootDisk])), Ran(Command("mkfs.ext4", [c.systemDisk])),
       Ran(Command("mount", [c.systemDisk, "/mnt"])), Ran(MakeEfiDir), Ran(Command("mount", [c.bootDisk, "/mnt/efi"]))]
  {
    var s := PrepareDisks(c);
    assert Plan(s[5..]) == [Ran(Command("mount", [c.bootDisk, "/mnt/efi"]))];
    assert Plan(s[4..]) == [Ran(MakeEfiDir)] + Plan(s[5..]);
    assert Plan(s[3..]) == [Ran(Command("mount", [c.systemDisk, "/mnt"]))] + Plan(s[4..]);
    assert Plan(s[2..]) == Plan(s[3..]);
    assert Plan(s[1..]) == [Ran(Command("mkfs.ext4", [c.systemDisk]))] + Plan(s[2..]);
  }

  /** The three answers `prepare` needs before it touches a disk: the checks
      ran to the end within the run of `PrepareChecks(c) + disks`, and their
      six events are the internet question, the disk question, three commands
      and the question naming the chosen boot and system disks, every
      question answered yes. */
  ghost predicate ChecksPassed(c: Config, disks: seq<Action>, w: World, o: Oracle) {
    var g := RunAll(PrepareChecks(c), w, o);
    var e := Since(w.trace, g.world.trace);
    && g.result.Ok?
    && g.world.trace <= RunAll(PrepareChecks(c) + disks, w, o).world.trace
    && |e| == 6
    && e[0] == Asked(InternetQuestion, Yes)
    && e[1] == Asked(DisksQuestion, Yes)
    && e[5] == Asked(DisksChoiceQuestion(c), Yes)
  }

  /** The checks of `prepare` followed by any disk steps that cannot decline:
      no format or mount command runs unless the operator said yes to all
      three questions, and a decline leaves every disk untouched. */
  lemma GatedDisks(c: Config, disks: seq<Action>, w: World, o: Oracle)
    requires forall i :: 0 <= i < |disks| ==> !MayDecline(disks[i])
    ensures var r := RunAll(PrepareChecks(c) + disks, w, o); var t := Marks(Since(w.trace, r.world.trace));
      && ((exists i :: 0 <= i < |t| && Destroys(t[i])) ==> ChecksPassed(c, disks, w, o))
      && (r.result == Err(Decline) ==> forall i :: 0 <= i < |t| ==> !Destroys(t[i]))
  {
    var gate := PrepareChecks(c);
    PerformLawful(o);
    Gated(PerformWith(o), gate, disks, w);
    PlanOfPrepareChecks(c);
    var g := RunAll(gate, w, o);
    var r := RunAll(gate + disks, w, o);
    if g.result.Err? {
      ChainMarks(PerformWith(o), gate, w);
      ChecksQuiet(c, Marks(Since(w.trace, r.world.trace)));
    } else {
      ChecksAnswered(c, Since(w.trace, g.world.trace));
    }
  }

  /** None of the checks' events formats or mounts anything. */
  lemma ChecksQuiet(c: Config, t: seq<Mark>)
    requires t <= ChecksMarks(c)
    ensures forall i :: 0 <= i < |t| ==> !Destroys(t[i])
  {
    assert forall i :: 0 <= i < |t| ==> t[i] == ChecksMarks(c)[i];
  }

  /** Events that match the checks' marks with every question answered yes
      are the three yes answers at positions 0, 1 and 5. */
  lemma ChecksAnswered(c: Config, e: seq<Event>)
    requires Marks(e) == ChecksMarks(c) && AllYes(e)
    ensures |e| == 6
    ensures e[0] == Asked(InternetQuestion, Yes)
    ensures e[1] == Asked(DisksQuestion, Yes)
    ensures e[5] == Asked(DisksChoiceQuestion(c), Yes)
  {
    assert MarkOf(e[0]) == Question(InternetQuestion);
    assert MarkOf(e[1]) == Question(DisksQuestion);
    assert MarkOf(e[5]) == Question(DisksChoiceQuestion(c));
  }

  /** `prepare` formats or mounts nothing unless the operator said yes to all
      three questions, and a decline leaves every disk untouched. */
  lemma PrepareGated(c: Config, w: World, o: Oracle)
    ensures var r := RunAll(Prepare(c), w, o); var t := Marks(Since(w.trace, r.world.trace));
      && ((exists i :: 0 <= i < |t| && Destroys(t[i])) ==> ChecksPassed(c, PrepareDisks(c), w, o))
      && (r.result == Err(Decline) ==> forall i :: 0 <= i < |t| ==> !Destroys(t[i]))
  {
    GatedDisks(c, PrepareDisks(c), w, o);
  }

  function PrepareMarks(c: Config): seq<Mark> {
    ChecksMarks(c) +
    [Ran(Command("mkfs.ext4", [c.bootDisk])), Ran(Command("mkfs.ext4", [c.systemDisk])),
     Ran(Command("mount", [c.systemDisk, "/mnt"])), Ran(MakeEfiDir),
     Ran(Command("mount", [c.bootDisk, "/mnt/efi"]))]
  }

  /** A successful `prepare` asks, inspects, formats the boot and then the
      system disk, and mounts the system disk on `/mnt` and the boot disk on
      `/mnt/efi`, in exactly this order. */
  lemma PrepareOrder(c: Config, w: World, o: Oracle)
    ensures var r := RunAll(Prepare(c), w, o);
      (r.result.Ok? ==> Marks(Since(w.trace, r.world.trace)) == PrepareMarks(c))
  {
    PerformLawful(o);
    ChainMarks(PerformWith(o), Prepare(c), w);
    PlanAppend(PrepareChecks(c), PrepareDisks(c));
    PlanOfPrepareChecks(c);
    PlanOfPrepareDisks(c);
  }

  /** `base` crosses into the chroot only after the fstab was written: it
      starts `genfstab -U /mnt` capturing its stdout, and the hand-off happens
      exactly when that output was non-empty and landed in `/mnt/etc/fstab`.
      The nested run starts from the file system holding the new fstab, and
      its result and files are those `base` ends with; otherwise the run ends
      at `genfstab` with the file system untouched. */
  lemma BaseCrossesAfterFstab(c: Config, w: World, o: Oracle)
    ensures var r := RunAll(Base(c), w, o);
      var spawn := Spawn(Genfstab, w.env, None, CapturingStdout);
      var reply := o.reply(|w.trace|, spawn);
      var saved := reply.Exited? && reply.code == 0 && |reply.stdout| > 0 && !(FstabPath in w.fs && w.fs[FstabPath].Dir?);
      && Since(w.trace, r.world.trace) == [Spawned(spawn)] + (if saved then [Crossed("base_in_chroot")] else [])
      && (saved ==>
            var h := o.chroot(|w.trace| + 1, "base_in_chroot", w.fs[FstabPath := File(reply.stdout)]);
            r.world.fs == h.fs && r.result == h.result)
      && (!saved ==> r.world.fs == w.fs && r.result.Err?)
  {
    var b := Base(c);
    var s := Perform(b[0], w, o);
    if s.result.Ok? {
      assert b[1..] == [WithChroot("base_in_chroot")];
      PerformLawful(o);
      ChainSingle(PerformWith(o), WithChroot("base_in_chroot"), s.world);
    }
  }

  /** `bootloader` does nothing but hand `bootloader_in_chroot` across the
      chroot: its result and the files it leaves are that run's, and the
      environment is kept. */
  lemma BootloaderOnlyCrosses(c: Config, w: World, o: Oracle)
    ensures var r := RunAll(Bootloader(c), w, o); var h := o.chroot(|w.trace|, "bootloader_in_chroot", w.fs);
      && Since(w.trace, r.world.trace) == [Crossed("bootloader_in_chroot")]
      && r.result == h.result && r.world.fs == h.fs && r.world.env == w.env
  {
    PerformLawful(o);
    ChainSingle(PerformWith(o), WithChroot("bootloader_in_chroot"), w);
  }

  /** `download_base` changes no file and fails only with an I/O error; when
      it succeeds it has run `pacstrap` into `/mnt` and nothing else. */
  lemma DownloadBaseRuns(c: Config, w: World, o: Oracle)
    ensures var r := RunAll(DownloadBase(c), w, o);
      && r.world.fs == w.fs
      && (r.result.Err? ==> r.result.error.IoError?)
      && (r.result.Ok? ==> Marks(Since(w.trace, r.world.trace)) == [Ran(Pacstrap)])
  {
    CommandsOnly(DownloadBase(c), w, o);
  }

  /** `bootloader_in_chroot` changes no file and fails only with an I/O
      error; when it succeeds it has installed the grub package, run
      `grub-install` on the configured install disk and then generated the
      grub configuration, in that order. */
  lemma BootloaderInChrootRuns(c: Config, w: World, o: Oracle)
    ensures var r := RunAll(BootloaderInChroot(c), w, o);
      && r.world.fs == w.fs
      && (r.result.Err? ==> r.result.error.IoError?)
      && (r.result.Ok? ==>
            Marks(Since(w.trace, r.world.trace)) ==
              [Ran(Command("pacman", ["--noconfirm", "-S", "grub"])), Ran(GrubBios(c)), Ran(GrubConfig)])
  {
    CommandsOnly(BootloaderInChroot(c), w, o);
  }

  const HostnamePath := "/etc/hostname"
  const HostsPath := "/etc/hosts"

  /** The naming steps succeed exactly when `/etc/hostname` is not a directory
      and `/etc/hosts` already exists. Then the hostname file holds the host
      name twice (the doubling `set_file`), the hosts file holds its old bytes
      followed by the entries in order, and no other file changes. A failure
      at the hostname changes nothing; a failure at the hosts file leaves only
      the hostname written. */
  lemma NamingEffects(host: string, entries: seq<string>, w: World, o: Oracle)
    requires |entries| > 0
    ensures var r := RunAll(NamingSteps(host, entries), w, o);
      var named := w.fs[HostnamePath := File(Utf8(host + host))];
      && (r.result.Ok? <==> !(HostnamePath in w.fs && w.fs[HostnamePath].Dir?) && IsFile(w.fs, HostsPath))
      && (r.result.Ok? ==>
            r.world.fs == named[HostsPath := File(w.fs[HostsPath].data + Utf8(Concat(entries)))])
      && (r.result.Err? ==>
            r.world.fs == if HostnamePath in w.fs && w.fs[HostnamePath].Dir? then w.fs else named)
  {
    var naming := SetFile(HostnamePath, host);
    PerformLawful(o);
    ChainAppend(PerformWith(o), [naming], Appends(HostsPath, entries), w);
    ChainSingle(PerformWith(o), naming, w);
    var s1 := Utils.SetFile(HostnamePath, host, w);
    if s1.result.Ok? {
      AppendsInOrder(HostsPath, entries, s1.world, o);
    }
  }

  /** The three hosts entries are written one after the other with no line
      break anywhere, so the hosts file gains a single run-together line. */
  lemma HostsRunTogether()
    ensures Concat(HostsLines) == HostsLines[0] + HostsLines[1] + HostsLines[2]
    ensures forall i :: 0 <= i < |Concat(HostsLines)| ==> Concat(HostsLines)[i] != '\n'
  {
    var h := HostsLines;
    assert Concat(h[2..]) == h[2] by { assert h[2..][1..] == []; }
    assert Concat(h[1..]) == h[1] + Concat(h[2..]) by { assert h[1..][1..] == h[2..]; }
    assert Concat(h) == h[0] + h[1] + h[2];
    assert forall i :: 0 <= i < |h[0]| ==> h[0][i] != '\n';
    assert forall i :: 0 <= i < |h[1]| ==> h[1][i] != '\n';
    assert forall i :: 0 <= i < |h[2]| ==> h[2][i] != '\n';
  }

  /** Each entry followed by its own line break: what the hosts file is
      evidently meant to gain. */
  function AsLines(entries: seq<string>): (r: seq<string>)
    ensures |r| == |entries|
    ensures forall i :: 0 <= i < |entries| ==> r[i] == entries[i] + "\n"
  {
    if |entries| == 0 then [] else [entries[0] + "\n"] + AsLines(entries[1..])
  }

  /** Appended as lines, the entries land one per line: the appended text is
      the entries joined by line breaks and ended by one. */
  lemma {:induction false} AsLinesJoin(entries: seq<string>)
    requires |entries| > 0
    ensures Concat(AsLines(entries)) == JoinLines(entries) + "\n"
    decreases |entries|
  {
    var l := AsLines(entries);
    assert l[1..] == AsLines(entries[1..]);
    if |entries| > 1 {
      AsLinesJoin(entries[1..]);
      AppendAssoc(entries[0] + "\n", JoinLines(entries[1..]), "\n");
    }
  }

  /** The corrected hostname and hosts steps: every entry appended as a
      line of its own. */
  function NamingStepsFixed(host: string, entries: seq<string>): seq<Action> {
    NamingSteps(host, AsLines(entries))
  }

  /** With the line breaks added, a successful run leaves the hosts file with
      its old bytes followed by the entries joined by line breaks and ended
      by one. */
  lemma HostsFixedOnOwnLines(host: string, entries: seq<string>, w: World, o: Oracle)
    requires |entries| > 0
    ensures var r := RunAll(NamingStepsFixed(host, entries), w, o);
      r.result.Ok? ==>
        && IsFile(w.fs, HostsPath) && HostsPath in r.world.fs
        && r.world.fs[HostsPath] == File(w.fs[HostsPath].data + Utf8(JoinLines(entries) + "\n"))
  {
    NamingEffects(host, AsLines(entries), w, o);
    AsLinesJoin(entries);
  }

  /** The three entries joined by line breaks. */
  lemma HostsJoined()
    ensures JoinLines(HostsLines) == HostsLines[0] + "\n" + HostsLines[1] + "\n" + HostsLines[2]
  {
    var h := HostsLines;
    assert JoinLines(h[2..]) == h[2];
    assert JoinLines(h[1..]) == h[1] + "\n" + JoinLines(h[2..]) by { assert h[1..][1..] == h[2..]; }
  }

  lemma {:induction false} PlanOfNaming(host: string, entries: seq<string>)
    ensures Plan(NamingSteps(host, entries)) == []
  {
    var n := NamingSteps(host, entries);
    forall k | 0 <= k <= |n|
      ensures Plan(n[k..]) == []
    {
      PlanSuffixQuiet(n, k);
    }
    assert n[0..] == n;
  }

  lemma {:induction false} PlanSuffixQuiet(n: seq<Action>, k: nat)
    requires k <= |n|
    requires forall i :: 0 <= i < |n| ==> n[i].SetFile? || n[i].AppendToFile?
    ensures Plan(n[k..]) == []
    decreases |n| - k
  {
    if k < |n| {
      PlanSuffixQuiet(n, k + 1);
      assert n[k..][1..] == n[k + 1..];
    }
  }

  /** A `base_in_chroot`-shaped script: steps that only run commands, the
      naming steps, then more command-only steps. When it succeeds, the only
      files it changed are the hostname and the hosts file, as the naming
      steps leave them. */
  lemma ChrootSetupEffects(pre: seq<Action>, host: string, entries: seq<string>, post: seq<Action>, w: World, o: Oracle)
    requires |entries| > 0
    requires forall i :: 0 <= i < |pre| ==> !TouchesFiles(pre[i]) && !pre[i].SetVar?
    requires forall i :: 0 <= i < |post| ==> !TouchesFiles(post[i])
    ensures var r := RunAll(pre + NamingSteps(host, entries) + post, w, o);
      r.result.Ok? ==>
        && IsFile(w.fs, HostsPath)
        && r.world.fs == w.fs[HostnamePath := File(Utf8(host + host))]
                             [HostsPath := File(w.fs[HostsPath].data + Utf8(Concat(entries)))]
  {
    var naming := NamingSteps(host, entries);
    PerformLawful(o);
    ChainAppend(PerformWith(o), pre + naming, post, w);
    ChainAppend(PerformWith(o), pre, naming, w);
    var p := RunAll(pre, w, o);
    ChainKeeps(PerformWith(o), pre, w);
    if p.result.Ok? {
      NamingEffects(host, entries, p.world, o);
      var m := RunAll(naming, p.world, o);
      if m.result.Ok? {
        ChainKeeps(PerformWith(o), post, m.world);
      }
    }
  }

  /** A successful `base_in_chroot` writes the host name (twice) to
      `/etc/hostname`, appends the three hosts entries to an existing
      `/etc/hosts`, and changes no other file. */
  lemma BaseInChrootFiles(c: Config, w: World, o: Oracle)
    ensures var r := RunAll(BaseInChroot(c), w, o);
      r.result.Ok? ==>
        && IsFile(w.fs, HostsPath)
        && r.world.fs == w.fs[HostnamePath := File(Utf8(HostName + HostName))]
                             [HostsPath := File(w.fs[HostsPath].data + Utf8(Concat(HostsLines)))]
  {
    var pre := ClockSteps();
    var post := [Described(Microcode, "install intel microcode")];
    assert BaseInChroot(c) == pre + NamingSteps(HostName, HostsLines) + post;
    assert forall i :: 0 <= i < |pre| ==> pre[i].Described?;
    ChrootSetupEffects(pre, HostName, HostsLines, post, w, o);
  }

  /** A successful `base_in_chroot` runs the timezone, clock, locale and
      microcode commands, in that order, and nothing else. */
  lemma BaseInChrootOrder(c: Config, w: World, o: Oracle)
    ensures var r := RunAll(BaseInChroot(c), w, o);
      r.result.Ok? ==> Marks(Since(w.trace, r.world.trace)) == [Ran(Timezone), Ran(Hwclock), Ran(LocaleGen), Ran(Microcode)]
  {
    PerformLawful(o);
    ChainMarks(PerformWith(o), BaseInChroot(c), w);
    PlanOfBaseInChroot(c);
  }

  lemma PlanOfBaseInChroot(c: Config)
    ensures Plan(BaseInChroot(c)) == [Ran(Timezone), Ran(Hwclock), Ran(LocaleGen), Ran(Microcode)]
  {
    var pre := ClockSteps();
    var naming := NamingSteps(HostName, HostsLines);
    var post := [Described(Microcode, "install intel microcode")];
    PlanAppend(pre + naming, post);
    PlanAppend(pre, naming);
    PlanOfNaming(HostName, HostsLines);
    PlanOfClockSteps();
    assert Plan(post) == [Ran(Microcode)];
    assert [Ran(Timezone), Ran(Hwclock), Ran(LocaleGen)] + [] + [Ran(Microcode)] == [Ran(Timezone), Ran(Hwclock), Ran(LocaleGen), Ran(Microcode)];
  }

  lemma PlanOfClockSteps()
    ensures Plan(ClockSteps()) == [Ran(Timezone), Ran(Hwclock), Ran(LocaleGen)]
  {
    var pre := ClockSteps();
    assert Plan(pre[2..]) == [Ran(LocaleGen)];
    assert Plan(pre[1..]) == [Ran(Hwclock)] + Plan(pre[2..]);
  }
}
