/** The UEFI variant of the task bodies, src/installer/boot_kernel.rs. The
    confirmation checks, `download_base`, `base` and `bootloader` are the
    same scripts as in src/installer.rs and are shared with module Installer;
    the disk formatting, `base_in_chroot` and `bootloader_in_chroot` differ,
    and the file adds the staging of the installer for the next boot. */
module BootKernel {
  import opened Results
  import opened Text
  import opened Errors
  import opened Paths
  import opened Machine
  import opened Script
  import Installer

  type Config = Installer.Config

  /** `prepare`'s disk steps in this variant: FAT32 on the boot disk, ext4 on
      the system disk. */
  function PrepareDisks(c: Config): seq<Action> {
    [Described(Command("mkfs.fat", ["-F32", c.bootDisk]), "formatting boot disk"),
     Described(Command("mkfs.ext4", [c.systemDisk]), "formatting system disk"),
     Action.Note("mounting disks"),
     Plain(Command("mount", [c.systemDisk, "/mnt"])),
     Plain(Installer.MakeEfiDir),
     Plain(Command("mount", [c.bootDisk, "/mnt/efi"]))]
  }

  /** `prepare`. */
  function Prepare(c: Config): seq<Action> {
    Installer.PrepareChecks(c) + PrepareDisks(c)
  }

  const EnableNtp := Command("timedatectl", ["set-ntp", "true"])

  /** The timezone, clock and locale steps, with time synchronisation switched
      on after the timezone. */
  function ClockSteps(): seq<Action> {
    [Described(Installer.Timezone, "setting timezone"),
     Described(EnableNtp, "enable ntp"),
     Described(Installer.Hwclock, "setting Hardware Clock from Software Clock"),
     Described(Installer.LocaleGen, "generating locale")]
  }

  /** `base_in_chroot`. */
  function BaseInChroot(c: Config): seq<Action> {
    ClockSteps() + Installer.NamingSteps(Installer.HostName, Installer.HostsLines)
    + [Described(Installer.Microcode, "install intel microcode")]
  }

  const GrubEfi := Command("grub-install", ["--debug", "--target=x86_64-efi", "--efi-directory=/efi", "--bootloader-id=GRUB"])

  /** `bootloader_in_chroot` (UEFI variant). */
  function BootloaderInChroot(c: Config): seq<Action> {
    [Described(Command("pacman", ["--noconfirm", "-S", "grub", "efibootmgr"]), "install grub"),
     Described(GrubEfi, "Install bootloader (Grub) in UEFI mode"),
     Described(Installer.GrubConfig, "Generating grub config")]
  }

  /** `reboot`. */
  function Reboot(c: Config): seq<Action> {
    [Described(RebootNow, "rebooting")]
  }

  const RebootNow := Command("reboot", ["-h", "now"])

  /** `bootloader_in_chroot` changes no file and fails only with an I/O
      error; when it succeeds it has installed grub with `efibootmgr`, run the
      UEFI `grub-install` and generated the grub configuration, in that
      order. Unlike the BIOS variant it names no disk. */
  lemma BootloaderInChrootRuns(c: Config, w: World, o: Oracle)
    ensures var r := RunAll(BootloaderInChroot(c), w, o);
      && r.world.fs == w.fs
      && (r.result.Err? ==> r.result.error.IoError?)
      && (r.result.Ok? ==>
            Marks(Since(w.trace, r.world.trace)) ==
              [Ran(Command("pacman", ["--noconfirm", "-S", "grub", "efibootmgr"])), Ran(GrubEfi), Ran(Installer.GrubConfig)])
  {
    CommandsOnly(BootloaderInChroot(c), w, o);
  }

  /** `reboot` changes no file and, when it succeeds, has run `reboot -h now`
      and nothing else. */
  lemma RebootRuns(c: Config, w: World, o: Oracle)
    ensures var r := RunAll(Reboot(c), w, o);
      && r.world.fs == w.fs
      && (r.result.Err? ==> r.result.error.IoError?)
      && (r.result.Ok? ==> Marks(Since(w.trace, r.world.trace)) == [Ran(RebootNow)])
  {
    CommandsOnly(Reboot(c), w, o);
  }

  /** The common shape of the two continuation stagings: create the
      installer directory, copy the configuration document and the running
      executable into it, and write the continuation script. */
  function StagingSteps(dir: Path, config: Path, configTo: Path, exeTo: Path, script: Path, text: string): seq<Action> {
    StagingCopies(dir, config, configTo, exeTo) + [SetFile(script, text)]
  }

  function StagingCopies(dir: Path, config: Path, configTo: Path, exeTo: Path): seq<Action> {
    [CreateDirAll(dir), Copy(config, configTo), CopyExe(exeTo)]
  }

  /** What the executable's copy holds: the executable's bytes, or the
      configuration's when the executable is the file the configuration was
      just copied over. */
  function ExeBytes(w: World, config: Path, configTo: Path): Node
    requires w.exe.Some? && config in w.fs
    requires w.exe.value == configTo || w.exe.value in w.fs
  {
    if w.exe.value == configTo then w.fs[config] else w.fs[w.exe.value]
  }

  /** The staging steps start no command and ask nothing. When they succeed
      the configuration file and the executable existed, and the file system
      is the old one with the directory created, the configuration and the
      executable copied, and the continuation script holding its text twice
      (the doubling `set_file`); nothing else changed. */
  lemma StagingEffects(dir: Path, config: Path, configTo: Path, exeTo: Path, script: Path, text: string, w: World, o: Oracle)
    ensures var r := RunAll(StagingSteps(dir, config, configTo, exeTo, script, text), w, o);
      && r.world.trace == w.trace && r.world.env == w.env
      && (r.result.Ok? ==>
            && IsFile(w.fs, config) && config != dir && w.exe.Some?
            && (w.exe.value == configTo || w.exe.value in w.fs)
            && r.world.fs == w.fs[dir := Dir][configTo := w.fs[config]][exeTo := ExeBytes(w, config, configTo)]
                                 [script := File(Utf8(text + text))])
  {
    var copies := StagingCopies(dir, config, configTo, exeTo);
    PerformLawful(o);
    ChainAppend(PerformWith(o), copies, [SetFile(script, text)], w);
    CopiesEffects(dir, config, configTo, exeTo, w, o);
    var s := RunAll(copies, w, o);
    if s.result.Ok? {
      ChainSingle(PerformWith(o), SetFile(script, text), s.world);
    }
  }

  /** The directory and the two copies: no event, and on success the
      directory exists and both copies hold their sources' bytes. */
  lemma CopiesEffects(dir: Path, config: Path, configTo: Path, exeTo: Path, w: World, o: Oracle)
    ensures var r := RunAll(StagingCopies(dir, config, configTo, exeTo), w, o);
      && r.world.trace == w.trace && r.world.env == w.env
      && (r.result.Ok? ==>
            && IsFile(w.fs, config) && config != dir && w.exe.Some?
            && (w.exe.value == configTo || w.exe.value in w.fs)
            && r.world.fs == w.fs[dir := Dir][configTo := w.fs[config]][exeTo := ExeBytes(w, config, configTo)])
  {
    var steps := StagingCopies(dir, config, configTo, exeTo);
    assert steps == [steps[0]] + ([steps[1]] + [steps[2]]);
    PerformLawful(o);
    ChainCons(PerformWith(o), steps[0], [steps[1]] + [steps[2]], w);
    var s1 := Utils.CreateDirAll(dir, w);
    if s1.result.Ok? {
      ChainCons(PerformWith(o), steps[1], [steps[2]], s1.world);
      var s2 := Utils.Copy(config, configTo, s1.world);
      if s2.result.Ok? {
        ChainSingle(PerformWith(o), steps[2], s2.world);
      }
    }
  }

  /** The events of a successful `prepare` in this variant. */
  function PrepareMarks(c: Config): seq<Mark> {
    Installer.ChecksMarks(c) +
    [Ran(Command("mkfs.fat", ["-F32", c.bootDisk])), Ran(Command("mkfs.ext4", [c.systemDisk])),
     Ran(Command("mount", [c.systemDisk, "/mnt"])), Ran(Installer.MakeEfiDir),
     Ran(Command("mount", [c.bootDisk, "/mnt/efi"]))]
  }

  /** `prepare` formats or mounts nothing unless the operator said yes to all
      three questions, and a decline leaves every disk untouched. */
  lemma PrepareGated(c: Config, w: World, o: Oracle)
    ensures var r := RunAll(Prepare(c), w, o); var t := Marks(Since(w.trace, r.world.trace));
      && ((exists i :: 0 <= i < |t| && Installer.Destroys(t[i])) ==> Installer.ChecksPassed(c, PrepareDisks(c), w, o))
      && (r.result == Err(Decline) ==> forall i :: 0 <= i < |t| ==> !Installer.Destroys(t[i]))
  {
    Installer.GatedDisks(c, PrepareDisks(c), w, o);
  }

  /** A successful `prepare` asks and inspects as the BIOS variant does, then
      formats the boot disk as FAT32 before the system disk as ext4, and
      mounts the system disk on `/mnt` before the boot disk on `/mnt/efi`. */
  lemma PrepareOrder(c: Config, w: World, o: Oracle)
    ensures var r := RunAll(Prepare(c), w, o);
      (r.result.Ok? ==> Marks(Since(w.trace, r.world.trace)) == PrepareMarks(c))
  {
    PerformLawful(o);
    ChainMarks(PerformWith(o), Prepare(c), w);
    PlanAppend(Installer.PrepareChecks(c), PrepareDisks(c));
    Installer.PlanOfPrepareChecks(c);
    PlanOfPrepareDisks(c);
  }

  lemma PlanOfPrepareDisks(c: Config)
    ensures Plan(PrepareDisks(c)) ==
      [Ran(Command("mkfs.fat", ["-F32", c.bootDisk])), Ran(Command("mkfs.ext4", [c.systemDisk])),
       Ran(Command("mount", [c.systemDisk, "/mnt"])), Ran(Installer.MakeEfiDir),
       Ran(Command("mount", [c.bootDisk, "/mnt/efi"]))]
  {
    var s := PrepareDisks(c);
    assert Plan(s[5..]) == [Ran(Command("mount", [c.bootDisk, "/mnt/efi"]))];
    assert Plan(s[4..]) == [Ran(Installer.MakeEfiDir)] + Plan(s[5..]);
    assert Plan(s[3..]) == [Ran(Command("mount", [c.systemDisk, "/mnt"]))] + Plan(s[4..]);
    assert Plan(s[2..]) == Plan(s[3..]);
    assert Plan(s[1..]) == [Ran(Command("mkfs.ext4", [c.systemDisk]))] + Plan(s[2..]);
  }

  lemma PlanOfClockSteps()
    ensures Plan(ClockSteps()) == [Ran(Installer.Timezone), Ran(EnableNtp), Ran(Installer.Hwclock), Ran(Installer.LocaleGen)]
  {
    var pre := ClockSteps();
    assert Plan(pre[3..]) == [Ran(Installer.LocaleGen)];
    assert Plan(pre[2..]) == [Ran(Installer.Hwclock)] + Plan(pre[3..]);
    assert Plan(pre[1..]) == [Ran(EnableNtp)] + Plan(pre[2..]);
  }

  /** A successful `base_in_chroot` writes the host name (twice) to
      `/etc/hostname`, appends the three hosts entries to an existing
      `/etc/hosts`, and changes no other file. */
  lemma BaseInChrootFiles(c: Config, w: World, o: Oracle)
    ensures var r := RunAll(BaseInChroot(c), w, o);
      r.result.Ok? ==>
        && IsFile(w.fs, Installer.HostsPath)
        && r.world.fs == w.fs[Installer.HostnamePath := File(Utf8(Installer.HostName + Installer.HostName))]
                             [Installer.HostsPath := File(w.fs[Installer.HostsPath].data + Utf8(Concat(Installer.HostsLines)))]
  {
    var pre := ClockSteps();
    var post := [Described(Installer.Microcode, "install intel microcode")];
    assert BaseInChroot(c) == pre + Installer.NamingSteps(Installer.HostName, Installer.HostsLines) + post;
    assert forall i :: 0 <= i < |pre| ==> pre[i].Described?;
    Installer.ChrootSetupEffects(pre, Installer.HostName, Installer.HostsLines, post, w, o);
  }

  /** A successful `base_in_chroot` runs the timezone, time-sync, clock, locale and
      microcode commands, in that order, and nothing else. */
  lemma BaseInChrootOrder(c: Config, w: World, o: Oracle)
    ensures var r := RunAll(BaseInChroot(c), w, o);
      r.result.Ok? ==> Marks(Since(w.trace, r.world.trace)) == [Ran(Installer.Timezone), Ran(EnableNtp), Ran(Installer.Hwclock), Ran(Installer.LocaleGen), Ran(Installer.Microcode)]
  {
    PerformLawful(o);
    ChainMarks(PerformWith(o), BaseInChroot(c), w);
    PlanOfBaseInChroot(c);
  }

  lemma PlanOfBaseInChroot(c: Config)
    ensures Plan(BaseInChroot(c)) == [Ran(Installer.Timezone), Ran(EnableNtp), Ran(Installer.Hwclock), Ran(Installer.LocaleGen), Ran(Installer.Microcode)]
  {
    var pre := ClockSteps();
    var naming := Installer.NamingSteps(Installer.HostName, Installer.HostsLines);
    var post := [Described(Installer.Microcode, "install intel microcode")];
    PlanAppend(pre + naming, post);
    PlanAppend(pre, naming);
    Installer.PlanOfNaming(Installer.HostName, Installer.HostsLines);
    PlanOfClockSteps();
    assert Plan(post) == [Ran(Installer.Microcode)];
    assert [Ran(Installer.Timezone), Ran(EnableNtp), Ran(Installer.Hwclock), Ran(Installer.LocaleGen)] + [] + [Ran(Installer.Microcode)] == [Ran(Installer.Timezone), Ran(EnableNtp), Ran(Installer.Hwclock), Ran(Installer.LocaleGen), Ran(Installer.Microcode)];
  }

  /** With four distinct destinations, a successful staging can be read back:
      the configuration copy holds the configuration's bytes, the executable
      copy the executable's (unless the executable is the configuration copy
      itself), and the script its text twice. */
  lemma StagingReadBack(dir: Path, config: Path, configTo: Path, exeTo: Path, script: Path, text: string, w: World, o: Oracle)
    requires dir != configTo && dir != exeTo && dir != script
    requires configTo != exeTo && configTo != script && exeTo != script
    ensures var r := RunAll(StagingSteps(dir, config, configTo, exeTo, script, text), w, o);
      r.result.Ok? ==>
        && IsFile(w.fs, config) && w.exe.Some?
        && dir in r.world.fs && r.world.fs[dir] == Dir
        && configTo in r.world.fs && r.world.fs[configTo] == w.fs[config]
        && exeTo in r.world.fs
        && (w.exe.value != configTo ==> w.exe.value in w.fs && r.world.fs[exeTo] == w.fs[w.exe.value])
        && script in r.world.fs && r.world.fs[script] == File(Utf8(text + text))
        && forall p :: p in w.fs && p != dir && p != configTo && p != exeTo && p != script ==>
             p in r.world.fs && r.world.fs[p] == w.fs[p]
  {
    StagingEffects(dir, config, configTo, exeTo, script, text, w, o);
  }

  /** The installer directory as the new system sees it, and the same
      directory seen from the live system through the `/mnt` mount. */
  const InstallerDir := "/root/installer"
  const Wd := "/mnt" + InstallerDir
  const ExeInRoot := InstallerDir + "/" + "archinstaller"
  const ConfigInRoot := InstallerDir + "/" + "config.yaml"
  const ConfigFlag := "--config "
  const ContinueScript := "/mnt/root/continue_install.sh"
  const StagedConfig := Join([Wd, "config.yaml"])
  const StagedExe := Join([Wd, "archinstaller"])
  const UserSystemSelector := "stage user_system"

  /** The command the new system runs on its first boot: the staged binary,
      the `user_system` stage and the staged configuration, both as seen from
      inside the new root. */
  const ContinueLine := ExeInRoot + " " + UserSystemSelector + " " + ConfigFlag + ConfigInRoot

  /** `setup_reboot_user_system`. */
  function SetupRebootUserSystem(c: Config): seq<Action> {
    StagingSteps(Wd, c.configPath, StagedConfig, StagedExe, ContinueScript, ContinueLine)
    + [Plain(Command("chmod", ["+x", ContinueScript]))]
  }

  /** A successful `setup_reboot_user_system` leaves the configuration's bytes
      at `/mnt/root/installer/config.yaml`, the executable's bytes at
      `/mnt/root/installer/archinstaller` (unless the executable is that
      configuration copy itself), the continuation line twice in
      `/mnt/root/continue_install.sh`, and then makes that script executable
      as its only command. */
  lemma UserSystemStaged(c: Config, w: World, o: Oracle)
    ensures var r := RunAll(SetupRebootUserSystem(c), w, o);
      r.result.Ok? ==>
        && IsFile(w.fs, c.configPath) && w.exe.Some?
        && Marks(Since(w.trace, r.world.trace)) == [Ran(Command("chmod", ["+x", ContinueScript]))]
        && StagedConfig in r.world.fs
        && r.world.fs[StagedConfig] == w.fs[c.configPath]
        && StagedExe in r.world.fs
        && (w.exe.value != StagedConfig ==>
              w.exe.value in w.fs && r.world.fs[StagedExe] == w.fs[w.exe.value])
        && ContinueScript in r.world.fs
        && r.world.fs[ContinueScript] == File(Utf8(ContinueLine + ContinueLine))
  {
    StagedPathsDistinct();
    var steps := StagingSteps(Wd, c.configPath, StagedConfig, StagedExe, ContinueScript, ContinueLine);
    var chmod := Command("chmod", ["+x", ContinueScript]);
    StagingReadBack(Wd, c.configPath, StagedConfig, StagedExe, ContinueScript, ContinueLine, w, o);
    StagingEffects(Wd, c.configPath, StagedConfig, StagedExe, ContinueScript, ContinueLine, w, o);
    ThenQuiet(steps, [Plain(chmod)], w, o);
    assert Plan([Plain(chmod)]) == [Ran(chmod)];
  }

  /** The four staging destinations are pairwise distinct. */
  lemma StagedPathsDistinct()
    ensures Wd != StagedConfig && Wd != StagedExe && Wd != ContinueScript
    ensures StagedConfig != StagedExe && StagedConfig != ContinueScript && StagedExe != ContinueScript
  {
    JoinPair(Wd, "config.yaml");
    JoinPair(Wd, "archinstaller");
    assert |Wd| == 19 && |StagedConfig| == 31 && |StagedExe| == 33 && |ContinueScript| == 29;
  }

  /** The continuation line selects the `user_system` stage with the staged
      configuration. */
  lemma ContinueLineSelects()
    ensures Contains(ContinueLine, UserSystemSelector)
    ensures Contains(ContinueLine, ConfigFlag + ConfigInRoot)
  {
    var head := ExeInRoot + " ";
    var tail := " " + ConfigFlag + ConfigInRoot;
    assert ContinueLine == head + UserSystemSelector + tail;
    ContainsInfix(head, UserSystemSelector, tail);
    var pre := ExeInRoot + " " + UserSystemSelector + " ";
    assert ContinueLine == pre + (ConfigFlag + ConfigInRoot) + "";
    ContainsInfix(pre, ConfigFlag + ConfigInRoot, "");
  }

  /** The configuration's path inside the new root is its staging path with
      the `/mnt` mount point removed. */
  lemma StagedConfigInRoot()
    ensures "/mnt" + ConfigInRoot == StagedConfig
  {
    JoinPair(Wd, "config.yaml");
    AppendAssoc("/mnt", InstallerDir + "/", "config.yaml");
    AppendAssoc("/mnt", InstallerDir, "/");
  }

  /** Written twice with nothing in between, the script's single line runs
      the configuration path straight into the binary path: the `--config`
      argument the script passes is no longer the staged configuration. */
  lemma ContinueScriptGluesPaths()
    ensures Contains(ContinueLine + ContinueLine, ConfigFlag + ConfigInRoot + ExeInRoot)
  {
    var e, q := ExeInRoot, " " + UserSystemSelector + " ";
    var b := ConfigFlag + ConfigInRoot;
    var pre := ExeInRoot + " " + UserSystemSelector + " ";
    AppendAssoc(e, " " + UserSystemSelector, " ");
    AppendAssoc(e, " ", UserSystemSelector);
    AppendAssoc(pre, ConfigFlag, ConfigInRoot);
    GlueTwice(pre, e, q, b);
    ContainsInfix(pre, b + e, q + b);
  }
}
