/** The tasks of src/installer/user_system.rs that the first boot of the new
    system runs as the `user_system` stage: the proxy for a QEMU guest, the
    systemd network with its bounded wait for a link, the graphics driver
    chosen from `lspci`, the user account, and the staging of the installer
    for the `post_install` stage in the user's home. */
module UserSystem {
  import opened Results
  import opened Text
  import opened Errors
  import opened Paths
  import opened Machine
  import opened Script
  import Run
  import BootKernel
  import Configuration

  type Config = Configuration.Config

  /* ---------------- set_in_qemu_http_proxy ---------------- */

  const ProxyKey := "http_proxy"
  /** The host's address as a QEMU user-network guest sees it. */
  const ProxyUrl := "http://10.0.2.2:3128"

  /** `set_in_qemu_http_proxy`. */
  function SetInQemuHttpProxy(c: Config): seq<Action> {
    [SetVar(ProxyKey, ProxyUrl)]
  }

  /** Setting the proxy always succeeds, touches nothing else, and every
      command a later script starts (one that sets no variable itself)
      receives the proxy in its environment. */
  lemma ProxyReachesChildren(c: Config, later: seq<Action>, w: World, o: Oracle)
    requires forall i :: 0 <= i < |later| ==> !later[i].SetVar?
    ensures var p := RunAll(SetInQemuHttpProxy(c), w, o);
      && p.result.Ok?
      && p.world.env == w.env[ProxyKey := ProxyUrl]
      && p.world.trace == w.trace && p.world.fs == w.fs
      && var r := RunAll(later, p.world, o);
         && SpawnedWith(Since(p.world.trace, r.world.trace), w.env[ProxyKey := ProxyUrl])
         && ProxyKey in r.world.env && r.world.env[ProxyKey] == ProxyUrl
  {
    SetVarReachesChildren(ProxyKey, ProxyUrl, later, w, o);
  }

  /* ---------------- systemd_network ---------------- */

  const NetworkUnitPath := "/etc/systemd/network/MyDhcp.network"
  /** A DHCPv4 network for every interface whose name starts with `en`. */
  const NetworkUnit := MatchSection + "\n\n" + NetworkSection
  const MatchSection := "[Match]\nName=en*"
  const NetworkSection := "[Network]\nDHCP=ipv4"
  const Networkd := Command("systemctl", ["enable", "--now", "systemd-networkd.service"])
  const Resolved := Command("systemctl", ["enable", "--now", "systemd-resolved.service"])
  const IpA := Command("ip", ["a"])
  const WaitText := "waiting for network"
  const LinkUp := "state UP"
  const Attempts := 10

  /** The unit file and the two services, before the wait. */
  function NetworkSetup(): seq<Action> {
    [SetFile(NetworkUnitPath, NetworkUnit),
     Described(Networkd, "enabling networkd"),
     Described(Resolved, "enabling resolved")]
  }

  /** The wait loop with `attempts` rounds left: a note, `ip a` captured, done
      as soon as a link reports `state UP`; a failed capture ends the task with
      its error, and running out of rounds ends it with `NoNetwork`. */
  function Poll(attempts: nat, w: World, o: Oracle): (r: Step<()>)
    ensures w.trace <= r.world.trace
    decreases attempts
  {
    if attempts == 0 then Fail(NoNetwork, w)
    else
      var s := Round(w, o);
      match s.result
      case Err(e) => Fail(e, s.world)
      case Ok(text) =>
        if Contains(text, LinkUp) then Done(s.world) else Poll(attempts - 1, s.world, o)
  }

  /** `systemd_network`. */
  function SystemdNetwork(c: Config, w: World, o: Oracle): (r: Step<()>)
    ensures w.trace <= r.world.trace
  {
    var s := RunAll(NetworkSetup(), w, o);
    if s.result.Err? then s else Poll(Attempts, s.world, o)
  }

  function IpSpawn(env: Env): Spawn {
    Spawn(IpA, env, None, Capturing)
  }

  /** What the `i`-th round of a wait that starts in `w` reads from `ip a`. */
  function Reading(w: World, o: Oracle, i: nat): Result<string, InstallError> {
    Run.Captured(o.reply(|w.trace| + i, IpSpawn(w.env)))
  }

  predicate Up(x: Result<string, InstallError>) {
    x.Ok? && Contains(x.value, LinkUp)
  }

  predicate Down(x: Result<string, InstallError>) {
    x.Ok? && !Contains(x.value, LinkUp)
  }

  /** `n` copies of `x`. */
  function Times<T>(x: T, n: nat): (r: seq<T>)
    ensures |r| == n
    ensures forall i :: 0 <= i < n ==> r[i] == x
  {
    if n == 0 then [] else [x] + Times(x, n - 1)
  }

  /** The world after one round of the wait: one note and one `ip a`. */
  function Advance(w: World): World {
    w.(out := w.out + [Output.Note(WaitText)], trace := w.trace + [Spawned(IpSpawn(w.env))])
  }

  /** One round of the wait started in `w`: what `ip a` reports, and the
      world after the round. */
  function Round(w: World, o: Oracle): Step<string> {
    Step(Reading(w, o, 0), Advance(w))
  }

  /** A round is the note followed by the captured `ip a`. */
  lemma RoundShape(w: World, o: Oracle)
    ensures Round(w, o) == Run.ToString(IpA, LogNote(w, WaitText), o)
  {
  }

  /** After a round, the next round reads the reply one event later. */
  lemma RoundShift(w: World, o: Oracle)
    ensures forall j: nat :: Reading(w, o, j + 1) == Reading(Advance(w), o, j)
  {
  }

  /** The wait makes `k` rounds, at most `n` and at least one when `n` is
      positive: each round one note and one `ip a` with the unchanged
      environment, and nothing else changes. */
  lemma {:induction false} PollShape(n: nat, w: World, o: Oracle)
    ensures var r := Poll(n, w, o); var k := |r.world.trace| - |w.trace|;
      && 0 <= k <= n && (n > 0 ==> k > 0)
      && r.world.trace == w.trace + Times(Spawned(IpSpawn(w.env)), k)
      && r.world.out == w.out + Times(Output.Note(WaitText), k)
      && r.world.fs == w.fs && r.world.env == w.env && r.world.exe == w.exe
    decreases n
  {
    if n > 0 {
      var sp := Spawned(IpSpawn(w.env));
      var note := Output.Note(WaitText);
      var s := Round(w, o);
      if s.result.Ok? && !Contains(s.result.value, LinkUp) {
        var r := Poll(n - 1, Advance(w), o);
        assert Poll(n, w, o) == r;
        PollShape(n - 1, Advance(w), o);
        var k := |r.world.trace| - |w.trace| - 1;
        AppendAssoc(w.trace, [sp], Times(sp, k));
        AppendAssoc(w.out, [note], Times(note, k));
        assert [sp] + Times(sp, k) == Times(sp, k + 1);
        assert [note] + Times(note, k) == Times(note, k + 1);
      } else {
        assert Poll(n, w, o).world == Advance(w);
        assert Times(sp, 1) == [sp];
        assert Times(note, 1) == [note];
      }
    }
  }

  /** None of the first `n` rounds of a wait started in `w` sees a link up. */
  predicate AllDown(w: World, o: Oracle, n: nat) {
    forall j :: 0 <= j < n ==> Down(Reading(w, o, j))
  }

  lemma AllDownShift(w: World, o: Oracle, n: nat)
    requires n > 0
    ensures AllDown(w, o, n) <==> Down(Reading(w, o, 0)) && AllDown(Advance(w), o, n - 1)
  {
    RoundShift(w, o);
    if Down(Reading(w, o, 0)) && AllDown(Advance(w), o, n - 1) {
      forall j | 0 < j < n
        ensures Down(Reading(w, o, j))
      {
        assert Reading(w, o, (j - 1) + 1) == Reading(Advance(w), o, j - 1);
      }
    }
  }

  /** Every round of the wait but the last saw no link up. */
  lemma {:induction false} PollSawDown(n: nat, w: World, o: Oracle)
    ensures var k := |Poll(n, w, o).world.trace| - |w.trace|;
      k > 0 ==> AllDown(w, o, k - 1)
    decreases n
  {
    if n > 0 {
      var s := Round(w, o);
      if s.result.Ok? && !Contains(s.result.value, LinkUp) {
        var w' := Advance(w);
        var r := Poll(n - 1, w', o);
        assert Poll(n, w, o) == r;
        PollSawDown(n - 1, w', o);
        var k := |r.world.trace| - |w'.trace|;
        if k > 0 {
          AllDownShift(w, o, k);
        }
      } else {
        assert Poll(n, w, o).world == Advance(w);
      }
    }
  }

  /** The wait succeeds exactly when its last round saw a link up. */
  lemma {:induction false} PollSucceeds(n: nat, w: World, o: Oracle)
    ensures var r := Poll(n, w, o); var k := |r.world.trace| - |w.trace|;
      r.result.Ok? <==> k > 0 && Up(Reading(w, o, k - 1))
    decreases n
  {
    if n > 0 {
      var s := Round(w, o);
      if s.result.Ok? && !Contains(s.result.value, LinkUp) {
        var w' := Advance(w);
        var r := Poll(n - 1, w', o);
        assert Poll(n, w, o) == r;
        PollSucceeds(n - 1, w', o);
        var k := |r.world.trace| - |w'.trace|;
        assert |r.world.trace| - |w.trace| == k + 1;
        if k > 0 {
          RoundShift(w, o);
          assert Reading(w, o, (k - 1) + 1) == Reading(w', o, k - 1);
        }
      } else {
        assert Poll(n, w, o).world == Advance(w);
        assert |Poll(n, w, o).world.trace| - |w.trace| == 1;
        assert s.result == Reading(w, o, 0);
      }
    }
  }

  /** Any failure of the wait other than `NoNetwork` is its last round's
      capture error. */
  lemma {:induction false} PollFailsAtCapture(n: nat, w: World, o: Oracle)
    ensures var r := Poll(n, w, o); var k := |r.world.trace| - |w.trace|;
      r.result.Err? && r.result != Err(NoNetwork) ==> k > 0 && Reading(w, o, k - 1) == Err(r.result.error)
    decreases n
  {
    if n > 0 {
      var s := Round(w, o);
      if s.result.Ok? && !Contains(s.result.value, LinkUp) {
        var w' := Advance(w);
        var r := Poll(n - 1, w', o);
        assert Poll(n, w, o) == r;
        PollFailsAtCapture(n - 1, w', o);
        var k := |r.world.trace| - |w'.trace|;
        if k > 0 {
          RoundShift(w, o);
          assert Reading(w, o, (k - 1) + 1) == Reading(w', o, k - 1);
        }
      } else {
        assert Poll(n, w, o).world == Advance(w);
      }
    }
  }

  /** The wait fails with `NoNetwork` exactly when all `n` rounds saw no
      link up, and then it made all `n` rounds. */
  lemma {:induction false} PollExhausted(n: nat, w: World, o: Oracle)
    ensures var r := Poll(n, w, o);
      && (r.result == Err(NoNetwork) <==> AllDown(w, o, n))
      && (r.result == Err(NoNetwork) ==> |r.world.trace| == |w.trace| + n)
    decreases n
  {
    if n > 0 {
      var s := Round(w, o);
      AllDownShift(w, o, n);
      if s.result.Ok? && !Contains(s.result.value, LinkUp) {
        assert Poll(n, w, o) == Poll(n - 1, Advance(w), o);
        PollExhausted(n - 1, Advance(w), o);
      }
    }
  }

  /** The wait written as the source's loop, with the rounds counted down. */
  method PollLoop(n: nat, w: World, o: Oracle) returns (r: Step<()>)
    ensures r == Poll(n, w, o)
    ensures r.result == Err(NoNetwork) ==> |r.world.trace| == |w.trace| + n
  {
    var cur, left := w, n;
    while left > 0
      invariant Poll(left, cur, o) == Poll(n, w, o)
      decreases left
    {
      var s := Round(cur, o);
      if s.result.Err? {
        r := Fail(s.result.error, s.world);
        PollExhausted(n, w, o);
        return;
      }
      if Contains(s.result.value, LinkUp) {
        r := Done(s.world);
        PollExhausted(n, w, o);
        return;
      }
      cur, left := s.world, left - 1;
    }
    r := Fail(NoNetwork, cur);
    PollExhausted(n, w, o);
  }

  function SetupMarks(): seq<Mark> {
    [Ran(Networkd), Ran(Resolved)]
  }

  lemma PlanOfNetworkSetup()
    ensures Plan(NetworkSetup()) == SetupMarks()
  {
    var s := NetworkSetup();
    assert s[1..][1..][1..] == [];
    assert Plan(s[1..][1..]) == [Ran(Resolved)];
  }

  /** The setup fails only with an I/O error. */
  lemma SetupFailsWithIo(w: World, o: Oracle)
    ensures var s := RunAll(NetworkSetup(), w, o);
      s.result.Err? ==> s.result.error.IoError?
  {
    RunAllIoErrors(NetworkSetup(), w, o);
  }

  /** When the setup succeeds the unit file holds its text twice (the
      doubling `set_file`), no other file changed and the environment is as
      before. */
  lemma SetupFiles(w: World, o: Oracle)
    ensures var s := RunAll(NetworkSetup(), w, o);
      && s.world.env == w.env
      && (s.result.Ok? ==> s.world.fs == w.fs[NetworkUnitPath := File(Utf8(NetworkUnit + NetworkUnit))])
  {
    var rest := [Described(Networkd, "enabling networkd"), Described(Resolved, "enabling resolved")];
    assert NetworkSetup() == [SetFile(NetworkUnitPath, NetworkUnit)] + rest;
    SetFileThenQuiet(NetworkUnitPath, NetworkUnit, rest, w, o);
  }

  /** The setup runs first: when it fails the task ends with its error and
      no `ip a` is ever started; when it succeeds its events are the two
      `systemctl` calls and the wait starts from there. */
  lemma NetworkSetupFirst(c: Config, w: World, o: Oracle)
    ensures var s := RunAll(NetworkSetup(), w, o); var r := SystemdNetwork(c, w, o);
      && (s.result.Err? ==> r == s && Ran(IpA) !in Marks(Since(w.trace, r.world.trace)))
      && (s.result.Ok? ==>
            && Marks(Since(w.trace, s.world.trace)) == SetupMarks()
            && r == Poll(Attempts, s.world, o))
  {
    PerformLawful(o);
    ChainMarks(PerformWith(o), NetworkSetup(), w);
    PlanOfNetworkSetup();
  }

  /** The whole task fails with `NoNetwork` exactly when the setup succeeded
      and all ten rounds of the wait saw no link up; it starts `ip a` at most
      ten times. */
  lemma NoNetworkAfterTenRounds(c: Config, w: World, o: Oracle)
    ensures var s := RunAll(NetworkSetup(), w, o); var r := SystemdNetwork(c, w, o);
      && (r.result == Err(NoNetwork) <==>
            s.result.Ok? && AllDown(s.world, o, Attempts))
      && (s.result.Ok? ==> |r.world.trace| <= |s.world.trace| + Attempts)
  {
    var s := RunAll(NetworkSetup(), w, o);
    SetupFailsWithIo(w, o);
    if s.result.Ok? {
      PollShape(Attempts, s.world, o);
      PollExhausted(Attempts, s.world, o);
    }
  }

  /* ---------------- vga ---------------- */

  const Lspci := Command("lspci", [])
  const NvidiaMarker := "NVIDIA"
  const NvidiaDrivers := Run.Described(Command("pacman", ["--noconfirm", "-S", "nvidia", "nvidia-settings"]), "install Nvidia drivers")
  const VesaDriver := Run.Described(Command("pacman", ["--noconfirm", "-S", "xf86-video-vesa"]), "install generic VGA driver")

  /** `vga`: `lspci` captured; the Nvidia packages when it mentions NVIDIA,
      the generic VESA driver otherwise. */
  function Vga(c: Config, w: World, o: Oracle): (r: Step<()>)
    ensures w.trace <= r.world.trace
  {
    var s := Run.ToString(Lspci, w, o);
    match s.result
    case Err(e) => Fail(e, s.world)
    case Ok(text) =>
      if Contains(text, NvidiaMarker) then Run.RunDescribed(NvidiaDrivers, s.world, o)
      else Run.RunDescribed(VesaDriver, s.world, o)
  }

  /** What `lspci` reports to `vga`. */
  function Probe(w: World, o: Oracle): Result<string, InstallError> {
    Run.Captured(o.reply(|w.trace|, Spawn(Lspci, w.env, None, Capturing)))
  }

  /** `vga` first starts `lspci`. If its capture fails the task ends there
      with that error; otherwise exactly one installation follows, of the
      Nvidia packages exactly when the report mentions NVIDIA. No file
      changes. */
  lemma VgaChoosesDriver(c: Config, w: World, o: Oracle)
    ensures var r := Vga(c, w, o); var e := Since(w.trace, r.world.trace);
      && |e| >= 1 && e[0] == Spawned(Spawn(Lspci, w.env, None, Capturing))
      && (Probe(w, o).Err? ==> |e| == 1 && r.result == Err(Probe(w, o).error))
      && (Probe(w, o).Ok? ==>
            && |e| == 2 && e[1].Spawned?
            && (e[1].spawn.cmd == NvidiaDrivers.cmd <==> Contains(Probe(w, o).value, NvidiaMarker))
            && (e[1].spawn.cmd == VesaDriver.cmd <==> !Contains(Probe(w, o).value, NvidiaMarker)))
      && r.world.fs == w.fs && r.world.env == w.env
  {
    var s := Run.ToString(Lspci, w, o);
    assert NvidiaDrivers.cmd.args[2] != VesaDriver.cmd.args[2];
  }

  /* ---------------- add_user ---------------- */

  const SudoersPath := "/etc/sudoers"
  const Chpasswd := Command("chpasswd", [])

  function UserAdd(name: string): Command {
    Command("useradd", ["-g", "users", "--create-home", "--shell", "/usr/bin/fish", name])
  }

  /** The `chpasswd` input: the user name as its own password. */
  function PasswordLine(name: string): string {
    name + ":" + name
  }

  function SudoersLine(name: string): string {
    name + " ALL=(ALL) ALL"
  }

  function AccountSteps(name: string): seq<Action> {
    [Described(UserAdd(name), "create user"),
     DescribedStdin(Chpasswd, "setting password to username", Utf8(PasswordLine(name)))]
  }

  /** `add_user`. */
  function AddUser(c: Config): seq<Action> {
    AccountSteps(c.userName) + [AppendToFile(SudoersPath, SudoersLine(c.userName))]
  }

  /** The account steps touch no file; after `useradd` succeeds `chpasswd` is
      fed the user name as its password. */
  lemma AccountStepsEvents(name: string, w: World, o: Oracle)
    ensures var r := RunAll(AccountSteps(name), w, o); var e := Since(w.trace, r.world.trace);
      && r.world.fs == w.fs && r.world.env == w.env
      && 1 <= |e| <= 2
      && e[0] == Spawned(Spawn(UserAdd(name), w.env, None, Streaming))
      && (|e| == 2 ==> e[1] == Spawned(Spawn(Chpasswd, w.env, Some(Utf8(PasswordLine(name))), Streaming)))
      && (r.result.Ok? ==> |e| == 2)
  {
    var steps := AccountSteps(name);
    PerformLawful(o);
    assert steps == [steps[0]] + [steps[1]];
    ChainCons(PerformWith(o), steps[0], [steps[1]], w);
    CommandStep(steps[0], w, o);
    var s := Perform(steps[0], w, o);
    if s.result.Ok? {
      ChainSingle(PerformWith(o), steps[1], s.world);
      CommandStep(steps[1], s.world, o);
    }
  }

  /** A successful `add_user` created the account, set its password through
      `chpasswd` and granted it sudo by appending its line to an existing
      `/etc/sudoers`, changing no other file. It fails at the last step
      exactly when the accounts succeeded but there is no such file. */
  lemma AddUserEffects(c: Config, w: World, o: Oracle)
    ensures var a := RunAll(AccountSteps(c.userName), w, o);
      var r := RunAll(AddUser(c), w, o); var e := Since(w.trace, r.world.trace);
      && (a.result.Err? ==> r == a)
      && (a.result.Ok? ==>
            && |e| == 2
            && e[1] == Spawned(Spawn(Chpasswd, w.env, Some(Utf8(PasswordLine(c.userName))), Streaming))
            && (r.result.Ok? <==> IsFile(w.fs, SudoersPath))
            && (r.result.Ok? ==>
                  r.world.fs == w.fs[SudoersPath := File(w.fs[SudoersPath].data + Utf8(SudoersLine(c.userName)))]))
  {
    AccountStepsEvents(c.userName, w, o);
    ThenAppend(AccountSteps(c.userName), SudoersPath, SudoersLine(c.userName), w, o);
  }

  /* ---------------- setup_reboot_post_install ---------------- */

  function Home(name: string): Path {
    "/home/" + name
  }

  /** `format!("/home/{}/<rest>")`. */
  function InHome(name: string, rest: string): Path {
    Home(name) + "/" + rest
  }

  function PostInstallDir(name: string): Path {
    InHome(name, "installer")
  }

  function PostConfig(name: string): Path {
    Join(["/home", name, "installer/config.yaml"])
  }

  function PostExe(name: string): Path {
    Join(["/home", name, "installer/archinstaller"])
  }

  function PostScript(name: string): Path {
    InHome(name, "continue_install.sh")
  }

  const PostInstallSelector := "stage post_install"
  /** The continuation for the `post_install` stage, with paths relative to
      the user's home. */
  const PostInstallLine := "~/installer/archinstaller " + PostInstallSelector + " " + BootKernel.ConfigFlag + "~/installer/config.yaml"
  const PostInstallText := "#!/bin/bash\n" + PostInstallLine

  /** The home whose ownership the task fixes, fixed in the source. */
  const ChownTarget := "/home/erz"

  /** The ownership fix as the source writes it. */
  function FixPermissions(name: string): Command {
    Command("chown", ["-R", name + ":users", ChownTarget])
  }

  function MakeRunnable(name: string): Command {
    Command("chmod", ["+x", Join(["/home", name, "continue_install.sh"])])
  }

  function PostInstallStaging(c: Config): seq<Action> {
    var n := c.userName;
    BootKernel.StagingSteps(PostInstallDir(n), c.configPath, PostConfig(n), PostExe(n), PostScript(n), PostInstallText)
  }

  /** `setup_reboot_post_install`, as written. */
  function SetupRebootPostInstall(c: Config): seq<Action> {
    PostInstallStaging(c)
    + [Described(FixPermissions(c.userName), "fix permissions"),
       Described(MakeRunnable(c.userName), "make installer runnable")]
  }

  /** For a user name that is one path component, collecting `/home`, the
      name and a relative rest is the formatted path in the user's home. */
  lemma JoinInHome(name: string, rest: string)
    requires SingleComponent(name) && !IsAbsolute(rest)
    ensures Join(["/home", name, rest]) == InHome(name, rest)
  {
    JoinTriple("/home", name, rest);
    assert "/home" + "/" == "/home/";
  }

  /** The four staging destinations are distinct. */
  lemma PostPathsDistinct(name: string)
    requires SingleComponent(name)
    ensures PostInstallDir(name) != PostConfig(name) && PostInstallDir(name) != PostExe(name)
    ensures PostInstallDir(name) != PostScript(name) && PostConfig(name) != PostExe(name)
    ensures PostConfig(name) != PostScript(name) && PostExe(name) != PostScript(name)
  {
    JoinInHome(name, "installer/config.yaml");
    JoinInHome(name, "installer/archinstaller");
    var h := |Home(name)|;
    assert |PostInstallDir(name)| == h + 10;
    assert |PostConfig(name)| == h + 22;
    assert |PostExe(name)| == h + 24;
    assert |PostScript(name)| == h + 20;
  }

  /** A successful `setup_reboot_post_install` leaves the configuration's
      bytes and the executable's (unless the executable is the configuration
      copy itself) in `~/installer`, the continuation script holding its
      text twice, and then runs the ownership fix and the `chmod` of that
      same script, in that order, as its only commands. */
  lemma PostInstallStaged(c: Config, w: World, o: Oracle)
    requires SingleComponent(c.userName)
    ensures var n := c.userName; var r := RunAll(SetupRebootPostInstall(c), w, o);
      r.result.Ok? ==>
        && IsFile(w.fs, c.configPath) && w.exe.Some?
        && Marks(Since(w.trace, r.world.trace)) == [Ran(FixPermissions(n)), Ran(MakeRunnable(n))]
        && MakeRunnable(n).args[1] == PostScript(n)
        && PostConfig(n) in r.world.fs && r.world.fs[PostConfig(n)] == w.fs[c.configPath]
        && PostExe(n) in r.world.fs
        && (w.exe.value != PostConfig(n) ==> w.exe.value in w.fs && r.world.fs[PostExe(n)] == w.fs[w.exe.value])
        && PostScript(n) in r.world.fs && r.world.fs[PostScript(n)] == File(Utf8(PostInstallText + PostInstallText))
  {
    var n := c.userName;
    PostPathsDistinct(n);
    JoinInHome(n, "continue_install.sh");
    var tail := [Described(FixPermissions(n), "fix permissions"), Described(MakeRunnable(n), "make installer runnable")];
    StagedThenQuiet(PostInstallDir(n), c.configPath, PostConfig(n), PostExe(n), PostScript(n), PostInstallText, tail, w, o);
    PlanOfTwo(tail);
  }

  lemma PlanOfTwo(tail: seq<Action>)
    requires |tail| == 2 && tail[0].Described? && tail[1].Described?
    ensures Plan(tail) == [Ran(tail[0].cmd), Ran(tail[1].cmd)]
  {
    assert tail[1..][1..] == [];
    assert Plan(tail[1..]) == Footprint(tail[1]) + Plan(tail[1..][1..]);
  }

  /** The staging read back after further actions that touch no file, and
      those actions' events. */
  lemma StagedThenQuiet(dir: Path, config: Path, configTo: Path, exeTo: Path, script: Path, text: string,
                        tail: seq<Action>, w: World, o: Oracle)
    requires dir != configTo && dir != exeTo && dir != script
    requires configTo != exeTo && configTo != script && exeTo != script
    requires forall i :: 0 <= i < |tail| ==> !TouchesFiles(tail[i])
    ensures var r := RunAll(BootKernel.StagingSteps(dir, config, configTo, exeTo, script, text) + tail, w, o);
      r.result.Ok? ==>
        && IsFile(w.fs, config) && w.exe.Some?
        && Marks(Since(w.trace, r.world.trace)) == Plan(tail)
        && configTo in r.world.fs && r.world.fs[configTo] == w.fs[config]
        && exeTo in r.world.fs
        && (w.exe.value != configTo ==> w.exe.value in w.fs && r.world.fs[exeTo] == w.fs[w.exe.value])
        && script in r.world.fs && r.world.fs[script] == File(Utf8(text + text))
  {
    var steps := BootKernel.StagingSteps(dir, config, configTo, exeTo, script, text);
    BootKernel.StagingReadBack(dir, config, configTo, exeTo, script, text, w, o);
    BootKernel.StagingEffects(dir, config, configTo, exeTo, script, text, w, o);
    ThenQuiet(steps, tail, w, o);
  }

  /** The continuation line selects the `post_install` stage with the staged
      configuration. */
  lemma PostInstallLineSelects()
    ensures Contains(PostInstallText, PostInstallSelector)
    ensures Contains(PostInstallText, BootKernel.ConfigFlag + "~/installer/config.yaml")
  {
    var head := "#!/bin/bash\n" + "~/installer/archinstaller ";
    var tail := " " + BootKernel.ConfigFlag + "~/installer/config.yaml";
    AppendAssoc("#!/bin/bash\n", "~/installer/archinstaller ", PostInstallSelector);
    assert PostInstallText == head + PostInstallSelector + tail;
    ContainsInfix(head, PostInstallSelector, tail);
    var pre := head + PostInstallSelector + " ";
    assert PostInstallText == pre + (BootKernel.ConfigFlag + "~/installer/config.yaml") + "";
    ContainsInfix(pre, BootKernel.ConfigFlag + "~/installer/config.yaml", "");
  }

  /** Under a user name other than `erz`, the staged installer directory does
      not lie under the directory whose ownership the task fixes: the user is
      left without ownership of their own copy. */
  lemma ChownMissesHome(name: string)
    requires SingleComponent(name) && name != "erz"
    ensures FixPermissions(name).args[2] == ChownTarget
    ensures !(ChownTarget + "/" <= PostInstallDir(name)) && ChownTarget != PostInstallDir(name)
  {
    var d := PostInstallDir(name);
    var t := ChownTarget + "/";
    assert |t| == 10 && t[6..9] == "erz" && t[9] == '/';
    assert d == "/home/" + name + "/" + "installer";
    assert |d| == |name| + 16;
    if |name| >= 4 {
      assert d[9] == name[3];
    } else if |name| == 3 {
      assert d[6..9] == name;
    } else {
      assert d[6 + |name|] == '/';
    }
  }

  /** The ownership fix the task evidently means: the user's own home. */
  function FixPermissionsFixed(name: string): Command {
    Command("chown", ["-R", name + ":users", Home(name)])
  }

  /** `setup_reboot_post_install` with the ownership fix on the user's home. */
  function SetupRebootPostInstallFixed(c: Config): seq<Action> {
    PostInstallStaging(c)
    + [Described(FixPermissionsFixed(c.userName), "fix permissions"),
       Described(MakeRunnable(c.userName), "make installer runnable")]
  }

  /** With the fix, every path the task stages lies under the directory whose
      ownership is fixed, whatever the user's name. */
  lemma FixedChownCoversStaging(name: string)
    requires SingleComponent(name)
    ensures var t := FixPermissionsFixed(name).args[2] + "/";
      && t <= PostInstallDir(name) && t <= PostConfig(name)
      && t <= PostExe(name) && t <= PostScript(name)
  {
    JoinInHome(name, "installer/config.yaml");
    JoinInHome(name, "installer/archinstaller");
    var t := Home(name) + "/";
    PrefixOfConcat(t, "installer");
    PrefixOfConcat(t, "installer/config.yaml");
    PrefixOfConcat(t, "installer/archinstaller");
    PrefixOfConcat(t, "continue_install.sh");
  }

  /** The fixed task stages exactly as the original, and a successful run of
      it makes the same staged files. */
  lemma FixedStagesAlike(c: Config, w: World, o: Oracle)
    ensures var r := RunAll(SetupRebootPostInstall(c), w, o); var f := RunAll(SetupRebootPostInstallFixed(c), w, o);
      var s := RunAll(PostInstallStaging(c), w, o);
      && (s.result.Err? ==> r == s && f == s)
      && (s.result.Ok? ==> r.world.fs == s.world.fs && f.world.fs == s.world.fs)
  {
    var n := c.userName;
    ThenQuiet(PostInstallStaging(c), [Described(FixPermissions(n), "fix permissions"), Described(MakeRunnable(n), "make installer runnable")], w, o);
    ThenQuiet(PostInstallStaging(c), [Described(FixPermissionsFixed(n), "fix permissions"), Described(MakeRunnable(n), "make installer runnable")], w, o);
  }
}
