/** The task table of src/tasks.rs: the name under which each installer
    function can be listed in a stage, and the function it stands for. */
module Tasks {
  import opened Results
  import opened Script
  import Installer
  import Configuration
  import Stages

  type Config = Configuration.Config

  /** The installer functions the table can point to. */
  datatype Task = Prepare | DownloadBase | Base | BaseInChroot | Bootloader | BootloaderInChroot

  /** The identifier of the `installer` function a task stands for. */
  function Name(t: Task): string {
    match t
    case Prepare => "prepare"
    case DownloadBase => "download_base"
    case Base => "base"
    case BaseInChroot => "base_in_chroot"
    case Bootloader => "bootloader"
    case BootloaderInChroot => "bootloader_in_chroot"
  }

  /** The steps a task runs. */
  function Body(t: Task, c: Config): seq<Action> {
    match t
    case Prepare => Installer.Prepare(c)
    case DownloadBase => Installer.DownloadBase(c)
    case Base => Installer.Base(c)
    case BaseInChroot => Installer.BaseInChroot(c)
    case Bootloader => Installer.Bootloader(c)
    case BootloaderInChroot => Installer.BootloaderInChroot(c)
  }

  /** The six insertions of the `TASKS` initialiser, in order. */
  const Insertions: seq<(string, Task)> := [
    ("prepare", Prepare),
    ("download_base", DownloadBase),
    ("base", Base),
    ("base_in_chroot", BaseInChroot),
    ("bootloader", Bootloader),
    ("bootloader_in_chroot", BootloaderInChroot)]

  /** `TASKS`, built once by inserting the entries in order into an empty
      `HashMap`: the map half of a registry built by the same insertions. */
  function Table(): map<string, Task> {
    Stages.FromList(Insertions).funcs
  }

  /** A name is in the table exactly when some insertion used it, and then it
      holds that insertion's task (no two insertions share a name). */
  lemma TableEntry(name: string)
    ensures name in Table() <==> exists i :: 0 <= i < |Insertions| && Insertions[i].0 == name
    ensures forall i :: 0 <= i < |Insertions| && Insertions[i].0 == name ==> Table()[name] == Insertions[i].1
  {
    var e := Insertions;
    Stages.FromListGet(e, name);
    if name in Table() {
      var i :| 0 <= i < |e| && e[i] == (name, Table()[name]);
      forall j | 0 <= j < |e| && e[j].0 == name
        ensures Table()[name] == e[j].1
      {
        assert j == i;
      }
    }
  }

  /** The table's names are exactly the six inserted ones. */
  lemma TableKeys()
    ensures Table().Keys ==
      {"prepare", "download_base", "base", "base_in_chroot", "bootloader", "bootloader_in_chroot"}
  {
    var e := Insertions;
    var names := {"prepare", "download_base", "base", "base_in_chroot", "bootloader", "bootloader_in_chroot"};
    forall k
      ensures k in Table() <==> k in names
    {
      TableEntry(k);
      if k in names {
        var i := if k == e[0].0 then 0 else if k == e[1].0 then 1 else if k == e[2].0 then 2
          else if k == e[3].0 then 3 else if k == e[4].0 then 4 else 5;
        assert e[i].0 == k;
      }
    }
  }

  /** Every name maps to the installer function of the same name, and every
      installer function is reachable under its own name. */
  lemma TableNames()
    ensures forall k :: k in Table() ==> Name(Table()[k]) == k
    ensures forall t: Task :: Name(t) in Table() && Table()[Name(t)] == t
  {
    var e := Insertions;
    forall t: Task
      ensures Name(t) in Table() && Table()[Name(t)] == t
    {
      var i := match t
        case Prepare => 0 case DownloadBase => 1 case Base => 2
        case BaseInChroot => 3 case Bootloader => 4 case BootloaderInChroot => 5;
      assert e[i] == (Name(t), t);
      TableEntry(Name(t));
    }
    TableKeys();
    forall k | k in Table()
      ensures Name(Table()[k]) == k
    {
      assert exists t: Task :: Name(t) == k by {
        if k == "prepare" { assert Name(Prepare) == k; }
        else if k == "download_base" { assert Name(DownloadBase) == k; }
        else if k == "base" { assert Name(Base) == k; }
        else if k == "base_in_chroot" { assert Name(BaseInChroot) == k; }
        else if k == "bootloader" { assert Name(Bootloader) == k; }
        else { assert Name(BootloaderInChroot) == k; }
      }
    }
  }

  /** Tasks that were never inserted have no entry. */
  lemma UninsertedAbsent()
    ensures "reboot" !in Table()
    ensures "setup_reboot_user_system" !in Table()
  {
    TableKeys();
  }

  /** Distinct names stand for distinct tasks, so a task written back into a
      stage list keeps its name. */
  lemma TableInjective()
    ensures Configuration.Injective(Table())
  {
    TableNames();
  }

  /** A stage list entry is accepted exactly when it is one of the six names. */
  lemma ResolvesExactlyTheNames(name: string)
    ensures Configuration.ResolveTask(name, Table()).Ok? <==>
      exists t: Task :: Name(t) == name
    ensures Configuration.ResolveTask(name, Table()).Ok? ==>
      Name(Configuration.ResolveTask(name, Table()).value) == name
  {
    TableNames();
  }

  /** A script that hands nothing across the chroot. */
  predicate StaysOutside(s: seq<Action>) {
    forall i :: 0 <= i < |s| ==> !s[i].WithChroot?
  }

  /** `prepare` never enters the chroot. */
  lemma PrepareStaysOutside(c: Config)
    ensures StaysOutside(Installer.Prepare(c))
  {
    var a, b := Installer.PrepareChecks(c), Installer.PrepareDisks(c);
    assert StaysOutside(a);
    assert StaysOutside(b);
    assert forall i :: 0 <= i < |a + b| ==> (a + b)[i] == if i < |a| then a[i] else b[i - |a|];
  }

  /** Every selector a task body hands across the chroot is the name of a
      task in the table: `base` hands over `base_in_chroot` and `bootloader`
      hands over `bootloader_in_chroot`. */
  lemma ChrootSelectorsAreTasks(t: Task, c: Config)
    ensures forall i :: 0 <= i < |Body(t, c)| && Body(t, c)[i].WithChroot? ==>
      Body(t, c)[i].selector in Table()
    ensures t == Base ==>
      (exists i :: 0 <= i < |Body(t, c)| && Body(t, c)[i] == WithChroot("base_in_chroot")) &&
      Table()["base_in_chroot"] == BaseInChroot
    ensures t == Bootloader ==>
      (exists i :: 0 <= i < |Body(t, c)| && Body(t, c)[i] == WithChroot("bootloader_in_chroot")) &&
      Table()["bootloader_in_chroot"] == BootloaderInChroot
  {
    TableNames();
    assert Name(BaseInChroot) == "base_in_chroot";
    assert Name(BootloaderInChroot) == "bootloader_in_chroot";
    match t
    case Base => assert Body(t, c)[1] == WithChroot("base_in_chroot");
    case Bootloader => assert Body(t, c)[0] == WithChroot("bootloader_in_chroot");
    case Prepare => PrepareStaysOutside(c);
    case _ =>
  }
}
