/** The configuration of src/config.rs: the installer parameters, the
    resolution of stage lists of task names against a task table while the
    document is read, and the device-name fields that must name an existing
    device node under `/dev`. */
module Configuration {
  import opened Results
  import opened Text
  import opened Paths
  import opened Machine
  import Utils

  /** The parameters the task bodies read. The user fields and the document's
      own path come from the revision of the installer that uses them;
      `installDisk` is read by the BIOS bootloader task of src/installer.rs. */
  datatype Config = Config(
    systemDisk: Path,
    bootDisk: Path,
    installDisk: Path,
    userName: string,
    userEmail: string,
    configPath: Path)

  /** A configuration document's stage section as the parser delivers it:
      stage names with their task-name lists, in document order. */
  type StageDoc = seq<(string, seq<string>)>

  function NoTask(name: string): string {
    "there is no task " + name
  }

  /** `Wrapper::deserialize`: one task name looked up in the table. */
  function ResolveTask<T>(name: string, table: map<string, T>): (r: Result<T, string>)
    ensures r.Ok? <==> name in table
    ensures r.Ok? ==> r.value == table[name]
    ensures r.Err? ==> r.error == NoTask(name)
  {
    if name in table then Ok(table[name]) else Err(NoTask(name))
  }

  /** A `Vec<Wrapper>`: every name resolved in order, failing at the first
      unknown one. */
  function ResolveList<T>(names: seq<string>, table: map<string, T>): (r: Result<seq<T>, string>)
    ensures r.Ok? <==> forall i :: 0 <= i < |names| ==> names[i] in table
    ensures r.Ok? ==> |r.value| == |names| && forall i :: 0 <= i < |names| ==> r.value[i] == table[names[i]]
    ensures r.Err? ==> exists k :: 0 <= k < |names| && names[k] !in table && r.error == NoTask(names[k])
                        && forall i :: 0 <= i < k ==> names[i] in table
  {
    if |names| == 0 then Ok([])
    else match ResolveTask(names[0], table)
      case Err(e) => Err(e)
      case Ok(t) =>
        match ResolveList(names[1..], table)
        case Err(e) =>
          assert forall i :: 1 <= i < |names| ==> names[1..][i - 1] == names[i];
          Err(e)
        case Ok(ts) =>
          assert forall i :: 1 <= i < |names| ==> names[1..][i - 1] == names[i];
          Ok([t] + ts)
  }

  /** Every task name of every stage of the document is in the table. */
  predicate AllKnown<T>(doc: StageDoc, table: map<string, T>) {
    forall i, j :: 0 <= i < |doc| && 0 <= j < |doc[i].1| ==> doc[i].1[j] in table
  }

  /** The task list the document gives a stage last (a later entry for the same
      stage replaces an earlier one, as `HashMap` insertion does). */
  function LastList(doc: StageDoc, stage: string): Option<seq<string>> {
    if |doc| == 0 then None
    else if doc[|doc| - 1].0 == stage then Some(doc[|doc| - 1].1)
    else LastList(doc[..|doc| - 1], stage)
  }

  /** `stages_map::deserialize`: every stage's task names resolved against the
      table; one unknown name anywhere fails the whole map. */
  function ResolveStages<T>(doc: StageDoc, table: map<string, T>): (r: Result<map<string, seq<T>>, string>)
    ensures r.Ok? <==> AllKnown(doc, table)
    ensures r.Ok? ==> forall stage :: stage in r.value <==> LastList(doc, stage).Some?
    ensures r.Ok? ==> forall stage :: stage in r.value ==>
      && |r.value[stage]| == |LastList(doc, stage).value|
      && forall j :: 0 <= j < |r.value[stage]| ==>
           LastList(doc, stage).value[j] in table && r.value[stage][j] == table[LastList(doc, stage).value[j]]
    ensures r.Err? ==>
      exists i, j :: 0 <= i < |doc| && 0 <= j < |doc[i].1| && doc[i].1[j] !in table && r.error == NoTask(doc[i].1[j])
    decreases |doc|
  {
    if |doc| == 0 then Ok(map[])
    else
      var init := doc[..|doc| - 1];
      var (stage, names) := doc[|doc| - 1];
      assert forall i :: 0 <= i < |init| ==> init[i] == doc[i];
      match ResolveStages(init, table)
      case Err(e) => Err(e)
      case Ok(m) =>
        match ResolveList(names, table)
        case Err(e) => Err(e)
        case Ok(ts) => Ok(m[stage := ts])
  }

  /** The task table of src/config.rs as the file declares it: nothing is
      inserted into it. */
  function ConfigTasks<T>(): (table: map<string, T>)
    ensures |table| == 0
  {
    map[]
  }

  /** With that table a document is accepted exactly when every stage lists no
      task. */
  lemma EmptyTableAcceptsOnlyEmptyStages<T>(doc: StageDoc)
    ensures ResolveStages(doc, ConfigTasks<T>()).Ok? <==>
      forall i :: 0 <= i < |doc| ==> doc[i].1 == []
  {
    if !(forall i :: 0 <= i < |doc| ==> doc[i].1 == []) {
      var i :| 0 <= i < |doc| && doc[i].1 != [];
      assert doc[i].1[0] !in ConfigTasks<T>();
    }
  }

  /** `Wrapper::serialize`: recovers a task's name by finding a table entry
      holding that task. */
  ghost function SerializeTask<T>(t: T, table: map<string, T>): (r: Result<string, string>)
    ensures r.Ok? <==> exists name :: name in table && table[name] == t
    ensures r.Ok? ==> r.value in table && table[r.value] == t
    ensures r.Err? ==> r.error == "failed to serialize task name"
  {
    if exists name :: name in table && table[name] == t then
      var name :| name in table && table[name] == t; Ok(name)
    else Err("failed to serialize task name")
  }

  /** The table maps distinct names to distinct tasks. */
  ghost predicate Injective<T>(table: map<string, T>) {
    forall a, b :: a in table && b in table && table[a] == table[b] ==> a == b
  }

  /** With an injective table, reading back a written task name gives the name,
      and writing back a read task gives the task. */
  lemma TaskNameRoundTrip<T>(name: string, table: map<string, T>)
    requires Injective(table)
    ensures ResolveTask(name, table).Ok? ==> SerializeTask(ResolveTask(name, table).value, table) == Ok(name)
    ensures SerializeTask(table[name], table).Ok? <== name in table
  {
  }

  function DeviceMissing(name: string): string {
    "device " + name + " doesn't exist"
  }

  /** `existing_device_path_from_name::deserialize`: `/dev` joined with the
      name, accepted only when it names an existing non-directory. */
  function DeviceFromName(name: string, fs: FileSystem): (r: Result<Path, string>)
    ensures r.Ok? <==> IsFile(fs, Push("/dev", name))
    ensures r.Ok? ==> r.value == Push("/dev", name)
    ensures r.Err? ==> r.error == DeviceMissing(name)
  {
    var p := Push(Push("", "/dev"), name);
    if IsFile(fs, p) then Ok(p) else Err(DeviceMissing(name))
  }

  /** `existing_device_path_from_name::serialize`: the path's final component. */
  function DeviceToName(p: Path): (r: Result<string, string>)
    ensures r.Ok? <==> FileName(p).Some?
    ensures r.Ok? ==> r.value == FileName(p).value
    ensures r.Err? ==> r.error == "invalid filename"
  {
    match FileName(p)
    case Some(name) => Ok(name)
    case None => Err("invalid filename")
  }

  /** A one-component device name that is accepted is written back unchanged. */
  lemma DeviceRoundTrip(name: string, fs: FileSystem)
    requires SingleComponent(name)
    ensures DeviceFromName(name, fs).Ok? ==> DeviceToName(DeviceFromName(name, fs).value) == Ok(name)
  {
    FileNameOfPush("/dev", name);
  }

  /** The device check and `utils::exists` apply the same test to the same path. */
  lemma DeviceCheckIsExists(name: string, fs: FileSystem)
    ensures DeviceFromName(name, fs).Ok? <==> Utils.Exists(fs, ["/dev", name]).Ok?
  {
    assert Join(["/dev", name]) == Push(Join(["/dev"]), name);
    assert Join(["/dev"]) == Push("", "/dev");
  }
}
