/**
 * The state every data-source connector shares: its identity, a status
 * field the lifecycle moves through, the counters reported to the UI, and
 * two places on disk (the folder of .txt items it downloads, and a JSON
 * state file). The file system is a `Disk` object: directories of items,
 * and the state documents by path.
 */
module BaseConnector {
  import opened Wrappers
  import opened Text
  import opened Seqs

  /** ConnectorStatus: exactly five members, each with a fixed string value. */
  datatype Status = Idle | Syncing | Error | Authenticated | NotConfigured
  {
    function Value(): (v: string)
    {
      match this
      case Idle => "idle"
      case Syncing => "syncing"
      case Error => "error"
      case Authenticated => "authenticated"
      case NotConfigured => "not_configured"
    }
  }

  /** The string values tell the members apart, so the reported status names the field's value. */
  lemma StatusValueInjective(a: Status, b: Status)
    ensures a.Value() == b.Value() <==> a == b
  {
  }

  lemma StatusMembers(s: Status)
    ensures s.Value() in {"idle", "syncing", "error", "authenticated", "not_configured"}
  {
  }

  /** The contents of a connector's state.json; a key never written is absent. */
  datatype SyncState = SyncState(watermarks: Option<map<string, nat>>, lastSync: Option<string>, itemsSynced: Option<nat>)

  const EmptyState: SyncState := SyncState(None, None, None)

  /** The `config` dict a connector is built with. */
  datatype ConnConfig = ConnConfig(labelName: Option<string>, syncInterval: Option<int>)

  const StorageRoot: string := "storage/connectors"

  function BaseDir(connectorType: string, connectorId: string): string
  {
    PathJoin(PathJoin(StorageRoot, connectorType), connectorId)
  }

  function ItemsFolder(connectorType: string, connectorId: string): string
  {
    PathJoin(BaseDir(connectorType, connectorId), "items")
  }

  function StateFile(connectorType: string, connectorId: string): string
  {
    PathJoin(BaseDir(connectorType, connectorId), "state.json")
  }

  /** p names an entry inside directory dir. */
  predicate Under(p: string, dir: string)
  {
    StartsWith(p, PathJoin(dir, ""))
  }

  lemma JoinUnder(dir: string, name: string)
    requires name != "" && name[0] != '/'
    ensures Under(PathJoin(dir, name), dir)
    ensures EndsWith(PathJoin(dir, name), name)
  {
    assert !StartsWith(name, "/") by { assert name[..1] == [name[0]]; }
    assert !StartsWith("", "/");
    var d := PathJoin(dir, "");
    assert PathJoin(dir, name) == d + name;
    PrefixOfConcat(d, name);
  }

  lemma PrefixOfConcat(a: string, b: string)
    ensures StartsWith(a + b, a) && EndsWith(a + b, b)
  {
    assert (a + b)[..|a|] == a;
    assert (a + b)[|a|..] == b;
  }

  /** The items folder and the state file are two different entries of the connector's base directory. */
  lemma PathsInsideBase(connectorType: string, connectorId: string)
    ensures Under(ItemsFolder(connectorType, connectorId), BaseDir(connectorType, connectorId))
    ensures Under(StateFile(connectorType, connectorId), BaseDir(connectorType, connectorId))
    ensures ItemsFolder(connectorType, connectorId) != StateFile(connectorType, connectorId)
  {
    var base := BaseDir(connectorType, connectorId);
    JoinUnder(base, "items");
    JoinUnder(base, "state.json");
    var a, b := ItemsFolder(connectorType, connectorId), StateFile(connectorType, connectorId);
    assert a[|a| - 1] == 's' && b[|b| - 1] == 'n';
  }

  /** The directories after os.makedirs(dir, exist_ok=True). */
  function WithDir(folders: map<string, map<string, string>>, dir: string): map<string, map<string, string>>
  {
    if dir in folders then folders else folders[dir := map[]]
  }

  /** The directories, and below the state documents, that shutil.rmtree(dir) leaves. */
  function FoldersOutside(folders: map<string, map<string, string>>, dir: string): map<string, map<string, string>>
  {
    map p | p in folders && !Under(p, dir) :: folders[p]
  }

  function StatesOutside(states: map<string, SyncState>, dir: string): map<string, SyncState>
  {
    map p | p in states && !Under(p, dir) :: states[p]
  }

  /** Removing a tree also removes a directory just made inside it. */
  lemma OutsideAfterMake(folders: map<string, map<string, string>>, dir: string, sub: string)
    requires Under(sub, dir)
    ensures FoldersOutside(WithDir(folders, sub), dir) == FoldersOutside(folders, dir)
  {
  }

  /** The file system: directories of downloaded items (file name to content) and state documents by path. */
  class Disk {
    var folders: map<string, map<string, string>>
    var states: map<string, SyncState>

    constructor(folders0: map<string, map<string, string>>, states0: map<string, SyncState>)
      ensures folders == folders0 && states == states0
    {
      folders, states := folders0, states0;
    }

    /** os.makedirs(dir, exist_ok=True). */
    method MakeDirs(dir: string)
      modifies this
      ensures folders == WithDir(old(folders), dir)
      ensures states == old(states)
    {
      if dir !in folders {
        folders := folders[dir := map[]];
      }
    }

    /** open(os.path.join(dir, name), "w").write(content); fails when the directory does not exist. */
    method WriteFile(dir: string, name: string, content: string) returns (ok: bool)
      modifies this
      ensures ok <==> dir in old(folders)
      ensures folders == if ok then old(folders)[dir := old(folders)[dir][name := content]] else old(folders)
      ensures states == old(states)
    {
      ok := dir in folders;
      if ok {
        folders := folders[dir := folders[dir][name := content]];
      }
    }

    /** shutil.rmtree(dir): every entry under dir is gone, the rest is kept. */
    method RemoveTree(dir: string)
      modifies this
      ensures folders == FoldersOutside(old(folders), dir)
      ensures states == StatesOutside(old(states), dir)
    {
      folders := FoldersOutside(folders, dir);
      states := StatesOutside(states, dir);
    }
  }

  /** The number of .txt files in a directory, 0 when it does not exist. */
  function CountTxt(folders: map<string, map<string, string>>, dir: string): nat
  {
    if dir in folders then |set f | f in folders[dir] && EndsWith(f, ".txt")| else 0
  }

  /** get_status as a record. */
  datatype StatusReport = StatusReport(
    connectorId: string, connectorType: string, labelName: string, status: string,
    lastSync: Option<string>, lastError: Option<string>, itemsSynced: nat, itemsFolder: string)

  /**
   * BaseConnector with the fields of its one subclass (the IMAP credentials,
   * `credentials`), since a connector object here is a single class.
   */
  class Connector {
    const connectorId: string
    const connectorType: string
    const config: ConnConfig
    const labelName: string
    const disk: Disk
    var status: Status
    var lastSync: Option<string>
    var lastError: Option<string>
    var itemsSynced: nat
    var credentials: Option<map<string, string>>

    /** A new connector is unconfigured with empty counters, and its items folder exists afterwards. */
    constructor(connectorId: string, connectorType: string, config: ConnConfig, disk: Disk)
      modifies disk
      ensures this.connectorId == connectorId && this.connectorType == connectorType
      ensures this.config == config && this.disk == disk
      ensures labelName == config.labelName.GetOr(connectorType)
      ensures status == NotConfigured && lastSync.None? && lastError.None? && itemsSynced == 0
      ensures credentials.None?
      ensures ItemsFolder(connectorType, connectorId) in disk.folders
      ensures disk.folders == WithDir(old(disk.folders), ItemsFolder(connectorType, connectorId))
      ensures disk.states == old(disk.states)
    {
      this.connectorId := connectorId;
      this.connectorType := connectorType;
      this.config := config;
      this.labelName := config.labelName.GetOr(connectorType);
      this.disk := disk;
      status := NotConfigured;
      lastSync, lastError, itemsSynced := None, None, 0;
      credentials := None;
      new;
      disk.MakeDirs(ItemsFolder(connectorType, connectorId));
    }

    function ItemsPath(): string
    {
      ItemsFolder(connectorType, connectorId)
    }

    function StatePath(): string
    {
      StateFile(connectorType, connectorId)
    }

    /** What load_state would return now: the saved document, or {} when there is none. */
    function Loaded(): SyncState
      reads disk
    {
      Get(disk.states, StatePath(), EmptyState)
    }

    method LoadState() returns (s: SyncState)
      ensures StatePath() in disk.states ==> s == disk.states[StatePath()]
      ensures StatePath() !in disk.states ==> s == EmptyState
    {
      s := Get(disk.states, StatePath(), EmptyState);
    }

    /** save_state; loading afterwards gives back what was saved. */
    method SaveState(s: SyncState)
      modifies disk
      ensures disk.states == old(disk.states)[StatePath() := s]
      ensures disk.folders == old(disk.folders)
      ensures Loaded() == s
    {
      disk.states := disk.states[StatePath() := s];
    }

    /** The number of .txt files in the items folder. */
    function CountItems(): nat
      reads disk
    {
      CountTxt(disk.folders, ItemsPath())
    }

    function GetStatus(): (r: StatusReport)
      reads this
      ensures r.connectorId == connectorId && r.connectorType == connectorType && r.labelName == labelName
      ensures r.status == status.Value() && r.lastSync == lastSync && r.lastError == lastError
      ensures r.itemsSynced == itemsSynced && r.itemsFolder == ItemsFolder(connectorType, connectorId)
    {
      StatusReport(connectorId, connectorType, labelName, status.Value(), lastSync, lastError, itemsSynced, ItemsPath())
    }

    /** cleanup removes the base directory: the items folder and the state file are gone, other connectors' data stays. */
    method Cleanup()
      modifies disk
      ensures ItemsPath() !in disk.folders && StatePath() !in disk.states
      ensures disk.folders == FoldersOutside(old(disk.folders), BaseDir(connectorType, connectorId))
      ensures disk.states == StatesOutside(old(disk.states), BaseDir(connectorType, connectorId))
      ensures Loaded() == EmptyState && CountItems() == 0
    {
      PathsInsideBase(connectorType, connectorId);
      disk.RemoveTree(BaseDir(connectorType, connectorId));
    }
  }
}
