/**
 * The connector registry: connector classes by type name, the persisted
 * list of configured connectors, and a cache of live instances by id. The
 * JSON config file is the `entries` field. IMAP mail is the one connector
 * class there is, so a class is the `Kind` value `Imap`.
 */
module ConnectorRegistry {
  import opened Wrappers
  import opened Seqs
  import opened BaseConnector
  import opened GmailConnector

  datatype Kind = Imap

  /** One element of the "connectors" list; keys that may be missing are options. */
  datatype Entry = Entry(id: string, connectorType: string, labelName: Option<string>, credentials: map<string, string>,
                         config: Option<ConnConfig>, addedAt: Option<string>)

  /** One element of list_connectors: a live status, or the placeholder for a type that cannot be instantiated. */
  datatype Listed = Live(report: StatusReport) | Placeholder(connectorId: string, connectorType: string, labelName: string,
                                                            status: string, lastError: string)

  /** The position of the first entry with this id. */
  function FirstWithId(entries: seq<Entry>, id: string): (r: Option<nat>)
    ensures r.Some? ==> r.value < |entries| && entries[r.value].id == id
    ensures r.Some? ==> forall j :: 0 <= j < r.value ==> entries[j].id != id
    ensures r.None? ==> forall j :: 0 <= j < |entries| ==> entries[j].id != id
  {
    if entries == [] then None
    else if entries[0].id == id then Some(0)
    else
      match FirstWithId(entries[1..], id)
      case None => None
      case Some(j) => Some(j + 1)
  }

  /** `[c for c in entries if c["id"] != id]` */
  function WithoutId(entries: seq<Entry>, id: string): (r: seq<Entry>)
    ensures forall j :: 0 <= j < |r| ==> r[j].id != id && r[j] in entries
    ensures forall j :: 0 <= j < |entries| && entries[j].id != id ==> entries[j] in r
  {
    Filter(entries, (e: Entry) => e.id != id)
  }

  /** Removing an id keeps the other entries in their order. */
  lemma {:induction false} WithoutIdKeepsOthers(a: seq<Entry>, b: seq<Entry>, id: string)
    ensures WithoutId(a + b, id) == WithoutId(a, id) + WithoutId(b, id)
    ensures (forall j :: 0 <= j < |a| ==> a[j].id != id) ==> WithoutId(a, id) == a
  {
    FilterConcat(a, b, (e: Entry) => e.id != id);
    if forall j :: 0 <= j < |a| ==> a[j].id != id {
      FilterAll(a, id);
    }
  }

  lemma {:induction false} FilterAll(a: seq<Entry>, id: string)
    requires forall j :: 0 <= j < |a| ==> a[j].id != id
    ensures WithoutId(a, id) == a
  {
    if a != [] {
      FilterAll(a[..|a| - 1], id);
      assert a == a[..|a| - 1] + [a[|a| - 1]];
    }
  }

  /** The login attempt with a credentials dict succeeds. */
  predicate LoginSucceeds(creds: map<string, string>, login: Login)
  {
    "imap_server" in creds && "email" in creds && "password" in creds
    && login(creds["imap_server"], creds["email"], creds["password"]).LoginOk?
  }

  /** The last_error of an instance after _instantiate logs in again with these credentials: authenticate's message, or none. */
  function ReauthError(creds: map<string, string>, login: Login): (r: Option<string>)
    ensures r.None? <==> LoginSucceeds(creds, login)
  {
    match FirstMissing(creds, RequiredCredentials)
    case Some(k) => Some("Missing credential: " + RequiredCredentials[k])
    case None =>
      assert RequiredCredentials[0] in creds && RequiredCredentials[1] in creds && RequiredCredentials[2] in creds;
      match login(creds["imap_server"], creds["email"], creds["password"])
      case LoginOk => None
      case ImapRejected(reason) => Some("IMAP auth failed: " + reason)
      case ConnectFailed(reason) => Some("Connection failed: " + reason)
  }

  /**
   * c is what _instantiate builds from entry e: the entry's id, type and
   * config; the status after logging in again with the stored credentials;
   * last_sync and items_synced restored from the state file when they are set.
   */
  ghost predicate MadeFrom(c: Connector, e: Entry, login: Login, states: map<string, SyncState>)
    reads c
  {
    var st := Get(states, StateFile(e.connectorType, e.id), EmptyState);
    && c.connectorId == e.id && c.connectorType == e.connectorType
    && c.config == e.config.GetOr(ConnConfig(None, None)) && c.labelName == c.config.labelName.GetOr(e.connectorType)
    && (|e.credentials| == 0 ==> c.status == NotConfigured && c.credentials.None? && c.lastError.None?)
    && (|e.credentials| > 0 ==> c.lastError == ReauthError(e.credentials, login))
    && (|e.credentials| > 0 && LoginSucceeds(e.credentials, login) ==>
          c.status == Authenticated && c.credentials == Some(e.credentials))
    && (|e.credentials| > 0 && !LoginSucceeds(e.credentials, login) ==> c.status == Error && c.credentials.None?)
    && c.lastSync == (if st.lastSync.Some? && st.lastSync.value != "" then st.lastSync else None)
    && c.itemsSynced == (if st.itemsSynced.Some? && st.itemsSynced.value != 0 then st.itemsSynced.value else 0)
  }

  /** get_connector can produce a new instance for id: its first entry has a registered type. */
  ghost predicate Registered(entries: seq<Entry>, classes: map<string, Kind>, id: string)
  {
    FirstWithId(entries, id).Some? && entries[FirstWithId(entries, id).value].connectorType in classes
  }

  /**
   * The item list_connectors gives for entry e: the connector's live status
   * when it was already made or its type is registered, otherwise the error
   * placeholder built from the entry.
   */
  ghost predicate ListedAs(item: Listed, e: Entry, entries: seq<Entry>, classes: map<string, Kind>, instances: map<string, Connector>)
  {
    && (item.Live? <==> e.id in instances || Registered(entries, classes, e.id))
    && (item.Live? ==> item.report.connectorId == e.id)
    && (item.Placeholder? ==>
          item == Placeholder(e.id, e.connectorType, e.labelName.GetOr(e.connectorType), "error", "Could not instantiate connector"))
  }

  /** Every live item of the list is the get_status() report of the instance cached under its entry's id. */
  ghost predicate LiveReports(items: seq<Listed>, entries: seq<Entry>, instances: map<string, Connector>)
    reads instances.Values
  {
    forall j :: 0 <= j < |items| && j < |entries| && items[j].Live? ==>
      entries[j].id in instances && items[j].report == instances[entries[j].id].GetStatus()
  }

  /** The reports stay right when the cache only grows. */
  lemma LiveReportsGrow(items: seq<Listed>, entries: seq<Entry>, a: map<string, Connector>, b: map<string, Connector>)
    requires LiveReports(items, entries, a)
    requires forall id :: id in a ==> id in b && b[id] == a[id]
    ensures LiveReports(items, entries, b)
  {
  }

  /** One more live item that is the report of its entry's cached instance. */
  lemma LiveReportsSnoc(items: seq<Listed>, item: Listed, entries: seq<Entry>, instances: map<string, Connector>)
    requires LiveReports(items, entries, instances) && |items| < |entries|
    requires item.Live? ==> entries[|items|].id in instances && item.report == instances[entries[|items|].id].GetStatus()
    ensures LiveReports(items + [item], entries, instances)
  {
    assert forall j :: 0 <= j < |items| ==> (items + [item])[j] == items[j];
  }

  /** The cache only grew from a to b: kept instances stay, and new ids are registered ones. */
  ghost predicate CacheGrew(a: map<string, Connector>, b: map<string, Connector>, entries: seq<Entry>, classes: map<string, Kind>)
  {
    && (forall id :: id in a ==> id in b && b[id] == a[id])
    && (forall id :: id in b ==> id in a || Registered(entries, classes, id))
  }

  lemma CacheGrewTrans(a: map<string, Connector>, b: map<string, Connector>, c: map<string, Connector>,
                       entries: seq<Entry>, classes: map<string, Kind>)
    requires CacheGrew(a, b, entries, classes) && CacheGrew(b, c, entries, classes)
    ensures CacheGrew(a, c, entries, classes)
  {
  }

  /** An item listed against a grown cache is listed the same way against the cache it grew from. */
  lemma ListedAsOtherCache(item: Listed, e: Entry, entries: seq<Entry>, classes: map<string, Kind>,
                           now: map<string, Connector>, before: map<string, Connector>)
    requires ListedAs(item, e, entries, classes, now) && CacheGrew(before, now, entries, classes)
    ensures ListedAs(item, e, entries, classes, before)
  {
  }

  /**
   * The type of the connector get_connector hands remove_connector: the live
   * instance's, else the first entry's when it is registered; none otherwise.
   */
  ghost function HeldType(instances: map<string, Connector>, entries: seq<Entry>, classes: map<string, Kind>, id: string): Option<string>
  {
    if id in instances then Some(instances[id].connectorType)
    else if Registered(entries, classes, id) then Some(entries[FirstWithId(entries, id).value].connectorType)
    else None
  }

  class Registry {
    var types: seq<string>
    var classes: map<string, Kind>
    var instances: map<string, Connector>
    var entries: seq<Entry>
    const disk: Disk

    /** Registration order lists each type once; every cached instance sits under its own id on the shared disk. */
    ghost predicate TypesValid()
      reads this
    {
      && (forall i, j :: 0 <= i < j < |types| ==> types[i] != types[j])
      && (forall t :: t in classes <==> t in types)
    }

    ghost predicate Valid()
      reads this
    {
      && TypesValid()
      && (forall id :: id in instances ==> instances[id].connectorId == id && instances[id].disk == disk)
    }

    /** The registry when the connector package is first imported, over the saved config list. */
    constructor(disk: Disk, saved: seq<Entry>)
      ensures Valid()
      ensures types == [] && classes == map[] && instances == map[] && entries == saved && this.disk == disk
    {
      types, classes, instances, entries := [], map[], map[], saved;
      this.disk := disk;
    }

    /** register: a later class for a type replaces the earlier one and keeps the type's place. */
    method Register(typeName: string, k: Kind)
      requires Valid()
      modifies this
      ensures Valid()
      ensures classes == old(classes)[typeName := k]
      ensures types == if typeName in old(classes) then old(types) else old(types) + [typeName]
      ensures instances == old(instances) && entries == old(entries)
    {
      if typeName !in classes {
        types := types + [typeName];
      }
      classes := classes[typeName := k];
    }

    /** get_available_types: the registered type names in registration order. */
    function AvailableTypes(): (r: seq<string>)
      reads this
      requires TypesValid()
      ensures forall t :: t in r <==> t in classes
      ensures forall i, j :: 0 <= i < j < |r| ==> r[i] != r[j]
    {
      types
    }

    /**
     * _instantiate: build the connector, log in again with the stored
     * credentials when there are any, and restore last_sync and
     * items_synced from the state file when they are set.
     */
    method Instantiate(e: Entry, login: Login) returns (r: Option<Connector>)
      requires Valid()
      modifies disk
      ensures r.None? <==> e.connectorType !in classes
      ensures r.Some? ==> fresh(r.value) && r.value.disk == disk && MadeFrom(r.value, e, login, old(disk.states))
      ensures disk.states == old(disk.states)
      ensures r.None? ==> disk.folders == old(disk.folders)
      ensures r.Some? ==> disk.folders == WithDir(old(disk.folders), ItemsFolder(e.connectorType, e.id))
    {
      if e.connectorType !in classes {
        return None;
      }
      var conn := new Connector(e.id, e.connectorType, e.config.GetOr(ConnConfig(None, None)), disk);
      if |e.credentials| > 0 {
        var _ := Authenticate(conn, e.credentials, login);
      }
      var state := conn.LoadState();
      if state.lastSync.Some? && state.lastSync.value != "" {
        conn.lastSync := state.lastSync;
      }
      if state.itemsSynced.Some? && state.itemsSynced.value != 0 {
        conn.itemsSynced := state.itemsSynced.value;
      }
      r := Some(conn);
    }

    /**
     * add_connector: an unknown type is refused before anything changes; a
     * failed login adds neither an entry nor an instance; success appends
     * one entry with the new id and caches the instance.
     */
    method AddConnector(connectorType: string, creds: map<string, string>, labelName: string, syncInterval: int,
                        newId: string, now: string, login: Login)
      returns (r: Result<StatusReport>)
      requires Valid()
      modifies this, disk
      ensures Valid()
      ensures types == old(types) && classes == old(classes)
      ensures connectorType !in classes ==>
        r == Err("Unknown connector type: " + connectorType)
        && instances == old(instances) && entries == old(entries) && disk.folders == old(disk.folders)
      ensures connectorType in classes && !LoginSucceeds(creds, login) ==>
        r == Err("Authentication failed — check credentials") && instances == old(instances) && entries == old(entries)
      ensures connectorType in classes && LoginSucceeds(creds, login) ==>
        var shown := if labelName == "" then connectorType else labelName;
        && entries == old(entries) + [Entry(newId, connectorType, Some(shown), creds,
                                            Some(ConnConfig(Some(shown), Some(syncInterval))), Some(now))]
        && newId in instances && fresh(instances[newId])
        && instances == old(instances)[newId := instances[newId]]
        && r == Ok(instances[newId].GetStatus())
        && instances[newId].status == Authenticated && instances[newId].credentials == Some(creds)
      ensures disk.states == old(disk.states)
    {
      if connectorType !in classes {
        return Err("Unknown connector type: " + connectorType);
      }
      var shown := if labelName == "" then connectorType else labelName;
      var config := ConnConfig(Some(shown), Some(syncInterval));
      var instance := new Connector(newId, connectorType, config, disk);
      var ok := Authenticate(instance, creds, login);
      if !ok {
        return Err("Authentication failed — check credentials");
      }
      entries := entries + [Entry(newId, connectorType, Some(shown), creds, Some(config), Some(now))];
      instances := instances[newId := instance];
      r := Ok(instance.GetStatus());
    }

    /**
     * get_connector: the cached instance; otherwise the first entry with
     * the id is instantiated and cached; None when no entry has the id or
     * its type is not registered.
     */
    method GetConnector(id: string, login: Login) returns (r: Option<Connector>)
      requires Valid()
      modifies this, disk
      ensures Valid()
      ensures types == old(types) && classes == old(classes) && entries == old(entries)
      ensures id in old(instances) ==> r == Some(old(instances)[id]) && instances == old(instances)
      ensures id !in old(instances) && FirstWithId(entries, id).None? ==> r.None? && instances == old(instances)
      ensures id !in old(instances) ==> (r.Some? <==> Registered(entries, classes, id))
      ensures id !in old(instances) && r.Some? ==> fresh(r.value) && instances == old(instances)[id := r.value]
      ensures id !in old(instances) && r.Some? ==>
        var e := entries[FirstWithId(entries, id).value];
        MadeFrom(r.value, e, login, old(disk.states)) && disk.folders == WithDir(old(disk.folders), ItemsFolder(e.connectorType, id))
      ensures r.None? ==> instances == old(instances) && disk.folders == old(disk.folders)
      ensures id in old(instances) ==> disk.folders == old(disk.folders)
      ensures r.Some? <==> id in instances
      ensures r.Some? ==> r.value == instances[id]
      ensures disk.states == old(disk.states)
    {
      if id in instances {
        return Some(instances[id]);
      }
      var i := 0;
      while i < |entries|
        invariant 0 <= i <= |entries|
        invariant forall j :: 0 <= j < i ==> entries[j].id != id
        invariant disk.states == old(disk.states) && disk.folders == old(disk.folders)
      {
        if entries[i].id == id {
          r := Instantiate(entries[i], login);
          if r.Some? {
            instances := instances[id := r.value];
          }
          return r;
        }
        i := i + 1;
      }
      return None;
    }

    /** list_connectors: one item per entry, live when its connector can be had, else the error placeholder. */
    method ListConnectors(login: Login) returns (items: seq<Listed>)
      requires Valid()
      modifies this, disk
      ensures Valid()
      ensures types == old(types) && classes == old(classes) && entries == old(entries)
      ensures |items| == |entries|
      ensures forall i :: 0 <= i < |entries| ==> ListedAs(items[i], entries[i], entries, classes, old(instances))
      ensures LiveReports(items, entries, instances)
      ensures forall id :: id in old(instances) ==> id in instances && instances[id] == old(instances)[id]
      ensures disk.states == old(disk.states)
    {
      items := [];
      for i := 0 to |entries|
        invariant Valid()
        invariant types == old(types) && classes == old(classes) && entries == old(entries)
        invariant |items| == i
        invariant CacheGrew(old(instances), instances, entries, classes)
        invariant forall j :: 0 <= j < i ==> ListedAs(items[j], entries[j], entries, classes, old(instances))
        invariant LiveReports(items, entries, instances)
        invariant disk.states == old(disk.states)
      {
        ghost var inst := instances;
        var item := ListOne(entries[i], login, items);
        CacheGrewTrans(old(instances), inst, instances, entries, classes);
        ListedAsOtherCache(item, entries[i], entries, classes, inst, old(instances));
        items := items + [item];
      }
    }

    /** One item of list_connectors: the live status, or the placeholder when the connector cannot be had. */
    method ListOne(e: Entry, login: Login, ghost done: seq<Listed>) returns (item: Listed)
      requires Valid() && LiveReports(done, entries, instances)
      modifies this, disk
      ensures Valid()
      ensures types == old(types) && classes == old(classes) && entries == old(entries)
      ensures ListedAs(item, e, entries, classes, old(instances))
      ensures item.Live? ==> e.id in instances && item.report == instances[e.id].GetStatus()
      ensures LiveReports(done, entries, instances)
      ensures |done| < |entries| && entries[|done|] == e ==> LiveReports(done + [item], entries, instances)
      ensures CacheGrew(old(instances), instances, entries, classes)
      ensures disk.states == old(disk.states)
    {
      var instance := GetConnector(e.id, login);
      if instance.Some? {
        item := Live(instance.value.GetStatus());
      } else {
        item := Placeholder(e.id, e.connectorType, e.labelName.GetOr(e.connectorType), "error", "Could not instantiate connector");
      }
      LiveReportsGrow(done, entries, old(instances), instances);
      if |done| < |entries| && entries[|done|] == e {
        LiveReportsSnoc(done, item, entries, instances);
      }
    }

    /**
     * remove_connector: clean up the connector's files when it can be had,
     * drop every entry with the id, and forget the instance. The items
     * folder is returned so that its index can be dropped too.
     */
    method RemoveConnector(id: string, login: Login) returns (itemsFolder: Option<string>)
      requires Valid()
      modifies this, disk
      ensures Valid()
      ensures types == old(types) && classes == old(classes)
      ensures entries == WithoutId(old(entries), id)
      ensures instances == old(instances) - {id}
      ensures id in old(instances) ==> itemsFolder == Some(old(instances)[id].ItemsPath())
      ensures itemsFolder.Some? ==> itemsFolder.value !in disk.folders
      ensures var t := HeldType(old(instances), old(entries), classes, id);
        && itemsFolder == (if t.Some? then Some(ItemsFolder(t.value, id)) else None)
        && (t.Some? ==>
              disk.folders == FoldersOutside(old(disk.folders), BaseDir(t.value, id))
              && disk.states == StatesOutside(old(disk.states), BaseDir(t.value, id)))
        && (t.None? ==> disk.folders == old(disk.folders) && disk.states == old(disk.states))
    {
      var instance := GetConnector(id, login);
      assert instances - {id} == old(instances) - {id};
      itemsFolder := None;
      if instance.Some? {
        var c := instance.value;
        PathsInsideBase(c.connectorType, id);
        OutsideAfterMake(old(disk.folders), BaseDir(c.connectorType, id), c.ItemsPath());
        itemsFolder := Some(c.ItemsPath());
        c.Cleanup();
      }
      Forget(id);
    }

    /** The config-list and cache half of remove_connector. */
    method Forget(id: string)
      requires Valid()
      modifies this
      ensures Valid()
      ensures types == old(types) && classes == old(classes)
      ensures entries == WithoutId(old(entries), id) && instances == old(instances) - {id}
    {
      entries := WithoutId(entries, id);
      instances := instances - {id};
    }

    /** restore_all: instantiate every configured connector that is not live yet; live ones are kept as they are. */
    method RestoreAll(login: Login)
      requires Valid()
      modifies this, disk
      ensures Valid()
      ensures types == old(types) && classes == old(classes) && entries == old(entries)
      ensures forall id :: id in old(instances) ==> id in instances && instances[id] == old(instances)[id]
      ensures forall id :: id in instances && id !in old(instances) ==>
        fresh(instances[id]) && exists j :: 0 <= j < |entries| && entries[j].id == id
      ensures forall j :: 0 <= j < |entries| && entries[j].connectorType in classes ==> entries[j].id in instances
      ensures disk.states == old(disk.states)
    {
      for i := 0 to |entries|
        invariant Valid()
        invariant types == old(types) && classes == old(classes) && entries == old(entries)
        invariant forall id :: id in old(instances) ==> id in instances && instances[id] == old(instances)[id]
        invariant forall id :: id in instances && id !in old(instances) ==>
          fresh(instances[id]) && exists j :: 0 <= j < i && entries[j].id == id
        invariant forall j :: 0 <= j < i && entries[j].connectorType in classes ==> entries[j].id in instances
        invariant disk.states == old(disk.states)
      {
        RestoreOne(entries[i], login);
      }
    }

    /** One iteration of restore_all: instantiate the entry unless its id is live already. */
    method RestoreOne(e: Entry, login: Login)
      requires Valid()
      modifies this, disk
      ensures Valid()
      ensures types == old(types) && classes == old(classes) && entries == old(entries)
      ensures forall id :: id in old(instances) ==> id in instances && instances[id] == old(instances)[id]
      ensures forall id :: id in instances && id !in old(instances) ==> id == e.id && fresh(instances[id])
      ensures e.connectorType in classes ==> e.id in instances
      ensures disk.states == old(disk.states)
    {
      if e.id !in instances {
        var instance := Instantiate(e, login);
        if instance.Some? {
          instances := instances[e.id := instance.value];
        }
      }
    }
  }
}
