/**
 * The sync engine: one sync of a connector at a time (a guard set of the
 * connector ids being synced), and the indexing of the connector's items
 * folder afterwards, gated by each file's stored hash. store_document is
 * a function parameter returning the chunk count or the error it raised;
 * os.listdir is a method that lists the folder in some order.
 */
module SyncEngine {
  import opened Wrappers
  import opened Text
  import opened Seqs
  import opened IndexMetadata
  import opened BaseConnector
  import opened GmailConnector
  import opened ConnectorRegistry

  type StoreFn = (string, string) -> Result<nat>

  /** What indexing one listed file gives; everything the loop reads is in `env`. */
  datatype IndexEnv = IndexEnv(dir: string, existing: map<string, FileRecord>, folder: map<string, string>,
                               stat: string -> Option<FileStat>, store: StoreFn, now: string)

  /** Kept: unchanged, the old record stays. Indexed: stored anew. Blank: no text. Failed: store_document raised. */
  datatype FileOutcome = Kept(rec: FileRecord) | Indexed(rec: FileRecord) | Blank | Failed(message: string)
  {
    predicate HasRecord()
    {
      Kept? || Indexed?
    }
  }

  /** The loop body of _index_connector_items for one file name; `content.strip()` is empty exactly when the content is all whitespace. */
  function Outcome(env: IndexEnv, name: string): FileOutcome
  {
    var fp := PathJoin(env.dir, name);
    var h := FileHash(env.stat(fp));
    if fp in env.existing && env.existing[fp].hash == h then Kept(env.existing[fp])
    else
      var content := Get(env.folder, name, "");
      if AllSpace(content) then Blank
      else
        match env.store(fp, content)
        case Ok(n) => Indexed(FileRecord(h, Some(n), Some(env.now)))
        case Err(e) => Failed(e)
  }

  /** The files map the loop builds over `names`, in order. */
  function BuildMeta(env: IndexEnv, names: seq<string>): map<string, FileRecord>
  {
    if names == [] then map[]
    else
      var m := BuildMeta(env, names[..|names| - 1]);
      var n := names[|names| - 1];
      var o := Outcome(env, n);
      if o.HasRecord() then m[PathJoin(env.dir, n) := o.rec] else m
  }

  /** indexed_count: the files stored anew. */
  function IndexedCount(env: IndexEnv, names: seq<string>): nat
  {
    if names == [] then 0
    else IndexedCount(env, names[..|names| - 1]) + (if Outcome(env, names[|names| - 1]).Indexed? then 1 else 0)
  }

  /** The paths handed to store_document, in call order. */
  function StoreCalls(env: IndexEnv, names: seq<string>): seq<string>
  {
    if names == [] then []
    else
      var n := names[|names| - 1];
      var o := Outcome(env, n);
      StoreCalls(env, names[..|names| - 1]) + (if o.Indexed? || o.Failed? then [PathJoin(env.dir, n)] else [])
  }

  /** The .txt entries of a folder, each once. */
  ghost predicate Listing(names: seq<string>, folder: map<string, string>)
  {
    && (forall i, j :: 0 <= i < j < |names| ==> names[i] != names[j])
    && (forall n :: n in names <==> n in folder && EndsWith(n, ".txt"))
  }

  /** Directory entries are plain names: they do not start with a separator. */
  predicate PlainNames(names: seq<string>)
  {
    forall i :: 0 <= i < |names| ==> !StartsWith(names[i], "/")
  }

  /** The records the index had for the folder before: index_entry.get("files", {}). */
  function ExistingOf(s: seq<IndexEntry>, dir: string): map<string, FileRecord>
  {
    match FirstWithPath(s, dir)
    case Some(i) => s[i].files
    case None => map[]
  }

  /** The index list after find_or_create_index. */
  function AfterFind(s: seq<IndexEntry>, dir: string, newId: string, now: string): seq<IndexEntry>
  {
    if FirstWithPath(s, dir).Some? then s else s + [IndexEntry(newId, dir, now, 0, map[])]
  }

  /** Joining one directory with plain names is one-to-one. */
  lemma PathJoinInjective(dir: string, a: string, b: string)
    requires !StartsWith(a, "/") && !StartsWith(b, "/")
    requires PathJoin(dir, a) == PathJoin(dir, b)
    ensures a == b
  {
    var pre := if dir == "" || EndsWith(dir, "/") then dir else dir + "/";
    assert PathJoin(dir, a) == pre + a && PathJoin(dir, b) == pre + b;
    assert a == (pre + a)[|pre|..];
    assert b == (pre + b)[|pre|..];
  }

  /** Every record of the built map belongs to a listed file that has one: records of removed files are gone. */
  lemma {:induction false} MetaKeysListed(env: IndexEnv, names: seq<string>, fp: string)
    requires fp in BuildMeta(env, names)
    ensures exists n :: n in names && fp == PathJoin(env.dir, n) && Outcome(env, n).HasRecord()
  {
    var init, n := names[..|names| - 1], names[|names| - 1];
    if fp == PathJoin(env.dir, n) && Outcome(env, n).HasRecord() {
      assert n in names;
    } else {
      MetaKeysListed(env, init, fp);
      var m :| m in init && fp == PathJoin(env.dir, m) && Outcome(env, m).HasRecord();
      assert m in names;
    }
  }

  /** With plain, distinct names, each listed file has exactly the record its own outcome gives. */
  lemma {:induction false} MetaAtName(env: IndexEnv, names: seq<string>, n: string)
    requires PlainNames(names) && forall i, j :: 0 <= i < j < |names| ==> names[i] != names[j]
    requires n in names
    ensures PathJoin(env.dir, n) in BuildMeta(env, names) <==> Outcome(env, n).HasRecord()
    ensures Outcome(env, n).HasRecord() ==> BuildMeta(env, names)[PathJoin(env.dir, n)] == Outcome(env, n).rec
  {
    var init, last := names[..|names| - 1], names[|names| - 1];
    assert PlainNames(init);
    if n == last {
      MetaAtLast(env, names);
    } else {
      assert n in init;
      MetaAtName(env, init, n);
      MetaAtEarlier(env, names, n);
    }
  }

  /** The last name's record is not shadowed by an earlier one. */
  lemma MetaAtLast(env: IndexEnv, names: seq<string>)
    requires names != [] && PlainNames(names) && forall i, j :: 0 <= i < j < |names| ==> names[i] != names[j]
    ensures
      var n := names[|names| - 1];
      && (PathJoin(env.dir, n) in BuildMeta(env, names) <==> Outcome(env, n).HasRecord())
      && (Outcome(env, n).HasRecord() ==> BuildMeta(env, names)[PathJoin(env.dir, n)] == Outcome(env, n).rec)
  {
    LastNotEarlier(env, names);
    BuildMetaStep(env, names);
  }

  /** No earlier name of a plain, distinct listing has the last name's path. */
  lemma LastNotEarlier(env: IndexEnv, names: seq<string>)
    requires names != [] && PlainNames(names) && forall i, j :: 0 <= i < j < |names| ==> names[i] != names[j]
    ensures PathJoin(env.dir, names[|names| - 1]) !in BuildMeta(env, names[..|names| - 1])
  {
    var init, n := names[..|names| - 1], names[|names| - 1];
    var fp := PathJoin(env.dir, n);
    if fp in BuildMeta(env, init) {
      MetaKeysListed(env, init, fp);
      var m :| m in init && fp == PathJoin(env.dir, m) && Outcome(env, m).HasRecord();
      var k :| 0 <= k < |init| && init[k] == m;
      assert names[k] == m;
      PathJoinInjective(env.dir, m, n);
    }
  }

  /** An earlier name's record survives the step for the last name. */
  lemma MetaAtEarlier(env: IndexEnv, names: seq<string>, n: string)
    requires names != [] && PlainNames(names) && n in names[..|names| - 1] && n != names[|names| - 1]
    ensures var fp := PathJoin(env.dir, n);
      && (fp in BuildMeta(env, names) <==> fp in BuildMeta(env, names[..|names| - 1]))
      && (fp in BuildMeta(env, names) ==> BuildMeta(env, names)[fp] == BuildMeta(env, names[..|names| - 1])[fp])
  {
    var init, last := names[..|names| - 1], names[|names| - 1];
    var k :| 0 <= k < |names| - 1 && names[k] == n;
    assert !StartsWith(names[k], "/");
    var fp, lp := PathJoin(env.dir, n), PathJoin(env.dir, last);
    if lp == fp {
      PathJoinInjective(env.dir, last, n);
    }
    BuildMetaStep(env, names);
  }

  /** One step of the loop: the last name's record, if any, is put into the map built so far. */
  lemma BuildMetaStep(env: IndexEnv, names: seq<string>)
    requires names != []
    ensures BuildMeta(env, names)
      == var m, o := BuildMeta(env, names[..|names| - 1]), Outcome(env, names[|names| - 1]);
         if o.HasRecord() then m[PathJoin(env.dir, names[|names| - 1]) := o.rec] else m
    ensures IndexedCount(env, names)
      == IndexedCount(env, names[..|names| - 1]) + if Outcome(env, names[|names| - 1]).Indexed? then 1 else 0
    ensures StoreCalls(env, names)
      == var o := Outcome(env, names[|names| - 1]);
         StoreCalls(env, names[..|names| - 1]) + if o.Indexed? || o.Failed? then [PathJoin(env.dir, names[|names| - 1])] else []
  {
  }

  /** Every path handed to store_document is a listed file that was new or changed and not blank. */
  lemma {:induction false} StoreCallsListed(env: IndexEnv, names: seq<string>, fp: string)
    requires fp in StoreCalls(env, names)
    ensures exists n :: n in names && fp == PathJoin(env.dir, n) && (Outcome(env, n).Indexed? || Outcome(env, n).Failed?)
  {
    var init, n := names[..|names| - 1], names[|names| - 1];
    if fp in StoreCalls(env, init) {
      StoreCallsListed(env, init, fp);
      var m :| m in init && fp == PathJoin(env.dir, m) && (Outcome(env, m).Indexed? || Outcome(env, m).Failed?);
      assert m in names;
    } else {
      assert n in names;
    }
  }

  /** The hash gate: an unchanged file keeps its stored record and is not stored again. */
  lemma HashGateKeeps(env: IndexEnv, names: seq<string>, n: string)
    requires PlainNames(names) && forall i, j :: 0 <= i < j < |names| ==> names[i] != names[j]
    requires n in names
    requires PathJoin(env.dir, n) in env.existing
    requires env.existing[PathJoin(env.dir, n)].hash == FileHash(env.stat(PathJoin(env.dir, n)))
    ensures PathJoin(env.dir, n) in BuildMeta(env, names)
    ensures BuildMeta(env, names)[PathJoin(env.dir, n)] == env.existing[PathJoin(env.dir, n)]
    ensures PathJoin(env.dir, n) !in StoreCalls(env, names)
  {
    MetaAtName(env, names, n);
    var fp := PathJoin(env.dir, n);
    if fp in StoreCalls(env, names) {
      StoreCallsListed(env, names, fp);
    }
  }

  /** A new or changed file stored without error gets a fresh record and is counted; a blank or failed one gets none. */
  lemma NewOrChangedRecord(env: IndexEnv, names: seq<string>, n: string)
    requires PlainNames(names) && forall i, j :: 0 <= i < j < |names| ==> names[i] != names[j]
    requires n in names && !Outcome(env, n).Kept?
    ensures Outcome(env, n).Indexed? ==>
      PathJoin(env.dir, n) in BuildMeta(env, names) &&
      BuildMeta(env, names)[PathJoin(env.dir, n)]
        == FileRecord(FileHash(env.stat(PathJoin(env.dir, n))), Outcome(env, n).rec.chunks, Some(env.now))
    ensures !Outcome(env, n).Indexed? ==> PathJoin(env.dir, n) !in BuildMeta(env, names)
  {
    MetaAtName(env, names, n);
  }

  /** indexed_count is the number of listed files that were stored anew. */
  lemma {:induction false} CountIsIndexed(env: IndexEnv, names: seq<string>)
    ensures IndexedCount(env, names) == |Filter(names, (n: string) => Outcome(env, n).Indexed?)|
    ensures IndexedCount(env, names) <= |StoreCalls(env, names)|
  {
    if names != [] {
      CountIsIndexed(env, names[..|names| - 1]);
    }
  }

  /** After indexing, the folder's index holds exactly the built map and its count. */
  lemma MetadataReplaced(s: seq<IndexEntry>, dir: string, newId: string, now: string, files: map<string, FileRecord>)
    ensures
      var r := UpdateFirst(AfterFind(s, dir, newId, now), dir, files, now);
      && FirstWithPath(r, dir).Some?
      && r[FirstWithPath(r, dir).value].files == files
      && r[FirstWithPath(r, dir).value].fileCount == |files|
      && |r| == |s| + (if FirstWithPath(s, dir).Some? then 0 else 1)
  {
    var t := AfterFind(s, dir, newId, now);
    if FirstWithPath(s, dir).None? {
      assert t[|s|].path == dir;
    }
    var r := UpdateFirst(t, dir, files, now);
    var i := FirstWithPath(t, dir).value;
    assert r[i].path == dir;
    PathsStay(t, dir, files, now, i);
  }

  lemma PathsStay(t: seq<IndexEntry>, dir: string, files: map<string, FileRecord>, now: string, i: nat)
    requires FirstWithPath(t, dir) == Some(i)
    ensures FirstWithPath(UpdateFirst(t, dir, files, now), dir) == Some(i)
  {
    var r := UpdateFirst(t, dir, files, now);
    assert r[i].path == dir;
  }

  /** os.listdir filtered to .txt: some order of the folder's .txt entries. */
  method ListTxt(folder: map<string, string>) returns (names: seq<string>)
    ensures Listing(names, folder)
    ensures |names| == |set n | n in folder && EndsWith(n, ".txt")|
  {
    var txt := set n | n in folder.Keys && EndsWith(n, ".txt");
    var rest := txt;
    names := [];
    while rest != {}
      invariant rest <= txt && |names| + |rest| == |txt|
      invariant forall n :: n in names ==> n !in rest
      invariant forall n :: n in names || n in rest <==> n in folder && EndsWith(n, ".txt")
      invariant forall i, j :: 0 <= i < j < |names| ==> names[i] != names[j]
      decreases |rest|
    {
      var n :| n in rest;
      names := names + [n];
      rest := rest - {n};
    }
  }

  /** The body of the loop of _index_connector_items for one file. */
  method IndexFile(env: IndexEnv, name: string) returns (o: FileOutcome)
    ensures o == Outcome(env, name)
  {
    var fp := PathJoin(env.dir, name);
    var currentHash := FileHash(env.stat(fp));
    if fp in env.existing && env.existing[fp].hash == currentHash {
      return Kept(env.existing[fp]);
    }
    var content := Get(env.folder, name, "");
    StripEmpty(content);
    if Strip(content) == "" {
      return Blank;
    }
    var stored := env.store(fp, content);
    if stored.Ok? {
      o := Indexed(FileRecord(currentHash, Some(stored.value), Some(env.now)));
    } else {
      o := Failed(stored.message);
    }
  }

  /** The loop of _index_connector_items over the listed names. */
  method IndexFiles(env: IndexEnv, names: seq<string>) returns (files: map<string, FileRecord>, count: nat, calls: seq<string>)
    ensures files == BuildMeta(env, names) && count == IndexedCount(env, names) && calls == StoreCalls(env, names)
  {
    files, count, calls := map[], 0, [];
    for i := 0 to |names|
      invariant files == BuildMeta(env, names[..i])
      invariant count == IndexedCount(env, names[..i])
      invariant calls == StoreCalls(env, names[..i])
    {
      var name := names[i];
      assert names[..i + 1][..i] == names[..i];
      BuildMetaStep(env, names[..i + 1]);
      var fp := PathJoin(env.dir, name);
      var o := IndexFile(env, name);
      if o.Indexed? || o.Failed? {
        calls := calls + [fp];
      }
      if o.HasRecord() {
        files := files[fp := o.rec];
      }
      if o.Indexed? {
        count := count + 1;
      }
    }
    assert names[..|names|] == names;
  }

  /** What the guarded part of sync_connector returned: the refusal, or the connector's sync result. */
  datatype SyncOutcome = Refused(error: string) | Synced(result: SyncResult)

  /** The index list after _index_connector_items on dir, for some listing order of the folder. */
  ghost predicate Reindexed(before: seq<IndexEntry>, after: seq<IndexEntry>, dir: string,
                            folders: map<string, map<string, string>>, stat: string -> Option<FileStat>,
                            store: StoreFn, newId: string, now: string)
  {
    && (dir !in folders ==> after == before)
    && (dir in folders ==>
          exists names :: Listing(names, folders[dir])
            && after == UpdateFirst(AfterFind(before, dir, newId, now), dir,
                                    BuildMeta(IndexEnv(dir, ExistingOf(before, dir), folders[dir], stat, store, now), names), now))
  }

  /**
   * The result connector.sync returns, by its contract: "Not authenticated"
   * without credentials, the login error when the login fails, otherwise
   * the new-item count and the errors of the sync run from the stored
   * watermarks.
   */
  predicate SyncReturned(res: SyncResult, creds: Option<map<string, string>>, watermarks: map<string, nat>,
                         session: Session, items: string, hadFolder: bool)
  {
    && (!Authed(creds) ==> res == SyncResult(0, 0, ["Not authenticated"]))
    && (Authed(creds) && session.loginError.Some? ==> res == SyncResult(0, 0, [session.loginError.value]))
    && (Authed(creds) && session.loginError.None? ==>
          var run := SyncSpec(watermarks, session, items, hadFolder, MailFile);
          res.newItems == run.newItems && res.errors == run.errors)
  }

  class Engine {
    var syncing: set<string>
    const registry: Registry
    const index: IndexStore

    constructor(registry: Registry, index: IndexStore)
      ensures syncing == {} && this.registry == registry && this.index == index
    {
      syncing := {};
      this.registry := registry;
      this.index := index;
    }

    /**
     * _index_connector_items: nothing when the items folder is missing;
     * otherwise the folder's index is found or created and its files map
     * replaced by the one the hash-gated loop builds.
     */
    method IndexConnectorItems(conn: Connector, stat: string -> Option<FileStat>, store: StoreFn, newId: string, now: string)
      returns (count: nat, calls: seq<string>)
      modifies index
      ensures conn.ItemsPath() !in conn.disk.folders ==> index.indexes == old(index.indexes) && count == 0 && calls == []
      ensures conn.ItemsPath() in conn.disk.folders ==>
        exists names :: Listing(names, conn.disk.folders[conn.ItemsPath()])
          && var env := IndexEnv(conn.ItemsPath(), ExistingOf(old(index.indexes), conn.ItemsPath()),
                                 conn.disk.folders[conn.ItemsPath()], stat, store, now);
          && index.indexes == UpdateFirst(AfterFind(old(index.indexes), conn.ItemsPath(), newId, now), conn.ItemsPath(),
                                          BuildMeta(env, names), now)
          && count == IndexedCount(env, names) && calls == StoreCalls(env, names)
      ensures Reindexed(old(index.indexes), index.indexes, conn.ItemsPath(), conn.disk.folders, stat, store, newId, now)
    {
      var dir := conn.ItemsPath();
      if dir !in conn.disk.folders {
        return 0, [];
      }
      var id, entry := index.FindOrCreateIndex(dir, newId, now);
      assert entry.files == ExistingOf(old(index.indexes), dir);
      var names := ListTxt(conn.disk.folders[dir]);
      var env := IndexEnv(dir, entry.files, conn.disk.folders[dir], stat, store, now);
      var files;
      files, count, calls := IndexFiles(env, names);
      index.UpdateIndexMetadata(dir, files, now);
    }

    /** The part of sync_connector that runs while the id is in the guard set. */
    method SyncGuarded(id: string, conn: Connector, session: Session, stat: string -> Option<FileStat>, store: StoreFn,
                       newId: string, now: string)
      returns (res: SyncResult)
      requires id in syncing
      modifies conn, conn.disk, index
      ensures SyncReturned(res, old(conn.credentials), old(conn.Loaded()).watermarks.GetOr(map[]), session,
                           conn.ItemsPath(), conn.ItemsPath() in old(conn.disk.folders))
      ensures res.newItems == 0 ==> index.indexes == old(index.indexes)
      ensures res.newItems > 0 ==>
        Reindexed(old(index.indexes), index.indexes, conn.ItemsPath(), conn.disk.folders, stat, store, newId, now)
    {
      res := Sync(conn, session, now);
      if res.newItems > 0 {
        var _, _ := IndexConnectorItems(conn, stat, store, newId, now);
      }
    }

    /**
     * sync_connector: refused while the same connector is syncing, or when
     * the registry cannot produce it; otherwise synced under the guard,
     * which is released afterwards.
     */
    method SyncConnector(id: string, session: Session, login: Login, stat: string -> Option<FileStat>, store: StoreFn,
                         newId: string, now: string)
      returns (r: SyncOutcome)
      requires registry.Valid()
      modifies this, registry, registry.disk, registry.instances.Values, index
      ensures registry.Valid() && syncing == old(syncing)
      ensures id in old(syncing) ==>
        && r == Refused("Sync already in progress for this connector")
        && registry.instances == old(registry.instances) && registry.entries == old(registry.entries)
        && registry.disk.folders == old(registry.disk.folders) && registry.disk.states == old(registry.disk.states)
        && index.indexes == old(index.indexes)
      ensures id !in old(syncing) ==>
        (r.Refused? <==> !(id in old(registry.instances) || Registered(old(registry.entries), old(registry.classes), id)))
      ensures id !in old(syncing) && r.Refused? ==>
        r == Refused("Connector not found") && registry.instances == old(registry.instances)
        && index.indexes == old(index.indexes)
      ensures r.Synced? ==> id in registry.instances
      ensures r.Synced? && id in old(registry.instances) ==>
        var c := old(registry.instances)[id];
        c == registry.instances[id]
        && SyncReturned(r.result, old(c.credentials), old(c.Loaded()).watermarks.GetOr(map[]), session,
                        c.ItemsPath(), c.ItemsPath() in old(c.disk.folders))
      ensures r.Synced? && r.result.newItems == 0 ==> index.indexes == old(index.indexes)
      ensures r.Synced? && r.result.newItems > 0 ==>
        Reindexed(old(index.indexes), index.indexes, registry.instances[id].ItemsPath(), registry.disk.folders,
                  stat, store, newId, now)
    {
      if id in syncing {
        return Refused("Sync already in progress for this connector");
      }
      var conn := registry.GetConnector(id, login);
      if conn.None? {
        return Refused("Connector not found");
      }
      var c := conn.value;
      ghost var creds, marks, had := c.credentials, c.Loaded().watermarks.GetOr(map[]), c.ItemsPath() in c.disk.folders;
      assert id in old(registry.instances) ==>
        && c == old(registry.instances)[id] && creds == old(c.credentials)
        && marks == old(c.Loaded()).watermarks.GetOr(map[]) && had == (c.ItemsPath() in old(c.disk.folders));
      syncing := syncing + {id};
      var res := SyncGuarded(id, c, session, stat, store, newId, now);
      assert SyncReturned(res, creds, marks, session, c.ItemsPath(), had);
      syncing := syncing - {id};
      r := Synced(res);
    }
  }
}
