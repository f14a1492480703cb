/**
 * The per-folder index records (index_metadata.json) and the change detection that
 * decides which files of a folder must be (re)indexed.  The JSON file is the field
 * `indexes` of an IndexStore; os.stat is a function parameter.
 */
module IndexMetadata {
  import opened Wrappers
  import opened Text
  import opened Seqs

  /** The two os.stat fields the hash uses: st_size and st_mtime (a float, here a real). */
  datatype FileStat = FileStat(size: nat, mtime: real)

  /** Python's int() on a float: truncation toward zero. */
  function Trunc(x: real): (r: int)
    ensures x >= 0.0 ==> r as real <= x < r as real + 1.0
    ensures x < 0.0 ==> r as real - 1.0 < x <= r as real
  {
    if x >= 0.0 then x.Floor else -((-x).Floor)
  }

  /** get_file_hash: "{size}_{int(mtime)}", or None when os.stat fails. */
  function FileHash(st: Option<FileStat>): (h: Option<string>)
    ensures h.None? <==> st.None?
    ensures h.Some? ==> h.value == NatToString(st.value.size) + "_" + IntToString(Trunc(st.value.mtime))
  {
    match st
    case None => None
    case Some(f) => Some(NatToString(f.size) + "_" + IntToString(Trunc(f.mtime)))
  }

  /** Two stats give the same hash exactly when their sizes and whole-second mtimes agree. */
  lemma FileHashExact(a: FileStat, b: FileStat)
    ensures FileHash(Some(a)) == FileHash(Some(b)) <==> a.size == b.size && Trunc(a.mtime) == Trunc(b.mtime)
  {
    if FileHash(Some(a)) == FileHash(Some(b)) {
      var sa, sb := NatToString(a.size), NatToString(b.size);
      DigitsThenUnderscore(sa, IntToString(Trunc(a.mtime)), sb, IntToString(Trunc(b.mtime)));
      NatToStringInjective(a.size, b.size);
      IntToStringInjective(Trunc(a.mtime), Trunc(b.mtime));
    }
  }

  lemma DigitsThenUnderscore(x: string, y: string, u: string, v: string)
    requires forall i :: 0 <= i < |x| ==> IsDigit(x[i])
    requires forall i :: 0 <= i < |u| ==> IsDigit(u[i])
    requires x + "_" + y == u + "_" + v
    ensures x == u && y == v
  {
    UnderscoreAfterDigits(x, y, u, v);
    UnderscoreAfterDigits(u, v, x, y);
    var w := x + "_" + y;
    assert x == w[..|x|] == u;
    assert y == w[|x| + 1..] == v;
  }

  lemma UnderscoreAfterDigits(x: string, y: string, u: string, v: string)
    requires forall i :: 0 <= i < |u| ==> IsDigit(u[i])
    ensures |x| < |u| ==> x + "_" + y != u + "_" + v
  {
    if |x| < |u| {
      assert (x + "_" + y)[|x|] == '_';
      assert (u + "_" + v)[|x|] == u[|x|];
    }
  }

  /** One element of the file list the caller sends: its "path" and the other fields, kept opaque. */
  datatype FileInfo = FileInfo(path: string, fields: map<string, string>)

  /** A stored per-file record; every key is optional because callers may send any dict. */
  datatype FileRecord = FileRecord(hash: Option<string>, chunks: Option<nat>, indexedAt: Option<string>)

  datatype IndexEntry = IndexEntry(id: string, path: string, indexedAt: string, fileCount: nat,
                                   files: map<string, FileRecord>)

  /** The position of the first index whose path is `path`: the loops that `break` at a match. */
  function FirstWithPath(s: seq<IndexEntry>, path: string): (r: Option<nat>)
    ensures r.Some? ==> r.value < |s| && s[r.value].path == path
    ensures r.Some? ==> forall j :: 0 <= j < r.value ==> s[j].path != path
    ensures r.None? ==> forall j :: 0 <= j < |s| ==> s[j].path != path
  {
    if s == [] then None
    else if s[0].path == path then Some(0)
    else
      match FirstWithPath(s[1..], path)
      case None => None
      case Some(i) => Some(i + 1)
  }

  /** update_index_metadata's effect on the list: the first matching index gets the new files. */
  function UpdateFirst(s: seq<IndexEntry>, path: string, files: map<string, FileRecord>, now: string)
    : (r: seq<IndexEntry>)
    ensures |r| == |s|
    ensures FirstWithPath(s, path).None? ==> r == s
    ensures FirstWithPath(s, path).Some? ==>
      var i := FirstWithPath(s, path).value;
      && r[i] == s[i].(indexedAt := now, fileCount := |files|, files := files)
      && forall j :: 0 <= j < |s| && j != i ==> r[j] == s[j]
  {
    if s == [] then []
    else if s[0].path == path then [s[0].(indexedAt := now, fileCount := |files|, files := files)] + s[1..]
    else [s[0]] + UpdateFirst(s[1..], path, files, now)
  }

  /** delete_index's comprehension: every index whose id differs, in order. */
  function WithoutId(s: seq<IndexEntry>, id: string): (r: seq<IndexEntry>)
    ensures forall j :: 0 <= j < |r| ==> r[j].id != id && r[j] in s
    ensures forall j :: 0 <= j < |s| && s[j].id != id ==> s[j] in r
  {
    Filter(s, (e: IndexEntry) => e.id != id)
  }

  /** Deleting keeps the order of the remaining indexes, and deleting twice is deleting once. */
  lemma WithoutIdKeepsOrder(a: seq<IndexEntry>, b: seq<IndexEntry>, id: string)
    ensures WithoutId(a + b, id) == WithoutId(a, id) + WithoutId(b, id)
    ensures WithoutId(WithoutId(a, id), id) == WithoutId(a, id)
  {
    FilterConcat(a, b, (e: IndexEntry) => e.id != id);
    WithoutIdIdempotent(a, id);
  }

  lemma {:induction false} WithoutIdIdempotent(a: seq<IndexEntry>, id: string)
    ensures WithoutId(WithoutId(a, id), id) == WithoutId(a, id)
  {
    if a != [] {
      var init := a[..|a| - 1];
      WithoutIdIdempotent(init, id);
      FilterConcat(WithoutId(init, id), if a[|a| - 1].id != id then [a[|a| - 1]] else [],
                   (e: IndexEntry) => e.id != id);
    }
  }

  /** The hash get_file_hash computes now for a listed file. */
  function CurrentHash(stat: string -> Option<FileStat>, f: FileInfo): Option<string>
  {
    FileHash(stat(f.path))
  }

  predicate IsNew(stored: map<string, FileRecord>, f: FileInfo)
  {
    f.path !in stored
  }

  predicate IsModified(stored: map<string, FileRecord>, stat: string -> Option<FileStat>, f: FileInfo)
  {
    f.path in stored && stored[f.path].hash != CurrentHash(stat, f)
  }

  predicate IsUnchanged(stored: map<string, FileRecord>, stat: string -> Option<FileStat>, f: FileInfo)
  {
    f.path in stored && stored[f.path].hash == CurrentHash(stat, f)
  }

  function NewFiles(all: seq<FileInfo>, stored: map<string, FileRecord>): seq<FileInfo>
  {
    Filter(all, (f: FileInfo) => IsNew(stored, f))
  }

  function ModifiedFiles(all: seq<FileInfo>, stored: map<string, FileRecord>, stat: string -> Option<FileStat>)
    : seq<FileInfo>
  {
    Filter(all, (f: FileInfo) => IsModified(stored, stat, f))
  }

  function UnchangedFiles(all: seq<FileInfo>, stored: map<string, FileRecord>, stat: string -> Option<FileStat>)
    : seq<FileInfo>
  {
    Filter(all, (f: FileInfo) => IsUnchanged(stored, stat, f))
  }

  function Paths(all: seq<FileInfo>): set<string>
  {
    set f | f in all :: f.path
  }

  /** Each listed file is needs-index or unchanged, exactly once: the two lists partition the input. */
  lemma {:induction false} ChangeDetectionPartition(all: seq<FileInfo>, stored: map<string, FileRecord>,
                                                    stat: string -> Option<FileStat>)
    ensures multiset(NewFiles(all, stored)) + multiset(ModifiedFiles(all, stored, stat))
            + multiset(UnchangedFiles(all, stored, stat)) == multiset(all)
  {
    if all != [] {
      var init, f := all[..|all| - 1], all[|all| - 1];
      ChangeDetectionPartition(init, stored, stat);
      assert all == init + [f];
      var n0, m0, u0 := NewFiles(init, stored), ModifiedFiles(init, stored, stat), UnchangedFiles(init, stored, stat);
      var n1, m1, u1 := NewFiles(all, stored), ModifiedFiles(all, stored, stat), UnchangedFiles(all, stored, stat);
      assert multiset(all) == multiset(init) + multiset{f};
      if IsNew(stored, f) {
        assert n1 == n0 + [f] && m1 == m0 && u1 == u0;
      } else if IsModified(stored, stat, f) {
        assert n1 == n0 && m1 == m0 + [f] && u1 == u0;
      } else {
        assert n1 == n0 && m1 == m0 && u1 == u0 + [f];
      }
    }
  }

  /** A file lands in the unchanged list exactly when its stored "hash" equals its current hash. */
  lemma UnchangedIff(all: seq<FileInfo>, stored: map<string, FileRecord>, stat: string -> Option<FileStat>,
                     f: FileInfo)
    requires f in all
    ensures f in UnchangedFiles(all, stored, stat) <==> f.path in stored && stored[f.path].hash == CurrentHash(stat, f)
    ensures f in NewFiles(all, stored) + ModifiedFiles(all, stored, stat) <==> !IsUnchanged(stored, stat, f)
  {
    var i :| 0 <= i < |all| && all[i] == f;
  }

  /** Re-checking a folder whose every file is stored with its current hash finds nothing to index. */
  lemma {:induction false} UnchangedFolderIsSkipped(all: seq<FileInfo>, stored: map<string, FileRecord>,
                                                    stat: string -> Option<FileStat>)
    requires forall f :: f in all ==> f.path in stored && stored[f.path].hash == CurrentHash(stat, f)
    ensures NewFiles(all, stored) == [] && ModifiedFiles(all, stored, stat) == []
    ensures UnchangedFiles(all, stored, stat) == all
  {
    if all != [] {
      var init, f := all[..|all| - 1], all[|all| - 1];
      assert forall g :: g in init ==> g in all;
      UnchangedFolderIsSkipped(init, stored, stat);
      assert all == init + [f];
      assert IsUnchanged(stored, stat, f);
      assert NewFiles(all, stored) == NewFiles(init, stored);
      assert ModifiedFiles(all, stored, stat) == ModifiedFiles(init, stored, stat);
      assert UnchangedFiles(all, stored, stat) == UnchangedFiles(init, stored, stat) + [f];
    }
  }

  /** The whole index_metadata.json file, held in memory. */
  class IndexStore {
    var indexes: seq<IndexEntry>

    /** load_metadata on a missing file: no indexes. */
    constructor ()
      ensures indexes == []
    {
      indexes := [];
    }

    /** find_or_create_index: the existing index for the folder, or a new empty one appended. */
    method FindOrCreateIndex(folder: string, newId: string, now: string) returns (id: string, entry: IndexEntry)
      modifies this
      ensures FirstWithPath(old(indexes), folder).Some? ==>
        && indexes == old(indexes)
        && entry == old(indexes)[FirstWithPath(old(indexes), folder).value]
        && id == entry.id
      ensures FirstWithPath(old(indexes), folder).None? ==>
        && entry == IndexEntry(newId, folder, now, 0, map[])
        && id == newId
        && indexes == old(indexes) + [entry]
    {
      var i := 0;
      while i < |indexes|
        invariant 0 <= i <= |indexes|
        invariant forall j :: 0 <= j < i ==> indexes[j].path != folder
      {
        if indexes[i].path == folder {
          return indexes[i].id, indexes[i];
        }
        i := i + 1;
      }
      entry := IndexEntry(newId, folder, now, 0, map[]);
      indexes := indexes + [entry];
      id := newId;
    }

    /** update_index_metadata: the first index for the folder gets the files and their count. */
    method UpdateIndexMetadata(folder: string, files: map<string, FileRecord>, now: string)
      modifies this
      ensures indexes == UpdateFirst(old(indexes), folder, files, now)
    {
      var i := 0;
      while i < |indexes|
        invariant 0 <= i <= |indexes|
        invariant forall j :: 0 <= j < i ==> indexes[j].path != folder
      {
        if indexes[i].path == folder {
          var updated := indexes[i].(indexedAt := now, fileCount := |files|, files := files);
          indexes := indexes[i := updated];
          break;
        }
        i := i + 1;
      }
    }

    /** delete_index: drop every index with the id; always reports success. */
    method DeleteIndex(id: string) returns (ok: bool)
      modifies this
      ensures indexes == WithoutId(old(indexes), id)
      ensures ok
    {
      indexes := WithoutId(indexes, id);
      ok := true;
    }

    /**
     * get_files_needing_index: new files then modified files (each in input order), the
     * unchanged files, and the stored paths that are no longer listed.
     */
    method GetFilesNeedingIndex(folder: string, all: seq<FileInfo>, stat: string -> Option<FileStat>)
      returns (needs: seq<FileInfo>, unchangedFiles: seq<FileInfo>, deleted: set<string>)
      ensures FirstWithPath(indexes, folder).None? ==> needs == all && unchangedFiles == [] && deleted == {}
      ensures FirstWithPath(indexes, folder).Some? ==>
        var stored := indexes[FirstWithPath(indexes, folder).value].files;
        && needs == NewFiles(all, stored) + ModifiedFiles(all, stored, stat)
        && unchangedFiles == UnchangedFiles(all, stored, stat)
        && deleted == set p | p in stored && p !in Paths(all)
    {
      var found: Option<IndexEntry> := None;
      var k := 0;
      while k < |indexes|
        invariant 0 <= k <= |indexes|
        invariant forall j :: 0 <= j < k ==> indexes[j].path != folder
      {
        if indexes[k].path == folder {
          found := Some(indexes[k]);
          break;
        }
        k := k + 1;
      }
      if found.None? {
        return all, [], {};
      }
      var stored := found.value.files;
      var newFiles, modifiedFiles: seq<FileInfo> := [], [];
      unchangedFiles := [];
      var i := 0;
      while i < |all|
        invariant 0 <= i <= |all|
        invariant newFiles == NewFiles(all[..i], stored)
        invariant modifiedFiles == ModifiedFiles(all[..i], stored, stat)
        invariant unchangedFiles == UnchangedFiles(all[..i], stored, stat)
      {
        var f := all[i];
        var currentHash := FileHash(stat(f.path));
        assert all[..i + 1][..i] == all[..i];
        if f.path !in stored {
          newFiles := newFiles + [f];
        } else if stored[f.path].hash != currentHash {
          modifiedFiles := modifiedFiles + [f];
        } else {
          unchangedFiles := unchangedFiles + [f];
        }
        i := i + 1;
      }
      assert all[..|all|] == all;
      var currentPaths := set f | f in all :: f.path;
      deleted := set p | p in stored && p !in currentPaths;
      needs := newFiles + modifiedFiles;
    }
  }
}
