/**
 * The HTTP handlers that hold logic of their own: the extension dispatch
 * of /parse, the retrieval pipeline of /search, and the index clean-up of
 * DELETE /connectors/{id}. Routing, request parsing and the error-to-status
 * mapping are not modelled; the collaborators the handlers call (format
 * parsers, vector search, result merging, deduplication, the reranker) are
 * function parameters.
 */
module ApiServer {
  import opened Wrappers
  import opened Text
  import opened Seqs
  import opened Config
  import opened QueryExpand
  import opened HybridSearch
  import opened IndexMetadata
  import opened BaseConnector
  import opened GmailConnector
  import opened ConnectorRegistry
  import opened SyncEngine
  import Bm25Search

  // ---------------------------------------------------------------------------
  // /parse
  // ---------------------------------------------------------------------------

  datatype ParserKind = Pdf | Docx | Csv | JsonDoc | Html | Yaml | Xlsx | Pptx

  /** PARSERS: the extension (with its dot, lower case) to the extractor. */
  const Parsers: map<string, ParserKind> := map[
    ".pdf" := Pdf, ".docx" := Docx, ".csv" := Csv, ".json" := JsonDoc,
    ".html" := Html, ".htm" := Html, ".xml" := Html,
    ".yaml" := Yaml, ".yml" := Yaml, ".xlsx" := Xlsx, ".pptx" := Pptx]

  /**
   * os.path.splitext(p)[1]: from the last "." of the last path component,
   * unless every character before it in that component is a "." too.
   */
  function Ext(p: string): (r: string)
    ensures r == "" || (r[0] == '.' && EndsWith(p, r) && '/' !in r && '.' !in r[1..])
  {
    var sep := RFindChar(p, '/');
    var dot := RFindChar(p, '.');
    if dot > sep && exists k | sep + 1 <= k < dot :: p[k] != '.' then p[dot..] else ""
  }

  /** The last occurrence of c is at i when c does not occur after i. */
  lemma RFindCharAt(s: string, c: char, i: nat)
    requires i < |s| && s[i] == c && c !in s[i + 1..]
    ensures RFindChar(s, c) == i
  {
    var r := RFindChar(s, c);
    assert forall j | i < j < |s| :: s[j] == s[i + 1..][j - i - 1];
    assert forall j | r < j < |s| :: s[j] == s[r + 1..][j - r - 1];
  }

  /** In dir/base.ext, with no dot or slash in ext and base not starting with a dot, the extension is ".ext". */
  lemma ExtOfName(dir: string, base: string, ext: string)
    requires base != [] && base[0] != '.' && '/' !in base
    requires '/' !in ext && '.' !in ext
    ensures Ext(dir + "/" + base + "." + ext) == "." + ext
  {
    var p := dir + "/" + base + "." + ext;
    var d := |dir| + 1 + |base|;
    var dotExt := "." + ext;
    assert p == (dir + "/" + base) + dotExt;
    assert p[d..] == dotExt;
    assert p[d + 1..] == dotExt[1..] == ext;
    assert p == (dir + "/") + (base + dotExt);
    assert p[|dir| + 1..] == base + dotExt;
    assert p[|dir|] == '/' && p[d] == '.' && p[|dir| + 1] == base[0];
    RFindCharAt(p, '.', d);
    RFindCharAt(p, '/', |dir|);
  }

  /** A base name that starts with a dot and has no other, like ".bashrc", has no extension. */
  lemma HiddenFileHasNoExtension(dir: string, name: string)
    requires '/' !in name && '.' !in name
    ensures Ext(dir + "/." + name) == ""
  {
    var p := dir + "/." + name;
    assert p[|dir|] == '/' && p[|dir| + 1] == '.';
    assert p[|dir| + 2..] == name;
    assert p[|dir| + 1..] == "." + name;
    RFindCharAt(p, '.', |dir| + 1);
    RFindCharAt(p, '/', |dir|);
  }

  datatype ParseResponse = ParseResponse(success: bool, text: Option<string>, error: Option<string>)

  /** The extractor's outcome: the text it returned, or the message of the exception it raised. */
  type RunParser = (ParserKind, string) -> Result<string>

  /** parse_file */
  function ParseFile(path: string, run: RunParser): ParseResponse
  {
    var ext := Lower(Ext(path));
    if ext !in Parsers then ParseResponse(false, None, Some("Unsupported file type: " + ext))
    else
      match run(Parsers[ext], path)
      case Err(e) => ParseResponse(false, None, Some(e))
      case Ok(text) =>
        if text != "" && StartsWith(text, "Error") then ParseResponse(false, None, Some(text))
        else ParseResponse(true, Some(text), None)
  }

  /** An extension not in the table (after lower-casing) is refused with its name. */
  lemma UnsupportedExtension(path: string, run: RunParser)
    requires Lower(Ext(path)) !in Parsers
    ensures ParseFile(path, run) == ParseResponse(false, None, Some("Unsupported file type: " + Lower(Ext(path))))
  {
  }

  /** A registered extension reaches its extractor; text starting "Error" and exceptions are failures carrying that text. */
  lemma ParseOutcome(path: string, run: RunParser)
    requires Lower(Ext(path)) in Parsers
    ensures
      var res := run(Parsers[Lower(Ext(path))], path);
      && (res.Err? ==> ParseFile(path, run) == ParseResponse(false, None, Some(res.message)))
      && (res.Ok? && StartsWith(res.value, "Error") ==> ParseFile(path, run) == ParseResponse(false, None, Some(res.value)))
      && (res.Ok? && !StartsWith(res.value, "Error") ==> ParseFile(path, run) == ParseResponse(true, Some(res.value), None))
  {
  }

  /** success is True exactly when the extractor returned text that does not start with "Error"; then error is absent. */
  lemma ParseSuccessIff(path: string, run: RunParser)
    ensures ParseFile(path, run).success <==>
      Lower(Ext(path)) in Parsers && run(Parsers[Lower(Ext(path))], path).Ok?
      && !StartsWith(run(Parsers[Lower(Ext(path))], path).value, "Error")
    ensures ParseFile(path, run).success <==> ParseFile(path, run).error.None?
    ensures ParseFile(path, run).success <==> ParseFile(path, run).text.Some?
  {
  }

  /** The extension is looked up lower-cased: "report.PDF" is dispatched like "report.pdf". */
  lemma ExtensionCaseFolded(dir: string, base: string, ext: string)
    requires base != [] && base[0] != '.' && '/' !in base
    requires '/' !in ext && '.' !in ext
    ensures Lower(Ext(dir + "/" + base + "." + ext)) == "." + Lower(ext)
    ensures Lower(Ext(dir + "/" + base + "." + ext)) == Lower(Ext(dir + "/" + base + "." + Lower(ext)))
  {
    ExtOfName(dir, base, ext);
    LowerKeepsSeparators(ext);
    ExtOfName(dir, base, Lower(ext));
    LowerDot(ext);
    LowerDot(Lower(ext));
    LowerIdempotent(ext);
  }

  lemma LowerKeepsSeparators(s: string)
    requires '/' !in s && '.' !in s
    ensures '/' !in Lower(s) && '.' !in Lower(s)
  {
    forall i | 0 <= i < |s| ensures Lower(s)[i] != '/' && Lower(s)[i] != '.' {
      assert s[i] in s;
    }
  }

  lemma LowerDot(s: string)
    ensures Lower("." + s) == "." + Lower(s)
  {
    assert forall i | 0 < i < |s| + 1 :: ("." + s)[i] == s[i - 1];
  }

  lemma LowerIdempotent(s: string)
    ensures Lower(Lower(s)) == Lower(s)
  {
  }

  // ---------------------------------------------------------------------------
  // /search
  // ---------------------------------------------------------------------------

  /** The RRF constant hybrid_merge is called with. */
  const RrfK: nat := 60

  datatype SearchMeta = SearchMeta(usedLlm: bool, expandedQueries: Json, hints: Json)

  datatype SearchResponse = SearchResponse(results: seq<Hit>, meta: SearchMeta)

  /** The collaborators of /search. */
  datatype SearchDeps = SearchDeps(
    ask: (string, string) -> Option<Json>,        // the LLM round trip of expand_query
    parse: JsonParser,                             // json.loads
    searchDocs: (Json, int) -> seq<Hit>,           // search_documents(q, n), q as the iteration yields it
    keyOrder: map<string, Json> -> seq<string>,    // the insertion order of a JSON object's keys
    mergeVec: seq<Hit> -> seq<Hit>,                // merge_vector_results
    table: seq<Hit>,                               // _load_all_chunks: the chunk table, [] when loading fails
    weight: Bm25Search.Weight,                     // the BM25 term weight (floating point)
    dedup: (seq<Hit>, int) -> seq<Hit>,            // deduplicate_results
    rerank: (string, seq<Hit>, int) -> Option<seq<Hit>>)  // rerank; None when it raises

  /** `options.get(key, is_feature_enabled(feature))` over `req.options or {}`. */
  function UseFeature(options: Option<map<string, bool>>, key: string, cfg: Settings, feature: string): bool
  {
    Get(options.GetOr(map[]), key, IsFeatureEnabled(cfg, feature))
  }

  /** An explicit option wins over the configured flag; without it the flag decides. */
  lemma OptionsOverride(options: Option<map<string, bool>>, key: string, cfg: Settings, feature: string)
    ensures options.Some? && key in options.value ==> UseFeature(options, key, cfg, feature) == options.value[key]
    ensures (options.None? || key !in options.value) ==>
      (UseFeature(options, key, cfg, feature) <==> feature in FeatureFlags(cfg) && FeatureFlags(cfg)[feature])
  {
  }

  /**
   * `for q in expanded_queries`: the items of a list, the one-character
   * strings of a string, the keys of an object in their insertion order;
   * None for a value that is not iterable (the request then fails with
   * the TypeError).
   */
  function Iterate(j: Json, keyOrder: map<string, Json> -> seq<string>): (r: Option<seq<Json>>)
    ensures r.None? <==> j.JNull? || j.JBool? || j.JNum?
    ensures j.JArr? ==> r == Some(j.items)
    ensures j.JStr? ==> r.Some? && |r.value| == |j.s| && forall i :: 0 <= i < |j.s| ==> r.value[i] == JStr([j.s[i]])
    ensures j.JObj? ==>
      r.Some? && |r.value| == |keyOrder(j.fields)| && forall i :: 0 <= i < |r.value| ==> r.value[i] == JStr(keyOrder(j.fields)[i])
  {
    match j
    case JArr(items) => Some(items)
    case JStr(s) => Some(seq(|s|, i requires 0 <= i < |s| => JStr([s[i]])))
    case JObj(fields) =>
      var keys := keyOrder(fields);
      Some(seq(|keys|, i requires 0 <= i < |keys| => JStr(keys[i])))
    case _ => None
  }

  /** The metadata and the queries step 1 leaves. */
  function ExpansionStep(query: string, useExpansion: bool, deps: SearchDeps): (SearchMeta, Json)
  {
    if useExpansion then
      var e := Expand(query, None, deps.ask, deps.parse);
      (SearchMeta(e.usedLlm, e.queries, e.hints), e.queries)
    else (SearchMeta(false, JArr([JStr(query)]), JObj(map[])), JArr([JStr(query)]))
  }

  /** candidates_per_query */
  function Candidates(limit: int): (n: int)
    ensures n >= 50 && n >= limit * 5 && (n == 50 || n == limit * 5)
  {
    if 50 < limit * 5 then limit * 5 else 50
  }

  /** all_vector_results: the results of each query, in query order. */
  function AllVector(queries: seq<Json>, n: int, searchDocs: (Json, int) -> seq<Hit>): seq<Hit>
  {
    if queries == [] then []
    else AllVector(queries[..|queries| - 1], n, searchDocs) + searchDocs(queries[|queries| - 1], n)
  }

  /** The texts bm25_search reads from the chunk table. */
  function Texts(chunks: seq<Hit>): (r: seq<string>)
    ensures |r| == |chunks| && forall i :: 0 <= i < |chunks| ==> r[i] == chunks[i].text
  {
    seq(|chunks|, i requires 0 <= i < |chunks| => chunks[i].text)
  }

  /** Step 3: hybrid_merge(query, merged, top_n=limit * 3) when hybrid is on and there is something to merge. */
  function HybridStep(query: string, merged: seq<Hit>, useHybrid: bool, limit: int, deps: SearchDeps): seq<Hit>
  {
    if useHybrid && merged != [] then
      var bm := Bm25Search.Bm25Results(query, Texts(deps.table), 50, deps.weight);
      Bm25Search.Bm25ResultsProperties(query, Texts(deps.table), 50, deps.weight);
      HybridResults(merged, deps.table, bm, limit * 3, RrfK)
    else merged
  }

  /** Step 5: the reranker's top `limit`, or the first `limit` when it is off, has nothing to rank, or raises. */
  function RerankStep(query: string, deduplicated: seq<Hit>, useReranker: bool, limit: int, deps: SearchDeps): seq<Hit>
  {
    if useReranker && deduplicated != [] then
      match deps.rerank(query, deduplicated, limit)
      case Some(r) => r
      case None => Prefix(deduplicated, limit)
    else Prefix(deduplicated, limit)
  }

  /** search: None when the expanded queries cannot be iterated (the TypeError fails the request). */
  function SearchSpec(query: string, limit: int, options: Option<map<string, bool>>, cfg: Settings, deps: SearchDeps)
    : Option<SearchResponse>
  {
    var (meta, qs) := ExpansionStep(query, UseFeature(options, "expansion", cfg, "query_expansion"), deps);
    match Iterate(qs, deps.keyOrder)
    case None => None
    case Some(queries) =>
      var merged := deps.mergeVec(AllVector(queries, Candidates(limit), deps.searchDocs));
      var hybrid := HybridStep(query, merged, UseFeature(options, "hybrid", cfg, "hybrid_search"), limit, deps);
      var deduplicated := deps.dedup(hybrid, limit * 2);
      Some(SearchResponse(RerankStep(query, deduplicated, UseFeature(options, "reranker", cfg, "reranker"), limit, deps), meta))
  }

  /** Step 2: search_documents(q, n) for each query in order, the results concatenated; the calls are returned. */
  method SearchEach(queries: seq<Json>, n: int, searchDocs: (Json, int) -> seq<Hit>)
    returns (all: seq<Hit>, searches: seq<(Json, int)>)
    ensures all == AllVector(queries, n, searchDocs)
    ensures |searches| == |queries| && forall i :: 0 <= i < |queries| ==> searches[i] == (queries[i], n)
  {
    all := [];
    searches := [];
    for i := 0 to |queries|
      invariant all == AllVector(queries[..i], n, searchDocs)
      invariant |searches| == i && forall j :: 0 <= j < i ==> searches[j] == (queries[j], n)
    {
      assert queries[..i + 1][..i] == queries[..i];
      all := all + searchDocs(queries[i], n);
      searches := searches + [(queries[i], n)];
    }
    assert queries[..|queries|] == queries;
  }

  /** The handler: expansion, one vector search per query (the calls are returned in order), merge, hybrid, dedup, rerank. */
  method Search(query: string, limit: int, options: Option<map<string, bool>>, cfg: Settings, deps: SearchDeps)
    returns (r: Option<SearchResponse>, searches: seq<(Json, int)>)
    ensures r == SearchSpec(query, limit, options, cfg, deps)
    ensures
      var qs := ExpansionStep(query, UseFeature(options, "expansion", cfg, "query_expansion"), deps).1;
      var queries := Iterate(qs, deps.keyOrder);
      && (queries.None? ==> searches == [])
      && (queries.Some? ==>
            |searches| == |queries.value|
            && forall i :: 0 <= i < |searches| ==> searches[i] == (queries.value[i], Candidates(limit)))
  {
    var useExpansion := UseFeature(options, "expansion", cfg, "query_expansion");
    var useHybrid := UseFeature(options, "hybrid", cfg, "hybrid_search");
    var useReranker := UseFeature(options, "reranker", cfg, "reranker");
    var meta := SearchMeta(false, JArr([JStr(query)]), JObj(map[]));
    var expanded := JArr([JStr(query)]);
    if useExpansion {
      var expansion := ExpandQuery(query, None, deps.ask, deps.parse);
      expanded := expansion.queries;
      meta := SearchMeta(expansion.usedLlm, expanded, expansion.hints);
    }
    var queries := Iterate(expanded, deps.keyOrder);
    if queries.None? {
      return None, [];
    }
    var all;
    all, searches := SearchEach(queries.value, Candidates(limit), deps.searchDocs);
    var merged := deps.mergeVec(all);
    merged := HybridStep(query, merged, useHybrid, limit, deps);
    var deduplicated := deps.dedup(merged, limit * 2);
    deduplicated := RerankStep(query, deduplicated, useReranker, limit, deps);
    r := Some(SearchResponse(deduplicated, meta));
  }

  /** With expansion off, the query is searched alone and meta says the LLM was not used, with no hints. */
  lemma ExpansionOff(query: string, limit: int, options: Option<map<string, bool>>, cfg: Settings, deps: SearchDeps)
    requires !UseFeature(options, "expansion", cfg, "query_expansion")
    ensures SearchSpec(query, limit, options, cfg, deps).Some?
    ensures SearchSpec(query, limit, options, cfg, deps).value.meta == SearchMeta(false, JArr([JStr(query)]), JObj(map[]))
    ensures Iterate(ExpansionStep(query, false, deps).1, deps.keyOrder) == Some([JStr(query)])
  {
  }

  /** Hybrid off, or no vector results: the merged list goes to deduplication as it is. */
  lemma HybridOffKeepsMerged(query: string, merged: seq<Hit>, useHybrid: bool, limit: int, deps: SearchDeps)
    requires !useHybrid || merged == []
    ensures HybridStep(query, merged, useHybrid, limit, deps) == merged
  {
  }

  /** An empty (or unloadable) chunk table: the first limit * 3 vector results, each with RRF score 0.0. */
  lemma HybridWithoutChunks(query: string, merged: seq<Hit>, limit: int, deps: SearchDeps)
    requires merged != [] && deps.table == []
    ensures var r := HybridStep(query, merged, true, limit, deps);
      |r| == |Prefix(merged, limit * 3)| && forall i :: 0 <= i < |r| ==> r[i] == merged[i].(rrfScore := Some(0.0))
  {
    assert Bm25Search.Bm25Results(query, Texts([]), 50, deps.weight) == [];
    NoChunks(merged, limit * 3, RrfK);
  }

  /** Reranker off, with nothing to rank, or raising: the deduplicated list cut to `limit`. */
  lemma RerankFallbackTruncates(query: string, deduplicated: seq<Hit>, useReranker: bool, limit: int, deps: SearchDeps)
    requires !useReranker || deduplicated == [] || deps.rerank(query, deduplicated, limit).None?
    ensures RerankStep(query, deduplicated, useReranker, limit, deps) == Prefix(deduplicated, limit)
    ensures limit >= 0 ==> |RerankStep(query, deduplicated, useReranker, limit, deps)| <= limit
  {
  }

  /** When the reranker keeps to its top_n, a non-negative limit bounds the results. */
  lemma ResultsBounded(query: string, limit: int, options: Option<map<string, bool>>, cfg: Settings, deps: SearchDeps)
    requires limit >= 0
    requires forall q, xs, n, ys :: deps.rerank(q, xs, n) == Some(ys) ==> |ys| <= n
    requires SearchSpec(query, limit, options, cfg, deps).Some?
    ensures |SearchSpec(query, limit, options, cfg, deps).value.results| <= limit
  {
  }

  // ---------------------------------------------------------------------------
  // DELETE /connectors/{id}
  // ---------------------------------------------------------------------------

  /** `[idx for idx in indexes if idx["path"] != folder]` */
  function DropFolder(indexes: seq<IndexEntry>, folder: string): (r: seq<IndexEntry>)
    ensures forall i :: 0 <= i < |r| ==> r[i].path != folder && r[i] in indexes
    ensures forall i :: 0 <= i < |indexes| && indexes[i].path != folder ==> indexes[i] in r
  {
    Filter(indexes, (e: IndexEntry) => e.path != folder)
  }

  /** Dropping a folder's indexes keeps the others in their order. */
  lemma DropFolderKeepsOrder(a: seq<IndexEntry>, b: seq<IndexEntry>, folder: string)
    ensures DropFolder(a + b, folder) == DropFolder(a, folder) + DropFolder(b, folder)
    ensures |DropFolder(a, folder)| <= |a|
  {
    FilterConcat(a, b, (e: IndexEntry) => e.path != folder);
  }

  /** The paths handed to delete_document: each .txt name of the items folder, joined to it; none when it does not exist. */
  method DeletedPaths(folders: map<string, map<string, string>>, folder: string) returns (deleted: seq<string>)
    ensures folder !in folders ==> deleted == []
    ensures |deleted| == CountTxt(folders, folder)
    ensures folder in folders ==>
      exists names :: Listing(names, folders[folder])
        && |deleted| == |names| && forall i :: 0 <= i < |names| ==> deleted[i] == PathJoin(folder, names[i])
  {
    deleted := [];
    if folder !in folders {
      return;
    }
    var names := ListTxt(folders[folder]);
    assert |names| == CountTxt(folders, folder);
    for i := 0 to |names|
      invariant |deleted| == i && forall j :: 0 <= j < i ==> deleted[j] == PathJoin(folder, names[j])
    {
      deleted := deleted + [PathJoin(folder, names[i])];
    }
  }

  /** The metadata half: load, drop the folder's indexes, save. */
  method DropFolderIndexes(index: IndexStore, folder: string)
    modifies index
    ensures index.indexes == DropFolder(old(index.indexes), folder)
  {
    index.indexes := DropFolder(index.indexes, folder);
  }

  /**
   * The lookup half of remove_connector: get_connector, and the paths of
   * the items folder's .txt files. A connector instantiated here gets its
   * items folder made, which is then empty.
   */
  method ItemsToDelete(registry: Registry, id: string, login: Login) returns (folder: Option<string>, deleted: seq<string>)
    requires registry.Valid()
    modifies registry, registry.disk
    ensures registry.Valid()
    ensures registry.types == old(registry.types) && registry.classes == old(registry.classes)
    ensures registry.entries == old(registry.entries)
    ensures registry.instances - {id} == old(registry.instances) - {id}
    ensures var t := HeldType(old(registry.instances), old(registry.entries), old(registry.classes), id);
      && HeldType(registry.instances, registry.entries, registry.classes, id) == t
      && folder == (if t.Some? then Some(ItemsFolder(t.value, id)) else None)
    ensures registry.disk.states == old(registry.disk.states)
    ensures folder.None? ==> registry.disk.folders == old(registry.disk.folders) && deleted == []
    ensures folder.Some? ==>
      registry.disk.folders == old(registry.disk.folders) || registry.disk.folders == WithDir(old(registry.disk.folders), folder.value)
    ensures folder.Some? && folder.value !in old(registry.disk.folders) ==> deleted == []
    ensures folder.Some? && folder.value in old(registry.disk.folders) ==>
      exists names :: Listing(names, old(registry.disk.folders)[folder.value])
        && |deleted| == |names| && forall i :: 0 <= i < |names| ==> deleted[i] == PathJoin(folder.value, names[i])
  {
    ghost var live := id in registry.instances;
    ghost var t := HeldType(registry.instances, registry.entries, registry.classes, id);
    var conn := registry.GetConnector(id, login);
    folder := None;
    deleted := [];
    if conn.Some? {
      var c := conn.value;
      folder := Some(c.ItemsPath());
      var made := registry.disk.folders;
      if live {
        assert t == Some(c.connectorType) && made == old(registry.disk.folders);
      } else {
        assert t == Some(c.connectorType) && made == WithDir(old(registry.disk.folders), folder.value);
        assert folder.value !in old(registry.disk.folders) ==> CountTxt(made, folder.value) == 0 by {
          if folder.value !in old(registry.disk.folders) {
            assert (set f | f in made[folder.value] && EndsWith(f, ".txt")) == {};
          }
        }
      }
      deleted := DeletedPaths(made, folder.value);
    }
  }

  /**
   * remove_connector: the connector is looked up (and instantiated if it is
   * configured but not live), the documents of its .txt items are deleted
   * from the vector store, the connector is removed, and every index whose
   * path is its items folder is dropped. `folder` is that items folder,
   * None when the connector could not be had.
   */
  method RemoveConnectorEndpoint(registry: Registry, index: IndexStore, id: string, login: Login)
    returns (folder: Option<string>, deleted: seq<string>)
    requires registry.Valid()
    modifies registry, registry.disk, index
    ensures registry.Valid()
    ensures registry.entries == ConnectorRegistry.WithoutId(old(registry.entries), id)
    ensures registry.instances == old(registry.instances) - {id}
    ensures id in old(registry.instances) ==> folder == Some(old(registry.instances)[id].ItemsPath())
    ensures id !in old(registry.instances) ==> (folder.Some? <==> Registered(old(registry.entries), old(registry.classes), id))
    ensures var t := HeldType(old(registry.instances), old(registry.entries), old(registry.classes), id);
      && folder == (if t.Some? then Some(ItemsFolder(t.value, id)) else None)
      && (t.Some? ==>
            registry.disk.folders == FoldersOutside(old(registry.disk.folders), BaseDir(t.value, id))
            && registry.disk.states == StatesOutside(old(registry.disk.states), BaseDir(t.value, id)))
      && (t.None? ==> registry.disk.folders == old(registry.disk.folders) && registry.disk.states == old(registry.disk.states))
    ensures folder.None? ==> index.indexes == old(index.indexes) && deleted == []
    ensures folder.Some? ==> index.indexes == DropFolder(old(index.indexes), folder.value)
    ensures folder.Some? && folder.value !in old(registry.disk.folders) ==> deleted == []
    ensures folder.Some? && folder.value in old(registry.disk.folders) ==>
      exists names :: Listing(names, old(registry.disk.folders)[folder.value])
        && |deleted| == |names| && forall i :: 0 <= i < |names| ==> deleted[i] == PathJoin(folder.value, names[i])
  {
    ghost var t := HeldType(registry.instances, registry.entries, registry.classes, id);
    folder, deleted := ItemsToDelete(registry, id, login);
    ghost var mid := registry.disk.folders;
    var _ := registry.RemoveConnector(id, login);
    if t.Some? {
      PathsInsideBase(t.value, id);
      OutsideAfterMake(old(registry.disk.folders), BaseDir(t.value, id), ItemsFolder(t.value, id));
    }
    if folder.Some? {
      DropFolderIndexes(index, folder.value);
    }
  }
}
