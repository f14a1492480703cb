/**
 * The engine configuration: the defaults, the model table, the feature
 * flags and the version-gated reindex flag. The JSON file on disk is a
 * field holding what the last save wrote (or a file that no longer parses).
 */
module Config {
  import opened Wrappers
  import opened Seqs

  /** The keys of engine_config.json that the backend reads or writes. */
  datatype Settings = Settings(
    embeddingModel: Option<string>,
    engineVersion: Option<int>,
    features: Option<map<string, bool>>,
    lastIndexedVersion: Option<int>)

  datatype ModelInfo = ModelInfo(tableName: string, dimensions: nat)

  /** What the config path holds: nothing, a document that parses, or one that does not. */
  datatype ConfigFile = Missing | Stored(settings: Settings) | Unreadable

  const DefaultModel: string := "all-MiniLM-L6-v2"
  const DefaultEngineVersion: int := 2

  const Models: map<string, ModelInfo> := map[
    "all-MiniLM-L6-v2" := ModelInfo("documents_v2", 384),
    "all-mpnet-base-v2" := ModelInfo("documents_mpnet", 768)]

  const DefaultFeatures: map<string, bool> := map[
    "chunking" := true, "reranker" := true, "query_expansion" := true, "hybrid_search" := true]

  function Defaults(): (d: Settings)
    ensures d.embeddingModel == Some(DefaultModel) && d.engineVersion == Some(DefaultEngineVersion)
    ensures d.features == Some(DefaultFeatures) && d.lastIndexedVersion.None?
  {
    Settings(Some(DefaultModel), Some(DefaultEngineVersion), Some(DefaultFeatures), None)
  }

  /** _load_config: the stored document, or a copy of the defaults when it is missing or unreadable. */
  function Load(f: ConfigFile): (c: Settings)
    ensures !f.Stored? ==> c == Defaults()
    ensures f.Stored? ==> c == f.settings
  {
    match f
    case Stored(s) => s
    case _ => Defaults()
  }

  function EmbeddingModel(c: Settings): string
  {
    c.embeddingModel.GetOr(DefaultModel)
  }

  /** The table and dimensions of the configured model; an unknown model uses all-MiniLM-L6-v2's. */
  function ModelOf(c: Settings): (m: ModelInfo)
    ensures EmbeddingModel(c) in Models ==> m == Models[EmbeddingModel(c)]
    ensures EmbeddingModel(c) !in Models ==> m == ModelInfo("documents_v2", 384)
  {
    Get(Models, EmbeddingModel(c), Models[DefaultModel])
  }

  function TableName(c: Settings): string
  {
    ModelOf(c).tableName
  }

  function Dimensions(c: Settings): nat
  {
    ModelOf(c).dimensions
  }

  function EngineVersion(c: Settings): int
  {
    c.engineVersion.GetOr(DefaultEngineVersion)
  }

  function FeatureFlags(c: Settings): map<string, bool>
  {
    c.features.GetOr(DefaultFeatures)
  }

  /** is_feature_enabled: the flag's value, False for a flag that is not listed. */
  function IsFeatureEnabled(c: Settings, name: string): (r: bool)
    ensures r <==> name in FeatureFlags(c) && FeatureFlags(c)[name]
  {
    Get(FeatureFlags(c), name, false)
  }

  /** needs_reindex compares the stored version (default 0) with the default engine version. */
  function NeedsReindex(c: Settings): (r: bool)
    ensures r <==> c.lastIndexedVersion.GetOr(0) < 2
  {
    c.lastIndexedVersion.GetOr(0) < DefaultEngineVersion
  }

  /** A config that does not name a model, or names one not in the table, gets the default table and dimensions. */
  lemma UnknownModelFallsBack(c: Settings)
    requires EmbeddingModel(c) !in Models
    ensures TableName(c) == TableName(Defaults()) == "documents_v2"
    ensures Dimensions(c) == Dimensions(Defaults()) == 384
  {
  }

  /** A flag absent from the stored flags is off; without stored flags the four default flags are on. */
  lemma FeatureDefaults(c: Settings, name: string)
    ensures c.features.Some? && name !in c.features.value ==> !IsFeatureEnabled(c, name)
    ensures c.features.None? ==> (IsFeatureEnabled(c, name) <==> name in {"chunking", "reranker", "query_expansion", "hybrid_search"})
  {
  }

  /** The stored engine_version plays no part in the reindex decision. */
  lemma NeedsReindexIgnoresEngineVersion(c: Settings, v: Option<int>)
    ensures NeedsReindex(c.(engineVersion := v)) == NeedsReindex(c)
  {
  }

  /** A fresh install (no stored last_indexed_version) needs a reindex. */
  lemma DefaultsNeedReindex()
    ensures NeedsReindex(Defaults()) && NeedsReindex(Load(Missing)) && NeedsReindex(Load(Unreadable))
  {
  }

  class ConfigStore {
    var file: ConfigFile

    constructor(f: ConfigFile)
      ensures file == f
    {
      file := f;
    }

    function Current(): Settings
      reads this
    {
      Load(file)
    }

    /** _save_config; the JSON document holds exactly what was written. */
    method Save(c: Settings)
      modifies this
      ensures file == Stored(c) && Current() == c
    {
      file := Stored(c);
    }

    /** mark_reindex_complete: write the loaded config back with last_indexed_version set to 2. */
    method MarkReindexComplete()
      modifies this
      ensures file == Stored(old(Current()).(lastIndexedVersion := Some(DefaultEngineVersion)))
      ensures !NeedsReindex(Current())
      ensures Current().embeddingModel == old(Current()).embeddingModel
      ensures Current().engineVersion == old(Current()).engineVersion
      ensures Current().features == old(Current()).features
    {
      var c := Current();
      c := c.(lastIndexedVersion := Some(DefaultEngineVersion));
      Save(c);
    }

    /** init_config: write the defaults only when there is no file, then load. */
    method InitConfig() returns (c: Settings)
      modifies this
      ensures old(file).Missing? ==> file == Stored(Defaults())
      ensures !old(file).Missing? ==> file == old(file)
      ensures c == Current()
    {
      if file.Missing? {
        Save(Defaults());
      }
      c := Current();
    }
  }
}
