/** The enrichment passes shared by legacy mode, library mode and synthesis, as functions on the OGX config. */
module Enrichment {
  import opened Wrappers
  import opened PyText
  import opened Yaml
  import opened VectorIo

  type Outcome = Result<Section, Fault>

  // ----- nested sections ---------------------------------------------------

  const EMPTY := Map(map[])

  /** `root[outer][inner]`, if `outer` is there and `inner` is in it. */
  function Sub(root: Section, outer: string, inner: string): Result<Option<Value>, Fault> {
    if outer !in root then Ok(None)
    else
      var has :- Has(root[outer], inner);
      if !has then Ok(None)
      else
        var v :- At(root[outer], inner);
        Ok(Some(v))
  }

  /** `root.setdefault(outer, {})[inner] = v` */
  function PutSub(root: Section, outer: string, inner: string, v: Value): Outcome {
    var m :- SetAt(GetOr(root, outer, EMPTY), inner, v);
    Ok(root[outer := m])
  }

  /** How a pass rewrites one nested section, given what is there. */
  type Rewrite = Option<Value> -> Result<Value, Fault>

  function Update(root: Section, outer: string, inner: string, rewrite: Rewrite): Outcome {
    var before :- Sub(root, outer, inner);
    var after :- rewrite(before);
    PutSub(root, outer, inner, after)
  }

  /** `.copy()`, which lists and mappings have. */
  function CopyOf(prev: Option<Value>, default: Value): Result<Value, Fault> {
    if prev.None? then Ok(default)
    else if prev.value.List? || prev.value.Map? then Ok(prev.value)
    else Err(Raised)
  }

  // ----- deduplication -----------------------------------------------------

  function Dedupe(h: Host, root: Section): Outcome {
    var raw :- Sub(root, "providers", "vector_io");
    if raw.None? || !raw.value.List? then Ok(root)
    else PutSub(root, "providers", "vector_io", List(DedupeList(h, raw.value.items)))
  }

  // ----- Azure Entra ID ----------------------------------------------------

  /** Azure entries get `config.model_validation: false`; everything else stays. */
  function AzureEntries(items: seq<Value>): Result<seq<Value>, Fault> {
    if items == [] then Ok([])
    else
      var kind :- Get(items[0], "provider_type", Null);
      var head :- if kind != Str("remote::azure") then Ok(items[0]) else AzureEntry(items[0]);
      var rest :- AzureEntries(items[1..]);
      Ok([head] + rest)
  }

  function AzureEntry(entry: Value): Result<Value, Fault> {
    var config :- Get(entry, "config", EMPTY);
    var config' :- SetAt(config, "model_validation", Bool(false));
    SetAt(entry, "config", config')
  }

  function AzureValue(inference: Value): Result<Value, Fault> {
    var items :- Elements(inference);
    var enriched :- AzureEntries(items);
    Ok(if inference.List? then List(enriched) else inference)
  }

  /** What the Azure pass reads: the inference section, if the providers have one. */
  datatype InferenceView = Absent | Broken | Present(inference: Value)

  function ViewInference(root: Section): InferenceView {
    var providers := GetOr(root, "providers", EMPTY);
    if !providers.Map? then Broken
    else if "inference" !in providers.entries then Absent
    else Present(providers.entries["inference"])
  }

  function WithInference(root: Section, inference: Value): Section
    requires ViewInference(root).Present?
  {
    root["providers" := Map(root["providers"].entries["inference" := inference])]
  }

  function Azure(azure: Value, root: Section): Outcome {
    if azure == Null then Ok(root)
    else
      match ViewInference(root)
      case Absent => Ok(root)
      case Broken => Err(Raised)
      case Present(inference) =>
        var enriched :- AzureValue(inference);
        Ok(WithInference(root, enriched))
  }

  // ----- BYOK RAG ----------------------------------------------------------

  const FAISS := "inline::faiss"
  const PGVECTOR := "remote::pgvector"

  function RagType(h: Host, store: Value): Result<string, Fault> {
    var backend :- Get(store, "backend", Str("faiss"));
    if !Hashable(backend) then Err(Raised)
    else if backend == Str("faiss") then Ok(FAISS)
    else if backend == Str("pgvector") then Ok(PGVECTOR)
    else Ok("inline::" + Text(h, backend))
  }

  /** A required field: missing and falsy values raise. */
  function Required(store: Value, field: string): Result<Value, Fault> {
    var v :- Get(store, field, Null);
    if Truthy(v) then Ok(v) else Err(Raised)
  }

  function StorageName(ragId: string): string {
    "byok_" + ragId + "_storage"
  }

  function KvSqlite(path: Value): Value {
    Map(map["type" := Str("kv_sqlite"), "db_path" := path])
  }

  function AddBackend(h: Host, backends: Value, store: Value): Result<Value, Fault> {
    var id :- Required(store, "rag_id");
    var kind :- RagType(h, store);
    if kind == PGVECTOR then Ok(backends)
    else
      var path :- Get(store, "db_path", Str(".llama/" + Text(h, id) + ".db"));
      SetAt(backends, StorageName(Text(h, id)), KvSqlite(path))
  }

  function AddBackends(h: Host, backends: Value, stores: seq<Value>): Result<Value, Fault>
    decreases stores
  {
    if stores == [] then Ok(backends)
    else
      var next :- AddBackend(h, backends, stores[0]);
      AddBackends(h, next, stores[1..])
  }

  function WithBackends(h: Host, stores: seq<Value>): Rewrite {
    (prev: Option<Value>) =>
      var start :- CopyOf(prev, EMPTY);
      AddBackends(h, start, stores)
  }

  predicate BlankValue(v: Value) {
    v == Null || (v.Str? && Strip(v.s) == "")
  }

  function FieldOr(fields: Value, field: string, default: string): Value {
    var v := if fields.Map? then GetOr(fields.entries, field, Null) else Null;
    if BlankValue(v) then Str(default) else v
  }

  /** The provider config of a vector store; only the two known types have a template. */
  function VectorIoConfig(kind: string, backend: string, fields: Value): Result<Value, Fault> {
    if kind == FAISS then
      Ok(Map(map["persistence" := Map(map["namespace" := Str("vector_io::faiss"), "backend" := Str(backend)])]))
    else if kind == PGVECTOR then
      Ok(Map(map["persistence" := Map(map["namespace" := Str("vector_io::pgvector"), "backend" := Str("kv_default")]),
                 "host" := FieldOr(fields, "host", "${env.POSTGRES_HOST}"),
                 "port" := FieldOr(fields, "port", "${env.POSTGRES_PORT}"),
                 "db" := FieldOr(fields, "db", "${env.POSTGRES_DATABASE}"),
                 "user" := FieldOr(fields, "user", "${env.POSTGRES_USER}"),
                 "password" := FieldOr(fields, "password", "${env.POSTGRES_PASSWORD}")]))
    else Err(Raised)
  }

  function ProviderEntry(id: string, kind: string, config: Value): Value {
    Map(map["provider_id" := Str(id), "provider_type" := Str(kind), "config" := config])
  }

  function AddProvider(h: Host, items: seq<Value>, known: set<string>, store: Value)
    : Result<(seq<Value>, set<string>), Fault>
  {
    var raw :- Required(store, "rag_id");
    var ragId := Strip(Text(h, raw));
    var id := "byok_" + ragId;
    if id in known then Ok((items, known))
    else
      var kind :- RagType(h, store);
      var config :- VectorIoConfig(kind, StorageName(ragId), store);
      Ok((items + [ProviderEntry(id, kind, config)], known + {id}))
  }

  function AddProviders(h: Host, items: seq<Value>, known: set<string>, stores: seq<Value>): Result<seq<Value>, Fault>
    decreases stores
  {
    if stores == [] then Ok(items)
    else
      var next :- AddProvider(h, items, known, stores[0]);
      AddProviders(h, next.0, next.1, stores[1..])
  }

  /** The entries a pass over `vector_io` starts from: the deduplicated list, or none. */
  function VectorIoItems(h: Host, raw: Option<Value>): seq<Value> {
    if raw.Some? && raw.value.List? then DedupeList(h, raw.value.items) else []
  }

  function WithProviders(h: Host, stores: seq<Value>): Rewrite {
    (prev: Option<Value>) =>
      var items := VectorIoItems(h, prev);
      var providers :- AddProviders(h, items, Keys(h, items), stores);
      Ok(List(providers))
  }

  /** Store ids with environment references expanded; each row must be a mapping, each id hashable. */
  function StoreIds(h: Host, rows: seq<Value>): Result<set<Value>, Fault> {
    if rows == [] then Ok({})
    else
      var raw :- Get(rows[0], "vector_store_id", Str(""));
      var rest :- StoreIds(h, rows[1..]);
      if Hashable(h.expand(raw)) then Ok({h.expand(raw)} + rest) else Err(Raised)
  }

  function EmbeddingName(ragId: string): string {
    "byok_" + ragId + "_embedding"
  }

  function StoreRow(h: Host, store: Value, ragId: Value, storeId: Value): Value {
    Map(map["vector_store_id" := storeId,
            "provider_id" := Str("byok_" + Text(h, ragId)),
            "embedding_model" := Str("sentence-transformers/" + EmbeddingName(Text(h, ragId))),
            "embedding_dimension" := if store.Map? then GetOr(store.entries, "embedding_dimension", Null) else Null])
  }

  function AddStore(h: Host, rows: Value, known: set<Value>, store: Value): Result<(Value, set<Value>), Fault> {
    var ragId :- Required(store, "rag_id");
    var storeId :- Required(store, "vector_db_id");
    if !Hashable(storeId) then Err(Raised)
    else if storeId in known then Ok((rows, known))
    else
      var more :- Append(rows, StoreRow(h, store, ragId, storeId));
      Ok((more, known + {storeId}))
  }

  function AddStores(h: Host, rows: Value, known: set<Value>, stores: seq<Value>): Result<Value, Fault>
    decreases stores
  {
    if stores == [] then Ok(rows)
    else
      var next :- AddStore(h, rows, known, stores[0]);
      AddStores(h, next.0, next.1, stores[1..])
  }

  function WithStores(h: Host, stores: seq<Value>): Rewrite {
    (prev: Option<Value>) =>
      var start :- CopyOf(prev, List([]));
      var elements :- Elements(start);
      var known :- StoreIds(h, elements);
      AddStores(h, start, known, stores)
  }

  /** Is there a row whose field has this value? Rows up to the first such one must be mappings. */
  function AnyWith(rows: seq<Value>, field: string, v: Value): Result<bool, Fault> {
    if rows == [] then Ok(false)
    else
      var got :- Get(rows[0], field, Null);
      if got == v then Ok(true) else AnyWith(rows[1..], field, v)
  }

  function RemovePrefix(s: string, prefix: string): string {
    if StartsWith(s, prefix) then s[|prefix|..] else s
  }

  const TRANSFORMERS := "sentence-transformers/"

  function EmbeddingRow(modelId: string, path: string, dimension: Value): Value {
    Map(map["model_id" := Str(modelId), "model_type" := Str("embedding"),
            "provider_id" := Str("sentence-transformers"),
            "provider_model_id" := Str(RemovePrefix(path, TRANSFORMERS)),
            "metadata" := Map(map["embedding_dimension" := dimension])])
  }

  function AddModel(h: Host, rows: Value, store: Value): Result<Value, Fault> {
    var ragId :- Required(store, "rag_id");
    var model :- Get(store, "embedding_model", Str("sentence-transformers/all-mpnet-base-v2"));
    var dimension :- Get(store, "embedding_dimension", Null);
    if !Truthy(model) then Ok(rows)
    else if !model.Str? then Err(Raised)
    else
      var elements :- Elements(rows);
      var modelId := EmbeddingName(Text(h, ragId));
      var present :- AnyWith(elements, "model_id", Str(modelId));
      if present then Ok(rows) else Append(rows, EmbeddingRow(modelId, model.s, dimension))
  }

  function AddModels(h: Host, rows: Value, stores: seq<Value>): Result<Value, Fault>
    decreases stores
  {
    if stores == [] then Ok(rows)
    else
      var next :- AddModel(h, rows, stores[0]);
      AddModels(h, next, stores[1..])
  }

  function WithModels(h: Host, stores: seq<Value>): Rewrite {
    (prev: Option<Value>) =>
      var start :- CopyOf(prev, List([]));
      AddModels(h, start, stores)
  }

  function Byok(h: Host, stores: Value, root: Section): Outcome {
    var items :- Elements(stores);
    if items == [] then Dedupe(h, root)
    else
      var r1 :- Update(root, "storage", "backends", WithBackends(h, items));
      var r2 :- Update(r1, "providers", "vector_io", WithProviders(h, items));
      var r3 :- Update(r2, "registered_resources", "vector_stores", WithStores(h, items));
      Update(r3, "registered_resources", "models", WithModels(h, items))
  }

  // ----- Solr / OKP --------------------------------------------------------

  const SOLR_ID := "okp_solr"
  const SOLR_STORE := "portal-rag"
  const SOLR_MODEL_PATH := "ibm-granite/granite-embedding-small-english-r2"
  const SOLR_MODEL_ID := "sentence-transformers/solr_embedding"

  function OrEmptyList(v: Value): Value {
    if Truthy(v) then v else List([])
  }

  function OkpEnabled(inline: Value, tool: Value): Result<bool, Fault> {
    var first :- Has(OrEmptyList(inline), "okp");
    if first then Ok(true) else Has(OrEmptyList(tool), "okp")
  }

  function EnvDefault(name: string, default: string): Value {
    Str("${env." + name + ":=" + default + "}")
  }

  function SolrProvider(h: Host, url: Value, userFilter: Value): Value {
    var filter := if Truthy(userFilter) then "is_chunk:true AND " + Text(h, userFilter) else "is_chunk:true";
    ProviderEntry(SOLR_ID, "remote::solr_vector_io", Map(map[
      "solr_url" := h.solrUrl(url),
      "collection_name" := EnvDefault("SOLR_COLLECTION", SOLR_STORE),
      "vector_field" := EnvDefault("SOLR_VECTOR_FIELD", "chunk_vector"),
      "content_field" := EnvDefault("SOLR_CONTENT_FIELD", "chunk"),
      "embedding_model" := EnvDefault("SOLR_EMBEDDING_MODEL", TRANSFORMERS + SOLR_MODEL_PATH),
      "embedding_dimension" := EnvDefault("SOLR_EMBEDDING_DIM", "384"),
      "chunk_window_config" := Map(map[
        "chunk_parent_id_field" := Str("parent_id"),
        "chunk_content_field" := Str("chunk_field"),
        "chunk_index_field" := Str("chunk_index"),
        "chunk_token_count_field" := Str("num_tokens"),
        "chunk_online_source_url_field" := Str("online_source_url"),
        "chunk_source_path_field" := Str("source_path"),
        "parent_total_chunks_field" := Str("total_chunks"),
        "parent_total_tokens_field" := Str("total_tokens"),
        "chunk_filter_query" := Str(filter),
        "chunk_family_fields" := List([Str("headings")])]),
      "persistence" := Map(map["namespace" := Str(SOLR_STORE), "backend" := Str("kv_default")])]))
  }

  const SOLR_STORE_ROW := Map(map[
    "vector_store_id" := Str(SOLR_STORE), "provider_id" := Str(SOLR_ID),
    "embedding_model" := Str(SOLR_MODEL_ID), "embedding_dimension" := Num(384)])

  const SOLR_MODEL_ROW := Map(map[
    "model_id" := Str(SOLR_MODEL_ID), "model_type" := Str("embedding"),
    "provider_id" := Str("sentence-transformers"),
    "provider_model_id" := EnvDefault("SOLR_EMBEDDING_MODEL", SOLR_MODEL_PATH),
    "metadata" := Map(map["embedding_dimension" := Num(384)])])

  predicate AllMaps(items: seq<Value>) {
    forall v <- items :: v.Map?
  }

  predicate HasRow(items: seq<Value>, field: string, v: Value) {
    exists row <- items :: row.Map? && GetOr(row.entries, field, Null) == v
  }

  /** Append a row, to a list created if missing, unless some row has this field value. */
  function WithRow(field: string, v: Value, row: Value): Rewrite {
    (prev: Option<Value>) =>
      var rows := if prev.Some? then prev.value else List([]);
      var elements :- Elements(rows);
      if !AllMaps(elements) then Err(Raised)
      else if HasRow(elements, field, v) then Ok(rows)
      else Append(rows, row)
  }

  function SearchMode(mode: Value): Result<Value, Fault> {
    if !Hashable(mode) then Err(Raised)
    else if mode == Str("lexical") then Ok(Str("keyword"))
    else if mode == Str("semantic") then Ok(Str("vector"))
    else Ok(mode)
  }

  function WithSearchMode(mode: Value): Rewrite {
    (prev: Option<Value>) =>
      var ogxMode :- SearchMode(mode);
      SetAt(if prev.Some? then prev.value else EMPTY, "default_search_mode", ogxMode)
  }

  const PROVIDERS_DIR := Str("${env.EXTERNAL_PROVIDERS_DIR:=/opt/app-root/providers.d}")

  function WithProvidersDir(root: Section): Section {
    if "external_providers_dir" in root then root else root["external_providers_dir" := PROVIDERS_DIR]
  }

  function SolrProviderRow(h: Host, okp: Section): Rewrite {
    WithRow("provider_id", Str(SOLR_ID),
            SolrProvider(h, GetOr(okp, "rhokp_url", Null), GetOr(okp, "chunk_filter_query", Null)))
  }

  /** The vector store, its embedding model, and the search mode. */
  function SolrRegister(mode: Value, root: Section): Outcome {
    var r1 :- Update(root, "registered_resources", "vector_stores",
                     WithRow("vector_store_id", Str(SOLR_STORE), SOLR_STORE_ROW));
    var r2 :- Update(r1, "registered_resources", "models",
                     WithRow("provider_model_id", Str(SOLR_MODEL_PATH), SOLR_MODEL_ROW));
    if Truthy(mode) then Update(r2, "vector_stores", "chunk_retrieval_params", WithSearchMode(mode)) else Ok(r2)
  }

  function SolrEnabled(h: Host, okp: Section, root: Section): Outcome {
    var r :- Update(WithProvidersDir(root), "providers", "vector_io", SolrProviderRow(h, okp));
    SolrRegister(GetOr(okp, "search_mode", Null), r)
  }

  function Solr(h: Host, inline: Value, tool: Value, okp: Value, root: Section): Outcome {
    var enabled :- OkpEnabled(inline, tool);
    if !enabled then Ok(root) else if okp.Map? then SolrEnabled(h, okp.entries, root) else Err(Raised)
  }
}
