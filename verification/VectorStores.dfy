/** The `vector_store.providers` pass and the MCP tool runtime. */
module VectorStores {
  import opened Wrappers
  import opened PyText
  import opened Yaml
  import opened Enrichment

  /** What the loop over the declared providers updates. */
  datatype Progress = Progress(backends: Value, vectorIo: seq<Value>, known: set<string>, models: Value)

  function VsStorageName(id: string): string {
    "vsprov_" + id + "_storage"
  }

  function VsEmbeddingName(id: string): string {
    "vsprov_" + id + "_embedding"
  }

  /** `str(entry["id"]).strip()` */
  function DeclaredId(h: Host, entry: Value): Result<string, Fault> {
    var raw :- At(entry, "id");
    Ok(Strip(Text(h, raw)))
  }

  datatype Plan = Plan(entry: Value, backend: Option<Value>)

  /** The `vector_io` entry of a declared provider and, for faiss, the storage backend it uses. */
  function PlanOf(h: Host, id: string, entry: Value): Result<Plan, Fault> {
    var kind :- At(entry, "type");
    var raw :- Get(entry, "config", Null);
    var cfg := if Truthy(raw) then raw else EMPTY;
    if kind == Str("faiss") then
      var path :- At(cfg, "path");
      var config :- VectorIoConfig(FAISS, VsStorageName(id), EMPTY);
      Ok(Plan(ProviderEntry(id, FAISS, config), Some(KvSqlite(path))))
    else if kind == Str("pgvector") && cfg.Map? then
      var config :- VectorIoConfig(PGVECTOR, VsStorageName(id), cfg);
      Ok(Plan(ProviderEntry(id, PGVECTOR, config), None))
    else Err(Raised)
  }

  predicate IsEntryOf(item: Value, id: string) {
    item.Map? && GetOr(item.entries, "provider_id", Null) == Str(id)
  }

  /** Replace the first entry with exactly this id; nothing if there is none. */
  function ReplaceFirst(items: seq<Value>, id: string, entry: Value): (r: seq<Value>)
    ensures |r| == |items|
  {
    if items == [] then []
    else if IsEntryOf(items[0], id) then [entry] + items[1..]
    else [items[0]] + ReplaceFirst(items[1..], id, entry)
  }

  /** Update the row with this model id, or append it; rows up to the first match must be mappings. */
  function UpsertIn(rows: seq<Value>, modelId: string, row: Value): Result<seq<Value>, Fault> {
    if rows == [] then Ok([row])
    else
      var got :- Get(rows[0], "model_id", Null);
      if got == Str(modelId) then Ok([row] + rows[1..])
      else
        var rest :- UpsertIn(rows[1..], modelId, row);
        Ok([rows[0]] + rest)
  }

  function UpsertModel(models: Value, id: string, model: Value, dimension: Value): Result<Value, Fault> {
    if !model.Str? || !models.List? then Err(Raised)
    else
      var rows :- UpsertIn(models.items, VsEmbeddingName(id), EmbeddingRow(VsEmbeddingName(id), model.s, dimension));
      Ok(List(rows))
  }

  function EnrichOne(h: Host, p: Progress, entry: Value): Result<Progress, Fault> {
    var id :- DeclaredId(h, entry);
    var plan :- PlanOf(h, id, entry);
    var backends :- if plan.backend.None? then Ok(p.backends)
      else SetAt(p.backends, VsStorageName(id), plan.backend.value);
    var isNew := id !in p.known;
    var vectorIo := if isNew then p.vectorIo + [plan.entry] else ReplaceFirst(p.vectorIo, id, plan.entry);
    var model :- Get(entry, "embedding_model", Null);
    var dimension :- Get(entry, "embedding_dimension", Null);
    var models :- if Truthy(model) && dimension != Null then UpsertModel(p.models, id, model, dimension)
      else Ok(p.models);
    Ok(Progress(backends, vectorIo, p.known + {id}, models))
  }

  function EnrichEach(h: Host, p: Progress, entries: seq<Value>): Result<Progress, Fault>
    decreases entries
  {
    if entries == [] then Ok(p)
    else
      var next :- EnrichOne(h, p, entries[0]);
      EnrichEach(h, next, entries[1..])
  }

  /** The first declared provider whose stripped id is the cleaned default. */
  function FindDeclared(h: Host, entries: seq<Value>, cleaned: string): Result<Option<Value>, Fault> {
    if entries == [] then Ok(None)
    else
      var raw :- Get(entries[0], "id", Str(""));
      if Strip(Text(h, raw)) == cleaned then Ok(Some(entries[0])) else FindDeclared(h, entries[1..], cleaned)
  }

  function Designated(h: Host, entries: seq<Value>, default: Value): Result<Option<Value>, Fault> {
    if default == Null then Ok(None)
    else if !default.Str? then Err(Raised)
    else if Strip(default.s) == "" then Ok(None)
    else FindDeclared(h, entries, Strip(default.s))
  }

  function WithDefaults(h: Host, root: Section, designated: Option<Value>): Outcome {
    if designated.None? then Ok(root)
    else
      var id :- DeclaredId(h, designated.value);
      var model :- Get(designated.value, "embedding_model", Null);
      var section := GetOr(root, "vector_stores", Null);
      var base := (if section.Map? then section.entries else map[])["default_provider_id" := Str(id)];
      Ok(root["vector_stores" := Map(if !Truthy(model) then base else base["default_embedding_model" := Map(map[
        "provider_id" := Str("sentence-transformers"), "model_id" := Str(VsEmbeddingName(id))])])])
  }

  function KnownIds(h: Host, items: seq<Value>): set<string> {
    set i | 0 <= i < |items| && items[i].Map? && Truthy(GetOr(items[i].entries, "provider_id", Null))
      :: Strip(Text(h, GetOr(items[i].entries, "provider_id", Null)))
  }

  /** The loop's starting point, read out of the config. */
  function Begin(h: Host, root: Section): Result<Progress, Fault> {
    var backends :- Get(GetOr(root, "storage", EMPTY), "backends", EMPTY);
    var raw :- Get(GetOr(root, "providers", EMPTY), "vector_io", Null);
    var models :- Get(GetOr(root, "registered_resources", EMPTY), "models", List([]));
    var items := if raw.List? then raw.items else [];
    Ok(Progress(backends, items, KnownIds(h, items), models))
  }

  function Store(root: Section, p: Progress): Outcome {
    var r1 :- PutSub(root, "storage", "backends", p.backends);
    var r2 :- PutSub(r1, "providers", "vector_io", List(p.vectorIo));
    PutSub(r2, "registered_resources", "models", p.models)
  }

  function VectorStore(h: Host, section: Value, root: Section): Outcome {
    var vs := if Truthy(section) then section else EMPTY;
    var providers :- Get(vs, "providers", Null);
    if !Truthy(providers) then Dedupe(h, root)
    else
      var start :- Begin(h, root);
      var entries :- Elements(providers);
      var end :- EnrichEach(h, start, entries);
      var stored :- Store(root, end);
      var default :- Get(vs, "default_provider", Null);
      var designated :- Designated(h, entries, default);
      var done :- WithDefaults(h, stored, designated);
      Dedupe(h, done)
  }

  // ----- MCP ---------------------------------------------------------------

  const MCP_ID := "model-context-protocol"

  function McpEntry(): Value {
    ProviderEntry(MCP_ID, "remote::model-context-protocol", EMPTY)
  }

  predicate HasMcp(items: seq<Value>) {
    exists item <- items :: IsEntryOf(item, MCP_ID)
  }

  function WithMcp(): Rewrite {
    (prev: Option<Value>) =>
      var rows := if prev.Some? then prev.value else List([]);
      var elements :- Elements(rows);
      if HasMcp(elements) then Ok(rows) else Append(rows, McpEntry())
  }

  function McpToolRuntime(root: Section): Outcome {
    var apis := GetOr(root, "apis", List([]));
    var has :- Has(apis, "tool_runtime");
    var apis' :- if has then Ok(apis) else Append(apis, Str("tool_runtime"));
    Update(root["apis" := apis'], "providers", "tool_runtime", WithMcp())
  }
}
