/** The OGX config as the object the passes change in place, and the three drivers that run them in order. */
module OgxConfig {
  import opened Wrappers
  import opened Yaml
  import opened VectorIo
  import opened Enrichment
  import opened HighLevel
  import opened VectorStores
  import opened DeepMerge
  import opened Pipelines

  // ----- loops that build a section ----------------------------------------

  method ConstructStorageBackends(h: Host, start: Value, stores: seq<Value>) returns (r: Result<Value, Fault>)
    ensures r == AddBackends(h, start, stores)
  {
    hide AddBackend;
    var output := start;
    for i := 0 to |stores|
      invariant AddBackends(h, output, stores[i..]) == AddBackends(h, start, stores)
    {
      assert stores[i..][1..] == stores[i + 1..];
      var next := AddBackend(h, output, stores[i]);
      if next.Err? {
        return Err(next.error);
      }
      output := next.value;
    }
    return Ok(output);
  }

  method ConstructVectorIoProviders(h: Host, start: seq<Value>, stores: seq<Value>)
    returns (r: Result<seq<Value>, Fault>)
    ensures r == AddProviders(h, start, Keys(h, start), stores)
  {
    hide AddProvider;
    var output, existing := start, Keys(h, start);
    for i := 0 to |stores|
      invariant AddProviders(h, output, existing, stores[i..]) == AddProviders(h, start, Keys(h, start), stores)
    {
      assert stores[i..][1..] == stores[i + 1..];
      var next := AddProvider(h, output, existing, stores[i]);
      if next.Err? {
        return Err(next.error);
      }
      output, existing := next.value.0, next.value.1;
    }
    return Ok(output);
  }

  method ConstructVectorStores(h: Host, start: Value, known: set<Value>, stores: seq<Value>)
    returns (r: Result<Value, Fault>)
    ensures r == AddStores(h, start, known, stores)
  {
    hide AddStore;
    var output, existing := start, known;
    for i := 0 to |stores|
      invariant AddStores(h, output, existing, stores[i..]) == AddStores(h, start, known, stores)
    {
      assert stores[i..][1..] == stores[i + 1..];
      var next := AddStore(h, output, existing, stores[i]);
      if next.Err? {
        return Err(next.error);
      }
      output, existing := next.value.0, next.value.1;
    }
    return Ok(output);
  }

  method ConstructModels(h: Host, start: Value, stores: seq<Value>) returns (r: Result<Value, Fault>)
    ensures r == AddModels(h, start, stores)
  {
    hide AddModel;
    var output := start;
    for i := 0 to |stores|
      invariant AddModels(h, output, stores[i..]) == AddModels(h, start, stores)
    {
      assert stores[i..][1..] == stores[i + 1..];
      var next := AddModel(h, output, stores[i]);
      if next.Err? {
        return Err(next.error);
      }
      output := next.value;
    }
    return Ok(output);
  }

  /** Replace the first matching row, or append: the search loop with its early return. */
  method ReplaceOrAppendInference(rows: seq<Value>, e: Emitted) returns (r: seq<Value>)
    ensures r == ReplaceOrAppend(rows, e)
  {
    hide Matches;
    for i := 0 to |rows|
      invariant forall j :: 0 <= j < i ==> !Matches(rows[j], e.id)
    {
      if Matches(rows[i], e.id) {
        return rows[i := e.entry];
      }
    }
    return rows + [e.entry];
  }

  method InstallEntries(rows: seq<Value>, es: seq<Emitted>) returns (r: seq<Value>)
    ensures r == ReplaceOrAppendAll(rows, es)
  {
    hide ReplaceOrAppend;
    r := rows;
    for i := 0 to |es|
      invariant ReplaceOrAppendAll(r, es[i..]) == ReplaceOrAppendAll(rows, es)
    {
      assert es[i..][1..] == es[i + 1..];
      r := ReplaceOrAppendInference(r, es[i]);
    }
  }

  // ----- the config --------------------------------------------------------

  class Config {
    var root: Section

    constructor (root: Section)
      ensures this.root == root
    {
      this.root := root;
    }

    method DedupeProvidersVectorIo(h: Host) returns (ok: bool)
      modifies this
      ensures match Dedupe(h, old(root)) case Ok(r) => ok && root == r case Err(_) => !ok
    {
      hide DedupeList;
      var raw := Sub(root, "providers", "vector_io");
      if raw.Err? {
        return false;
      }
      if raw.value.Some? && raw.value.value.List? {
        var deduped := DedupeVectorIoList(h, raw.value.value.items);
        var put := PutSub(root, "providers", "vector_io", List(deduped));
        if put.Err? {
          return false;
        }
        root := put.value;
      }
      return true;
    }

    method EnrichAzure(azure: Value) returns (ok: bool)
      modifies this
      ensures match Azure(azure, old(root)) case Ok(r) => ok && root == r case Err(_) => !ok
    {
      if azure == Null {
        return true;
      }
      var view := ViewInference(root);
      match view {
        case Absent => return true;
        case Broken => return false;
        case Present(inference) =>
          var items := Elements(inference);
          if items.Err? {
            return false;
          }
          var entries: seq<Value> := [];
          ghost var whole := AzureEntries(items.value);
          assert items.value[0..] == items.value && (whole.Ok? ==> [] + whole.value == whole.value);
          for i := 0 to |items.value|
            invariant match AzureEntries(items.value[i..])
                      case Ok(rest) => AzureEntries(items.value) == Ok(entries + rest)
                      case Err(_) => AzureEntries(items.value).Err?
          {
            hide AzureEntry;
            var item := items.value[i];
            assert items.value[i..][1..] == items.value[i + 1..];
            if !item.Map? {
              return false;
            }
            if GetOr(item.entries, "provider_type", Null) == Str("remote::azure") {
              var enriched := AzureEntry(item);
              if enriched.Err? {
                return false;
              }
              item := enriched.value;
            }
            ghost var rest := AzureEntries(items.value[i + 1..]);
            assert rest.Ok? ==> entries + ([item] + rest.value) == (entries + [item]) + rest.value;
            entries := entries + [item];
          }
          assert entries + [] == entries;
          root := WithInference(root, if inference.List? then List(entries) else inference);
          return true;
      }
    }

    method EnrichByokRag(h: Host, stores: Value) returns (ok: bool)
      modifies this
      ensures match Byok(h, stores, old(root)) case Ok(r) => ok && root == r case Err(_) => !ok
    {
      var items := Elements(stores);
      if items.Err? {
        return false;
      }
      if items.value == [] {
        ok := DedupeProvidersVectorIo(h);
        return;
      }
      ok := AddStorageBackends(h, items.value);
      if ok {
        ok := AddVectorIoProviders(h, items.value);
      }
      if ok {
        ok := AddVectorStores(h, items.value);
      }
      if ok {
        ok := AddEmbeddingModels(h, items.value);
      }
    }

    method AddStorageBackends(h: Host, stores: seq<Value>) returns (ok: bool)
      modifies this
      ensures match Update(old(root), "storage", "backends", WithBackends(h, stores))
              case Ok(r) => ok && root == r
              case Err(_) => !ok
    {
      hide Sub, PutSub, AddBackends;
      var before := Sub(root, "storage", "backends");
      if before.Err? {
        return false;
      }
      var start := CopyOf(before.value, EMPTY);
      if start.Err? {
        return false;
      }
      var after := ConstructStorageBackends(h, start.value, stores);
      ok := PutSection("storage", "backends", after);
    }

    method AddVectorIoProviders(h: Host, stores: seq<Value>) returns (ok: bool)
      modifies this
      ensures match Update(old(root), "providers", "vector_io", WithProviders(h, stores))
              case Ok(r) => ok && root == r
              case Err(_) => !ok
    {
      hide Sub, PutSub, AddProviders, DedupeList;
      var before := Sub(root, "providers", "vector_io");
      if before.Err? {
        return false;
      }
      var start: seq<Value> := [];
      if before.value.Some? && before.value.value.List? {
        start := DedupeVectorIoList(h, before.value.value.items);
      }
      var after := ConstructVectorIoProviders(h, start, stores);
      ok := PutSection("providers", "vector_io", if after.Ok? then Ok(List(after.value)) else Err(after.error));
    }

    method AddVectorStores(h: Host, stores: seq<Value>) returns (ok: bool)
      modifies this
      ensures match Update(old(root), "registered_resources", "vector_stores", WithStores(h, stores))
              case Ok(r) => ok && root == r
              case Err(_) => !ok
    {
      hide Sub, PutSub, AddStores, StoreIds, Elements;
      var before := Sub(root, "registered_resources", "vector_stores");
      if before.Err? {
        return false;
      }
      var start := CopyOf(before.value, List([]));
      if start.Err? {
        return false;
      }
      var elements := Elements(start.value);
      if elements.Err? {
        return false;
      }
      var known := StoreIds(h, elements.value);
      if known.Err? {
        return false;
      }
      var after := ConstructVectorStores(h, start.value, known.value, stores);
      ok := PutSection("registered_resources", "vector_stores", after);
    }

    method AddEmbeddingModels(h: Host, stores: seq<Value>) returns (ok: bool)
      modifies this
      ensures match Update(old(root), "registered_resources", "models", WithModels(h, stores))
              case Ok(r) => ok && root == r
              case Err(_) => !ok
    {
      hide Sub, PutSub, AddModels;
      var before := Sub(root, "registered_resources", "models");
      if before.Err? {
        return false;
      }
      var start := CopyOf(before.value, List([]));
      if start.Err? {
        return false;
      }
      var after := ConstructModels(h, start.value, stores);
      ok := PutSection("registered_resources", "models", after);
    }

    method PutSection(outer: string, inner: string, v: Result<Value, Fault>) returns (ok: bool)
      modifies this
      ensures if v.Err? then !ok
              else match PutSub(old(root), outer, inner, v.value) case Ok(r) => ok && root == r case Err(_) => !ok
    {
      if v.Err? {
        return false;
      }
      var put := PutSub(root, outer, inner, v.value);
      if put.Err? {
        return false;
      }
      root := put.value;
      return true;
    }

    method EnrichSolr(h: Host, inline: Value, tool: Value, okp: Value) returns (ok: bool)
      modifies this
      ensures match Solr(h, inline, tool, okp, old(root)) case Ok(r) => ok && root == r case Err(_) => !ok
    {
      hide Update, OkpEnabled, WithRow, WithSearchMode, SolrProvider;
      var enabled := OkpEnabled(inline, tool);
      if enabled.Err? || (enabled.value && !okp.Map?) {
        return false;
      }
      if !enabled.value {
        return true;
      }
      root := WithProvidersDir(root);
      ok := UpdateSection("providers", "vector_io", SolrProviderRow(h, okp.entries));
      if ok {
        ok := UpdateSection("registered_resources", "vector_stores",
                            WithRow("vector_store_id", Str(SOLR_STORE), SOLR_STORE_ROW));
      }
      if ok {
        ok := UpdateSection("registered_resources", "models",
                            WithRow("provider_model_id", Str(SOLR_MODEL_PATH), SOLR_MODEL_ROW));
      }
      var mode := GetOr(okp.entries, "search_mode", Null);
      if ok && Truthy(mode) {
        ok := UpdateSection("vector_stores", "chunk_retrieval_params", WithSearchMode(mode));
      }
    }

    method UpdateSection(outer: string, inner: string, rewrite: Rewrite) returns (ok: bool)
      modifies this
      ensures match Update(old(root), outer, inner, rewrite) case Ok(r) => ok && root == r case Err(_) => !ok
    {
      hide Sub, PutSub;
      var before := Sub(root, outer, inner);
      if before.Err? {
        return false;
      }
      ok := PutSection(outer, inner, rewrite(before.value));
    }

    method EnrichVectorStore(h: Host, section: Value) returns (ok: bool)
      modifies this
      ensures match VectorStore(h, section, old(root)) case Ok(r) => ok && root == r case Err(_) => !ok
    {
      hide Dedupe, EnrichOne, Begin, Store, Designated, WithDefaults, Elements;
      var vs := if Truthy(section) then section else EMPTY;
      var providers := Get(vs, "providers", Null);
      if providers.Err? {
        return false;
      }
      if Truthy(providers.value) {
        var start := Begin(h, root);
        if start.Err? {
          return false;
        }
        var entries := Elements(providers.value);
        if entries.Err? {
          return false;
        }
        var p := start.value;
        for i := 0 to |entries.value|
          invariant root == old(root)
          invariant EnrichEach(h, p, entries.value[i..]) == EnrichEach(h, start.value, entries.value)
        {
          assert entries.value[i..][1..] == entries.value[i + 1..];
          var next := EnrichOne(h, p, entries.value[i]);
          if next.Err? {
            return false;
          }
          p := next.value;
        }
        var stored := Store(root, p);
        if stored.Err? {
          return false;
        }
        var default := Get(vs, "default_provider", Null);
        var designated := Designated(h, entries.value, default.value);
        if designated.Err? {
          return false;
        }
        var done := WithDefaults(h, stored.value, designated.value);
        if done.Err? {
          return false;
        }
        root := done.value;
      }
      ok := DedupeProvidersVectorIo(h);
    }

    method ApplyHighLevelInference(inference: Value) returns (ok: bool)
      modifies this
      ensures match HighLevelInference(inference, old(root)) case Ok(r) => ok && root == r case Err(_) => !ok
    {
      hide Sub, PutSub, EmitAll, Elements, ReplaceOrAppendAll, WithModelsOf;
      var raw := Get(inference, "providers", Null);
      if raw.Err? {
        return false;
      }
      if !Truthy(raw.value) {
        return true;
      }
      var providers := Elements(raw.value);
      if providers.Err? {
        return false;
      }
      var es := EmitAll(providers.value);
      if es.Err? || !DistinctIds(es.value) {
        return false;
      }
      var before := Sub(root, "providers", "inference");
      if before.Err? {
        return false;
      }
      var rows := if before.value.Some? then before.value.value else List([]);
      if !rows.List? {
        return false;
      }
      var installed := InstallEntries(rows.items, es.value);
      ok := PutSection("providers", "inference", Ok(List(installed)));
      if ok && !RegistersNothing(es.value) {
        ok := UpdateSection("registered_resources", "models", WithModelsOf(es.value));
      }
    }

    method EnsureMcpToolRuntime() returns (ok: bool)
      modifies this
      ensures match McpToolRuntime(old(root)) case Ok(r) => ok && root == r case Err(_) => !ok
    {
      hide Update, WithMcp;
      var apis := GetOr(root, "apis", List([]));
      var has := Has(apis, "tool_runtime");
      if has.Err? {
        return false;
      }
      if !has.value {
        var more := Append(apis, Str("tool_runtime"));
        if more.Err? {
          return false;
        }
        apis := more.value;
      }
      root := root["apis" := apis];
      ok := UpdateSection("providers", "tool_runtime", WithMcp());
    }

    // ----- drivers ---------------------------------------------------------

    method EnrichRag(h: Host, i: Inputs) returns (ok: bool)
      modifies this
      ensures match RagPass(h, i)(old(root)) case Ok(r) => ok && root == r case Err(_) => !ok
    {
      hide Byok, Solr;
      ok := EnrichByokRag(h, i.stores);
      if ok {
        ok := EnrichSolr(h, i.inline, i.tool, i.okp);
      }
    }

    /** Library mode. */
    method EnrichLibrary(h: Host, i: Inputs) returns (ok: bool)
      modifies this
      ensures match LibraryPass(h, i)(old(root)) case Ok(r) => ok && root == r case Err(_) => !ok
    {
      hide RagPass, Azure;
      ok := EnrichRag(h, i);
      if ok {
        ok := EnrichAzure(i.azure);
      }
    }

    /** Legacy generation, in service mode. */
    method GenerateConfiguration(h: Host, lcs: Section) returns (ok: bool)
      modifies this
      ensures match Generate(h, old(root), lcs) case Ok(r) => ok && root == r case Err(_) => !ok
    {
      hide RagPass, Azure, Dedupe, ReadInputs;
      var i := ReadInputs(lcs);
      if i.Err? {
        return false;
      }
      ok := DedupeProvidersVectorIo(h);
      if ok {
        ok := EnrichAzure(i.value.azure);
      }
      if ok {
        ok := EnrichRag(h, i.value);
      }
      if ok {
        ok := DedupeProvidersVectorIo(h);
      }
    }
  }

  /** Unified mode: the whole run.yaml from one file. */
  method SynthesizeConfiguration(h: Host, files: Files, lcs: Section) returns (r: Outcome)
    ensures r == Synthesize(h, files, lcs)
  {
    hide RagPass, Azure, Dedupe, ReadInputs, SelectBaseline, HighLevelInference, McpToolRuntime, VectorStore, Merge,
      OgxSection;
    ghost var expected := Synthesize(h, files, lcs);
    assert expected.Err? ==> expected.error.Raised?;
    var unified := GetOr(OgxSection(lcs), "config", Null);
    var base := SelectBaseline(files, unified);
    if base.Err? {
      return Err(Raised);
    }
    var config := new Config(base.value.config);
    var ok := config.DedupeProvidersVectorIo(h);
    if ok {
      ok := config.ApplyHighLevelInference(OrEmpty(GetOr(lcs, "inference", Null)));
    }
    if ok && !base.value.empty {
      ok := config.EnsureMcpToolRuntime();
    }
    if !ok {
      return Err(Raised);
    }
    if Truthy(unified) {
      if !unified.Map? {
        return Err(Raised);
      }
      var overlay := GetOr(unified.entries, "native_override", Null);
      if Truthy(overlay) {
        if !overlay.Map? {
          return Err(Raised);
        }
        config.root := DeepMergeListReplace(config.root, overlay.entries);
      }
    }
    var i := ReadInputs(lcs);
    if i.Err? {
      return Err(Raised);
    }
    ok := config.EnrichAzure(i.value.azure);
    if ok {
      ok := config.EnrichRag(h, i.value);
    }
    if ok {
      ok := config.EnrichVectorStore(h, GetOr(lcs, "vector_store", Null));
    }
    if ok {
      ok := config.DedupeProvidersVectorIo(h);
    }
    return if ok then Ok(config.root) else Err(Raised);
  }
}
