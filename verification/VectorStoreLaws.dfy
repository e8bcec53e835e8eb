/** The declared vector stores: every reference they create resolves. Repeating Azure or MCP changes nothing. */
module VectorStoreLaws {
  import opened Wrappers
  import opened PyText
  import opened Yaml
  import opened VectorIo
  import opened Enrichment
  import opened PassOrder
  import opened HighLevelLaws
  import opened ModeEquivalence
  import opened ByokLaws
  import opened VectorStores

  // ----- Azure and MCP -----------------------------------------------------

  lemma {:induction false} AzureEntriesTwice(items: seq<Value>)
    requires AzureEntries(items).Ok?
    ensures var r := AzureEntries(items).value; |r| == |items| && AzureEntries(r) == Ok(r)
  {
    if items != [] {
      AzureEntriesTwice(items[1..]);
      var r := AzureEntries(items).value;
      assert r == [r[0]] + AzureEntries(items[1..]).value && r[1..] == AzureEntries(items[1..]).value;
      if GetOr(items[0].entries, "provider_type", Null) == Str("remote::azure") {
        AzureEntryTwice(items[0]);
      }
    }
  }

  lemma AzureEntryTwice(entry: Value)
    requires AzureEntry(entry).Ok?
    ensures var e := AzureEntry(entry).value; AzureEntry(e) == Ok(e) && e.Map? && entry.Map?
    ensures var e := AzureEntry(entry).value;
            forall k | k != "config" :: (k in e.entries <==> k in entry.entries)
              && (k in e.entries ==> e.entries[k] == entry.entries[k])
  {
    var config := GetOr(entry.entries, "config", EMPTY).entries;
    var config' := config["model_validation" := Bool(false)];
    assert config'["model_validation" := Bool(false)] == config';
    var e := AzureEntry(entry).value;
    assert e.entries["config" := Map(config')] == e.entries;
  }

  predicate IsAzure(entry: Value) {
    entry.Map? && GetOr(entry.entries, "provider_type", Null) == Str("remote::azure")
  }

  ghost predicate SameButFor(a: Section, b: Section, key: string) {
    forall k | k != key :: (k in a <==> k in b) && (k in a ==> a[k] == b[k])
  }

  /** Validation is switched off in `config`, and nothing else is changed. */
  ghost predicate ValidationOff(before: Value, after: Value) {
    && before.Map? && after.Map? && SameButFor(before.entries, after.entries, "config")
    && var was, config := GetOr(before.entries, "config", EMPTY), GetOr(after.entries, "config", Null);
    && was.Map? && config.Map? && SameButFor(was.entries, config.entries, "model_validation")
    && GetOr(config.entries, "model_validation", Null) == Bool(false)
  }

  /** Azure entries have validation switched off; every other entry stays as and where it was. */
  lemma {:induction false} AzureEntriesExactly(items: seq<Value>)
    requires AzureEntries(items).Ok?
    ensures var r := AzureEntries(items).value;
            |r| == |items| && forall i :: 0 <= i < |items| ==>
              if IsAzure(items[i]) then ValidationOff(items[i], r[i]) else r[i] == items[i]
  {
    hide ValidationOff, AzureEntry;
    if items != [] {
      AzureEntriesExactly(items[1..]);
      if IsAzure(items[0]) {
        AzureEntryExactly(items[0]);
      }
    }
  }

  lemma AzureEntryExactly(entry: Value)
    requires AzureEntry(entry).Ok?
    ensures ValidationOff(entry, AzureEntry(entry).value)
  {
  }

  /** The pass owns `providers.inference` and changes only the Azure entries in it. */
  lemma AzureOwnsInference(azure: Value, root: Section)
    requires Azure(azure, root).Ok? && azure != Null
    ensures var r := Azure(azure, root).value;
            var before, after := ListAt(root, "providers", "inference"), ListAt(r, "providers", "inference");
            && SameButFor(root, r, "providers")
            && (forall inner | inner != "inference" :: Sub(r, "providers", inner) == Sub(root, "providers", inner))
            && |after| == |before| && forall i :: 0 <= i < |before| ==>
                 if IsAzure(before[i]) then ValidationOff(before[i], after[i]) else after[i] == before[i]
  {
    hide AzureEntries, ValidationOff, IsAzure;
    var view := ViewInference(root);
    if view.Present? && view.inference.List? {
      AzureEntriesExactly(view.inference.items);
    }
  }

  /** The Azure pass is idempotent. */
  lemma AzureTwice(azure: Value, root: Section)
    requires Azure(azure, root).Ok?
    ensures Azure(azure, Azure(azure, root).value) == Azure(azure, root)
  {
    var view := ViewInference(root);
    if azure != Null && view.Present? {
      AzureEntriesTwice(Elements(view.inference).value);
      hide AzureEntries;
      var r, v := Azure(azure, root).value, AzureValue(view.inference).value;
      assert r["providers"].entries["inference" := v] == r["providers"].entries;
      assert r["providers" := Map(r["providers"].entries)] == r;
    }
  }

  /** After the pass the API is listed and the provider is there, nothing is lost, and no other section changes. */
  lemma McpInstalls(root: Section)
    requires McpToolRuntime(root).Ok?
    ensures var r := McpToolRuntime(root).value;
            && "apis" in r && Has(r["apis"], "tool_runtime") == Ok(true)
            && HasMcp(ListAt(r, "providers", "tool_runtime"))
            && ListAt(root, "providers", "tool_runtime") <= ListAt(r, "providers", "tool_runtime")
            && (forall k | k != "apis" && k != "providers" :: (k in r <==> k in root) && (k in r ==> r[k] == root[k]))
            && forall inner | inner != "tool_runtime" :: Sub(r, "providers", inner) == Sub(root, "providers", inner)
  {
    var apis := GetOr(root, "apis", List([]));
    var has := Has(apis, "tool_runtime").value;
    var apis' := if has then apis else List(apis.items + [Str("tool_runtime")]);
    assert Has(apis', "tool_runtime") == Ok(true);
    var r, start := McpToolRuntime(root).value, root["apis" := apis'];
    UpdateSets(start, "providers", "tool_runtime", WithMcp());
    SubElsewhere(root, start, "providers", "tool_runtime");
    McpRowAdded(Sub(root, "providers", "tool_runtime").value);
    hide WithMcp, HasMcp;
    UpdateNeedsMap(start, "providers", "tool_runtime", WithMcp());
    forall inner | inner != "tool_runtime" ensures Sub(r, "providers", inner) == Sub(root, "providers", inner) {
      SubElsewhere(root, start, "providers", inner);
      SiblingStays(start, r, "providers", "tool_runtime", inner, Sub(r, "providers", "tool_runtime").value.value);
    }
  }

  lemma McpRowAdded(prev: Option<Value>)
    requires WithMcp()(prev).Ok?
    ensures var v := WithMcp()(prev).value;
            && v.List? && HasMcp(v.items)
            && (if prev.Some? && prev.value.List? then prev.value.items else []) <= v.items
  {
    var rows := if prev.Some? then prev.value else List([]);
    if HasMcp(Elements(rows).value) {
      var item :| item in Elements(rows).value && IsEntryOf(item, MCP_ID);
      assert item.Map?;
    } else {
      assert McpEntry() in WithMcp()(prev).value.items && IsEntryOf(McpEntry(), MCP_ID);
    }
  }

  /** The MCP pass is idempotent. */
  lemma McpTwice(root: Section)
    requires McpToolRuntime(root).Ok?
    ensures McpToolRuntime(McpToolRuntime(root).value) == McpToolRuntime(root)
  {
    var apis := GetOr(root, "apis", List([]));
    var apis' := if Has(apis, "tool_runtime").value then apis else List(apis.items + [Str("tool_runtime")]);
    var r := McpToolRuntime(root).value;
    McpRowStays(Sub(root["apis" := apis'], "providers", "tool_runtime").value);
    hide Sub, Update, WithMcp;
    UpdateSets(root["apis" := apis'], "providers", "tool_runtime", WithMcp());
    assert r["apis"] == apis' && r["apis" := apis'] == r;
    UpdateAgain(r, "providers", "tool_runtime", WithMcp(), Sub(r, "providers", "tool_runtime").value.value);
  }

  lemma McpRowStays(prev: Option<Value>)
    requires WithMcp()(prev).Ok?
    ensures var v := WithMcp()(prev).value; WithMcp()(Some(v)) == Ok(v)
  {
    var v := WithMcp()(prev).value;
    var rows := if prev.Some? then prev.value else List([]);
    if !HasMcp(Elements(rows).value) {
      assert McpEntry() in v.items && IsEntryOf(McpEntry(), MCP_ID);
    }
  }

  // ----- declared vector stores --------------------------------------------

  lemma PlannedEntry(h: Host, id: string, entry: Value, backends: Value, next: Value)
    requires PlanOf(h, id, entry).Ok? && Strip(id) == id
    requires var b := PlanOf(h, id, entry).value.backend;
             Ok(next) == if b.None? then Ok(backends) else SetAt(backends, VsStorageName(id), b.value)
    ensures var e := PlanOf(h, id, entry).value.entry;
            IsEntryOf(e, id) && e.Map? && ProviderKey(h, e) == id && PersistsIn(BackendMap(next), e)
    ensures forall e :: PersistsIn(BackendMap(backends), e) ==> PersistsIn(BackendMap(next), e)
  {
    hide FieldOr;
  }

  lemma {:induction false} FirstWithOfSnoc(h: Host, items: seq<Value>, item: Value, key: string)
    ensures FirstWith(h, items + [item], key)
         == if FirstWith(h, items, key).Some? then FirstWith(h, items, key)
            else if ProviderKey(h, item) == key then Some(item) else None
  {
    hide ProviderKey;
    if items == [] {
      assert ([] + [item])[1..] == [];
    } else {
      assert (items + [item])[1..] == items[1..] + [item];
      FirstWithOfSnoc(h, items[1..], item, key);
    }
  }

  lemma OneUnfolds(h: Host, p: Progress, entry: Value, id: string)
    requires EnrichOne(h, p, entry).Ok? && DeclaredId(h, entry) == Ok(id)
    ensures var n, plan := EnrichOne(h, p, entry).value, PlanOf(h, id, entry);
            && plan.Ok? && Strip(id) == id && n.known == p.known + {id}
            && Ok(n.backends) == (if plan.value.backend.None? then Ok(p.backends)
                                  else SetAt(p.backends, VsStorageName(id), plan.value.backend.value))
            && n.vectorIo == if id !in p.known then p.vectorIo + [plan.value.entry]
                             else ReplaceFirst(p.vectorIo, id, plan.value.entry)
  {
    StripStripped(Text(h, At(entry, "id").value));
    hide PlanOf, Strip, UpsertModel, ReplaceFirst, SetAt;
  }

  // ----- the whole pass ----------------------------------------------------

  /** The three sections a finished loop is stored into. */
  lemma StoredSections(root: Section, p: Progress)
    requires Store(root, p).Ok?
    ensures var r := Store(root, p).value;
            && Sub(r, "storage", "backends") == Ok(Some(p.backends))
            && Sub(r, "providers", "vector_io") == Ok(Some(List(p.vectorIo)))
            && Sub(r, "registered_resources", "models") == Ok(Some(p.models))
  {
  }

  lemma DefaultsKeepSections(h: Host, root: Section, designated: Option<Value>)
    requires WithDefaults(h, root, designated).Ok?
    ensures var r := WithDefaults(h, root, designated).value;
            forall outer, inner | outer != "vector_stores" :: Sub(r, outer, inner) == Sub(root, outer, inner)
  {
    hide DeclaredId;
  }

  lemma DedupeKeepsOthers(h: Host, root: Section)
    requires Dedupe(h, root).Ok?
    ensures var r := Dedupe(h, root).value;
            && Sub(r, "storage", "backends") == Sub(root, "storage", "backends")
            && Sub(r, "registered_resources", "models") == Sub(root, "registered_resources", "models")
            && GetOr(r, "vector_stores", Null) == GetOr(root, "vector_stores", Null)
  {
    hide Sub;
    DedupeShape(h, root);
    SubElsewhere(root, Dedupe(h, root).value, "storage", "backends");
    SubElsewhere(root, Dedupe(h, root).value, "registered_resources", "models");
  }

  /** The loop's result, as the final config shows it. */
  lemma FinalSections(h: Host, root: Section, p: Progress, designated: Option<Value>)
    requires Store(root, p).Ok? && WithDefaults(h, Store(root, p).value, designated).Ok?
    requires Dedupe(h, WithDefaults(h, Store(root, p).value, designated).value).Ok?
    ensures var r := Dedupe(h, WithDefaults(h, Store(root, p).value, designated).value).value;
            && Sub(r, "providers", "vector_io") == Ok(Some(List(DedupeList(h, p.vectorIo))))
            && ListAt(r, "providers", "vector_io") == DedupeList(h, p.vectorIo)
            && Sub(r, "storage", "backends") == Ok(Some(p.backends))
            && Sub(r, "registered_resources", "models") == Ok(Some(p.models))
            && GetOr(r, "vector_stores", Null)
              == GetOr(WithDefaults(h, Store(root, p).value, designated).value, "vector_stores", Null)
  {
    hide Sub, Store, WithDefaults, DedupeList, Dedupe;
    StoredSections(root, p);
    var done := WithDefaults(h, Store(root, p).value, designated).value;
    DefaultsKeepSections(h, Store(root, p).value, designated);
    DedupeKeepsOthers(h, done);
    DedupeShape(h, done);
    SubIsEntry(done, List(p.vectorIo));
    SubAfterPut(done, done["providers"].entries["vector_io" := List(DedupeList(h, p.vectorIo))],
                List(DedupeList(h, p.vectorIo)));
  }

  const LOOP_SECTIONS := {("storage", "backends"), ("providers", "vector_io"), ("registered_resources", "models")}
  const DEFAULT_KEYS := {("vector_stores", "default_provider_id"), ("vector_stores", "default_embedding_model")}

  /** Every nested section outside `vector_stores` and the given ones is as before. */
  ghost predicate SameElsewhere(a: Section, b: Section, owned: set<(string, string)>) {
    forall outer: string, inner: string | outer != "vector_stores" && (outer, inner) !in owned ::
      Sub(b, outer, inner) == Sub(a, outer, inner)
  }

  lemma StoreFrame(root: Section, p: Progress)
    requires Store(root, p).Ok?
    ensures SameOutside(root, Store(root, p).value, LOOP_SECTIONS)
  {
    hide Sub, PutSub, SameOutside;
    var r1 := PutSub(root, "storage", "backends", p.backends).value;
    var r2 := PutSub(r1, "providers", "vector_io", List(p.vectorIo)).value;
    PutFrame(root, "storage", "backends", p.backends);
    PutFrame(r1, "providers", "vector_io", List(p.vectorIo));
    PutFrame(r2, "registered_resources", "models", p.models);
    FrameThen(root, r1, r2, {("storage", "backends")}, {("providers", "vector_io")});
    FrameThen(root, r2, Store(root, p).value, {("storage", "backends")} + {("providers", "vector_io")},
              {("registered_resources", "models")});
    assert {("storage", "backends")} + {("providers", "vector_io")} + {("registered_resources", "models")}
      == LOOP_SECTIONS;
  }

  lemma DedupeFrame(h: Host, root: Section)
    requires Dedupe(h, root).Ok?
    ensures SameOutside(root, Dedupe(h, root).value, {("providers", "vector_io")})
  {
    hide Sub, DedupeList;
    var raw := Sub(root, "providers", "vector_io").value;
    if raw.Some? && raw.value.List? {
      hide PutSub;
      PutFrame(root, "providers", "vector_io", List(DedupeList(h, raw.value.items)));
    }
  }

  lemma DefaultsFrame(h: Host, root: Section, designated: Option<Value>)
    requires WithDefaults(h, root, designated).Ok?
    ensures SameElsewhere(root, WithDefaults(h, root, designated).value, {})
    ensures GetOr(root, "vector_stores", EMPTY).Map? ==>
              SameOutside(root, WithDefaults(h, root, designated).value, DEFAULT_KEYS)
  {
    hide DeclaredId, VsEmbeddingName;
  }

  /**
   * The pass owns three nested sections and the two default keys of `vector_stores`; everything else is as before,
   * except that a `vector_stores` section that is no mapping gives way to one.
   */
  lemma VectorStoreOwns(h: Host, section: Value, root: Section)
    requires VectorStore(h, section, root).Ok?
    ensures var r := VectorStore(h, section, root).value;
            && SameElsewhere(root, r, LOOP_SECTIONS)
            && (GetOr(root, "vector_stores", EMPTY).Map? ==> SameOutside(root, r, LOOP_SECTIONS + DEFAULT_KEYS))
            && forall k | k !in {"storage", "providers", "registered_resources", "vector_stores"} ::
                 (k in r <==> k in root) && (k in r ==> r[k] == root[k])
  {
    VectorStoreKeepsKeys(h, section, root);
    hide EnrichEach, Designated, Begin, DeclaredId, Store, WithDefaults, Dedupe, Sub;
    var vs := if Truthy(section) then section else EMPTY;
    var providers := GetOr(vs.entries, "providers", Null);
    if !Truthy(providers) {
      DedupeFrame(h, root);
    } else {
      var end := EnrichEach(h, Begin(h, root).value, Elements(providers).value).value;
      var designated := Designated(h, Elements(providers).value, GetOr(vs.entries, "default_provider", Null)).value;
      var stored := Store(root, end).value;
      var done := WithDefaults(h, stored, designated).value;
      StoreFrame(root, end);
      StoreKeepsDefaults(root, end);
      DefaultsFrame(h, stored, designated);
      DedupeFrame(h, done);
    }
  }

  lemma StoreKeepsDefaults(root: Section, p: Progress)
    requires Store(root, p).Ok?
    ensures GetOr(Store(root, p).value, "vector_stores", EMPTY) == GetOr(root, "vector_stores", EMPTY)
  {
  }

  lemma VectorStoreKeepsKeys(h: Host, section: Value, root: Section)
    requires VectorStore(h, section, root).Ok?
    ensures var r := VectorStore(h, section, root).value;
            forall k | k !in {"storage", "providers", "registered_resources", "vector_stores"} ::
              (k in r <==> k in root) && (k in r ==> r[k] == root[k])
  {
    hide EnrichEach, Designated, Begin, DedupeList, DeclaredId;
  }

  predicate Declares(section: Value, entries: seq<Value>) {
    && section.Map? && Truthy(GetOr(section.entries, "providers", Null))
    && Elements(GetOr(section.entries, "providers", Null)) == Ok(entries)
  }

  lemma BeginReadsList(h: Host, root: Section)
    requires Begin(h, root).Ok?
    ensures var p := Begin(h, root).value;
            p.vectorIo == ListAt(root, "providers", "vector_io") && p.known == KnownIds(h, p.vectorIo)
  {
    hide KnownIds;
  }

  /** The entry names an embedding model and gives its dimension. */
  predicate Embeds(entry: Value) {
    entry.Map? && Truthy(GetOr(entry.entries, "embedding_model", Null))
    && GetOr(entry.entries, "embedding_dimension", Null) != Null
  }
}
