/** Which providers, models and backends exist after the whole enrichment: exactly, in terms of the config before it. */
module Existence {
  import opened Wrappers
  import opened PyText
  import opened Yaml
  import opened VectorIo
  import opened Enrichment
  import opened PassOrder
  import opened HighLevelLaws
  import opened ModeEquivalence
  import opened ByokLaws
  import opened SolrLaws
  import opened VectorStores
  import opened VectorStoreLaws
  import opened VectorStoreTwice
  import opened Writes
  import opened Pipelines

  function StoreRows(root: Section): seq<Value> {
    ListAt(root, "registered_resources", "vector_stores")
  }

  function Models(root: Section): seq<Value> {
    ListAt(root, "registered_resources", "models")
  }

  /** Some entry has exactly this id. */
  predicate ProviderExists(root: Section, id: string) {
    HasRow(Providers(root), "provider_id", Str(id))
  }

  /** Among distinct ids, an id exists exactly if the first entry under its stripped form has it. */
  lemma ExistsIfFirst(h: Host, items: seq<Value>, id: string)
    requires Unique(h, items) && Strip(id) != ""
    ensures HasRow(items, "provider_id", Str(id))
       <==> FirstWith(h, items, Strip(id)).Some? && IsEntryOf(FirstWith(h, items, Strip(id)).value, id)
  {
    FirstWithIsKey(h, items, Strip(id));
    forall row <- items | IsEntryOf(row, id) ensures FirstWith(h, items, Strip(id)) == Some(row) {
      assert ProviderKey(h, row) == Strip(id);
      hide ProviderKey, IsEntryOf, Strip;
      KeyOfMember(h, items, row);
      OneUnderKey(h, items, row, FirstWith(h, items, Strip(id)).value);
    }
  }

  lemma OneUnderKey(h: Host, items: seq<Value>, a: Value, b: Value)
    requires Unique(h, items) && a in items && b in items
    requires ProviderKey(h, a) == ProviderKey(h, b) && ProviderKey(h, a) != ""
    ensures a == b
  {
    hide ProviderKey;
    var i :| 0 <= i < |items| && items[i] == a;
    var j :| 0 <= j < |items| && items[j] == b;
  }

  // ----- BYOK --------------------------------------------------------------

  /** One store adds one entry with its id, unless that id is known. */
  lemma ProviderStep(h: Host, items: seq<Value>, known: set<string>, s: Value) returns (added: seq<Value>)
    requires AddProvider(h, items, known, s).Ok?
    ensures AddProvider(h, items, known, s).value == (items + added, known + {ByokId(h, s)})
    ensures if ByokId(h, s) in known then added == []
            else |added| == 1 && IsEntryOf(added[0], ByokId(h, s)) && ProviderKey(h, added[0]) == ByokId(h, s)
  {
    hide ProviderKey, VectorIoConfig, RagType, ProviderEntry, Strip;
    var id := ByokId(h, s);
    if id in known {
      added := [];
      assert items + [] == items && known + {id} == known;
    } else {
      var kind := RagType(h, s).value;
      var config := VectorIoConfig(kind, StorageName(Strip(RagText(h, s))), s).value;
      ByokIdIsKey(h, RagText(h, s), kind, config);
      EntryIsMap(id, kind, config);
      added := [ProviderEntry(id, kind, config)];
    }
  }

  predicate ByokNames(h: Host, stores: seq<Value>, id: string) {
    exists s <- stores :: ByokId(h, s) == id
  }

  lemma {:induction false} FirstAfterProviders(h: Host, items: seq<Value>, known: set<string>, stores: seq<Value>,
                                               key: string)
    requires AddProviders(h, items, known, stores).Ok? && key != ""
    requires key in known <==> FirstWith(h, items, key).Some?
    ensures var first := FirstWith(h, AddProviders(h, items, known, stores).value, key);
            if FirstWith(h, items, key).Some? then first == FirstWith(h, items, key)
            else (first.Some? <==> ByokNames(h, stores, key)) && (first.Some? ==> IsEntryOf(first.value, key))
    decreases stores
  {
    hide AddProvider, ByokId, ProviderKey, IsEntryOf, FirstWith;
    if stores != [] {
      var s, rest := stores[0], stores[1..];
      var added := ProviderStep(h, items, known, s);
      if added == [] {
        assert items + [] == items;
      } else {
        FirstWithOfSnoc(h, items, added[0], key);
        assert items + added == items + [added[0]];
      }
      FirstAfterProviders(h, items + added, known + {ByokId(h, s)}, rest, key);
      assert forall x :: x in stores <==> x == s || x in rest;
    }
  }

  lemma ByokFirst(h: Host, stores: seq<Value>, root: Section, key: string)
    requires Byok(h, List(stores), root).Ok? && key != ""
    ensures var first := First(h, Byok(h, List(stores), root).value, key);
            if First(h, root, key).Some? then first == First(h, root, key)
            else (first.Some? <==> ByokNames(h, stores, key)) && (first.Some? ==> IsEntryOf(first.value, key))
  {
    hide Byok, Sub, Dedupe, DedupeFrom, ProviderKey, AddProviders, IsEntryOf, ByokId, FirstWith;
    FirstWithAfterDedupe(h, Providers(root), {}, key);
    if stores == [] {
      NoStoresDedupe(h, root);
      DedupedProviders(h, root);
    } else {
      ByokSections(h, stores, root);
      ItemsAreDeduped(h, root);
      var items := DedupeList(h, Providers(root));
      FirstWithIsKey(h, items, key);
      FirstAfterProviders(h, items, Keys(h, items), stores, key);
    }
  }

  lemma NoStoresDedupe(h: Host, root: Section)
    ensures Byok(h, List([]), root) == Dedupe(h, root)
  {
  }

  lemma ItemsAreDeduped(h: Host, root: Section)
    requires Sub(root, "providers", "vector_io").Ok?
    ensures VectorIoItems(h, Sub(root, "providers", "vector_io").value) == DedupeList(h, Providers(root))
  {
    hide DedupeFrom;
    DedupeNothing(h, {});
  }

  lemma DedupedProviders(h: Host, root: Section)
    requires Dedupe(h, root).Ok?
    ensures Providers(Dedupe(h, root).value) == DedupeList(h, Providers(root))
  {
    hide DedupeFrom;
    DedupeShape(h, root);
    DedupeNothing(h, {});
    var raw := Sub(root, "providers", "vector_io").value;
    if raw.Some? && raw.value.List? {
      var deduped := List(DedupeList(h, raw.value.items));
      SubAfterPut(root, root["providers"].entries["vector_io" := deduped], deduped);
    }
  }

  lemma DedupeKeepsLookups(h: Host, root: Section)
    requires Dedupe(h, root).Ok?
    ensures var r := Dedupe(h, root).value;
            Models(r) == Models(root) && BackendsIn(r) == BackendsIn(root) && StoreRows(r) == StoreRows(root)
  {
    hide Dedupe, Sub;
    DedupeShape(h, root);
    var r := Dedupe(h, root).value;
    SubElsewhere(root, r, "registered_resources", "vector_stores");
    SubElsewhere(root, r, "registered_resources", "models");
    SubElsewhere(root, r, "storage", "backends");
  }

  lemma DedupedFirst(h: Host, root: Section, key: string)
    requires Dedupe(h, root).Ok? && key != ""
    ensures First(h, Dedupe(h, root).value, key) == First(h, root, key)
  {
    hide Dedupe, DedupeFrom, ProviderKey, FirstWith;
    FirstWithAfterDedupe(h, Providers(root), {}, key);
    DedupedProviders(h, root);
  }

  // ----- Solr --------------------------------------------------------------

  lemma SolrFirst(h: Host, i: Inputs, root: Section, key: string)
    requires Solr(h, i.inline, i.tool, i.okp, root).Ok? && key != ""
    ensures var first := First(h, Solr(h, i.inline, i.tool, i.okp, root).value, key);
            if First(h, root, key).Some? then first == First(h, root, key)
            else (first.Some? <==> OkpEnabled(i.inline, i.tool) == Ok(true) && key == SOLR_ID)
                 && (first.Some? ==> IsEntryOf(first.value, key))
  {
    hide SolrEnabled, OkpEnabled, FirstWith, IsEntryOf, SolrProvider;
    if OkpEnabled(i.inline, i.tool) == Ok(true) {
      var okp := i.okp.entries;
      var url, filter := GetOr(okp, "rhokp_url", Null), GetOr(okp, "chunk_filter_query", Null);
      var row := SolrProvider(h, url, filter);
      SolrRowKey(h, url, filter);
      SolrListed(h, okp, root);
      FirstWithOfSnoc(h, Providers(root), row, key);
      RowIsEntry(row);
      if HasRow(Providers(root), "provider_id", Str(SOLR_ID)) {
        RowIsFound(h, Providers(root));
        assert Providers(root) + [] == Providers(root);
      }
    }
  }

  lemma RowIsEntry(row: Value)
    requires row.Map? && GetOr(row.entries, "provider_id", Null) == Str(SOLR_ID)
    ensures IsEntryOf(row, SOLR_ID)
  {
  }

  lemma {:induction false} RowIsFound(h: Host, items: seq<Value>)
    requires HasRow(items, "provider_id", Str(SOLR_ID))
    ensures FirstWith(h, items, SOLR_ID).Some?
  {
    var row :| row in items && row.Map? && GetOr(row.entries, "provider_id", Null) == Str(SOLR_ID);
    ExactIdIsKey(h, row);
    hide ProviderKey, FirstWith;
    KeyOfMember(h, items, row);
    FirstWithIsKey(h, items, SOLR_ID);
  }

  /** The Solr provider is appended exactly if no entry has its id. */
  lemma SolrListed(h: Host, okp: Section, root: Section)
    requires SolrEnabled(h, okp, root).Ok?
    ensures Providers(SolrEnabled(h, okp, root).value)
         == Providers(root)
            + if HasRow(Providers(root), "provider_id", Str(SOLR_ID)) then []
              else [SolrProvider(h, GetOr(okp, "rhokp_url", Null), GetOr(okp, "chunk_filter_query", Null))]
  {
    var url, filter := GetOr(okp, "rhokp_url", Null), GetOr(okp, "chunk_filter_query", Null);
    SolrRowKey(h, url, filter);
    hide SolrEnabled, Sub, SolrProvider, WithRow, HasRow;
    SolrSections(h, okp, root);
    UpdatesAreRows(h, okp);
    RowAppended(root, SolrEnabled(h, okp, root).value, "providers", "vector_io", "provider_id", Str(SOLR_ID),
                SolrProvider(h, url, filter));
  }

  // ----- declared vector stores: the loop ----------------------------------

  lemma {:induction false} FirstAfterReplace(h: Host, items: seq<Value>, id: string, entry: Value, key: string)
    requires IsEntryOf(entry, id) && ProviderKey(h, entry) == id && Strip(id) == id && key != ""
    ensures FirstWith(h, ReplaceFirst(items, id, entry), key)
         == if key == id && FirstWith(h, items, id).Some? && !ShadowedIn(h, items, id) then Some(entry)
            else FirstWith(h, items, key)
  {
    if items != [] {
      var head, rest := items[0], items[1..];
      IdIsKey(h, head, id);
      hide ProviderKey, IsEntryOf;
      assert [head] + rest == items;
      ReplaceOfCons(head, rest, id, entry);
      FirstOfCons(h, head, rest, key);
      FirstOfCons(h, head, rest, id);
      FirstOfCons(h, entry, rest, key);
      FirstOfCons(h, head, ReplaceFirst(rest, id, entry), key);
      FirstAfterReplace(h, rest, id, entry, key);
    }
  }

  lemma FirstOfCons(h: Host, head: Value, rest: seq<Value>, key: string)
    ensures FirstWith(h, [head] + rest, key)
            == if ProviderKey(h, head) == key then Some(head) else FirstWith(h, rest, key)
  {
    assert ([head] + rest)[1..] == rest;
  }

  lemma ExactIsKnown(h: Host, p: Progress, id: string)
    requires Indexed(h, p) && id != "" && Strip(id) == id
    ensures id in p.known ==> FirstWith(h, p.vectorIo, id).Some?
    ensures FirstWith(h, p.vectorIo, id).Some? && !ShadowedIn(h, p.vectorIo, id) ==> id in p.known
  {
    hide IsEntryOf, ProviderKey, Strip, FirstWith;
    FirstWithIsKey(h, p.vectorIo, id);
  }

  /** The planned entry becomes the first one under its id, unless that id is shadowed; other ids keep theirs. */
  lemma OneFirst(h: Host, p: Progress, e: Value, key: string)
    requires Indexed(h, p) && EnrichOne(h, p, e).Ok? && key != ""
    ensures var id := DeclaredId(h, e).value;
            FirstWith(h, EnrichOne(h, p, e).value.vectorIo, key)
            == if id == key && !ShadowedIn(h, p.vectorIo, key) then Some(PlanOf(h, id, e).value.entry)
               else FirstWith(h, p.vectorIo, key)
    ensures PlanOf(h, DeclaredId(h, e).value, e).Ok?
    ensures IsEntryOf(PlanOf(h, DeclaredId(h, e).value, e).value.entry, DeclaredId(h, e).value)
  {
    hide EnrichOne, DeclaredId, PlanOf, BackendsWith, ModelsWith, IsEntryOf, ProviderKey, Strip, ReplaceFirst,
      FirstWith, Indexed;
    OneIsParts(h, p, e);
    var id := DeclaredId(h, e).value;
    var plan := PlanOf(h, id, e).value;
    if id == key {
      ExactIsKnown(h, p, id);
    }
    if id in p.known {
      FirstAfterReplace(h, p.vectorIo, id, plan.entry, key);
    } else {
      FirstWithOfSnoc(h, p.vectorIo, plan.entry, key);
    }
  }

  /** The last declared entry with this id. */
  function LastDeclared(h: Host, entries: seq<Value>, id: string): Option<Value> {
    if entries == [] then None
    else
      var later := LastDeclared(h, entries[1..], id);
      if later.Some? then later else if DeclaredId(h, entries[0]) == Ok(id) then Some(entries[0]) else None
  }

  lemma {:induction false} LastIsDeclared(h: Host, entries: seq<Value>, id: string)
    ensures var last := LastDeclared(h, entries, id);
            && (last.Some? <==> exists e <- entries :: DeclaredId(h, e) == Ok(id))
            && (last.Some? ==> last.value in entries && DeclaredId(h, last.value) == Ok(id))
  {
    hide DeclaredId;
    if entries != [] {
      LastIsDeclared(h, entries[1..], id);
      assert forall x :: x in entries <==> x == entries[0] || x in entries[1..];
    }
  }

  /** What is in force for an id after the loop: the last declared entry, unless the id was shadowed before. */
  lemma {:induction false} AllFirst(h: Host, p: Progress, entries: seq<Value>, key: string)
    requires Indexed(h, p) && EnrichEach(h, p, entries).Ok? && key != ""
    ensures var last := LastDeclared(h, entries, key);
            && (last.Some? ==> PlanOf(h, key, last.value).Ok? && IsEntryOf(PlanOf(h, key, last.value).value.entry, key))
            && FirstWith(h, EnrichEach(h, p, entries).value.vectorIo, key)
               == if last.Some? && !ShadowedIn(h, p.vectorIo, key) then Some(PlanOf(h, key, last.value).value.entry)
                  else FirstWith(h, p.vectorIo, key)
    decreases entries
  {
    hide EnrichOne, DeclaredId, PlanOf, IsEntryOf, FirstWith, Indexed;
    if entries != [] {
      OneHasName(h, p, entries[0]);
      OneFirst(h, p, entries[0], key);
      IndexedStays(h, p, entries[0]);
      AllFirst(h, EnrichOne(h, p, entries[0]).value, entries[1..], key);
    }
  }

  // ----- declared vector stores: backends and models -----------------------

  /** The declared provider needs a storage backend of its own. */
  predicate OwnsBackend(h: Host, e: Value) {
    && DeclaredId(h, e).Ok? && PlanOf(h, DeclaredId(h, e).value, e).Ok?
    && PlanOf(h, DeclaredId(h, e).value, e).value.backend.Some?
  }

  predicate DeclaresBackend(h: Host, entries: seq<Value>, name: string) {
    exists e <- entries :: OwnsBackend(h, e) && VsStorageName(DeclaredId(h, e).value) == name
  }

  lemma {:induction false} AllBackends(h: Host, p: Progress, entries: seq<Value>, name: string)
    requires EnrichEach(h, p, entries).Ok?
    ensures name in BackendMap(EnrichEach(h, p, entries).value.backends)
       <==> name in BackendMap(p.backends) || DeclaresBackend(h, entries, name)
    decreases entries
  {
    hide EnrichOne, DeclaredId, PlanOf, VsStorageName, ModelsWith, EntriesWith, IsEntryOf, ProviderKey, Strip;
    if entries != [] {
      OneIsParts(h, p, entries[0]);
      AllBackends(h, EnrichOne(h, p, entries[0]).value, entries[1..], name);
      assert forall x :: x in entries <==> x == entries[0] || x in entries[1..];
    }
  }

  /** A row with this model id is registered. */
  predicate Registered(models: seq<Value>, name: string) {
    HasRow(models, "model_id", Str(name))
  }

  function ItemsOf(v: Value): seq<Value> {
    if v.List? then v.items else []
  }

  predicate DeclaresModel(h: Host, entries: seq<Value>, name: string) {
    exists e <- entries :: Embeds(e) && DeclaredId(h, e).Ok? && VsEmbeddingName(DeclaredId(h, e).value) == name
  }

  lemma {:induction false} RegisteredAfterUpsert(rows: seq<Value>, modelId: string, row: Value, name: string)
    requires UpsertIn(rows, modelId, row).Ok? && row.Map? && GetOr(row.entries, "model_id", Null) == Str(modelId)
    ensures Registered(UpsertIn(rows, modelId, row).value, name) <==> Registered(rows, name) || name == modelId
  {
    if rows == [] {
      RegisteredOfCons(row, [], name);
      assert [row] + [] == [row];
    } else {
      RegisteredOfCons(rows[0], rows[1..], name);
      assert [rows[0]] + rows[1..] == rows;
      if GetOr(rows[0].entries, "model_id", Null) == Str(modelId) {
        RegisteredOfCons(row, rows[1..], name);
      } else {
        RegisteredAfterUpsert(rows[1..], modelId, row, name);
        RegisteredOfCons(rows[0], UpsertIn(rows[1..], modelId, row).value, name);
      }
    }
  }

  lemma RegisteredOfCons(row: Value, rest: seq<Value>, name: string)
    ensures Registered([row] + rest, name)
       <==> (row.Map? && GetOr(row.entries, "model_id", Null) == Str(name)) || Registered(rest, name)
  {
    assert forall x :: x in [row] + rest <==> x == row || x in rest;
  }

  lemma RegisteredOfConcat(a: seq<Value>, b: seq<Value>, name: string)
    ensures Registered(a + b, name) <==> Registered(a, name) || Registered(b, name)
  {
    assert forall x :: x in a + b <==> x in a || x in b;
  }

  lemma RegisteredWith(id: string, e: Value, models: Value, name: string)
    requires ModelsWith(id, e, models).Ok?
    ensures Registered(ItemsOf(ModelsWith(id, e, models).value), name)
       <==> Registered(ItemsOf(models), name) || (Embeds(e) && VsEmbeddingName(id) == name)
  {
    hide UpsertIn, EmbeddingRow, VsEmbeddingName, Registered;
    if Embeds(e) {
      var model, dimension := GetOr(e.entries, "embedding_model", Null).s,
        GetOr(e.entries, "embedding_dimension", Null);
      ModelRowIs(VsEmbeddingName(id), model, dimension);
      RegisteredAfterUpsert(models.items, VsEmbeddingName(id), EmbeddingRow(VsEmbeddingName(id), model, dimension),
                            name);
    }
  }

  lemma ModelRowIs(modelId: string, path: string, dimension: Value)
    ensures var row := EmbeddingRow(modelId, path, dimension);
            && row.Map? && GetOr(row.entries, "model_id", Null) == Str(modelId)
            && GetOr(row.entries, "provider_model_id", Null) == Str(RemovePrefix(path, TRANSFORMERS))
  {
  }

  lemma {:induction false} AllRegistered(h: Host, p: Progress, entries: seq<Value>, name: string)
    requires EnrichEach(h, p, entries).Ok?
    ensures Registered(ItemsOf(EnrichEach(h, p, entries).value.models), name)
       <==> Registered(ItemsOf(p.models), name) || DeclaresModel(h, entries, name)
    decreases entries
  {
    hide EnrichOne, DeclaredId, PlanOf, VsEmbeddingName, ModelsWith, EntriesWith, BackendsWith, IsEntryOf,
      ProviderKey, Strip, Registered, Embeds;
    if entries != [] {
      OneIsParts(h, p, entries[0]);
      RegisteredWith(DeclaredId(h, entries[0]).value, entries[0], p.models, name);
      AllRegistered(h, EnrichOne(h, p, entries[0]).value, entries[1..], name);
      assert forall x :: x in entries <==> x == entries[0] || x in entries[1..];
    }
  }

  lemma PlanResolves(h: Host, id: string, e: Value, backends: Value, next: Value)
    requires PlanOf(h, id, e).Ok? && Strip(id) == id && BackendsWith(id, PlanOf(h, id, e).value, backends) == Ok(next)
    ensures PersistsIn(BackendMap(next), PlanOf(h, id, e).value.entry)
    ensures forall x :: PersistsIn(BackendMap(backends), x) ==> PersistsIn(BackendMap(next), x)
  {
    hide PlanOf, Strip, PersistsIn, IsEntryOf, ProviderKey, SetAt;
    PlannedEntry(h, id, e, backends, next);
  }

  /** What the last declared entry for an id persists to exists after the loop. */
  lemma {:induction false} LastResolves(h: Host, p: Progress, entries: seq<Value>, id: string)
    requires EnrichEach(h, p, entries).Ok?
    ensures var n, last := EnrichEach(h, p, entries).value, LastDeclared(h, entries, id);
            && (forall x :: PersistsIn(BackendMap(p.backends), x) ==> PersistsIn(BackendMap(n.backends), x))
            && (last.Some? ==>
                  && PlanOf(h, id, last.value).Ok?
                  && PersistsIn(BackendMap(n.backends), PlanOf(h, id, last.value).value.entry))
    decreases entries
  {
    hide EnrichOne, DeclaredId, PlanOf, BackendsWith, ModelsWith, EntriesWith, IsEntryOf, ProviderKey, Strip,
      PersistsIn;
    if entries != [] {
      OneIsParts(h, p, entries[0]);
      var next, e := EnrichOne(h, p, entries[0]).value, entries[0];
      PlanResolves(h, DeclaredId(h, e).value, e, p.backends, next.backends);
      LastResolves(h, next, entries[1..], id);
    }
  }

  // ----- declared vector stores: the pass ----------------------------------

  /** The declared providers that the pass goes through, if any. */
  function DeclaredIn(section: Value): seq<Value> {
    var vs := if Truthy(section) then section else EMPTY;
    var providers := if vs.Map? then GetOr(vs.entries, "providers", Null) else Null;
    if Truthy(providers) && Elements(providers).Ok? then Elements(providers).value else []
  }

  /** What the loop starts from, and what its result leaves in the config. */
  lemma VectorStoreRuns(h: Host, section: Value, root: Section) returns (p: Progress, n: Progress)
    requires VectorStore(h, section, root).Ok? && DeclaredIn(section) != []
    ensures EnrichEach(h, p, DeclaredIn(section)) == Ok(n) && Indexed(h, p)
    ensures p.vectorIo == Providers(root) && BackendMap(p.backends) == BackendsIn(root)
            && ItemsOf(p.models) == Models(root)
    ensures var r := VectorStore(h, section, root).value;
            Providers(r) == DedupeList(h, n.vectorIo) && BackendsIn(r) == BackendMap(n.backends)
              && Models(r) == ItemsOf(n.models)
  {
    hide EnrichEach, Store, WithDefaults, Dedupe, Sub, Designated, DedupeFrom, Indexed, KnownIds, Begin;
    var entries := DeclaredIn(section);
    p := Begin(h, root).value;
    n := EnrichEach(h, p, entries).value;
    BeginIs(h, root);
    StartIsIndexed(h, p.vectorIo, p.backends, p.models);
    FinalSections(h, root, n, Designated(h, entries, GetOr(section.entries, "default_provider", Null)).value);
    BeginKnows(h, root);
    assert VectorStore(h, section, root) == Dedupe(h, WithDefaults(h, Store(root, n).value,
             Designated(h, entries, GetOr(section.entries, "default_provider", Null)).value).value);
  }

  lemma BeginKnows(h: Host, root: Section)
    requires Begin(h, root).Ok?
    ensures Begin(h, root).value.known == KnownIds(h, Begin(h, root).value.vectorIo)
  {
    hide KnownIds;
  }

  lemma BeginIs(h: Host, root: Section)
    requires Begin(h, root).Ok?
    ensures var p := Begin(h, root).value;
            p.vectorIo == Providers(root) && BackendMap(p.backends) == BackendsIn(root)
              && ItemsOf(p.models) == Models(root)
  {
    hide KnownIds;
  }

  lemma NothingDeclared(h: Host, section: Value, root: Section)
    requires VectorStore(h, section, root).Ok? && DeclaredIn(section) == []
    ensures VectorStore(h, section, root) == Dedupe(h, root)
  {
    hide Begin, EnrichEach, Store, WithDefaults, Dedupe, Designated;
    var vs := if Truthy(section) then section else EMPTY;
    if Truthy(GetOr(vs.entries, "providers", Null)) {
      TruthyHasElements(GetOr(vs.entries, "providers", Null));
    }
  }

  lemma TruthyHasElements(v: Value)
    requires Truthy(v) && Elements(v).Ok?
    ensures Elements(v).value != []
  {
  }

  /** What is in force under an id after the pass. */
  lemma VectorStoreFirst(h: Host, section: Value, root: Section, key: string)
    requires VectorStore(h, section, root).Ok? && key != ""
    ensures var last := LastDeclared(h, DeclaredIn(section), key);
            && (last.Some? ==> PlanOf(h, key, last.value).Ok? && IsEntryOf(PlanOf(h, key, last.value).value.entry, key))
            && First(h, VectorStore(h, section, root).value, key)
               == if last.Some? && !Shadowed(h, root, key) then Some(PlanOf(h, key, last.value).value.entry)
                  else First(h, root, key)
  {
    hide VectorStore, Dedupe, EnrichEach, DedupeFrom, FirstWith, Indexed, PlanOf, IsEntryOf, DeclaredIn;
    if DeclaredIn(section) == [] {
      NothingDeclared(h, section, root);
      DedupedFirst(h, root, key);
    } else {
      var p, n := VectorStoreRuns(h, section, root);
      AllFirst(h, p, DeclaredIn(section), key);
      FirstWithAfterDedupe(h, n.vectorIo, {}, key);
    }
  }

  lemma VectorStoreBackends(h: Host, section: Value, root: Section, name: string)
    requires VectorStore(h, section, root).Ok?
    ensures name in BackendsIn(VectorStore(h, section, root).value)
       <==> name in BackendsIn(root) || DeclaresBackend(h, DeclaredIn(section), name)
  {
    hide VectorStore, Dedupe, EnrichEach, Indexed, OwnsBackend, DeclaredIn;
    if DeclaredIn(section) == [] {
      NothingDeclared(h, section, root);
      DedupeKeepsLookups(h, root);
    } else {
      var p, n := VectorStoreRuns(h, section, root);
      AllBackends(h, p, DeclaredIn(section), name);
    }
  }

  lemma VectorStoreModels(h: Host, section: Value, root: Section, name: string)
    requires VectorStore(h, section, root).Ok?
    ensures Registered(Models(VectorStore(h, section, root).value), name)
       <==> Registered(Models(root), name) || DeclaresModel(h, DeclaredIn(section), name)
  {
    hide VectorStore, Dedupe, EnrichEach, Indexed, Registered, DeclaredIn, Embeds;
    if DeclaredIn(section) == [] {
      NothingDeclared(h, section, root);
      DedupeKeepsLookups(h, root);
    } else {
      var p, n := VectorStoreRuns(h, section, root);
      AllRegistered(h, p, DeclaredIn(section), name);
    }
  }

  /** The last declared entry under an id that is not shadowed persists to a backend that exists. */
  lemma VectorStorePersists(h: Host, section: Value, root: Section, id: string)
    requires VectorStore(h, section, root).Ok? && LastDeclared(h, DeclaredIn(section), id).Some?
    ensures var entry := PlanOf(h, id, LastDeclared(h, DeclaredIn(section), id).value);
            entry.Ok? && Persists(VectorStore(h, section, root).value, entry.value.entry)
  {
    hide VectorStore, EnrichEach, Indexed, DeclaredIn, PlanOf, BackendOf, BackendsIn;
    var p, n := VectorStoreRuns(h, section, root);
    LastResolves(h, p, DeclaredIn(section), id);
  }

  lemma DeclaredIdIsProper(h: Host, entries: seq<Value>, id: string)
    requires LastDeclared(h, entries, id).Some?
    ensures Strip(id) == id
  {
    LastIsDeclared(h, entries, id);
    StripStripped(Text(h, At(LastDeclared(h, entries, id).value, "id").value));
  }

  /**
   * After the pass ids are distinct. A declared provider is in force, under exactly its id and with a backend that
   * exists, exactly if the list did not have another entry under the stripped id; if it did, that entry stays the
   * first one and no provider has the declared id.
   */
  lemma DeclaredProvidersResolve(h: Host, section: Value, root: Section, id: string)
    requires VectorStore(h, section, root).Ok? && id != "" && LastDeclared(h, DeclaredIn(section), id).Some?
    ensures var r := VectorStore(h, section, root).value;
            var plan := PlanOf(h, id, LastDeclared(h, DeclaredIn(section), id).value);
            && plan.Ok? && Unique(h, Providers(r)) && Persists(r, plan.value.entry)
            && (First(h, r, id) == Some(plan.value.entry) && ProviderExists(r, id) <==> !Shadowed(h, root, id))
            && (Shadowed(h, root, id) ==> First(h, r, id) == First(h, root, id) && !ProviderExists(r, id))
  {
    hide VectorStore, DeclaredIn, FirstWith, PlanOf, IsEntryOf, Providers, BackendOf, BackendsIn, LastDeclared, Strip;
    DeclaredIdIsProper(h, DeclaredIn(section), id);
    VectorStoreFirst(h, section, root, id);
    VectorStorePersists(h, section, root, id);
    VectorStoreIsUnique(h, section, root);
    ExistsIfFirst(h, Providers(VectorStore(h, section, root).value), id);
  }

  lemma VectorStoreIsUnique(h: Host, section: Value, root: Section)
    requires VectorStore(h, section, root).Ok?
    ensures Unique(h, Providers(VectorStore(h, section, root).value))
  {
    hide VectorStore, Dedupe, DedupeFrom, EnrichEach, Indexed, Unique;
    if DeclaredIn(section) == [] {
      NothingDeclared(h, section, root);
      DedupedProviders(h, root);
      DedupeLaws(h, Providers(root));
    } else {
      var p, n := VectorStoreRuns(h, section, root);
      DedupeLaws(h, n.vectorIo);
    }
  }

  lemma DeclaredAreSection(section: Value)
    requires DeclaredIn(section) != []
    ensures Declares(section, DeclaredIn(section)) && Truthy(section)
  {
  }

  lemma {:induction false} FoundIsDeclared(h: Host, entries: seq<Value>, cleaned: string)
    requires FindDeclared(h, entries, cleaned).Ok? && FindDeclared(h, entries, cleaned).value.Some? && cleaned != ""
    ensures var d := FindDeclared(h, entries, cleaned).value.value; d in entries && DeclaredId(h, d) == Ok(cleaned)
  {
    assert Strip("") == "";
    if Strip(Text(h, GetOr(entries[0].entries, "id", Str("")))) != cleaned {
      FoundIsDeclared(h, entries[1..], cleaned);
    }
  }

  lemma DesignatedIsOne(h: Host, entries: seq<Value>, default: Value, d: Value)
    requires Designated(h, entries, default) == Ok(Some(d))
    ensures d in entries && DeclaredId(h, d).Ok? && DeclaredId(h, d).value != ""
  {
    hide DeclaredId, FindDeclared;
    FoundIsDeclared(h, entries, Strip(default.s));
  }

  lemma DefaultsWritten(h: Host, section: Value, root: Section, d: Value)
    requires VectorStore(h, section, root).Ok? && DeclaredIn(section) != []
    requires Designated(h, DeclaredIn(section), GetOr(section.entries, "default_provider", Null)) == Ok(Some(d))
    ensures var vs := GetOr(VectorStore(h, section, root).value, "vector_stores", Null);
            && DeclaredId(h, d).Ok? && vs.Map?
              && GetOr(vs.entries, "default_provider_id", Null) == Str(DeclaredId(h, d).value)
            && (d.Map? && Truthy(GetOr(d.entries, "embedding_model", Null)) ==>
                  GetOr(vs.entries, "default_embedding_model", Null) == Map(map[
                    "provider_id" := Str("sentence-transformers"),
                      "model_id" := Str(VsEmbeddingName(DeclaredId(h, d).value))]))
  {
    DeclaredAreSection(section);
    hide EnrichEach, Store, Dedupe, Begin, DeclaredId, Designated, VsEmbeddingName, DeclaredIn;
    var end := EnrichEach(h, Begin(h, root).value, DeclaredIn(section)).value;
    DedupeKeepsOthers(h, WithDefaults(h, Store(root, end).value, Some(d)).value);
  }

  /**
   * The default provider, when one is designated, is a declared one, and exists exactly if its id is not shadowed.
   * The default embedding model, when one is written, is registered exactly if its name was, or an entry declared
   * with this id gives a model with a dimension.
   */
  lemma DefaultsResolve(h: Host, section: Value, root: Section)
    requires VectorStore(h, section, root).Ok? && DeclaredIn(section) != []
    ensures section.Map?
    ensures var r, entries := VectorStore(h, section, root).value, DeclaredIn(section);
            var designated := Designated(h, entries, GetOr(section.entries, "default_provider", Null));
            designated.Ok? && (designated.value.Some? ==> DefaultHolds(h, entries, root, r, designated.value.value))
  {
    DeclaredAreSection(section);
    DesignatedIsOk(h, section, root);
    hide VectorStore, DeclaredIn, Designated, DeclaredId, FirstWith, IsEntryOf, Providers, LastDeclared, Registered,
      DeclaresModel, VsEmbeddingName, Persists, PlanOf;
    var entries := DeclaredIn(section);
    var default := GetOr(section.entries, "default_provider", Null);
    var designated := Designated(h, entries, default).value;
    if designated.Some? {
      DesignatedIsOne(h, entries, default, designated.value);
      var id := DeclaredId(h, designated.value).value;
      LastIsDeclared(h, entries, id);
      DeclaredProvidersResolve(h, section, root, id);
      VectorStoreModels(h, section, root, VsEmbeddingName(id));
      DefaultsWritten(h, section, root, designated.value);
    }
  }

  lemma DesignatedIsOk(h: Host, section: Value, root: Section)
    requires VectorStore(h, section, root).Ok? && Declares(section, DeclaredIn(section))
    ensures Designated(h, DeclaredIn(section), GetOr(section.entries, "default_provider", Null)).Ok?
  {
    hide Begin, EnrichEach, Store, WithDefaults, Dedupe, Designated;
  }

  /** The declared entry is the default, and what that refers to exists exactly as the config before says. */
  predicate DefaultHolds(h: Host, entries: seq<Value>, root: Section, r: Section, d: Value) {
    var vs := GetOr(r, "vector_stores", Null);
    && d in entries && DeclaredId(h, d).Ok? && vs.Map?
    && var id := DeclaredId(h, d).value;
    && GetOr(vs.entries, "default_provider_id", Null) == Str(id)
    && (ProviderExists(r, id) <==> !Shadowed(h, root, id))
    && (d.Map? && Truthy(GetOr(d.entries, "embedding_model", Null)) ==>
          GetOr(vs.entries, "default_embedding_model", Null) == Map(map[
            "provider_id" := Str("sentence-transformers"), "model_id" := Str(VsEmbeddingName(id))]))
    && (Registered(Models(r), VsEmbeddingName(id))
        <==> Registered(Models(root), VsEmbeddingName(id)) || DeclaresModel(h, entries, VsEmbeddingName(id)))
  }

  // ----- a declared provider that is lost ----------------------------------

  const BLANK_LIST := List([Map(map["provider_id" := Str(" a ")])])
  const BLANK_CONFIG: Section := map["providers" := Map(map["vector_io" := BLANK_LIST])]
  const DECLARED_A := Map(map["id" := Str("a"), "type" := Str("faiss"), "config" := Map(map["path" := Str("a.db")])])
  const DECLARING_A := Map(map["providers" := List([DECLARED_A])])

  /** With an entry written `" a "` in the list, declaring `a` has no effect: no provider has that id afterwards. */
  lemma BlankIdHidesDeclared(h: Host)
    ensures DeclaredIn(DECLARING_A) == [DECLARED_A] && DeclaredId(h, DECLARED_A) == Ok("a")
    ensures var r := VectorStore(h, DECLARING_A, BLANK_CONFIG); r.Ok? && !ProviderExists(r.value, "a")
  {
    BlankIsShadow(h);
    BlankConfigIsAccepted(h);
    hide VectorStore;
    assert LastDeclared(h, [DECLARED_A], "a") == Some(DECLARED_A) by {
      assert [DECLARED_A][1..] == [];
    }
    DeclaredProvidersResolve(h, DECLARING_A, BLANK_CONFIG, "a");
  }

  lemma BlankIsShadow(h: Host)
    ensures Shadowed(h, BLANK_CONFIG, "a") && DeclaredId(h, DECLARED_A) == Ok("a")
  {
    StripOfTrimmed("a");
    assert Strip(" a ") == "a" by {
      assert " a "[1..] == "a ";
      assert LStrip(" a ", IsSpace) == "a ";
      assert "a "[..1] == "a";
    }
    assert Providers(BLANK_CONFIG) == BLANK_LIST.items;
    assert ProviderKey(h, BLANK_LIST.items[0]) == "a";
  }

  lemma BlankConfigIsAccepted(h: Host)
    ensures VectorStore(h, DECLARING_A, BLANK_CONFIG).Ok?
  {
    BlankConfigBegins(h);
    DeclaringAIsRead();
    hide Begin, EnrichEach, Store, Dedupe;
    var p := Begin(h, BLANK_CONFIG).value;
    AIsEnriched(h, p);
    var n := EnrichEach(h, p, [DECLARED_A]).value;
    BlankConfigStores(n);
    StoredSections(BLANK_CONFIG, n);
    DedupeFailure(h, Store(BLANK_CONFIG, n).value);
    hide *;
    AfterLoop(h, p, n);
  }

  lemma DeclaringAIsRead()
    ensures Truthy(DECLARING_A) && DECLARING_A.Map? && "default_provider" !in DECLARING_A.entries
    ensures Truthy(DECLARING_A.entries["providers"]) && Elements(DECLARING_A.entries["providers"]) == Ok([DECLARED_A])
  {
  }

  lemma AfterLoop(h: Host, p: Progress, n: Progress)
    requires Begin(h, BLANK_CONFIG) == Ok(p) && EnrichEach(h, p, [DECLARED_A]) == Ok(n)
    requires Store(BLANK_CONFIG, n).Ok? && Dedupe(h, Store(BLANK_CONFIG, n).value).Ok?
    ensures VectorStore(h, DECLARING_A, BLANK_CONFIG).Ok?
  {
    DeclaringAIsRead();
    hide Begin, EnrichEach, Store, Dedupe;
  }

  lemma BlankConfigBegins(h: Host)
    ensures Begin(h, BLANK_CONFIG).Ok? && Begin(h, BLANK_CONFIG).value.backends == EMPTY
  {
    hide KnownIds;
  }

  lemma AIsEnriched(h: Host, p: Progress)
    requires p.backends == EMPTY
    ensures EnrichEach(h, p, [DECLARED_A]).Ok?
  {
    AIsInstalled(h, p);
    hide EnrichOne, DECLARED_A;
    assert [DECLARED_A][1..] == [];
    assert EnrichEach(h, EnrichOne(h, p, DECLARED_A).value, [DECLARED_A][1..]).Ok?;
  }

  lemma AIsInstalled(h: Host, p: Progress)
    requires p.backends == EMPTY
    ensures EnrichOne(h, p, DECLARED_A).Ok?
  {
    BlankIsShadow(h);
    AIsPlanned(h);
    hide PlanOf, DeclaredId, ReplaceFirst;
  }

  lemma AIsPlanned(h: Host)
    ensures PlanOf(h, "a", DECLARED_A).Ok?
  {
  }

  lemma BlankConfigStores(n: Progress)
    ensures Store(BLANK_CONFIG, n).Ok?
  {
  }

  // ----- BYOK and Solr: backends and models --------------------------------

  predicate ByokBackend(h: Host, stores: seq<Value>, name: string) {
    exists s <- stores :: s.Map? && NeedsBackend(h, s) && name == StorageName(RagText(h, s))
  }

  lemma ByokBackends(h: Host, stores: seq<Value>, root: Section, name: string)
    requires Byok(h, List(stores), root).Ok?
    ensures name in BackendsIn(Byok(h, List(stores), root).value)
       <==> name in BackendsIn(root) || ByokBackend(h, stores, name)
  {
    hide Byok, Dedupe, Sub, NeedsBackend, StorageName, RagText;
    if stores == [] {
      NoStoresDedupe(h, root);
      DedupeKeepsLookups(h, root);
    } else if PreviousIsList(root) {
      ListStaysList(h, stores, root);
    } else {
      BackendsAfter(h, stores, root);
    }
  }

  lemma ListStaysList(h: Host, stores: seq<Value>, root: Section)
    requires stores != [] && Byok(h, List(stores), root).Ok? && PreviousIsList(root)
    ensures BackendsIn(Byok(h, List(stores), root).value) == map[]
    ensures forall s <- stores :: !(s.Map? && NeedsBackend(h, s))
  {
    hide Byok, Sub, AddBackends, BackendsOf, NeedsBackend;
    ByokSections(h, stores, root);
    AddBackendsOverlays(h, CopyOf(Sub(root, "storage", "backends").value, EMPTY).value, stores);
    forall s <- stores ensures !(s.Map? && NeedsBackend(h, s)) {
      if s.Map? && NeedsBackend(h, s) {
        SomeBackend(h, stores, s);
      }
    }
  }

  predicate ByokModel(h: Host, stores: seq<Value>, name: string) {
    exists s <- stores :: Truthy(ModelOf(s)) && EmbeddingName(RagText(h, s)) == name
  }

  lemma {:induction false} FoundExactly(rows: seq<Value>, field: string, v: Value)
    requires AnyWith(rows, field, v).Ok?
    ensures AnyWith(rows, field, v).value <==> HasRow(rows, field, v)
  {
    if rows != [] {
      if GetOr(rows[0].entries, field, Null) == v {
        assert rows[0] in rows;
      } else {
        FoundExactly(rows[1..], field, v);
        assert forall x :: x in rows <==> x == rows[0] || x in rows[1..];
      }
    }
  }

  predicate IsModelRowOf(h: Host, s: Value, row: Value) {
    && row.Map? && GetOr(row.entries, "model_id", Null) == Str(EmbeddingName(RagText(h, s)))
    && ModelOf(s).Str? && GetOr(row.entries, "provider_model_id", Null) == Str(PathOf(s))
  }

  /** The path of the model a store gives, as the pass registers it. */
  function PathOf(s: Value): string {
    if ModelOf(s).Str? then RemovePrefix(ModelOf(s).s, TRANSFORMERS) else ""
  }

  /** One store registers its model, if it gives one, unless a row has its name. */
  lemma ModelStep(h: Host, rows: Value, s: Value) returns (added: seq<Value>)
    requires AddModel(h, rows, s).Ok?
    ensures if Truthy(ModelOf(s)) && !Registered(ItemsOf(rows), EmbeddingName(RagText(h, s)))
            then |added| == 1 && IsModelRowOf(h, s, added[0]) else added == []
    ensures ItemsOf(AddModel(h, rows, s).value) == ItemsOf(rows) + added
  {
    hide EmbeddingRow, EmbeddingName;
    added := [];
    assert ItemsOf(rows) + [] == ItemsOf(rows);
    if Truthy(ModelOf(s)) {
      ModelNeedsList(h, rows, s);
      FoundExactly(rows.items, "model_id", Str(EmbeddingName(RagText(h, s))));
      if !Registered(rows.items, EmbeddingName(RagText(h, s))) {
        var dimension := GetOr(s.entries, "embedding_dimension", Null);
        ModelRowIs(EmbeddingName(RagText(h, s)), ModelOf(s).s, dimension);
        added := [EmbeddingRow(EmbeddingName(RagText(h, s)), ModelOf(s).s, dimension)];
      }
    }
  }

  lemma ModelNeedsList(h: Host, rows: Value, s: Value)
    requires AddModel(h, rows, s).Ok? && Truthy(ModelOf(s))
    ensures rows.List?
  {
    hide EmbeddingRow, EmbeddingName;
  }

  lemma {:induction false} RegisteredAfterModels(h: Host, rows: Value, stores: seq<Value>, name: string)
    requires AddModels(h, rows, stores).Ok?
    ensures Registered(ItemsOf(AddModels(h, rows, stores).value), name)
       <==> Registered(ItemsOf(rows), name) || ByokModel(h, stores, name)
    decreases stores
  {
    hide AddModel, EmbeddingName, RagText, Registered, ItemsOf, ModelOf, PathOf;
    if stores != [] {
      var s, rest := stores[0], stores[1..];
      var added := ModelStep(h, rows, s);
      if added != [] {
        RegisteredOfCons(added[0], [], name);
        assert added == [added[0]] + [];
      }
      RegisteredOfConcat(ItemsOf(rows), added, name);
      NoneRegistered(name);
      RegisteredAfterModels(h, AddModel(h, rows, s).value, rest, name);
      assert forall x :: x in stores <==> x == s || x in rest;
    }
  }

  lemma NoneRegistered(name: string)
    ensures !Registered([], name)
  {
  }

  /** The store gives a model with this path, under a name that neither the rows nor an earlier store have. */
  predicate AddsPath(h: Host, rows: seq<Value>, stores: seq<Value>, j: nat, path: string)
    requires j < |stores|
  {
    var name := EmbeddingName(RagText(h, stores[j]));
    && Truthy(ModelOf(stores[j])) && PathOf(stores[j]) == path && !Registered(rows, name)
    && forall l :: 0 <= l < j && Truthy(ModelOf(stores[l])) ==> EmbeddingName(RagText(h, stores[l])) != name
  }

  predicate ByokPath(h: Host, rows: seq<Value>, stores: seq<Value>, path: string) {
    exists j :: 0 <= j < |stores| && AddsPath(h, rows, stores, j, path)
  }

  predicate HasPath(rows: seq<Value>, path: string) {
    HasRow(rows, "provider_model_id", Str(path))
  }

  lemma PathOfConcat(a: seq<Value>, b: seq<Value>, path: string)
    ensures HasPath(a + b, path) <==> HasPath(a, path) || HasPath(b, path)
  {
    assert forall x :: x in a + b <==> x in a || x in b;
  }

  lemma PathOfOne(h: Host, s: Value, row: Value, path: string)
    requires IsModelRowOf(h, s, row)
    ensures HasPath([row], path) <==> PathOf(s) == path
    ensures forall name :: Registered([row], name) <==> name == EmbeddingName(RagText(h, s))
  {
    hide PathOf, EmbeddingName;
    assert row in [row];
  }

  lemma AddsPathOfRest(h: Host, rows: seq<Value>, added: seq<Value>, stores: seq<Value>, j: nat, path: string)
    requires 0 < j < |stores|
    requires if Truthy(ModelOf(stores[0])) && !Registered(rows, EmbeddingName(RagText(h, stores[0])))
             then |added| == 1 && IsModelRowOf(h, stores[0], added[0]) else added == []
    ensures AddsPath(h, rows, stores, j, path) <==> AddsPath(h, rows + added, stores[1..], j - 1, path)
  {
    hide Registered, EmbeddingName, RagText, ModelOf, PathOf;
    var rest, name := stores[1..], EmbeddingName(RagText(h, stores[j]));
    assert forall l :: 0 <= l < |rest| ==> rest[l] == stores[l + 1];
    RegisteredOfConcat(rows, added, name);
    NoneRegistered(name);
    if added != [] {
      PathOfOne(h, stores[0], added[0], path);
      assert added == [added[0]];
    }
    if AddsPath(h, rows + added, rest, j - 1, path) {
      forall l | 0 <= l < j && Truthy(ModelOf(stores[l])) ensures EmbeddingName(RagText(h, stores[l])) != name {
        assert l > 0 ==> stores[l] == rest[l - 1];
      }
    }
  }

  lemma {:induction false} PathAfterModels(h: Host, rows: Value, stores: seq<Value>, path: string)
    requires AddModels(h, rows, stores).Ok?
    ensures HasPath(ItemsOf(AddModels(h, rows, stores).value), path)
       <==> HasPath(ItemsOf(rows), path) || ByokPath(h, ItemsOf(rows), stores, path)
    decreases stores
  {
    hide AddModel, EmbeddingName, RagText, Registered, ItemsOf, ModelOf, PathOf, HasPath, AddsPath;
    if stores != [] {
      var rest := stores[1..];
      var added := ModelStep(h, rows, stores[0]);
      PathOfConcat(ItemsOf(rows), added, path);
      FirstAddsPath(h, ItemsOf(rows), added, stores, path);
      PathAfterModels(h, AddModel(h, rows, stores[0]).value, rest, path);
      forall j | 0 < j < |stores|
        ensures AddsPath(h, ItemsOf(rows), stores, j, path) <==> AddsPath(h, ItemsOf(rows) + added, rest, j - 1, path)
      {
        AddsPathOfRest(h, ItemsOf(rows), added, stores, j, path);
      }
      if ByokPath(h, ItemsOf(rows) + added, rest, path) {
        var j :| 0 <= j < |rest| && AddsPath(h, ItemsOf(rows) + added, rest, j, path);
        assert AddsPath(h, ItemsOf(rows), stores, j + 1, path);
      }
      if ByokPath(h, ItemsOf(rows), stores, path) {
        var j :| 0 <= j < |stores| && AddsPath(h, ItemsOf(rows), stores, j, path);
        assert j > 0 ==> AddsPath(h, ItemsOf(rows) + added, rest, j - 1, path);
      }
    }
  }

  lemma FirstAddsPath(h: Host, rows: seq<Value>, added: seq<Value>, stores: seq<Value>, path: string)
    requires stores != []
    requires if Truthy(ModelOf(stores[0])) && !Registered(rows, EmbeddingName(RagText(h, stores[0])))
             then |added| == 1 && IsModelRowOf(h, stores[0], added[0]) else added == []
    ensures HasPath(added, path) <==> AddsPath(h, rows, stores, 0, path)
  {
    hide Registered, EmbeddingName, RagText, ModelOf, PathOf;
    if added != [] {
      PathOfOne(h, stores[0], added[0], path);
      assert added == [added[0]];
    }
  }

  lemma ByokModels(h: Host, stores: seq<Value>, root: Section, name: string, path: string)
    requires Byok(h, List(stores), root).Ok?
    ensures var r := Byok(h, List(stores), root).value;
            && (Registered(Models(r), name) <==> Registered(Models(root), name) || ByokModel(h, stores, name))
            && (HasPath(Models(r), path) <==> HasPath(Models(root), path) || ByokPath(h, Models(root), stores, path))
  {
    hide Byok, Dedupe, Sub, AddModels, Registered, HasPath, AddsPath, ModelOf, EmbeddingName;
    if stores == [] {
      NoStoresDedupe(h, root);
      DedupeKeepsLookups(h, root);
    } else {
      var start := ModelsStart(h, stores, root);
      RegisteredAfterModels(h, start, stores, name);
      PathAfterModels(h, start, stores, path);
    }
  }

  lemma ModelsStart(h: Host, stores: seq<Value>, root: Section) returns (start: Value)
    requires stores != [] && Byok(h, List(stores), root).Ok?
    ensures ItemsOf(start) == Models(root) && AddModels(h, start, stores).Ok?
    ensures Models(Byok(h, List(stores), root).value) == ItemsOf(AddModels(h, start, stores).value)
  {
    hide Byok, Sub, AddModels, WithBackends, WithProviders, WithStores;
    ByokSections(h, stores, root);
    start := CopyOf(Sub(root, "registered_resources", "models").value, List([])).value;
  }

  // ----- BYOK: what the added rows refer to --------------------------------

  predicate Names(row: Value, provider: string, model: string) {
    && row.Map? && GetOr(row.entries, "provider_id", Null) == Str(provider)
    && GetOr(row.entries, "embedding_model", Null) == Str(model)
  }

  lemma ByokIsProper(text: string)
    ensures Strip("byok_" + text) != ""
    ensures Strip(text) == text ==> Strip("byok_" + text) == "byok_" + text
  {
    var id := "byok_" + text;
    StripTail(text);
    if Strip(text) == text {
      assert id[0] == 'b';
      assert text != "" ==> id[|id| - 1] == text[|text| - 1];
      StripOfTrimmed(id);
    }
    RStripKeepsStart(id);
  }

  lemma {:induction false} RStripKeepsStart(s: string)
    requires s != "" && !IsSpace(s[0])
    ensures RStrip(s, IsSpace) != "" && Strip(s) != ""
  {
    assert LStrip(s, IsSpace) == s;
    if IsSpace(s[|s| - 1]) {
      RStripKeepsStart(s[..|s| - 1]);
    }
  }

  lemma RowNames(h: Host, s: Value, row: Value)
    requires s.Map? && row == StoreRow(h, s, GetOr(s.entries, "rag_id", Null), StoreId(s))
    ensures Names(row, "byok_" + RagText(h, s), TRANSFORMERS + EmbeddingName(RagText(h, s)))
  {
    StoreRowId(h, s, GetOr(s.entries, "rag_id", Null), StoreId(s));
    hide StoreRow, EmbeddingName, Text;
  }

  /**
   * The row of a store names a provider and a model. The provider exists exactly if the config's first entry under
   * the stripped id has the id, or there is none and the id is that of some store; the model is registered exactly
   * if it was, or some store brings its name.
   */
  predicate ByokRowRefers(h: Host, stores: seq<Value>, root: Section, r: Section, s: Value, row: Value) {
    var id, name := "byok_" + RagText(h, s), EmbeddingName(RagText(h, s));
    && Names(row, id, TRANSFORMERS + name)
    && (ProviderExists(r, id)
        <==> if First(h, root, Strip(id)).Some? then IsEntryOf(First(h, root, Strip(id)).value, id)
             else ByokNames(h, stores, id))
    && (Registered(Models(r), name) <==> Registered(Models(root), name) || ByokModel(h, stores, name))
  }

  predicate ByokRowRefersForOne(h: Host, stores: seq<Value>, root: Section, r: Section, row: Value) {
    exists s <- stores :: ByokRowRefers(h, stores, root, r, s, row)
  }

  lemma ByokNamesAreProper(h: Host, stores: seq<Value>, id: string)
    requires ByokNames(h, stores, id)
    ensures Strip(id) == id
  {
    hide Strip;
    var s :| s in stores && ByokId(h, s) == id;
    StripStripped(RagText(h, s));
    ByokIsProper(Strip(RagText(h, s)));
  }

  lemma ByokIsUnique(h: Host, stores: seq<Value>, root: Section)
    requires stores != [] && Byok(h, List(stores), root).Ok?
    ensures Unique(h, Providers(Byok(h, List(stores), root).value))
  {
    hide Byok, Sub, AddProviders, Unique, Keys, DedupeList, ByokId;
    ByokSections(h, stores, root);
    StartOfProviders(h, Sub(root, "providers", "vector_io").value);
    var items := VectorIoItems(h, Sub(root, "providers", "vector_io").value);
    ProvidersAdded(h, items, Keys(h, items), stores);
  }

  /** The provider a store's row names exists exactly as the config before the pass says. */
  lemma ByokProviderExactly(h: Host, stores: seq<Value>, root: Section, id: string)
    requires stores != [] && Byok(h, List(stores), root).Ok? && Strip(id) != ""
    ensures ProviderExists(Byok(h, List(stores), root).value, id)
       <==> if First(h, root, Strip(id)).Some? then IsEntryOf(First(h, root, Strip(id)).value, id)
            else ByokNames(h, stores, id)
  {
    hide Byok, FirstWith, IsEntryOf, Strip, Unique, Providers, ByokId;
    ByokFirst(h, stores, root, Strip(id));
    ByokIsUnique(h, stores, root);
    ExistsIfFirst(h, Providers(Byok(h, List(stores), root).value), id);
    var first := First(h, Byok(h, List(stores), root).value, Strip(id));
    if first.Some? {
      OneIdOnlyIf(first.value, Strip(id), id);
    }
    if ByokNames(h, stores, id) {
      ByokNamesAreProper(h, stores, id);
    }
  }

  /** Earlier rows stay, and every row the BYOK pass adds refers to what exists exactly as stated. */
  lemma ByokRowsRefer(h: Host, stores: seq<Value>, root: Section)
    requires stores != [] && Byok(h, List(stores), root).Ok?
    ensures var r := Byok(h, List(stores), root).value;
            && StoreRows(root) <= StoreRows(r)
            && forall k :: |StoreRows(root)| <= k < |StoreRows(r)| ==>
                 ByokRowRefersForOne(h, stores, root, r, StoreRows(r)[k])
  {
    hide Byok, ListAt, StoreRow, ByokRowRefers;
    AddedRowsAreStoreRows(h, stores, root);
    var r := Byok(h, List(stores), root).value;
    forall k | |StoreRows(root)| <= k < |StoreRows(r)|
      ensures ByokRowRefersForOne(h, stores, root, r, StoreRows(r)[k])
    {
      var row := StoreRows(r)[k];
      assert IsStoreRowOf(h, stores, row);
      var s :| s in stores && s.Map? && row == StoreRow(h, s, GetOr(s.entries, "rag_id", Null), StoreId(s));
      OneByokRowRefers(h, stores, root, s, row);
    }
  }

  lemma OneByokRowRefers(h: Host, stores: seq<Value>, root: Section, s: Value, row: Value)
    requires stores != [] && Byok(h, List(stores), root).Ok?
    requires s in stores && s.Map? && row == StoreRow(h, s, GetOr(s.entries, "rag_id", Null), StoreId(s))
    ensures ByokRowRefers(h, stores, root, Byok(h, List(stores), root).value, s, row)
  {
    RowNames(h, s, row);
    hide Byok, StoreRow, EmbeddingName, First, IsEntryOf, Registered, ProviderExists, Models, RagText, Strip, ByokNames,
      ByokModel, Names, ByokPath, HasPath;
    ByokIsProper(RagText(h, s));
    ByokProviderExactly(h, stores, root, "byok_" + RagText(h, s));
    ByokModels(h, stores, root, EmbeddingName(RagText(h, s)), "");
  }

  // ----- Solr: backends and models -----------------------------------------

  /** The Solr pass registers its model unless some row has the bare path. */
  lemma SolrModels(h: Host, i: Inputs, root: Section, name: string)
    requires Solr(h, i.inline, i.tool, i.okp, root).Ok?
    ensures Registered(Models(Solr(h, i.inline, i.tool, i.okp, root).value), name)
       <==> Registered(Models(root), name)
            || (OkpEnabled(i.inline, i.tool) == Ok(true) && name == SOLR_MODEL_ID
                && !HasPath(Models(root), SOLR_MODEL_PATH))
  {
    hide SolrEnabled, OkpEnabled, HasPath;
    if OkpEnabled(i.inline, i.tool) == Ok(true) {
      SolrModelListed(h, i.okp.entries, root);
      SolrRowIds();
      RegisteredOfConcat(Models(root), [SOLR_MODEL_ROW], name);
      RegisteredOfCons(SOLR_MODEL_ROW, [], name);
      assert [SOLR_MODEL_ROW] + [] == [SOLR_MODEL_ROW] && Models(root) + [] == Models(root);
    }
  }

  lemma SolrModelListed(h: Host, okp: Section, root: Section)
    requires SolrEnabled(h, okp, root).Ok?
    ensures Models(SolrEnabled(h, okp, root).value)
         == Models(root) + if HasPath(Models(root), SOLR_MODEL_PATH) then [] else [SOLR_MODEL_ROW]
  {
    SolrRowIds();
    hide SolrEnabled, Sub, WithRow, HasRow;
    SolrSections(h, okp, root);
    UpdatesAreRows(h, okp);
    RowAppended(root, SolrEnabled(h, okp, root).value, "registered_resources", "models", "provider_model_id",
                Str(SOLR_MODEL_PATH), SOLR_MODEL_ROW);
  }

  lemma SolrBackends(h: Host, i: Inputs, root: Section)
    requires Solr(h, i.inline, i.tool, i.okp, root).Ok?
    ensures BackendsIn(Solr(h, i.inline, i.tool, i.okp, root).value) == BackendsIn(root)
  {
    hide SolrEnabled, OkpEnabled, Sub, ResultOf, WithProvidersDir;
    if OkpEnabled(i.inline, i.tool) == Ok(true) {
      SolrSections(h, i.okp.entries, root);
      SubElsewhere(root, SolrEnabled(h, i.okp.entries, root).value, "storage", "backends");
    }
  }

  // ----- the whole enrichment ----------------------------------------------

  /** The config after each pass of the enrichment. */
  datatype Stages = Stages(azure: Section, byok: Section, solr: Section, declared: Section)

  ghost predicate RunsThrough(h: Host, lcs: Section, i: Inputs, stores: seq<Value>, root: Section, t: Stages) {
    && ReadInputs(lcs) == Ok(i) && i.stores == List(stores)
    && Azure(i.azure, root) == Ok(t.azure) && Byok(h, List(stores), t.azure) == Ok(t.byok)
    && Solr(h, i.inline, i.tool, i.okp, t.byok) == Ok(t.solr)
    && VectorStore(h, GetOr(lcs, "vector_store", Null), t.solr) == Ok(t.declared)
    && EnrichUnified(h, lcs, root) == Dedupe(h, t.declared)
  }

  lemma Staged(h: Host, lcs: Section, i: Inputs, stores: seq<Value>, root: Section) returns (t: Stages)
    requires ReadInputs(lcs) == Ok(i) && i.stores == List(stores) && EnrichUnified(h, lcs, root).Ok?
    ensures RunsThrough(h, lcs, i, stores, root, t)
  {
    hide Azure, Byok, Solr, VectorStore, Dedupe, ReadInputs;
    var a := Azure(i.azure, root).value;
    var b := Byok(h, List(stores), a).value;
    var c := Solr(h, i.inline, i.tool, i.okp, b).value;
    t := Stages(a, b, c, VectorStore(h, GetOr(lcs, "vector_store", Null), c).value);
  }

  lemma AzureKeeps(azure: Value, root: Section)
    requires Azure(azure, root).Ok?
    ensures var r := Azure(azure, root).value;
            && Providers(r) == Providers(root) && Models(r) == Models(root) && BackendsIn(r) == BackendsIn(root)
            && StoreRows(r) == StoreRows(root)
  {
    hide Azure, Sub, ValidationOff, IsAzure;
    if azure == Null {
      NoAzure(root);
    } else {
      AzureOwnsInference(azure, root);
      var r := Azure(azure, root).value;
      SubElsewhere(root, r, "registered_resources", "vector_stores");
      SubElsewhere(root, r, "registered_resources", "models");
      SubElsewhere(root, r, "storage", "backends");
    }
  }

  lemma NoAzure(root: Section)
    ensures Azure(Null, root) == Ok(root)
  {
  }

  /** The enrichment brings a provider of this id by itself: for a store, for Solr, or as declared. */
  predicate Introduced(h: Host, lcs: Section, i: Inputs, stores: seq<Value>, id: string) {
    || ByokNames(h, stores, id)
    || (OkpEnabled(i.inline, i.tool) == Ok(true) && id == SOLR_ID)
    || LastDeclared(h, DeclaredIn(GetOr(lcs, "vector_store", Null)), id).Some?
  }

  /**
   * What is in force under a stripped id: an entry of the config that does not have the id itself stays; otherwise
   * the last entry declared with this id; otherwise the entry of the config; otherwise whatever is introduced.
   */
  lemma EnrichedFirst(h: Host, lcs: Section, i: Inputs, stores: seq<Value>, root: Section, t: Stages, key: string)
    requires RunsThrough(h, lcs, i, stores, root, t) && Dedupe(h, t.declared).Ok? && key != ""
    ensures var first := First(h, EnrichUnified(h, lcs, root).value, key);
            var last := LastDeclared(h, DeclaredIn(GetOr(lcs, "vector_store", Null)), key);
            && (last.Some? ==> PlanOf(h, key, last.value).Ok? && IsEntryOf(PlanOf(h, key, last.value).value.entry, key))
            && if Shadowed(h, root, key) then first == First(h, root, key)
               else if last.Some? then first == Some(PlanOf(h, key, last.value).value.entry)
               else if First(h, root, key).Some? then first == First(h, root, key)
               else
                 && (first.Some? <==> Introduced(h, lcs, i, stores, key))
                 && (first.Some? ==> IsEntryOf(first.value, key))
  {
    hide Azure, Byok, Solr, VectorStore, Dedupe, ReadInputs, EnrichUnified, Providers, FirstWith, IsEntryOf, PlanOf,
      ByokNames, OkpEnabled, DeclaredIn, LastDeclared;
    AzureKeeps(i.azure, root);
    ByokFirst(h, stores, t.azure, key);
    SolrFirst(h, i, t.byok, key);
    VectorStoreFirst(h, GetOr(lcs, "vector_store", Null), t.solr, key);
    DedupedFirst(h, t.declared, key);
  }

  /**
   * A provider with exactly this id exists after the enrichment exactly if the config's first entry under the
   * stripped id has it, or the config has no such entry and the enrichment introduces the id.
   */
  lemma ProviderExistsExactly(h: Host, lcs: Section, i: Inputs, stores: seq<Value>, root: Section, id: string)
    requires ReadInputs(lcs) == Ok(i) && i.stores == List(stores) && EnrichUnified(h, lcs, root).Ok? && Strip(id) != ""
    ensures ProviderExists(EnrichUnified(h, lcs, root).value, id)
       <==> if First(h, root, Strip(id)).Some? then IsEntryOf(First(h, root, Strip(id)).value, id)
            else Strip(id) == id && Introduced(h, lcs, i, stores, id)
  {
    var t := Staged(h, lcs, i, stores, root);
    EnrichedFirst(h, lcs, i, stores, root, t, Strip(id));
    EnrichedIsUnique(h, lcs, i, stores, root, t);
    var first := First(h, EnrichUnified(h, lcs, root).value, Strip(id));
    ExistsIfFirst(h, Providers(EnrichUnified(h, lcs, root).value), id);
    hide EnrichUnified, FirstWith, RunsThrough, PlanOf, Introduced, LastDeclared, Strip, Providers, ReadInputs;
    if first.Some? {
      OneIdOnlyIf(first.value, Strip(id), id);
    }
    if First(h, root, Strip(id)).Some? {
      OneIdOnlyIf(First(h, root, Strip(id)).value, Strip(id), id);
    }
  }

  lemma OneIdOnlyIf(x: Value, a: string, b: string)
    ensures IsEntryOf(x, a) ==> (IsEntryOf(x, b) <==> a == b)
  {
  }

  lemma EnrichedIsUnique(h: Host, lcs: Section, i: Inputs, stores: seq<Value>, root: Section, t: Stages)
    requires RunsThrough(h, lcs, i, stores, root, t) && Dedupe(h, t.declared).Ok?
    ensures Unique(h, Providers(EnrichUnified(h, lcs, root).value))
  {
    hide Azure, Byok, Solr, VectorStore, Dedupe, ReadInputs, EnrichUnified, Providers, Unique, DedupeFrom;
    DedupedProviders(h, t.declared);
    DedupeLaws(h, Providers(t.declared));
  }

  /** A storage backend exists afterwards exactly if it did before, or a store or a declared provider brings it. */
  lemma BackendExistsExactly(h: Host, lcs: Section, i: Inputs, stores: seq<Value>, root: Section, name: string)
    requires ReadInputs(lcs) == Ok(i) && i.stores == List(stores) && EnrichUnified(h, lcs, root).Ok?
    ensures name in BackendsIn(EnrichUnified(h, lcs, root).value)
       <==> || name in BackendsIn(root) || ByokBackend(h, stores, name)
            || DeclaresBackend(h, DeclaredIn(GetOr(lcs, "vector_store", Null)), name)
  {
    var t := Staged(h, lcs, i, stores, root);
    hide Azure, Byok, Solr, VectorStore, Dedupe, ReadInputs, EnrichUnified, BackendsIn, ByokBackend, DeclaresBackend,
      DeclaredIn;
    AzureKeeps(i.azure, root);
    ByokBackends(h, stores, t.azure, name);
    SolrBackends(h, i, t.byok);
    VectorStoreBackends(h, GetOr(lcs, "vector_store", Null), t.solr, name);
    DedupeKeepsLookups(h, t.declared);
  }

  /** The Solr pass finds its model under the bare path, in the config or as some store brings it. */
  predicate SolrModelFound(h: Host, stores: seq<Value>, root: Section) {
    HasPath(Models(root), SOLR_MODEL_PATH) || ByokPath(h, Models(root), stores, SOLR_MODEL_PATH)
  }

  /**
   * A model name is registered afterwards exactly if it was before, a store or a declared provider brings it, or it
   * is Solr's and the Solr pass did not find its model under the bare path.
   */
  lemma ModelExistsExactly(h: Host, lcs: Section, i: Inputs, stores: seq<Value>, root: Section, name: string)
    requires ReadInputs(lcs) == Ok(i) && i.stores == List(stores) && EnrichUnified(h, lcs, root).Ok?
    ensures Registered(Models(EnrichUnified(h, lcs, root).value), name)
       <==> || Registered(Models(root), name) || ByokModel(h, stores, name)
            || DeclaresModel(h, DeclaredIn(GetOr(lcs, "vector_store", Null)), name)
            || (OkpEnabled(i.inline, i.tool) == Ok(true) && name == SOLR_MODEL_ID && !SolrModelFound(h, stores, root))
  {
    var t := Staged(h, lcs, i, stores, root);
    hide Azure, Byok, Solr, VectorStore, Dedupe, ReadInputs, EnrichUnified, Models, ByokModel, DeclaresModel,
      DeclaredIn, Registered, OkpEnabled, HasPath, ByokPath;
    AzureKeeps(i.azure, root);
    ByokModels(h, stores, t.azure, name, SOLR_MODEL_PATH);
    SolrModels(h, i, t.byok, name);
    VectorStoreModels(h, GetOr(lcs, "vector_store", Null), t.solr, name);
    DedupeKeepsLookups(h, t.declared);
  }
}
