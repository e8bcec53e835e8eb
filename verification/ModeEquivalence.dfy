/** When library mode and service mode enrich a config to the same tree. */
module ModeEquivalence {
  import opened Wrappers
  import opened PyText
  import opened Yaml
  import opened VectorIo
  import opened Enrichment
  import opened PassLaws
  import opened PassOrder
  import opened HighLevelLaws
  import opened VectorStores
  import opened Pipelines

  /** The first `vector_io` entry under a key. */
  function FirstWith(h: Host, items: seq<Value>, key: string): Option<Value> {
    if items == [] then None
    else if ProviderKey(h, items[0]) == key then Some(items[0])
    else FirstWith(h, items[1..], key)
  }

  function Providers(root: Section): seq<Value> {
    ListAt(root, "providers", "vector_io")
  }

  /** The first entry whose stripped id is the given text. */
  function First(h: Host, root: Section, key: string): Option<Value> {
    FirstWith(h, Providers(root), key)
  }

  predicate ShadowedIn(h: Host, items: seq<Value>, id: string) {
    FirstWith(h, items, id).Some? && !IsEntryOf(FirstWith(h, items, id).value, id)
  }

  /** The first entry under the stripped id does not have the id itself. */
  predicate Shadowed(h: Host, root: Section, id: string) {
    ShadowedIn(h, Providers(root), id)
  }

  lemma {:induction false} FirstWithAfterDedupe(h: Host, items: seq<Value>, seen: set<string>, key: string)
    requires key != ""
    ensures FirstWith(h, DedupeFrom(h, items, seen), key) == if key in seen then None else FirstWith(h, items, key)
    decreases items
  {
    hide ProviderKey;
    if items != [] {
      OnlyMapsHaveKeys(h, items[0]);
      var k := ProviderKey(h, items[0]);
      FirstWithAfterDedupe(h, items[1..], if k == "" || !items[0].Map? then seen else seen + {k}, key);
      if k in seen {
        FirstWithAfterDedupe(h, items[1..], seen, key);
        assert seen + {k} == seen;
      }
    }
  }

  lemma {:induction false} FirstWithOfAppend(h: Host, items: seq<Value>, item: Value, key: string)
    requires ProviderKey(h, item) != key
    ensures FirstWith(h, items + [item], key) == FirstWith(h, items, key)
  {
    hide ProviderKey;
    if items == [] {
      assert ([] + [item])[1..] == [];
    } else {
      assert (items + [item])[1..] == items[1..] + [item];
      FirstWithOfAppend(h, items[1..], item, key);
    }
  }

  lemma {:induction false} FirstWithIsKey(h: Host, items: seq<Value>, key: string)
    requires key != ""
    ensures FirstWith(h, items, key).Some? <==> key in Keys(h, items)
    ensures FirstWith(h, items, key).Some? ==>
              FirstWith(h, items, key).value in items && ProviderKey(h, FirstWith(h, items, key).value) == key
  {
    hide ProviderKey;
    if items != [] {
      KeysOfCons(h, items[0], items[1..]);
      assert items == [items[0]] + items[1..];
      FirstWithIsKey(h, items[1..], key);
    }
  }

  // ----- ids that the BYOK pass generates ----------------------------------

  /** A generated provider id is its own key. */
  lemma ByokIdIsKey(h: Host, text: string, kind: string, config: Value)
    ensures var id := "byok_" + Strip(text);
            ProviderKey(h, ProviderEntry(id, kind, config)) == id && id != "" && id != SOLR_ID
  {
    var id := "byok_" + Strip(text);
    StripTail(text);
    assert id[0] == 'b' && SOLR_ID[0] == 'o';
    StripOfTrimmed(id);
  }

  /** Appending BYOK providers keeps ids distinct and does not touch the Solr id. */
  lemma {:induction false} AddedProviders(h: Host, items: seq<Value>, known: set<string>, stores: seq<Value>)
    requires Unique(h, items) && known == Keys(h, items) && AddProviders(h, items, known, stores).Ok?
    ensures var r := AddProviders(h, items, known, stores).value;
            Unique(h, r) && FirstWith(h, r, SOLR_ID) == FirstWith(h, items, SOLR_ID)
    decreases stores
  {
    hide ProviderKey, VectorIoConfig, RagType, ProviderEntry, Strip;
    if stores != [] {
      var ragId := Strip(Text(h, Required(stores[0], "rag_id").value));
      var id := "byok_" + ragId;
      var next := AddProvider(h, items, known, stores[0]).value;
      if id !in known {
        var kind := RagType(h, stores[0]).value;
        var entry := ProviderEntry(id, kind, VectorIoConfig(kind, StorageName(ragId), stores[0]).value);
        ByokIdIsKey(h, Text(h, Required(stores[0], "rag_id").value), kind,
                    VectorIoConfig(kind, StorageName(ragId), stores[0]).value);
        EntryIsMap(id, kind, VectorIoConfig(kind, StorageName(ragId), stores[0]).value);
        UniqueSnoc(h, items, entry);
        FirstWithOfAppend(h, items, entry, SOLR_ID);
      }
      AddedProviders(h, next.0, next.1, stores[1..]);
    }
  }

  lemma EntryIsMap(id: string, kind: string, config: Value)
    ensures ProviderEntry(id, kind, config).Map?
    ensures GetOr(ProviderEntry(id, kind, config).entries, "provider_id", Null) == Str(id)
  {
  }

  // ----- the vector_io list after each pass --------------------------------

  /** Deduplicating changes nothing. */
  predicate Clean(h: Host, root: Section) {
    Dedupe(h, root) == Ok(root)
  }

  lemma CleanIsUnique(h: Host, root: Section, raw: Option<Value>)
    requires Sub(root, "providers", "vector_io") == Ok(raw)
    ensures Clean(h, root) <==> raw.None? || !raw.value.List? || Unique(h, raw.value.items)
  {
    if raw.Some? && raw.value.List? {
      hide DedupeList, Sub, Unique;
      var items := raw.value.items;
      DedupeLaws(h, items);
      var m := root["providers"].entries["vector_io" := List(DedupeList(h, items))];
      SubAfterPut(root, m, List(DedupeList(h, items)));
      if DedupeList(h, items) == items {
        SubIsEntry(root, List(items));
        assert m == root["providers"].entries;
        assert root["providers" := Map(m)] == root;
      }
    }
  }

  lemma SubIsEntry(root: Section, v: Value)
    requires Sub(root, "providers", "vector_io") == Ok(Some(v))
    ensures "providers" in root && root["providers"].Map? && "vector_io" in root["providers"].entries
    ensures root["providers"].entries["vector_io"] == v
  {
  }

  /** After the BYOK pass the list is deduplicated and its first Solr entry is the original one. */
  lemma ByokLeavesClean(h: Host, stores: Value, root: Section)
    requires Byok(h, stores, root).Ok?
    ensures var r := Byok(h, stores, root).value;
            && Clean(h, r) && Sub(r, "providers", "vector_io").Ok?
            && FirstWith(h, ListAt(r, "providers", "vector_io"), SOLR_ID)
               == FirstWith(h, ListAt(root, "providers", "vector_io"), SOLR_ID)
  {
    hide Update, Sub, Unique, FirstWith, DedupeList, Clean, Dedupe, AddProviders;
    ByokIsPass(h, stores, root);
    var r, items := Byok(h, stores, root).value, Elements(stores).value;
    if items == [] {
      DedupeLeavesClean(h, root);
    } else {
      var r1 := Update(root, "storage", "backends", WithBackends(h, items)).value;
      var r2 := Update(r1, "providers", "vector_io", WithProviders(h, items)).value;
      var r3 := Update(r2, "registered_resources", "vector_stores", WithStores(h, items)).value;
      UpdateSets(root, "storage", "backends", WithBackends(h, items));
      UpdateSets(r1, "providers", "vector_io", WithProviders(h, items));
      UpdateSets(r2, "registered_resources", "vector_stores", WithStores(h, items));
      UpdateSets(r3, "registered_resources", "models", WithModels(h, items));
      SubElsewhere(root, r1, "providers", "vector_io");
      SubElsewhere(r2, r, "providers", "vector_io");
      StartOfProviders(h, Sub(root, "providers", "vector_io").value);
      var start := VectorIoItems(h, Sub(root, "providers", "vector_io").value);
      AddedProviders(h, start, Keys(h, start), items);
      CleanIsUnique(h, r, Sub(r, "providers", "vector_io").value);
    }
  }

  lemma StartOfProviders(h: Host, raw: Option<Value>)
    ensures Unique(h, VectorIoItems(h, raw))
    ensures FirstWith(h, VectorIoItems(h, raw), SOLR_ID)
         == FirstWith(h, if raw.Some? && raw.value.List? then raw.value.items else [], SOLR_ID)
  {
    if raw.Some? && raw.value.List? {
      DedupeLaws(h, raw.value.items);
      FirstWithAfterDedupe(h, raw.value.items, {}, SOLR_ID);
    }
  }

  lemma DedupeLeavesClean(h: Host, root: Section)
    requires Dedupe(h, root).Ok?
    ensures var r := Dedupe(h, root).value;
            && Clean(h, r) && Sub(r, "providers", "vector_io").Ok?
            && FirstWith(h, ListAt(r, "providers", "vector_io"), SOLR_ID)
               == FirstWith(h, ListAt(root, "providers", "vector_io"), SOLR_ID)
  {
    DedupeTwice(h, root);
    DedupeShape(h, root);
    var raw := Sub(root, "providers", "vector_io").value;
    if raw.Some? && raw.value.List? {
      hide DedupeList, Sub;
      var items := DedupeList(h, raw.value.items);
      SubAfterPut(root, root["providers"].entries["vector_io" := List(items)], List(items));
      StartOfProviders(h, raw);
    }
  }

  lemma SolrRowKey(h: Host, url: Value, filter: Value)
    ensures var row := SolrProvider(h, url, filter);
            row.Map? && ProviderKey(h, row) == SOLR_ID && GetOr(row.entries, "provider_id", Null) == Str(SOLR_ID)
  {
    StripOfTrimmed(SOLR_ID);
  }

  /** In a deduplicated list some row has exactly the Solr id if and only if the first row under that key has. */
  lemma SolrRowIsFirst(h: Host, items: seq<Value>)
    requires Unique(h, items)
    ensures HasRow(items, "provider_id", Str(SOLR_ID))
       <==> FirstWith(h, items, SOLR_ID).Some? && FirstWith(h, items, SOLR_ID).value.Map?
            && GetOr(FirstWith(h, items, SOLR_ID).value.entries, "provider_id", Null) == Str(SOLR_ID)
  {
    FirstWithIsKey(h, items, SOLR_ID);
    forall row <- items | row.Map? && GetOr(row.entries, "provider_id", Null) == Str(SOLR_ID)
      ensures FirstWith(h, items, SOLR_ID) == Some(row)
    {
      ExactIdIsKey(h, row);
      hide ProviderKey;
      var i :| 0 <= i < |items| && items[i] == row;
      assert ProviderKey(h, items[i]) in Keys(h, items);
      var first := FirstWith(h, items, SOLR_ID).value;
      var j :| 0 <= j < |items| && items[j] == first;
    }
  }

  lemma ExactIdIsKey(h: Host, row: Value)
    requires row.Map? && GetOr(row.entries, "provider_id", Null) == Str(SOLR_ID)
    ensures ProviderKey(h, row) == SOLR_ID
  {
    StripOfTrimmed(SOLR_ID);
  }

  /** Adding the Solr provider to a clean config leaves it clean unless the id is shadowed. */
  lemma SolrEntryKeepsClean(h: Host, okp: Section, root: Section)
    requires Clean(h, root) && Update(root, "providers", "vector_io", SolrProviderRow(h, okp)).Ok?
    ensures var r := Update(root, "providers", "vector_io", SolrProviderRow(h, okp)).value;
            Sub(r, "providers", "vector_io").Ok? && (Clean(h, r) <==> !Shadowed(h, root, SOLR_ID))
  {
    hide Update, Sub, Clean, SolrProvider, Unique, FirstWith, HasRow;
    var rewrite := SolrProviderRow(h, okp);
    UpdateSets(root, "providers", "vector_io", rewrite);
    var r := Update(root, "providers", "vector_io", rewrite).value;
    var raw := Sub(root, "providers", "vector_io").value;
    var row := SolrProvider(h, GetOr(okp, "rhokp_url", Null), GetOr(okp, "chunk_filter_query", Null));
    CleanIsUnique(h, root, raw);
    CleanIsUnique(h, r, Sub(r, "providers", "vector_io").value);
    NothingIsUnique(h);
    RowNeedsList(raw, "provider_id", Str(SOLR_ID), row);
    var items := if raw.Some? then raw.value.items else [];
    SolrRowKey(h, GetOr(okp, "rhokp_url", Null), GetOr(okp, "chunk_filter_query", Null));
    SolrRowIsFirst(h, items);
    FirstWithIsKey(h, items, SOLR_ID);
    UniqueSnoc(h, items, row);
    if FirstWith(h, items, SOLR_ID).Some? {
      assert FirstWith(h, items, SOLR_ID).value in items;
      UniqueAreMaps(h, items, FirstWith(h, items, SOLR_ID).value);
    }
  }

  lemma NothingIsUnique(h: Host)
    ensures Unique(h, [])
  {
  }

  lemma UniqueAreMaps(h: Host, items: seq<Value>, item: Value)
    requires Unique(h, items) && item in items
    ensures item.Map?
  {
  }

  /** A row can be ensured only in a list. */
  lemma RowNeedsList(prev: Option<Value>, field: string, v: Value, row: Value)
    requires WithRow(field, v, row)(prev).Ok?
    ensures var items := if prev.Some? && prev.value.List? then prev.value.items else [];
            && (prev.None? || prev.value.List?)
            && WithRow(field, v, row)(prev).value == List(if HasRow(items, field, v) then items else items + [row])
  {
    if prev.Some? {
      OnlyListsHoldMaps(prev.value);
    }
  }

  lemma OnlyListsHoldMaps(v: Value)
    ensures !v.List? && Elements(v).Ok? && AllMaps(Elements(v).value) ==> Elements(v).value == []
  {
    if Elements(v).Ok? && Elements(v).value != [] {
      assert Elements(v).value[0] in Elements(v).value;
    }
  }

  lemma SolrLeavesClean(h: Host, i: Inputs, root: Section)
    requires Clean(h, root) && Sub(root, "providers", "vector_io").Ok? && Solr(h, i.inline, i.tool, i.okp, root).Ok?
    ensures var r := Solr(h, i.inline, i.tool, i.okp, root).value;
            && Sub(r, "providers", "vector_io").Ok?
            && (Clean(h, r) <==> !(OkpEnabled(i.inline, i.tool) == Ok(true) && Shadowed(h, root, SOLR_ID)))
  {
    if OkpEnabled(i.inline, i.tool) == Ok(true) {
      hide Update, Sub, Clean, Shadowed, OkpEnabled, SolrProviderRow, WithRow, WithSearchMode;
      var okp := i.okp.entries;
      var r0 := WithProvidersDir(root);
      SameVectorIo(h, root, r0);
      var r1 := Update(r0, "providers", "vector_io", SolrProviderRow(h, okp)).value;
      SolrEntryKeepsClean(h, okp, r0);
      var store, model := WithRow("vector_store_id", Str(SOLR_STORE), SOLR_STORE_ROW),
                          WithRow("provider_model_id", Str(SOLR_MODEL_PATH), SOLR_MODEL_ROW);
      var r2 := Update(r1, "registered_resources", "vector_stores", store).value;
      var r3 := Update(r2, "registered_resources", "models", model).value;
      var r := Solr(h, i.inline, i.tool, i.okp, root).value;
      UpdateSets(r1, "registered_resources", "vector_stores", store);
      UpdateSets(r2, "registered_resources", "models", model);
      var mode := GetOr(okp, "search_mode", Null);
      if Truthy(mode) {
        UpdateSets(r3, "vector_stores", "chunk_retrieval_params", WithSearchMode(mode));
      }
      SameVectorIo(h, r1, r);
    }
  }

  /** Cleanness and shadowing depend on `providers` only. */
  lemma SameVectorIo(h: Host, a: Section, b: Section)
    requires ("providers" in a <==> "providers" in b) && ("providers" in a ==> a["providers"] == b["providers"])
    ensures Clean(h, a) == Clean(h, b) && Shadowed(h, a, SOLR_ID) == Shadowed(h, b, SOLR_ID)
    ensures Sub(a, "providers", "vector_io") == Sub(b, "providers", "vector_io")
  {
    SubElsewhere(a, b, "providers", "vector_io");
    var raw := Sub(a, "providers", "vector_io");
    if raw.Ok? {
      CleanIsUnique(h, a, raw.value);
      CleanIsUnique(h, b, raw.value);
    } else {
      DedupeFailure(h, a);
      DedupeFailure(h, b);
    }
  }

  lemma RagLeavesClean(h: Host, i: Inputs, root: Section)
    requires RagPass(h, i)(root).Ok?
    ensures var r := RagPass(h, i)(root).value;
            && Sub(r, "providers", "vector_io").Ok?
            && (Clean(h, r) <==> !(OkpEnabled(i.inline, i.tool) == Ok(true) && Shadowed(h, root, SOLR_ID)))
  {
    hide Byok, Solr, Clean, Sub, FirstWith, OkpEnabled;
    ByokLeavesClean(h, i.stores, root);
    SolrLeavesClean(h, i, Byok(h, i.stores, root).value);
  }

  lemma AzureKeepsClean(h: Host, azure: Value, root: Section)
    requires Azure(azure, root).Ok? && Sub(root, "providers", "vector_io").Ok?
    ensures Clean(h, Azure(azure, root).value) == Clean(h, root)
  {
    hide AzureValue, Clean;
    var r := Azure(azure, root).value;
    assert Sub(r, "providers", "vector_io") == Sub(root, "providers", "vector_io");
    var raw := Sub(root, "providers", "vector_io").value;
    CleanIsUnique(h, root, raw);
    CleanIsUnique(h, r, raw);
  }

  /**
   * Library mode and service mode give equal trees exactly when Solr is off or its id is not shadowed; they
   * always raise on the same configs. Service mode deduplicates after Solr, library mode does not, so a
   * shadowed id leaves library mode with two entries for one provider.
   */
  lemma LibraryMatchesServiceExactly(h: Host, i: Inputs, root: Section)
    ensures LibraryPass(h, i)(root).Ok? <==> ServicePass(h, i)(root).Ok?
    ensures LibraryPass(h, i)(root).Ok? ==>
              (LibraryPass(h, i)(root) == ServicePass(h, i)(root)
               <==> !(OkpEnabled(i.inline, i.tool) == Ok(true) && Shadowed(h, root, SOLR_ID)))
  {
    hide RagPass, Azure, Dedupe, OkpEnabled, Shadowed, Sub, Blind;
    RagPassIsBlind(h, i);
    AzureCommutes(i.azure, RagPass(h, i), root);
    EarlyDedupeIsRedundant(h, i, root);
    var rag := RagPass(h, i)(root);
    if rag.Ok? {
      RagLeavesClean(h, i, root);
      var library := Azure(i.azure, rag.value);
      if library.Ok? {
        AzureKeepsClean(h, i.azure, rag.value);
        DedupeFailure(h, library.value);
        AzureKeepsReadable(i.azure, rag.value);
      }
    }
  }

  lemma AzureKeepsReadable(azure: Value, root: Section)
    requires Azure(azure, root).Ok? && Sub(root, "providers", "vector_io").Ok?
    ensures Sub(Azure(azure, root).value, "providers", "vector_io").Ok?
  {
    hide AzureValue;
  }
}
