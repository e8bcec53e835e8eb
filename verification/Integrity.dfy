/** References between sections after the whole enrichment: which of them resolve, exactly. */
module Integrity {
  import opened Wrappers
  import opened PyText
  import opened Yaml
  import opened VectorIo
  import opened Enrichment
  import opened HighLevel
  import opened HighLevelLaws
  import opened ModeEquivalence
  import opened ByokLaws
  import opened SolrLaws
  import opened VectorStores
  import opened VectorStoreLaws
  import opened VectorStoreTwice
  import opened Pipelines
  import opened Existence

  // ----- provider entries persist ------------------------------------------

  /** The entries from the given place on persist to one of the backends, and those before it have distinct ids. */
  predicate ListSound(h: Host, backends: Section, items: seq<Value>, m: nat) {
    m <= |items| && Unique(h, items[..m]) && forall x <- items[m..] :: PersistsIn(backends, x)
  }

  predicate SoundFrom(h: Host, root: Section, m: nat) {
    ListSound(h, BackendsIn(root), Providers(root), m)
  }

  lemma ListStaysSound(h: Host, old': Section, items: seq<Value>, backends: Section, after: seq<Value>, m: nat)
    requires ListSound(h, old', items, m) && old'.Keys <= backends.Keys
    requires m <= |after| && Unique(h, after[..m])
    requires forall x <- after[m..] :: x in items[m..] || PersistsIn(backends, x)
    ensures ListSound(h, backends, after, m)
  {
    hide Unique, BackendOf;
  }

  lemma {:induction false} DedupeKeepsPrefix(h: Host, a: seq<Value>, b: seq<Value>, seen: set<string>)
    requires Unique(h, a) && Keys(h, a) !! seen
    ensures a <= DedupeFrom(h, a + b, seen)
    ensures forall x <- DedupeFrom(h, a + b, seen)[|a|..] :: x in b
    decreases a
  {
    hide ProviderKey;
    if a == [] {
      assert a + b == b;
      DedupeKeepsMembers(h, b, seen);
    } else {
      var key, rest := ProviderKey(h, a[0]), a[1..];
      assert a == [a[0]] + rest && (a + b)[1..] == rest + b;
      KeysOfCons(h, a[0], rest);
      assert forall i :: 0 <= i < |rest| ==> rest[i] == a[i + 1];
      DedupeKeepsPrefix(h, rest, b, if key == "" then seen else seen + {key});
    }
  }

  lemma {:induction false} DedupeKeepsMembers(h: Host, items: seq<Value>, seen: set<string>)
    ensures forall x <- DedupeFrom(h, items, seen) :: x in items
    decreases items
  {
    hide ProviderKey;
    if items != [] {
      var key := ProviderKey(h, items[0]);
      DedupeKeepsMembers(h, items[1..], seen);
      DedupeKeepsMembers(h, items[1..], if key == "" then seen else seen + {key});
    }
  }

  lemma PrefixOfDedupe(h: Host, items: seq<Value>, m: nat)
    requires m <= |items| && Unique(h, items[..m])
    ensures var d := DedupeList(h, items);
            m <= |d| && d[..m] == items[..m] && forall x <- d[m..] :: x in items[m..]
  {
    hide Unique, Keys;
    assert items == items[..m] + items[m..];
    DedupeKeepsPrefix(h, items[..m], items[m..], {});
  }

  lemma DedupeIsSound(h: Host, root: Section, m: nat)
    requires SoundFrom(h, root, m) && Dedupe(h, root).Ok?
    ensures SoundFrom(h, Dedupe(h, root).value, m)
  {
    hide Dedupe, DedupeList, Unique, PersistsIn, Providers, BackendsIn;
    DedupedProviders(h, root);
    DedupeKeepsLookups(h, root);
    PrefixOfDedupe(h, Providers(root), m);
    ListStaysSound(h, BackendsIn(root), Providers(root), BackendsIn(root), DedupeList(h, Providers(root)), m);
  }

  /** The entries a config has before its providers are added to: the deduplicated list, if it has one. */
  function Given(h: Host, root: Section): seq<Value> {
    DedupeList(h, Providers(root))
  }

  lemma ByokIsSound(h: Host, stores: seq<Value>, root: Section)
    requires Trimmed(h, stores) && Byok(h, List(stores), root).Ok?
    ensures SoundFrom(h, Byok(h, List(stores), root).value, |Given(h, root)|)
  {
    hide Byok, Dedupe, Sub, Unique, DedupeList, BackendOf, BackendsIn, Trimmed, ListAt, VectorIoItems;
    var r, m := Byok(h, List(stores), root).value, |Given(h, root)|;
    DedupeLaws(h, Providers(root));
    if stores == [] {
      NoStoresDedupe(h, root);
      DedupedProviders(h, root);
      assert Providers(r)[..m] == Providers(r);
    } else {
      AddedProvidersResolve(h, stores, root);
      ItemsAreDeduped(h, root);
      assert Providers(r)[..m] == Given(h, root);
      assert forall x <- Providers(r)[m..] :: exists i :: m <= i < |Providers(r)| && x == Providers(r)[i];
    }
  }

  lemma SolrEntryPersists(h: Host, url: Value, filter: Value)
    ensures BackendOf(SolrProvider(h, url, filter)) == Str("kv_default")
  {
  }

  lemma SolrIsSound(h: Host, i: Inputs, root: Section, m: nat)
    requires SoundFrom(h, root, m) && Solr(h, i.inline, i.tool, i.okp, root).Ok?
    ensures SoundFrom(h, Solr(h, i.inline, i.tool, i.okp, root).value, m)
  {
    hide SolrEnabled, OkpEnabled, Unique, BackendsIn, Providers, BackendOf, SolrProvider, HasRow;
    if OkpEnabled(i.inline, i.tool) == Ok(true) {
      var okp, r := i.okp.entries, Solr(h, i.inline, i.tool, i.okp, root).value;
      SolrListed(h, okp, root);
      SolrBackends(h, i, root);
      SolrEntryPersists(h, GetOr(okp, "rhokp_url", Null), GetOr(okp, "chunk_filter_query", Null));
      assert Providers(r)[..m] == Providers(root)[..m];
      ListStaysSound(h, BackendsIn(root), Providers(root), BackendsIn(r), Providers(r), m);
    }
  }

  // ----- declared vector stores --------------------------------------------

  lemma {:induction false} ReplacedOrKept(items: seq<Value>, id: string, entry: Value, i: nat)
    requires i < |items|
    ensures ReplaceFirst(items, id, entry)[i] in {items[i], entry}
  {
    if i > 0 && !IsEntryOf(items[0], id) {
      ReplacedOrKept(items[1..], id, entry, i - 1);
    }
  }

  lemma EntriesAre(p: Progress, id: string, plan: Plan, i: nat)
    requires i < |EntriesWith(id, plan, p)|
    ensures var r := EntriesWith(id, plan, p);
            |r| >= |p.vectorIo| && (r[i] == plan.entry || (i < |p.vectorIo| && r[i] == p.vectorIo[i]))
  {
    hide ReplaceFirst;
    if id in p.known {
      ReplacedOrKept(p.vectorIo, id, plan.entry, i);
    }
  }

  lemma PrefixStaysUnique(h: Host, a: seq<Value>, b: seq<Value>, m: nat)
    requires m <= |a| && Unique(h, a[..m]) && KeepsKeys(h, a, b)
    requires forall i :: 0 <= i < |a| && b[i] != a[i] ==> b[i].Map?
    ensures Unique(h, b[..m])
  {
    hide ProviderKey;
  }

  lemma BackendsOnlyGrow(id: string, plan: Plan, backends: Value)
    requires BackendsWith(id, plan, backends).Ok?
    ensures BackendMap(backends).Keys <= BackendMap(BackendsWith(id, plan, backends).value).Keys
  {
  }

  predicate LoopSound(h: Host, p: Progress, m: nat) {
    ListSound(h, BackendMap(p.backends), p.vectorIo, m)
  }

  lemma OneIsSound(h: Host, p: Progress, e: Value, m: nat)
    requires LoopSound(h, p, m) && EnrichOne(h, p, e).Ok?
    ensures LoopSound(h, EnrichOne(h, p, e).value, m)
  {
    hide EnrichOne, DeclaredId, PlanOf, BackendsWith, EntriesWith, ModelsWith, IsEntryOf, ProviderKey, Strip,
      KeepsKeys, Unique, BackendOf;
    OneIsParts(h, p, e);
    var id, n := DeclaredId(h, e).value, EnrichOne(h, p, e).value;
    var plan := PlanOf(h, id, e).value;
    PlanResolves(h, id, e, p.backends, n.backends);
    BackendsOnlyGrow(id, plan, p.backends);
    EntriesKeepKeys(h, p, id, plan);
    EntryOfIsMap(plan.entry, id);
    forall i | 0 <= i < |n.vectorIo|
      ensures |n.vectorIo| >= |p.vectorIo|
              && (n.vectorIo[i] == plan.entry || (i < |p.vectorIo| && n.vectorIo[i] == p.vectorIo[i]))
    {
      EntriesAre(p, id, plan, i);
    }
    GrownIsSound(h, p, n, plan.entry, m);
  }

  lemma GrownIsSound(h: Host, p: Progress, n: Progress, entry: Value, m: nat)
    requires LoopSound(h, p, m) && BackendMap(p.backends).Keys <= BackendMap(n.backends).Keys
    requires KeepsKeys(h, p.vectorIo, n.vectorIo) && entry.Map? && PersistsIn(BackendMap(n.backends), entry)
    requires forall i :: 0 <= i < |n.vectorIo| ==>
               n.vectorIo[i] == entry || (i < |p.vectorIo| && n.vectorIo[i] == p.vectorIo[i])
    ensures LoopSound(h, n, m)
  {
    hide Unique, BackendOf, ProviderKey;
    PrefixStaysUnique(h, p.vectorIo, n.vectorIo, m);
    forall x <- n.vectorIo[m..] ensures x in p.vectorIo[m..] || x == entry {
      var j :| 0 <= j < |n.vectorIo[m..]| && n.vectorIo[m..][j] == x;
      assert x == n.vectorIo[m + j];
      assert x != entry ==> x == p.vectorIo[m..][j];
    }
    ListStaysSound(h, BackendMap(p.backends), p.vectorIo, BackendMap(n.backends), n.vectorIo, m);
  }

  lemma {:induction false} LoopIsSound(h: Host, p: Progress, entries: seq<Value>, m: nat)
    requires LoopSound(h, p, m) && EnrichEach(h, p, entries).Ok?
    ensures LoopSound(h, EnrichEach(h, p, entries).value, m)
    decreases entries
  {
    hide EnrichOne, LoopSound;
    if entries != [] {
      OneIsSound(h, p, entries[0], m);
      LoopIsSound(h, EnrichOne(h, p, entries[0]).value, entries[1..], m);
    }
  }

  /** With every entry from the given place on persisting, so does every entry from there on after the pass. */
  lemma VectorStoreIsSound(h: Host, section: Value, root: Section, m: nat)
    requires SoundFrom(h, root, m) && VectorStore(h, section, root).Ok?
    ensures SoundFrom(h, VectorStore(h, section, root).value, m)
  {
    hide VectorStore, EnrichEach, Dedupe, DedupeList, Unique, BackendsIn, Providers, PersistsIn, DeclaredIn, Indexed;
    if DeclaredIn(section) == [] {
      NothingDeclared(h, section, root);
      DedupeIsSound(h, root, m);
    } else {
      var p, n := VectorStoreRuns(h, section, root);
      LoopIsSound(h, p, DeclaredIn(section), m);
      PrefixOfDedupe(h, n.vectorIo, m);
      ListStaysSound(h, BackendMap(n.backends), n.vectorIo, BackendMap(n.backends), DedupeList(h, n.vectorIo), m);
    }
  }

  /** After the enrichment ids are distinct and, with trimmed rag_ids, every entry beyond those given persists. */
  lemma EnrichmentPersists(h: Host, lcs: Section, i: Inputs, stores: seq<Value>, root: Section)
    requires ReadInputs(lcs) == Ok(i) && i.stores == List(stores) && EnrichUnified(h, lcs, root).Ok?
    ensures Unique(h, Providers(EnrichUnified(h, lcs, root).value))
    ensures Trimmed(h, stores) ==> SoundFrom(h, EnrichUnified(h, lcs, root).value, |Given(h, root)|)
  {
    hide Azure, Byok, Solr, VectorStore, Dedupe, ReadInputs, EnrichUnified, Unique, SoundFrom, Trimmed, Providers,
      DedupeList;
    var t := Staged(h, lcs, i, stores, root);
    EnrichedIsUnique(h, lcs, i, stores, root, t);
    if Trimmed(h, stores) {
      var m := |Given(h, root)|;
      AzureKeeps(i.azure, root);
      ByokIsSound(h, stores, t.azure);
      SolrIsSound(h, i, t.byok, m);
      VectorStoreIsSound(h, GetOr(lcs, "vector_store", Null), t.solr, m);
      DedupeIsSound(h, t.declared, m);
    }
  }

  // ----- vector store rows -------------------------------------------------

  lemma VectorStoreKeepsRows(h: Host, section: Value, root: Section)
    requires VectorStore(h, section, root).Ok?
    ensures StoreRows(VectorStore(h, section, root).value) == StoreRows(root)
  {
    hide EnrichEach, Store, WithDefaults, Dedupe, Sub, Designated, Begin, DeclaredIn;
    if DeclaredIn(section) == [] {
      NothingDeclared(h, section, root);
      DedupeKeepsLookups(h, root);
    } else {
      DeclaredAreSection(section);
      var entries := DeclaredIn(section);
      var designated := Designated(h, entries, GetOr(section.entries, "default_provider", Null)).value;
      var stored := Store(root, EnrichEach(h, Begin(h, root).value, entries).value).value;
      StoreKeepsRows(root, EnrichEach(h, Begin(h, root).value, entries).value);
      DefaultsKeepSections(h, stored, designated);
      DedupeKeepsLookups(h, WithDefaults(h, stored, designated).value);
    }
  }

  lemma StoreKeepsRows(root: Section, p: Progress)
    requires Store(root, p).Ok?
    ensures Sub(Store(root, p).value, "registered_resources", "vector_stores")
            == Sub(root, "registered_resources", "vector_stores")
  {
    var r1 := PutSub(root, "storage", "backends", p.backends).value;
    var r2 := PutSub(r1, "providers", "vector_io", List(p.vectorIo)).value;
    SubElsewhere(root, r2, "registered_resources", "vector_stores");
    SiblingStays(r2, Store(root, p).value, "registered_resources", "models", "vector_stores", p.models);
  }

  lemma ByokRows(h: Host, stores: seq<Value>, root: Section)
    requires Byok(h, List(stores), root).Ok?
    ensures var before, after := StoreRows(root), StoreRows(Byok(h, List(stores), root).value);
            before <= after && forall k :: |before| <= k < |after| ==> IsStoreRowOf(h, stores, after[k])
  {
    hide Byok, Dedupe, IsStoreRowOf, ListAt;
    if stores == [] {
      NoStoresDedupe(h, root);
      DedupeKeepsLookups(h, root);
    } else {
      AddedRowsAreStoreRows(h, stores, root);
    }
  }

  lemma SolrRows(h: Host, i: Inputs, root: Section)
    requires Solr(h, i.inline, i.tool, i.okp, root).Ok?
    ensures var before, after := StoreRows(root), StoreRows(Solr(h, i.inline, i.tool, i.okp, root).value);
            after == before || (OkpEnabled(i.inline, i.tool) == Ok(true) && after == before + [SOLR_STORE_ROW])
  {
    hide SolrEnabled, OkpEnabled, Sub, WithRow, HasRow, ResultOf;
    if OkpEnabled(i.inline, i.tool) == Ok(true) {
      SolrRowIds();
      SolrSections(h, i.okp.entries, root);
      UpdatesAreRows(h, i.okp.entries);
      RowAppended(root, SolrEnabled(h, i.okp.entries, root).value, "registered_resources", "vector_stores",
                  "vector_store_id", Str(SOLR_STORE), SOLR_STORE_ROW);
    }
  }

  /** Rows are only added: rows of the declared stores, then Solr's if it is enabled. */
  lemma EnrichedRows(h: Host, lcs: Section, i: Inputs, stores: seq<Value>, root: Section)
    requires ReadInputs(lcs) == Ok(i) && i.stores == List(stores) && EnrichUnified(h, lcs, root).Ok?
    ensures var before, after := StoreRows(root), StoreRows(EnrichUnified(h, lcs, root).value);
            before <= after && forall k :: |before| <= k < |after| ==>
              IsStoreRowOf(h, stores, after[k])
                || (OkpEnabled(i.inline, i.tool) == Ok(true) && after[k] == SOLR_STORE_ROW)
  {
    hide Azure, Byok, Solr, VectorStore, Dedupe, ReadInputs, EnrichUnified, StoreRows, IsStoreRowOf, OkpEnabled;
    var t := Staged(h, lcs, i, stores, root);
    AzureKeeps(i.azure, root);
    ByokRows(h, stores, t.azure);
    SolrRows(h, i, t.byok);
    VectorStoreKeepsRows(h, GetOr(lcs, "vector_store", Null), t.solr);
    DedupeKeepsLookups(h, t.declared);
  }

  // ----- what the rows refer to --------------------------------------------

  predicate SameRagId(h: Host, stores: seq<Value>, s: Value) {
    exists t <- stores :: Truthy(ModelOf(t)) && RagText(h, t) == RagText(h, s)
  }

  /**
   * The row of a store: the provider it names exists exactly as the config before says, which for a trimmed rag_id
   * means that the id is not shadowed; the model it names is registered exactly if it was, or some store with this
   * rag_id gives a model.
   */
  predicate StoreRowRefers(h: Host, lcs: Section, i: Inputs, stores: seq<Value>, root: Section, r: Section, s: Value,
                           row: Value) {
    var id, name := "byok_" + RagText(h, s), EmbeddingName(RagText(h, s));
    && Names(row, id, TRANSFORMERS + name)
    && (Strip(RagText(h, s)) == RagText(h, s) ==> (ProviderExists(r, id) <==> !Shadowed(h, root, id)))
    && (ProviderExists(r, id)
        <==> if First(h, root, Strip(id)).Some? then IsEntryOf(First(h, root, Strip(id)).value, id)
             else Strip(id) == id && Introduced(h, lcs, i, stores, id))
    && (Registered(Models(r), name) <==> Registered(Models(root), name) || SameRagId(h, stores, s))
  }

  /**
   * Solr's row: the provider it names exists exactly if the config does not shadow the id; the model it names is
   * registered exactly if it was, or no row had the bare path of the model when the pass looked.
   */
  predicate SolrRowRefers(h: Host, stores: seq<Value>, root: Section, r: Section, row: Value) {
    && Names(row, SOLR_ID, SOLR_MODEL_ID)
    && (ProviderExists(r, SOLR_ID) <==> !Shadowed(h, root, SOLR_ID))
    && (Registered(Models(r), SOLR_MODEL_ID)
        <==> Registered(Models(root), SOLR_MODEL_ID) || !SolrModelFound(h, stores, root))
  }

  predicate RowRefers(h: Host, lcs: Section, i: Inputs, stores: seq<Value>, root: Section, r: Section, row: Value) {
    || (exists s <- stores :: StoreRowRefers(h, lcs, i, stores, root, r, s, row))
    || SolrRowRefers(h, stores, root, r, row)
  }

  lemma EmbeddingNameInjective(a: string, b: string)
    requires EmbeddingName(a) == EmbeddingName(b)
    ensures a == b
  {
    var s := EmbeddingName(a);
    assert |s| == 5 + |a| + 10 == 5 + |b| + 10;
    assert s[5..5 + |a|] == a && s[5..5 + |b|] == b;
  }

  lemma NamesDiffer(a: string, b: string)
    ensures EmbeddingName(a) != VsEmbeddingName(b) && EmbeddingName(a) != SOLR_MODEL_ID
            && VsEmbeddingName(b) != SOLR_MODEL_ID
  {
    assert EmbeddingName(a)[0] == 'b' && VsEmbeddingName(b)[0] == 'v' && SOLR_MODEL_ID[0] == 's';
  }

  /** Which names the passes bring does not overlap. */
  lemma ByokModelIs(h: Host, stores: seq<Value>, entries: seq<Value>, s: Value)
    ensures ByokModel(h, stores, EmbeddingName(RagText(h, s))) <==> SameRagId(h, stores, s)
    ensures !DeclaresModel(h, entries, EmbeddingName(RagText(h, s))) && EmbeddingName(RagText(h, s)) != SOLR_MODEL_ID
  {
    hide EmbeddingName, VsEmbeddingName, RagText, ModelOf, Embeds, DeclaredId;
    var name := EmbeddingName(RagText(h, s));
    NamesDiffer(RagText(h, s), "");
    forall t <- stores | EmbeddingName(RagText(h, t)) == name ensures RagText(h, t) == RagText(h, s) {
      EmbeddingNameInjective(RagText(h, t), RagText(h, s));
    }
    forall e <- entries | DeclaredId(h, e).Ok? ensures VsEmbeddingName(DeclaredId(h, e).value) != name {
      NamesDiffer(RagText(h, s), DeclaredId(h, e).value);
    }
  }

  lemma SolrModelIsOwn(h: Host, stores: seq<Value>, entries: seq<Value>)
    ensures !ByokModel(h, stores, SOLR_MODEL_ID) && !DeclaresModel(h, entries, SOLR_MODEL_ID)
  {
    hide EmbeddingName, VsEmbeddingName, RagText, ModelOf, Embeds, DeclaredId;
    forall s <- stores ensures EmbeddingName(RagText(h, s)) != SOLR_MODEL_ID {
      NamesDiffer(RagText(h, s), "");
    }
    forall e <- entries | DeclaredId(h, e).Ok? ensures VsEmbeddingName(DeclaredId(h, e).value) != SOLR_MODEL_ID {
      NamesDiffer("", DeclaredId(h, e).value);
    }
  }

  lemma StoreIsIntroduced(h: Host, lcs: Section, i: Inputs, stores: seq<Value>, s: Value)
    requires s in stores && Strip(RagText(h, s)) == RagText(h, s)
    ensures Introduced(h, lcs, i, stores, "byok_" + RagText(h, s))
  {
    hide RagText, Strip, OkpEnabled, LastDeclared;
    assert ByokId(h, s) == "byok_" + RagText(h, s);
  }

  lemma StoreRowRefersExactly(h: Host, lcs: Section, i: Inputs, stores: seq<Value>, root: Section, s: Value, row: Value)
    requires ReadInputs(lcs) == Ok(i) && i.stores == List(stores) && EnrichUnified(h, lcs, root).Ok?
    requires s in stores && s.Map? && row == StoreRow(h, s, GetOr(s.entries, "rag_id", Null), StoreId(s))
    ensures StoreRowRefers(h, lcs, i, stores, root, EnrichUnified(h, lcs, root).value, s, row)
  {
    RowNames(h, s, row);
    hide EnrichUnified, ReadInputs, StoreRow, EmbeddingName, First, IsEntryOf, Registered, ProviderExists, Models,
      OkpEnabled, RagText, Strip, SolrModelFound, Introduced, ByokModel, DeclaresModel, SameRagId, Names;
    ByokIsProper(RagText(h, s));
    ProviderExistsExactly(h, lcs, i, stores, root, "byok_" + RagText(h, s));
    if Strip(RagText(h, s)) == RagText(h, s) {
      StoreIsIntroduced(h, lcs, i, stores, s);
    }
    ModelExistsExactly(h, lcs, i, stores, root, EmbeddingName(RagText(h, s)));
    ByokModelIs(h, stores, DeclaredIn(GetOr(lcs, "vector_store", Null)), s);
  }

  lemma SolrRowRefersExactly(h: Host, lcs: Section, i: Inputs, stores: seq<Value>, root: Section)
    requires ReadInputs(lcs) == Ok(i) && i.stores == List(stores) && EnrichUnified(h, lcs, root).Ok?
    requires OkpEnabled(i.inline, i.tool) == Ok(true)
    ensures SolrRowRefers(h, stores, root, EnrichUnified(h, lcs, root).value, SOLR_STORE_ROW)
  {
    SolrIdIsProper();
    hide EnrichUnified, ReadInputs, FirstWith, IsEntryOf, Registered, ProviderExists, Models, OkpEnabled, LastDeclared,
      Strip, SolrModelFound, ByokModel, DeclaresModel, ByokNames, Names;
    ProviderExistsExactly(h, lcs, i, stores, root, SOLR_ID);
    ModelExistsExactly(h, lcs, i, stores, root, SOLR_MODEL_ID);
    SolrModelIsOwn(h, stores, DeclaredIn(GetOr(lcs, "vector_store", Null)));
  }

  lemma SolrIdIsProper()
    ensures Strip(SOLR_ID) == SOLR_ID && SOLR_ID != "" && Names(SOLR_STORE_ROW, SOLR_ID, SOLR_MODEL_ID)
  {
    StripOfTrimmed(SOLR_ID);
  }

  /** Every vector store row that the enrichment adds refers to a provider and a model that exist exactly as stated. */
  lemma EnrichmentRefers(h: Host, lcs: Section, i: Inputs, stores: seq<Value>, root: Section)
    requires ReadInputs(lcs) == Ok(i) && i.stores == List(stores) && EnrichUnified(h, lcs, root).Ok?
    ensures var r := EnrichUnified(h, lcs, root).value;
            StoreRows(root) <= StoreRows(r) && forall k :: |StoreRows(root)| <= k < |StoreRows(r)| ==>
              RowRefers(h, lcs, i, stores, root, r, StoreRows(r)[k])
  {
    hide EnrichUnified, ReadInputs, StoreRowRefers, SolrRowRefers, OkpEnabled, StoreRows, StoreRow;
    var r := EnrichUnified(h, lcs, root).value;
    EnrichedRows(h, lcs, i, stores, root);
    forall k | |StoreRows(root)| <= k < |StoreRows(r)| ensures RowRefers(h, lcs, i, stores, root, r, StoreRows(r)[k]) {
      var row := StoreRows(r)[k];
      if IsStoreRowOf(h, stores, row) {
        var s :| s in stores && s.Map? && row == StoreRow(h, s, GetOr(s.entries, "rag_id", Null), StoreId(s));
        StoreRowRefersExactly(h, lcs, i, stores, root, s, row);
      } else {
        SolrRowRefersExactly(h, lcs, i, stores, root);
      }
    }
  }

  // ----- declared providers and defaults -----------------------------------

  /** The last entry declared with the id is in force and persists, exactly if the id was not shadowed. */
  predicate DeclaredHolds(h: Host, lcs: Section, root: Section, r: Section, id: string)
    requires LastDeclared(h, DeclaredIn(GetOr(lcs, "vector_store", Null)), id).Some?
  {
    var plan := PlanOf(h, id, LastDeclared(h, DeclaredIn(GetOr(lcs, "vector_store", Null)), id).value);
    && plan.Ok? && Persists(r, plan.value.entry)
    && (First(h, r, id) == Some(plan.value.entry) && ProviderExists(r, id) <==> !Shadowed(h, root, id))
    && (Shadowed(h, root, id) ==> First(h, r, id) == First(h, root, id) && !ProviderExists(r, id))
  }

  /**
   * After the enrichment a declared provider is in force, under exactly its id and with a backend that exists,
   * exactly if the config did not have another entry under the stripped id; if it did, that entry stays the first
   * one and no provider has the declared id.
   */
  lemma DeclaredResolve(h: Host, lcs: Section, i: Inputs, stores: seq<Value>, root: Section, id: string)
    requires ReadInputs(lcs) == Ok(i) && i.stores == List(stores) && EnrichUnified(h, lcs, root).Ok?
    requires id != "" && LastDeclared(h, DeclaredIn(GetOr(lcs, "vector_store", Null)), id).Some?
    ensures DeclaredHolds(h, lcs, root, EnrichUnified(h, lcs, root).value, id)
  {
    hide Azure, Byok, Solr, VectorStore, Dedupe, ReadInputs, EnrichUnified, DeclaredIn, FirstWith, PlanOf, IsEntryOf,
      Providers, BackendOf, BackendsIn, LastDeclared, Strip, Introduced;
    var section := GetOr(lcs, "vector_store", Null);
    var t := Staged(h, lcs, i, stores, root);
    DeclaredIdIsProper(h, DeclaredIn(section), id);
    EnrichedFirst(h, lcs, i, stores, root, t, id);
    EnrichedIsUnique(h, lcs, i, stores, root, t);
    ExistsIfFirst(h, Providers(EnrichUnified(h, lcs, root).value), id);
    VectorStorePersists(h, section, t.solr, id);
    DedupeKeepsLookups(h, t.declared);
  }

  /** The designated provider, if one is, is the default, and the default and its model exist exactly as stated. */
  predicate DefaultsHold(h: Host, lcs: Section, root: Section, r: Section) {
    var section := GetOr(lcs, "vector_store", Null);
    DeclaredIn(section) != [] ==>
      && section.Map?
      && var designated := Designated(h, DeclaredIn(section), GetOr(section.entries, "default_provider", Null));
      && designated.Ok?
      && (designated.value.Some? ==> DefaultHolds(h, DeclaredIn(section), root, r, designated.value.value))
  }

  /**
   * After the enrichment the designated provider is the default, and exists exactly if the config did not shadow its
   * id; the default embedding model, when one is written, is registered exactly if its name was, or an entry declared
   * with this id gives a model with a dimension.
   */
  lemma DefaultsResolveExactly(h: Host, lcs: Section, i: Inputs, stores: seq<Value>, root: Section)
    requires ReadInputs(lcs) == Ok(i) && i.stores == List(stores) && EnrichUnified(h, lcs, root).Ok?
    ensures DefaultsHold(h, lcs, root, EnrichUnified(h, lcs, root).value)
  {
    hide Azure, Byok, Solr, VectorStore, Dedupe, ReadInputs, EnrichUnified, DeclaredIn, Designated, DefaultHolds;
    var section := GetOr(lcs, "vector_store", Null);
    if DeclaredIn(section) != [] {
      var t := Staged(h, lcs, i, stores, root);
      DefaultsResolve(h, section, t.solr);
      var designated := Designated(h, DeclaredIn(section), GetOr(section.entries, "default_provider", Null)).value;
      if designated.Some? {
        DefaultStays(h, lcs, i, stores, root, t, designated.value);
      }
    }
  }

  lemma DefaultStays(h: Host, lcs: Section, i: Inputs, stores: seq<Value>, root: Section, t: Stages, d: Value)
    requires RunsThrough(h, lcs, i, stores, root, t) && EnrichUnified(h, lcs, root).Ok?
    requires var section := GetOr(lcs, "vector_store", Null);
             && DeclaredIn(section) != [] && section.Map?
             && Designated(h, DeclaredIn(section), GetOr(section.entries, "default_provider", Null)) == Ok(Some(d))
    requires DefaultHolds(h, DeclaredIn(GetOr(lcs, "vector_store", Null)), t.solr, t.declared, d)
    ensures DefaultHolds(h, DeclaredIn(GetOr(lcs, "vector_store", Null)), root, EnrichUnified(h, lcs, root).value, d)
  {
    hide Azure, Byok, Solr, VectorStore, Dedupe, ReadInputs, EnrichUnified, DeclaredIn, FirstWith, PlanOf, IsEntryOf,
      Providers, LastDeclared, Introduced, Designated, DeclaredId, Models, Registered, DeclaresModel, ByokModel,
      VsEmbeddingName, OkpEnabled, SolrModelFound, Persists, ProviderExists, Shadowed;
    var section := GetOr(lcs, "vector_store", Null);
    DesignatedIsOne(h, DeclaredIn(section), GetOr(section.entries, "default_provider", Null), d);
    var id := DeclaredId(h, d).value;
    LastIsDeclared(h, DeclaredIn(section), id);
    DeclaredResolve(h, lcs, i, stores, root, id);
    ModelExistsExactly(h, lcs, i, stores, root, VsEmbeddingName(id));
    VsModelIsOwn(h, stores, id);
    DedupeKeepsOthers(h, t.declared);
  }

  lemma VsModelIsOwn(h: Host, stores: seq<Value>, id: string)
    ensures !ByokModel(h, stores, VsEmbeddingName(id)) && VsEmbeddingName(id) != SOLR_MODEL_ID
  {
    hide EmbeddingName, VsEmbeddingName, RagText, ModelOf;
    NamesDiffer("", id);
    forall s <- stores ensures EmbeddingName(RagText(h, s)) != VsEmbeddingName(id) {
      NamesDiffer(RagText(h, s), id);
    }
  }

  // ----- synthesis ---------------------------------------------------------

  /** Synthesis up to and including the override. */
  function Assemble(h: Host, files: Files, lcs: Section): Outcome {
    var unified := GetOr(OgxSection(lcs), "config", Null);
    var base :- SelectBaseline(files, unified);
    var r1 :- Dedupe(h, base.config);
    var r2 :- HighLevelInference(OrEmpty(GetOr(lcs, "inference", Null)), r1);
    var r3 :- if base.empty then Ok(r2) else McpToolRuntime(r2);
    Override(unified, r3)
  }

  lemma SynthesisEnrichesLast(h: Host, files: Files, lcs: Section)
    requires Synthesize(h, files, lcs).Ok?
    ensures Assemble(h, files, lcs).Ok? && Synthesize(h, files, lcs)
            == EnrichUnified(h, lcs, Assemble(h, files, lcs).value)
  {
    hide SelectBaseline, Dedupe, HighLevelInference, McpToolRuntime, Override, EnrichUnified;
  }

  /**
   * A synthesized config, relative to what was assembled before enrichment: ids are distinct; with trimmed rag_ids
   * every added provider entry persists; every added vector store row refers to what exists exactly as stated; so
   * do the defaults; and every declared provider is in force with a backend exactly if it is not shadowed.
   */
  lemma SynthesisResolves(h: Host, files: Files, lcs: Section, i: Inputs, stores: seq<Value>)
    requires ReadInputs(lcs) == Ok(i) && i.stores == List(stores) && Synthesize(h, files, lcs).Ok?
    ensures Assemble(h, files, lcs).Ok?
    ensures var root, r := Assemble(h, files, lcs).value, Synthesize(h, files, lcs).value;
            && Unique(h, Providers(r)) && (Trimmed(h, stores) ==> SoundFrom(h, r, |Given(h, root)|))
            && StoreRows(root) <= StoreRows(r)
            && (forall k :: |StoreRows(root)| <= k < |StoreRows(r)| ==>
                  RowRefers(h, lcs, i, stores, root, r, StoreRows(r)[k]))
            && DefaultsHold(h, lcs, root, r)
            && forall id: string |
                 id != "" && LastDeclared(h, DeclaredIn(GetOr(lcs, "vector_store", Null)), id).Some? ::
                 DeclaredHolds(h, lcs, root, r, id)
  {
    SynthesisEnrichesLast(h, files, lcs);
    hide Synthesize, Assemble, EnrichUnified, ReadInputs, Unique, SoundFrom, Given, RowRefers, StoreRows, Providers,
      Trimmed, DefaultsHold, LastDeclared, DeclaredIn, PlanOf, First, Shadowed, Persists, ProviderExists;
    var root := Assemble(h, files, lcs).value;
    EnrichmentPersists(h, lcs, i, stores, root);
    EnrichmentRefers(h, lcs, i, stores, root);
    DefaultsResolveExactly(h, lcs, i, stores, root);
    forall id: string | id != "" && LastDeclared(h, DeclaredIn(GetOr(lcs, "vector_store", Null)), id).Some?
      ensures DeclaredHolds(h, lcs, root, Synthesize(h, files, lcs).value, id)
    {
      DeclaredResolve(h, lcs, i, stores, root, id);
    }
  }
}
