/** Configs at which the exact conditions on the enrichment passes are not met. */
module Counterexamples {
  import opened Wrappers
  import opened PyText
  import opened Yaml
  import opened VectorIo
  import opened Enrichment
  import opened PassLaws
  import opened HighLevel
  import opened HighLevelLaws
  import opened ModeEquivalence
  import opened ByokLaws
  import opened VectorStores
  import opened VectorStoreLaws
  import opened VectorStoreTwice
  import opened Existence
  import opened SolrLaws
  import opened Pipelines

  // ----- library mode and service mode -------------------------------------

  const BLANK_SOLR_ROW := Map(map["provider_id" := Str(" okp_solr ")])
  const BLANK_SOLR_CONFIG: Section := map["providers" := Map(map["vector_io" := List([BLANK_SOLR_ROW])])]
  const SOLR_ONLY := Inputs(Null, List([]), List([Str("okp")]), List([]), EMPTY)

  /** With an entry written `" okp_solr "` and Solr enabled, both modes succeed and give different trees. */
  lemma BlankSolrIdSeparatesModes(h: Host)
    ensures LibraryPass(h, SOLR_ONLY)(BLANK_SOLR_CONFIG).Ok?
    ensures LibraryPass(h, SOLR_ONLY)(BLANK_SOLR_CONFIG) != ServicePass(h, SOLR_ONLY)(BLANK_SOLR_CONFIG)
  {
    BlankSolrIsShadow(h);
    SolrOnlyRuns(h);
    SolrOnlyIsEnabled();
    hide LibraryPass, ServicePass, Shadowed, OkpEnabled;
    LibraryMatchesServiceExactly(h, SOLR_ONLY, BLANK_SOLR_CONFIG);
  }

  lemma SolrOnlyIsEnabled()
    ensures OkpEnabled(SOLR_ONLY.inline, SOLR_ONLY.tool) == Ok(true)
  {
    assert Str("okp") in [Str("okp")];
  }

  lemma BlankSolrIsShadow(h: Host)
    ensures Shadowed(h, BLANK_SOLR_CONFIG, SOLR_ID) && BlankSolrRows(BLANK_SOLR_CONFIG)
    ensures Unique(h, [BLANK_SOLR_ROW])
  {
    StripOfTrimmed(SOLR_ID);
    assert Strip(" okp_solr ") == SOLR_ID by {
      assert " okp_solr "[1..] == "okp_solr ";
      assert LStrip(" okp_solr ", IsSpace) == "okp_solr ";
      assert "okp_solr "[..8] == "okp_solr";
    }
    assert ProviderKey(h, BLANK_SOLR_ROW) == SOLR_ID;
    assert |" okp_solr "| == 10 && |SOLR_ID| == 8;
  }

  predicate BlankSolrRows(root: Section) {
    root.Keys == {"providers"} && Sub(root, "providers", "vector_io") == Ok(Some(List([BLANK_SOLR_ROW])))
  }

  lemma SolrOnlyRuns(h: Host)
    ensures LibraryPass(h, SOLR_ONLY)(BLANK_SOLR_CONFIG).Ok?
  {
    BlankSolrIsShadow(h);
    SolrOnlyIsEnabled();
    hide SolrEnabled, OkpEnabled, Unique, DedupeList;
    var root := BLANK_SOLR_CONFIG;
    CleanIsUnique(h, root, Some(List([BLANK_SOLR_ROW])));
    assert Byok(h, SOLR_ONLY.stores, root) == Ok(root);
    NewRows();
    SolrRunsOn(h, map[], root);
    assert Solr(h, SOLR_ONLY.inline, SOLR_ONLY.tool, SOLR_ONLY.okp, root) == SolrEnabled(h, map[], root);
  }

  /** Solr can be enabled where the sections it writes to are mappings and their lists take a row. */
  lemma SolrRunsOn(h: Host, okp: Section, root: Section)
    requires okp == map[]
    requires GetOr(root, "providers", EMPTY).Map? && GetOr(root, "registered_resources", EMPTY).Map?
    requires Takes(root, "providers", "vector_io", SolrProviderRow(h, okp))
    requires Takes(root, "registered_resources", "vector_stores", SOLR_STORE_UPDATE)
    requires Takes(root, "registered_resources", "models", SOLR_MODEL_UPDATE)
    ensures SolrEnabled(h, okp, root).Ok?
  {
    hide Sub, Update, SolrProviderRow, WithRow;
    var r0 := WithProvidersDir(root);
    SubElsewhere(root, r0, "providers", "vector_io");
    UpdateRuns(r0, "providers", "vector_io", SolrProviderRow(h, okp));
    var r1 := Update(r0, "providers", "vector_io", SolrProviderRow(h, okp)).value;
    UpdateSets(r0, "providers", "vector_io", SolrProviderRow(h, okp));
    SubElsewhere(root, r1, "registered_resources", "vector_stores");
    SubElsewhere(root, r1, "registered_resources", "models");
    UpdateRuns(r1, "registered_resources", "vector_stores", SOLR_STORE_UPDATE);
    UpdateSets(r1, "registered_resources", "vector_stores", SOLR_STORE_UPDATE);
    var r2 := Update(r1, "registered_resources", "vector_stores", SOLR_STORE_UPDATE).value;
    SiblingStays(r1, r2, "registered_resources", "vector_stores", "models",
                 SOLR_STORE_UPDATE(Sub(r1, "registered_resources", "vector_stores").value).value);
    UpdateRuns(r2, "registered_resources", "models", SOLR_MODEL_UPDATE);
  }

  predicate Takes(root: Section, outer: string, inner: string, rewrite: Rewrite) {
    Sub(root, outer, inner).Ok? && rewrite(Sub(root, outer, inner).value).Ok?
  }

  lemma UpdateRuns(root: Section, outer: string, inner: string, rewrite: Rewrite)
    requires GetOr(root, outer, EMPTY).Map? && Sub(root, outer, inner).Ok? && rewrite(Sub(root, outer, inner).value).Ok?
    ensures Update(root, outer, inner, rewrite).Ok?
  {
  }

  lemma NewRows()
    ensures SOLR_STORE_UPDATE(None).Ok? && SOLR_MODEL_UPDATE(None).Ok?
  {
  }

  // ----- Solr twice --------------------------------------------------------

  /** On an empty config the Solr pass succeeds, and once more it registers its model a second time. */
  lemma SolrOnEmptyRepeats(h: Host)
    ensures var once := SolrEnabled(h, map[], map[]);
            once.Ok? && SolrEnabled(h, map[], once.value).Ok? && SolrEnabled(h, map[], once.value) != once
  {
    hide SolrEnabled, SolrProvider;
    NewProviderRow(h);
    NewRows();
    SolrRunsOn(h, map[], map[]);
    SolrTwiceExactly(h, map[], map[]);
  }

  lemma NewProviderRow(h: Host)
    ensures SolrProviderRow(h, map[])(None).Ok?
  {
    hide SolrProvider;
  }

  // ----- a Solr model that is not registered -------------------------------

  /** Another model row that serves the path of the Solr model. */
  const SAME_PATH_ROW := Map(map["model_id" := Str("granite"), "provider_model_id" := Str(SOLR_MODEL_PATH)])
  const SAME_PATH_CONFIG: Section := map["registered_resources" := Map(map["models" := List([SAME_PATH_ROW])])]

  /** Solr then succeeds and adds its store, and the model this store names is not registered. */
  lemma SolrModelIsLeftOut(h: Host)
    ensures var r := SolrEnabled(h, map[], SAME_PATH_CONFIG);
            && r.Ok? && SOLR_STORE_ROW in StoreRows(r.value)
            && !HasRow(Models(r.value), "model_id", Str(SOLR_MODEL_ID))
  {
    SamePathIsFound();
    NewProviderRow(h);
    NewRows();
    hide SolrEnabled, SolrProviderRow, WithRow, SOLR_STORE_ROW, HasRow;
    SolrRunsOn(h, map[], SAME_PATH_CONFIG);
    SolrRegistersAll(h, map[], SAME_PATH_CONFIG);
    SolrSections(h, map[], SAME_PATH_CONFIG);
    UpdatesAreRows(h, map[]);
    SolrRowIds();
    RowThere("vector_store_id", Str(SOLR_STORE), SOLR_STORE_ROW, None);
    NoRows("vector_store_id", Str(SOLR_STORE));
  }

  lemma NoRows(field: string, v: Value)
    ensures !HasRow([], field, v)
  {
  }

  lemma SamePathIsFound()
    ensures Sub(SAME_PATH_CONFIG, "registered_resources", "models") == Ok(Some(List([SAME_PATH_ROW])))
    ensures Sub(SAME_PATH_CONFIG, "registered_resources", "vector_stores") == Ok(None)
    ensures SOLR_MODEL_UPDATE(Some(List([SAME_PATH_ROW]))).Ok?
    ensures HasRow([SAME_PATH_ROW], "provider_model_id", Str(SOLR_MODEL_PATH))
    ensures !HasRow([SAME_PATH_ROW], "model_id", Str(SOLR_MODEL_ID))
  {
    assert SAME_PATH_ROW in [SAME_PATH_ROW];
    assert |"granite"| < |SOLR_MODEL_ID|;
  }

  // ----- a vector store that is added again --------------------------------

  const BLANK_ID := Map(map["id" := Str(" "), "type" := Str("pgvector")])
  const BLANK_SECTION := Map(map["providers" := List([BLANK_ID])])

  /** A vector store declared with a blank id gets one more entry from every run. */
  lemma BlankIdRepeats(h: Host)
    ensures var once := VectorStore(h, BLANK_SECTION, map[]);
            once.Ok? && VectorStore(h, BLANK_SECTION, once.value) != once
  {
    BlankIdIsEmpty(h);
    BlankIdRuns(h);
    assert BLANK_ID in [BLANK_ID];
    hide VectorStore, DeclaredId, BLANK_ID;
    VectorStoreTwiceExactly(h, BLANK_SECTION, [BLANK_ID], map[]);
    NothingThere("providers", "vector_io");
  }

  lemma BlankIdIsEmpty(h: Host)
    ensures DeclaredId(h, BLANK_ID) == Ok("")
  {
    assert LStrip(" ", IsSpace) == "";
  }

  lemma BlankIdRuns(h: Host)
    ensures VectorStore(h, BLANK_SECTION, map[]).Ok?
  {
    BeginsEmpty(h);
    var start := Begin(h, map[]).value;
    BlankIdIsTaken(h, start);
    BlankIsDeclared(h);
    hide *;
    EmptyStores(h, EnrichEach(h, start, [BLANK_ID]).value);
    PassIsParts(h, BLANK_SECTION, [BLANK_ID], map[], start, None);
  }

  lemma BlankIsDeclared(h: Host)
    ensures Declares(BLANK_SECTION, [BLANK_ID])
    ensures Designated(h, [BLANK_ID], GetOr(BLANK_SECTION.entries, "default_provider", Null)) == Ok(None)
  {
  }

  lemma BeginsEmpty(h: Host)
    ensures Begin(h, map[]) == Ok(Progress(EMPTY, [], KnownIds(h, []), List([])))
  {
  }

  lemma EmptyStores(h: Host, p: Progress)
    ensures Store(map[], p).Ok? && WithDefaults(h, Store(map[], p).value, None).Ok?
    ensures Dedupe(h, WithDefaults(h, Store(map[], p).value, None).value).Ok?
  {
    hide DedupeFrom;
  }

  lemma BlankIdIsTaken(h: Host, p: Progress)
    ensures EnrichEach(h, p, [BLANK_ID]).Ok?
  {
    BlankIdIsEmpty(h);
    assert [BLANK_ID][1..] == [];
    assert EnrichOne(h, p, BLANK_ID).Ok? by {
      hide DeclaredId, VsStorageName;
    }
    hide EnrichOne;
  }

  // ----- an expansion that repeats -----------------------------------------

  const REPEATING := Map(map["providers" := List([CONDITIONAL_PROVIDER])])

  /** A provider declared with the conditional text as its id is appended again by every expansion. */
  lemma ConditionalProviderRepeats()
    ensures var once := HighLevelInference(REPEATING, map[]);
            && once.Ok? && ListAt(once.value, "providers", "inference") == [OpenaiEntry(CONDITIONAL_OPENAI)]
            && HighLevelInference(REPEATING, once.value) != once
  {
    var e := Emitted(CONDITIONAL_OPENAI, OpenaiEntry(CONDITIONAL_OPENAI), []);
    ConditionalEmits();
    RepeatingIsRead();
    hide Emit, ApplyEmitted;
    assert [CONDITIONAL_PROVIDER][1..] == [] && EmitAll([]) == Ok([]) && [e] + [] == [e];
    assert EmitAll([CONDITIONAL_PROVIDER]) == Ok([e]);
    EmptyTakes([e]);
    ExpansionOfConfig([e], map[]);
  }

  lemma RepeatingIsRead()
    ensures Get(REPEATING, "providers", Null) == Ok(List([CONDITIONAL_PROVIDER]))
  {
  }

  // ----- a BYOK backend that does not exist --------------------------------

  const BLANK_STORE := Map(map["rag_id" := Str(" docs "), "vector_db_id" := Str("kb")])

  /** With rag_id `" docs "`, the provider added to an empty config names a backend that does not exist. */
  lemma BlankRagIdDangles(h: Host)
    ensures var r := Byok(h, List([BLANK_STORE]), map[]);
            r.Ok? && exists entry <- ListAt(r.value, "providers", "vector_io") ::
              BackendOf(entry).Str? && BackendOf(entry) != Str("kv_default")
                && BackendOf(entry).s !in BackendsIn(r.value)
  {
    var stores := [BLANK_STORE];
    IdsOnlyIsAccepted(h, BLANK_STORE);
    NewBackend(h, BLANK_STORE);
    BlankIsTrimmed();
    assert RagText(h, BLANK_STORE) == " docs ";
    hide Byok, RagType, Strip, Sub;
    var r := Byok(h, List(stores), map[]).value;
    var entry := AddedEntry(h);
    assert BLANK_STORE in stores;
    hide BuiltFor, BackendOf, StorageName, RagText, BackendsIn, PreviousIsList, NeedsBackend, BLANK_STORE;
    BuiltBackend(h, BLANK_STORE, entry);
    NothingStored();
    AddedBackendExists(h, stores, map[], BLANK_STORE, entry);
    NotShared();
  }

  lemma NotShared()
    ensures StorageName("docs") != "kv_default"
  {
    assert StorageName("docs")[0] == 'b' && "kv_default"[0] == 'k';
  }

  lemma NothingStored()
    ensures BackendsIn(map[]) == map[] && !PreviousIsList(map[])
  {
    NothingThere("storage", "backends");
  }

  lemma NothingThere(outer: string, inner: string)
    ensures Sub(map[], outer, inner) == Ok(None)
  {
  }

  lemma BlankIsTrimmed()
    ensures Strip(" docs ") == "docs" && " docs " != "docs"
  {
    assert " docs "[1..] == "docs ";
    assert LStrip(" docs ", IsSpace) == "docs ";
    assert "docs "[..4] == "docs";
    StripOfTrimmed("docs");
  }

  /** The row added for the same store names a provider that does not exist. */
  lemma BlankRagIdRowDangles(h: Host)
    ensures var r := Byok(h, List([BLANK_STORE]), map[]);
            && r.Ok? && StoreRows(r.value) != []
            && Names(StoreRows(r.value)[0], "byok_ docs ", TRANSFORMERS + EmbeddingName(" docs "))
            && !ProviderExists(r.value, "byok_ docs ")
  {
    StoreRowIsAdded(h);
    BlankRagIds(h);
    assert BLANK_STORE.Map?;
    hide Byok, StoreRow, RagText, First, ByokNames, BLANK_STORE, StoreRows, ProviderExists, EmbeddingName, Strip, Names;
    RowNames(h, BLANK_STORE, StoreRows(Byok(h, List([BLANK_STORE]), map[]).value)[0]);
    ByokProviderExactly(h, [BLANK_STORE], map[], "byok_ docs ");
    NoFirst(h);
    NotNamed(h);
  }

  lemma BlankRagIds(h: Host)
    ensures RagText(h, BLANK_STORE) == " docs " && "byok_" + RagText(h, BLANK_STORE) == "byok_ docs "
    ensures Strip("byok_ docs ") != ""
  {
    ByokIsProper(" docs ");
    assert "byok_" + " docs " == "byok_ docs ";
  }

  lemma NoFirst(h: Host)
    ensures First(h, map[], Strip("byok_ docs ")) == None
  {
    NothingThere("providers", "vector_io");
  }

  /** The provider of the store has the trimmed id. */
  lemma NotNamed(h: Host)
    ensures !ByokNames(h, [BLANK_STORE], "byok_ docs ")
  {
    BlankIsTrimmed();
    assert RagText(h, BLANK_STORE) == " docs ";
    assert ByokId(h, BLANK_STORE) == "byok_docs";
  }

  /** On an empty config the lists hold what each stage makes of nothing. */
  lemma FromNothing(h: Host)
    ensures Byok(h, List([BLANK_STORE]), map[]).Ok?
    ensures var r, stores := Byok(h, List([BLANK_STORE]), map[]).value, [BLANK_STORE];
            && ResultOf(map[], r, "providers", "vector_io", WithProviders(h, stores))
            && ResultOf(map[], r, "registered_resources", "vector_stores", WithStores(h, stores))
  {
    IdsOnlyIsAccepted(h, BLANK_STORE);
    hide Byok, ResultOf, BLANK_STORE, WithBackends, WithProviders, WithStores, WithModels;
    ByokSections(h, [BLANK_STORE], map[]);
  }

  lemma StoreRowIsAdded(h: Host)
    ensures Byok(h, List([BLANK_STORE]), map[]).Ok?
    ensures StoreRows(Byok(h, List([BLANK_STORE]), map[]).value)
         == [StoreRow(h, BLANK_STORE, GetOr(BLANK_STORE.entries, "rag_id", Null), StoreId(BLANK_STORE))]
  {
    NothingThere("registered_resources", "vector_stores");
    NewStore(h, BLANK_STORE);
    hide Byok, Sub, StoreRow, WithStores, WithProviders;
    FromNothing(h);
  }

  /** The only entry in the list afterwards is the one built for the store. */
  lemma AddedEntry(h: Host) returns (entry: Value)
    ensures Byok(h, List([BLANK_STORE]), map[]).Ok?
    ensures entry in ListAt(Byok(h, List([BLANK_STORE]), map[]).value, "providers", "vector_io")
    ensures BuiltFor(h, BLANK_STORE, entry)
  {
    NothingThere("providers", "vector_io");
    NewProvider(h, BLANK_STORE);
    hide Byok, Sub, WithStores, WithProviders, BuiltFor;
    FromNothing(h);
    entry := WithProviders(h, [BLANK_STORE])(None).value.items[0];
  }
}
