/** What stands in the entries and rows that the passes add, read off the declarations path by path. */
module EntryLaws {
  import opened Wrappers
  import opened PyText
  import opened Yaml
  import opened DeepMerge
  import opened VectorIo
  import opened Enrichment
  import opened HighLevel
  import opened HighLevelLaws
  import opened ModeEquivalence
  import opened ByokLaws
  import opened SolrLaws
  import opened VectorStores
  import opened VectorStoreLaws
  import opened VectorStoreTwice
  import opened Writes
  import opened SynthesisLaws

  /** The value stands at the path. */
  predicate Reads(v: Value, path: seq<string>, x: Value) {
    Find(v, path) == Some(x)
  }

  lemma FindField(v: Value, key: string)
    ensures Find(v, [key]) == if v.Map? && key in v.entries then Some(v.entries[key]) else None
  {
    if v.Map? {
      FindOne(v.entries, key);
    }
  }

  lemma FindInner(v: Value, outer: string, inner: string)
    ensures Find(v, [outer, inner])
         == if v.Map? && outer in v.entries && v.entries[outer].Map? && inner in v.entries[outer].entries
            then Some(v.entries[outer].entries[inner]) else None
  {
    if v.Map? {
      FindTwo(v.entries, outer, inner);
    }
  }

  // ----- BYOK providers ----------------------------------------------------

  /** A written field, or the environment expression where it is missing or blank. */
  function Given(declared: Value, field: string, variable: string): Value {
    var v := FindOr(declared, [field], Null);
    if v == Null || (v.Str? && Blank(v.s)) then Str("${env." + variable + "}") else v
  }

  /** A faiss entry that persists to the named backend. */
  ghost predicate FaissEntry(entry: Value, id: string, backend: string) {
    && Reads(entry, ["provider_id"], Str(id)) && Reads(entry, ["provider_type"], Str("inline::faiss"))
    && Reads(entry, ["config"], Map(map["persistence" := Map(map[
         "namespace" := Str("vector_io::faiss"), "backend" := Str(backend)])]))
  }

  /** A pgvector entry with the connection that is declared, or else left to the environment. */
  ghost predicate PgvectorEntry(entry: Value, id: string, declared: Value) {
    && Reads(entry, ["provider_id"], Str(id)) && Reads(entry, ["provider_type"], Str("remote::pgvector"))
    && Reads(entry, ["config"], Map(map[
         "persistence" := Map(map["namespace" := Str("vector_io::pgvector"), "backend" := Str("kv_default")]),
         "host" := Given(declared, "host", "POSTGRES_HOST"), "port" := Given(declared, "port", "POSTGRES_PORT"),
         "db" := Given(declared, "db", "POSTGRES_DATABASE"), "user" := Given(declared, "user", "POSTGRES_USER"),
         "password" := Given(declared, "password", "POSTGRES_PASSWORD")]))
  }

  lemma FieldIsGiven(fields: Value, field: string, variable: string)
    ensures FieldOr(fields, field, "${env." + variable + "}") == Given(fields, field, variable)
  {
    FindField(fields, field);
    hide Find, Strip, Blank;
    var v := FindOr(fields, [field], Null);
    if v.Str? {
      StripBlank(v.s);
    }
  }

  lemma EntryReads(id: string, kind: string, config: Value)
    ensures var e := ProviderEntry(id, kind, config);
            && Reads(e, ["provider_id"], Str(id)) && Reads(e, ["provider_type"], Str(kind))
            && Reads(e, ["config"], config)
  {
    var e := ProviderEntry(id, kind, config);
    FindField(e, "provider_id");
    FindField(e, "provider_type");
    FindField(e, "config");
  }

  lemma TemplateReads(id: string, kind: string, backend: string, fields: Value)
    requires VectorIoConfig(kind, backend, fields).Ok?
    ensures var e := ProviderEntry(id, kind, VectorIoConfig(kind, backend, fields).value);
            && (kind == FAISS ==> FaissEntry(e, id, backend))
            && (kind == PGVECTOR ==> PgvectorEntry(e, id, fields))
            && (kind == FAISS || kind == PGVECTOR)
  {
    EntryReads(id, kind, VectorIoConfig(kind, backend, fields).value);
    hide Reads, FieldOr, Given, ProviderEntry;
    FieldIsGiven(fields, "host", "POSTGRES_HOST");
    FieldIsGiven(fields, "port", "POSTGRES_PORT");
    FieldIsGiven(fields, "db", "POSTGRES_DATABASE");
    FieldIsGiven(fields, "user", "POSTGRES_USER");
    FieldIsGiven(fields, "password", "POSTGRES_PASSWORD");
    EnvTexts();
  }

  lemma EnvTexts()
    ensures "${env." + "POSTGRES_HOST" + "}" == "${env.POSTGRES_HOST}"
    ensures "${env." + "POSTGRES_PORT" + "}" == "${env.POSTGRES_PORT}"
    ensures "${env." + "POSTGRES_DATABASE" + "}" == "${env.POSTGRES_DATABASE}"
    ensures "${env." + "POSTGRES_USER" + "}" == "${env.POSTGRES_USER}"
    ensures "${env." + "POSTGRES_PASSWORD" + "}" == "${env.POSTGRES_PASSWORD}"
  {
  }

  /** The rag_id of a store, as text. */
  function RagId(h: Host, store: Value): string {
    if store.Map? then Text(h, FindOr(store, ["rag_id"], Null)) else ""
  }

  /** The backend a store asks for, faiss where it asks for none. */
  function BackendKind(store: Value): Value {
    FindOr(store, ["backend"], Str("faiss"))
  }

  /** The provider of a store, by the backend it asks for. */
  ghost predicate StoreProvider(h: Host, store: Value, entry: Value) {
    var id := Strip(RagId(h, store));
    if BackendKind(store) == Str("faiss") then FaissEntry(entry, "byok_" + id, "byok_" + id + "_storage")
    else BackendKind(store) == Str("pgvector") && PgvectorEntry(entry, "byok_" + id, store)
  }

  lemma RagIdIsText(h: Host, store: Value)
    ensures RagId(h, store) == RagText(h, store)
  {
    FindField(store, "rag_id");
  }

  lemma KindIsRead(h: Host, store: Value)
    requires RagType(h, store).Ok?
    ensures RagType(h, store) == Ok(FAISS) <==> BackendKind(store) == Str("faiss")
    ensures RagType(h, store) == Ok(PGVECTOR) <==> BackendKind(store) == Str("pgvector")
  {
    FindField(store, "backend");
    InlineFaiss();
    var backend := BackendKind(store);
    if Hashable(backend) && backend != Str("faiss") {
      TextIsFaiss(h, backend);
    }
    hide Find, Text;
  }

  /** Among texts, numbers and the like only one is written `faiss`. */
  lemma TextIsFaiss(h: Host, v: Value)
    requires Hashable(v) && v != Str("faiss")
    ensures Text(h, v) != "faiss"
  {
    match v
    case Null => assert "None"[0] == 'N' && "faiss"[0] == 'f';
    case Bool(b) => assert "True"[0] == 'T' && "False"[0] == 'F' && "faiss"[0] == 'f';
    case Num(n) =>
      var digits := NatText(if n < 0 then -n else n);
      assert digits[0] in digits && "faiss"[0] == 'f';
    case Str(s) =>
  }

  lemma InlineFaiss()
    ensures forall t: string :: "inline::" + t == FAISS <==> t == "faiss"
    ensures forall t: string :: "inline::" + t != PGVECTOR
  {
    forall t: string | "inline::" + t == FAISS ensures t == "faiss" {
      assert ("inline::" + t)[8..] == t && FAISS[8..] == "faiss";
    }
    forall t: string ensures "inline::" + t != PGVECTOR {
      assert ("inline::" + t)[0] == 'i' && PGVECTOR[0] == 'r';
    }
  }

  /** The entry the pass builds for a store is the provider the store declares. */
  lemma BuiltIsDeclared(h: Host, store: Value, entry: Value)
    requires BuiltFor(h, store, entry)
    ensures StoreProvider(h, store, entry)
  {
    var kind, id := RagType(h, store).value, ByokId(h, store);
    RagIdIsText(h, store);
    KindIsRead(h, store);
    hide RagType, Strip, FaissEntry, PgvectorEntry, BackendKind, RagText, RagId;
    TemplateReads(id, kind, StorageName(Strip(RagText(h, store))), store);
    hide VectorIoConfig, ProviderEntry;
  }

  ghost predicate SomeStoreProvider(h: Host, stores: seq<Value>, entry: Value) {
    exists s <- stores :: StoreProvider(h, s, entry)
  }

  /** Behind the deduplicated earlier entries, every provider in the list is one a store declares. */
  lemma ByokProvidersAreDeclared(h: Host, stores: seq<Value>, root: Section)
    requires stores != [] && Byok(h, List(stores), root).Ok?
    ensures var before := DedupeList(h, ListAt(root, "providers", "vector_io"));
            var after := ListAt(Byok(h, List(stores), root).value, "providers", "vector_io");
            && before <= after
            && forall i :: |before| <= i < |after| ==> SomeStoreProvider(h, stores, after[i])
  {
    hide Byok, AddProviders, Unique, Keys, StoreProvider, BuiltFor, DedupeFrom;
    var items := DedupeList(h, ListAt(root, "providers", "vector_io"));
    ProvidersAreAdded(h, stores, root);
    DedupeLaws(h, ListAt(root, "providers", "vector_io"));
    ProvidersAdded(h, items, Keys(h, items), stores);
    var after := ListAt(Byok(h, List(stores), root).value, "providers", "vector_io");
    forall i | |items| <= i < |after| ensures SomeStoreProvider(h, stores, after[i]) {
      assert BuiltForOne(h, stores, after[i]);
      var s :| s in stores && BuiltFor(h, s, after[i]);
      BuiltIsDeclared(h, s, after[i]);
    }
  }

  lemma ProvidersAreAdded(h: Host, stores: seq<Value>, root: Section)
    requires stores != [] && Byok(h, List(stores), root).Ok?
    ensures var items := DedupeList(h, ListAt(root, "providers", "vector_io"));
            AddProviders(h, items, Keys(h, items), stores)
            == Ok(ListAt(Byok(h, List(stores), root).value, "providers", "vector_io"))
  {
    hide Byok, Sub, AddProviders, Keys, DedupeFrom, SameOutside;
    ByokSections(h, stores, root);
    DedupeNothing(h, {});
  }

  // ----- BYOK backends -----------------------------------------------------

  /** The backend entry of a store: its own path, or one made of its id. */
  function StoreBackend(h: Host, store: Value): Value {
    Map(map["type" := Str("kv_sqlite"),
            "db_path" := FindOr(store, ["db_path"], Str(".llama/" + RagId(h, store) + ".db"))])
  }

  /** The store needs a backend, and this is the name it gets. */
  predicate NamesBackend(h: Host, store: Value, name: string) {
    store.Map? && BackendKind(store) != Str("pgvector") && name == "byok_" + RagId(h, store) + "_storage"
  }

  ghost predicate LastToName(h: Host, stores: seq<Value>, name: string, i: nat) {
    i < |stores| && NamesBackend(h, stores[i], name)
    && forall j :: i < j < |stores| ==> !NamesBackend(h, stores[j], name)
  }

  lemma BackendIsRead(h: Host, store: Value, name: string)
    requires RagType(h, store).Ok?
    ensures name in BackendOfStore(h, store) <==> NamesBackend(h, store, name)
    ensures NamesBackend(h, store, name) ==> BackendOfStore(h, store)[name] == StoreBackend(h, store)
  {
    RagIdIsText(h, store);
    KindIsRead(h, store);
    FindField(store, "db_path");
    hide RagType, Find, RagText, RagId;
  }

  lemma {:induction false} BackendsAreRead(h: Host, stores: seq<Value>, name: string)
    requires forall s <- stores :: RagType(h, s).Ok?
    ensures forall i: nat :: LastToName(h, stores, name, i) ==>
              name in BackendsOf(h, stores) && BackendsOf(h, stores)[name] == StoreBackend(h, stores[i])
    ensures (forall s <- stores :: !NamesBackend(h, s, name)) ==> name !in BackendsOf(h, stores)
  {
    hide BackendOfStore, NamesBackend, StoreBackend, RagType;
    if stores != [] {
      var rest := stores[1..];
      BackendIsRead(h, stores[0], name);
      BackendsAreRead(h, rest, name);
      assert forall j :: 0 < j < |stores| ==> stores[j] == rest[j - 1];
      forall i: nat | LastToName(h, stores, name, i)
        ensures name in BackendsOf(h, stores) && BackendsOf(h, stores)[name] == StoreBackend(h, stores[i])
      {
        if i > 0 {
          assert LastToName(h, rest, name, i - 1);
        } else {
          assert forall s <- rest :: !NamesBackend(h, s, name);
        }
      }
    }
  }

  lemma {:induction false} TypesAreRead(h: Host, backends: Value, stores: seq<Value>)
    requires AddBackends(h, backends, stores).Ok?
    ensures forall s <- stores :: RagType(h, s).Ok?
    decreases stores
  {
    hide RagType;
    if stores != [] {
      TypesAreRead(h, AddBackend(h, backends, stores[0]).value, stores[1..]);
      assert forall s <- stores :: s == stores[0] || s in stores[1..];
    }
  }

  lemma BackendsAreOverlaid(h: Host, stores: seq<Value>, root: Section)
    requires stores != [] && Byok(h, List(stores), root).Ok?
    ensures BackendsIn(Byok(h, List(stores), root).value) == BackendsIn(root) + BackendsOf(h, stores)
    ensures forall s <- stores :: RagType(h, s).Ok?
  {
    hide Byok, AddBackends, BackendsOf, RagType, BackendsIn;
    var start := BackendsAdded(h, stores, root);
    TypesAreRead(h, start, stores);
    AddBackendsOverlays(h, start, stores);
  }

  lemma BackendsAdded(h: Host, stores: seq<Value>, root: Section) returns (start: Value)
    requires stores != [] && Byok(h, List(stores), root).Ok?
    ensures AddBackends(h, start, stores).Ok? && BackendMap(start) == BackendsIn(root)
    ensures BackendsIn(Byok(h, List(stores), root).value) == BackendMap(AddBackends(h, start, stores).value)
  {
    hide Byok, Sub, AddBackends;
    BackendsResult(h, stores, root);
    start := CopyOf(Sub(root, "storage", "backends").value, EMPTY).value;
  }

  lemma BackendsResult(h: Host, stores: seq<Value>, root: Section)
    requires stores != [] && Byok(h, List(stores), root).Ok?
    ensures ResultOf(root, Byok(h, List(stores), root).value, "storage", "backends", WithBackends(h, stores))
  {
    hide *;
    ByokSections(h, stores, root);
  }

  /** Each backend afterwards is that of the last store to name it, or the one there was before. */
  lemma ByokBackendsAreDeclared(h: Host, stores: seq<Value>, root: Section, name: string)
    requires stores != [] && Byok(h, List(stores), root).Ok?
    ensures var r := Byok(h, List(stores), root).value;
            && (forall i: nat :: LastToName(h, stores, name, i) ==>
                  name in BackendsIn(r) && BackendsIn(r)[name] == StoreBackend(h, stores[i]))
            && ((forall s <- stores :: !NamesBackend(h, s, name)) ==>
                  (name in BackendsIn(r) <==> name in BackendsIn(root))
                  && (name in BackendsIn(r) ==> BackendsIn(r)[name] == BackendsIn(root)[name]))
  {
    hide Byok, BackendsIn, BackendsOf, NamesBackend, StoreBackend, RagType;
    BackendsAreOverlaid(h, stores, root);
    BackendsAreRead(h, stores, name);
  }

  // ----- BYOK rows ---------------------------------------------------------

  /** The vector store row of a store. */
  ghost predicate StoreRowIs(h: Host, store: Value, row: Value) {
    && store.Map? && Reads(row, ["vector_store_id"], FindOr(store, ["vector_db_id"], Null))
    && Reads(row, ["provider_id"], Str("byok_" + RagId(h, store)))
    && Reads(row, ["embedding_model"], Str("sentence-transformers/byok_" + RagId(h, store) + "_embedding"))
    && Reads(row, ["embedding_dimension"], FindOr(store, ["embedding_dimension"], Null))
  }

  ghost predicate SomeStoreRow(h: Host, stores: seq<Value>, row: Value) {
    exists s <- stores :: StoreRowIs(h, s, row)
  }

  lemma StoreRowReads(h: Host, store: Value)
    requires store.Map?
    ensures StoreRowIs(h, store, StoreRow(h, store, GetOr(store.entries, "rag_id", Null), StoreId(store)))
  {
    var row := StoreRow(h, store, GetOr(store.entries, "rag_id", Null), StoreId(store));
    RagIdIsText(h, store);
    FindField(store, "vector_db_id");
    FindField(store, "embedding_dimension");
    FindField(row, "vector_store_id");
    FindField(row, "provider_id");
    FindField(row, "embedding_model");
    FindField(row, "embedding_dimension");
    hide Find, RagText, RagId;
    var rag := RagText(h, store);
    assert "sentence-transformers/" + ("byok_" + rag + "_embedding")
      == "sentence-transformers/byok_" + rag + "_embedding";
  }

  /** Earlier rows stay, and every row behind them is that of a store. */
  lemma ByokRowsAreDeclared(h: Host, stores: seq<Value>, root: Section)
    requires stores != [] && Byok(h, List(stores), root).Ok?
    ensures var before := ListAt(root, "registered_resources", "vector_stores");
            var after := ListAt(Byok(h, List(stores), root).value, "registered_resources", "vector_stores");
            && before <= after
            && forall i :: |before| <= i < |after| ==> SomeStoreRow(h, stores, after[i])
  {
    hide Byok, ListAt, StoreRow, StoreRowIs;
    AddedRowsAreStoreRows(h, stores, root);
    var before := ListAt(root, "registered_resources", "vector_stores");
    var after := ListAt(Byok(h, List(stores), root).value, "registered_resources", "vector_stores");
    forall i | |before| <= i < |after| ensures SomeStoreRow(h, stores, after[i]) {
      assert IsStoreRowOf(h, stores, after[i]);
      var s :| s in stores && s.Map?
               && after[i] == StoreRow(h, s, GetOr(s.entries, "rag_id", Null), StoreId(s));
      StoreRowReads(h, s);
    }
  }

  /** A path without the prefix that names the library. */
  ghost predicate Unprefixed(path: string, rest: string) {
    if StartsWith(path, "sentence-transformers/") then path == "sentence-transformers/" + rest else rest == path
  }

  /** An embedding row for a path and a dimension. */
  ghost predicate EmbeddingRowIs(row: Value, id: string, path: Value, dimension: Value) {
    && Reads(row, ["model_id"], Str(id)) && Reads(row, ["model_type"], Str("embedding"))
    && Reads(row, ["provider_id"], Str("sentence-transformers"))
    && path.Str? && (exists rest :: Unprefixed(path.s, rest) && Reads(row, ["provider_model_id"], Str(rest)))
    && Reads(row, ["metadata", "embedding_dimension"], dimension)
  }

  lemma EmbeddingReads(id: string, path: string, dimension: Value)
    ensures EmbeddingRowIs(EmbeddingRow(id, path, dimension), id, Str(path), dimension)
  {
    var row := EmbeddingRow(id, path, dimension);
    FindField(row, "model_id");
    FindField(row, "model_type");
    FindField(row, "provider_id");
    FindField(row, "provider_model_id");
    FindInner(row, "metadata", "embedding_dimension");
    hide Find;
    assert Unprefixed(path, RemovePrefix(path, TRANSFORMERS));
  }

  /** The model of a store, under the name its vector store row uses; the default one where it names none. */
  ghost predicate StoreModel(h: Host, store: Value, row: Value) {
    EmbeddingRowIs(row, "byok_" + RagId(h, store) + "_embedding",
                   FindOr(store, ["embedding_model"], Str("sentence-transformers/all-mpnet-base-v2")),
                   FindOr(store, ["embedding_dimension"], Null))
  }

  ghost predicate SomeStoreModel(h: Host, stores: seq<Value>, row: Value) {
    exists s <- stores :: StoreModel(h, s, row)
  }

  lemma ModelReads(h: Host, rows: seq<Value>, store: Value)
    requires AddModel(h, List(rows), store).Ok?
    ensures var r := AddModel(h, List(rows), store).value;
            r == List(rows) || exists row :: r == List(rows + [row]) && StoreModel(h, store, row)
  {
    RagIdIsText(h, store);
    FindField(store, "embedding_model");
    FindField(store, "embedding_dimension");
    if AddModel(h, List(rows), store).value != List(rows) {
      var model := GetOr(store.entries, "embedding_model", Str("sentence-transformers/all-mpnet-base-v2"));
      var name, dimension := EmbeddingName(RagText(h, store)), GetOr(store.entries, "embedding_dimension", Null);
      EmbeddingReads(name, model.s, dimension);
      hide EmbeddingRow, EmbeddingRowIs, AnyWith, Find, RagText, RagId;
      assert AddModel(h, List(rows), store).value == List(rows + [EmbeddingRow(name, model.s, dimension)]);
    }
  }

  lemma {:induction false} ModelsRead(h: Host, rows: seq<Value>, stores: seq<Value>)
    requires AddModels(h, List(rows), stores).Ok?
    ensures var r := AddModels(h, List(rows), stores).value;
            && r.List? && rows <= r.items
            && forall i :: |rows| <= i < |r.items| ==> SomeStoreModel(h, stores, r.items[i])
    decreases stores
  {
    hide AddModel, StoreModel;
    if stores != [] {
      var next := AddModel(h, List(rows), stores[0]).value;
      ModelReads(h, rows, stores[0]);
      ModelsRead(h, next.items, stores[1..]);
      var r := AddModels(h, List(rows), stores).value;
      forall i | |rows| <= i < |r.items| ensures SomeStoreModel(h, stores, r.items[i]) {
        if i >= |next.items| {
          assert SomeStoreModel(h, stores[1..], r.items[i]);
        } else {
          assert r.items[i] == next.items[i];
        }
      }
    }
  }

  lemma ModelsResult(h: Host, stores: seq<Value>, root: Section)
    requires stores != [] && Byok(h, List(stores), root).Ok?
    ensures ResultOf(root, Byok(h, List(stores), root).value, "registered_resources", "models", WithModels(h, stores))
  {
    hide *;
    ByokSections(h, stores, root);
  }

  /** Earlier model rows stay, and every row behind them is the model of a store. */
  lemma ByokModelsAreDeclared(h: Host, stores: seq<Value>, root: Section)
    requires stores != [] && Byok(h, List(stores), root).Ok?
    ensures var before := ListAt(root, "registered_resources", "models");
            var after := ListAt(Byok(h, List(stores), root).value, "registered_resources", "models");
            && before <= after
            && forall i :: |before| <= i < |after| ==> SomeStoreModel(h, stores, after[i])
  {
    hide Byok, Sub, AddModels, SomeStoreModel;
    ModelsResult(h, stores, root);
    var start := CopyOf(Sub(root, "registered_resources", "models").value, List([])).value;
    if start.List? {
      ModelsRead(h, start.items, stores);
    } else {
      ModelsNeedList(h, start, stores);
    }
  }

  // ----- Solr --------------------------------------------------------------

  lemma FindDeep(v: Value, head: string, rest: seq<string>)
    ensures Find(v, [head] + rest)
         == if v.Map? && head in v.entries then Find(v.entries[head], rest) else None
  {
    assert ([head] + rest)[0] == head && ([head] + rest)[1..] == rest;
  }

  const SOLR_PATH := "ibm-granite/granite-embedding-small-english-r2"

  /** An environment variable with a default. */
  function EnvOr(name: string, default: string): Value {
    Str("${env." + name + ":=" + default + "}")
  }

  /** The filter that goes into every query: chunks only, and what the operator adds. */
  function ChunkFilter(h: Host, user: Value): Value {
    Str(if Truthy(user) then "is_chunk:true AND " + Text(h, user) else "is_chunk:true")
  }

  /** The Solr provider entry: its address and filter from the declaration, the rest from the environment. */
  ghost predicate SolrEntry(h: Host, okp: Section, entry: Value) {
    var url, user := FindOr(Map(okp), ["rhokp_url"], Null), FindOr(Map(okp), ["chunk_filter_query"], Null);
    && Reads(entry, ["provider_id"], Str("okp_solr"))
    && Reads(entry, ["provider_type"], Str("remote::solr_vector_io"))
    && Reads(entry, ["config", "solr_url"], h.solrUrl(url))
    && Reads(entry, ["config", "chunk_window_config", "chunk_filter_query"], ChunkFilter(h, user))
    && Reads(entry, ["config", "collection_name"], EnvOr("SOLR_COLLECTION", "portal-rag"))
    && Reads(entry, ["config", "embedding_dimension"], EnvOr("SOLR_EMBEDDING_DIM", "384"))
    && Reads(entry, ["config", "embedding_model"],
             EnvOr("SOLR_EMBEDDING_MODEL", "sentence-transformers/" + SOLR_PATH))
    && Reads(entry, ["config", "persistence"],
             Map(map["namespace" := Str("portal-rag"), "backend" := Str("kv_default")]))
  }

  lemma SolrReads(h: Host, okp: Section)
    ensures SolrEntry(h, okp, SolrProvider(h, GetOr(okp, "rhokp_url", Null), GetOr(okp, "chunk_filter_query", Null)))
  {
    var url, user := GetOr(okp, "rhokp_url", Null), GetOr(okp, "chunk_filter_query", Null);
    FindOne(okp, "rhokp_url");
    FindOne(okp, "chunk_filter_query");
    assert FindOr(Map(okp), ["rhokp_url"], Null) == url && FindOr(Map(okp), ["chunk_filter_query"], Null) == user;
    var entry := SolrProvider(h, url, user);
    var config := entry.entries["config"];
    SolrConfigReads(h, url, user);
    hide Find, ChunkFilter, EnvOr, SolrProvider, ProviderEntry, FindOr;
    EntryReads(SOLR_ID, "remote::solr_vector_io", config);
    FindDeep(entry, "config", ["solr_url"]);
    FindDeep(entry, "config", ["collection_name"]);
    FindDeep(entry, "config", ["embedding_dimension"]);
    FindDeep(entry, "config", ["embedding_model"]);
    FindDeep(entry, "config", ["persistence"]);
    FindDeep(entry, "config", ["chunk_window_config", "chunk_filter_query"]);
    InnerPaths();
  }

  lemma InnerPaths()
    ensures forall k: string :: ["config"] + [k] == ["config", k]
    ensures ["config"] + ["chunk_window_config", "chunk_filter_query"]
         == ["config", "chunk_window_config", "chunk_filter_query"]
  {
  }

  lemma SolrConfigReads(h: Host, url: Value, user: Value)
    ensures var entry := SolrProvider(h, url, user);
            && entry.Map? && "config" in entry.entries
            && entry == ProviderEntry(SOLR_ID, "remote::solr_vector_io", entry.entries["config"])
            && var config := entry.entries["config"];
            && Reads(config, ["solr_url"], h.solrUrl(url))
            && Reads(config, ["chunk_window_config", "chunk_filter_query"], ChunkFilter(h, user))
            && Reads(config, ["collection_name"], EnvOr("SOLR_COLLECTION", "portal-rag"))
            && Reads(config, ["embedding_dimension"], EnvOr("SOLR_EMBEDDING_DIM", "384"))
            && Reads(config, ["embedding_model"], EnvOr("SOLR_EMBEDDING_MODEL", "sentence-transformers/" + SOLR_PATH))
            && Reads(config, ["persistence"],
                     Map(map["namespace" := Str("portal-rag"), "backend" := Str("kv_default")]))
  {
    var config := SolrProvider(h, url, user).entries["config"];
    FindField(config, "solr_url");
    FindField(config, "collection_name");
    FindField(config, "embedding_dimension");
    FindField(config, "embedding_model");
    FindField(config, "persistence");
    FindInner(config, "chunk_window_config", "chunk_filter_query");
    hide Find, Text;
  }

  /** The pass runs exactly if `okp` is among the inline or the tool sources; otherwise it changes nothing. */
  lemma SolrRunsIfListed(h: Host, inline: seq<Value>, tool: seq<Value>, okp: Section, root: Section)
    ensures Solr(h, List(inline), List(tool), Map(okp), root)
         == if Str("okp") in inline || Str("okp") in tool then SolrEnabled(h, okp, root) else Ok(root)
  {
    hide SolrEnabled;
  }

  /** What the Solr pass adds where it adds something, and the search mode it sets. */
  lemma SolrAddsTheDeclared(h: Host, okp: Section, root: Section)
    requires SolrEnabled(h, okp, root).Ok?
    ensures var r := SolrEnabled(h, okp, root).value;
            && OneMore(root, r, "providers", "vector_io", SolrProvider(h, GetOr(okp, "rhokp_url", Null),
                                                                       GetOr(okp, "chunk_filter_query", Null)))
            && OneMore(root, r, "registered_resources", "vector_stores", SOLR_STORE_ROW)
            && OneMore(root, r, "registered_resources", "models", SOLR_MODEL_ROW)
  {
    hide *;
    SolrSections(h, okp, root);
    UpdatesAreRows(h, okp);
    SolrRowIds();
    SolrRowKey(h, GetOr(okp, "rhokp_url", Null), GetOr(okp, "chunk_filter_query", Null));
    var r := SolrEnabled(h, okp, root).value;
    var row := SolrProvider(h, GetOr(okp, "rhokp_url", Null), GetOr(okp, "chunk_filter_query", Null));
    RowIsOneMore(root, r, "providers", "vector_io", "provider_id", Str(SOLR_ID), row);
    RowIsOneMore(root, r, "registered_resources", "vector_stores", "vector_store_id", Str(SOLR_STORE), SOLR_STORE_ROW);
    RowIsOneMore(root, r, "registered_resources", "models", "provider_model_id", Str(SOLR_MODEL_PATH), SOLR_MODEL_ROW);
  }

  /** The list is as before, or it has this one row more at its end. */
  predicate OneMore(root: Section, r: Section, outer: string, inner: string, row: Value) {
    ListAt(r, outer, inner) == ListAt(root, outer, inner)
    || ListAt(r, outer, inner) == ListAt(root, outer, inner) + [row]
  }

  lemma RowIsOneMore(root: Section, r: Section, outer: string, inner: string, field: string, v: Value, row: Value)
    requires ResultOf(root, r, outer, inner, WithRow(field, v, row)) && row.Map?
    ensures OneMore(root, r, outer, inner, row)
  {
    hide ResultOf, WithRow, ListAt, HasRow;
    RowAppended(root, r, outer, inner, field, v, row);
    assert ListAt(root, outer, inner) + [] == ListAt(root, outer, inner);
  }

  /** The rows the Solr pass registers. */
  lemma SolrRowsRead()
    ensures Reads(SOLR_STORE_ROW, ["vector_store_id"], Str("portal-rag"))
    ensures Reads(SOLR_STORE_ROW, ["provider_id"], Str("okp_solr"))
    ensures Reads(SOLR_STORE_ROW, ["embedding_model"], Str("sentence-transformers/solr_embedding"))
    ensures Reads(SOLR_STORE_ROW, ["embedding_dimension"], Num(384))
    ensures Reads(SOLR_MODEL_ROW, ["model_id"], Str("sentence-transformers/solr_embedding"))
    ensures Reads(SOLR_MODEL_ROW, ["model_type"], Str("embedding"))
    ensures Reads(SOLR_MODEL_ROW, ["provider_id"], Str("sentence-transformers"))
    ensures Reads(SOLR_MODEL_ROW, ["provider_model_id"], EnvOr("SOLR_EMBEDDING_MODEL", SOLR_PATH))
    ensures Reads(SOLR_MODEL_ROW, ["metadata", "embedding_dimension"], Num(384))
  {
    FindField(SOLR_STORE_ROW, "vector_store_id");
    FindField(SOLR_STORE_ROW, "provider_id");
    FindField(SOLR_STORE_ROW, "embedding_model");
    FindField(SOLR_STORE_ROW, "embedding_dimension");
    FindField(SOLR_MODEL_ROW, "model_id");
    FindField(SOLR_MODEL_ROW, "model_type");
    FindField(SOLR_MODEL_ROW, "provider_id");
    FindField(SOLR_MODEL_ROW, "provider_model_id");
    FindInner(SOLR_MODEL_ROW, "metadata", "embedding_dimension");
    hide Find;
  }

  /** `lexical` searches by keyword, `semantic` by vector; any other declared mode is passed on. */
  lemma SolrSetsTheMode(h: Host, okp: Section, root: Section)
    requires SolrEnabled(h, okp, root).Ok?
    ensures var mode := FindOr(Map(okp), ["search_mode"], Null);
            var path := ["vector_stores", "chunk_retrieval_params", "default_search_mode"];
            var r := Map(SolrEnabled(h, okp, root).value);
            Truthy(mode) ==>
              Reads(r, path, if mode == Str("lexical") then Str("keyword")
                             else if mode == Str("semantic") then Str("vector") else mode)
  {
    FindOne(okp, "search_mode");
    var mode := GetOr(okp, "search_mode", Null);
    if Truthy(mode) {
      ModeResult(h, okp, root);
      var r := SolrEnabled(h, okp, root).value;
      hide SolrEnabled, Find;
      FindThree(r, "vector_stores", "chunk_retrieval_params", "default_search_mode");
    }
  }

  lemma ModeResult(h: Host, okp: Section, root: Section)
    requires SolrEnabled(h, okp, root).Ok? && Truthy(GetOr(okp, "search_mode", Null))
    ensures ResultOf(root, SolrEnabled(h, okp, root).value, "vector_stores", "chunk_retrieval_params",
                     WithSearchMode(GetOr(okp, "search_mode", Null)))
  {
    hide *;
    SolrSections(h, okp, root);
  }

  // ----- declared vector stores --------------------------------------------

  /** The provider a declaration asks for, and the backend that a faiss one needs. */
  ghost predicate PlanIs(id: string, declared: Value, plan: Plan) {
    var kind, config := FindOr(declared, ["type"], Null), FindOr(declared, ["config"], Null);
    if kind == Str("faiss") then
      && FaissEntry(plan.entry, id, "vsprov_" + id + "_storage")
      && plan.backend == Some(Map(map["type" := Str("kv_sqlite"),
                                      "db_path" := FindOr(declared, ["config", "path"], Null)]))
    else
      && kind == Str("pgvector") && plan.backend == None
      && PgvectorEntry(plan.entry, id, if Truthy(config) then config else EMPTY)
  }

  /** A plan is that of its declaration; a faiss one must give a path, and other types raise. */
  lemma PlanIsDeclared(h: Host, id: string, declared: Value)
    requires PlanOf(h, id, declared).Ok?
    ensures PlanIs(id, declared, PlanOf(h, id, declared).value)
    ensures FindOr(declared, ["type"], Null) == Str("faiss") ==> Find(declared, ["config", "path"]).Some?
  {
    FindField(declared, "type");
    FindField(declared, "config");
    FindInner(declared, "config", "path");
    var raw := GetOr(declared.entries, "config", Null);
    var config := if Truthy(raw) then raw else EMPTY;
    if declared.entries["type"] == Str("faiss") {
      TemplateReads(id, FAISS, VsStorageName(id), EMPTY);
    } else {
      TemplateReads(id, PGVECTOR, VsStorageName(id), config);
    }
    hide Find, FaissEntry, PgvectorEntry, VectorIoConfig, ProviderEntry;
  }

  /** What a declaration writes beside its entry: its backend and its model row, each under its own name. */
  lemma WritesAreDeclared(h: Host, e: Value)
    requires Readable(h, e)
    ensures var id := Strip(Text(h, FindOr(e, ["id"], Null)));
            var model, dimension := FindOr(e, ["embedding_model"], Null), FindOr(e, ["embedding_dimension"], Null);
            && (forall w <- WritesOf(h, Entries, e) :: w.name == id)
            && (forall w <- WritesOf(h, Keyed, e) :: w.name == "vsprov_" + id + "_storage")
            && (WritesOf(h, Rows, e) == [] <==> !Truthy(model) || dimension == Null)
            && forall w <- WritesOf(h, Rows, e) ::
                 w.name == "vsprov_" + id + "_embedding" && EmbeddingRowIs(w.value, w.name, model, dimension)
  {
    FindField(e, "id");
    FindField(e, "embedding_model");
    FindField(e, "embedding_dimension");
    hide Find, PlanOf, EmbeddingRowIs, EmbeddingRow, Text, Strip;
    if Embeds(e) {
      EmbeddingReads("vsprov_" + DeclaredId(h, e).value + "_embedding", GetOr(e.entries, "embedding_model", Null).s,
                     GetOr(e.entries, "embedding_dimension", Null));
    }
  }

  // ----- the MCP runtime ---------------------------------------------------

  lemma McpEntryReads()
    ensures Reads(McpEntry(), ["provider_id"], Str("model-context-protocol"))
    ensures Reads(McpEntry(), ["provider_type"], Str("remote::model-context-protocol"))
    ensures Reads(McpEntry(), ["config"], EMPTY)
  {
    EntryReads(MCP_ID, "remote::model-context-protocol", EMPTY);
  }

  // ----- high-level providers ----------------------------------------------

  const PROVIDER_TYPES: map<string, string> := map[
    "openai" := "remote::openai", "ollama" := "remote::ollama", "vllm" := "remote::vllm",
    "sentence_transformers" := "inline::sentence-transformers", "azure" := "remote::azure",
    "vertexai" := "remote::vertexai", "watsonx" := "remote::watsonx", "vllm_rhaiis" := "remote::vllm",
    "vllm_rhel_ai" := "remote::vllm"]

  lemma TypesAreListed(kind: Value)
    ensures ProviderType(kind)
         == if kind.Str? && kind.s in PROVIDER_TYPES then Ok(PROVIDER_TYPES[kind.s]) else Err(Raised)
  {
  }

  /** An allowed model is named twice over by a text; a mapping may name it apart from its backend. */
  predicate ModelIs(declared: Value, m: Model) {
    if !declared.Map? then m == Model(declared, declared)
    else
      && Find(declared, ["provider_model_id"]) == Some(m.backend)
      && var name := FindOr(declared, ["name"], Null);
         m.name == if Truthy(name) then name else m.backend
  }

  predicate ModelsAre(declared: seq<Value>, models: seq<Model>) {
    |models| == |declared| && forall i :: 0 <= i < |models| ==> ModelIs(declared[i], models[i])
  }

  lemma {:induction false} AllowedAreDeclared(items: seq<Value>)
    requires AllowedModels(items).Ok?
    ensures ModelsAre(items, AllowedModels(items).value)
  {
    if items != [] {
      AllowedAreDeclared(items[1..]);
      FindField(items[0], "provider_model_id");
      FindField(items[0], "name");
      hide Find;
    }
  }

  /** The field that holds the key of a provider type. */
  function KeyField(kind: string): string {
    if kind == "remote::vllm" then "api_token" else "api_key"
  }

  /** What the config of an expanded provider has under a key: models, then the key, then extra fields. */
  function ConfigAt(provider: Value, kind: string, models: seq<Model>, key: string): Option<Value> {
    var env, extra := FindOr(provider, ["api_key_env"], Null), FindOr(provider, ["extra"], Null);
    if key == "allowed_models" && models != [] then
      Some(List(seq(|models|, i requires 0 <= i < |models| => models[i].backend)))
    else if key == KeyField(kind) && env.Str? && env.s != "" then Some(Str("${env." + env.s + "}"))
    else Find(extra, [key])
  }

  /** The entry, key by key, and the models to register: none for embedding providers. */
  ghost predicate EmittedIs(provider: Value, e: Emitted) {
    var kind := FindOr(provider, ["type"], Null);
    && kind.Str? && kind.s in PROVIDER_TYPES
    && Reads(e.entry, ["provider_id"], Str(e.id)) && Reads(e.entry, ["provider_type"], Str(PROVIDER_TYPES[kind.s]))
    && exists declared: seq<Value>, models: seq<Model> ::
         && Elements(OrEmptyList(FindOr(provider, ["allowed_models"], Null))) == Ok(declared)
         && ModelsAre(declared, models)
         && (forall key :: Find(e.entry, ["config", key]) == ConfigAt(provider, PROVIDER_TYPES[kind.s], models, key))
         && e.register == if kind == Str("sentence_transformers") then [] else models
  }

  lemma ConfigReads(provider: Value, kind: string, models: seq<Model>, extra: Section, keyed: Section, key: string)
    requires provider.Map? && Extra(provider.entries) == Ok(extra)
    requires WithKey(extra, provider.entries, kind) == Ok(keyed)
    ensures var backends := seq(|models|, i requires 0 <= i < |models| => models[i].backend);
            var config := if models == [] then keyed else keyed["allowed_models" := List(backends)];
            Find(Map(config), [key]) == ConfigAt(provider, kind, models, key)
  {
    var backends := seq(|models|, i requires 0 <= i < |models| => models[i].backend);
    var config := if models == [] then keyed else keyed["allowed_models" := List(backends)];
    FindOne(config, key);
    FindField(provider, "api_key_env");
    FindField(provider, "extra");
    FindField(FindOr(provider, ["extra"], Null), key);
    hide Find;
  }

  /** The entry that is made of an id, a type and a config; an empty config is left out. */
  function EntryOf(id: string, kind: string, config: Section): Value {
    var base := map["provider_id" := Str(id), "provider_type" := Str(kind)];
    Map(if config == map[] then base else base["config" := Map(config)])
  }

  lemma EntryOfReads(id: string, kind: string, config: Section)
    ensures var e := EntryOf(id, kind, config);
            && Reads(e, ["provider_id"], Str(id)) && Reads(e, ["provider_type"], Str(kind))
            && forall key :: Find(e, ["config", key]) == Find(Map(config), [key])
  {
    var e := EntryOf(id, kind, config);
    FindField(e, "provider_id");
    FindField(e, "provider_type");
    forall key ensures Find(e, ["config", key]) == Find(Map(config), [key]) {
      FindInner(e, "config", key);
      FindOne(config, key);
    }
  }

  /** What the expansion of a provider is made of. */
  lemma EmitParts(provider: Value)
    returns (kind: string, extra: Section, keyed: Section, items: seq<Value>, models: seq<Model>)
    requires Emit(provider).Ok?
    ensures provider.Map? && "type" in provider.entries && ProviderType(provider.entries["type"]) == Ok(kind)
    ensures Extra(provider.entries) == Ok(extra) && WithKey(extra, provider.entries, kind) == Ok(keyed)
    ensures Elements(OrEmptyList(GetOr(provider.entries, "allowed_models", Null))) == Ok(items)
    ensures AllowedModels(items) == Ok(models)
    ensures var backends := seq(|models|, i requires 0 <= i < |models| => models[i].backend);
            var config := if models == [] then keyed else keyed["allowed_models" := List(backends)];
            Emit(provider).value.entry == EntryOf(Emit(provider).value.id, kind, config)
    ensures Emit(provider).value.register
         == if provider.entries["type"] == Str("sentence_transformers") then [] else models
  {
    hide EmittedId, ProviderType, Extra, WithKey, Elements, AllowedModels;
    var rawKind := provider.entries["type"];
    kind := ProviderType(rawKind).value;
    extra := Extra(provider.entries).value;
    keyed := WithKey(extra, provider.entries, kind).value;
    items := Elements(OrEmptyList(GetOr(provider.entries, "allowed_models", Null))).value;
    models := AllowedModels(items).value;
  }

  /** Every expanded provider is the one declared. */
  lemma EmittedIsDeclared(provider: Value)
    requires Emit(provider).Ok?
    ensures EmittedIs(provider, Emit(provider).value)
  {
    hide *;
    var kind, extra, keyed, items, models := EmitParts(provider);
    var e := Emit(provider).value;
    ProviderIsRead(provider);
    TypesAreListed(provider.entries["type"]);
    AllowedAreDeclared(items);
    var backends := seq(|models|, i requires 0 <= i < |models| => models[i].backend);
    var config := if models == [] then keyed else keyed["allowed_models" := List(backends)];
    EntryOfReads(e.id, kind, config);
    forall key ensures Find(e.entry, ["config", key]) == ConfigAt(provider, kind, models, key) {
      ConfigReads(provider, kind, models, extra, keyed, key);
    }
    IsEmitted(provider, e, kind, items, models);
  }

  lemma ProviderIsRead(provider: Value)
    requires provider.Map? && "type" in provider.entries
    ensures FindOr(provider, ["type"], Null) == provider.entries["type"]
    ensures FindOr(provider, ["allowed_models"], Null) == GetOr(provider.entries, "allowed_models", Null)
  {
    FindField(provider, "type");
    FindField(provider, "allowed_models");
  }

  lemma IsEmitted(provider: Value, e: Emitted, kind: string, items: seq<Value>, models: seq<Model>)
    requires var raw := FindOr(provider, ["type"], Null);
             && raw.Str? && raw.s in PROVIDER_TYPES && PROVIDER_TYPES[raw.s] == kind
             && e.register == if raw == Str("sentence_transformers") then [] else models
    requires Reads(e.entry, ["provider_id"], Str(e.id)) && Reads(e.entry, ["provider_type"], Str(kind))
    requires Elements(OrEmptyList(FindOr(provider, ["allowed_models"], Null))) == Ok(items) && ModelsAre(items, models)
    requires forall key :: Find(e.entry, ["config", key]) == ConfigAt(provider, kind, models, key)
    ensures EmittedIs(provider, e)
  {
    hide Find, ConfigAt, Reads, ModelsAre, Elements, FindOr, PROVIDER_TYPES;
  }

  lemma {:induction false} AllEmittedAreDeclared(providers: seq<Value>)
    requires EmitAll(providers).Ok?
    ensures var es := EmitAll(providers).value;
            |es| == |providers| && forall i :: 0 <= i < |es| ==> EmittedIs(providers[i], es[i])
  {
    hide Emit, EmittedIs;
    if providers != [] {
      EmittedIsDeclared(providers[0]);
      AllEmittedAreDeclared(providers[1..]);
    }
  }

  // ----- registered models -------------------------------------------------

  ghost predicate ModelRowIs(row: Value, id: string, m: Model) {
    && Reads(row, ["model_id"], m.name) && Reads(row, ["model_type"], Str("llm"))
    && Reads(row, ["provider_id"], Str(id)) && Reads(row, ["provider_model_id"], m.backend)
  }

  lemma ModelRowReads(id: string, m: Model)
    ensures ModelRowIs(ModelRow(id, m), id, m)
  {
    var row := ModelRow(id, m);
    FindField(row, "model_id");
    FindField(row, "model_type");
    FindField(row, "provider_id");
    FindField(row, "provider_model_id");
  }

  ghost predicate SomeModelRow(row: Value, id: string, models: seq<Model>) {
    exists m <- models :: ModelRowIs(row, id, m)
  }

  lemma {:induction false} RegisteredOne(rows: seq<Value>, id: string, models: seq<Model>)
    requires RegisterFrom(rows, id, models).Ok?
    ensures var r := RegisterFrom(rows, id, models).value;
            rows <= r && forall i :: |rows| <= i < |r| ==> SomeModelRow(r[i], id, models)
    decreases models
  {
    hide KnownModels, ModelRow, ModelRowIs;
    if models != [] {
      var m := models[0];
      ModelRowReads(id, m);
      var next := if (Str(id), m.name) in KnownModels(rows) then rows else rows + [ModelRow(id, m)];
      RegisteredOne(next, id, models[1..]);
      var r := RegisterFrom(rows, id, models).value;
      forall i | |rows| <= i < |r| ensures SomeModelRow(r[i], id, models) {
        if i >= |next| {
          assert SomeModelRow(r[i], id, models[1..]);
        } else {
          assert r[i] == next[i];
        }
      }
    }
  }

  ghost predicate SomeRegistered(row: Value, es: seq<Emitted>) {
    exists e <- es :: SomeModelRow(row, e.id, e.register)
  }

  /** Earlier rows stay, and every row behind them is that of a model some declared provider allows. */
  lemma {:induction false} RegisteredAreDeclared(rows: seq<Value>, es: seq<Emitted>)
    requires RegisterAll(rows, es).Ok?
    ensures var r := RegisterAll(rows, es).value;
            rows <= r && forall i :: |rows| <= i < |r| ==> SomeRegistered(r[i], es)
    decreases es
  {
    hide RegisterFrom, SomeModelRow;
    if es != [] {
      var e := es[0];
      var next := if e.register == [] then rows else RegisterFrom(rows, e.id, e.register).value;
      if e.register != [] {
        RegisteredOne(rows, e.id, e.register);
      }
      RegisteredAreDeclared(next, es[1..]);
      var r := RegisterAll(rows, es).value;
      forall i | |rows| <= i < |r| ensures SomeRegistered(r[i], es) {
        if i >= |next| {
          assert SomeRegistered(r[i], es[1..]);
        } else {
          assert r[i] == next[i] && e in es;
        }
      }
    }
  }

  lemma {:induction false} RegisterFromExactly(rows: seq<Value>, id: string, models: seq<Model>)
    ensures RegisterFrom(rows, id, models).Ok? <==> forall m <- models :: Hashable(m.name)
    decreases models
  {
    hide KnownModels, ModelRow;
    if models != [] {
      RegisterFromExactly(if (Str(id), models[0].name) in KnownModels(rows) then rows
                          else rows + [ModelRow(id, models[0])], id, models[1..]);
      assert forall m :: m in models <==> m == models[0] || m in models[1..];
    }
  }

  lemma {:induction false} RegisterAllExactly(rows: seq<Value>, es: seq<Emitted>)
    ensures RegisterAll(rows, es).Ok? <==> forall e <- es :: forall m <- e.register :: Hashable(m.name)
    decreases es
  {
    hide RegisterFrom;
    if es != [] {
      var e := es[0];
      assert forall x :: x in es <==> x == e || x in es[1..];
      RegisterFromExactly(rows, e.id, e.register);
      RegisterAllExactly(if e.register != [] && RegisterFrom(rows, e.id, e.register).Ok?
                         then RegisterFrom(rows, e.id, e.register).value else rows, es[1..]);
    }
  }

  /**
   * Registering succeeds exactly if the models section is a list or missing, no mapping in it has a list or mapping
   * for its provider or its model id, and every model to register has a name that is no list or mapping.
   */
  lemma RegisteringExactly(es: seq<Emitted>, prev: Option<Value>)
    ensures WithModelsOf(es)(prev).Ok?
       <==> && (prev.Some? ==>
                  && prev.value.List?
                  && forall row <- prev.value.items :: row.Map? ==>
                       Hashable(FindOr(row, ["provider_id"], Null)) && Hashable(FindOr(row, ["model_id"], Null)))
            && (forall e <- es :: forall m <- e.register :: Hashable(m.name))
  {
    var rows := if prev.Some? then prev.value else List([]);
    if rows.List? {
      RegisterAllExactly(rows.items, es);
      forall row <- rows.items | row.Map?
        ensures RowKey(row.entries) == (FindOr(row, ["provider_id"], Null), FindOr(row, ["model_id"], Null))
      {
        FindField(row, "provider_id");
        FindField(row, "model_id");
      }
    }
    hide Find, RegisterAll;
  }
}
