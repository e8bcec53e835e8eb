/** The BYOK pass: the references it creates resolve, and repeating it changes nothing. */
module ByokLaws {
  import opened Wrappers
  import opened PyText
  import opened Yaml
  import opened VectorIo
  import opened Enrichment
  import opened PassLaws
  import opened PassOrder
  import opened HighLevelLaws
  import opened ModeEquivalence

  /** The `rag_id` of a store, as text. */
  function RagText(h: Host, store: Value): string {
    if store.Map? then Text(h, GetOr(store.entries, "rag_id", Null)) else ""
  }

  predicate NeedsBackend(h: Host, store: Value) {
    RagType(h, store) != Ok(PGVECTOR)
  }

  // ----- storage backends --------------------------------------------------

  /** The backends the stores bring, later stores winning. */
  function BackendsOf(h: Host, stores: seq<Value>): Section {
    if stores == [] then map[] else BackendOfStore(h, stores[0]) + BackendsOf(h, stores[1..])
  }

  function BackendOfStore(h: Host, s: Value): Section {
    if NeedsBackend(h, s) && s.Map? then
      map[StorageName(RagText(h, s)) := KvSqlite(GetOr(s.entries, "db_path", Str(".llama/" + RagText(h, s) + ".db")))]
    else map[]
  }

  lemma {:induction false} AddBackendsOverlays(h: Host, backends: Value, stores: seq<Value>)
    requires AddBackends(h, backends, stores).Ok?
    ensures var r := AddBackends(h, backends, stores).value;
            if backends.Map? then r == Map(backends.entries + BackendsOf(h, stores))
            else r == backends && BackendsOf(h, stores) == map[]
    decreases stores
  {
    hide AddBackend, BackendOfStore, NeedsBackend;
    if stores != [] {
      var next := AddBackend(h, backends, stores[0]).value;
      var one, more := BackendOfStore(h, stores[0]), BackendsOf(h, stores[1..]);
      AddBackendOverlays(h, backends, stores[0]);
      AddBackendsOverlays(h, next, stores[1..]);
      if backends.Map? {
        assert (backends.entries + one) + more == backends.entries + (one + more);
      } else {
        assert one + more == map[];
      }
    }
  }

  lemma AddBackendOverlays(h: Host, backends: Value, store: Value)
    requires AddBackend(h, backends, store).Ok?
    ensures var r := AddBackend(h, backends, store).value;
            if backends.Map? then r == Map(backends.entries + BackendOfStore(h, store))
            else r == backends && BackendOfStore(h, store) == map[]
  {
    hide RagType, KvSqlite, StorageName;
  }

  lemma {:induction false} AddBackendsAnywhere(h: Host, a: Value, b: Value, stores: seq<Value>)
    requires AddBackends(h, a, stores).Ok? && (a.Map? ==> b.Map?)
    ensures AddBackends(h, b, stores).Ok?
    decreases stores
  {
    hide RagType, KvSqlite, StorageName;
    if stores != [] {
      AddBackendsAnywhere(h, AddBackend(h, a, stores[0]).value, AddBackend(h, b, stores[0]).value, stores[1..]);
    }
  }

  lemma {:induction false} BackendKeys(h: Host, stores: seq<Value>)
    ensures forall k :: k in BackendsOf(h, stores)
                   <==> exists s <- stores :: s.Map? && NeedsBackend(h, s) && k == StorageName(RagText(h, s))
  {
    hide RagType, KvSqlite, StorageName;
    if stores != [] {
      BackendKeys(h, stores[1..]);
      assert forall s :: s in stores <==> s == stores[0] || s in stores[1..];
    }
  }

  lemma BackendsTwice(h: Host, prev: Option<Value>, stores: seq<Value>)
    requires WithBackends(h, stores)(prev).Ok?
    ensures var v := WithBackends(h, stores)(prev).value; WithBackends(h, stores)(Some(v)) == Ok(v)
  {
    hide AddBackends, BackendsOf;
    var start := CopyOf(prev, EMPTY).value;
    var v := AddBackends(h, start, stores).value;
    AddBackendsOverlays(h, start, stores);
    AddBackendsAnywhere(h, start, v, stores);
    AddBackendsOverlays(h, v, stores);
    if start.Map? {
      var o := BackendsOf(h, stores);
      assert start.entries + o + o == start.entries + o;
    }
  }

  // ----- vector_io providers -----------------------------------------------

  function ByokId(h: Host, store: Value): string {
    "byok_" + Strip(RagText(h, store))
  }

  /** The entry the pass builds for a store. */
  predicate BuiltFor(h: Host, store: Value, entry: Value) {
    && RagType(h, store).Ok?
    && var config := VectorIoConfig(RagType(h, store).value, StorageName(Strip(RagText(h, store))), store);
    && config.Ok? && entry == ProviderEntry(ByokId(h, store), RagType(h, store).value, config.value)
  }

  predicate BuiltForOne(h: Host, stores: seq<Value>, entry: Value) {
    exists s <- stores :: BuiltFor(h, s, entry)
  }

  lemma {:induction false} ProvidersAdded(h: Host, items: seq<Value>, known: set<string>, stores: seq<Value>)
    requires Unique(h, items) && known == Keys(h, items) && AddProviders(h, items, known, stores).Ok?
    ensures var r := AddProviders(h, items, known, stores).value;
            && items <= r && Unique(h, r)
            && (forall i :: |items| <= i < |r| ==> BuiltForOne(h, stores, r[i]))
            && (forall s <- stores :: s.Map? && Truthy(GetOr(s.entries, "rag_id", Null)) && ByokId(h, s) in Keys(h, r))
    decreases stores
  {
    hide AddProvider, ByokId, BuiltFor, Unique, Keys;
    if stores != [] {
      var s, rest := stores[0], stores[1..];
      var next := AddProvider(h, items, known, s).value;
      ProviderAdded(h, items, known, s);
      ProvidersAdded(h, next.0, next.1, rest);
      var r := AddProviders(h, items, known, stores).value;
      assert r == AddProviders(h, next.0, next.1, rest).value;
      KeysGrow(h, next.0, r);
      forall i | |items| <= i < |r| ensures BuiltForOne(h, stores, r[i]) {
        if i < |next.0| {
          assert r[i] == next.0[i] && BuiltFor(h, s, r[i]) && s in stores;
        } else {
          assert BuiltForOne(h, rest, r[i]);
        }
      }
      assert forall x <- stores :: x == s || x in rest;
    }
  }

  lemma ProviderAdded(h: Host, items: seq<Value>, known: set<string>, s: Value)
    requires Unique(h, items) && known == Keys(h, items) && AddProvider(h, items, known, s).Ok?
    ensures var next := AddProvider(h, items, known, s).value;
            && items <= next.0 && Unique(h, next.0) && next.1 == Keys(h, next.0)
            && (forall i :: |items| <= i < |next.0| ==> BuiltFor(h, s, next.0[i]))
            && s.Map? && Truthy(GetOr(s.entries, "rag_id", Null)) && ByokId(h, s) in next.1
  {
    hide ProviderKey, VectorIoConfig, RagType, ProviderEntry, Strip, Unique, Keys;
    var id := ByokId(h, s);
    if id !in known {
      var kind := RagType(h, s).value;
      var config := VectorIoConfig(kind, StorageName(Strip(RagText(h, s))), s).value;
      ByokIdIsKey(h, RagText(h, s), kind, config);
      EntryIsMap(id, kind, config);
      UniqueSnoc(h, items, ProviderEntry(id, kind, config));
    }
  }

  lemma KeysGrow(h: Host, a: seq<Value>, b: seq<Value>)
    requires a <= b
    ensures Keys(h, a) <= Keys(h, b)
  {
    hide ProviderKey;
    forall k | k in Keys(h, a) ensures k in Keys(h, b) {
      var i :| 0 <= i < |a| && ProviderKey(h, a[i]) == k && k != "";
      assert b[i] == a[i];
    }
  }

  lemma {:induction false} ProvidersPresent(h: Host, items: seq<Value>, known: set<string>, stores: seq<Value>)
    requires forall s <- stores :: s.Map? && Truthy(GetOr(s.entries, "rag_id", Null)) && ByokId(h, s) in known
    ensures AddProviders(h, items, known, stores) == Ok(items)
    decreases stores
  {
    hide VectorIoConfig, RagType, Strip;
    if stores != [] {
      assert AddProvider(h, items, known, stores[0]) == Ok((items, known));
      ProvidersPresent(h, items, known, stores[1..]);
    }
  }

  lemma ProvidersTwice(h: Host, prev: Option<Value>, stores: seq<Value>)
    requires WithProviders(h, stores)(prev).Ok?
    ensures var v := WithProviders(h, stores)(prev).value; WithProviders(h, stores)(Some(v)) == Ok(v)
  {
    hide AddProviders, Unique, Keys;
    StartOfProviders(h, prev);
    var items := VectorIoItems(h, prev);
    ProvidersAdded(h, items, Keys(h, items), stores);
    var r := AddProviders(h, items, Keys(h, items), stores).value;
    DedupeLaws(h, r);
    ProvidersPresent(h, r, Keys(h, r), stores);
  }

  // ----- vector stores -----------------------------------------------------

  function StoreId(store: Value): Value {
    if store.Map? then GetOr(store.entries, "vector_db_id", Null) else Null
  }

  predicate IsStoreRowOf(h: Host, stores: seq<Value>, row: Value) {
    exists s <- stores :: s.Map? && row == StoreRow(h, s, GetOr(s.entries, "rag_id", Null), StoreId(s))
  }

  /** Environment expansion leaves the declared store ids alone. */
  predicate IdsAreLiteral(h: Host, stores: seq<Value>) {
    forall s <- stores :: h.expand(StoreId(s)) == StoreId(s)
  }

  lemma StoreRowId(h: Host, store: Value, ragId: Value, id: Value)
    ensures var row := StoreRow(h, store, ragId, id);
            && row.Map? && GetOr(row.entries, "vector_store_id", Str("")) == id
            && GetOr(row.entries, "provider_id", Null) == Str("byok_" + Text(h, ragId))
            && GetOr(row.entries, "embedding_model", Null)
              == Str("sentence-transformers/" + EmbeddingName(Text(h, ragId)))
  {
  }

  /** Rows are only added, and each added row is the row of a declared store. */
  lemma {:induction false} StoresAdded(h: Host, rows: seq<Value>, known: set<Value>, stores: seq<Value>)
    requires AddStores(h, List(rows), known, stores).Ok?
    ensures var r := AddStores(h, List(rows), known, stores).value;
            && r.List? && rows <= r.items
            && (forall i :: |rows| <= i < |r.items| ==> IsStoreRowOf(h, stores, r.items[i]))
            && (forall s <- stores :: s.Map? && Truthy(GetOr(s.entries, "rag_id", Null)) && Truthy(StoreId(s))
                                      && Hashable(StoreId(s)))
    decreases stores
  {
    hide StoreRow;
    if stores != [] {
      var s, rest := stores[0], stores[1..];
      var next := AddStore(h, List(rows), known, s).value;
      StoresAdded(h, next.0.items, next.1, rest);
      var r := AddStores(h, List(rows), known, stores).value.items;
      forall i | |rows| <= i < |r| ensures IsStoreRowOf(h, stores, r[i]) {
        if i < |next.0.items| {
          assert r[i] == next.0.items[i] == StoreRow(h, s, GetOr(s.entries, "rag_id", Null), StoreId(s));
        } else {
          assert IsStoreRowOf(h, rest, r[i]);
        }
      }
      assert forall x <- stores :: x == s || x in rest;
    }
  }

  /** The declared ids that are not known yet, and that the pass therefore writes into rows. */
  function NewIds(known: set<Value>, stores: seq<Value>): set<Value> {
    set s <- stores | StoreId(s) !in known :: StoreId(s)
  }

  function Expanded(h: Host, ids: set<Value>): set<Value> {
    set id <- ids :: h.expand(id)
  }

  predicate AllExpandHashable(h: Host, ids: set<Value>) {
    forall id <- ids :: Hashable(h.expand(id))
  }

  /** The expanded ids in the rows afterwards: those before and the expansions of the new ids. */
  lemma {:induction false} StoreIdsAfter(h: Host, rows: seq<Value>, ids: set<Value>, known: set<Value>,
                                         stores: seq<Value>)
    requires StoreIds(h, rows) == Ok(ids) && AddStores(h, List(rows), known, stores).Ok?
    ensures var r := AddStores(h, List(rows), known, stores).value;
            r.List? && StoreIds(h, r.items) == if AllExpandHashable(h, NewIds(known, stores))
                                               then Ok(ids + Expanded(h, NewIds(known, stores))) else Err(Raised)
    decreases stores
  {
    hide StoreIds, NewIds, Expanded, AllExpandHashable, StoreRow;
    if stores == [] {
      NothingNew(h, ids, known);
    } else {
      var s, rest := stores[0], stores[1..];
      var next := AddStore(h, List(rows), known, s).value;
      var ragId, id := GetOr(s.entries, "rag_id", Null), StoreId(s);
      var row := StoreRow(h, s, ragId, id);
      NewIdsOfCons(known, s, rest);
      assert [s] + rest == stores;
      if id in known {
        StoreIdsAfter(h, rows, ids, known, rest);
      } else {
        assert next == (List(rows + [row]), known + {id});
        StoreRowId(h, s, ragId, id);
        StoreIdsOfSnoc(h, rows, row);
        ExpandedOfCons(h, ids, id, NewIds(known + {id}, rest));
        hide AddStore, AddStores, StoreId;
        if Hashable(h.expand(id)) {
          StoreIdsAfter(h, rows + [row], ids + {h.expand(id)}, known + {id}, rest);
        } else {
          StoresAdded(h, rows + [row], known + {id}, rest);
          StoreIdsOfPrefix(h, rows + [row], AddStores(h, List(rows + [row]), known + {id}, rest).value.items);
        }
      }
    }
  }

  lemma NothingNew(h: Host, ids: set<Value>, known: set<Value>)
    ensures NewIds(known, []) == {} && AllExpandHashable(h, {}) && ids + Expanded(h, {}) == ids
  {
  }

  lemma ExpandedOfCons(h: Host, ids: set<Value>, id: Value, more: set<Value>)
    ensures ids + Expanded(h, {id} + more) == (ids + {h.expand(id)}) + Expanded(h, more)
    ensures AllExpandHashable(h, {id} + more) <==> Hashable(h.expand(id)) && AllExpandHashable(h, more)
  {
  }

  lemma NewIdsOfCons(known: set<Value>, s: Value, rest: seq<Value>)
    ensures NewIds(known, [s] + rest)
         == if StoreId(s) in known then NewIds(known, rest) else {StoreId(s)} + NewIds(known + {StoreId(s)}, rest)
  {
    assert forall x :: x in [s] + rest <==> x == s || x in rest;
  }

  lemma {:induction false} StoreIdsOfSnoc(h: Host, rows: seq<Value>, row: Value)
    requires StoreIds(h, rows).Ok? && row.Map?
    ensures var id := h.expand(GetOr(row.entries, "vector_store_id", Str("")));
            StoreIds(h, rows + [row]) == if Hashable(id) then Ok(StoreIds(h, rows).value + {id}) else Err(Raised)
  {
    var id := h.expand(GetOr(row.entries, "vector_store_id", Str("")));
    if rows == [] {
      assert ([] + [row])[1..] == [];
      assert {id} + {} == {} + {id};
    } else {
      assert (rows + [row])[1..] == rows[1..] + [row];
      StoreIdsOfSnoc(h, rows[1..], row);
      var rest, first := StoreIds(h, rows[1..]).value, {h.expand(GetOr(rows[0].entries, "vector_store_id", Str("")))};
      assert first + (rest + {id}) == (first + rest) + {id};
    }
  }

  lemma {:induction false} StoreIdsOfPrefix(h: Host, a: seq<Value>, b: seq<Value>)
    requires a <= b && StoreIds(h, a).Err?
    ensures StoreIds(h, b) == Err(Raised)
  {
    assert a[0] == b[0] && a[1..] <= b[1..];
    assert StoreIds(h, b).Err? ==> StoreIds(h, b).error.Raised?;
    if Get(a[0], "vector_store_id", Str("")).Ok? && StoreIds(h, a[1..]).Err? {
      StoreIdsOfPrefix(h, a[1..], b[1..]);
    }
  }

  lemma {:induction false} StoresPresent(h: Host, rows: Value, known: set<Value>, stores: seq<Value>)
    requires forall s <- stores :: s.Map? && Truthy(GetOr(s.entries, "rag_id", Null)) && Truthy(StoreId(s))
                                   && Hashable(StoreId(s)) && StoreId(s) in known
    ensures AddStores(h, rows, known, stores) == Ok(rows)
    decreases stores
  {
    hide StoreRow;
    if stores != [] {
      assert AddStore(h, rows, known, stores[0]) == Ok((rows, known));
      StoresPresent(h, rows, known, stores[1..]);
    }
  }

  /** A row can be added only to a list. */
  lemma {:induction false} StoresNeedList(h: Host, rows: Value, known: set<Value>, stores: seq<Value>)
    requires !rows.List? && AddStores(h, rows, known, stores).Ok?
    ensures AddStores(h, rows, known, stores) == Ok(rows) && forall s <- stores :: StoreId(s) in known
    decreases stores
  {
    hide StoreRow;
    if stores != [] {
      StoresNeedList(h, rows, AddStore(h, rows, known, stores[0]).value.1, stores[1..]);
      assert forall x <- stores :: x == stores[0] || x in stores[1..];
    }
  }

  /**
   * Repeating the pass adds no row exactly if every declared store id is among the expanded ids that were in the rows
   * to begin with, or is the expansion of a declared id that was not.
   */
  predicate IdsSettle(h: Host, known: set<Value>, stores: seq<Value>) {
    && AllExpandHashable(h, NewIds(known, stores))
    && forall s <- stores :: StoreId(s) in known + Expanded(h, NewIds(known, stores))
  }

  /** The expanded ids of the rows the config has. */
  function GivenIds(h: Host, prev: Option<Value>): Result<set<Value>, Fault> {
    StoreIds(h, if prev.Some? && prev.value.List? then prev.value.items else [])
  }

  lemma StoresTwiceExactly(h: Host, prev: Option<Value>, stores: seq<Value>)
    requires stores != [] && WithStores(h, stores)(prev).Ok?
    ensures var v := WithStores(h, stores)(prev).value;
            && GivenIds(h, prev).Ok? && v.List?
            && (WithStores(h, stores)(Some(v)) == Ok(v) <==> IdsSettle(h, GivenIds(h, prev).value, stores))
  {
    StoresStartAsList(h, prev, stores);
    hide AddStores, StoreIds, AllExpandHashable, NewIds, Expanded;
    var start := CopyOf(prev, List([])).value;
    var known := StoreIds(h, Elements(start).value).value;
    StoreIdsAfter(h, start.items, known, known, stores);
    var r := AddStores(h, start, known, stores).value.items;
    StoresAdded(h, start.items, known, stores);
    if AllExpandHashable(h, NewIds(known, stores)) {
      StoresStayExactly(h, r, known + Expanded(h, NewIds(known, stores)), stores);
    }
  }

  lemma StoresStartAsList(h: Host, prev: Option<Value>, stores: seq<Value>)
    requires stores != [] && WithStores(h, stores)(prev).Ok?
    ensures CopyOf(prev, List([])).value.List?
  {
    hide AddStores, StoreIds, StoreId;
    var start := CopyOf(prev, List([])).value;
    var known := StoreIds(h, Elements(start).value).value;
    assert stores[0] in stores;
    if !start.List? {
      StoresNeedList(h, start, known, stores);
      EmptyKnows(h, start);
    }
  }

  lemma EmptyKnows(h: Host, start: Value)
    requires !start.List? && Elements(start).Ok? && StoreIds(h, Elements(start).value).Ok?
    ensures StoreIds(h, Elements(start).value).value == {}
  {
  }

  lemma StoresStayExactly(h: Host, rows: seq<Value>, known: set<Value>, stores: seq<Value>)
    requires forall s <- stores :: s.Map? && Truthy(GetOr(s.entries, "rag_id", Null)) && Truthy(StoreId(s))
                                   && Hashable(StoreId(s))
    ensures AddStores(h, List(rows), known, stores) == Ok(List(rows)) <==> forall s <- stores :: StoreId(s) in known
  {
    hide AddStores;
    if forall s <- stores :: StoreId(s) in known {
      StoresPresent(h, List(rows), known, stores);
    } else if AddStores(h, List(rows), known, stores).Ok? {
      var s :| s in stores && StoreId(s) !in known;
      UnknownIsAdded(h, rows, known, stores, s);
    }
  }

  lemma {:induction false} UnknownIsAdded(h: Host, rows: seq<Value>, known: set<Value>, stores: seq<Value>, s: Value)
    requires AddStores(h, List(rows), known, stores).Ok? && s in stores && StoreId(s) !in known
    ensures var r := AddStores(h, List(rows), known, stores).value; r.List? && |r.items| > |rows|
    decreases stores
  {
    hide StoreRow;
    var next := AddStore(h, List(rows), known, stores[0]).value;
    StoresAdded(h, next.0.items, next.1, stores[1..]);
    if StoreId(stores[0]) in known {
      UnknownIsAdded(h, rows, known, stores[1..], s);
    }
  }

  // ----- embedding models --------------------------------------------------

  function ModelOf(store: Value): Value {
    if store.Map? then GetOr(store.entries, "embedding_model", Str("sentence-transformers/all-mpnet-base-v2")) else Null
  }

  lemma {:induction false} AnyWithOfAppend(rows: seq<Value>, more: seq<Value>, field: string, v: Value)
    requires AnyWith(rows, field, v) == Ok(true)
    ensures AnyWith(rows + more, field, v) == Ok(true)
  {
    assert (rows + more)[1..] == rows[1..] + more;
    if Get(rows[0], field, Null) != Ok(v) {
      AnyWithOfAppend(rows[1..], more, field, v);
    }
  }

  lemma {:induction false} AnyWithOfSnoc(rows: seq<Value>, row: Value, field: string, v: Value)
    requires AnyWith(rows, field, v) == Ok(false) && Get(row, field, Null) == Ok(v)
    ensures AnyWith(rows + [row], field, v) == Ok(true)
  {
    if rows != [] {
      assert (rows + [row])[1..] == rows[1..] + [row];
      AnyWithOfSnoc(rows[1..], row, field, v);
    }
  }

  predicate ModelDone(h: Host, rows: seq<Value>, store: Value) {
    && store.Map? && Truthy(GetOr(store.entries, "rag_id", Null))
    && (Truthy(ModelOf(store)) ==>
          && ModelOf(store).Str?
          && AnyWith(rows, "model_id", Str(EmbeddingName(RagText(h, store)))) == Ok(true))
  }

  lemma EmbeddingRowId(modelId: string, path: string, dimension: Value)
    ensures Get(EmbeddingRow(modelId, path, dimension), "model_id", Null) == Ok(Str(modelId))
  {
  }

  lemma {:induction false} ModelsAdded(h: Host, rows: seq<Value>, stores: seq<Value>)
    requires AddModels(h, List(rows), stores).Ok?
    ensures var r := AddModels(h, List(rows), stores).value;
            r.List? && rows <= r.items && forall s <- stores :: ModelDone(h, r.items, s)
    decreases stores
  {
    hide EmbeddingRow, AnyWith, EmbeddingName;
    if stores != [] {
      var s, rest := stores[0], stores[1..];
      var next := AddModel(h, List(rows), s).value;
      var name := EmbeddingName(RagText(h, s));
      var r := AddModels(h, List(rows), stores).value;
      if Truthy(ModelOf(s)) && AnyWith(rows, "model_id", Str(name)) == Ok(false) {
        var row := EmbeddingRow(name, ModelOf(s).s, GetOr(s.entries, "embedding_dimension", Null));
        EmbeddingRowId(name, ModelOf(s).s, GetOr(s.entries, "embedding_dimension", Null));
        AnyWithOfSnoc(rows, row, "model_id", Str(name));
      }
      ModelsAdded(h, next.items, rest);
      assert r.items == next.items + r.items[|next.items|..];
      if Truthy(ModelOf(s)) {
        AnyWithOfAppend(next.items, r.items[|next.items|..], "model_id", Str(name));
      }
      assert forall x <- stores :: x == s || x in rest;
    }
  }

  lemma {:induction false} ModelsPresent(h: Host, rows: seq<Value>, stores: seq<Value>)
    requires forall s <- stores :: ModelDone(h, rows, s)
    ensures AddModels(h, List(rows), stores) == Ok(List(rows))
    decreases stores
  {
    hide EmbeddingRow, AnyWith, EmbeddingName;
    if stores != [] {
      assert ModelDone(h, rows, stores[0]);
      assert AddModel(h, List(rows), stores[0]) == Ok(List(rows));
      ModelsPresent(h, rows, stores[1..]);
    }
  }

  /** Rows in a mapping: its keys are texts, so only stores without a model get through. */
  lemma {:induction false} ModelsNeedList(h: Host, rows: Value, stores: seq<Value>)
    requires !rows.List? && AddModels(h, rows, stores).Ok?
    ensures AddModels(h, rows, stores) == Ok(rows)
    decreases stores
  {
    hide EmbeddingRow, AnyWith, EmbeddingName;
    if stores != [] {
      assert AddModel(h, rows, stores[0]) == Ok(rows);
      ModelsNeedList(h, rows, stores[1..]);
    }
  }

  lemma ModelsTwice(h: Host, prev: Option<Value>, stores: seq<Value>)
    requires WithModels(h, stores)(prev).Ok?
    ensures var v := WithModels(h, stores)(prev).value; WithModels(h, stores)(Some(v)) == Ok(v)
  {
    hide AddModels;
    var start := CopyOf(prev, List([])).value;
    if start.List? {
      ModelsAdded(h, start.items, stores);
      ModelsPresent(h, AddModels(h, start, stores).value.items, stores);
    } else {
      ModelsNeedList(h, start, stores);
    }
  }

  // ----- the whole pass ----------------------------------------------------

  /** `r[outer][inner]` is the rewrite of what `root` has there. */
  predicate ResultOf(root: Section, r: Section, outer: string, inner: string, rewrite: Rewrite) {
    && Sub(root, outer, inner).Ok? && rewrite(Sub(root, outer, inner).value).Ok?
    && Sub(r, outer, inner) == Ok(Some(rewrite(Sub(root, outer, inner).value).value))
    && outer in r && r[outer].Map?
  }

  function Resources(stores: Rewrite, models: Rewrite): Pass {
    Then(UpdatePass("registered_resources", "vector_stores", stores),
         UpdatePass("registered_resources", "models", models))
  }

  /** Two updates of sibling sections do not disturb each other. */
  lemma SiblingUpdates(root: Section, stores: Rewrite, models: Rewrite)
    requires Resources(stores, models)(root).Ok?
    ensures var r := Resources(stores, models)(root).value;
            && ResultOf(root, r, "registered_resources", "vector_stores", stores)
            && ResultOf(root, r, "registered_resources", "models", models)
            && SameOutside(root, r, {("registered_resources", "vector_stores"), ("registered_resources", "models")})
            && forall k | k != "registered_resources" :: (k in r <==> k in root) && (k in r ==> r[k] == root[k])
  {
    hide Sub, Update;
    var r1 := Update(root, "registered_resources", "vector_stores", stores).value;
    var r := Update(r1, "registered_resources", "models", models).value;
    UpdateSets(root, "registered_resources", "vector_stores", stores);
    UpdateSets(r1, "registered_resources", "models", models);
    UpdateFrame(root, "registered_resources", "vector_stores", stores);
    UpdateFrame(r1, "registered_resources", "models", models);
    FrameThen(root, r1, r, {("registered_resources", "vector_stores")}, {("registered_resources", "models")});
    assert Sub(r1, "registered_resources", "models") == Sub(root, "registered_resources", "models");
    assert Sub(r, "registered_resources", "vector_stores") == Sub(r1, "registered_resources", "vector_stores");
  }

  /** The nested sections the pass owns. */
  const BYOK_SECTIONS := {("storage", "backends"), ("providers", "vector_io"),
                          ("registered_resources", "vector_stores"), ("registered_resources", "models")}

  lemma FourUpdates(root: Section, f1: Rewrite, f2: Rewrite, f3: Rewrite, f4: Rewrite)
    requires Then(Then(UpdatePass("storage", "backends", f1), UpdatePass("providers", "vector_io", f2)),
                  Resources(f3, f4))(root).Ok?
    ensures var r := Then(Then(UpdatePass("storage", "backends", f1), UpdatePass("providers", "vector_io", f2)),
                          Resources(f3, f4))(root).value;
            && ResultOf(root, r, "storage", "backends", f1) && ResultOf(root, r, "providers", "vector_io", f2)
            && ResultOf(root, r, "registered_resources", "vector_stores", f3)
            && ResultOf(root, r, "registered_resources", "models", f4)
            && SameOutside(root, r, BYOK_SECTIONS)
            && forall k | k !in {"storage", "providers", "registered_resources"} ::
                 (k in r <==> k in root) && (k in r ==> r[k] == root[k])
  {
    hide Sub, Update, Resources;
    var r1 := Update(root, "storage", "backends", f1).value;
    var r2 := Update(r1, "providers", "vector_io", f2).value;
    var r := Resources(f3, f4)(r2).value;
    UpdateSets(root, "storage", "backends", f1);
    UpdateSets(r1, "providers", "vector_io", f2);
    SiblingUpdates(r2, f3, f4);
    SubElsewhere(r1, r, "storage", "backends");
    SubElsewhere(root, r1, "providers", "vector_io");
    SubElsewhere(r2, r, "providers", "vector_io");
    SubElsewhere(root, r2, "registered_resources", "vector_stores");
    SubElsewhere(root, r2, "registered_resources", "models");
    UpdateFrame(root, "storage", "backends", f1);
    UpdateFrame(r1, "providers", "vector_io", f2);
    FrameThen(root, r1, r2, {("storage", "backends")}, {("providers", "vector_io")});
    FrameThen(root, r2, r, {("storage", "backends")} + {("providers", "vector_io")},
              {("registered_resources", "vector_stores"), ("registered_resources", "models")});
    assert {("storage", "backends")} + {("providers", "vector_io")}
      + {("registered_resources", "vector_stores"), ("registered_resources", "models")} == BYOK_SECTIONS;
  }

  lemma ByokIsFourUpdates(h: Host, stores: seq<Value>, root: Section)
    requires stores != []
    ensures Byok(h, List(stores), root)
         == Then(Then(UpdatePass("storage", "backends", WithBackends(h, stores)),
                      UpdatePass("providers", "vector_io", WithProviders(h, stores))),
                 Resources(WithStores(h, stores), WithModels(h, stores)))(root)
  {
    hide Update, WithBackends, WithProviders, WithStores, WithModels;
  }

  /** What each of the four sections holds after the pass; all others, their neighbours included, are as before. */
  lemma ByokSections(h: Host, stores: seq<Value>, root: Section)
    requires stores != [] && Byok(h, List(stores), root).Ok?
    ensures var r := Byok(h, List(stores), root).value;
            && ResultOf(root, r, "storage", "backends", WithBackends(h, stores))
            && ResultOf(root, r, "providers", "vector_io", WithProviders(h, stores))
            && ResultOf(root, r, "registered_resources", "vector_stores", WithStores(h, stores))
            && ResultOf(root, r, "registered_resources", "models", WithModels(h, stores))
            && SameOutside(root, r, BYOK_SECTIONS)
            && forall k | k !in {"storage", "providers", "registered_resources"} ::
                 (k in r <==> k in root) && (k in r ==> r[k] == root[k])
  {
    hide Byok, Then, Update, WithBackends, WithProviders, WithStores, WithModels, ResultOf, Resources,
      SameOutside;
    ByokIsFourUpdates(h, stores, root);
    FourUpdates(root, WithBackends(h, stores), WithProviders(h, stores), WithStores(h, stores), WithModels(h, stores));
  }

  /** The expanded ids of the vector store rows a config has. */
  function StoredIds(h: Host, root: Section): set<Value> {
    var ids := StoreIds(h, ListAt(root, "registered_resources", "vector_stores"));
    if ids.Ok? then ids.value else {}
  }

  lemma StoredIdsAreGiven(h: Host, root: Section)
    requires Sub(root, "registered_resources", "vector_stores").Ok?
    requires GivenIds(h, Sub(root, "registered_resources", "vector_stores").value).Ok?
    ensures StoredIds(h, root) == GivenIds(h, Sub(root, "registered_resources", "vector_stores").value).value
  {
  }

  /**
   * Repeating the BYOK pass changes nothing exactly if every declared store id is, as written, among the expanded
   * ids the config had, or is the expansion of a declared id that was not; all expansions must be hashable.
   */
  lemma ByokTwiceExactly(h: Host, stores: seq<Value>, root: Section)
    requires Byok(h, List(stores), root).Ok?
    ensures Byok(h, List(stores), Byok(h, List(stores), root).value) == Byok(h, List(stores), root)
       <==> stores == [] || IdsSettle(h, StoredIds(h, root), stores)
  {
    var r := Byok(h, List(stores), root).value;
    if stores == [] {
      DedupeTwice(h, root);
    } else {
      OnlyStoresRepeat(h, stores, root);
      ByokSections(h, stores, root);
      StoresTwiceExactly(h, Sub(root, "registered_resources", "vector_stores").value, stores);
      StoredIdsAreGiven(h, root);
      var v := Sub(r, "registered_resources", "vector_stores").value.value;
      hide Byok, Sub, Update, WithBackends, WithProviders, WithStores, WithModels, IdsSettle, StoredIds, GivenIds;
      if WithStores(h, stores)(Some(v)) == Ok(v) {
        UpdateAgain(r, "registered_resources", "vector_stores", WithStores(h, stores), v);
        assert Resources(WithStores(h, stores), WithModels(h, stores))(r) == Ok(r);
      } else if Resources(WithStores(h, stores), WithModels(h, stores))(r).Ok? {
        SiblingUpdates(r, WithStores(h, stores), WithModels(h, stores));
      }
    }
  }

  /** The other three sections do not change when the pass is repeated. */
  lemma OnlyStoresRepeat(h: Host, stores: seq<Value>, root: Section)
    requires stores != [] && Byok(h, List(stores), root).Ok?
    ensures var r := Byok(h, List(stores), root).value;
            && Byok(h, List(stores), r) == Resources(WithStores(h, stores), WithModels(h, stores))(r)
            && Update(r, "registered_resources", "models", WithModels(h, stores)) == Ok(r)
  {
    var r := Byok(h, List(stores), root).value;
    ByokSections(h, stores, root);
    BackendsTwice(h, Sub(root, "storage", "backends").value, stores);
    ProvidersTwice(h, Sub(root, "providers", "vector_io").value, stores);
    ModelsTwice(h, Sub(root, "registered_resources", "models").value, stores);
    hide Byok, Sub, Update, WithBackends, WithProviders, WithStores, WithModels;
    UpdateAgain(r, "storage", "backends", WithBackends(h, stores), Sub(r, "storage", "backends").value.value);
    UpdateAgain(r, "providers", "vector_io", WithProviders(h, stores), Sub(r, "providers", "vector_io").value.value);
    UpdateAgain(r, "registered_resources", "models", WithModels(h, stores),
                Sub(r, "registered_resources", "models").value.value);
    ByokIsFourUpdates(h, stores, r);
  }

  /** Where expansion leaves the declared store ids alone, repeating the pass changes nothing. */
  lemma ByokTwice(h: Host, stores: seq<Value>, root: Section)
    requires IdsAreLiteral(h, stores) && Byok(h, List(stores), root).Ok?
    ensures Byok(h, List(stores), Byok(h, List(stores), root).value) == Byok(h, List(stores), root)
  {
    hide Byok, StoredIds;
    ByokTwiceExactly(h, stores, root);
    if stores != [] {
      StoresAreHashable(h, stores, root);
      LiteralIdsSettle(h, StoredIds(h, root), stores);
    }
  }

  lemma StoresAreHashable(h: Host, stores: seq<Value>, root: Section)
    requires stores != [] && Byok(h, List(stores), root).Ok?
    ensures forall s <- stores :: s.Map? && Hashable(StoreId(s))
  {
    hide Byok, Sub, WithStores, WithBackends, WithProviders, WithModels, StoreId, Hashable;
    ByokSections(h, stores, root);
    AcceptedAreHashable(h, Sub(root, "registered_resources", "vector_stores").value, stores);
  }

  lemma AcceptedAreHashable(h: Host, prev: Option<Value>, stores: seq<Value>)
    requires stores != [] && WithStores(h, stores)(prev).Ok?
    ensures forall s <- stores :: s.Map? && Hashable(StoreId(s))
  {
    hide AddStores, StoreIds, Hashable, StoreId;
    StoresStartAsList(h, prev, stores);
    var start := CopyOf(prev, List([])).value;
    StoresAdded(h, start.items, StoreIds(h, start.items).value, stores);
  }

  lemma LiteralIdsSettle(h: Host, known: set<Value>, stores: seq<Value>)
    requires IdsAreLiteral(h, stores) && forall s <- stores :: Hashable(StoreId(s))
    ensures IdsSettle(h, known, stores)
  {
    hide StoreId, Hashable;
    forall s <- stores | StoreId(s) !in known ensures StoreId(s) in Expanded(h, NewIds(known, stores)) {
      assert StoreId(s) in NewIds(known, stores) && h.expand(StoreId(s)) == StoreId(s);
    }
  }

  // ----- a store id with an environment reference --------------------------

  const ENV_ID := Str("${env.KB}")
  const ENV_STORE := Map(map["rag_id" := Str("docs"), "vector_db_id" := ENV_ID])

  /** An environment in which the reference stands for `kb`. */
  function EnvHost(): Host {
    Host(v => "", v => if v == ENV_ID then Str("kb") else v, v => v)
  }

  /** Such a store is added to an empty config, and again to the result. */
  lemma EnvIdIsAddedTwice()
    ensures var once := Byok(EnvHost(), List([ENV_STORE]), map[]);
            once.Ok? && Byok(EnvHost(), List([ENV_STORE]), once.value) != once
  {
    var h, stores := EnvHost(), [ENV_STORE];
    IdsOnlyIsAccepted(h, ENV_STORE);
    assert StoreId(ENV_STORE) == ENV_ID && ENV_STORE in stores;
    hide Byok;
    ByokTwiceExactly(h, stores, map[]);
    assert StoredIds(h, map[]) == {};
    assert forall id <- NewIds({}, stores) :: id == ENV_ID;
    assert ENV_ID !in Expanded(h, NewIds({}, stores));
  }

  // ----- stores that give their ids only -----------------------------------

  predicate IdsOnly(s: Value) {
    && s.Map? && s.entries.Keys == {"rag_id", "vector_db_id"}
    && s.entries["rag_id"].Str? && s.entries["rag_id"].s != ""
    && s.entries["vector_db_id"].Str? && s.entries["vector_db_id"].s != ""
  }

  /** An empty config takes any store that gives its two ids. */
  lemma IdsOnlyIsAccepted(h: Host, s: Value)
    requires IdsOnly(s)
    ensures Byok(h, List([s]), map[]).Ok?
  {
    NewBackend(h, s);
    NewProvider(h, s);
    NewStore(h, s);
    NewModel(h, s);
    hide Byok, WithBackends, WithProviders, WithStores, WithModels;
    ByokIsFourUpdates(h, [s], map[]);
    NewSections(WithBackends(h, [s]), WithProviders(h, [s]), WithStores(h, [s]), WithModels(h, [s]));
  }

  lemma NewSections(f1: Rewrite, f2: Rewrite, f3: Rewrite, f4: Rewrite)
    requires f1(None).Ok? && f2(None).Ok? && f3(None).Ok? && f4(None).Ok?
    ensures Then(Then(UpdatePass("storage", "backends", f1), UpdatePass("providers", "vector_io", f2)),
                 Resources(f3, f4))(map[]).Ok?
  {
    hide Update;
    UpdateIsOk(map[], "storage", "backends", f1);
    var r1 := Update(map[], "storage", "backends", f1).value;
    UpdateIsOk(r1, "providers", "vector_io", f2);
    var r2 := Update(r1, "providers", "vector_io", f2).value;
    UpdateIsOk(r2, "registered_resources", "vector_stores", f3);
    var r3 := Update(r2, "registered_resources", "vector_stores", f3).value;
    UpdateIsOk(r3, "registered_resources", "models", f4);
  }

  lemma UpdateIsOk(root: Section, outer: string, inner: string, rewrite: Rewrite)
    requires GetOr(root, outer, EMPTY).Map? && inner !in GetOr(root, outer, EMPTY).entries && rewrite(None).Ok?
    ensures Update(root, outer, inner, rewrite).Ok?
    ensures var r := Update(root, outer, inner, rewrite).value;
            && (forall k | k != outer :: k in r <==> k in root)
            && outer in r && r[outer] == Map(GetOr(root, outer, EMPTY).entries[inner := rewrite(None).value])
  {
  }

  lemma NewBackend(h: Host, s: Value)
    requires IdsOnly(s)
    ensures RagType(h, s) == Ok(FAISS) && WithBackends(h, [s])(None).Ok?
  {
    hide StorageName, KvSqlite;
    var next := AddBackend(h, EMPTY, s);
    assert AddBackends(h, next.value, [s][1..]) == next;
  }

  lemma NewProvider(h: Host, s: Value)
    requires IdsOnly(s)
    ensures var r := WithProviders(h, [s])(None);
            r.Ok? && r.value.List? && |r.value.items| == 1 && BuiltFor(h, s, r.value.items[0])
  {
    NewBackend(h, s);
    hide RagType, StorageName, ProviderEntry, Strip;
    var next := AddProvider(h, [], Keys(h, []), s);
    assert AddProviders(h, next.value.0, next.value.1, [s][1..]) == Ok(next.value.0);
  }

  lemma NewStore(h: Host, s: Value)
    requires IdsOnly(s)
    ensures WithStores(h, [s])(None) == Ok(List([StoreRow(h, s, GetOr(s.entries, "rag_id", Null), StoreId(s))]))
  {
    hide StoreRow;
    var next := AddStore(h, List([]), {}, s);
    var row := StoreRow(h, s, GetOr(s.entries, "rag_id", Null), StoreId(s));
    assert [] + [row] == [row];
    assert AddStores(h, next.value.0, next.value.1, [s][1..]) == Ok(next.value.0);
  }

  lemma NewModel(h: Host, s: Value)
    requires IdsOnly(s)
    ensures WithModels(h, [s])(None).Ok?
  {
    hide EmbeddingRow, EmbeddingName;
    assert Str("sentence-transformers/all-mpnet-base-v2").Str?;
    var next := AddModel(h, List([]), s);
    assert AddModels(h, next.value, [s][1..]) == next;
  }

  // ----- references --------------------------------------------------------

  /** The storage backend a provider entry persists to. */
  function BackendOf(entry: Value): Value {
    if !entry.Map? then Null
    else
      var config := GetOr(entry.entries, "config", Null);
      var persistence := if config.Map? then GetOr(config.entries, "persistence", Null) else Null;
      if persistence.Map? then GetOr(persistence.entries, "backend", Null) else Null
  }

  lemma BuiltBackend(h: Host, store: Value, entry: Value)
    requires BuiltFor(h, store, entry)
    ensures BackendOf(entry) == if RagType(h, store) == Ok(PGVECTOR) then Str("kv_default")
                                else Str(StorageName(Strip(RagText(h, store))))
  {
    hide RagType, StorageName, Strip, FieldOr;
  }

  lemma StorageNameInjective(a: string, b: string)
    requires StorageName(a) == StorageName(b)
    ensures a == b
  {
    var s := StorageName(a);
    assert |s| == 5 + |a| + 8 == 5 + |b| + 8;
    assert s[5..5 + |a|] == a && s[5..5 + |b|] == b;
  }

  /** The provider ids declared for the stores are written without surrounding whitespace. */
  predicate Trimmed(h: Host, stores: seq<Value>) {
    forall s <- stores :: Strip(RagText(h, s)) == RagText(h, s)
  }

  /** The backends section after the pass: what was there, overlaid with what the stores bring. */
  lemma BackendsAfter(h: Host, stores: seq<Value>, root: Section)
    requires stores != [] && Byok(h, List(stores), root).Ok? && !PreviousIsList(root)
    ensures var after := Sub(Byok(h, List(stores), root).value, "storage", "backends");
            && after.Ok? && after.value.Some? && after.value.value.Map?
            && forall name :: name in after.value.value.entries
                 <==> name in BackendsIn(root)
                      || exists s <- stores :: s.Map? && NeedsBackend(h, s) && name == StorageName(RagText(h, s))
  {
    BackendsFrom(h, stores, root);
    hide AddBackends, BackendsOf, RagType, StorageName, RagText;
    BackendKeys(h, stores);
  }

  lemma BackendsFrom(h: Host, stores: seq<Value>, root: Section)
    requires stores != [] && Byok(h, List(stores), root).Ok? && !PreviousIsList(root)
    ensures var after := Sub(Byok(h, List(stores), root).value, "storage", "backends");
            && after.Ok? && after.value.Some? && after.value.value.Map?
            && after.value.value.entries == BackendsIn(root) + BackendsOf(h, stores)
  {
    hide Byok, Sub, AddBackends, BackendsOf, SameOutside;
    ByokSections(h, stores, root);
    AddBackendsOverlays(h, CopyOf(Sub(root, "storage", "backends").value, EMPTY).value, stores);
  }

  /** A backends section that is a list can be copied but takes no entries. */
  predicate PreviousIsList(root: Section) {
    var prev := Sub(root, "storage", "backends");
    prev.Ok? && prev.value.Some? && prev.value.value.List?
  }

  function BackendMap(backends: Value): Section {
    if backends.Map? then backends.entries else map[]
  }

  function BackendsIn(root: Section): Section {
    var prev := Sub(root, "storage", "backends");
    if prev.Ok? && prev.value.Some? then BackendMap(prev.value.value) else map[]
  }

  /** The entry persists to the shared default or to one of the backends. */
  predicate PersistsIn(backends: Section, entry: Value) {
    BackendOf(entry) == Str("kv_default") || (BackendOf(entry).Str? && BackendOf(entry).s in backends)
  }

  predicate Persists(root: Section, entry: Value) {
    PersistsIn(BackendsIn(root), entry)
  }

  lemma BuiltIsMap(h: Host, store: Value, entry: Value)
    requires BuiltFor(h, store, entry)
    ensures store.Map?
  {
  }

  /**
   * The backend an added faiss provider names exists exactly if it was there before or some store that needs a
   * backend has as its rag_id, unstripped, the stripped rag_id of the provider's store.
   */
  lemma AddedBackendExists(h: Host, stores: seq<Value>, root: Section, store: Value, entry: Value)
    requires stores != [] && Byok(h, List(stores), root).Ok?
    requires store in stores && BuiltFor(h, store, entry) && RagType(h, store) != Ok(PGVECTOR)
    ensures BackendOf(entry).Str?
    ensures BackendOf(entry).s in BackendsIn(Byok(h, List(stores), root).value)
       <==> BackendOf(entry).s in BackendsIn(root)
            || exists s <- stores :: s.Map? && NeedsBackend(h, s) && RagText(h, s) == Strip(RagText(h, store))
  {
    BuiltIsMap(h, store, entry);
    hide Byok, Sub, RagType, Strip, BuiltFor, BackendOf, StorageName, RagText;
    BuiltBackend(h, store, entry);
    ListTakesNoBackend(h, stores, root, store);
    BackendsAfter(h, stores, root);
    forall s <- stores | StorageName(RagText(h, s)) == StorageName(Strip(RagText(h, store)))
      ensures RagText(h, s) == Strip(RagText(h, store))
    {
      StorageNameInjective(RagText(h, s), Strip(RagText(h, store)));
    }
  }

  /** Every provider the pass adds persists to the shared default or to a backend that exists, if ids are trimmed. */
  lemma AddedProvidersResolve(h: Host, stores: seq<Value>, root: Section)
    requires stores != [] && Trimmed(h, stores) && Byok(h, List(stores), root).Ok?
    ensures Sub(root, "providers", "vector_io").Ok?
    ensures var r := Byok(h, List(stores), root).value;
            var before, after := VectorIoItems(h, Sub(root, "providers", "vector_io").value),
              ListAt(r, "providers", "vector_io");
            && before <= after && Unique(h, after)
            && forall i :: |before| <= i < |after| ==> Persists(r, after[i])
  {
    hide Byok, Sub, RagType, Strip, BuiltFor, BackendOf, StorageName, RagText, AddProviders, Unique, Keys, DedupeList;
    ByokSections(h, stores, root);
    var r := Byok(h, List(stores), root).value;
    var before := VectorIoItems(h, Sub(root, "providers", "vector_io").value);
    StartOfProviders(h, Sub(root, "providers", "vector_io").value);
    ProvidersAdded(h, before, Keys(h, before), stores);
    var after := ListAt(r, "providers", "vector_io");
    forall i | |before| <= i < |after|
      ensures Persists(r, after[i])
    {
      assert BuiltForOne(h, stores, after[i]);
      var s :| s in stores && BuiltFor(h, s, after[i]);
      BuiltBackend(h, s, after[i]);
      if RagType(h, s) != Ok(PGVECTOR) {
        AddedBackendExists(h, stores, root, s, after[i]);
      }
    }
  }

  lemma ListTakesNoBackend(h: Host, stores: seq<Value>, root: Section, store: Value)
    requires stores != [] && Byok(h, List(stores), root).Ok? && store in stores && store.Map? && NeedsBackend(h, store)
    ensures !PreviousIsList(root)
  {
    SomeBackend(h, stores, store);
    hide Byok, Sub, AddBackends, BackendsOf, NeedsBackend;
    ByokSections(h, stores, root);
    AddBackendsOverlays(h, CopyOf(Sub(root, "storage", "backends").value, EMPTY).value, stores);
  }

  lemma SomeBackend(h: Host, stores: seq<Value>, store: Value)
    requires store in stores && store.Map? && NeedsBackend(h, store)
    ensures BackendsOf(h, stores) != map[]
  {
    hide BackendsOf, NeedsBackend, StorageName, RagText;
    BackendKeys(h, stores);
    assert StorageName(RagText(h, store)) in BackendsOf(h, stores);
  }

  lemma AddedRowsAreStoreRows(h: Host, stores: seq<Value>, root: Section)
    requires stores != [] && Byok(h, List(stores), root).Ok?
    ensures var old', new' := ListAt(root, "registered_resources", "vector_stores"),
                              ListAt(Byok(h, List(stores), root).value, "registered_resources", "vector_stores");
            old' <= new' && forall i :: |old'| <= i < |new'| ==> IsStoreRowOf(h, stores, new'[i])
  {
    hide Byok, Sub, AddProviders, AddStores, AddModels, StoreIds, IsStoreRowOf;
    ByokSections(h, stores, root);
    var start := CopyOf(Sub(root, "registered_resources", "vector_stores").value, List([])).value;
    var known := StoreIds(h, Elements(start).value).value;
    if start.List? {
      StoresAdded(h, start.items, known, stores);
    } else {
      StoresNeedList(h, start, known, stores);
    }
  }
}
