/** What the Solr pass registers, and exactly when repeating it changes nothing. */
module SolrLaws {
  import opened Wrappers
  import opened Yaml
  import opened Enrichment
  import opened PassLaws
  import opened HighLevelLaws
  import opened ModeEquivalence
  import opened ByokLaws

  /** A row that itself has the value looked for is added once; any other row is added again and again. */
  lemma RowAgain(field: string, v: Value, row: Value, prev: Option<Value>)
    requires WithRow(field, v, row)(prev).Ok? && row.Map?
    ensures var items := if prev.Some? && prev.value.List? then prev.value.items else [];
            var l := WithRow(field, v, row)(prev).value;
            l.List? && WithRow(field, v, row)(Some(l))
                    == Ok(if HasRow(items, field, v) || GetOr(row.entries, field, Null) == v then l
                          else List(items + [row] + [row]))
  {
    RowNeedsList(prev, field, v, row);
    var items := if prev.Some? && prev.value.List? then prev.value.items else [];
    var after := items + [row];
    assert row in after && forall x <- items :: x in after;
  }

  lemma ModeStays(mode: Value, prev: Option<Value>)
    requires WithSearchMode(mode)(prev).Ok?
    ensures var v := WithSearchMode(mode)(prev).value; WithSearchMode(mode)(Some(v)) == Ok(v)
  {
    var m := if prev.Some? then prev.value.entries else map[];
    var x := SearchMode(mode).value;
    assert m["default_search_mode" := x]["default_search_mode" := x] == m["default_search_mode" := x];
  }

  /** The nested sections the pass owns. */
  function SolrOwned(okp: Section): set<(string, string)> {
    {("providers", "vector_io"), ("registered_resources", "vector_stores"), ("registered_resources", "models")}
    + if Truthy(GetOr(okp, "search_mode", Null)) then {("vector_stores", "chunk_retrieval_params")} else {}
  }

  /** The sections after the pass; every other section, their neighbours included, is as before. */
  lemma SolrSections(h: Host, okp: Section, root: Section)
    requires SolrEnabled(h, okp, root).Ok?
    ensures var r := SolrEnabled(h, okp, root).value;
            && WithProvidersDir(r) == r
            && ResultOf(root, r, "providers", "vector_io", SolrProviderRow(h, okp))
            && ResultOf(root, r, "registered_resources", "vector_stores", SOLR_STORE_UPDATE)
            && ResultOf(root, r, "registered_resources", "models", SOLR_MODEL_UPDATE)
            && (Truthy(GetOr(okp, "search_mode", Null)) ==>
                  ResultOf(root, r, "vector_stores", "chunk_retrieval_params",
                           WithSearchMode(GetOr(okp, "search_mode", Null))))
            && SameOutside(WithProvidersDir(root), r, SolrOwned(okp))
            && GetOr(r, "external_providers_dir", Null) == GetOr(root, "external_providers_dir", PROVIDERS_DIR)
            && forall k | k !in {"external_providers_dir", "providers", "registered_resources", "vector_stores"} ::
                 (k in r <==> k in root) && (k in r ==> r[k] == root[k])
  {
    hide Sub, Update, SolrProviderRow, WithRow, WithSearchMode;
    var mode := GetOr(okp, "search_mode", Null);
    var r0 := WithProvidersDir(root);
    var r1 := Update(r0, "providers", "vector_io", SolrProviderRow(h, okp)).value;
    assert Resources(SOLR_STORE_UPDATE, SOLR_MODEL_UPDATE)(r1).Ok?;
    var r3 := Resources(SOLR_STORE_UPDATE, SOLR_MODEL_UPDATE)(r1).value;
    UpdateSets(r0, "providers", "vector_io", SolrProviderRow(h, okp));
    SiblingUpdates(r1, SOLR_STORE_UPDATE, SOLR_MODEL_UPDATE);
    SubElsewhere(root, r0, "providers", "vector_io");
    SubElsewhere(root, r1, "registered_resources", "vector_stores");
    SubElsewhere(root, r1, "registered_resources", "models");
    SubElsewhere(root, r3, "vector_stores", "chunk_retrieval_params");
    var r := SolrEnabled(h, okp, root).value;
    SolrFrame(h, okp, root);
    if Truthy(mode) {
      UpdateSets(r3, "vector_stores", "chunk_retrieval_params", WithSearchMode(mode));
    }
    SubElsewhere(r1, r, "providers", "vector_io");
    SubElsewhere(r3, r, "registered_resources", "vector_stores");
    SubElsewhere(r3, r, "registered_resources", "models");
  }

  lemma SolrFrame(h: Host, okp: Section, root: Section)
    requires SolrEnabled(h, okp, root).Ok?
    ensures SameOutside(WithProvidersDir(root), SolrEnabled(h, okp, root).value, SolrOwned(okp))
  {
    hide Sub, Update, SolrProviderRow, WithRow, WithSearchMode, SameOutside, WithProvidersDir;
    var mode, own := GetOr(okp, "search_mode", Null), {("providers", "vector_io")};
    var resources := {("registered_resources", "vector_stores"), ("registered_resources", "models")};
    var r0 := WithProvidersDir(root);
    var r1 := Update(r0, "providers", "vector_io", SolrProviderRow(h, okp)).value;
    assert Resources(SOLR_STORE_UPDATE, SOLR_MODEL_UPDATE)(r1).Ok?;
    var r3 := Resources(SOLR_STORE_UPDATE, SOLR_MODEL_UPDATE)(r1).value;
    UpdateFrame(r0, "providers", "vector_io", SolrProviderRow(h, okp));
    SiblingUpdates(r1, SOLR_STORE_UPDATE, SOLR_MODEL_UPDATE);
    FrameThen(r0, r1, r3, own, resources);
    if Truthy(mode) {
      UpdateFrame(r3, "vector_stores", "chunk_retrieval_params", WithSearchMode(mode));
      FrameThen(r0, r3, SolrEnabled(h, okp, root).value, own + resources,
                {("vector_stores", "chunk_retrieval_params")});
    }
    assert own + resources + {} == own + resources;
    assert own + resources + (if Truthy(mode) then {("vector_stores", "chunk_retrieval_params")} else {})
      == SolrOwned(okp);
  }

  lemma RowThere(field: string, v: Value, row: Value, prev: Option<Value>)
    requires WithRow(field, v, row)(prev).Ok? && row.Map?
    ensures var items := if prev.Some? && prev.value.List? then prev.value.items else [];
            var l := WithRow(field, v, row)(prev).value;
            && l.List? && items <= l.items
            && (if HasRow(items, field, v) then l.items == items else l.items == items + [row] && row in l.items)
  {
    RowNeedsList(prev, field, v, row);
  }

  /**
   * After the pass there is a provider with the Solr id and a vector store with the Solr store id, and no list loses
   * or moves a row. The model name that the store names is registered exactly if it was before, or no row had the
   * bare path of the model.
   */
  lemma SolrRegistersAll(h: Host, okp: Section, root: Section)
    requires SolrEnabled(h, okp, root).Ok?
    ensures var r := SolrEnabled(h, okp, root).value;
            var before, models := ListAt(root, "registered_resources", "models"),
                                  ListAt(r, "registered_resources", "models");
            && ListAt(root, "providers", "vector_io") <= ListAt(r, "providers", "vector_io")
            && ListAt(root, "registered_resources", "vector_stores")
               <= ListAt(r, "registered_resources", "vector_stores")
            && before <= models
            && HasRow(ListAt(r, "providers", "vector_io"), "provider_id", Str(SOLR_ID))
            && HasRow(ListAt(r, "registered_resources", "vector_stores"), "vector_store_id", Str(SOLR_STORE))
            && (HasRow(models, "model_id", Str(SOLR_MODEL_ID))
                <==> HasRow(before, "model_id", Str(SOLR_MODEL_ID))
                     || !HasRow(before, "provider_model_id", Str(SOLR_MODEL_PATH)))
  {
    var url, filter := GetOr(okp, "rhokp_url", Null), GetOr(okp, "chunk_filter_query", Null);
    hide *;
    SolrRowKey(h, url, filter);
    SolrRowIds();
    UpdatesAreRows(h, okp);
    SolrSections(h, okp, root);
    var r, row := SolrEnabled(h, okp, root).value, SolrProvider(h, url, filter);
    RowAppended(root, r, "providers", "vector_io", "provider_id", Str(SOLR_ID), row);
    RowAppended(root, r, "registered_resources", "vector_stores", "vector_store_id", Str(SOLR_STORE), SOLR_STORE_ROW);
    RowAppended(root, r, "registered_resources", "models", "provider_model_id", Str(SOLR_MODEL_PATH), SOLR_MODEL_ROW);
    RowInSnoc(ListAt(root, "providers", "vector_io"), row, "provider_id", Str(SOLR_ID));
    RowInSnoc(ListAt(root, "registered_resources", "vector_stores"), SOLR_STORE_ROW, "vector_store_id",
              Str(SOLR_STORE));
    RowInSnoc(ListAt(root, "registered_resources", "models"), SOLR_MODEL_ROW, "model_id", Str(SOLR_MODEL_ID));
  }

  lemma RowInSnoc(rows: seq<Value>, row: Value, field: string, v: Value)
    requires row.Map?
    ensures rows + [] == rows
    ensures HasRow(rows + [row], field, v) <==> HasRow(rows, field, v) || GetOr(row.entries, field, Null) == v
  {
    assert forall x :: x in rows + [row] <==> x in rows || x == row;
  }

  lemma RowAppended(root: Section, r: Section, outer: string, inner: string, field: string, v: Value, row: Value)
    requires ResultOf(root, r, outer, inner, WithRow(field, v, row)) && row.Map?
    ensures ListAt(r, outer, inner)
         == ListAt(root, outer, inner) + if HasRow(ListAt(root, outer, inner), field, v) then [] else [row]
  {
    hide Sub, WithRow, HasRow;
    RowThere(field, v, row, Sub(root, outer, inner).value);
  }

  lemma SolrRowIds()
    ensures SOLR_STORE_ROW.Map? && GetOr(SOLR_STORE_ROW.entries, "vector_store_id", Null) == Str(SOLR_STORE)
    ensures SOLR_MODEL_ROW.Map? && GetOr(SOLR_MODEL_ROW.entries, "model_id", Null) == Str(SOLR_MODEL_ID)
  {
  }

  lemma UpdatesAreRows(h: Host, okp: Section)
    ensures SOLR_STORE_UPDATE == WithRow("vector_store_id", Str(SOLR_STORE), SOLR_STORE_ROW)
    ensures SOLR_MODEL_UPDATE == WithRow("provider_model_id", Str(SOLR_MODEL_PATH), SOLR_MODEL_ROW)
    ensures SolrProviderRow(h, okp)
         == WithRow("provider_id", Str(SOLR_ID),
                    SolrProvider(h, GetOr(okp, "rhokp_url", Null), GetOr(okp, "chunk_filter_query", Null)))
  {
    hide WithRow, SolrProvider;
  }

  /** The model is looked for under a bare path; the row the pass adds has that path inside an expression. */
  lemma ModelRowIsNotFound()
    ensures SOLR_MODEL_ROW.Map? && GetOr(SOLR_MODEL_ROW.entries, "provider_model_id", Null) != Str(SOLR_MODEL_PATH)
  {
    var found := EnvDefault("SOLR_EMBEDDING_MODEL", SOLR_MODEL_PATH);
    assert |found.s| > |SOLR_MODEL_PATH|;
  }

  /** Repeating the rest of the pass on its own result comes down to repeating the model registration. */
  lemma OnlyModelsRepeat(h: Host, okp: Section, root: Section)
    requires SolrEnabled(h, okp, root).Ok?
    ensures var r := SolrEnabled(h, okp, root).value;
            Update(r, "providers", "vector_io", SolrProviderRow(h, okp)) == Ok(r)
            && Update(r, "registered_resources", "vector_stores", SOLR_STORE_UPDATE) == Ok(r)
            && (Truthy(GetOr(okp, "search_mode", Null)) ==>
                  Update(r, "vector_stores", "chunk_retrieval_params",
                         WithSearchMode(GetOr(okp, "search_mode", Null))) == Ok(r))
  {
    var url, filter, mode := GetOr(okp, "rhokp_url", Null), GetOr(okp, "chunk_filter_query", Null),
      GetOr(okp, "search_mode", Null);
    SolrRowKey(h, url, filter);
    hide Sub, Update, SolrEnabled, SolrProvider, WithRow, WithSearchMode;
    SolrSections(h, okp, root);
    var r := SolrEnabled(h, okp, root).value;
    RowAgain("provider_id", Str(SOLR_ID), SolrProvider(h, url, filter), Sub(root, "providers", "vector_io").value);
    RowAgain("vector_store_id", Str(SOLR_STORE), SOLR_STORE_ROW,
             Sub(root, "registered_resources", "vector_stores").value);
    assert GetOr(SOLR_STORE_ROW.entries, "vector_store_id", Null) == Str(SOLR_STORE);
    UpdateAgain(r, "providers", "vector_io", SolrProviderRow(h, okp), Sub(r, "providers", "vector_io").value.value);
    UpdateAgain(r, "registered_resources", "vector_stores", SOLR_STORE_UPDATE,
                Sub(r, "registered_resources", "vector_stores").value.value);
    if Truthy(mode) {
      ModeStays(mode, Sub(root, "vector_stores", "chunk_retrieval_params").value);
      UpdateAgain(r, "vector_stores", "chunk_retrieval_params", WithSearchMode(mode),
                  Sub(r, "vector_stores", "chunk_retrieval_params").value.value);
    }
  }

  /**
   * Repeating the Solr pass always succeeds, and changes nothing exactly if the config registered the embedding
   * model under its bare path beforehand; otherwise the second pass registers the model a second time.
   */
  lemma SolrTwiceExactly(h: Host, okp: Section, root: Section)
    requires SolrEnabled(h, okp, root).Ok?
    ensures var r, again := SolrEnabled(h, okp, root).value, SolrEnabled(h, okp, SolrEnabled(h, okp, root).value);
            var models := ListAt(root, "registered_resources", "models");
            && again.Ok?
            && (again == Ok(r) <==> HasRow(models, "provider_model_id", Str(SOLR_MODEL_PATH)))
            && (again != Ok(r) ==>
                  ListAt(again.value, "registered_resources", "models") == models + [SOLR_MODEL_ROW] + [SOLR_MODEL_ROW])
  {
    var mode := GetOr(okp, "search_mode", Null);
    var r := SolrEnabled(h, okp, root).value;
    OnlyModelsRepeat(h, okp, root);
    SolrSections(h, okp, root);
    ModelsRepeat(root, r);
    var again := Update(r, "registered_resources", "models", SOLR_MODEL_UPDATE);
    if Truthy(mode) {
      UpdateKeepsElsewhere(r, again.value, "vector_stores", "chunk_retrieval_params", WithSearchMode(mode));
    }
    hide Sub, Update, SolrProvider, WithRow, WithSearchMode, HasRow, ListAt, ResultOf;
    assert SolrRegister(mode, r) == again;
    assert SolrEnabled(h, okp, r) == again;
  }

  lemma ModelsRepeat(root: Section, r: Section)
    requires ResultOf(root, r, "registered_resources", "models", SOLR_MODEL_UPDATE)
    ensures var again := Update(r, "registered_resources", "models", SOLR_MODEL_UPDATE);
            var models := ListAt(root, "registered_resources", "models");
            && again.Ok?
            && (again == Ok(r) <==> HasRow(models, "provider_model_id", Str(SOLR_MODEL_PATH)))
            && (again != Ok(r) ==>
                  ListAt(again.value, "registered_resources", "models") == models + [SOLR_MODEL_ROW] + [SOLR_MODEL_ROW])
            && forall k | k != "registered_resources" ::
              (k in again.value <==> k in r) && (k in r ==> again.value[k] == r[k])
  {
    hide Sub, Update, WithRow, HasRow;
    ModelRowIsNotFound();
    var prev := Sub(root, "registered_resources", "models").value;
    RowAgain("provider_model_id", Str(SOLR_MODEL_PATH), SOLR_MODEL_ROW, prev);
    RowThere("provider_model_id", Str(SOLR_MODEL_PATH), SOLR_MODEL_ROW, prev);
    var models := Sub(r, "registered_resources", "models").value.value;
    UpdateExists(r, "registered_resources", "models", SOLR_MODEL_UPDATE, models);
    UpdateSets(r, "registered_resources", "models", SOLR_MODEL_UPDATE);
    if HasRow(ListAt(root, "registered_resources", "models"), "provider_model_id", Str(SOLR_MODEL_PATH)) {
      UpdateAgain(r, "registered_resources", "models", SOLR_MODEL_UPDATE, models);
    }
  }

  lemma UpdateExists(root: Section, outer: string, inner: string, rewrite: Rewrite, v: Value)
    requires outer in root && root[outer].Map? && Sub(root, outer, inner) == Ok(Some(v)) && rewrite(Some(v)).Ok?
    ensures Update(root, outer, inner, rewrite).Ok?
  {
  }

  /** An update that changes nothing changes nothing either where only another section differs. */
  lemma UpdateKeepsElsewhere(a: Section, b: Section, outer: string, inner: string, rewrite: Rewrite)
    requires Update(a, outer, inner, rewrite) == Ok(a) && outer in a && outer in b && a[outer] == b[outer]
    ensures Update(b, outer, inner, rewrite) == Ok(b)
  {
    SubElsewhere(a, b, outer, inner);
    var m := Update(a, outer, inner, rewrite).value[outer];
    assert a[outer] == m && b[outer := m] == b;
  }

  // ----- the search mode ---------------------------------------------------

  /** The parameters a search mode is written to are a mapping, or are not there. */
  predicate TakesMode(root: Section) {
    var section := GetOr(root, "vector_stores", EMPTY);
    section.Map? && GetOr(section.entries, "chunk_retrieval_params", EMPTY).Map?
  }

  lemma ModeIsWritten(mode: Value, root: Section)
    ensures Update(root, "vector_stores", "chunk_retrieval_params", WithSearchMode(mode)).Ok?
       <==> !mode.List? && !mode.Map? && TakesMode(root)
  {
  }

  /**
   * With a search mode declared the pass succeeds exactly if it does without one, the mode is neither a list nor a
   * mapping, and the config takes it.
   */
  lemma SolrModeExactly(h: Host, okp: Section, root: Section)
    ensures SolrEnabled(h, okp, root).Ok?
       <==> && SolrEnabled(h, okp - {"search_mode"}, root).Ok?
            && var mode := GetOr(okp, "search_mode", Null);
               Truthy(mode) ==> !mode.List? && !mode.Map? && TakesMode(root)
  {
    var mode, plain := GetOr(okp, "search_mode", Null), okp - {"search_mode"};
    assert SolrProviderRow(h, plain) == SolrProviderRow(h, okp) by {
      hide WithRow, SolrProvider;
    }
    hide Update, SolrProviderRow, WithRow, WithSearchMode, TakesMode, Sub, SOLR_STORE_ROW, SOLR_MODEL_ROW;
    var r := Update(WithProvidersDir(root), "providers", "vector_io", SolrProviderRow(h, okp));
    if r.Ok? {
      UpdateSets(WithProvidersDir(root), "providers", "vector_io", SolrProviderRow(h, okp));
      RegisterModeExactly(mode, r.value);
      SameMode(root, r.value);
    }
  }

  lemma SameMode(a: Section, b: Section)
    requires ("vector_stores" in a <==> "vector_stores" in b)
    requires "vector_stores" in a ==> a["vector_stores"] == b["vector_stores"]
    ensures TakesMode(a) <==> TakesMode(b)
  {
  }

  lemma RegisterModeExactly(mode: Value, root: Section)
    ensures SolrRegister(mode, root).Ok?
       <==> SolrRegister(Null, root).Ok? && (Truthy(mode) ==> !mode.List? && !mode.Map? && TakesMode(root))
  {
    hide Update, WithRow, WithSearchMode, TakesMode, Sub, SOLR_STORE_ROW, SOLR_MODEL_ROW;
    var stores := WithRow("vector_store_id", Str(SOLR_STORE), SOLR_STORE_ROW);
    var models := WithRow("provider_model_id", Str(SOLR_MODEL_PATH), SOLR_MODEL_ROW);
    var r1 := Update(root, "registered_resources", "vector_stores", stores);
    if r1.Ok? {
      UpdateSets(root, "registered_resources", "vector_stores", stores);
      var r2 := Update(r1.value, "registered_resources", "models", models);
      if r2.Ok? {
        UpdateSets(r1.value, "registered_resources", "models", models);
        ModeIsWritten(mode, r2.value);
        SameMode(root, r2.value);
      }
    }
  }
}
