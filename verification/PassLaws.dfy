/** Which sections the enrichment passes touch, and how the passes may be reordered. */
module PassLaws {
  import opened Wrappers
  import opened Yaml
  import opened VectorIo
  import opened Enrichment

  type Pass = Section -> Outcome

  function Then(first: Pass, second: Pass): Pass {
    root => match first(root) case Ok(r) => second(r) case Err(e) => Err(e)
  }

  function DedupePass(h: Host): Pass {
    root => Dedupe(h, root)
  }

  function AzurePass(azure: Value): Pass {
    root => Azure(azure, root)
  }

  function ByokPass(h: Host, stores: Value): Pass {
    root => Byok(h, stores, root)
  }

  function SolrPass(h: Host, inline: Value, tool: Value, okp: Value): Pass {
    root => Solr(h, inline, tool, okp, root)
  }

  // ----- passes that neither read nor write providers.inference ------------

  /** Replacing the inference section before the pass or after it comes to the same. */
  ghost predicate BlindOn(p: Pass, root: Section, inference: Value) {
    && (p(root).Ok? ==> ViewInference(p(root).value) == ViewInference(root))
    && (ViewInference(root).Present? ==>
          p(WithInference(root, inference))
          == match p(root) case Ok(r) => Ok(WithInference(r, inference)) case Err(e) => Err(e))
  }

  ghost predicate Blind(p: Pass) {
    forall root, inference :: BlindOn(p, root, inference)
  }

  /** A pass that only reads `root[outer][inner]` sees the same with any inference section. */
  lemma SubIsBlind(root: Section, inference: Value, outer: string, inner: string)
    requires ViewInference(root).Present? && (outer, inner) != ("providers", "inference")
    ensures Sub(WithInference(root, inference), outer, inner) == Sub(root, outer, inner)
  {
  }

  lemma PutTwice(m: Section, k: string, a: Value, b: Value)
    ensures m[k := a][k := b] == m[k := b]
  {
  }

  lemma PutSwap(m: Section, k: string, a: Value, l: string, b: Value)
    requires k != l
    ensures m[k := a][l := b] == m[l := b][k := a]
  {
  }

  lemma PutSubIsBlind(root: Section, inference: Value, outer: string, inner: string, v: Value)
    requires (outer, inner) != ("providers", "inference")
    ensures BlindOn((r: Section) => PutSub(r, outer, inner, v), root, inference)
  {
    if ViewInference(root).Present? {
      var put := PutSub(root, outer, inner, v);
      if outer == "providers" {
        var m := root["providers"].entries;
        assert m["inference" := inference][inner := v] == m[inner := v]["inference" := inference];
        var whole := Map(m[inner := v]["inference" := inference]);
        PutTwice(root, "providers", Map(m["inference" := inference]), whole);
        PutTwice(root, "providers", Map(m[inner := v]), whole);
      } else if put.Ok? {
        PutSwap(root, outer, put.value[outer], "providers",
                Map(root["providers"].entries["inference" := inference]));
      }
    }
  }

  function UpdatePass(outer: string, inner: string, rewrite: Rewrite): Pass {
    root => Update(root, outer, inner, rewrite)
  }

  lemma UpdateIsBlind(outer: string, inner: string, rewrite: Rewrite)
    requires (outer, inner) != ("providers", "inference")
    ensures Blind(UpdatePass(outer, inner, rewrite))
  {
    hide Sub, PutSub, ViewInference, WithInference;
    forall root, inference ensures BlindOn(UpdatePass(outer, inner, rewrite), root, inference) {
      if ViewInference(root).Present? {
        SubIsBlind(root, inference, outer, inner);
      }
      var before := Sub(root, outer, inner);
      if before.Ok? && rewrite(before.value).Ok? {
        PutSubIsBlind(root, inference, outer, inner, rewrite(before.value).value);
      }
    }
  }

  lemma BlindThen(p: Pass, q: Pass)
    requires Blind(p) && Blind(q)
    ensures Blind(Then(p, q))
  {
    hide ViewInference, WithInference;
    forall root, inference ensures BlindOn(Then(p, q), root, inference) {
      assert BlindOn(p, root, inference);
      if p(root).Ok? {
        assert BlindOn(q, p(root).value, inference);
      }
    }
  }

  lemma DedupeIsBlind(h: Host)
    ensures Blind(DedupePass(h))
  {
    hide Sub, PutSub, ViewInference, WithInference;
    forall root, inference ensures BlindOn(DedupePass(h), root, inference) {
      if ViewInference(root).Present? {
        SubIsBlind(root, inference, "providers", "vector_io");
      }
      var raw := Sub(root, "providers", "vector_io");
      if raw.Ok? && raw.value.Some? && raw.value.value.List? {
        PutSubIsBlind(root, inference, "providers", "vector_io", List(DedupeList(h, raw.value.value.items)));
      }
    }
  }

  function ByokStages(h: Host, stores: seq<Value>): Pass {
    Then(Then(Then(UpdatePass("storage", "backends", WithBackends(h, stores)),
                   UpdatePass("providers", "vector_io", WithProviders(h, stores))),
              UpdatePass("registered_resources", "vector_stores", WithStores(h, stores))),
         UpdatePass("registered_resources", "models", WithModels(h, stores)))
  }

  lemma StagesAreBlind(h: Host, stores: seq<Value>)
    ensures Blind(ByokStages(h, stores))
  {
    hide Blind, Then, UpdatePass;
    UpdateIsBlind("storage", "backends", WithBackends(h, stores));
    UpdateIsBlind("providers", "vector_io", WithProviders(h, stores));
    UpdateIsBlind("registered_resources", "vector_stores", WithStores(h, stores));
    UpdateIsBlind("registered_resources", "models", WithModels(h, stores));
    var s1 := UpdatePass("storage", "backends", WithBackends(h, stores));
    var s2 := UpdatePass("providers", "vector_io", WithProviders(h, stores));
    var s3 := UpdatePass("registered_resources", "vector_stores", WithStores(h, stores));
    var s4 := UpdatePass("registered_resources", "models", WithModels(h, stores));
    BlindThen(s1, s2);
    BlindThen(Then(s1, s2), s3);
    BlindThen(Then(Then(s1, s2), s3), s4);
  }

  function FailPass(): Pass {
    root => Err(Raised)
  }

  function SkipPass(): Pass {
    root => Ok(root)
  }

  lemma TrivialPassesAreBlind()
    ensures Blind(FailPass()) && Blind(SkipPass())
  {
  }

  lemma BlindOfEqual(p: Pass, q: Pass)
    requires Blind(q) && forall root :: p(root) == q(root)
    ensures Blind(p)
  {
    hide ViewInference, WithInference;
    forall root, inference ensures BlindOn(p, root, inference) {
      assert BlindOn(q, root, inference);
    }
  }

  function ByokAsPass(h: Host, stores: Value): Pass {
    match Elements(stores)
    case Err(_) => FailPass()
    case Ok(items) => if items == [] then DedupePass(h) else ByokStages(h, items)
  }

  lemma ByokIsPass(h: Host, stores: Value, root: Section)
    ensures ByokPass(h, stores)(root) == ByokAsPass(h, stores)(root)
  {
    hide Update, Dedupe;
  }

  lemma ByokIsBlind(h: Host, stores: Value)
    ensures Blind(ByokPass(h, stores))
  {
    hide Blind, ByokPass, DedupePass, ByokStages, FailPass;
    DedupeIsBlind(h);
    TrivialPassesAreBlind();
    if Elements(stores).Ok? {
      StagesAreBlind(h, Elements(stores).value);
    }
    forall root ensures ByokPass(h, stores)(root) == ByokAsPass(h, stores)(root) {
      ByokIsPass(h, stores, root);
    }
    BlindOfEqual(ByokPass(h, stores), ByokAsPass(h, stores));
  }

  // ----- Solr --------------------------------------------------------------

  function DirPass(): Pass {
    root => Ok(WithProvidersDir(root))
  }

  lemma DirIsBlind()
    ensures Blind(DirPass())
  {
    forall root: Section, inference: Value ensures BlindOn(DirPass(), root, inference) {
      if ViewInference(root).Present? {
        PutSwap(root, "external_providers_dir", PROVIDERS_DIR, "providers",
                Map(root["providers"].entries["inference" := inference]));
      }
    }
  }

  const SOLR_STORE_UPDATE := WithRow("vector_store_id", Str(SOLR_STORE), SOLR_STORE_ROW)
  const SOLR_MODEL_UPDATE := WithRow("provider_model_id", Str(SOLR_MODEL_PATH), SOLR_MODEL_ROW)

  function RegisterStages(mode: Value): Pass {
    Then(Then(UpdatePass("registered_resources", "vector_stores", SOLR_STORE_UPDATE),
              UpdatePass("registered_resources", "models", SOLR_MODEL_UPDATE)),
         if Truthy(mode) then UpdatePass("vector_stores", "chunk_retrieval_params", WithSearchMode(mode))
           else SkipPass())
  }

  lemma RegisterIsStages(mode: Value, root: Section)
    ensures SolrRegister(mode, root) == RegisterStages(mode)(root)
  {
    hide Update, WithRow, WithSearchMode;
  }

  function SolrStages(h: Host, okp: Section): Pass {
    Then(Then(DirPass(), UpdatePass("providers", "vector_io", SolrProviderRow(h, okp))),
         RegisterStages(GetOr(okp, "search_mode", Null)))
  }

  lemma SolrIsStages(h: Host, okp: Section, root: Section)
    ensures SolrEnabled(h, okp, root) == SolrStages(h, okp)(root)
  {
    hide Update, SolrProviderRow, SolrRegister, RegisterStages;
    var r := Update(WithProvidersDir(root), "providers", "vector_io", SolrProviderRow(h, okp));
    if r.Ok? {
      RegisterIsStages(GetOr(okp, "search_mode", Null), r.value);
    }
  }

  function SolrAsPass(h: Host, inline: Value, tool: Value, okp: Value): Pass {
    match OkpEnabled(inline, tool)
    case Err(_) => FailPass()
    case Ok(false) => SkipPass()
    case Ok(true) => if okp.Map? then SolrStages(h, okp.entries) else FailPass()
  }

  lemma SolrIsPass(h: Host, inline: Value, tool: Value, okp: Value, root: Section)
    ensures SolrPass(h, inline, tool, okp)(root) == SolrAsPass(h, inline, tool, okp)(root)
  {
    hide SolrEnabled, SolrStages, OkpEnabled;
    assert OkpEnabled(inline, tool).Err? ==> OkpEnabled(inline, tool).error.Raised?;
    if okp.Map? {
      SolrIsStages(h, okp.entries, root);
    }
  }

  lemma SolrStagesAreBlind(h: Host, okp: Section)
    ensures Blind(SolrStages(h, okp))
  {
    hide Blind, Then, UpdatePass, SkipPass, DirPass;
    var mode := GetOr(okp, "search_mode", Null);
    var s0, s1 := DirPass(), UpdatePass("providers", "vector_io", SolrProviderRow(h, okp));
    var s2 := UpdatePass("registered_resources", "vector_stores", SOLR_STORE_UPDATE);
    var s3 := UpdatePass("registered_resources", "models", SOLR_MODEL_UPDATE);
    var s4 := if Truthy(mode) then UpdatePass("vector_stores", "chunk_retrieval_params", WithSearchMode(mode))
              else SkipPass();
    DirIsBlind();
    TrivialPassesAreBlind();
    UpdateIsBlind("providers", "vector_io", SolrProviderRow(h, okp));
    UpdateIsBlind("registered_resources", "vector_stores", SOLR_STORE_UPDATE);
    UpdateIsBlind("registered_resources", "models", SOLR_MODEL_UPDATE);
    UpdateIsBlind("vector_stores", "chunk_retrieval_params", WithSearchMode(mode));
    BlindThen(s2, s3);
    BlindThen(Then(s2, s3), s4);
    BlindThen(s0, s1);
    BlindThen(Then(s0, s1), RegisterStages(mode));
  }

  lemma SolrIsBlind(h: Host, inline: Value, tool: Value, okp: Value)
    ensures Blind(SolrPass(h, inline, tool, okp))
  {
    hide Blind, SolrPass, SolrStages, FailPass, SkipPass, OkpEnabled;
    TrivialPassesAreBlind();
    if okp.Map? {
      SolrStagesAreBlind(h, okp.entries);
    }
    forall root ensures SolrPass(h, inline, tool, okp)(root) == SolrAsPass(h, inline, tool, okp)(root) {
      SolrIsPass(h, inline, tool, okp, root);
    }
    BlindOfEqual(SolrPass(h, inline, tool, okp), SolrAsPass(h, inline, tool, okp));
  }

  // ----- the Azure pass ----------------------------------------------------

  /** The Azure pass can be done before or after any pass that is blind to the inference section. */
  lemma AzureCommutes(azure: Value, p: Pass, root: Section)
    requires Blind(p)
    ensures Then(AzurePass(azure), p)(root) == Then(p, AzurePass(azure))(root)
  {
    hide AzureValue;
    var view := ViewInference(root);
    assert BlindOn(p, root, Null);
    assert p(root).Err? ==> p(root).error.Raised?;
    assert view.Present? && AzureValue(view.inference).Err? ==> AzureValue(view.inference).error.Raised?;
    if view.Present? && AzureValue(view.inference).Ok? {
      assert BlindOn(p, root, AzureValue(view.inference).value);
    }
  }
}
