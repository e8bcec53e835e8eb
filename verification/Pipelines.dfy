/** Legacy mode, library mode, unified synthesis and migration, and how their results relate. */
module Pipelines {
  import opened Wrappers
  import opened Yaml
  import opened Enrichment
  import opened PassLaws
  import opened PassOrder
  import opened HighLevel
  import opened VectorStores
  import opened DeepMerge

  /** What the enrichment passes take from the Lightspeed config. */
  datatype Inputs = Inputs(azure: Value, stores: Value, inline: Value, tool: Value, okp: Value)

  function ReadInputs(lcs: Section): Result<Inputs, Fault> {
    var rag := GetOr(lcs, "rag", EMPTY);
    var byok :- Get(rag, "byok", EMPTY);
    var stores :- Get(byok, "stores", List([]));
    var retrieval :- Get(rag, "retrieval", EMPTY);
    var inline :- Get(retrieval, "inline", EMPTY);
    var inlineSources :- Get(inline, "sources", List([]));
    var tool :- Get(retrieval, "tool", EMPTY);
    var toolSources :- Get(tool, "sources", List([]));
    var okp :- Get(rag, "okp", EMPTY);
    Ok(Inputs(GetOr(lcs, "azure_entra_id", Null), stores, inlineSources, toolSources, okp))
  }

  // ----- the orders --------------------------------------------------------

  /** BYOK, then Solr. */
  function RagPass(h: Host, i: Inputs): Pass {
    Then(ByokPass(h, i.stores), SolrPass(h, i.inline, i.tool, i.okp))
  }

  /** Service mode: deduplicate, Azure, BYOK, Solr, deduplicate. */
  function ServicePass(h: Host, i: Inputs): Pass {
    Then(Then(DedupePass(h), Then(AzurePass(i.azure), RagPass(h, i))), DedupePass(h))
  }

  /** Library mode: BYOK, Solr, Azure. */
  function LibraryPass(h: Host, i: Inputs): Pass {
    Then(RagPass(h, i), AzurePass(i.azure))
  }

  /** The order at the end of synthesis, without declared vector stores. */
  function UnifiedPass(h: Host, i: Inputs): Pass {
    Then(Then(Then(AzurePass(i.azure), RagPass(h, i)), DedupePass(h)), DedupePass(h))
  }

  /** Legacy generation on a parsed run.yaml. */
  function Generate(h: Host, run: Section, lcs: Section): Outcome {
    match ReadInputs(lcs)
    case Err(e) => Err(e)
    case Ok(i) => ServicePass(h, i)(run)
  }

  // ----- synthesis ---------------------------------------------------------

  /** `ogx`, or the deprecated `llama_stack`, or nothing. */
  function OgxSection(lcs: Section): Section {
    var ogx, llama := GetOr(lcs, "ogx", Null), GetOr(lcs, "llama_stack", Null);
    if ogx.Map? then ogx.entries else if llama.Map? then llama.entries else map[]
  }

  /** Files that synthesis may read: the shipped baseline, and profiles by path. */
  datatype Files = Files(baseline: Section, profiles: Value -> Result<Section, Fault>)

  function StripOpenai(items: seq<Value>): seq<Value> {
    if items == [] then []
    else (if IsEntryOf(items[0], CONDITIONAL_OPENAI) then [] else [items[0]]) + StripOpenai(items[1..])
  }

  /** Without the conditional OpenAI row; shapes that hold no inference list are left alone. */
  function WithoutOpenai(root: Section): Section {
    var view := ViewInference(root);
    if view.Present? && view.inference.List? then WithInference(root, List(StripOpenai(view.inference.items))) else root
  }

  datatype Baseline = Baseline(config: Section, empty: bool)

  function SelectBaseline(files: Files, unified: Value): Result<Baseline, Fault> {
    if !Truthy(unified) then Ok(Baseline(files.baseline, false))
    else
      var profile :- Get(unified, "profile", Null);
      var name :- Get(unified, "baseline", Null);
      if Truthy(profile) then
        var config :- files.profiles(profile);
        Ok(Baseline(config, false))
      else if name == Str("empty") then Ok(Baseline(map[], true))
      else Ok(Baseline(if name == Str("byo-llm") then WithoutOpenai(files.baseline) else files.baseline, false))
  }

  function Override(unified: Value, root: Section): Outcome {
    if !Truthy(unified) then Ok(root)
    else
      var overlay :- Get(unified, "native_override", Null);
      if !Truthy(overlay) then Ok(root) else if overlay.Map? then Ok(Merge(root, overlay.entries)) else Err(Raised)
  }

  function OrEmpty(v: Value): Value {
    if Truthy(v) then v else EMPTY
  }

  function EnrichUnified(h: Host, lcs: Section, root: Section): Outcome {
    var i :- ReadInputs(lcs);
    var r1 :- Then(AzurePass(i.azure), RagPass(h, i))(root);
    var r2 :- VectorStore(h, GetOr(lcs, "vector_store", Null), r1);
    Dedupe(h, r2)
  }

  function Synthesize(h: Host, files: Files, lcs: Section): Outcome {
    var unified := GetOr(OgxSection(lcs), "config", Null);
    var base :- SelectBaseline(files, unified);
    var r1 :- Dedupe(h, base.config);
    var r2 :- HighLevelInference(OrEmpty(GetOr(lcs, "inference", Null)), r1);
    var r3 :- if base.empty then Ok(r2) else McpToolRuntime(r2);
    var r4 :- Override(unified, r3);
    EnrichUnified(h, lcs, r4)
  }

  /** The migrated Lightspeed config: the whole run.yaml as the override of an empty baseline. */
  function Migrate(run: Section, lcs: Section): Section {
    var section := (OgxSection(lcs) - {"library_client_config_path"})[
      "config" := Map(map["baseline" := Str("empty"), "native_override" := Map(run)])];
    (lcs - {"llama_stack"})["ogx" := Map(section)]
  }

  // ----- migration is faithful ---------------------------------------------

  /** No high-level providers of either kind are declared. */
  predicate NoHighLevelProviders(lcs: Section) {
    && NoProviders(GetOr(lcs, "inference", Null))
    && NoProviders(GetOr(lcs, "vector_store", Null))
  }

  predicate NoProviders(section: Value) {
    Truthy(section) ==> section.Map? && !Truthy(GetOr(section.entries, "providers", Null))
  }

  lemma RagPassIsBlind(h: Host, i: Inputs)
    ensures Blind(RagPass(h, i))
  {
    hide Blind, Then, ByokPass, SolrPass;
    ByokIsBlind(h, i.stores);
    SolrIsBlind(h, i.inline, i.tool, i.okp);
    BlindThen(ByokPass(h, i.stores), SolrPass(h, i.inline, i.tool, i.okp));
  }

  /** A deduplication before Azure and the RAG passes makes no difference. */
  lemma EarlyDedupeIsRedundant(h: Host, i: Inputs, root: Section)
    ensures Then(DedupePass(h), Then(AzurePass(i.azure), RagPass(h, i)))(root)
         == Then(AzurePass(i.azure), RagPass(h, i))(root)
  {
    hide Dedupe, Azure, Byok, Solr, Blind;
    DedupeIsBlind(h);
    AzureCommutes(i.azure, DedupePass(h), root);
    var azured := Azure(i.azure, root);
    if azured.Ok? {
      DedupeThenByok(h, i.stores, azured.value);
    }
  }

  lemma LateDedupeIsRedundant(h: Host, root: Section)
    ensures Then(DedupePass(h), DedupePass(h))(root) == DedupePass(h)(root)
  {
    hide Dedupe;
    DedupeTwice(h, root);
  }

  /** Service order and synthesis order agree on every config. */
  lemma ServiceIsUnified(h: Host, i: Inputs, root: Section)
    ensures ServicePass(h, i)(root) == UnifiedPass(h, i)(root)
  {
    hide Dedupe, DedupePass, AzurePass, RagPass;
    EarlyDedupeIsRedundant(h, i, root);
    var enriched := Then(AzurePass(i.azure), RagPass(h, i))(root);
    if enriched.Ok? {
      LateDedupeIsRedundant(h, enriched.value);
    }
  }

  lemma MigratedSections(run: Section, lcs: Section)
    ensures var m := Migrate(run, lcs);
            && GetOr(OgxSection(m), "config", Null)
              == Map(map["baseline" := Str("empty"), "native_override" := Map(run)])
            && forall k | k != "ogx" && k != "llama_stack" ::
              GetOr(m, k, Null) == GetOr(lcs, k, Null) && (k in m <==> k in lcs)
  {
  }

  lemma MigratedInputs(run: Section, lcs: Section)
    ensures ReadInputs(Migrate(run, lcs)) == ReadInputs(lcs)
  {
    hide Migrate, Get;
    MigratedSections(run, lcs);
    var m := Migrate(run, lcs);
    assert ("rag" in m <==> "rag" in lcs) && GetOr(m, "rag", Null) == GetOr(lcs, "rag", Null);
    assert GetOr(m, "rag", EMPTY) == GetOr(lcs, "rag", EMPTY);
  }

  /** Up to enrichment, synthesizing a migrated config rebuilds the run.yaml. */
  lemma MigratedOverrideRebuilds(run: Section)
    ensures var unified := Map(map["baseline" := Str("empty"), "native_override" := Map(run)]);
            Override(unified, map[]) == Ok(run)
    ensures forall files: Files ::
              SelectBaseline(files, Map(map["baseline" := Str("empty"), "native_override" := Map(run)]))
              == Ok(Baseline(map[], true))
  {
    MergeIdentity(run);
    var section := map["baseline" := Str("empty"), "native_override" := Map(run)];
    assert "baseline" in section && section != map[];
  }

  lemma NoProvidersMeansDedupe(h: Host, section: Value, root: Section)
    requires NoProviders(section)
    ensures VectorStore(h, section, root) == Dedupe(h, root)
    ensures HighLevelInference(OrEmpty(section), root) == Ok(root)
  {
    hide Dedupe;
  }

  /**
   * Migration is faithful: for every run.yaml and every Lightspeed config without high-level providers, synthesizing
   * the migrated file gives the tree that legacy generation gives, and raises when that raises.
   */
  lemma MigrationIsFaithful(h: Host, files: Files, run: Section, lcs: Section)
    requires NoHighLevelProviders(lcs)
    ensures Synthesize(h, files, Migrate(run, lcs)) == Generate(h, run, lcs)
  {
    hide Migrate, Dedupe, ReadInputs, Override, HighLevelInference, VectorStore, ServicePass, McpToolRuntime, RagPass,
      AzurePass, OgxSection;
    var m := Migrate(run, lcs);
    var unified := Map(map["baseline" := Str("empty"), "native_override" := Map(run)]);
    MigratedSections(run, lcs);
    MigratedInputs(run, lcs);
    MigratedOverrideRebuilds(run);
    EmptyDedupes(h);
    NoProvidersMeansDedupe(h, GetOr(lcs, "inference", Null), map[]);
    assert Synthesize(h, files, m) == EnrichUnified(h, m, run);
    var inputs := ReadInputs(lcs);
    if inputs.Ok? {
      ServiceIsUnified(h, inputs.value, run);
      var enriched := Then(AzurePass(inputs.value.azure), RagPass(h, inputs.value))(run);
      if enriched.Ok? {
        NoProvidersMeansDedupe(h, GetOr(lcs, "vector_store", Null), enriched.value);
      }
    }
  }

  lemma EmptyDedupes(h: Host)
    ensures Dedupe(h, map[]) == Ok(map[])
  {
  }
}
