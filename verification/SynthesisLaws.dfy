/** What synthesis assembles before enrichment, and what enrichment leaves of it, from the declared texts. */
module SynthesisLaws {
  import opened Wrappers
  import opened Yaml
  import opened DeepMerge
  import opened Enrichment
  import opened PassOrder
  import opened HighLevel
  import opened HighLevelLaws
  import opened SolrLaws
  import opened VectorStores
  import opened VectorStoreLaws
  import opened Pipelines
  import opened Integrity

  // ----- what is declared --------------------------------------------------

  /** What stands at a path, or a value to take where nothing does. */
  function FindOr(v: Value, path: seq<string>, default: Value): Value {
    if Find(v, path).Some? then Find(v, path).value else default
  }

  /** The unified section: under `ogx` if that is a mapping, else under the deprecated `llama_stack`. */
  function Unified(lcs: Section): Value {
    if GetOr(lcs, "ogx", Null).Map? then FindOr(Map(lcs), ["ogx", "config"], Null)
    else FindOr(Map(lcs), ["llama_stack", "config"], Null)
  }

  lemma FindOne(m: Section, key: string)
    ensures Find(Map(m), [key]) == if key in m then Some(m[key]) else None
  {
    assert [key][1..] == [];
  }

  lemma FindTwo(m: Section, outer: string, inner: string)
    ensures Find(Map(m), [outer, inner])
         == if outer in m && m[outer].Map? && inner in m[outer].entries then Some(m[outer].entries[inner]) else None
  {
    assert [outer, inner][1..] == [inner];
    if outer in m && m[outer].Map? {
      FindOne(m[outer].entries, inner);
    }
  }

  lemma UnifiedIsRead(lcs: Section)
    ensures GetOr(OgxSection(lcs), "config", Null) == Unified(lcs)
  {
    FindTwo(lcs, "ogx", "config");
    FindTwo(lcs, "llama_stack", "config");
  }

  // ----- the baseline ------------------------------------------------------

  /** How many rows are not the conditional OpenAI row. */
  function Others(rows: seq<Value>): nat {
    if rows == [] then 0 else Others(rows[..|rows| - 1]) + if ConditionalRow(rows[|rows| - 1]) then 0 else 1
  }

  /** `after` has the rows of `before` but the conditional ones, each at the place its predecessors leave it. */
  predicate OpenaiDropped(before: seq<Value>, after: seq<Value>) {
    && |after| == Others(before)
    && forall k :: 0 <= k < |before| && !ConditionalRow(before[k]) ==>
         Others(before[..k]) < |after| && after[Others(before[..k])] == before[k]
  }

  predicate ConditionalRow(row: Value) {
    row.Map? && FindOr(row, ["provider_id"], Null) == Str("${env.OPENAI_API_KEY:+openai}")
  }

  lemma ConditionalIsEntry(row: Value)
    ensures ConditionalRow(row) <==> IsEntryOf(row, CONDITIONAL_OPENAI)
  {
    if row.Map? {
      FindOne(row.entries, "provider_id");
    }
  }

  lemma StripOfCons(head: Value, rest: seq<Value>)
    ensures StripOpenai([head] + rest) == (if ConditionalRow(head) then [] else [head]) + StripOpenai(rest)
  {
    ConditionalIsEntry(head);
    assert ([head] + rest)[1..] == rest;
    hide IsEntryOf, ConditionalRow;
  }

  lemma {:induction false} StripOfSnoc(front: seq<Value>, last: Value)
    ensures StripOpenai(front + [last]) == StripOpenai(front) + if ConditionalRow(last) then [] else [last]
  {
    hide ConditionalRow, StripOpenai;
    if front == [] {
      StripOfCons(last, []);
      NothingToStrip();
      assert front + [last] == [last] + [];
      var tail := if ConditionalRow(last) then [] else [last];
      assert tail + [] == [] + tail;
    } else {
      var rest := front[1..];
      assert front == [front[0]] + rest && front + [last] == [front[0]] + (rest + [last]);
      StripOfCons(front[0], rest);
      StripOfCons(front[0], rest + [last]);
      StripOfSnoc(rest, last);
      var head, tail := if ConditionalRow(front[0]) then [] else [front[0]],
        if ConditionalRow(last) then [] else [last];
      assert head + (StripOpenai(rest) + tail) == (head + StripOpenai(rest)) + tail;
    }
  }

  lemma DroppedSnoc(front: seq<Value>, after: seq<Value>, last: Value)
    requires OpenaiDropped(front, after)
    ensures OpenaiDropped(front + [last], after + if ConditionalRow(last) then [] else [last])
  {
    hide ConditionalRow, Others;
    var before, n := front + [last], |front|;
    var more := after + if ConditionalRow(last) then [] else [last];
    OthersSnoc(front, last);
    forall k | 0 <= k < |before| && !ConditionalRow(before[k])
      ensures Others(before[..k]) < |more| && more[Others(before[..k])] == before[k]
    {
      assert before[..k] == front[..k];
      if k == n {
        assert front[..n] == front;
      } else {
        assert before[k] == front[k];
      }
    }
  }

  lemma OthersSnoc(front: seq<Value>, last: Value)
    ensures Others(front + [last]) == Others(front) + if ConditionalRow(last) then 0 else 1
  {
    assert (front + [last])[..|front|] == front;
  }

  lemma {:induction false} StripDrops(before: seq<Value>)
    ensures OpenaiDropped(before, StripOpenai(before))
  {
    hide ConditionalRow, StripOpenai, OpenaiDropped;
    if before == [] {
      NothingToStrip();
      assert OpenaiDropped([], []) by {
        NothingDropped();
      }
    } else {
      var n := |before| - 1;
      assert before == before[..n] + [before[n]];
      StripDrops(before[..n]);
      StripOfSnoc(before[..n], before[n]);
      DroppedSnoc(before[..n], StripOpenai(before[..n]), before[n]);
    }
  }

  lemma NothingDropped()
    ensures OpenaiDropped([], [])
  {
  }

  lemma NothingToStrip()
    ensures StripOpenai([]) == []
  {
  }

  /** The shipped baseline without the conditional OpenAI row, where it has a list of inference providers. */
  ghost predicate ShippedWithoutOpenai(shipped: Section, base: Section) {
    var rows := Find(Map(shipped), ["providers", "inference"]);
    if rows.Some? && rows.value.List? then
      && (forall k | k != "providers" :: Find(Map(base), [k]) == Find(Map(shipped), [k]))
      && (forall k | k != "inference" :: Find(Map(base), ["providers", k]) == Find(Map(shipped), ["providers", k]))
      && var left := Find(Map(base), ["providers", "inference"]);
         left.Some? && left.value.List? && OpenaiDropped(rows.value.items, left.value.items)
    else base == shipped
  }

  lemma OpenaiIsDropped(shipped: Section)
    ensures ShippedWithoutOpenai(shipped, WithoutOpenai(shipped))
  {
    FindTwo(shipped, "providers", "inference");
    var view, base := ViewInference(shipped), WithoutOpenai(shipped);
    hide StripOpenai, Find, OpenaiDropped;
    if view.Present? && view.inference.List? {
      var rows := view.inference.items;
      StripDrops(rows);
      forall k | k != "providers" ensures Find(Map(base), [k]) == Find(Map(shipped), [k]) {
        FindOne(base, k);
        FindOne(shipped, k);
      }
      forall k | k != "inference" ensures Find(Map(base), ["providers", k]) == Find(Map(shipped), ["providers", k]) {
        FindTwo(base, "providers", k);
        FindTwo(shipped, "providers", k);
      }
      FindTwo(base, "providers", "inference");
    }
  }

  /** Where synthesis starts: at the profile, at nothing, or at the shipped baseline, as the unified section says. */
  ghost predicate StartsFrom(files: Files, unified: Value, base: Section) {
    var profile, name := FindOr(unified, ["profile"], Null), FindOr(unified, ["baseline"], Null);
    if !Truthy(unified) then base == files.baseline
    else if Truthy(profile) then files.profiles(profile) == Ok(base)
    else if name == Str("empty") then base == map[]
    else if name == Str("byo-llm") then ShippedWithoutOpenai(files.baseline, base)
    else base == files.baseline
  }

  lemma BaselineIsRead(files: Files, unified: Value)
    requires SelectBaseline(files, unified).Ok?
    ensures var b := SelectBaseline(files, unified).value;
            && StartsFrom(files, unified, b.config)
            && (b.empty <==> Truthy(unified) && !Truthy(FindOr(unified, ["profile"], Null))
                             && FindOr(unified, ["baseline"], Null) == Str("empty"))
  {
    OpenaiIsDropped(files.baseline);
    if unified.Map? {
      FindOne(unified.entries, "profile");
      FindOne(unified.entries, "baseline");
    }
    hide ShippedWithoutOpenai, WithoutOpenai, Find;
  }

  // ----- the override ------------------------------------------------------

  /**
   * What the result has at every path: the overlay's where it cuts or covers the path, the base's where the overlay
   * has nothing, the overlay's where the base has nothing, and a mapping where both have one.
   */
  ghost predicate Layered(base: Value, overlay: Value, result: Value) {
    forall path: seq<string> ::
      var b, o, r := Find(base, path), Find(overlay, path), Find(result, path);
      if Cuts(overlay, path) || Covers(base, overlay, path) || b == None then r == o
      else if o == None then r == b
      else b.value.Map? && o.value.Map? && r.Some? && r.value.Map?
  }

  lemma {:induction false} BothAreMaps(base: Value, overlay: Value, path: seq<string>)
    requires !Cuts(overlay, path) && !Covers(base, overlay, path)
    requires Find(base, path).Some? && Find(overlay, path).Some?
    ensures Find(base, path).value.Map? && Find(overlay, path).value.Map?
    decreases path
  {
    if path != [] {
      BothAreMaps(base.entries[path[0]], overlay.entries[path[0]], path[1..]);
    }
  }

  lemma MergeIsLayered(base: Value, overlay: Value)
    ensures Layered(base, overlay, MergeValue(base, overlay))
  {
    hide Find, Cuts, Covers, MergeValue;
    forall path: seq<string>
      ensures var b, o, r := Find(base, path), Find(overlay, path), Find(MergeValue(base, overlay), path);
              if Cuts(overlay, path) || Covers(base, overlay, path) || b == None then r == o
              else if o == None then r == b
              else b.value.Map? && o.value.Map? && r.Some? && r.value.Map?
    {
      LookupAfterMerge(base, overlay, path);
      if !Cuts(overlay, path) && !Covers(base, overlay, path)
         && Find(base, path).Some? && Find(overlay, path).Some? {
        BothAreMaps(base, overlay, path);
        MergedIsMap(Find(base, path).value, Find(overlay, path).value);
      }
    }
  }

  lemma MergedIsMap(b: Value, o: Value)
    requires o.Map?
    ensures MergeValue(b, o).Map?
  {
  }

  /** The declared override; an empty or missing one changes nothing. */
  function Overlay(lcs: Section): Value {
    var declared := FindOr(Unified(lcs), ["native_override"], Null);
    if Truthy(Unified(lcs)) && Truthy(declared) then declared else EMPTY
  }

  lemma OverrideIsLayered(lcs: Section, root: Section)
    requires Override(Unified(lcs), root).Ok?
    ensures Layered(Map(root), Overlay(lcs), Map(Override(Unified(lcs), root).value))
  {
    var unified := Unified(lcs);
    if unified.Map? {
      FindOne(unified.entries, "native_override");
    }
    hide Find, Unified, Layered, MergeValue;
    MergeIdentity(root);
    MergeIsLayered(Map(root), Overlay(lcs));
    assert Map(Merge(root, Overlay(lcs).entries)) == MergeValue(Map(root), Overlay(lcs));
  }

  /** `base` is the declared baseline, and `built` is it deduplicated, expanded, and with the MCP runtime. */
  ghost predicate BuiltFrom(h: Host, files: Files, lcs: Section, base: Section, built: Section) {
    var unified, inference := Unified(lcs), FindOr(Map(lcs), ["inference"], Null);
    var fromNothing := Truthy(unified) && !Truthy(FindOr(unified, ["profile"], Null))
                       && FindOr(unified, ["baseline"], Null) == Str("empty");
    var deduped := Dedupe(h, base);
    && StartsFrom(files, unified, base) && deduped.Ok?
    && var expanded := HighLevelInference(if Truthy(inference) then inference else EMPTY, deduped.value);
    && expanded.Ok?
    && if fromNothing then built == expanded.value else McpToolRuntime(expanded.value) == Ok(built)
  }

  /**
   * Synthesis up to the override, for every config: it starts from the declared baseline, deduplicates it, expands
   * the high-level providers, adds the MCP runtime unless the baseline is the empty one, and lays the declared
   * override over that, path by path.
   */
  lemma AssemblyIsLayered(h: Host, files: Files, lcs: Section) returns (base: Section, built: Section)
    requires Assemble(h, files, lcs).Ok?
    ensures BuiltFrom(h, files, lcs, base, built)
    ensures Layered(Map(built), Overlay(lcs), Map(Assemble(h, files, lcs).value))
  {
    UnifiedIsRead(lcs);
    FindOne(lcs, "inference");
    hide Unified, Find, SelectBaseline, Dedupe, HighLevelInference, McpToolRuntime, Override, Layered, StartsFrom,
      OgxSection, Overlay;
    var selected := SelectBaseline(files, Unified(lcs)).value;
    BaselineIsRead(files, Unified(lcs));
    base := selected.config;
    var expanded := HighLevelInference(OrEmpty(GetOr(lcs, "inference", Null)), Dedupe(h, base).value).value;
    built := if selected.empty then expanded else McpToolRuntime(expanded).value;
    OverrideIsLayered(lcs, built);
  }

  // ----- what enrichment leaves alone --------------------------------------

  const ENRICHED := {"storage", "providers", "registered_resources", "vector_stores", "external_providers_dir"}

  /** Every other top-level section is as before. */
  ghost predicate KeepsRest(a: Section, b: Section) {
    forall k | k !in ENRICHED :: (k in b <==> k in a) && (k in b ==> b[k] == a[k])
  }

  lemma UpdateKeepsRest(root: Section, outer: string, inner: string, rewrite: Rewrite)
    requires Update(root, outer, inner, rewrite).Ok? && outer in ENRICHED
    ensures KeepsRest(root, Update(root, outer, inner, rewrite).value)
  {
    UpdateSets(root, outer, inner, rewrite);
  }

  lemma ByokKeepsRest(h: Host, stores: Value, root: Section)
    requires Byok(h, stores, root).Ok?
    ensures KeepsRest(root, Byok(h, stores, root).value)
  {
    hide Update, Dedupe, WithBackends, WithProviders, WithStores, WithModels;
    var items := Elements(stores).value;
    if items == [] {
      DedupeShape(h, root);
    } else {
      var r1 := Update(root, "storage", "backends", WithBackends(h, items)).value;
      var r2 := Update(r1, "providers", "vector_io", WithProviders(h, items)).value;
      var r3 := Update(r2, "registered_resources", "vector_stores", WithStores(h, items)).value;
      UpdateKeepsRest(root, "storage", "backends", WithBackends(h, items));
      UpdateKeepsRest(r1, "providers", "vector_io", WithProviders(h, items));
      UpdateKeepsRest(r2, "registered_resources", "vector_stores", WithStores(h, items));
      UpdateKeepsRest(r3, "registered_resources", "models", WithModels(h, items));
    }
  }

  lemma AzureKeepsRest(azure: Value, root: Section)
    requires Azure(azure, root).Ok?
    ensures KeepsRest(root, Azure(azure, root).value)
  {
    hide AzureEntries;
  }

  lemma SolrKeepsRest(h: Host, i: Inputs, root: Section)
    requires Solr(h, i.inline, i.tool, i.okp, root).Ok?
    ensures KeepsRest(root, Solr(h, i.inline, i.tool, i.okp, root).value)
  {
    hide SolrEnabled, OkpEnabled;
    if OkpEnabled(i.inline, i.tool).value {
      SolrSections(h, i.okp.entries, root);
    }
  }

  lemma EnrichmentKeepsRest(h: Host, lcs: Section, root: Section)
    requires EnrichUnified(h, lcs, root).Ok?
    ensures KeepsRest(root, EnrichUnified(h, lcs, root).value)
  {
    hide Azure, Byok, Solr, VectorStore, Dedupe, ReadInputs;
    var i, section := ReadInputs(lcs).value, GetOr(lcs, "vector_store", Null);
    var a := Azure(i.azure, root).value;
    var b := Byok(h, i.stores, a).value;
    var c := Solr(h, i.inline, i.tool, i.okp, b).value;
    var d := VectorStore(h, section, c).value;
    AzureKeepsRest(i.azure, root);
    ByokKeepsRest(h, i.stores, a);
    SolrKeepsRest(h, i, b);
    VectorStoreOwns(h, section, c);
    DedupeShape(h, d);
  }

  /**
   * Outside the five sections that enrichment writes to, the synthesized config has at every path what the override
   * says over what was built from the baseline.
   */
  lemma OverrideReachesTheResult(h: Host, files: Files, lcs: Section, key: string, rest: seq<string>)
    returns (base: Section, built: Section)
    requires Synthesize(h, files, lcs).Ok? && key !in ENRICHED
    ensures BuiltFrom(h, files, lcs, base, built)
    ensures var path, r := [key] + rest, Map(Synthesize(h, files, lcs).value);
            && (Cuts(Overlay(lcs), path) ==> Find(r, path) == Find(Overlay(lcs), path))
            && (Find(Overlay(lcs), path) == None && !Cuts(Overlay(lcs), path) && !Covers(Map(built), Overlay(lcs), path)
                ==> Find(r, path) == Find(Map(built), path))
  {
    hide *;
    SynthesisEnrichesLast(h, files, lcs);
    base, built := AssemblyIsLayered(h, files, lcs);
    var root := Assemble(h, files, lcs).value;
    EnrichmentKeepsRest(h, lcs, root);
    KeptIsFound(root, Synthesize(h, files, lcs).value, key, rest);
    LayeredAt(Map(built), Overlay(lcs), Map(root), [key] + rest);
  }

  lemma LayeredAt(base: Value, overlay: Value, result: Value, path: seq<string>)
    requires Layered(base, overlay, result)
    ensures Cuts(overlay, path) ==> Find(result, path) == Find(overlay, path)
    ensures Find(overlay, path) == None && !Cuts(overlay, path) && !Covers(base, overlay, path) ==>
              Find(result, path) == Find(base, path)
  {
    hide Find, Cuts, Covers;
    var o := Find(overlay, path);
  }

  lemma KeptIsFound(a: Section, b: Section, key: string, rest: seq<string>)
    requires KeepsRest(a, b) && key !in ENRICHED
    ensures Find(Map(b), [key] + rest) == Find(Map(a), [key] + rest)
  {
    assert ([key] + rest)[0] == key && ([key] + rest)[1..] == rest;
  }

  // ----- what enrichment reads ---------------------------------------------

  /** No mapping is expected at the path or above it where something else stands. */
  predicate MapsAlong(v: Value, path: seq<string>) {
    v.Map? && (path != [] && path[0] in v.entries ==> MapsAlong(v.entries[path[0]], path[1..]))
  }

  lemma FindThree(m: Section, a: string, b: string, c: string)
    ensures Find(Map(m), [a, b, c])
         == if a in m && m[a].Map? && b in m[a].entries && m[a].entries[b].Map? && c in m[a].entries[b].entries
            then Some(m[a].entries[b].entries[c]) else None
  {
    assert [a, b, c][1..] == [b, c];
    if a in m && m[a].Map? {
      FindTwo(m[a].entries, b, c);
    }
  }

  lemma FindFour(m: Section, a: string, b: string, c: string, d: string)
    ensures Find(Map(m), [a, b, c, d])
         == if a in m && m[a].Map? then Find(m[a], [b, c, d]) else None
  {
    assert [a, b, c, d][1..] == [b, c, d];
  }

  /** The inputs of the passes, each from its place in the Lightspeed config, with what stands for a missing one. */
  lemma InputsAreRead(lcs: Section)
    requires ReadInputs(lcs).Ok?
    ensures var i := ReadInputs(lcs).value;
            && i.azure == FindOr(Map(lcs), ["azure_entra_id"], Null)
            && i.stores == FindOr(Map(lcs), ["rag", "byok", "stores"], List([]))
            && i.inline == FindOr(Map(lcs), ["rag", "retrieval", "inline", "sources"], List([]))
            && i.tool == FindOr(Map(lcs), ["rag", "retrieval", "tool", "sources"], List([]))
            && i.okp == FindOr(Map(lcs), ["rag", "okp"], EMPTY)
  {
    FindOne(lcs, "azure_entra_id");
    FindThree(lcs, "rag", "byok", "stores");
    FindTwo(lcs, "rag", "okp");
    FindFour(lcs, "rag", "retrieval", "inline", "sources");
    FindFour(lcs, "rag", "retrieval", "tool", "sources");
    if "rag" in lcs && lcs["rag"].Map? {
      FindThree(lcs["rag"].entries, "retrieval", "inline", "sources");
      FindThree(lcs["rag"].entries, "retrieval", "tool", "sources");
    }
    hide Find;
  }

  /** Reading raises exactly where something that is no mapping stands on the way to an input. */
  lemma InputsAreReadable(lcs: Section)
    ensures ReadInputs(lcs).Ok?
       <==> ("rag" in lcs ==>
               && MapsAlong(lcs["rag"], ["byok"]) && MapsAlong(lcs["rag"], ["retrieval", "inline"])
               && MapsAlong(lcs["rag"], ["retrieval", "tool"]))
  {
    if "rag" in lcs && lcs["rag"].Map? {
      var rag := lcs["rag"];
      AlongOne(rag, "byok");
      AlongTwo(rag, "retrieval", "inline");
      AlongTwo(rag, "retrieval", "tool");
      hide MapsAlong;
    }
  }

  lemma AlongOne(v: Value, a: string)
    requires v.Map?
    ensures MapsAlong(v, [a]) <==> (a in v.entries ==> v.entries[a].Map?)
  {
    assert [a][1..] == [];
  }

  lemma AlongTwo(v: Value, a: string, b: string)
    requires v.Map?
    ensures MapsAlong(v, [a, b])
       <==> (a in v.entries ==> v.entries[a].Map? && (b in v.entries[a].entries ==> v.entries[a].entries[b].Map?))
  {
    assert [a, b][1..] == [b];
    if a in v.entries && v.entries[a].Map? {
      AlongOne(v.entries[a], b);
    }
  }

  // ----- migration ---------------------------------------------------------

  /** The section the unified config stands in. */
  function OldSection(lcs: Section): Value {
    if GetOr(lcs, "ogx", Null).Map? then lcs["ogx"] else FindOr(Map(lcs), ["llama_stack"], EMPTY)
  }

  /**
   * A migrated config has the run.yaml as the override of an empty baseline, no deprecated section and no path of a
   * client config; whatever else was in the section or beside it stays.
   */
  lemma MigratedConfig(run: Section, lcs: Section, key: string)
    ensures var m := Map(Migrate(run, lcs));
            && Find(m, ["ogx", "config", "baseline"]) == Some(Str("empty"))
            && Find(m, ["ogx", "config", "native_override"]) == Some(Map(run))
            && Find(m, ["llama_stack"]) == None && Find(m, ["ogx", "library_client_config_path"]) == None
            && (key != "config" && key != "library_client_config_path" ==>
                  Find(m, ["ogx", key]) == Find(OldSection(lcs), [key]))
            && (key != "ogx" && key != "llama_stack" ==> Find(m, [key]) == Find(Map(lcs), [key]))
  {
    var m := Migrate(run, lcs);
    FindOne(lcs, "llama_stack");
    FindThree(m, "ogx", "config", "baseline");
    FindThree(m, "ogx", "config", "native_override");
    FindOne(m, "llama_stack");
    FindTwo(m, "ogx", "library_client_config_path");
    FindTwo(m, "ogx", key);
    FindOne(m, key);
    FindOne(lcs, key);
    if OldSection(lcs).Map? {
      FindOne(OldSection(lcs).entries, key);
    }
    hide Find;
  }
}
