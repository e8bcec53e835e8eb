/** Deduplication and the order of the enrichment passes. */
module PassOrder {
  import opened Wrappers
  import opened Yaml
  import opened VectorIo
  import opened Enrichment
  import opened PassLaws

  // ----- deduplicating before the BYOK pass is redundant -------------------

  lemma UpdateElsewhere(root: Section, outer: string, inner: string, rewrite: Rewrite, providers: Value)
    requires outer != "providers"
    ensures Update(root["providers" := providers], outer, inner, rewrite)
         == match Update(root, outer, inner, rewrite)
            case Ok(r) => Ok(r["providers" := providers])
            case Err(e) => Err(e)
  {
    var changed := root["providers" := providers];
    assert Sub(changed, outer, inner) == Sub(root, outer, inner);
    if Sub(root, outer, inner).Ok? && rewrite(Sub(root, outer, inner).value).Ok? {
      var put := PutSub(root, outer, inner, rewrite(Sub(root, outer, inner).value).value);
      if put.Ok? {
        PutSwap(root, outer, put.value[outer], "providers", providers);
      }
    }
  }

  /** Deduplication is a change of `providers`, or none. */
  lemma DedupeShape(h: Host, root: Section)
    requires Dedupe(h, root).Ok?
    ensures var raw := Sub(root, "providers", "vector_io");
            && raw.Ok?
            && (if raw.value.Some? && raw.value.value.List? then
                  && "providers" in root && root["providers"].Map?
                  && Dedupe(h, root).value == root["providers" := Map(root["providers"].entries[
                       "vector_io" := List(DedupeList(h, raw.value.value.items))])]
                else Dedupe(h, root).value == root)
  {
  }

  lemma DedupeFailure(h: Host, root: Section)
    ensures Dedupe(h, root).Err? <==> Sub(root, "providers", "vector_io").Err?
  {
  }

  lemma SubAfterPut(root: Section, m: Section, v: Value)
    requires "providers" in root && root["providers"].Map? && m == root["providers"].entries["vector_io" := v]
    ensures Sub(root["providers" := Map(m)], "providers", "vector_io") == Ok(Some(v))
  {
  }

  lemma DedupeTwice(h: Host, root: Section)
    ensures Then(DedupePass(h), DedupePass(h))(root) == Dedupe(h, root)
  {
    if Dedupe(h, root).Ok? {
      DedupeShape(h, root);
      var raw := Sub(root, "providers", "vector_io").value;
      if raw.Some? && raw.value.List? {
        hide DedupeList, Sub;
        var items := DedupeList(h, raw.value.items);
        var m := root["providers"].entries["vector_io" := List(items)];
        DedupeLaws(h, raw.value.items);
        SubAfterPut(root, m, List(items));
        assert m["vector_io" := List(items)] == m;
        PutTwice(root, "providers", Map(m), Map(m));
      }
    }
  }

  /** Reading `providers.vector_io` through the deduplicating rewrite hides whether it was deduplicated. */
  lemma ProvidersAfterDedupe(h: Host, stores: seq<Value>, root: Section)
    requires Dedupe(h, root).Ok?
    ensures Update(Dedupe(h, root).value, "providers", "vector_io", WithProviders(h, stores))
         == Update(root, "providers", "vector_io", WithProviders(h, stores))
  {
    hide AddProviders;
    DedupeShape(h, root);
    var raw := Sub(root, "providers", "vector_io").value;
    if raw.Some? && raw.value.List? {
      var items := DedupeList(h, raw.value.items);
      var m := root["providers"].entries;
      DedupeLaws(h, raw.value.items);
      SubAfterPut(root, m["vector_io" := List(items)], List(items));
      forall v: Value
        ensures PutSub(Dedupe(h, root).value, "providers", "vector_io", v) == PutSub(root, "providers", "vector_io", v)
      {
        PutTwice(m, "vector_io", List(items), v);
        PutTwice(root, "providers", Map(m["vector_io" := List(items)]), Map(m["vector_io" := v]));
      }
    }
  }

  lemma DedupeThenStages(h: Host, stores: seq<Value>, root: Section)
    requires Dedupe(h, root).Ok?
    ensures ByokStages(h, stores)(Dedupe(h, root).value) == ByokStages(h, stores)(root)
  {
    hide WithBackends, WithProviders, WithStores, WithModels;
    var deduped := Dedupe(h, root).value;
    DedupeShape(h, root);
    var raw := Sub(root, "providers", "vector_io").value;
    if raw.Some? && raw.value.List? {
      UpdateElsewhere(root, "storage", "backends", WithBackends(h, stores), deduped["providers"]);
      var first := Update(root, "storage", "backends", WithBackends(h, stores));
      if first.Ok? {
        UpdateKeeps(root, "storage", "backends", WithBackends(h, stores), "providers");
        SameProviders(h, root, first.value);
        ProvidersAfterDedupe(h, stores, first.value);
      }
    }
  }

  lemma UpdateKeeps(root: Section, outer: string, inner: string, rewrite: Rewrite, key: string)
    requires Update(root, outer, inner, rewrite).Ok? && key != outer
    ensures var r := Update(root, outer, inner, rewrite).value;
            (key in r <==> key in root) && (key in root ==> r[key] == root[key])
  {
    hide Sub;
  }

  /** Deduplication looks at `providers` only. */
  lemma SameProviders(h: Host, a: Section, b: Section)
    requires "providers" in a && "providers" in b && a["providers"] == b["providers"] && Dedupe(h, a).Ok?
    ensures Dedupe(h, b).Ok? && Dedupe(h, a).value["providers"] == Dedupe(h, b).value["providers"]
    ensures Dedupe(h, b).value == b["providers" := Dedupe(h, a).value["providers"]]
  {
  }

  lemma StagesFailWithProviders(h: Host, stores: seq<Value>, root: Section)
    requires Sub(root, "providers", "vector_io").Err?
    ensures ByokStages(h, stores)(root).Err?
  {
    hide WithBackends, WithProviders, WithStores, WithModels;
    if Update(root, "storage", "backends", WithBackends(h, stores)).Ok? {
      UpdateKeeps(root, "storage", "backends", WithBackends(h, stores), "providers");
    }
  }

  /** The BYOK pass deduplicates by itself, so a deduplication right before it changes nothing. */
  lemma DedupeThenByok(h: Host, stores: Value, root: Section)
    ensures Then(DedupePass(h), ByokPass(h, stores))(root) == Byok(h, stores, root)
  {
    hide ByokStages, Dedupe, Byok;
    ByokIsPass(h, stores, root);
    DedupeFailure(h, root);
    if Dedupe(h, root).Ok? {
      ByokIsPass(h, stores, Dedupe(h, root).value);
      DedupeTwice(h, root);
      if Elements(stores).Ok? {
        DedupeThenStages(h, Elements(stores).value, root);
      }
    } else {
      assert Dedupe(h, root).error.Raised?;
      assert Byok(h, stores, root).Err? ==> Byok(h, stores, root).error.Raised?;
      if Elements(stores).Ok? {
        StagesFailWithProviders(h, Elements(stores).value, root);
      }
    }
  }
}
