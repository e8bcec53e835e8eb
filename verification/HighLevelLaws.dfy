/** The whole high-level expansion: entries, registered models, repetition, and what it leaves alone. */
module HighLevelLaws {
  import opened Wrappers
  import opened PyText
  import opened Yaml
  import opened Enrichment
  import opened HighLevel

  // ----- registered models -------------------------------------------------

  /** Rows are only added, and each added row is new among all rows before it. */
  predicate EachNew(before: seq<Value>, after: seq<Value>) {
    && before <= after
    && forall i :: |before| <= i < |after| ==> after[i].Map? && RowKey(after[i].entries) !in KnownModels(after[..i])
  }

  lemma EachNewTransitive(a: seq<Value>, b: seq<Value>, c: seq<Value>)
    requires EachNew(a, b) && EachNew(b, c)
    ensures EachNew(a, c)
  {
    hide KnownModels;
    forall i | |a| <= i < |b| ensures c[i] == b[i] && c[..i] == b[..i] {
    }
  }

  lemma KnownGrows(a: seq<Value>, b: seq<Value>)
    requires a <= b
    ensures KnownModels(a) <= KnownModels(b)
  {
    assert forall row <- a :: row in b;
  }

  predicate AllKnown(rows: seq<Value>, id: string, models: seq<Model>) {
    forall m <- models :: (Str(id), m.name) in KnownModels(rows)
  }

  lemma {:induction false} RegisterFromLaws(rows: seq<Value>, id: string, models: seq<Model>)
    requires RegisterFrom(rows, id, models).Ok?
    ensures EachNew(rows, RegisterFrom(rows, id, models).value)
    ensures AllKnown(RegisterFrom(rows, id, models).value, id, models)
    decreases models
  {
    if models != [] {
      var m, r := models[0], RegisterFrom(rows, id, models).value;
      var row := ModelRow(id, m);
      var next := if (Str(id), m.name) in KnownModels(rows) then rows else rows + [row];
      RegisterFromLaws(next, id, models[1..]);
      assert row in [row] && RowKey(row.entries) == (Str(id), m.name);
      assert (rows + [row])[..|rows|] == rows;
      assert next == rows || row in next;
      EachNewTransitive(rows, next, r);
      KnownGrows(next, r);
    }
  }

  lemma {:induction false} RegisterAllLaws(rows: seq<Value>, es: seq<Emitted>)
    requires RegisterAll(rows, es).Ok?
    ensures var r := RegisterAll(rows, es).value;
            EachNew(rows, r) && forall e <- es :: AllKnown(r, e.id, e.register)
    decreases es
  {
    hide KnownModels;
    if es != [] {
      var e, r := es[0], RegisterAll(rows, es).value;
      var next := if e.register == [] then rows else RegisterFrom(rows, e.id, e.register).value;
      if e.register != [] {
        RegisterFromLaws(rows, e.id, e.register);
      }
      RegisterAllLaws(next, es[1..]);
      EachNewTransitive(rows, next, r);
      KnownGrows(next, r);
      assert forall x <- es :: x == e || x in es[1..];
    }
  }

  lemma {:induction false} RegisterKnown(rows: seq<Value>, id: string, models: seq<Model>)
    requires AllKnown(rows, id, models)
    ensures RegisterFrom(rows, id, models).Ok? ==> RegisterFrom(rows, id, models).value == rows
    decreases models
  {
    hide KnownModels;
    if models != [] {
      RegisterKnown(rows, id, models[1..]);
    }
  }

  lemma {:induction false} RegisterHashable(rows: seq<Value>, other: seq<Value>, id: string, models: seq<Model>)
    requires RegisterFrom(rows, id, models).Ok?
    ensures RegisterFrom(other, id, models).Ok?
    decreases models
  {
    hide KnownModels;
    if models != [] {
      RegisterHashable(if (Str(id), models[0].name) in KnownModels(rows) then rows
                       else rows + [ModelRow(id, models[0])],
                       if (Str(id), models[0].name) in KnownModels(other) then other
                         else other + [ModelRow(id, models[0])],
                       id, models[1..]);
    }
  }

  /** Registering the same models again adds nothing. */
  lemma {:induction false} RegisterAllKnown(rows: seq<Value>, other: seq<Value>, es: seq<Emitted>)
    requires RegisterAll(other, es).Ok? && forall e <- es :: AllKnown(rows, e.id, e.register)
    ensures RegisterAll(rows, es) == Ok(rows)
    decreases es
  {
    hide AllKnown;
    if es != [] {
      if es[0].register != [] {
        RegisterHashable(other, rows, es[0].id, es[0].register);
        RegisterKnown(rows, es[0].id, es[0].register);
        RegisterAllKnown(rows, RegisterFrom(other, es[0].id, es[0].register).value, es[1..]);
      } else {
        RegisterAllKnown(rows, other, es[1..]);
      }
    }
  }

  lemma {:induction false} RegisteredHashable(rows: seq<Value>, id: string, models: seq<Model>)
    requires KeysHashable(rows) && RegisterFrom(rows, id, models).Ok?
    ensures KeysHashable(RegisterFrom(rows, id, models).value)
    decreases models
  {
    hide KnownModels;
    if models != [] {
      RegisteredHashable(if (Str(id), models[0].name) in KnownModels(rows) then rows
                         else rows + [ModelRow(id, models[0])],
                         id, models[1..]);
    }
  }

  lemma {:induction false} RegisteredAllHashable(rows: seq<Value>, es: seq<Emitted>)
    requires KeysHashable(rows) && RegisterAll(rows, es).Ok?
    ensures KeysHashable(RegisterAll(rows, es).value)
    decreases es
  {
    hide KeysHashable;
    if es != [] {
      if es[0].register != [] {
        RegisteredHashable(rows, es[0].id, es[0].register);
        RegisteredAllHashable(RegisterFrom(rows, es[0].id, es[0].register).value, es[1..]);
      } else {
        RegisteredAllHashable(rows, es[1..]);
      }
    }
  }

  // ----- emitted entries ---------------------------------------------------

  /** The same text with hyphens for underscores. */
  predicate Hyphenated(s: string, t: string) {
    |t| == |s| && forall k :: 0 <= k < |s| ==> t[k] == if s[k] == '_' then '-' else s[k]
  }

  lemma EmitCarriesId(provider: Value)
    requires Emit(provider).Ok?
    ensures var e := Emit(provider).value;
            e.entry.Map? && GetOr(e.entry.entries, "provider_id", Null) == Str(e.id)
  {
    hide EmittedId, ProviderType, Extra, WithKey, AllowedModels;
  }

  /** Each entry carries its own id: the explicit one, stripped, or else the type with hyphens for underscores. */
  lemma {:induction false} EmitAllCarryIds(providers: seq<Value>)
    requires EmitAll(providers).Ok?
    ensures var es := EmitAll(providers).value;
            && AllCarry(es) && |es| == |providers|
            && forall i :: 0 <= i < |es| ==>
                 && providers[i].Map?
                 && var explicit, kind := GetOr(providers[i].entries, "id", Null),
                   GetOr(providers[i].entries, "type", Null);
                 if explicit.Str? && Strip(explicit.s) != "" then es[i].id == Strip(explicit.s)
                 else kind.Str? && Hyphenated(kind.s, es[i].id)
  {
    hide Strip;
    if providers != [] {
      EmitCarriesId(providers[0]);
      EmitsId(providers[0]);
      EmitAllCarryIds(providers[1..]);
      hide Emit, Carries, Hyphenated;
      var es := EmitAll(providers).value;
      assert es == [es[0]] + es[1..];
      assert forall e <- es :: e == es[0] || e in es[1..];
    }
  }

  lemma EmitsId(provider: Value)
    requires Emit(provider).Ok?
    ensures provider.Map?
    ensures var explicit, kind := GetOr(provider.entries, "id", Null), GetOr(provider.entries, "type", Null);
            if explicit.Str? && Strip(explicit.s) != "" then Emit(provider).value.id == Strip(explicit.s)
            else kind.Str? && Hyphenated(kind.s, Emit(provider).value.id)
  {
    hide Strip, ProviderType, Extra, WithKey, AllowedModels;
    EmptyStrips();
  }

  lemma EmptyStrips()
    ensures Strip("") == ""
  {
  }

  // ----- the pass ----------------------------------------------------------

  function ListAt(root: Section, outer: string, inner: string): seq<Value> {
    var v := Sub(root, outer, inner);
    if v.Ok? && v.value.Some? && v.value.value.List? then v.value.value.items else []
  }

  lemma UpdateSets(root: Section, outer: string, inner: string, rewrite: Rewrite)
    requires Update(root, outer, inner, rewrite).Ok?
    ensures var r := Update(root, outer, inner, rewrite).value;
            && Sub(root, outer, inner).Ok? && rewrite(Sub(root, outer, inner).value).Ok?
            && Sub(r, outer, inner) == Ok(Some(rewrite(Sub(root, outer, inner).value).value))
            && (forall k | k != outer :: (k in r <==> k in root) && (k in r ==> r[k] == root[k]))
            && outer in r && r[outer].Map?
            && r[outer].entries
               == GetOr(root, outer, EMPTY).entries[inner := rewrite(Sub(root, outer, inner).value).value]
  {
  }

  lemma UpdateAgain(root: Section, outer: string, inner: string, rewrite: Rewrite, v: Value)
    requires outer in root && root[outer].Map? && Sub(root, outer, inner) == Ok(Some(v)) && rewrite(Some(v)) == Ok(v)
    ensures Update(root, outer, inner, rewrite) == Ok(root)
  {
    var m := root[outer].entries;
    assert m[inner := v] == m;
    assert root[outer := Map(m)] == root;
  }

  /**
   * On success the inference list is the expansion of the baseline list exactly unless an entry with the conditional
   * OpenAI text is evicted; the models list only gains rows whose (provider_id, model_id) is new and has all that
   * are requested; no other section changes. Applying the pass again changes nothing exactly if no entry has the
   * conditional text as its id.
   */
  lemma ExpansionOfConfig(es: seq<Emitted>, root: Section)
    requires AllCarry(es) && ApplyEmitted(es, root).Ok?
    ensures var r := ApplyEmitted(es, root).value;
            var before, after := ListAt(root, "providers", "inference"), ListAt(r, "providers", "inference");
            && (after == Expansion(before, es) <==> !Evicts(before, es))
            && EachNew(ListAt(root, "registered_resources", "models"), ListAt(r, "registered_resources", "models"))
            && (forall e <- es :: AllKnown(ListAt(r, "registered_resources", "models"), e.id, e.register))
            && (forall k | k != "providers" && k != "registered_resources" ::
                  (k in r <==> k in root) && (k in r ==> r[k] == root[k]))
            && SameOutside(root, r, {("providers", "inference"), ("registered_resources", "models")})
            && (ApplyEmitted(es, r) == Ok(r) <==> !HasId(es, CONDITIONAL_OPENAI))
  {
    hide Update, Expansion, Sub, RegisterAll, ReplaceOrAppendAll, EachNew, KnownModels, KeysHashable, AllKnown, Evicts;
    var r1 := Update(root, "providers", "inference", WithEntriesOf(es)).value;
    UpdateSets(root, "providers", "inference", WithEntriesOf(es));
    var rows := ListAt(root, "providers", "inference");
    LoopIsExpansionExactly(rows, es);
    ExpansionTwiceExactly(rows, es);
    var r := ApplyEmitted(es, root).value;
    SubElsewhere(root, r1, "registered_resources", "models");
    ModelsOfConfig(es, r1, r);
    UpdateFrame(root, "providers", "inference", WithEntriesOf(es));
    FrameThen(root, r1, r, {("providers", "inference")}, {("registered_resources", "models")});
    SubElsewhere(r1, r, "providers", "inference");
    AppliedAgain(es, r, ReplaceOrAppendAll(rows, es));
  }

  /** The second half of the pass, and its repetition. */
  lemma ModelsOfConfig(es: seq<Emitted>, r1: Section, r: Section)
    requires Ok(r) == if RegistersNothing(es) then Ok(r1)
             else Update(r1, "registered_resources", "models", WithModelsOf(es))
    ensures var before, after := ListAt(r1, "registered_resources", "models"),
            ListAt(r, "registered_resources", "models");
            EachNew(before, after) && forall e <- es :: AllKnown(after, e.id, e.register)
    ensures forall k | k != "registered_resources" :: (k in r <==> k in r1) && (k in r ==> r[k] == r1[k])
    ensures SameOutside(r1, r, {("registered_resources", "models")})
    ensures !RegistersNothing(es) ==> Update(r, "registered_resources", "models", WithModelsOf(es)) == Ok(r)
  {
    hide Update, Sub, RegisterAll, EachNew, KnownModels, KeysHashable;
    var before := ListAt(r1, "registered_resources", "models");
    if RegistersNothing(es) {
      NothingIsNew(before);
    } else {
      UpdateSets(r1, "registered_resources", "models", WithModelsOf(es));
      UpdateFrame(r1, "registered_resources", "models", WithModelsOf(es));
      var after := RegisterAll(before, es).value;
      RegisterAllLaws(before, es);
      RegisterAllKnown(after, before, es);
      RegisteredAllHashable(before, es);
      UpdateAgain(r, "registered_resources", "models", WithModelsOf(es), List(after));
    }
  }

  lemma AppliedAgain(es: seq<Emitted>, r: Section, rows: seq<Value>)
    requires DistinctIds(es) && Sub(r, "providers", "inference") == Ok(Some(List(rows)))
    requires "providers" in r && r["providers"].Map?
    requires !RegistersNothing(es) ==> Update(r, "registered_resources", "models", WithModelsOf(es)) == Ok(r)
    ensures ApplyEmitted(es, r) == Ok(r) <==> ReplaceOrAppendAll(rows, es) == rows
  {
    hide Update, Sub, RegisterAll, ReplaceOrAppendAll, WithModelsOf;
    var next := WithEntriesOf(es)(Some(List(rows)));
    if ReplaceOrAppendAll(rows, es) == rows {
      UpdateAgain(r, "providers", "inference", WithEntriesOf(es), List(rows));
    } else if Update(r, "providers", "inference", WithEntriesOf(es)).Ok? {
      UpdateSets(r, "providers", "inference", WithEntriesOf(es));
      var r1 := Update(r, "providers", "inference", WithEntriesOf(es)).value;
      if !RegistersNothing(es) && Update(r1, "registered_resources", "models", WithModelsOf(es)).Ok? {
        UpdateSets(r1, "registered_resources", "models", WithModelsOf(es));
        SubElsewhere(r1, Update(r1, "registered_resources", "models", WithModelsOf(es)).value, "providers",
                     "inference");
      }
    }
  }

  // ----- an entry that is evicted ------------------------------------------

  const CONDITIONAL_PROVIDER := Map(map["type" := Str("openai"), "id" := Str(CONDITIONAL_OPENAI)])
  const OPENAI_PROVIDER := Map(map["type" := Str("openai")])
  const EVICTING := Map(map["providers" := List([CONDITIONAL_PROVIDER, OPENAI_PROVIDER])])

  function OpenaiEntry(id: string): Value {
    Map(map["provider_id" := Str(id), "provider_type" := Str("remote::openai")])
  }

  /** Declared with the conditional text as its id, a provider is lost when a plain openai one follows. */
  lemma ConditionalProviderIsLost()
    ensures var r := HighLevelInference(EVICTING, map[]);
            r.Ok? && ListAt(r.value, "providers", "inference") == [OpenaiEntry("openai")]
  {
    var first := Emitted(CONDITIONAL_OPENAI, OpenaiEntry(CONDITIONAL_OPENAI), []);
    var second := Emitted("openai", OpenaiEntry("openai"), []);
    OpenaiIsShort();
    EvictingEmits(first, second);
    EvictedInList(first, second);
    EvictingIsRead();
    hide Emit, EmitAll, ApplyEmitted;
    assert HighLevelInference(EVICTING, map[]) == ApplyEmitted([first, second], map[]);
    EmptyTakes([first, second]);
  }

  lemma EvictingIsRead()
    ensures Get(EVICTING, "providers", Null) == Ok(List([CONDITIONAL_PROVIDER, OPENAI_PROVIDER]))
  {
  }

  lemma EmptyTakes(es: seq<Emitted>)
    requires DistinctIds(es) && RegistersNothing(es)
    ensures ApplyEmitted(es, map[]).Ok?
    ensures ListAt(ApplyEmitted(es, map[]).value, "providers", "inference") == ReplaceOrAppendAll([], es)
  {
    hide ReplaceOrAppendAll;
  }

  lemma EvictedInList(first: Emitted, second: Emitted)
    requires Carries(first) && first.id == CONDITIONAL_OPENAI && second.id == "openai"
    ensures ReplaceOrAppendAll([], [first, second]) == [second.entry]
  {
    EntryMatches(first, "openai");
    hide Matches, Carries;
    var one := ReplaceOrAppend([], first);
    assert one == [first.entry] && FirstMatch(one, "openai") == 0;
    assert ReplaceOrAppend(one, second) == [second.entry];
    assert [first, second][1..] == [second] && [second][1..] == [];
    assert ReplaceOrAppendAll(one, [second]) == ReplaceOrAppendAll([second.entry], []);
  }

  lemma EvictingEmits(first: Emitted, second: Emitted)
    requires first == Emitted(CONDITIONAL_OPENAI, OpenaiEntry(CONDITIONAL_OPENAI), [])
    requires second == Emitted("openai", OpenaiEntry("openai"), [])
    ensures EmitAll([CONDITIONAL_PROVIDER, OPENAI_PROVIDER]) == Ok([first, second])
    ensures Carries(first) && DistinctIds([first, second]) && RegistersNothing([first, second])
  {
    OpenaiIsShort();
    ConditionalEmits();
    OpenaiEmits();
    hide Emit;
    var all := [CONDITIONAL_PROVIDER, OPENAI_PROVIDER];
    assert all[1..] == [OPENAI_PROVIDER] && all[1..][1..] == [];
    assert EmitAll([]) == Ok([]);
    assert EmitAll(all[1..]) == Ok([second] + []);
    assert [first] + ([second] + []) == [first, second];
  }

  lemma ConditionalEmits()
    ensures Emit(CONDITIONAL_PROVIDER) == Ok(Emitted(CONDITIONAL_OPENAI, OpenaiEntry(CONDITIONAL_OPENAI), []))
  {
    StripOfTrimmed(CONDITIONAL_OPENAI);
    EmitsAlone(CONDITIONAL_PROVIDER, CONDITIONAL_OPENAI);
  }

  lemma OpenaiEmits()
    ensures Emit(OPENAI_PROVIDER) == Ok(Emitted("openai", OpenaiEntry("openai"), []))
  {
    assert Replace("openai", '_', '-') == "openai";
    EmitsAlone(OPENAI_PROVIDER, "openai");
  }

  lemma EmitsAlone(provider: Value, id: string)
    requires provider.Map? && GetOr(provider.entries, "type", Null) == Str("openai") && EmittedId(provider) == Ok(id)
    requires provider.entries.Keys <= {"type", "id"}
    ensures Emit(provider) == Ok(Emitted(id, OpenaiEntry(id), []))
  {
    hide EmittedId;
    assert ProviderType(Str("openai")) == Ok("remote::openai");
    assert AllowedModels([]) == Ok([]);
  }

  lemma NothingIsNew(rows: seq<Value>)
    ensures EachNew(rows, rows)
  {
  }

  lemma SubElsewhere(a: Section, b: Section, outer: string, inner: string)
    requires (outer in a <==> outer in b) && (outer in a ==> a[outer] == b[outer])
    ensures Sub(a, outer, inner) == Sub(b, outer, inner)
  {
  }

  // ----- what an update leaves alone ---------------------------------------

  lemma SiblingStays(a: Section, b: Section, outer: string, changed: string, other: string, v: Value)
    requires changed != other && outer in b && b[outer].Map? && GetOr(a, outer, EMPTY).Map?
    requires b[outer].entries == GetOr(a, outer, EMPTY).entries[changed := v]
    ensures Sub(a, outer, other) == Sub(b, outer, other)
  {
  }

  lemma UpdateNeedsMap(root: Section, outer: string, inner: string, rewrite: Rewrite)
    requires Update(root, outer, inner, rewrite).Ok?
    ensures GetOr(root, outer, EMPTY).Map?
  {
  }

  /** Every nested section outside the given ones is as before. */
  ghost predicate SameOutside(a: Section, b: Section, owned: set<(string, string)>) {
    forall outer: string, inner: string | (outer, inner) !in owned :: Sub(b, outer, inner) == Sub(a, outer, inner)
  }

  lemma PutFrame(root: Section, outer: string, inner: string, v: Value)
    requires PutSub(root, outer, inner, v).Ok?
    ensures SameOutside(root, PutSub(root, outer, inner, v).value, {(outer, inner)})
  {
  }

  lemma UpdateFrame(root: Section, outer: string, inner: string, rewrite: Rewrite)
    requires Update(root, outer, inner, rewrite).Ok?
    ensures SameOutside(root, Update(root, outer, inner, rewrite).value, {(outer, inner)})
  {
    hide Sub, PutSub;
    PutFrame(root, outer, inner, rewrite(Sub(root, outer, inner).value).value);
  }

  lemma FrameThen(a: Section, b: Section, c: Section, first: set<(string, string)>, second: set<(string, string)>)
    requires SameOutside(a, b, first) && SameOutside(b, c, second)
    ensures SameOutside(a, c, first + second)
  {
    hide Sub;
  }
}
