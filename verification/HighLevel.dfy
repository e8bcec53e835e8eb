/** Expansion of the high-level `inference.providers` section. */
module HighLevel {
  import opened Wrappers
  import opened PyText
  import opened Yaml
  import opened Enrichment

  const CONDITIONAL_OPENAI := "${env.OPENAI_API_KEY:+openai}"

  function Replace(s: string, from: char, to: char): (r: string)
    ensures |r| == |s|
  {
    seq(|s|, i requires 0 <= i < |s| => if s[i] == from then to else s[i])
  }

  /** The explicit id if there is one, else the type with hyphens for underscores. */
  function EmittedId(provider: Value): Result<string, Fault> {
    var raw :- Get(provider, "id", Null);
    if Truthy(raw) && !raw.Str? then Err(Raised)
    else
      var explicit := if Truthy(raw) then Strip(raw.s) else "";
      if explicit != "" then Ok(explicit)
      else
        var kind :- At(provider, "type");
        if kind.Str? then Ok(Replace(kind.s, '_', '-')) else Err(Raised)
  }

  function ProviderType(kind: Value): Result<string, Fault> {
    if !kind.Str? then Err(Raised)
    else match kind.s
      case "openai" => Ok("remote::openai")
      case "ollama" => Ok("remote::ollama")
      case "vllm" => Ok("remote::vllm")
      case "sentence_transformers" => Ok("inline::sentence-transformers")
      case "azure" => Ok("remote::azure")
      case "vertexai" => Ok("remote::vertexai")
      case "watsonx" => Ok("remote::watsonx")
      case "vllm_rhaiis" => Ok("remote::vllm")
      case "vllm_rhel_ai" => Ok("remote::vllm")
      case _ => Err(Raised)
  }

  /** One allowed model: the local name, and the backend id. */
  datatype Model = Model(name: Value, backend: Value)

  function AllowedModel(v: Value): Result<Model, Fault> {
    if !v.Map? then Ok(Model(v, v))
    else
      var backend :- At(v, "provider_model_id");
      var name := GetOr(v.entries, "name", Null);
      Ok(Model(if Truthy(name) then name else backend, backend))
  }

  function AllowedModels(items: seq<Value>): Result<seq<Model>, Fault> {
    if items == [] then Ok([])
    else
      var head :- AllowedModel(items[0]);
      var rest :- AllowedModels(items[1..]);
      Ok([head] + rest)
  }

  /** One high-level provider, expanded: its id, its inference entry, and the models to register. */
  datatype Emitted = Emitted(id: string, entry: Value, register: seq<Model>)

  function Extra(provider: Section): Result<Section, Fault> {
    var extra := GetOr(provider, "extra", Null);
    if !Truthy(extra) then Ok(map[]) else if extra.Map? then Ok(extra.entries) else Err(Raised)
  }

  function WithKey(config: Section, provider: Section, kind: string): Result<Section, Fault> {
    var env := GetOr(provider, "api_key_env", Null);
    var field := if kind == "remote::vllm" then "api_token" else "api_key";
    if !Truthy(env) then Ok(config)
    else if env.Str? then Ok(config[field := Str("${env." + env.s + "}")])
    else Err(Raised)
  }

  function Emit(provider: Value): Result<Emitted, Fault> {
    var id :- EmittedId(provider);
    var rawKind :- At(provider, "type");
    var kind :- ProviderType(rawKind);
    var extra :- Extra(provider.entries);
    var keyed :- WithKey(extra, provider.entries, kind);
    var items :- Elements(OrEmptyList(GetOr(provider.entries, "allowed_models", Null)));
    var models :- AllowedModels(items);
    var backends := seq(|models|, i requires 0 <= i < |models| => models[i].backend);
    var config := if models == [] then keyed else keyed["allowed_models" := List(backends)];
    var base := map["provider_id" := Str(id), "provider_type" := Str(kind)];
    Ok(Emitted(id, Map(if config == map[] then base else base["config" := Map(config)]),
               if rawKind == Str("sentence_transformers") then [] else models))
  }

  function EmitAll(providers: seq<Value>): Result<seq<Emitted>, Fault> {
    if providers == [] then Ok([])
    else
      var head :- Emit(providers[0]);
      var rest :- EmitAll(providers[1..]);
      Ok([head] + rest)
  }

  predicate DistinctIds(es: seq<Emitted>) {
    forall i, j :: 0 <= i < j < |es| ==> es[i].id != es[j].id
  }

  // ----- replace or append -------------------------------------------------

  /** Does an existing row match the id? The conditional OpenAI row counts as "openai". */
  predicate Matches(row: Value, id: string) {
    row.Map? &&
    var raw := GetOr(row.entries, "provider_id", Null);
    (if raw == Str(CONDITIONAL_OPENAI) then "openai" == id else raw == Str(id))
  }

  /** Index of the first matching row, or the length. */
  function FirstMatch(rows: seq<Value>, id: string): (k: nat)
    ensures k <= |rows| && (k < |rows| ==> Matches(rows[k], id))
    ensures forall i :: 0 <= i < k ==> !Matches(rows[i], id)
  {
    if rows == [] || Matches(rows[0], id) then 0
    else
      var k := 1 + FirstMatch(rows[1..], id);
      assert forall i :: 0 < i < k ==> rows[i] == rows[1..][i - 1];
      k
  }

  function ReplaceOrAppend(rows: seq<Value>, e: Emitted): seq<Value> {
    var k := FirstMatch(rows, e.id);
    if k < |rows| then rows[k := e.entry] else rows + [e.entry]
  }

  function ReplaceOrAppendAll(rows: seq<Value>, es: seq<Emitted>): seq<Value>
    decreases es
  {
    if es == [] then rows else ReplaceOrAppendAll(ReplaceOrAppend(rows, es[0]), es[1..])
  }

  /** Rows that are not a list cannot be appended to, and none of their elements match. */
  function ReplaceOrAppendIn(rows: Value, es: seq<Emitted>): Result<Value, Fault> {
    if rows.List? then Ok(List(ReplaceOrAppendAll(rows.items, es))) else Err(Raised)
  }

  // ----- model registration ------------------------------------------------

  function ModelRow(id: string, m: Model): Value {
    Map(map["model_id" := m.name, "model_type" := Str("llm"), "provider_id" := Str(id),
            "provider_model_id" := m.backend])
  }

  function RowKey(row: Section): (Value, Value) {
    (GetOr(row, "provider_id", Null), GetOr(row, "model_id", Null))
  }

  predicate KeysHashable(rows: seq<Value>) {
    forall row <- rows | row.Map? :: Hashable(RowKey(row.entries).0) && Hashable(RowKey(row.entries).1)
  }

  function KnownModels(rows: seq<Value>): set<(Value, Value)> {
    set row | row in rows && row.Map? :: RowKey(row.entries)
  }

  /** Register each model not yet known for this provider. */
  function RegisterFrom(rows: seq<Value>, id: string, models: seq<Model>): Result<seq<Value>, Fault>
    decreases models
  {
    if models == [] then Ok(rows)
    else if !Hashable(models[0].name) then Err(Raised)
    else
      RegisterFrom(if (Str(id), models[0].name) in KnownModels(rows) then rows else rows + [ModelRow(id, models[0])],
                   id, models[1..])
  }

  function RegisterAll(rows: seq<Value>, es: seq<Emitted>): Result<seq<Value>, Fault>
    decreases es
  {
    if es == [] then Ok(rows)
    else if es[0].register == [] then RegisterAll(rows, es[1..])
    else
      var next :- RegisterFrom(rows, es[0].id, es[0].register);
      RegisterAll(next, es[1..])
  }

  predicate RegistersNothing(es: seq<Emitted>) {
    forall e <- es :: e.register == []
  }

  function WithModelsOf(es: seq<Emitted>): Rewrite {
    (prev: Option<Value>) =>
      var rows := if prev.Some? then prev.value else List([]);
      if !rows.List? || !KeysHashable(rows.items) then Err(Raised)
      else
        var more :- RegisterAll(rows.items, es);
        Ok(List(more))
  }

  function WithEntriesOf(es: seq<Emitted>): Rewrite {
    (prev: Option<Value>) => ReplaceOrAppendIn(if prev.Some? then prev.value else List([]), es)
  }

  function ApplyEmitted(es: seq<Emitted>, root: Section): Outcome {
    if !DistinctIds(es) then Err(Raised)
    else
      var r :- Update(root, "providers", "inference", WithEntriesOf(es));
      if RegistersNothing(es) then Ok(r)
      else Update(r, "registered_resources", "models", WithModelsOf(es))
  }

  function HighLevelInference(inference: Value, root: Section): Outcome {
    var raw :- Get(inference, "providers", Null);
    if !Truthy(raw) then Ok(root)
    else
      var providers :- Elements(raw);
      var es :- EmitAll(providers);
      ApplyEmitted(es, root)
  }

  // ----- what the expansion produces ---------------------------------------

  /** The emitted entry that takes over a baseline row, if any. */
  function TakesOver(rows: seq<Value>, i: nat, es: seq<Emitted>): Option<Emitted> {
    if es == [] then None
    else if FirstMatch(rows, es[0].id) == i then Some(es[0])
    else TakesOver(rows, i, es[1..])
  }

  function Unmatched(rows: seq<Value>, es: seq<Emitted>): seq<Value> {
    if es == [] then []
    else (if FirstMatch(rows, es[0].id) == |rows| then [es[0].entry] else []) + Unmatched(rows, es[1..])
  }

  /** The baseline with each first match replaced in place, then the entries that match nothing, in order. */
  function Expansion(rows: seq<Value>, es: seq<Emitted>): seq<Value> {
    InPlace(rows, es) + Unmatched(rows, es)
  }

  function InPlace(rows: seq<Value>, es: seq<Emitted>): (r: seq<Value>)
    ensures |r| == |rows|
    ensures forall i :: 0 <= i < |r| ==>
              r[i] == match TakesOver(rows, i, es) case Some(e) => e.entry case None => rows[i]
  {
    seq(|rows|, i requires 0 <= i < |rows| =>
      match TakesOver(rows, i, es) case Some(e) => e.entry case None => rows[i])
  }

  /** An emitted entry carries its own id. */
  predicate Carries(e: Emitted) {
    e.entry.Map? && GetOr(e.entry.entries, "provider_id", Null) == Str(e.id)
  }

  predicate AllCarry(es: seq<Emitted>) {
    forall e <- es :: Carries(e)
  }

  /** Installing the entry neither is nor makes the first match of the id. */
  predicate Clear(rows: seq<Value>, e: Emitted, id: string) {
    e.id != id && !(e.id == CONDITIONAL_OPENAI && id == "openai" && FirstMatch(rows, id) == |rows|)
  }

  predicate AllClear(rows: seq<Value>, e: Emitted, es: seq<Emitted>) {
    forall x <- es :: Clear(rows, e, x.id)
  }

  /** An installed entry matches its own id, except that the conditional text matches "openai" instead. */
  lemma EntryMatches(e: Emitted, id: string)
    requires Carries(e)
    ensures Matches(e.entry, id) <==> if e.id == CONDITIONAL_OPENAI then id == "openai" else e.id == id
  {
  }

  /** No row matches the conditional text, so such an entry is always appended. */
  lemma ConditionalMatchesNothing(rows: seq<Value>)
    ensures FirstMatch(rows, CONDITIONAL_OPENAI) == |rows|
  {
    OpenaiIsShort();
    assert forall row <- rows :: !Matches(row, CONDITIONAL_OPENAI);
  }

  lemma OpenaiIsShort()
    ensures "openai" != CONDITIONAL_OPENAI
  {
    assert |"openai"| == 6 && |CONDITIONAL_OPENAI| > 6;
  }

  lemma {:induction false} TakesOverIsMatch(rows: seq<Value>, i: nat, es: seq<Emitted>)
    ensures TakesOver(rows, i, es).Some? ==>
              TakesOver(rows, i, es).value in es && FirstMatch(rows, TakesOver(rows, i, es).value.id) == i
  {
    if es != [] && FirstMatch(rows, es[0].id) != i {
      TakesOverIsMatch(rows, i, es[1..]);
    }
  }

  /** The first match is determined by which rows match. */
  lemma FirstMatchIs(rows: seq<Value>, id: string, k: nat)
    requires k <= |rows| && (k < |rows| ==> Matches(rows[k], id)) && forall i :: 0 <= i < k ==> !Matches(rows[i], id)
    ensures FirstMatch(rows, id) == k
  {
  }

  /** Installing an entry does not move or hide the first match of an id that is clear of it. */
  lemma MatchAfterInstall(rows: seq<Value>, e: Emitted, id: string)
    requires Carries(e) && Clear(rows, e, id)
    ensures var next := ReplaceOrAppend(rows, e);
            FirstMatch(next, id)
            == if FirstMatch(rows, id) < |rows| then FirstMatch(rows, id) else |next|
  {
    hide Matches;
    var next, k := ReplaceOrAppend(rows, e), FirstMatch(rows, id);
    EntryMatches(e, id);
    ConditionalMatchesNothing(rows);
    NoRowMatchesTwo(rows, e.id, id);
    FirstMatchIs(next, id, if k < |rows| then k else |next|);
  }

  lemma NoRowMatchesTwo(rows: seq<Value>, a: string, b: string)
    requires a != b
    ensures forall row <- rows :: !(Matches(row, a) && Matches(row, b))
  {
  }

  lemma {:induction false} TakesOverAfterInstall(rows: seq<Value>, e: Emitted, es: seq<Emitted>, i: nat)
    requires Carries(e) && AllClear(rows, e, es) && i < |rows|
    ensures TakesOver(ReplaceOrAppend(rows, e), i, es) == TakesOver(rows, i, es)
  {
    hide Carries, Matches, Clear;
    if es != [] {
      MatchAfterInstall(rows, e, es[0].id);
      TakesOverAfterInstall(rows, e, es[1..], i);
    }
  }

  lemma {:induction false} UnmatchedAfterInstall(rows: seq<Value>, e: Emitted, es: seq<Emitted>)
    requires Carries(e) && AllClear(rows, e, es)
    ensures Unmatched(ReplaceOrAppend(rows, e), es) == Unmatched(rows, es)
    ensures TakesOver(ReplaceOrAppend(rows, e), |rows|, es).None? || FirstMatch(rows, e.id) < |rows|
  {
    hide Carries, Matches, Clear;
    if es != [] {
      MatchAfterInstall(rows, e, es[0].id);
      UnmatchedAfterInstall(rows, e, es[1..]);
    }
  }

  lemma RestIsApart(es: seq<Emitted>)
    requires es != [] && DistinctIds(es) && AllCarry(es)
    ensures DistinctIds(es[1..]) && AllCarry(es[1..]) && Carries(es[0])
    ensures forall x <- es[1..] :: x.id != es[0].id
  {
    assert forall i :: 0 <= i < |es[1..]| ==> es[1..][i] == es[i + 1];
  }

  lemma InPlaceAt(rows: seq<Value>, e: Emitted, rest: seq<Emitted>, i: nat)
    requires Carries(e) && AllClear(rows, e, rest) && i < |rows|
    ensures InPlace(ReplaceOrAppend(rows, e), rest)[i] == InPlace(rows, [e] + rest)[i]
  {
    hide Carries, Matches;
    TakesOverAfterInstall(rows, e, rest, i);
    TakesOverIsMatch(rows, i, rest);
    assert ([e] + rest)[1..] == rest && rows[i] in rows;
    if FirstMatch(rows, e.id) == i && TakesOver(rows, i, rest).Some? {
      NoRowMatchesTwo(rows, e.id, TakesOver(rows, i, rest).value.id);
    }
  }

  lemma InPlaceAtEnd(rows: seq<Value>, e: Emitted, rest: seq<Emitted>)
    requires Carries(e) && AllClear(rows, e, rest)
    ensures var next := ReplaceOrAppend(rows, e);
            |next| == |rows| + (if FirstMatch(rows, e.id) < |rows| then 0 else 1)
            && (|next| > |rows| ==> InPlace(next, rest)[|rows|] == e.entry)
  {
    hide Carries, Matches, Clear;
    UnmatchedAfterInstall(rows, e, rest);
  }

  lemma InPlaceAfterInstall(rows: seq<Value>, e: Emitted, rest: seq<Emitted>)
    requires Carries(e) && AllClear(rows, e, rest)
    ensures InPlace(ReplaceOrAppend(rows, e), rest)
         == InPlace(rows, [e] + rest) + if FirstMatch(rows, e.id) < |rows| then [] else [e.entry]
  {
    hide *;
    InPlaceAtEnd(rows, e, rest);
    var next, was := InPlace(ReplaceOrAppend(rows, e), rest), InPlace(rows, [e] + rest);
    forall i | 0 <= i < |rows| ensures next[i] == was[i] {
      InPlaceAt(rows, e, rest, i);
    }
    PointwiseThen(next, was, if FirstMatch(rows, e.id) < |rows| then [] else [e.entry]);
  }

  /** After installing an entry that is clear of the others, what they expand to is what all expand to. */
  lemma ExpansionAfterInstall(rows: seq<Value>, e: Emitted, rest: seq<Emitted>)
    requires Carries(e) && AllClear(rows, e, rest)
    ensures Expansion(ReplaceOrAppend(rows, e), rest) == Expansion(rows, [e] + rest)
  {
    hide *;
    InPlaceAfterInstall(rows, e, rest);
    UnmatchedAfterInstall(rows, e, rest);
    UnmatchedCons(rows, e, rest);
    Regrouped(InPlace(rows, [e] + rest), if FirstMatch(rows, e.id) < |rows| then [] else [e.entry],
              Unmatched(rows, rest));
    ExpansionIs(rows, [e] + rest);
    ExpansionIs(ReplaceOrAppend(rows, e), rest);
  }

  lemma PointwiseThen(whole: seq<Value>, front: seq<Value>, back: seq<Value>)
    requires |whole| == |front| + |back| && |back| <= 1
    requires forall i :: 0 <= i < |front| ==> whole[i] == front[i]
    requires back != [] ==> whole[|front|] == back[0]
    ensures whole == front + back
  {
  }

  /** An entry with this id is somewhere in the list. */
  predicate HasId(es: seq<Emitted>, id: string) {
    exists e <- es :: e.id == id
  }

  /** An entry with the conditional text as its id comes before one with "openai". */
  predicate ConditionalFirst(es: seq<Emitted>) {
    es != [] && (ConditionalFirst(es[1..]) || (es[0].id == CONDITIONAL_OPENAI && HasId(es[1..], "openai")))
  }

  /** And no baseline row matches "openai". */
  predicate Evicts(rows: seq<Value>, es: seq<Emitted>) {
    FirstMatch(rows, "openai") == |rows| && ConditionalFirst(es)
  }

  /**
   * The replace-or-append loop computes the expansion (every matched baseline row replaced where it stands,
   * everything else in its place, new entries following in order) exactly unless an entry evicts another.
   */
  lemma {:induction false} LoopIsExpansionExactly(rows: seq<Value>, es: seq<Emitted>)
    requires DistinctIds(es) && AllCarry(es)
    ensures ReplaceOrAppendAll(rows, es) == Expansion(rows, es) <==> !Evicts(rows, es)
    ensures Evicts(rows, es) ==> |ReplaceOrAppendAll(rows, es)| < |Expansion(rows, es)|
    decreases es
  {
    if es == [] {
      assert InPlace(rows, es) == rows;
    } else {
      RestIsApart(es);
      var e, rest := es[0], es[1..];
      var next := ReplaceOrAppend(rows, e);
      LoopIsExpansionExactly(next, rest);
      hide *;
      AllOfCons(rows, e, rest);
      assert es == [e] + rest && es[1..] == rest;
      EvictsOfCons(rows, e, rest);
      if AllClear(rows, e, rest) {
        ExpansionAfterInstall(rows, e, rest);
      } else {
        EvictedIsShorter(rows, e, rest);
      }
    }
  }

  lemma {:induction false} ConditionalHas(es: seq<Emitted>)
    requires ConditionalFirst(es)
    ensures HasId(es, CONDITIONAL_OPENAI) && HasId(es, "openai")
  {
    assert es[0] in es && forall e <- es[1..] :: e in es;
    if ConditionalFirst(es[1..]) {
      ConditionalHas(es[1..]);
    }
  }

  lemma EvictsOfCons(rows: seq<Value>, e: Emitted, rest: seq<Emitted>)
    requires Carries(e) && forall x <- rest :: x.id != e.id
    ensures AllClear(rows, e, rest) ==> (Evicts(rows, [e] + rest) <==> Evicts(ReplaceOrAppend(rows, e), rest))
    ensures !AllClear(rows, e, rest) ==>
              && Evicts(rows, [e] + rest) && !Evicts(ReplaceOrAppend(rows, e), rest)
              && e.id == CONDITIONAL_OPENAI && FirstMatch(rows, "openai") == |rows| && HasId(rest, "openai")
  {
    hide Carries, Matches, ReplaceOrAppend, FirstMatch, HasId, ConditionalFirst;
    ConditionalOfCons(e, rest);
    if ConditionalFirst(rest) {
      ConditionalHas(rest);
      HasOne(rest, CONDITIONAL_OPENAI);
    }
    if AllClear(rows, e, rest) {
      if HasId(rest, "openai") {
        HasOne(rest, "openai");
        OpenaiAfterInstall(rows, e);
      }
    } else {
      var x :| x in rest && !Clear(rows, e, x.id);
      IsHad(rest, x);
    }
  }

  lemma ConditionalOfCons(e: Emitted, rest: seq<Emitted>)
    ensures ConditionalFirst([e] + rest)
            <==> ConditionalFirst(rest) || (e.id == CONDITIONAL_OPENAI && HasId(rest, "openai"))
  {
    assert ([e] + rest)[1..] == rest;
  }

  lemma HasOne(es: seq<Emitted>, id: string)
    requires HasId(es, id)
    ensures exists x <- es :: x.id == id
  {
  }

  lemma IsHad(es: seq<Emitted>, x: Emitted)
    requires x in es
    ensures HasId(es, x.id)
  {
  }

  lemma OpenaiAfterInstall(rows: seq<Value>, e: Emitted)
    requires Carries(e) && Clear(rows, e, "openai")
    ensures FirstMatch(ReplaceOrAppend(rows, e), "openai") == |ReplaceOrAppend(rows, e)|
       <==> FirstMatch(rows, "openai") == |rows|
  {
    hide Carries, Matches, FirstMatch;
    MatchAfterInstall(rows, e, "openai");
  }

  lemma EvictedIsShorter(rows: seq<Value>, e: Emitted, rest: seq<Emitted>)
    requires Carries(e) && e.id == CONDITIONAL_OPENAI && FirstMatch(rows, "openai") == |rows|
    requires HasId(rest, "openai") && forall x <- rest :: x.id != e.id
    ensures |Expansion(ReplaceOrAppend(rows, e), rest)| < |Expansion(rows, [e] + rest)|
  {
    hide Carries, Matches, FirstMatch;
    ConditionalMatchesNothing(rows);
    FewerUnmatched(rows, e, rest);
    UnmatchedCons(rows, e, rest);
    ExpansionIs(rows, [e] + rest);
    ExpansionIs(ReplaceOrAppend(rows, e), rest);
  }

  /** Behind the conditional entry, the "openai" entry is no longer unmatched. */
  lemma {:induction false} FewerUnmatched(rows: seq<Value>, e: Emitted, es: seq<Emitted>)
    requires Carries(e) && e.id == CONDITIONAL_OPENAI && FirstMatch(rows, "openai") == |rows|
    requires forall x <- es :: x.id != e.id
    ensures |Unmatched(ReplaceOrAppend(rows, e), es)| <= |Unmatched(rows, es)|
    ensures HasId(es, "openai") ==> |Unmatched(ReplaceOrAppend(rows, e), es)| < |Unmatched(rows, es)|
  {
    hide Carries, Matches, FirstMatch;
    if es != [] {
      var next := ReplaceOrAppend(rows, e);
      ConditionalMatchesNothing(rows);
      FewerUnmatched(rows, e, es[1..]);
      assert es[0] in es && forall x <- es :: x == es[0] || x in es[1..];
      if es[0].id == "openai" {
        EntryMatches(e, "openai");
        assert next == rows + [e.entry] && next[|rows|] == e.entry;
        FirstMatchWithin(next, "openai", |rows|);
      } else {
        MatchAfterInstall(rows, e, es[0].id);
      }
    }
  }

  lemma FirstMatchWithin(rows: seq<Value>, id: string, k: nat)
    requires k < |rows| && Matches(rows[k], id)
    ensures FirstMatch(rows, id) < |rows|
  {
    hide Matches;
  }

  lemma Regrouped(a: seq<Value>, b: seq<Value>, c: seq<Value>)
    ensures (a + b) + c == a + (b + c)
  {
  }

  lemma ExpansionIs(rows: seq<Value>, es: seq<Emitted>)
    ensures Expansion(rows, es) == InPlace(rows, es) + Unmatched(rows, es)
  {
  }

  lemma UnmatchedCons(rows: seq<Value>, e: Emitted, rest: seq<Emitted>)
    ensures Unmatched(rows, [e] + rest) == (if FirstMatch(rows, e.id) < |rows| then [] else [e.entry])
            + Unmatched(rows, rest)
  {
    hide FirstMatch;
    assert ([e] + rest)[1..] == rest;
  }

  lemma AllOfCons(rows: seq<Value>, e: Emitted, rest: seq<Emitted>)
    ensures ReplaceOrAppendAll(rows, [e] + rest) == ReplaceOrAppendAll(ReplaceOrAppend(rows, e), rest)
  {
    hide ReplaceOrAppend;
    assert ([e] + rest)[1..] == rest;
  }

  /** Applying the same entries again changes nothing. */
  lemma {:induction false} InstalledStay(rows: seq<Value>, es: seq<Emitted>)
    requires forall e <- es :: FirstMatch(rows, e.id) < |rows| && rows[FirstMatch(rows, e.id)] == e.entry
    ensures ReplaceOrAppendAll(rows, es) == rows
    decreases es
  {
    if es != [] {
      assert ReplaceOrAppend(rows, es[0]) == rows;
      InstalledStay(rows, es[1..]);
    }
  }

  lemma {:induction false} AllInstalled(rows: seq<Value>, es: seq<Emitted>)
    requires DistinctIds(es) && AllCarry(es) && !HasId(es, CONDITIONAL_OPENAI)
    ensures var r := ReplaceOrAppendAll(rows, es);
            forall e <- es :: FirstMatch(r, e.id) < |r| && r[FirstMatch(r, e.id)] == e.entry
    decreases es
  {
    hide Carries, Matches;
    if es != [] {
      RestIsApart(es);
      var e, rest := es[0], es[1..];
      var next, r := ReplaceOrAppend(rows, e), ReplaceOrAppendAll(rows, es);
      AllInstalled(next, rest);
      EntryMatches(e, e.id);
      var k := FirstMatch(rows, e.id);
      FirstMatchIs(next, e.id, k);
      OthersKeep(next, rest, e);
      assert forall x <- es :: x == e || x in rest;
    }
  }

  lemma {:induction false} OthersKeep(rows: seq<Value>, es: seq<Emitted>, e: Emitted)
    requires AllCarry(es) && (forall x <- es :: x.id != e.id && x.id != CONDITIONAL_OPENAI)
    requires FirstMatch(rows, e.id) < |rows| && rows[FirstMatch(rows, e.id)] == e.entry
    ensures var r := ReplaceOrAppendAll(rows, es);
            FirstMatch(r, e.id) < |r| && r[FirstMatch(r, e.id)] == e.entry
    decreases es
  {
    hide Carries, Matches;
    if es != [] {
      MatchAfterInstall(rows, es[0], e.id);
      NoRowMatchesTwo(rows, e.id, es[0].id);
      OthersKeep(ReplaceOrAppend(rows, es[0]), es[1..], e);
    }
  }

  lemma {:induction false} ListOnlyGrows(rows: seq<Value>, es: seq<Emitted>)
    ensures |ReplaceOrAppendAll(rows, es)| >= |rows|
    ensures HasId(es, CONDITIONAL_OPENAI) ==> |ReplaceOrAppendAll(rows, es)| > |rows|
    decreases es
  {
    hide FirstMatch;
    if es != [] {
      ConditionalMatchesNothing(rows);
      ListOnlyGrows(ReplaceOrAppend(rows, es[0]), es[1..]);
      assert forall x <- es :: x == es[0] || x in es[1..];
    }
  }

  /** Expanding twice is expanding once exactly if no entry has the conditional text as its id. */
  lemma ExpansionTwiceExactly(rows: seq<Value>, es: seq<Emitted>)
    requires DistinctIds(es) && AllCarry(es)
    ensures ReplaceOrAppendAll(ReplaceOrAppendAll(rows, es), es) == ReplaceOrAppendAll(rows, es)
       <==> !HasId(es, CONDITIONAL_OPENAI)
  {
    if !HasId(es, CONDITIONAL_OPENAI) {
      AllInstalled(rows, es);
      InstalledStay(ReplaceOrAppendAll(rows, es), es);
    } else {
      ListOnlyGrows(ReplaceOrAppendAll(rows, es), es);
    }
  }
}
