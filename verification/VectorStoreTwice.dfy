/** Repeating the `vector_store` pass changes nothing, except where a declared id is blank. */
module VectorStoreTwice {
  import opened Wrappers
  import opened PyText
  import opened Yaml
  import opened VectorIo
  import opened Enrichment
  import opened HighLevelLaws
  import opened ModeEquivalence
  import opened ByokLaws
  import opened VectorStores
  import opened VectorStoreLaws
  import opened Writes

  // ----- replacing provider entries ----------------------------------------

  predicate HasEntry(items: seq<Value>, id: string) {
    exists x <- items :: IsEntryOf(x, id)
  }

  /** Replacing in a concatenation replaces in the first part that has the entry. */
  lemma {:induction false} ReplaceOfConcat(a: seq<Value>, b: seq<Value>, id: string, entry: Value)
    ensures ReplaceFirst(a + b, id, entry)
         == ReplaceFirst(a, id, entry) + if HasEntry(a, id) then b else ReplaceFirst(b, id, entry)
  {
    hide IsEntryOf, ReplaceFirst;
    if a == [] {
      NothingToReplace([], id, entry);
      assert a + b == b && [] + ReplaceFirst(b, id, entry) == ReplaceFirst(b, id, entry);
    } else {
      var head, rest := a[0], a[1..];
      assert a == [head] + rest && a + b == [head] + (rest + b);
      assert HasEntry(a, id) <==> IsEntryOf(head, id) || HasEntry(rest, id) by {
        assert forall x :: x in a <==> x == head || x in rest;
      }
      hide HasEntry;
      ReplaceOfConcat(rest, b, id, entry);
      ReplaceOfCons(head, rest + b, id, entry);
      ReplaceOfCons(head, rest, id, entry);
      Regroup(entry, rest, b);
      Regroup(head, ReplaceFirst(rest, id, entry), if HasEntry(rest, id) then b else ReplaceFirst(b, id, entry));
    }
  }

  lemma Regroup(head: Value, a: seq<Value>, b: seq<Value>)
    ensures [head] + (a + b) == ([head] + a) + b
  {
  }

  /** Replacing keeps every key and every id where it is. */
  lemma {:induction false} ReplaceKeepsIds(h: Host, items: seq<Value>, id: string, entry: Value, i: nat)
    requires i < |items| && IsEntryOf(entry, id) && ProviderKey(h, entry) == id && Strip(id) == id
    ensures var r := ReplaceFirst(items, id, entry);
            && ProviderKey(h, r[i]) == ProviderKey(h, items[i])
            && forall y :: IsEntryOf(r[i], y) <==> IsEntryOf(items[i], y)
  {
    if i > 0 && !IsEntryOf(items[0], id) {
      ReplaceKeepsIds(h, items[1..], id, entry, i - 1);
    }
  }

  /** Deduplication leaves nothing to replace where there was nothing. */
  lemma {:induction false} DedupeKeepsReplaced(h: Host, items: seq<Value>, seen: set<string>, id: string, entry: Value)
    requires Strip(id) == id && ReplaceFirst(items, id, entry) == items
    ensures var d := DedupeFrom(h, items, seen); ReplaceFirst(d, id, entry) == d
    decreases items
  {
    if items != [] {
      var head, rest, key := items[0], items[1..], ProviderKey(h, items[0]);
      ReplaceOfCons(head, rest, id, entry);
      assert [head] + rest == items;
      var more := if key == "" then seen else seen + {key};
      if IsEntryOf(head, id) {
        assert key == id;
        assert head == items[0] == entry;
        if id != "" && id in seen {
          SeenIsGone(h, rest, seen, id);
          NothingToReplace(DedupeFrom(h, rest, seen), id, entry);
        } else {
          ReplaceOfCons(head, DedupeFrom(h, rest, more), id, entry);
        }
      } else {
        assert ReplaceFirst(rest, id, entry) == rest;
        DedupeKeepsReplaced(h, rest, seen, id, entry);
        DedupeKeepsReplaced(h, rest, more, id, entry);
        ReplaceOfCons(head, DedupeFrom(h, rest, more), id, entry);
      }
    }
  }

  lemma SeenIsGone(h: Host, items: seq<Value>, seen: set<string>, id: string)
    requires id != "" && Strip(id) == id && id in seen
    ensures forall x <- DedupeFrom(h, items, seen) :: !IsEntryOf(x, id)
  {
    DedupedIsUnique(h, items, seen);
    var d := DedupeFrom(h, items, seen);
    forall x <- d ensures !IsEntryOf(x, id) {
      IdIsKey(h, x, id);
      KeyOfMember(h, d, x);
    }
  }

  lemma IdIsKey(h: Host, x: Value, id: string)
    requires Strip(id) == id
    ensures IsEntryOf(x, id) ==> ProviderKey(h, x) == id
  {
  }

  lemma KeyOfMember(h: Host, items: seq<Value>, x: Value)
    requires x in items
    ensures ProviderKey(h, x) == "" || ProviderKey(h, x) in Keys(h, items)
  {
    hide ProviderKey;
    var i :| 0 <= i < |items| && items[i] == x;
    assert ProviderKey(h, items[i]) == ProviderKey(h, x);
  }

  // ----- one declared provider ---------------------------------------------

  function ModelsWith(id: string, entry: Value, models: Value): Result<Value, Fault> {
    var model :- Get(entry, "embedding_model", Null);
    var dimension :- Get(entry, "embedding_dimension", Null);
    if Truthy(model) && dimension != Null then UpsertModel(models, id, model, dimension) else Ok(models)
  }

  function BackendsWith(id: string, plan: Plan, backends: Value): Result<Value, Fault> {
    if plan.backend.None? then Ok(backends) else SetAt(backends, VsStorageName(id), plan.backend.value)
  }

  function EntriesWith(id: string, plan: Plan, p: Progress): seq<Value> {
    if id !in p.known then p.vectorIo + [plan.entry] else ReplaceFirst(p.vectorIo, id, plan.entry)
  }

  lemma OneIsParts(h: Host, p: Progress, e: Value)
    ensures EnrichOne(h, p, e).Ok?
       <==> DeclaredId(h, e).Ok? && PlanOf(h, DeclaredId(h, e).value, e).Ok?
            && BackendsWith(DeclaredId(h, e).value, PlanOf(h, DeclaredId(h, e).value, e).value, p.backends).Ok?
            && ModelsWith(DeclaredId(h, e).value, e, p.models).Ok?
    ensures EnrichOne(h, p, e).Ok? ==>
              var id, n := DeclaredId(h, e).value, EnrichOne(h, p, e).value;
              var plan := PlanOf(h, id, e).value;
              && n.known == p.known + {id} && n.vectorIo == EntriesWith(id, plan, p)
              && BackendsWith(id, plan, p.backends) == Ok(n.backends) && ModelsWith(id, e, p.models) == Ok(n.models)
              && Strip(id) == id && IsEntryOf(plan.entry, id) && ProviderKey(h, plan.entry) == id
  {
    if EnrichOne(h, p, e).Ok? {
      OneUnfolds(h, p, e, DeclaredId(h, e).value);
      PlannedEntry(h, DeclaredId(h, e).value, e, p.backends, EnrichOne(h, p, e).value.backends);
    }
    hide PlanOf, UpsertModel, ReplaceFirst, SetAt, IsEntryOf, ProviderKey, Strip, DeclaredId;
  }

  /** Ids in the list are known and known ids are in the list. */
  ghost predicate Indexed(h: Host, p: Progress) {
    && (forall y, x <- p.vectorIo | y != "" && Strip(y) == y && IsEntryOf(x, y) :: y in p.known)
    && (forall y <- p.known :: y == "" || y in Keys(h, p.vectorIo))
  }

  lemma StartIsIndexed(h: Host, items: seq<Value>, backends: Value, models: Value)
    ensures Indexed(h, Progress(backends, items, KnownIds(h, items), models))
  {
    forall y, x <- items | y != "" && Strip(y) == y && IsEntryOf(x, y) ensures y in KnownIds(h, items) {
      var i :| 0 <= i < |items| && items[i] == x;
      assert Truthy(Str(y)) && Text(h, Str(y)) == y;
    }
    forall y <- KnownIds(h, items) | y != "" ensures y in Keys(h, items) {
      var i :| 0 <= i < |items| && items[i].Map? && Truthy(GetOr(items[i].entries, "provider_id", Null))
               && y == Strip(Text(h, GetOr(items[i].entries, "provider_id", Null)));
      assert ProviderKey(h, items[i]) == y;
    }
  }

  /** `after` has the keys of `before` where those were. */
  predicate KeepsKeys(h: Host, before: seq<Value>, after: seq<Value>) {
    |before| <= |after| && forall i :: 0 <= i < |before| ==> ProviderKey(h, after[i]) == ProviderKey(h, before[i])
  }

  lemma KeysStay(h: Host, before: seq<Value>, after: seq<Value>)
    requires KeepsKeys(h, before, after)
    ensures Keys(h, before) <= Keys(h, after)
  {
    hide ProviderKey;
    forall k <- Keys(h, before) ensures k in Keys(h, after) {
      var i :| 0 <= i < |before| && ProviderKey(h, before[i]) == k && k != "";
      assert ProviderKey(h, after[i]) == k;
    }
  }

  lemma EntriesKeepKeys(h: Host, p: Progress, id: string, plan: Plan)
    requires IsEntryOf(plan.entry, id) && ProviderKey(h, plan.entry) == id && Strip(id) == id
    ensures KeepsKeys(h, p.vectorIo, EntriesWith(id, plan, p))
    ensures forall x <- EntriesWith(id, plan, p), y | IsEntryOf(x, y) :: y == id || exists z <- p.vectorIo ::
            IsEntryOf(z, y)
  {
    hide IsEntryOf, ProviderKey, ReplaceFirst;
    var after := EntriesWith(id, plan, p);
    if id in p.known {
      forall i | 0 <= i < |p.vectorIo|
        ensures ProviderKey(h, after[i]) == ProviderKey(h, p.vectorIo[i])
                && forall y :: IsEntryOf(after[i], y) <==> IsEntryOf(p.vectorIo[i], y)
      {
        ReplaceKeepsIds(h, p.vectorIo, id, plan.entry, i);
      }
      forall x <- after, y | IsEntryOf(x, y) ensures exists z <- p.vectorIo :: IsEntryOf(z, y) {
        var i :| 0 <= i < |after| && after[i] == x;
        assert p.vectorIo[i] in p.vectorIo;
      }
    } else {
      forall x <- after, y | IsEntryOf(x, y) ensures y == id || exists z <- p.vectorIo :: IsEntryOf(z, y) {
        if x !in p.vectorIo {
          OneIdOnly(plan.entry, id, y);
        }
      }
    }
  }

  lemma OneIdOnly(x: Value, a: string, b: string)
    requires IsEntryOf(x, a) && IsEntryOf(x, b)
    ensures a == b
  {
  }

  lemma IndexedStays(h: Host, p: Progress, e: Value)
    requires Indexed(h, p) && EnrichOne(h, p, e).Ok?
    ensures Indexed(h, EnrichOne(h, p, e).value)
    ensures DeclaredId(h, e).value != "" ==> DeclaredId(h, e).value in Keys(h, EnrichOne(h, p, e).value.vectorIo)
  {
    hide EnrichOne, DeclaredId, PlanOf, BackendsWith, ModelsWith, IsEntryOf, ProviderKey, Strip, KeepsKeys, Keys;
    OneIsParts(h, p, e);
    var id, n := DeclaredId(h, e).value, EnrichOne(h, p, e).value;
    var plan := PlanOf(h, id, e).value;
    EntriesKeepKeys(h, p, id, plan);
    KeysStay(h, p.vectorIo, n.vectorIo);
    if id !in p.known {
      KeyOfMember(h, n.vectorIo, plan.entry);
    }
  }

  lemma OneHasName(h: Host, p: Progress, e: Value)
    requires EnrichOne(h, p, e).Ok?
    ensures DeclaredId(h, e).Ok?
  {
  }

  lemma EntryOfIsMap(x: Value, id: string)
    requires IsEntryOf(x, id)
    ensures x.Map?
  {
  }

  // ----- the loop as writes ------------------------------------------------

  /** What a declared provider writes: its backend, its model row, and its entry where there is one. */
  function WritesOf(h: Host, kind: Kind, e: Value): (ws: seq<Write>)
    ensures |ws| <= 1
  {
    if !Readable(h, e) then []
    else
      var id := DeclaredId(h, e).value;
      var plan := PlanOf(h, id, e).value;
      match kind
      case Keyed => if plan.backend.Some? then [Write(VsStorageName(id), plan.backend.value)] else []
      case Rows => if Embeds(e) then [ModelWrite(id, e)] else []
      case Entries => [Write(id, plan.entry)]
  }

  function ModelWrite(id: string, e: Value): Write
    requires Embeds(e) && GetOr(e.entries, "embedding_model", Null).Str?
  {
    var model, dimension := GetOr(e.entries, "embedding_model", Null).s,
      GetOr(e.entries, "embedding_dimension", Null);
    Write(VsEmbeddingName(id), EmbeddingRow(VsEmbeddingName(id), model, dimension))
  }

  /** The declaration has all the pass reads of it. */
  predicate Readable(h: Host, e: Value) {
    && DeclaredId(h, e).Ok? && PlanOf(h, DeclaredId(h, e).value, e).Ok?
    && (Embeds(e) ==> GetOr(e.entries, "embedding_model", Null).Str?)
  }

  function AllWrites(h: Host, kind: Kind, entries: seq<Value>): seq<Write> {
    if entries == [] then [] else WritesOf(h, kind, entries[0]) + AllWrites(h, kind, entries[1..])
  }

  lemma WritesAreProper(h: Host, kind: Kind, e: Value)
    ensures AllProper(kind, WritesOf(h, kind, e))
    ensures kind == Entries ==> forall w <- WritesOf(h, kind, e) :: Strip(w.name) == w.name
  {
    hide PlanOf, Strip, IsEntryOf, EmbeddingRow, VsEmbeddingName, VsStorageName;
    if Readable(h, e) {
      var id := DeclaredId(h, e).value;
      hide DeclaredId;
      match kind
      case Keyed =>
      case Rows =>
        if Embeds(e) {
          EmbeddingRowId(VsEmbeddingName(id), GetOr(e.entries, "embedding_model", Null).s,
                         GetOr(e.entries, "embedding_dimension", Null));
        }
      case Entries =>
        PlanIsProper(h, e, id);
        assert WritesOf(h, kind, e) == [Write(id, PlanOf(h, id, e).value.entry)];
    }
  }

  lemma PlanIsProper(h: Host, e: Value, id: string)
    requires DeclaredId(h, e) == Ok(id) && PlanOf(h, id, e).Ok?
    ensures Strip(id) == id && IsEntryOf(PlanOf(h, id, e).value.entry, id)
  {
    hide PlanOf, Strip, IsEntryOf, ProviderKey, PersistsIn, VsStorageName;
    StripStripped(Text(h, At(e, "id").value));
    var backend := PlanOf(h, id, e).value.backend;
    PlannedEntry(h, id, e, EMPTY, if backend.None? then EMPTY else Map(map[][VsStorageName(id) := backend.value]));
  }

  lemma {:induction false} AllWritesAreProper(h: Host, kind: Kind, entries: seq<Value>)
    ensures AllProper(kind, AllWrites(h, kind, entries))
    ensures kind == Entries ==> forall w <- AllWrites(h, kind, entries) :: Strip(w.name) == w.name
  {
    hide WritesOf, Proper, Strip, DeclaredId;
    if entries != [] {
      WritesAreProper(h, kind, entries[0]);
      AllWritesAreProper(h, kind, entries[1..]);
    }
  }

  /** One turn of the loop writes the backend and the model row of its entry. */
  lemma OneIsWrites(h: Host, p: Progress, e: Value)
    ensures EnrichOne(h, p, e).Ok?
       <==> Readable(h, e) && PutAll(Keyed, p.backends, WritesOf(h, Keyed, e)).Ok?
            && PutAll(Rows, p.models, WritesOf(h, Rows, e)).Ok?
    ensures EnrichOne(h, p, e).Ok? ==>
              var n := EnrichOne(h, p, e).value;
              && PutAll(Keyed, p.backends, WritesOf(h, Keyed, e)) == Ok(n.backends)
              && PutAll(Rows, p.models, WritesOf(h, Rows, e)) == Ok(n.models)
  {
    OneIsParts(h, p, e);
    hide EnrichOne, BackendsWith, ModelsWith, WritesOf, PutAll, DeclaredId, PlanOf;
    if DeclaredId(h, e).Ok? && PlanOf(h, DeclaredId(h, e).value, e).Ok? {
      if Readable(h, e) {
        BackendIsWrite(h, e, p.backends);
      }
      ModelIsWrite(h, e, p.models);
    }
  }

  lemma BackendIsWrite(h: Host, e: Value, v: Value)
    requires Readable(h, e)
    ensures var id := DeclaredId(h, e).value;
            PutAll(Keyed, v, WritesOf(h, Keyed, e)) == BackendsWith(id, PlanOf(h, id, e).value, v)
  {
    hide DeclaredId, PlanOf, VsStorageName;
    PutOne(Keyed, v, WritesOf(h, Keyed, e));
  }

  lemma ModelIsWrite(h: Host, e: Value, v: Value)
    requires DeclaredId(h, e).Ok? && PlanOf(h, DeclaredId(h, e).value, e).Ok?
    ensures if Readable(h, e) then PutAll(Rows, v, WritesOf(h, Rows, e)) == ModelsWith(DeclaredId(h, e).value, e, v)
            else ModelsWith(DeclaredId(h, e).value, e, v).Err?
  {
    assert e.Map?;
    hide DeclaredId, PlanOf, VsEmbeddingName, EmbeddingRow, UpsertIn;
    PutOne(Rows, v, WritesOf(h, Rows, e));
  }

  lemma PutOne(kind: Kind, v: Value, ws: seq<Write>)
    requires |ws| <= 1
    ensures PutAll(kind, v, ws) == if ws == [] then Ok(v) else Put(kind, v, ws[0])
  {
    hide Put;
  }

  /** The whole loop writes all backends and all model rows, in order. */
  lemma {:induction false} EachIsWrites(h: Host, p: Progress, entries: seq<Value>)
    ensures EnrichEach(h, p, entries).Ok?
       <==> (forall e <- entries :: Readable(h, e)) && PutAll(Keyed, p.backends, AllWrites(h, Keyed, entries)).Ok?
            && PutAll(Rows, p.models, AllWrites(h, Rows, entries)).Ok?
    ensures EnrichEach(h, p, entries).Ok? ==>
              var n := EnrichEach(h, p, entries).value;
              && PutAll(Keyed, p.backends, AllWrites(h, Keyed, entries)) == Ok(n.backends)
              && PutAll(Rows, p.models, AllWrites(h, Rows, entries)) == Ok(n.models)
    decreases entries
  {
    hide EnrichOne, Readable, WritesOf, PutAll;
    if entries == [] {
      PutOne(Keyed, p.backends, []);
      PutOne(Rows, p.models, []);
    } else {
      var e, rest := entries[0], entries[1..];
      assert forall x :: x in entries <==> x == e || x in rest;
      OneIsWrites(h, p, e);
      PutAllConcat(Keyed, p.backends, WritesOf(h, Keyed, e), AllWrites(h, Keyed, rest));
      PutAllConcat(Rows, p.models, WritesOf(h, Rows, e), AllWrites(h, Rows, rest));
      if EnrichOne(h, p, e).Ok? {
        EachIsWrites(h, EnrichOne(h, p, e).value, rest);
      }
    }
  }

  // ----- the list ----------------------------------------------------------

  /** Some declared id is blank. */
  predicate DeclaresBlank(h: Host, entries: seq<Value>) {
    exists e <- entries :: DeclaredId(h, e) == Ok("")
  }

  /** A new entry is appended where there is none of its id, so that the write is then in place. */
  lemma EntryIsHeld(h: Host, p: Progress, id: string, plan: Plan)
    requires IsEntryOf(plan.entry, id) && (id in p.known || !HasEntry(p.vectorIo, id))
    ensures Holds(Entries, List(EntriesWith(id, plan, p)), Write(id, plan.entry))
    ensures forall w: Write | Proper(Entries, w) && w.name != id && Holds(Entries, List(p.vectorIo), w) ::
              Holds(Entries, List(EntriesWith(id, plan, p)), w)
  {
    var now := Write(id, plan.entry);
    hide IsEntryOf, ReplaceFirst;
    if id in p.known {
      ReplaceTwice(p.vectorIo, id, plan.entry, plan.entry);
      forall w: Write | Proper(Entries, w) && w.name != id && Holds(Entries, List(p.vectorIo), w)
        ensures Holds(Entries, List(EntriesWith(id, plan, p)), w)
      {
        ReplacesCommute(p.vectorIo, w.name, w.value, id, plan.entry);
      }
    } else {
      NothingToReplace(p.vectorIo, id, plan.entry);
      ReplaceOfConcat(p.vectorIo, [plan.entry], id, plan.entry);
      ReplaceOfOne(plan.entry, id, plan.entry);
      forall w: Write | Proper(Entries, w) && w.name != id && Holds(Entries, List(p.vectorIo), w)
        ensures Holds(Entries, List(EntriesWith(id, plan, p)), w)
      {
        ReplaceOfConcat(p.vectorIo, [plan.entry], w.name, w.value);
        ReplaceOfOne(plan.entry, w.name, w.value);
        if IsEntryOf(plan.entry, w.name) {
          OneIdOnly(plan.entry, id, w.name);
        }
      }
    }
  }

  lemma ReplaceOfOne(x: Value, id: string, entry: Value)
    ensures ReplaceFirst([x], id, entry) == [if IsEntryOf(x, id) then entry else x]
  {
  }

  lemma {:induction false} EntriesSettle(h: Host, p: Progress, entries: seq<Value>)
    requires Indexed(h, p) && EnrichEach(h, p, entries).Ok? && (DeclaresBlank(h, entries) ==> "" in p.known)
    ensures var n := EnrichEach(h, p, entries).value;
            && Indexed(h, n) && Settled(Entries, List(n.vectorIo), AllWrites(h, Entries, entries))
            && (forall y <- p.known :: y in n.known)
            && (forall e <- entries :: DeclaredId(h, e).Ok? && DeclaredId(h, e).value in n.known)
            && forall w: Write | Proper(Entries, w) && Holds(Entries, List(p.vectorIo), w)
                 && !Named(AllWrites(h, Entries, entries), w.name) :: Holds(Entries, List(n.vectorIo), w)
    decreases entries
  {
    hide EnrichOne, DeclaredId, PlanOf, Indexed, Proper, Holds, Named, Readable, EntriesWith, BackendsWith, ModelsWith,
      IsEntryOf, Strip, ProviderKey, HasEntry;
    if entries != [] {
      var e, rest := entries[0], entries[1..];
      var next := EnrichOne(h, p, e).value;
      OneIsParts(h, p, e);
      OneIsWrites(h, p, e);
      IndexedStays(h, p, e);
      var id := DeclaredId(h, e).value;
      var w := Write(id, PlanOf(h, id, e).value.entry);
      assert WritesOf(h, Entries, e) == [w];
      assert AllWrites(h, Entries, entries) == [w] + AllWrites(h, Entries, rest);
      NamedCons(w, AllWrites(h, Entries, rest));
      NewOrKnown(h, p, id);
      assert forall x :: x in entries <==> x == e || x in rest;
      EntryIsHeld(h, p, id, PlanOf(h, id, e).value);
      EntriesSettle(h, next, rest);
      ProperEntry(h, e, w);
    }
  }

  lemma ProperEntry(h: Host, e: Value, w: Write)
    requires WritesOf(h, Entries, e) == [w]
    ensures Proper(Entries, w) && IsEntryOf(w.value, w.name)
  {
    hide WritesOf, IsEntryOf;
    WritesAreProper(h, Entries, e);
    assert w in [w];
  }

  lemma NamedCons(w: Write, ws: seq<Write>)
    ensures forall name :: Named([w] + ws, name) <==> w.name == name || Named(ws, name)
    ensures ([w] + ws)[1..] == ws
  {
    assert forall x :: x in [w] + ws <==> x == w || x in ws;
  }

  /** An id that is not known has no entry. */
  lemma NewOrKnown(h: Host, p: Progress, id: string)
    requires Indexed(h, p) && Strip(id) == id && (id == "" ==> id in p.known)
    ensures id in p.known || !HasEntry(p.vectorIo, id)
  {
    hide IsEntryOf, Strip, Keys;
  }

  lemma {:induction false} SettledDeduped(h: Host, items: seq<Value>, ws: seq<Write>)
    requires Settled(Entries, List(items), ws) && forall w <- ws :: Strip(w.name) == w.name
    ensures Settled(Entries, List(DedupeList(h, items)), ws)
    decreases ws
  {
    hide Named, Strip, ReplaceFirst, DedupeFrom;
    if ws != [] {
      assert ws[0] in ws && forall w <- ws[1..] :: w in ws;
      SettledDeduped(h, items, ws[1..]);
      if !Named(ws[1..], ws[0].name) {
        DedupeKeepsReplaced(h, items, {}, ws[0].name, ws[0].value);
      }
    }
  }

  // ----- the second run ----------------------------------------------------

  /** Entries that deduplication will drop, as their ids are there already. */
  predicate Dropped(h: Host, items: seq<Value>, keys: set<string>) {
    forall x <- items :: x.Map? && ProviderKey(h, x) != "" && ProviderKey(h, x) in keys
  }

  lemma DroppedReplaced(h: Host, items: seq<Value>, keys: set<string>, id: string, entry: Value)
    requires Dropped(h, items, keys) && IsEntryOf(entry, id) && ProviderKey(h, entry) == id && Strip(id) == id
    ensures Dropped(h, ReplaceFirst(items, id, entry), keys)
  {
    EntryOfIsMap(entry, id);
    hide ReplaceFirst, IsEntryOf, ProviderKey, Strip;
    var r := ReplaceFirst(items, id, entry);
    forall x <- r ensures x.Map? && ProviderKey(h, x) != "" && ProviderKey(h, x) in keys {
      var i :| 0 <= i < |r| && r[i] == x;
      assert items[i] in items;
      ReplaceKeepsIds(h, items, id, entry, i);
      ReplacedOrSame(items, id, entry, i);
    }
  }

  lemma {:induction false} ReplacedOrSame(items: seq<Value>, id: string, entry: Value, i: nat)
    requires i < |items|
    ensures ReplaceFirst(items, id, entry)[i] == entry || ReplaceFirst(items, id, entry)[i] == items[i]
  {
    hide IsEntryOf;
    if i > 0 && !IsEntryOf(items[0], id) {
      ReplacedOrSame(items[1..], id, entry, i - 1);
    }
  }

  /** The id of every declaration is known if blank, and among the keys if not. */
  predicate IdsAreThere(h: Host, entries: seq<Value>, known: set<string>, keys: set<string>) {
    forall e <- entries :: DeclaredId(h, e).Ok? &&
      var id := DeclaredId(h, e).value; if id == "" then id in known else id in keys
  }

  /** A run over a list that has the declared ids replaces in it, and adds only what will be dropped. */
  lemma {:induction false} EntriesReplay(h: Host, q: Progress, entries: seq<Value>, list: seq<Value>,
                                         added: seq<Value>, keys: set<string>)
    returns (list': seq<Value>, added': seq<Value>)
    requires Indexed(h, q) && q.vectorIo == list + added && EnrichEach(h, q, entries).Ok?
    requires Dropped(h, added, keys) && IdsAreThere(h, entries, q.known, keys)
    ensures EnrichEach(h, q, entries).value.vectorIo == list' + added' && Dropped(h, added', keys)
    ensures PutAll(Entries, List(list), AllWrites(h, Entries, entries)) == Ok(List(list'))
    decreases entries
  {
    hide EnrichOne, Indexed, DeclaredId, Readable, WritesOf, Dropped;
    list', added' := list, added;
    if entries != [] {
      var e, rest := entries[0], entries[1..];
      assert e in entries && forall x <- rest :: x in entries;
      var list1, added1 := OneReplays(h, q, e, list, added, keys);
      IndexedStays(h, q, e);
      OneIsParts(h, q, e);
      list', added' := EntriesReplay(h, EnrichOne(h, q, e).value, rest, list1, added1, keys);
      PutAllConcat(Entries, List(list), WritesOf(h, Entries, e), AllWrites(h, Entries, rest));
    }
  }

  lemma OneReplays(h: Host, q: Progress, e: Value, list: seq<Value>, added: seq<Value>, keys: set<string>)
    returns (list': seq<Value>, added': seq<Value>)
    requires Indexed(h, q) && q.vectorIo == list + added && EnrichOne(h, q, e).Ok?
    requires Dropped(h, added, keys) && IdsAreThere(h, [e], q.known, keys)
    ensures EnrichOne(h, q, e).value.vectorIo == list' + added' && Dropped(h, added', keys)
    ensures PutAll(Entries, List(list), WritesOf(h, Entries, e)) == Ok(List(list'))
  {
    hide PlanOf, BackendsWith, ModelsWith, IsEntryOf, ProviderKey, Strip, Indexed, EntriesWith, DeclaredId;
    OneIsParts(h, q, e);
    OneIsWrites(h, q, e);
    assert e in [e];
    var id := DeclaredId(h, e).value;
    var plan := PlanOf(h, id, e).value;
    assert WritesOf(h, Entries, e) == [Write(id, plan.entry)];
    EntryOfIsMap(plan.entry, id);
    NewOrKnown(h, q, id);
    hide *;
    list', added' := EntryReplays(h, q, id, plan, list, added, keys);
    PutOne(Entries, List(list), [Write(id, plan.entry)]);
  }

  lemma EntryReplays(h: Host, q: Progress, id: string, plan: Plan, list: seq<Value>, added: seq<Value>,
                     keys: set<string>)
    returns (list': seq<Value>, added': seq<Value>)
    requires q.vectorIo == list + added && Dropped(h, added, keys)
    requires IsEntryOf(plan.entry, id) && plan.entry.Map? && ProviderKey(h, plan.entry) == id && Strip(id) == id
    requires id in q.known || (id != "" && id in keys && !HasEntry(q.vectorIo, id))
    ensures EntriesWith(id, plan, q) == list' + added' && Dropped(h, added', keys)
    ensures Put(Entries, List(list), Write(id, plan.entry)) == Ok(List(list'))
  {
    hide IsEntryOf, ProviderKey, Strip, ReplaceFirst, HasEntry;
    list' := ReplaceFirst(list, id, plan.entry);
    HasEntryOfConcat(list, added, id);
    if id in q.known {
      ReplaceOfConcat(list, added, id, plan.entry);
      DroppedReplaced(h, added, keys, id, plan.entry);
      added' := if HasEntry(list, id) then added else ReplaceFirst(added, id, plan.entry);
    } else {
      NoEntry(list, id, plan.entry);
      added' := added + [plan.entry];
      assert (list + added) + [plan.entry] == list + added';
    }
  }

  lemma HasEntryOfConcat(a: seq<Value>, b: seq<Value>, id: string)
    ensures HasEntry(a, id) ==> HasEntry(a + b, id)
  {
    hide IsEntryOf;
    assert forall x <- a :: x in a + b;
  }

  lemma NoEntry(items: seq<Value>, id: string, entry: Value)
    requires !HasEntry(items, id)
    ensures ReplaceFirst(items, id, entry) == items
  {
    NothingToReplace(items, id, entry);
  }

  lemma {:induction false} DedupeDropsAdded(h: Host, items: seq<Value>, added: seq<Value>, seen: set<string>)
    requires Unique(h, items) && Keys(h, items) !! seen
    requires Dropped(h, added, Keys(h, items) + seen)
    ensures DedupeFrom(h, items + added, seen) == items
    decreases |items| + |added|
  {
    hide ProviderKey;
    if items == [] {
      assert items + added == added;
      if added != [] {
        assert added[0] in added && forall x <- added[1..] :: x in added;
        assert [] + added[1..] == added[1..];
        DedupeDropsAdded(h, items, added[1..], seen);
      }
    } else {
      var key, rest := ProviderKey(h, items[0]), items[1..];
      assert items == [items[0]] + rest && (items + added)[1..] == rest + added;
      KeysOfCons(h, items[0], rest);
      assert forall i :: 0 <= i < |rest| ==> rest[i] == items[i + 1];
      DedupeDropsAdded(h, rest, added, if key == "" then seen else seen + {key});
    }
  }

  // ----- blank ids ---------------------------------------------------------

  /** The entry makes the blank id a known one: its id is a text of blanks, say, but not the empty text. */
  predicate KnowsBlank(h: Host, x: Value) {
    x.Map? && var id := GetOr(x.entries, "provider_id", Null); Truthy(id) && Strip(Text(h, id)) == ""
  }

  lemma BlankIsKnown(h: Host, items: seq<Value>)
    ensures "" in KnownIds(h, items) <==> exists x <- items :: KnowsBlank(h, x)
  {
    hide Strip, Text, Truthy;
    if "" in KnownIds(h, items) {
      var i :| 0 <= i < |items| && items[i].Map? && Truthy(GetOr(items[i].entries, "provider_id", Null))
               && Strip(Text(h, GetOr(items[i].entries, "provider_id", Null))) == "";
      assert items[i] in items && KnowsBlank(h, items[i]);
    }
    if x :| x in items && KnowsBlank(h, x) {
      var i :| 0 <= i < |items| && items[i] == x;
      assert Strip(Text(h, GetOr(items[i].entries, "provider_id", Null))) == "";
    }
  }

  lemma {:induction false} DedupeKeepsBlank(h: Host, items: seq<Value>, seen: set<string>, x: Value)
    requires KnowsBlank(h, x)
    ensures x in DedupeFrom(h, items, seen) <==> x in items
    decreases items
  {
    if items != [] {
      assert ProviderKey(h, x) == "" && x.Map?;
      hide KnowsBlank, ProviderKey;
      var key := ProviderKey(h, items[0]);
      assert x in items <==> x == items[0] || x in items[1..];
      DedupeKeepsBlank(h, items[1..], seen, x);
      DedupeKeepsBlank(h, items[1..], if key == "" then seen else seen + {key}, x);
    }
  }

  lemma DedupeKnowsBlank(h: Host, items: seq<Value>)
    ensures "" in KnownIds(h, DedupeList(h, items)) <==> "" in KnownIds(h, items)
  {
    hide KnowsBlank, DedupeFrom, KnownIds;
    BlankIsKnown(h, items);
    BlankIsKnown(h, DedupeList(h, items));
    forall x | KnowsBlank(h, x) ensures x in DedupeList(h, items) <==> x in items {
      DedupeKeepsBlank(h, items, {}, x);
    }
  }

  lemma PlannedIsNotBlank(h: Host, x: Value, id: string)
    requires IsEntryOf(x, id) && Strip(id) == id
    ensures !KnowsBlank(h, x)
  {
  }

  /** No entry the loop puts there makes the blank id known, and none that does is taken away. */
  lemma EntriesKnowBlank(h: Host, p: Progress, id: string, plan: Plan)
    requires IsEntryOf(plan.entry, id) && Strip(id) == id
    ensures "" in KnownIds(h, EntriesWith(id, plan, p)) <==> "" in KnownIds(h, p.vectorIo)
  {
    hide KnowsBlank, IsEntryOf, Strip, ReplaceFirst, KnownIds;
    var before, after := p.vectorIo, EntriesWith(id, plan, p);
    BlankIsKnown(h, before);
    BlankIsKnown(h, after);
    PlannedIsNotBlank(h, plan.entry, id);
    if id in p.known {
      forall x | KnowsBlank(h, x) ensures x in before <==> x in after {
        ReplaceKeepsOthers(h, before, id, plan.entry, x);
      }
    }
  }

  lemma {:induction false} ReplaceKeepsOthers(h: Host, items: seq<Value>, id: string, entry: Value, x: Value)
    requires KnowsBlank(h, x) && IsEntryOf(entry, id) && Strip(id) == id
    ensures x in items <==> x in ReplaceFirst(items, id, entry)
  {
    hide KnowsBlank, IsEntryOf, Strip;
    if items != [] {
      PlannedIsNotBlank(h, entry, id);
      assert x in items <==> x == items[0] || x in items[1..];
      if IsEntryOf(items[0], id) {
        PlannedIsNotBlank(h, items[0], id);
      } else {
        ReplaceKeepsOthers(h, items[1..], id, entry, x);
      }
    }
  }

  function Blanks(h: Host, items: seq<Value>): nat {
    if items == [] then 0
    else (if items[0].Map? && ProviderKey(h, items[0]) == "" then 1 else 0) + Blanks(h, items[1..])
  }

  lemma {:induction false} DedupeKeepsBlanks(h: Host, items: seq<Value>, seen: set<string>)
    ensures Blanks(h, DedupeFrom(h, items, seen)) == Blanks(h, items)
    decreases items
  {
    hide ProviderKey;
    if items != [] {
      var key := ProviderKey(h, items[0]);
      DedupeKeepsBlanks(h, items[1..], if key == "" || key in seen then seen else seen + {key});
      if items[0].Map? && !(key != "" && key in seen) {
        var rest := DedupeFrom(h, items[1..], if key == "" then seen else seen + {key});
        assert ([items[0]] + rest)[1..] == rest;
      } else {
        DedupeKeepsBlanks(h, items[1..], seen);
      }
    }
  }

  lemma {:induction false} BlanksOfSnoc(h: Host, items: seq<Value>, x: Value)
    ensures Blanks(h, items + [x]) == Blanks(h, items) + if x.Map? && ProviderKey(h, x) == "" then 1 else 0
  {
    hide ProviderKey;
    if items != [] {
      assert (items + [x])[1..] == items[1..] + [x];
      BlanksOfSnoc(h, items[1..], x);
    } else {
      assert ([] + [x])[1..] == [];
    }
  }

  lemma {:induction false} ReplaceKeepsBlanks(h: Host, items: seq<Value>, id: string, entry: Value)
    requires IsEntryOf(entry, id) && Strip(id) == id
    ensures Blanks(h, ReplaceFirst(items, id, entry)) == Blanks(h, items)
  {
    hide ProviderKey, IsEntryOf, Strip;
    if items != [] {
      IdIsKey(h, items[0], id);
      IdIsKey(h, entry, id);
      EntryOfIsMap(entry, id);
      if IsEntryOf(items[0], id) {
        EntryOfIsMap(items[0], id);
        assert ([entry] + items[1..])[1..] == items[1..];
      } else {
        ReplaceKeepsBlanks(h, items[1..], id, entry);
        assert ([items[0]] + ReplaceFirst(items[1..], id, entry))[1..] == ReplaceFirst(items[1..], id, entry);
      }
    }
  }

  /** A run adds an entry without an id exactly if it comes on a blank declared id and does not know it yet. */
  lemma {:induction false} RunAddsBlank(h: Host, p: Progress, entries: seq<Value>)
    requires EnrichEach(h, p, entries).Ok?
    ensures var n := EnrichEach(h, p, entries).value;
            && ("" in KnownIds(h, n.vectorIo) <==> "" in KnownIds(h, p.vectorIo))
            && Blanks(h, n.vectorIo) == Blanks(h, p.vectorIo)
                                        + if DeclaresBlank(h, entries) && "" !in p.known then 1 else 0
    decreases entries
  {
    hide EnrichOne, DeclaredId, PlanOf, BackendsWith, ModelsWith, IsEntryOf, Strip, ProviderKey, KnownIds, Blanks,
      ReplaceFirst;
    if entries != [] {
      var e, rest := entries[0], entries[1..];
      assert forall x :: x in entries <==> x == e || x in rest;
      OneIsParts(h, p, e);
      var id := DeclaredId(h, e).value;
      var plan := PlanOf(h, id, e).value;
      EntriesKnowBlank(h, p, id, plan);
      EntryOfIsMap(plan.entry, id);
      if id in p.known {
        ReplaceKeepsBlanks(h, p.vectorIo, id, plan.entry);
      } else {
        BlanksOfSnoc(h, p.vectorIo, plan.entry);
      }
      RunAddsBlank(h, EnrichOne(h, p, e).value, rest);
    }
  }

  // ----- the whole pass ----------------------------------------------------

  lemma BeginReads(h: Host, root: Section, backends: Value, items: seq<Value>, models: Value)
    requires Sub(root, "storage", "backends") == Ok(Some(backends))
    requires Sub(root, "providers", "vector_io") == Ok(Some(List(items)))
    requires Sub(root, "registered_resources", "models") == Ok(Some(models))
    ensures Begin(h, root) == Ok(Progress(backends, items, KnownIds(h, items), models))
  {
    hide KnownIds;
  }

  lemma PutAgain(root: Section, outer: string, inner: string, v: Value)
    requires Sub(root, outer, inner) == Ok(Some(v))
    ensures PutSub(root, outer, inner, v) == Ok(root)
  {
    var m := root[outer].entries;
    assert m[inner := v] == m;
    assert root[outer := Map(m)] == root;
  }

  lemma PutBack(root: Section, outer: string, inner: string, v: Value, x: Value)
    requires Sub(root, outer, inner) == Ok(Some(v))
    ensures PutSub(root, outer, inner, x).Ok?
    ensures var r := PutSub(root, outer, inner, x).value;
            && Sub(r, outer, inner) == Ok(Some(x)) && PutSub(r, outer, inner, v) == Ok(root)
            && forall k | k != outer :: (k in r <==> k in root) && (k in r ==> r[k] == root[k])
  {
    var m := root[outer].entries;
    assert m[inner := x][inner := v] == m;
    assert root[outer := Map(m[inner := x])][outer := Map(m)] == root;
  }

  lemma DefaultsAgain(h: Host, a: Section, b: Section, designated: Option<Value>)
    requires WithDefaults(h, a, designated).Ok?
    requires designated.Some? ==>
               GetOr(b, "vector_stores", Null) == GetOr(WithDefaults(h, a, designated).value, "vector_stores", Null)
    ensures WithDefaults(h, b, designated) == Ok(b)
  {
    hide DeclaredId, VsEmbeddingName;
    if designated.Some? {
      var id := DeclaredId(h, designated.value).value;
      var m := b["vector_stores"].entries;
      assert m["default_provider_id" := Str(id)] == m;
      var d := Map(map["provider_id" := Str("sentence-transformers"), "model_id" := Str(VsEmbeddingName(id))]);
      assert Truthy(GetOr(designated.value.entries, "embedding_model", Null)) ==>
        m["default_embedding_model" := d] == m;
      assert b["vector_stores" := Map(m)] == b;
    }
  }

  /** Storing a repeated run and deduplicating gives back the config it started from. */
  lemma ReplayedIsStored(h: Host, r: Section, s: Progress, added: seq<Value>, known: set<string>,
                         designated: Option<Value>)
    requires Sub(r, "storage", "backends") == Ok(Some(s.backends))
    requires Sub(r, "providers", "vector_io") == Ok(Some(List(s.vectorIo)))
    requires Sub(r, "registered_resources", "models") == Ok(Some(s.models))
    requires Unique(h, s.vectorIo) && Dropped(h, added, Keys(h, s.vectorIo))
    requires forall b: Section | GetOr(b, "vector_stores", Null) == GetOr(r, "vector_stores", Null) ::
               WithDefaults(h, b, designated) == Ok(b)
    ensures var q := Progress(s.backends, s.vectorIo + added, known, s.models);
            && Store(r, q).Ok? && WithDefaults(h, Store(r, q).value, designated).Ok?
            && Dedupe(h, WithDefaults(h, Store(r, q).value, designated).value) == Ok(r)
  {
    hide Sub, PutSub, WithDefaults, Unique, Keys, ProviderKey, Dropped;
    PutAgain(r, "storage", "backends", s.backends);
    PutBack(r, "providers", "vector_io", List(s.vectorIo), List(s.vectorIo + added));
    var r2 := PutSub(r, "providers", "vector_io", List(s.vectorIo + added)).value;
    SubElsewhere(r, r2, "registered_resources", "models");
    PutAgain(r2, "registered_resources", "models", s.models);
    assert Keys(h, s.vectorIo) + {} == Keys(h, s.vectorIo);
    DedupeDropsAdded(h, s.vectorIo, added, {});
  }

  /** The pass, cut into its stages. */
  lemma PassIsParts(h: Host, section: Value, entries: seq<Value>, root: Section, p: Progress, designated: Option<Value>)
    requires Declares(section, entries) && Begin(h, root) == Ok(p) && EnrichEach(h, p, entries).Ok?
    requires Designated(h, entries, GetOr(section.entries, "default_provider", Null)) == Ok(designated)
    requires Store(root, EnrichEach(h, p, entries).value).Ok?
    requires WithDefaults(h, Store(root, EnrichEach(h, p, entries).value).value, designated).Ok?
    ensures VectorStore(h, section, root)
         == Dedupe(h, WithDefaults(h, Store(root, EnrichEach(h, p, entries).value).value, designated).value)
  {
    hide Begin, EnrichEach, Designated, Store, WithDefaults, Dedupe;
  }

  /** After a run, writing everything once more changes nothing, in the deduplicated list included. */
  lemma RunSettles(h: Host, start: Progress, entries: seq<Value>)
    requires Indexed(h, start) && EnrichEach(h, start, entries).Ok?
    requires DeclaresBlank(h, entries) ==> "" in start.known
    ensures var n := EnrichEach(h, start, entries).value; var list := List(DedupeList(h, n.vectorIo));
            && PutAll(Keyed, n.backends, AllWrites(h, Keyed, entries)) == Ok(n.backends)
            && PutAll(Rows, n.models, AllWrites(h, Rows, entries)) == Ok(n.models)
            && PutAll(Entries, list, AllWrites(h, Entries, entries)) == Ok(list)
  {
    hide EnrichEach, Indexed, DedupeFrom, AllWrites, Settled, PutAll, DeclaresBlank, AllProper;
    var n := EnrichEach(h, start, entries).value;
    AllWritesAreProper(h, Keyed, entries);
    AllWritesAreProper(h, Rows, entries);
    AllWritesAreProper(h, Entries, entries);
    EachIsWrites(h, start, entries);
    WritesSettle(Keyed, start.backends, AllWrites(h, Keyed, entries));
    WritesSettle(Rows, start.models, AllWrites(h, Rows, entries));
    EntriesSettle(h, start, entries);
    SettledDeduped(h, n.vectorIo, AllWrites(h, Entries, entries));
    SettledStays(Keyed, n.backends, AllWrites(h, Keyed, entries));
    SettledStays(Rows, n.models, AllWrites(h, Rows, entries));
    SettledStays(Entries, List(DedupeList(h, n.vectorIo)), AllWrites(h, Entries, entries));
  }

  lemma IdsStayThere(h: Host, start: Progress, entries: seq<Value>)
    requires Indexed(h, start) && EnrichEach(h, start, entries).Ok?
    requires DeclaresBlank(h, entries) ==> "" in start.known && "" in KnownIds(h, start.vectorIo)
    ensures var list := DedupeList(h, EnrichEach(h, start, entries).value.vectorIo);
            IdsAreThere(h, entries, KnownIds(h, list), Keys(h, list))
  {
    hide EnrichEach, KnownIds, Keys, DedupeList, DeclaredId, Unique, Settled, Named, Holds, Proper;
    EntriesSettle(h, start, entries);
    RunAddsBlank(h, start, entries);
    var n := EnrichEach(h, start, entries).value;
    DedupeLaws(h, n.vectorIo);
    DedupeKnowsBlank(h, n.vectorIo);
  }

  /** What a run leaves behind, its list deduplicated, is what another run over it ends with. */
  lemma RunAgain(h: Host, start: Progress, entries: seq<Value>) returns (added: seq<Value>, known: set<string>)
    requires Indexed(h, start) && EnrichEach(h, start, entries).Ok?
    requires DeclaresBlank(h, entries) ==> "" in start.known && "" in KnownIds(h, start.vectorIo)
    ensures var n := EnrichEach(h, start, entries).value; var list := DedupeList(h, n.vectorIo);
            && EnrichEach(h, Progress(n.backends, list, KnownIds(h, list), n.models), entries)
               == Ok(Progress(n.backends, list + added, known, n.models))
            && Dropped(h, added, Keys(h, list))
  {
    var n := EnrichEach(h, start, entries).value;
    var list := DedupeList(h, n.vectorIo);
    var s := Progress(n.backends, list, KnownIds(h, list), n.models);
    StartIsIndexed(h, list, n.backends, n.models);
    assert Dropped(h, [], Keys(h, list)) && list + [] == list;
    hide EnrichEach, Indexed, KnownIds, DedupeList, AllWrites, PutAll, Dropped, DeclaresBlank, IdsAreThere, Keys,
      Readable;
    RunSettles(h, start, entries);
    EachIsWrites(h, start, entries);
    EachIsWrites(h, s, entries);
    IdsStayThere(h, start, entries);
    var list';
    list', added := EntriesReplay(h, s, entries, list, [], Keys(h, list));
    known := EnrichEach(h, s, entries).value.known;
  }

  /** A config that shows what a run has left behind comes out of the pass as it went in. */
  lemma SecondRun(h: Host, section: Value, entries: seq<Value>, start: Progress, r: Section, designated: Option<Value>)
    requires Declares(section, entries) && Indexed(h, start) && EnrichEach(h, start, entries).Ok?
    requires DeclaresBlank(h, entries) ==> "" in start.known && "" in KnownIds(h, start.vectorIo)
    requires Designated(h, entries, GetOr(section.entries, "default_provider", Null)) == Ok(designated)
    requires var n := EnrichEach(h, start, entries).value;
             && Sub(r, "storage", "backends") == Ok(Some(n.backends))
             && Sub(r, "providers", "vector_io") == Ok(Some(List(DedupeList(h, n.vectorIo))))
             && Sub(r, "registered_resources", "models") == Ok(Some(n.models))
    requires forall b: Section | GetOr(b, "vector_stores", Null) == GetOr(r, "vector_stores", Null) ::
               WithDefaults(h, b, designated) == Ok(b)
    ensures VectorStore(h, section, r) == Ok(r)
  {
    hide VectorStore, Begin, EnrichEach, Store, WithDefaults, Dedupe, Sub, Designated, DeclaredId, Unique, Keys,
      KnownIds, DedupeList, Dropped, Declares, DeclaresBlank, Indexed;
    var n := EnrichEach(h, start, entries).value;
    var list := DedupeList(h, n.vectorIo);
    var s := Progress(n.backends, list, KnownIds(h, list), n.models);
    var added, known := RunAgain(h, start, entries);
    BeginReads(h, r, n.backends, list, n.models);
    DedupeLaws(h, n.vectorIo);
    ReplayedIsStored(h, r, s, added, known, designated);
    PassIsParts(h, section, entries, r, s, designated);
  }

  /** What a successful pass went through. */
  lemma PassRan(h: Host, section: Value, entries: seq<Value>, root: Section)
    returns (start: Progress, designated: Option<Value>)
    requires Declares(section, entries) && VectorStore(h, section, root).Ok?
    ensures Begin(h, root) == Ok(start) && start.vectorIo == Providers(root)
    ensures start.known == KnownIds(h, start.vectorIo) && Indexed(h, start) && EnrichEach(h, start, entries).Ok?
    ensures Designated(h, entries, GetOr(section.entries, "default_provider", Null)) == Ok(designated)
    ensures var n, r := EnrichEach(h, start, entries).value, VectorStore(h, section, root).value;
            && Store(root, n).Ok? && WithDefaults(h, Store(root, n).value, designated).Ok?
            && Sub(r, "storage", "backends") == Ok(Some(n.backends))
            && Sub(r, "providers", "vector_io") == Ok(Some(List(DedupeList(h, n.vectorIo))))
            && Sub(r, "registered_resources", "models") == Ok(Some(n.models))
            && GetOr(r, "vector_stores", Null)
               == GetOr(WithDefaults(h, Store(root, n).value, designated).value, "vector_stores", Null)
  {
    hide EnrichEach, Store, WithDefaults, Dedupe, Sub, Designated, Keys, KnownIds, DedupeFrom, Indexed;
    start := Begin(h, root).value;
    BeginReadsList(h, root);
    StartIsIndexed(h, start.vectorIo, start.backends, start.models);
    var n := EnrichEach(h, start, entries).value;
    designated := Designated(h, entries, GetOr(section.entries, "default_provider", Null)).value;
    FinalSections(h, root, n, designated);
  }

  /** A blank id that is not known gets one more entry from every run. */
  lemma BlankIsAddedAgain(h: Host, section: Value, entries: seq<Value>, root: Section)
    requires Declares(section, entries) && VectorStore(h, section, root).Ok?
    requires DeclaresBlank(h, entries) && "" !in KnownIds(h, Providers(root))
    ensures VectorStore(h, section, VectorStore(h, section, root).value) != VectorStore(h, section, root)
  {
    hide VectorStore, Begin, EnrichEach, Store, WithDefaults, Designated, Declares, KnownIds, Indexed, DedupeFrom,
      DeclaresBlank, Blanks;
    var r := VectorStore(h, section, root).value;
    var start, designated := PassRan(h, section, entries, root);
    var n := EnrichEach(h, start, entries).value;
    RunAddsBlank(h, start, entries);
    DedupeKnowsBlank(h, n.vectorIo);
    if VectorStore(h, section, r) == Ok(r) {
      var again, _ := PassRan(h, section, entries, r);
      var n' := EnrichEach(h, again, entries).value;
      RunAddsBlank(h, again, entries);
      DedupeKeepsBlanks(h, n.vectorIo, {});
      DedupeKeepsBlanks(h, n'.vectorIo, {});
    }
  }

  /**
   * Applied to its own result, the `vector_store` pass changes nothing exactly if no declared id is blank or the
   * config it started from knew the blank id. Repeated ids do no harm: the last of them wins both times.
   */
  lemma VectorStoreTwiceExactly(h: Host, section: Value, entries: seq<Value>, root: Section)
    requires Declares(section, entries) && VectorStore(h, section, root).Ok?
    ensures VectorStore(h, section, VectorStore(h, section, root).value) == VectorStore(h, section, root)
       <==> (DeclaresBlank(h, entries) ==> "" in KnownIds(h, Providers(root)))
  {
    hide VectorStore, Begin, EnrichEach, Store, WithDefaults, Designated, Declares, KnownIds, Indexed, DedupeList,
      DeclaresBlank, Sub;
    if DeclaresBlank(h, entries) && "" !in KnownIds(h, Providers(root)) {
      BlankIsAddedAgain(h, section, entries, root);
    } else {
      var start, designated := PassRan(h, section, entries, root);
      var n, r := EnrichEach(h, start, entries).value, VectorStore(h, section, root).value;
      forall b: Section | GetOr(b, "vector_stores", Null) == GetOr(r, "vector_stores", Null)
        ensures WithDefaults(h, b, designated) == Ok(b)
      {
        DefaultsAgain(h, Store(root, n).value, b, designated);
      }
      SecondRun(h, section, entries, start, r, designated);
    }
  }
}
