/** The `providers.vector_io` list: one entry per provider id. */
module VectorIo {
  import opened PyText
  import opened Yaml

  /** The stripped provider id; empty when the entry has none. */
  function ProviderKey(h: Host, entry: Value): string {
    var id := if entry.Map? then GetOr(entry.entries, "provider_id", Null) else Null;
    if id == Null then "" else Strip(Text(h, id))
  }

  /** Drop what is not a mapping, and every entry whose key was seen before. */
  function DedupeFrom(h: Host, items: seq<Value>, seen: set<string>): seq<Value>
    decreases items
  {
    if items == [] then []
    else
      var key := ProviderKey(h, items[0]);
      if !items[0].Map? || (key != "" && key in seen) then DedupeFrom(h, items[1..], seen)
      else [items[0]] + DedupeFrom(h, items[1..], if key == "" then seen else seen + {key})
  }

  function DedupeList(h: Host, items: seq<Value>): seq<Value> {
    DedupeFrom(h, items, {})
  }

  method DedupeVectorIoList(h: Host, entries: seq<Value>) returns (out: seq<Value>)
    ensures out == DedupeList(h, entries)
  {
    hide DedupeFrom, ProviderKey;
    var seen: set<string> := {};
    out := [];
    assert entries[0..] == entries;
    for i := 0 to |entries|
      invariant out + DedupeFrom(h, entries[i..], seen) == DedupeList(h, entries)
    {
      var item := entries[i];
      DedupeStep(h, entries, i, seen);
      if item.Map? {
        var key := ProviderKey(h, item);
        if key == "" {
          out := out + [item];
        } else if key !in seen {
          seen := seen + {key};
          out := out + [item];
        }
      }
    }
    DedupeNothing(h, seen);
    assert entries[|entries|..] == [] && out + [] == out;
  }

  lemma DedupeStep(h: Host, items: seq<Value>, i: nat, seen: set<string>)
    requires i < |items|
    ensures var key := ProviderKey(h, items[i]);
            DedupeFrom(h, items[i..], seen)
            == if !items[i].Map? || (key != "" && key in seen) then DedupeFrom(h, items[i + 1..], seen)
               else [items[i]] + DedupeFrom(h, items[i + 1..], if key == "" then seen else seen + {key})
  {
    hide ProviderKey;
    assert items[i..][1..] == items[i + 1..];
  }

  lemma DedupeNothing(h: Host, seen: set<string>)
    ensures DedupeFrom(h, [], seen) == []
  {
  }

  function Keys(h: Host, items: seq<Value>): set<string> {
    set i | 0 <= i < |items| && ProviderKey(h, items[i]) != "" :: ProviderKey(h, items[i])
  }

  /** Only mappings, and no two with the same non-blank key. */
  predicate Unique(h: Host, items: seq<Value>) {
    && (forall i :: 0 <= i < |items| ==> items[i].Map?)
    && (forall i, j :: 0 <= i < j < |items| && ProviderKey(h, items[i]) != "" ==>
          ProviderKey(h, items[i]) != ProviderKey(h, items[j]))
  }

  lemma {:induction false} DedupedIsUnique(h: Host, items: seq<Value>, seen: set<string>)
    ensures var r := DedupeFrom(h, items, seen);
            Unique(h, r) && Keys(h, r) !! seen && Keys(h, r) + seen == Keys(h, items) + seen
    decreases items
  {
    hide ProviderKey;
    if items != [] {
      var item, rest := items[0], items[1..];
      var key := ProviderKey(h, item);
      assert items == [item] + rest;
      KeysOfCons(h, item, rest);
      OnlyMapsHaveKeys(h, item);
      if !item.Map? || (key != "" && key in seen) {
        DedupedIsUnique(h, rest, seen);
      } else {
        var more := if key == "" then seen else seen + {key};
        DedupedIsUnique(h, rest, more);
        KeysOfCons(h, item, DedupeFrom(h, rest, more));
        UniqueCons(h, item, DedupeFrom(h, rest, more));
      }
    }
  }

  lemma OnlyMapsHaveKeys(h: Host, item: Value)
    ensures !item.Map? ==> ProviderKey(h, item) == ""
  {
  }

  lemma KeysOfCons(h: Host, item: Value, rest: seq<Value>)
    ensures Keys(h, [item] + rest)
         == (if ProviderKey(h, item) == "" then {} else {ProviderKey(h, item)}) + Keys(h, rest)
  {
    hide ProviderKey;
    var whole := [item] + rest;
    forall k | k in Keys(h, whole) ensures k == ProviderKey(h, item) || k in Keys(h, rest) {
      var i :| 0 <= i < |whole| && ProviderKey(h, whole[i]) == k && k != "";
      assert i == 0 || whole[i] == rest[i - 1];
    }
    forall k | k in Keys(h, rest) ensures k in Keys(h, whole) {
      var i :| 0 <= i < |rest| && ProviderKey(h, rest[i]) == k && k != "";
      assert whole[i + 1] == rest[i];
    }
    assert whole[0] == item;
  }

  lemma UniqueCons(h: Host, item: Value, rest: seq<Value>)
    requires item.Map? && Unique(h, rest) && (ProviderKey(h, item) == "" || ProviderKey(h, item) !in Keys(h, rest))
    ensures Unique(h, [item] + rest)
  {
    hide ProviderKey;
    var whole := [item] + rest;
    assert forall i :: 0 < i < |whole| ==> whole[i] == rest[i - 1];
  }

  lemma {:induction false} DedupeOfUnique(h: Host, items: seq<Value>, seen: set<string>)
    requires Unique(h, items) && Keys(h, items) !! seen
    ensures DedupeFrom(h, items, seen) == items
    decreases items
  {
    hide ProviderKey;
    if items != [] {
      var key, rest := ProviderKey(h, items[0]), items[1..];
      assert items == [items[0]] + rest;
      KeysOfCons(h, items[0], rest);
      assert forall i :: 0 <= i < |rest| ==> rest[i] == items[i + 1];
      DedupeOfUnique(h, rest, if key == "" then seen else seen + {key});
    }
  }

  /** Deduplication yields distinct ids, and is idempotent. */
  lemma DedupeLaws(h: Host, items: seq<Value>)
    ensures Unique(h, DedupeList(h, items))
    ensures DedupeList(h, items) == items <==> Unique(h, items)
    ensures DedupeList(h, DedupeList(h, items)) == DedupeList(h, items)
    ensures Keys(h, DedupeList(h, items)) == Keys(h, items)
  {
    DedupedIsUnique(h, items, {});
    DedupeOfUnique(h, DedupeList(h, items), {});
    if Unique(h, items) {
      DedupeOfUnique(h, items, {});
    }
  }

  lemma UniqueSnoc(h: Host, items: seq<Value>, item: Value)
    requires Unique(h, items) && item.Map?
    ensures Unique(h, items + [item]) <==> ProviderKey(h, item) == "" || ProviderKey(h, item) !in Keys(h, items)
    ensures Keys(h, items + [item])
         == Keys(h, items) + if ProviderKey(h, item) == "" then {} else {ProviderKey(h, item)}
  {
    hide ProviderKey;
    var whole := items + [item];
    assert forall i :: 0 <= i < |items| ==> items[i] == whole[i];
    assert whole[|items|] == item;
    if ProviderKey(h, item) != "" && ProviderKey(h, item) in Keys(h, items) {
      var i :| 0 <= i < |items| && ProviderKey(h, items[i]) == ProviderKey(h, item);
      assert ProviderKey(h, whole[i]) == ProviderKey(h, whole[|items|]);
    }
  }
}
