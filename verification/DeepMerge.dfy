/** Deep merge with list replacement: what it computes and which laws it obeys. */
module DeepMerge {
  import opened Wrappers
  import opened Yaml

  /** Maps merge key by key; anything else in the overlay replaces what the base has. */
  function MergeValue(base: Value, overlay: Value): (r: Value)
    ensures overlay.Map? ==> r.Map?
    decreases overlay
  {
    if !base.Map? || !overlay.Map? then overlay
    else
      Map(map k | k in base.entries.Keys + overlay.entries.Keys ::
            if k !in overlay.entries then base.entries[k]
            else if k !in base.entries then overlay.entries[k]
            else MergeValue(base.entries[k], overlay.entries[k]))
  }

  function Merge(base: Section, overlay: Section): Section {
    MergeValue(Map(base), Map(overlay)).entries
  }

  /** The recursive loop of the source. */
  method DeepMergeListReplace(base: Section, overlay: Section) returns (result: Section)
    ensures result == Merge(base, overlay)
    decreases Map(overlay)
  {
    result := base;
    var todo := overlay.Keys;
    while todo != {}
      invariant todo <= overlay.Keys
      invariant result.Keys == base.Keys + (overlay.Keys - todo)
      invariant forall k <- result ::
                  result[k] == if k in overlay && k !in todo then Merge(base, overlay)[k] else base[k]
      decreases todo
    {
      var key :| key in todo;
      var overlayValue := overlay[key];
      assert Map(overlay).entries[key] == overlayValue;
      assert Merge(base, overlay)[key] == if key in base then MergeValue(base[key], overlayValue) else overlayValue;
      if key in result && result[key].Map? && overlayValue.Map? {
        var merged := DeepMergeListReplace(result[key].entries, overlayValue.entries);
        assert Map(merged) == MergeValue(base[key], overlayValue);
        result := result[key := Map(merged)];
      } else {
        result := result[key := overlayValue];
      }
      todo := todo - {key};
    }
  }

  // ----- lookup along a path -----------------------------------------------

  function Find(v: Value, path: seq<string>): Option<Value> {
    if path == [] then Some(v)
    else if v.Map? && path[0] in v.entries then Find(v.entries[path[0]], path[1..])
    else None
  }

  /** The overlay has something that is not a map at the path or above it. */
  predicate Cuts(overlay: Value, path: seq<string>) {
    if !overlay.Map? then true
    else path != [] && path[0] in overlay.entries && Cuts(overlay.entries[path[0]], path[1..])
  }

  /** At the path or above it, a base value that is not a map meets a map of the overlay. */
  predicate Covers(base: Value, overlay: Value, path: seq<string>)
    decreases path
  {
    if !overlay.Map? then false
    else if !base.Map? then true
    else
      path != [] && path[0] in base.entries && path[0] in overlay.entries
      && Covers(base.entries[path[0]], overlay.entries[path[0]], path[1..])
  }

  /**
   * What the merge has at every path, from what its two sides have there: the overlay alone where it cuts or
   * covers the path, otherwise the side that has something, and the merge of both if both do.
   */
  lemma {:induction false} LookupAfterMerge(base: Value, overlay: Value, path: seq<string>)
    ensures var b, o := Find(base, path), Find(overlay, path);
            Find(MergeValue(base, overlay), path)
            == if Cuts(overlay, path) || Covers(base, overlay, path) then o
               else if o == None then b
               else if b == None then o
               else Some(MergeValue(b.value, o.value))
    decreases path
  {
    if base.Map? && overlay.Map? && path != [] && path[0] in base.entries && path[0] in overlay.entries {
      LookupAfterMerge(base.entries[path[0]], overlay.entries[path[0]], path[1..]);
    }
  }

  // ----- algebra -----------------------------------------------------------

  /** The empty mapping is a left and a right identity. */
  lemma MergeIdentity(s: Section)
    ensures Merge(map[], s) == s && Merge(s, map[]) == s
  {
  }

  /** Merging `a` below `c` adds nothing: wherever both are maps, every key of `a` is one of `c`. */
  predicate Absorbed(a: Value, c: Value)
    decreases c
  {
    a.Map? && c.Map? ==>
      forall k <- a.entries :: k in c.entries && Absorbed(a.entries[k], c.entries[k])
  }

  lemma {:induction false} AbsorbedExactly(a: Value, c: Value)
    ensures MergeValue(a, c) == c <==> Absorbed(a, c)
    decreases c
  {
    if a.Map? && c.Map? {
      var m := MergeValue(a, c);
      forall k <- a.entries | k in c.entries ensures m.entries[k] == c.entries[k]
        <==> Absorbed(a.entries[k], c.entries[k]) {
        AbsorbedExactly(a.entries[k], c.entries[k]);
      }
      if Absorbed(a, c) {
        assert m.entries == c.entries;
      } else {
        var k :| k in a.entries && !(k in c.entries && Absorbed(a.entries[k], c.entries[k]));
        assert k in m.entries;
        assert k !in c.entries || m.entries[k] != c.entries[k];
      }
    }
  }

  /** What has been merged in is absorbed by the result. */
  lemma {:induction false} AbsorbedByMerge(base: Value, overlay: Value)
    ensures Absorbed(overlay, MergeValue(base, overlay))
    decreases overlay
  {
    if overlay.Map? {
      forall k <- overlay.entries ensures Absorbed(overlay.entries[k], MergeValue(base, overlay).entries[k]) {
        if base.Map? && k in base.entries {
          AbsorbedByMerge(base.entries[k], overlay.entries[k]);
        } else {
          AbsorbedByMerge(Null, overlay.entries[k]);
        }
      }
    }
  }

  /** Re-applying an overlay changes nothing, neither above what it was merged into nor below it. */
  lemma {:induction false} ReapplyIsNoOp(base: Value, overlay: Value)
    ensures MergeValue(MergeValue(base, overlay), overlay) == MergeValue(base, overlay)
    ensures MergeValue(overlay, MergeValue(base, overlay)) == MergeValue(base, overlay)
    decreases overlay
  {
    AbsorbedByMerge(base, overlay);
    AbsorbedExactly(overlay, MergeValue(base, overlay));
    if overlay.Map? {
      var once := MergeValue(base, overlay);
      forall k <- overlay.entries ensures MergeValue(once.entries[k], overlay.entries[k]) == once.entries[k] {
        if base.Map? && k in base.entries {
          ReapplyIsNoOp(base.entries[k], overlay.entries[k]);
        } else {
          ReapplyIsNoOp(Null, overlay.entries[k]);
        }
      }
      assert MergeValue(once, overlay).entries == once.entries;
    }
  }

  /** No path has maps in `a` and `c` and something else in `b`, unless `c` already has every key `a` has there. */
  predicate Associates(a: Value, b: Value, c: Value)
    decreases c
  {
    if !a.Map? || !c.Map? then true
    else if !b.Map? then Absorbed(a, c)
    else
      forall k <- a.entries | k in b.entries && k in c.entries ::
        Associates(a.entries[k], b.entries[k], c.entries[k])
  }

  /** Merging is associative exactly under that condition. */
  lemma {:induction false} AssociativeExactly(a: Value, b: Value, c: Value)
    ensures MergeValue(MergeValue(a, b), c) == MergeValue(a, MergeValue(b, c)) <==> Associates(a, b, c)
    decreases c
  {
    AbsorbedExactly(a, c);
    if a.Map? && b.Map? && c.Map? {
      var left, right := MergeValue(MergeValue(a, b), c), MergeValue(a, MergeValue(b, c));
      forall k <- a.entries | k in b.entries && k in c.entries
        ensures left.entries[k] == right.entries[k] <==> Associates(a.entries[k], b.entries[k], c.entries[k])
      {
        AssociativeExactly(a.entries[k], b.entries[k], c.entries[k]);
      }
      assert left.entries.Keys == right.entries.Keys;
      assert forall k <- left.entries | !(k in a.entries && k in b.entries && k in c.entries) ::
          left.entries[k] == right.entries[k];
      if Associates(a, b, c) {
        assert left.entries == right.entries;
      } else {
        var k :| k in a.entries && k in b.entries && k in c.entries
                 && !Associates(a.entries[k], b.entries[k], c.entries[k]);
        assert left.entries[k] != right.entries[k];
      }
    }
  }
}
