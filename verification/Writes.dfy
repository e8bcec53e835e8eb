/** Writes under names, where the last write of a name wins: writing everything once more changes nothing. */
module Writes {
  import opened Wrappers
  import opened Yaml
  import opened VectorStores

  /** What is written to: the keys of a mapping, the rows of a list of models, or the entries a list already has. */
  datatype Kind = Keyed | Rows | Entries

  datatype Write = Write(name: string, value: Value)

  function Put(kind: Kind, v: Value, w: Write): Result<Value, Fault> {
    match kind
    case Keyed => SetAt(v, w.name, w.value)
    case Rows =>
      if !v.List? then Err(Raised)
      else
        var rows :- UpsertIn(v.items, w.name, w.value);
        Ok(List(rows))
    case Entries => if v.List? then Ok(List(ReplaceFirst(v.items, w.name, w.value))) else Err(Raised)
  }

  function PutAll(kind: Kind, v: Value, ws: seq<Write>): Result<Value, Fault>
    decreases ws
  {
    if ws == [] then Ok(v)
    else
      var next :- Put(kind, v, ws[0]);
      PutAll(kind, next, ws[1..])
  }

  /** What is written carries the name it is written under. */
  predicate Proper(kind: Kind, w: Write) {
    match kind
    case Keyed => true
    case Rows => Get(w.value, "model_id", Null) == Ok(Str(w.name))
    case Entries => IsEntryOf(w.value, w.name)
  }

  predicate AllProper(kind: Kind, ws: seq<Write>) {
    forall w <- ws :: Proper(kind, w)
  }

  predicate Named(ws: seq<Write>, name: string) {
    exists w <- ws :: w.name == name
  }

  predicate Holds(kind: Kind, v: Value, w: Write) {
    Put(kind, v, w) == Ok(v)
  }

  /** The last write of every name is in place. */
  predicate Settled(kind: Kind, v: Value, ws: seq<Write>)
    decreases ws
  {
    ws == [] || ((Named(ws[1..], ws[0].name) || Holds(kind, v, ws[0])) && Settled(kind, v, ws[1..]))
  }

  // ----- provider entries --------------------------------------------------

  lemma ReplaceOfCons(head: Value, rest: seq<Value>, id: string, entry: Value)
    ensures ReplaceFirst([head] + rest, id, entry)
         == if IsEntryOf(head, id) then [entry] + rest else [head] + ReplaceFirst(rest, id, entry)
  {
    assert ([head] + rest)[1..] == rest;
  }

  lemma {:induction false} NothingToReplace(items: seq<Value>, id: string, entry: Value)
    requires forall x <- items :: !IsEntryOf(x, id)
    ensures ReplaceFirst(items, id, entry) == items
  {
    hide IsEntryOf;
    if items != [] {
      NothingToReplace(items[1..], id, entry);
      assert [items[0]] + items[1..] == items;
    }
  }

  lemma {:induction false} ReplacesCommute(items: seq<Value>, a: string, x: Value, b: string, y: Value)
    requires a != b && IsEntryOf(x, a) && IsEntryOf(y, b)
    ensures ReplaceFirst(ReplaceFirst(items, b, y), a, x) == ReplaceFirst(ReplaceFirst(items, a, x), b, y)
  {
    if items != [] && !IsEntryOf(items[0], a) && !IsEntryOf(items[0], b) {
      ReplacesCommute(items[1..], a, x, b, y);
    }
    hide ReplaceFirst;
    if items != [] {
      ReplaceOfCons(items[0], items[1..], a, x);
      ReplaceOfCons(items[0], items[1..], b, y);
      assert [items[0]] + items[1..] == items;
      ReplaceOfCons(items[0], ReplaceFirst(items[1..], b, y), a, x);
      ReplaceOfCons(items[0], ReplaceFirst(items[1..], a, x), b, y);
      ReplaceOfCons(x, items[1..], b, y);
      ReplaceOfCons(y, items[1..], a, x);
    } else {
      NothingToReplace([], a, x);
      NothingToReplace([], b, y);
    }
  }

  /** Of two replacements under one id, only the second shows. */
  lemma {:induction false} ReplaceTwice(items: seq<Value>, id: string, x: Value, y: Value)
    requires IsEntryOf(x, id)
    ensures ReplaceFirst(ReplaceFirst(items, id, x), id, y) == ReplaceFirst(items, id, y)
  {
    hide IsEntryOf;
    if items != [] {
      ReplaceTwice(items[1..], id, x, y);
      ReplaceOfCons(x, items[1..], id, y);
      ReplaceOfCons(items[0], ReplaceFirst(items[1..], id, x), id, y);
    }
  }

  // ----- model rows --------------------------------------------------------

  lemma UpsertOfCons(head: Value, rest: seq<Value>, name: string, row: Value)
    ensures UpsertIn([head] + rest, name, row)
         == if !head.Map? then Err(Raised)
            else if Get(head, "model_id", Null) == Ok(Str(name)) then Ok([row] + rest)
            else if UpsertIn(rest, name, row).Ok? then Ok([head] + UpsertIn(rest, name, row).value) else Err(Raised)
  {
    assert ([head] + rest)[1..] == rest;
  }

  /** Where a name has its row, only the last of two writes under it shows. */
  lemma {:induction false} UpsertTwice(rows: seq<Value>, name: string, x: Value, y: Value)
    requires UpsertIn(rows, name, x).Ok? && Get(x, "model_id", Null) == Ok(Str(name))
    ensures UpsertIn(rows, name, y).Ok?
    ensures UpsertIn(UpsertIn(rows, name, x).value, name, y) == UpsertIn(rows, name, y)
  {
    if rows == [] {
      assert UpsertIn([], name, x) == Ok([x]) && UpsertIn([], name, y) == Ok([y]);
      UpsertOfCons(x, [], name, y);
      assert [x] + [] == [x] && [y] + [] == [y];
    } else {
      var head, rest := rows[0], rows[1..];
      assert [head] + rest == rows;
      hide UpsertIn;
      UpsertOfCons(head, rest, name, x);
      UpsertOfCons(head, rest, name, y);
      if Get(head, "model_id", Null) == Ok(Str(name)) {
        UpsertOfCons(x, rest, name, y);
      } else {
        UpsertTwice(rest, name, x, y);
        UpsertOfCons(head, UpsertIn(rest, name, x).value, name, y);
      }
    }
  }

  /** Where one name has its row, writing it and writing another name can be swapped. */
  lemma {:induction false} UpsertsCommute(rows: seq<Value>, a: string, held: Value, x: Value, b: string, y: Value)
    requires a != b && UpsertIn(rows, a, held) == Ok(rows) && UpsertIn(rows, b, y).Ok?
    requires Get(held, "model_id", Null) == Ok(Str(a))
    requires Get(x, "model_id", Null) == Ok(Str(a)) && Get(y, "model_id", Null) == Ok(Str(b))
    ensures UpsertIn(rows, a, x).Ok? && UpsertIn(UpsertIn(rows, a, x).value, b, y).Ok?
    ensures UpsertIn(UpsertIn(rows, b, y).value, a, x) == UpsertIn(UpsertIn(rows, a, x).value, b, y)
  {
    assert rows != [];
    var head, rest := rows[0], rows[1..];
    assert [head] + rest == rows;
    hide UpsertIn;
    UpsertOfCons(head, rest, a, held);
    UpsertOfCons(head, rest, a, x);
    UpsertOfCons(head, rest, b, y);
    if Get(head, "model_id", Null) == Ok(Str(a)) {
      UpsertOfCons(x, rest, b, y);
      UpsertOfCons(head, UpsertIn(rest, b, y).value, a, x);
    } else {
      assert ([head] + UpsertIn(rest, a, held).value)[1..] == rest;
      if Get(head, "model_id", Null) == Ok(Str(b)) {
        UpsertTwice(rest, a, held, x);
        UpsertOfCons(y, rest, a, x);
        UpsertOfCons(head, UpsertIn(rest, a, x).value, b, y);
      } else {
        UpsertsCommute(rest, a, held, x, b, y);
        UpsertOfCons(head, UpsertIn(rest, b, y).value, a, x);
        UpsertOfCons(head, UpsertIn(rest, a, x).value, b, y);
      }
    }
  }

  // ----- laws of one write -------------------------------------------------

  /** Of two writes under one name, only the second shows. */
  lemma Overwritten(kind: Kind, v: Value, w: Write, x: Write)
    requires Put(kind, v, w).Ok? && Proper(kind, w) && w.name == x.name
    ensures Put(kind, v, x).Ok? && Put(kind, Put(kind, v, w).value, x) == Put(kind, v, x)
  {
    hide UpsertIn, ReplaceFirst, IsEntryOf, Get;
    match kind
    case Keyed =>
      assert v.entries[w.name := w.value][x.name := x.value] == v.entries[x.name := x.value];
    case Rows => UpsertTwice(v.items, w.name, w.value, x.value);
    case Entries => ReplaceTwice(v.items, w.name, w.value, x.value);
  }

  /** Where one name has been written, writing it again and writing another name can be swapped. */
  lemma PutsCommute(kind: Kind, v: Value, held: Write, w: Write, x: Write)
    requires AllProper(kind, [held, w, x]) && Holds(kind, v, held) && held.name == w.name != x.name
    requires Put(kind, v, x).Ok?
    ensures Put(kind, v, w).Ok? && Put(kind, Put(kind, v, w).value, x).Ok?
    ensures Put(kind, Put(kind, v, x).value, w) == Put(kind, Put(kind, v, w).value, x)
  {
    assert held in [held, w, x] && w in [held, w, x] && x in [held, w, x];
    hide UpsertIn, ReplaceFirst, IsEntryOf, Get;
    match kind
    case Keyed =>
      assert v.entries[w.name := w.value][x.name := x.value] == v.entries[x.name := x.value][w.name := w.value];
    case Rows => UpsertsCommute(v.items, w.name, held.value, w.value, x.name, x.value);
    case Entries => ReplacesCommute(v.items, w.name, w.value, x.name, x.value);
  }

  /** Writing another name leaves a write in place. */
  lemma OthersHold(kind: Kind, v: Value, w: Write, x: Write)
    requires AllProper(kind, [w, x]) && Holds(kind, v, w) && w.name != x.name && Put(kind, v, x).Ok?
    ensures Holds(kind, Put(kind, v, x).value, w)
  {
    assert w in [w, x] && x in [w, x];
    assert forall y <- [w, w, x] :: y == w || y == x;
    hide Put, Proper;
    PutsCommute(kind, v, w, w, x);
  }

  // ----- many writes -------------------------------------------------------

  lemma {:induction false} PutAllConcat(kind: Kind, v: Value, a: seq<Write>, b: seq<Write>)
    ensures PutAll(kind, v, a + b)
         == if PutAll(kind, v, a).Ok? then PutAll(kind, PutAll(kind, v, a).value, b) else PutAll(kind, v, a)
    decreases a
  {
    hide Put;
    if a == [] {
      assert a + b == b;
    } else {
      assert (a + b)[1..] == a[1..] + b;
      if Put(kind, v, a[0]).Ok? {
        PutAllConcat(kind, Put(kind, v, a[0]).value, a[1..], b);
      }
    }
  }

  lemma ProperRest(kind: Kind, ws: seq<Write>)
    requires AllProper(kind, ws) && ws != []
    ensures Proper(kind, ws[0]) && AllProper(kind, ws[1..])
    ensures forall name :: Named(ws, name) <==> ws[0].name == name || Named(ws[1..], name)
  {
    hide Proper;
    assert ws == [ws[0]] + ws[1..];
    assert forall w :: w in ws <==> w == ws[0] || w in ws[1..];
  }

  /** After a run of writes, the last write of every name is in place, and so is what no write has overwritten. */
  lemma {:induction false} WritesSettle(kind: Kind, v: Value, ws: seq<Write>)
    requires AllProper(kind, ws) && PutAll(kind, v, ws).Ok?
    ensures Settled(kind, PutAll(kind, v, ws).value, ws)
    ensures forall w | Proper(kind, w) && Holds(kind, v, w) && !Named(ws, w.name) ::
              Holds(kind, PutAll(kind, v, ws).value, w)
    decreases ws
  {
    hide Put, Proper, Named;
    if ws != [] {
      var next := Put(kind, v, ws[0]).value;
      ProperRest(kind, ws);
      WritesSettle(kind, next, ws[1..]);
      Overwritten(kind, v, ws[0], ws[0]);
      forall w | Proper(kind, w) && Holds(kind, v, w) && !Named(ws, w.name) ensures Holds(kind, next, w) {
        assert forall y <- [w, ws[0]] :: y == w || y == ws[0];
        OthersHold(kind, v, w, ws[0]);
      }
    }
  }

  /** Some write of every name is in place. */
  lemma {:induction false} NameIsHeld(kind: Kind, v: Value, ws: seq<Write>, name: string) returns (held: Write)
    requires AllProper(kind, ws) && Settled(kind, v, ws) && Named(ws, name)
    ensures Proper(kind, held) && held.name == name && Holds(kind, v, held)
    decreases ws
  {
    hide Put, Proper, Named;
    if ws != [] {
      ProperRest(kind, ws);
      if Named(ws[1..], name) {
        held := NameIsHeld(kind, v, ws[1..], name);
      } else {
        held := ws[0];
      }
    } else {
      NothingIsNamed(name);
    }
  }

  lemma NothingIsNamed(name: string)
    ensures !Named([], name)
  {
  }

  /** A write does not show if its name has been written before and is written again. */
  lemma {:induction false} Absorbed(kind: Kind, v: Value, held: Write, w: Write, ws: seq<Write>)
    requires AllProper(kind, [held, w]) && AllProper(kind, ws) && PutAll(kind, v, ws).Ok?
    requires Holds(kind, v, held) && held.name == w.name && Named(ws, w.name)
    ensures Put(kind, v, w).Ok? && PutAll(kind, Put(kind, v, w).value, ws) == PutAll(kind, v, ws)
    decreases ws
  {
    hide Put, Proper, Named;
    if ws == [] {
      NothingIsNamed(w.name);
    } else {
      var x := ws[0];
      ProperRest(kind, ws);
      assert held in [held, w] && w in [held, w];
      Overwritten(kind, v, held, w);
      if x.name == w.name {
        Overwritten(kind, v, w, x);
      } else {
        assert forall y <- [held, w, x] :: y in [held, w] || y == x;
        assert forall y <- [held, x] :: y == held || y == x;
        PutsCommute(kind, v, held, w, x);
        OthersHold(kind, v, held, x);
        Absorbed(kind, Put(kind, v, x).value, held, w, ws[1..]);
      }
    }
  }

  /** Where the last write of every name is in place, writing everything once more changes nothing. */
  lemma {:induction false} SettledStays(kind: Kind, v: Value, ws: seq<Write>)
    requires AllProper(kind, ws) && Settled(kind, v, ws)
    ensures PutAll(kind, v, ws) == Ok(v)
    decreases ws
  {
    hide Put, Proper, Named;
    if ws != [] {
      ProperRest(kind, ws);
      SettledStays(kind, v, ws[1..]);
      if Named(ws[1..], ws[0].name) {
        var held := NameIsHeld(kind, v, ws[1..], ws[0].name);
        assert forall y <- [held, ws[0]] :: y == held || y == ws[0];
        Absorbed(kind, v, held, ws[0], ws[1..]);
      }
    }
  }
}
