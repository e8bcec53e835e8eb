/** A table keyed by (key, time), read back for one key in time order. */
module Tables {

  type Table<K(==), V> = map<(K, int), V>

  function TimesOf<K, V>(t: Table<K, V>, key: K): set<int> {
    set row | row in t && row.0 == key :: row.1
  }

  lemma TimesAreKeys<K, V>(t: Table<K, V>, key: K, x: int)
    ensures x in TimesOf(t, key) <==> (key, x) in t
  {
    if (key, x) in t {
      assert (key, x).0 == key && (key, x).1 == x;
    }
  }

  /** The rows of other keys. */
  function Without<K, V>(t: Table<K, V>, key: K): Table<K, V> {
    map row | row in t && row.0 != key :: t[row]
  }

  predicate IsMin(s: set<int>, m: int) {
    m in s && forall x <- s :: m <= x
  }

  lemma {:induction false} MinExists(s: set<int>)
    requires s != {}
    ensures exists m :: IsMin(s, m)
    decreases |s|
  {
    assert (forall y :: y !in s) ==> s == {};
    var x :| x in s;
    if s == {x} {
      assert IsMin(s, x);
    } else {
      MinExists(s - {x});
      var m :| IsMin(s - {x}, m);
      assert forall y <- s :: y == x || y in s - {x};
      assert IsMin(s, if x < m then x else m);
    }
  }

  function Min(s: set<int>): (m: int)
    requires s != {}
    ensures IsMin(s, m)
  {
    MinExists(s);
    var m :| IsMin(s, m);
    m
  }

  /** The elements in ascending order. */
  function Ascending(s: set<int>): (r: seq<int>)
    ensures forall x :: x in r <==> x in s
    decreases |s|
  {
    if s == {} then [] else [Min(s)] + Ascending(s - {Min(s)})
  }

  lemma {:induction false} AscendingLength(s: set<int>)
    ensures |Ascending(s)| == |s|
    decreases |s|
  {
    if s != {} {
      AscendingLength(s - {Min(s)});
    }
  }

  lemma {:induction false} AscendingIsSorted(s: set<int>)
    ensures Sorted(Ascending(s))
    decreases |s|
  {
    if s != {} {
      AscendingIsSorted(s - {Min(s)});
      SortedCons(Min(s), Ascending(s - {Min(s)}));
    }
  }

  predicate Sorted(r: seq<int>) {
    forall i, j :: 0 <= i < j < |r| ==> r[i] < r[j]
  }

  lemma SortedCons(m: int, rest: seq<int>)
    requires Sorted(rest) && forall x <- rest :: m < x
    ensures Sorted([m] + rest)
  {
    var r := [m] + rest;
    assert forall j :: 0 < j < |r| ==> r[j] == rest[j - 1] && r[j] in rest;
  }

  lemma {:induction false} AscendingWithLast(s: set<int>, x: int)
    requires forall y <- s :: y < x
    ensures Ascending(s + {x}) == Ascending(s) + [x]
    decreases |s|
  {
    if s == {} {
      assert s + {x} == {x} && Min({x}) in {x};
      assert {x} - {x} == {};
    } else {
      var m := Min(s);
      assert IsMin(s + {x}, m) && Min(s + {x}) == m;
      assert (s + {x}) - {m} == (s - {m}) + {x};
      AscendingWithLast(s - {m}, x);
      assert [m] + (Ascending(s - {m}) + [x]) == ([m] + Ascending(s - {m})) + [x];
    }
  }

  /** `SELECT ... WHERE key = ? ORDER BY time` */
  function Rows<K, V>(t: Table<K, V>, key: K): (r: seq<V>)
  {
    var times := Ascending(TimesOf(t, key));
    seq(|times|, i requires 0 <= i < |times| => Row(t, key, times, i))
  }

  function Row<K, V>(t: Table<K, V>, key: K, times: seq<int>, i: nat): V
    requires i < |times| && times == Ascending(TimesOf(t, key))
  {
    assert times[i] in times;
    t[(key, times[i])]
  }

  /** The rows of one key, each of them once, the earliest first. */
  ghost predicate InTimeOrder<K, V(!new)>(t: Table<K, V>, key: K, rows: seq<V>) {
    exists times: seq<int> :: RowsAt(t, key, rows, times)
  }

  ghost predicate RowsAt<K, V>(t: Table<K, V>, key: K, rows: seq<V>, times: seq<int>) {
    && Sorted(times) && |times| == |rows|
    && (forall x :: x in times <==> (key, x) in t)
    && (forall i :: 0 <= i < |times| ==> (key, times[i]) in t && rows[i] == t[(key, times[i])])
  }

  lemma RowsInTimeOrder<K, V(!new)>(t: Table<K, V>, key: K)
    ensures InTimeOrder(t, key, Rows(t, key))
  {
    var times := Ascending(TimesOf(t, key));
    AscendingIsSorted(TimesOf(t, key));
    forall x ensures x in times <==> (key, x) in t {
      TimesAreKeys(t, key, x);
    }
    assert forall i :: 0 <= i < |times| ==> times[i] in times;
    assert RowsAt(t, key, Rows(t, key), times);
  }

  lemma RowsAfterInsert<K, V>(t: Table<K, V>, key: K, now: int, v: V)
    requires forall x <- TimesOf(t, key) :: x < now
    ensures Rows(t[(key, now) := v], key) == Rows(t, key) + [v]
  {
    var t' := t[(key, now) := v];
    assert TimesOf(t', key) == TimesOf(t, key) + {now} by {
      assert (key, now) in t';
      assert forall row <- t' :: row in t || row == (key, now);
      assert forall row <- t :: row in t';
    }
    AscendingWithLast(TimesOf(t, key), now);
    var times := Ascending(TimesOf(t, key));
    assert forall i :: 0 <= i < |times| ==> times[i] in times && times[i] != now;
  }

  lemma RowsUnchanged<K, V>(t: Table<K, V>, u: Table<K, V>, key: K)
    requires forall x :: ((key, x) in t <==> (key, x) in u) && ((key, x) in t ==> t[(key, x)] == u[(key, x)])
    ensures Rows(t, key) == Rows(u, key)
  {
    forall x ensures x in TimesOf(t, key) <==> x in TimesOf(u, key) {
      TimesAreKeys(t, key, x);
      TimesAreKeys(u, key, x);
    }
    assert TimesOf(t, key) == TimesOf(u, key);
    var times := Ascending(TimesOf(t, key));
    forall i | 0 <= i < |times| ensures Rows(t, key)[i] == Rows(u, key)[i] {
      assert times[i] in times;
      TimesAreKeys(t, key, times[i]);
    }
  }

  lemma RowsOfRemoved<K, V>(t: Table<K, V>, key: K)
    ensures Rows(Without(t, key), key) == []
    ensures forall other | other != key :: Rows(Without(t, key), other) == Rows(t, other)
  {
    assert TimesOf(Without(t, key), key) == {};
    forall other | other != key ensures Rows(Without(t, key), other) == Rows(t, other) {
      RowsUnchanged(Without(t, key), t, other);
    }
  }

  lemma RowsOfOthers<K, V>(t: Table<K, V>, key: K, now: int, v: V, other: K)
    requires other != key
    ensures Rows(t[(key, now) := v], other) == Rows(t, other)
  {
    RowsUnchanged(t[(key, now) := v], t, other);
  }
}
