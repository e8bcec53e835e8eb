/** Blending search scores with cross-encoder scores, over the reals. */
module Reranker {
  import opened Wrappers

  datatype Match = Match(content: string, score: Option<real>)

  datatype RerankError = LengthsDiffer

  // ----- normalisation -----------------------------------------------------

  function Least(s: seq<real>): (m: real)
    requires s != []
    ensures m in s && forall x <- s :: m <= x
  {
    if |s| == 1 then s[0]
    else
      var m := Least(s[1..]);
      assert forall x <- s :: x == s[0] || x in s[1..];
      if s[0] <= m then s[0] else m
  }

  function Greatest(s: seq<real>): (m: real)
    requires s != []
    ensures m in s && forall x <- s :: x <= m
  {
    if |s| == 1 then s[0]
    else
      var m := Greatest(s[1..]);
      assert forall x <- s :: x == s[0] || x in s[1..];
      if s[0] >= m then s[0] else m
  }

  /** Where a score lies between two bounds. */
  function Share(x: real, low: real, high: real): real
    requires low < high
  {
    (x - low) / (high - low)
  }

  /** Min-max normalisation; a single score counts as 1 and equal scores as one half. */
  function Normalized(s: seq<real>): (r: seq<real>)
    ensures |r| == |s|
  {
    if |s| <= 1 then seq(|s|, _ => 1.0)
    else
      var low, high := Least(s), Greatest(s);
      if high - low > 0.0 then seq(|s|, i requires 0 <= i < |s| => Share(s[i], low, high))
      else seq(|s|, _ => 0.5)
  }

  lemma NormalizedInUnit(s: seq<real>, i: nat)
    requires i < |s|
    ensures 0.0 <= Normalized(s)[i] <= 1.0
  {
    if |s| > 1 && Greatest(s) > Least(s) {
      assert s[i] in s;
      QuotientInUnit(s[i] - Least(s), Greatest(s) - Least(s));
    }
  }

  lemma QuotientInUnit(a: real, b: real)
    requires 0.0 <= a <= b && b > 0.0
    ensures 0.0 <= a / b <= 1.0
  {
    QuotientOrder(0.0, a, b);
    QuotientOrder(a, b, b);
  }

  lemma QuotientOrder(a: real, c: real, b: real)
    requires b > 0.0
    ensures a <= c <==> a / b <= c / b
  {
    assert a == (a / b) * b && c == (c / b) * b;
    if a / b <= c / b {
      assert (c / b - a / b) * b >= 0.0;
    } else {
      assert (a / b - c / b) * b > 0.0;
    }
  }

  /** Normalising keeps the order of the scores exactly. */
  lemma NormalizedKeepsOrder(s: seq<real>, i: nat, j: nat)
    requires i < |s| && j < |s|
    ensures s[i] <= s[j] <==> Normalized(s)[i] <= Normalized(s)[j]
  {
    if |s| > 1 {
      assert s[i] in s && s[j] in s;
      if Greatest(s) > Least(s) {
        QuotientOrder(s[i] - Least(s), s[j] - Least(s), Greatest(s) - Least(s));
      }
    }
  }

  function Line(x: real, a: real, b: real): real {
    a * x + b
  }

  function Affine(s: seq<real>, a: real, b: real): (r: seq<real>)
    ensures |r| == |s|
  {
    seq(|s|, i requires 0 <= i < |s| => Line(s[i], a, b))
  }

  lemma ScaleOrder(x: real, y: real, a: real)
    requires a > 0.0
    ensures x <= y <==> a * x <= a * y
  {
    if x <= y {
      assert a * (y - x) >= 0.0;
    } else {
      assert a * (x - y) > 0.0;
    }
  }

  lemma QuotientCancels(x: real, b: real, a: real)
    requires b > 0.0 && a * b > 0.0
    ensures (a * x) / (a * b) == x / b
  {
    var q := x / b;
    assert x == q * b;
    assert a * x == q * (a * b);
  }

  lemma BoundsScale(low: real, high: real, a: real, b: real)
    requires a > 0.0
    ensures low < high <==> Line(low, a, b) < Line(high, a, b)
  {
    ScaleOrder(high, low, a);
  }

  lemma ShareCancels(x: real, low: real, high: real, a: real, b: real)
    requires a > 0.0 && low < high && Line(low, a, b) < Line(high, a, b)
    ensures Share(Line(x, a, b), Line(low, a, b), Line(high, a, b)) == Share(x, low, high)
  {
    ScaledRange(high, low, a, b);
    ScaledRange(x, low, a, b);
    QuotientCancels(x - low, high - low, a);
  }

  lemma LeastIs(t: seq<real>, i: nat)
    requires i < |t| && forall k :: 0 <= k < |t| ==> t[i] <= t[k]
    ensures Least(t) == t[i]
  {
    hide Least;
    assert t[i] in t;
  }

  lemma GreatestIs(t: seq<real>, i: nat)
    requires i < |t| && forall k :: 0 <= k < |t| ==> t[k] <= t[i]
    ensures Greatest(t) == t[i]
  {
    hide Greatest;
    assert t[i] in t;
  }

  lemma AffineAt(s: seq<real>, a: real, b: real, i: nat)
    requires i < |s|
    ensures |Affine(s, a, b)| == |s| && Affine(s, a, b)[i] == Line(s[i], a, b)
  {
  }

  lemma AffineOrder(s: seq<real>, a: real, b: real, i: nat, k: nat)
    requires a > 0.0 && i < |s| && k < |s| && s[i] <= s[k]
    ensures Affine(s, a, b)[i] <= Affine(s, a, b)[k]
  {
    ScaleOrder(s[i], s[k], a);
    AffineAt(s, a, b, i);
    AffineAt(s, a, b, k);
  }

  lemma AffineLeast(s: seq<real>, a: real, b: real)
    requires a > 0.0 && s != []
    ensures Least(Affine(s, a, b)) == Line(Least(s), a, b)
  {
    var i := LeastPlace(s);
    hide *;
    forall k | 0 <= k < |s| ensures Affine(s, a, b)[i] <= Affine(s, a, b)[k] {
      AffineOrder(s, a, b, i, k);
    }
    LeastIs(Affine(s, a, b), i);
    AffineAt(s, a, b, i);
  }

  lemma AffineGreatest(s: seq<real>, a: real, b: real)
    requires a > 0.0 && s != []
    ensures Greatest(Affine(s, a, b)) == Line(Greatest(s), a, b)
  {
    var i := GreatestPlace(s);
    hide *;
    forall k | 0 <= k < |s| ensures Affine(s, a, b)[k] <= Affine(s, a, b)[i] {
      AffineOrder(s, a, b, k, i);
    }
    GreatestIs(Affine(s, a, b), i);
    AffineAt(s, a, b, i);
  }

  lemma LeastPlace(s: seq<real>) returns (i: nat)
    requires s != []
    ensures i < |s| && s[i] == Least(s) && forall k :: 0 <= k < |s| ==> s[i] <= s[k]
  {
    i :| 0 <= i < |s| && s[i] == Least(s);
    assert forall k :: 0 <= k < |s| ==> s[k] in s;
  }

  lemma GreatestPlace(s: seq<real>) returns (i: nat)
    requires s != []
    ensures i < |s| && s[i] == Greatest(s) && forall k :: 0 <= k < |s| ==> s[k] <= s[i]
  {
    i :| 0 <= i < |s| && s[i] == Greatest(s);
    assert forall k :: 0 <= k < |s| ==> s[k] in s;
  }

  lemma NormalizedAt(s: seq<real>, i: nat)
    requires i < |s| && |s| > 1
    ensures Normalized(s)[i] ==
            if Greatest(s) > Least(s) then Share(s[i], Least(s), Greatest(s)) else 0.5
  {
    hide Share;
  }

  /** The scale and the offset of a score are immaterial. */
  lemma NormalizedIgnoresScale(s: seq<real>, a: real, b: real)
    requires a > 0.0
    ensures Normalized(Affine(s, a, b)) == Normalized(s)
  {
    if |s| > 1 {
      hide *;
      RangeIgnoresScale(s, a, b);
      forall i | 0 <= i < |s| ensures Normalized(Affine(s, a, b))[i] == Normalized(s)[i] {
        NormalizedAt(s, i);
        NormalizedAt(Affine(s, a, b), i);
        if Greatest(s) > Least(s) {
          ShareIgnoresScale(s, a, b, i);
        }
      }
    }
  }

  lemma RangeIgnoresScale(s: seq<real>, a: real, b: real)
    requires a > 0.0 && s != []
    ensures Greatest(Affine(s, a, b)) > Least(Affine(s, a, b)) <==> Greatest(s) > Least(s)
  {
    hide *;
    AffineLeast(s, a, b);
    AffineGreatest(s, a, b);
    BoundsScale(Least(s), Greatest(s), a, b);
  }

  lemma ShareIgnoresScale(s: seq<real>, a: real, b: real, i: nat)
    requires a > 0.0 && i < |s| && Greatest(s) > Least(s) && Greatest(Affine(s, a, b)) > Least(Affine(s, a, b))
    ensures var t := Affine(s, a, b);
            Share(t[i], Least(t), Greatest(t)) == Share(s[i], Least(s), Greatest(s))
  {
    hide *;
    AffineLeast(s, a, b);
    AffineGreatest(s, a, b);
    AffineAt(s, a, b, i);
    ShareCancels(s[i], Least(s), Greatest(s), a, b);
  }

  lemma ScaledRange(x: real, y: real, a: real, b: real)
    requires a > 0.0
    ensures (a * x + b) - (a * y + b) == a * (x - y)
    ensures x - y > 0.0 <==> a * (x - y) > 0.0
  {
    ScaleOrder(x - y, 0.0, a);
  }

  // ----- blending ----------------------------------------------------------

  function OriginalScores(ms: seq<Match>): (r: seq<real>)
    ensures |r| == |ms|
  {
    seq(|ms|, i requires 0 <= i < |ms| =>
      match ms[i].score case Some(x) => x case None => 0.0)
  }

  /** Three tenths cross-encoder, seven tenths original. */
  function Combined(ce: seq<real>, orig: seq<real>): (r: seq<real>)
    requires |ce| == |orig|
    ensures |r| == |orig|
  {
    seq(|orig|, i requires 0 <= i < |orig| => 0.3 * Normalized(ce)[i] + 0.7 * Normalized(orig)[i])
  }

  lemma CombinedInUnit(ce: seq<real>, orig: seq<real>, i: nat)
    requires |ce| == |orig| && i < |orig|
    ensures 0.0 <= Combined(ce, orig)[i] <= 1.0
  {
    hide Normalized;
    NormalizedInUnit(ce, i);
    NormalizedInUnit(orig, i);
  }

  /** An item at least as good on both scores never scores lower, and scores higher if better on either. */
  lemma CombinedIsMonotone(ce: seq<real>, orig: seq<real>, i: nat, j: nat)
    requires |ce| == |orig| && i < |orig| && j < |orig|
    requires ce[i] >= ce[j] && orig[i] >= orig[j]
    ensures Combined(ce, orig)[i] >= Combined(ce, orig)[j]
    ensures Combined(ce, orig)[i] == Combined(ce, orig)[j] <==> ce[i] == ce[j] && orig[i] == orig[j]
  {
    hide Normalized;
    NormalizedKeepsOrder(ce, i, j);
    NormalizedKeepsOrder(ce, j, i);
    NormalizedKeepsOrder(orig, i, j);
    NormalizedKeepsOrder(orig, j, i);
  }

  function Lead(orig: seq<real>, i: nat, j: nat): real
    requires i < |orig| && j < |orig|
  {
    Normalized(orig)[i] - Normalized(orig)[j]
  }

  ghost predicate AlwaysAhead(orig: seq<real>, i: nat, j: nat)
    requires i < |orig| && j < |orig|
  {
    forall ce: seq<real> :: |ce| == |orig| ==> Combined(ce, orig)[i] > Combined(ce, orig)[j]
  }

  /** No cross-encoder can overturn or level a lead in the original scores exactly when it exceeds three sevenths. */
  lemma SafeLeadExactly(orig: seq<real>, i: nat, j: nat)
    requires i < |orig| && j < |orig| && i != j
    ensures AlwaysAhead(orig, i, j) <==> Lead(orig, i, j) > 3.0 / 7.0
  {
    if Lead(orig, i, j) > 3.0 / 7.0 {
      forall ce: seq<real> | |ce| == |orig|
        ensures Combined(ce, orig)[i] > Combined(ce, orig)[j]
      {
        hide Normalized;
        NormalizedInUnit(ce, i);
        NormalizedInUnit(ce, j);
      }
    } else {
      var ce := Opponent(|orig|, j);
      OpponentNormalized(|orig|, j);
      assert Combined(ce, orig)[i] <= Combined(ce, orig)[j];
    }
  }

  /** The cross-encoder that favours one item only. */
  function Opponent(n: nat, j: nat): seq<real> {
    seq(n, k => if k == j then 1.0 else 0.0)
  }

  lemma OpponentNormalized(n: nat, j: nat)
    requires n > 1 && j < n
    ensures Normalized(Opponent(n, j)) == Opponent(n, j)
  {
    var s := Opponent(n, j);
    var k := if j == 0 then 1 else 0;
    assert s[j] in s && s[k] in s;
    assert Least(s) == 0.0 && Greatest(s) == 1.0;
  }

  // ----- ordering ----------------------------------------------------------

  function Rescored(ms: seq<Match>, scores: seq<real>): (r: seq<Match>)
    requires |ms| == |scores|
    ensures |r| == |ms|
  {
    seq(|ms|, i requires 0 <= i < |ms| => ms[i].(score := Some(scores[i])))
  }

  function ScoreOf(m: Match): real {
    match m.score case Some(x) => x case None => 0.0
  }

  /** Stable sorting, highest score first. */
  function SortDescending(ms: seq<Match>): seq<Match> {
    if ms == [] then [] else Insert(ms[0], SortDescending(ms[1..]))
  }

  function Insert(m: Match, sorted: seq<Match>): seq<Match> {
    if sorted == [] || ScoreOf(m) >= ScoreOf(sorted[0]) then [m] + sorted
    else [sorted[0]] + Insert(m, sorted[1..])
  }

  predicate Descending(ms: seq<Match>) {
    forall i, j :: 0 <= i < j < |ms| ==> ScoreOf(ms[i]) >= ScoreOf(ms[j])
  }

  /** The matches of one score, in the order given. */
  function WithScore(ms: seq<Match>, x: real): seq<Match> {
    if ms == [] then []
    else (if ScoreOf(ms[0]) == x then [ms[0]] else []) + WithScore(ms[1..], x)
  }

  /** The same matches in the same order among those of equal score. */
  ghost predicate SameTiers(a: seq<Match>, b: seq<Match>) {
    forall x :: WithScore(a, x) == WithScore(b, x)
  }

  lemma {:induction false} InsertDescends(m: Match, s: seq<Match>)
    requires Descending(s)
    ensures Descending(Insert(m, s))
  {
    if s == [] || ScoreOf(m) >= ScoreOf(s[0]) {
      assert forall k :: 0 <= k < |s| ==> ScoreOf(m) >= ScoreOf(s[k]);
      DescendingCons(m, s);
    } else {
      var rest := s[1..];
      InsertDescends(m, rest);
      InsertPermutes(m, rest);
      var r := Insert(m, rest);
      forall k | 0 <= k < |r| ensures ScoreOf(s[0]) >= ScoreOf(r[k]) {
        assert r[k] in multiset(r);
        assert r[k] == m || r[k] in rest;
      }
      DescendingCons(s[0], r);
    }
  }

  lemma {:induction false} InsertPermutes(m: Match, s: seq<Match>)
    ensures multiset(Insert(m, s)) == multiset{m} + multiset(s)
  {
    hide ScoreOf;
    if s != [] && ScoreOf(m) < ScoreOf(s[0]) {
      InsertPermutes(m, s[1..]);
    }
    assert s != [] ==> s == [s[0]] + s[1..];
  }

  lemma DescendingCons(head: Match, rest: seq<Match>)
    requires Descending(rest) && forall k :: 0 <= k < |rest| ==> ScoreOf(head) >= ScoreOf(rest[k])
    ensures Descending([head] + rest)
  {
    var r := [head] + rest;
    forall i, j | 0 <= i < j < |r| ensures ScoreOf(r[i]) >= ScoreOf(r[j]) {
      assert r[j] == rest[j - 1];
      assert i > 0 ==> r[i] == rest[i - 1];
    }
  }

  lemma {:induction false} InsertKeepsTiers(m: Match, s: seq<Match>)
    requires Descending(s)
    ensures SameTiers(Insert(m, s), [m] + s)
  {
    if s != [] && ScoreOf(m) < ScoreOf(s[0]) {
      var rest := s[1..];
      InsertKeepsTiers(m, rest);
      var r := Insert(m, rest);
      forall x ensures WithScore([s[0]] + r, x) == WithScore([m] + s, x) {
        assert ([s[0]] + r)[1..] == r && ([m] + s)[1..] == s && ([m] + rest)[1..] == rest;
        assert WithScore(r, x) == WithScore([m] + rest, x);
      }
    }
  }

  /** Sorting gives a stable descending permutation. */
  lemma {:induction false} SortIsStable(ms: seq<Match>)
    ensures Descending(SortDescending(ms))
    ensures multiset(SortDescending(ms)) == multiset(ms)
    ensures SameTiers(SortDescending(ms), ms)
  {
    if ms != [] {
      var s := SortDescending(ms[1..]);
      SortIsStable(ms[1..]);
      InsertDescends(ms[0], s);
      InsertPermutes(ms[0], s);
      InsertKeepsTiers(ms[0], s);
      assert ms == [ms[0]] + ms[1..];
      forall x ensures WithScore(Insert(ms[0], s), x) == WithScore(ms, x) {
        assert WithScore(Insert(ms[0], s), x) == WithScore([ms[0]] + s, x);
        assert ([ms[0]] + s)[1..] == s;
      }
    }
  }

  lemma {:induction false} TierMember(ms: seq<Match>, i: nat)
    requires i < |ms|
    ensures WithScore(ms, ScoreOf(ms[i])) != []
  {
    if i > 0 {
      TierMember(ms[1..], i - 1);
    }
  }

  lemma {:induction false} TierFromMember(ms: seq<Match>, x: real)
    requires WithScore(ms, x) != []
    ensures exists i :: 0 <= i < |ms| && ScoreOf(ms[i]) == x
  {
    if ScoreOf(ms[0]) == x {
      assert ScoreOf(ms[0]) == x;
    } else {
      TierFromMember(ms[1..], x);
      var i :| 0 <= i < |ms[1..]| && ScoreOf(ms[1..][i]) == x;
      assert ScoreOf(ms[i + 1]) == x;
    }
  }

  lemma TopOf(a: seq<Match>, b: seq<Match>)
    requires Descending(a) && Descending(b) && SameTiers(a, b) && a != []
    ensures b != [] && ScoreOf(a[0]) <= ScoreOf(b[0])
  {
    TierMember(a, 0);
    assert WithScore(b, ScoreOf(a[0])) != [];
    TierFromMember(b, ScoreOf(a[0]));
  }

  /** Descending order and the order among equals leave one arrangement only. */
  lemma {:induction false} ArrangementIsUnique(a: seq<Match>, b: seq<Match>)
    requires Descending(a) && Descending(b) && SameTiers(a, b)
    ensures a == b
  {
    if a == [] {
      if b != [] {
        TopOf(b, a);
      }
    } else {
      TopOf(a, b);
      TopOf(b, a);
      var x := ScoreOf(a[0]);
      assert WithScore(a, x)[0] == a[0] && WithScore(b, x)[0] == b[0];
      forall y ensures WithScore(a[1..], y) == WithScore(b[1..], y) {
        assert WithScore(a, y) == WithScore(b, y);
        if y == x {
          assert WithScore(a[1..], y) == WithScore(a, y)[1..];
          assert WithScore(b[1..], y) == WithScore(b, y)[1..];
        } else {
          assert WithScore(a, y) == [] + WithScore(a[1..], y);
          assert WithScore(b, y) == [] + WithScore(b[1..], y);
          assert [] + WithScore(a[1..], y) == WithScore(a[1..], y);
          assert [] + WithScore(b[1..], y) == WithScore(b[1..], y);
        }
      }
      ArrangementIsUnique(a[1..], b[1..]);
      assert a == [a[0]] + a[1..] && b == [b[0]] + b[1..];
    }
  }

  // ----- the reranker ------------------------------------------------------

  /** `prediction` holds the cross-encoder scores, or nothing when scoring failed. */
  function Rerank(ms: seq<Match>, prediction: Option<seq<real>>): Result<seq<Match>, RerankError> {
    if ms == [] || prediction.None? then Ok(ms)
    else
      var ce, orig := prediction.value, OriginalScores(ms);
      if |ce| != |orig| then Err(LengthsDiffer)
      else Ok(SortDescending(Rescored(ms, Combined(ce, orig))))
  }

  /** A list is the outcome exactly when it is the rescored list in stable descending order. */
  lemma RerankExactly(ms: seq<Match>, ce: seq<real>, out: seq<Match>)
    requires |ce| == |ms|
    ensures Rerank(ms, Some(ce)) == Ok(out) <==>
            Descending(out) && SameTiers(out, Rescored(ms, Combined(ce, OriginalScores(ms))))
  {
    hide Combined;
    var scored := Rescored(ms, Combined(ce, OriginalScores(ms)));
    var r := SortDescending(scored);
    SortIsStable(scored);
    assert ms == [] ==> scored == [] && r == [];
    assert Rerank(ms, Some(ce)) == Ok(r);
    if Descending(out) && SameTiers(out, scored) {
      ArrangementIsUnique(out, r);
    }
  }

  /** The outcome is a permutation of the rescored matches, with every score in the unit interval. */
  lemma RerankedScoresInUnit(ms: seq<Match>, ce: seq<real>)
    requires |ce| == |ms|
    ensures var r := Rerank(ms, Some(ce));
            r.Ok? && multiset(r.value) == multiset(Rescored(ms, Combined(ce, OriginalScores(ms))))
            && forall m <- r.value :: m.score.Some? && 0.0 <= m.score.value <= 1.0
  {
    hide Combined;
    var orig := OriginalScores(ms);
    var scored := Rescored(ms, Combined(ce, orig));
    SortIsStable(scored);
    assert ms == [] ==> scored == [];
    var r := Rerank(ms, Some(ce)).value;
    forall m | m in r ensures m.score.Some? && 0.0 <= m.score.value <= 1.0 {
      assert m in multiset(scored);
      var i :| 0 <= i < |scored| && scored[i] == m;
      CombinedInUnit(ce, orig, i);
    }
  }

  /** A match whose normalised original score leads by more than three sevenths stays in front in any case. */
  lemma LeaderStaysInFront(ms: seq<Match>, ce: seq<real>, i: nat, j: nat, p: nat, q: nat)
    requires |ce| == |ms| && i < |ms| && j < |ms|
    requires Lead(OriginalScores(ms), i, j) > 3.0 / 7.0
    requires Rerank(ms, Some(ce)).Ok?
    requires var scored := Rescored(ms, Combined(ce, OriginalScores(ms)));
             var out := Rerank(ms, Some(ce)).value;
             p < |out| && q < |out| && out[p] == scored[i] && out[q] == scored[j]
    ensures p < q
  {
    var orig := OriginalScores(ms);
    hide *;
    SafeLeadKeeps(orig, ce, i, j);
    RescoredAt(ms, Combined(ce, orig), i);
    RescoredAt(ms, Combined(ce, orig), j);
    OutcomeDescends(ms, ce, p, q);
  }

  lemma SafeLeadKeeps(orig: seq<real>, ce: seq<real>, i: nat, j: nat)
    requires i < |orig| && j < |orig| && |ce| == |orig| && Lead(orig, i, j) > 3.0 / 7.0
    ensures Combined(ce, orig)[i] > Combined(ce, orig)[j]
  {
    assert i != j;
    SafeLeadExactly(orig, i, j);
    hide Combined, Lead;
    assert AlwaysAhead(orig, i, j);
  }

  lemma RescoredAt(ms: seq<Match>, scores: seq<real>, i: nat)
    requires |ms| == |scores| && i < |ms|
    ensures ScoreOf(Rescored(ms, scores)[i]) == scores[i]
  {
  }

  lemma OutcomeDescends(ms: seq<Match>, ce: seq<real>, p: nat, q: nat)
    requires |ce| == |ms| && Rerank(ms, Some(ce)).Ok?
    requires p < |Rerank(ms, Some(ce)).value| && q < |Rerank(ms, Some(ce)).value|
    ensures q <= p ==> ScoreOf(Rerank(ms, Some(ce)).value[q]) >= ScoreOf(Rerank(ms, Some(ce)).value[p])
  {
    hide Rerank, Combined, Rescored, SameTiers, ScoreOf;
    RerankExactly(ms, ce, Rerank(ms, Some(ce)).value);
  }

  /** Scaling and shifting the cross-encoder's scores does not change the outcome. */
  lemma RerankIgnoresScale(ms: seq<Match>, ce: seq<real>, a: real, b: real)
    requires a > 0.0
    ensures Rerank(ms, Some(Affine(ce, a, b))) == Rerank(ms, Some(ce))
  {
    NormalizedIgnoresScale(ce, a, b);
    hide Normalized, Affine, SortDescending, Rescored;
    if |ce| == |ms| {
      assert Combined(Affine(ce, a, b), OriginalScores(ms)) == Combined(ce, OriginalScores(ms));
    }
  }

  // ----- scores and failures spelled out -----------------------------------

  /** Where a score lies between the least and the greatest; the middle if all are equal, the top if it is alone. */
  function Placed(s: seq<real>, x: real, low: real, high: real): real {
    if |s| == 1 then 1.0 else if low < high then (x - low) / (high - low) else 0.5
  }

  /** `low` and `high` are scores in the list that no other falls below or exceeds. */
  predicate Bounds(s: seq<real>, low: real, high: real) {
    low in s && high in s && forall x <- s :: low <= x <= high
  }

  lemma NormalizedIsPlaced(s: seq<real>, i: nat, low: real, high: real)
    requires i < |s| && Bounds(s, low, high)
    ensures Normalized(s)[i] == Placed(s, s[i], low, high)
  {
    assert Least(s) == low && Greatest(s) == high;
  }

  /**
   * The new score of a match, from the scores given and predicted: thirty parts of where the prediction lies among
   * the predictions, seventy of where the given score lies among those given, a missing one counting as zero.
   */
  lemma ScoreSpelledOut(ms: seq<Match>, ce: seq<real>, i: nat, ceLow: real, ceHigh: real, low: real, high: real)
    requires |ce| == |ms| && i < |ms| && Bounds(ce, ceLow, ceHigh) && Bounds(OriginalScores(ms), low, high)
    ensures var given := OriginalScores(ms);
            var m := Rescored(ms, Combined(ce, given))[i];
            && given[i] == (if ms[i].score.Some? then ms[i].score.value else 0.0)
            && m.content == ms[i].content
            && m.score == Some(0.3 * Placed(ce, ce[i], ceLow, ceHigh) + 0.7 * Placed(given, given[i], low, high))
  {
    hide Normalized, Placed;
    NormalizedIsPlaced(ce, i, ceLow, ceHigh);
    NormalizedIsPlaced(OriginalScores(ms), i, low, high);
  }

  /** Without matches or without a prediction nothing changes; predictions of the wrong number raise. */
  lemma RerankFallsBack(ms: seq<Match>, prediction: Option<seq<real>>)
    ensures ms == [] || prediction.None? ==> Rerank(ms, prediction) == Ok(ms)
    ensures Rerank(ms, prediction) == Err(LengthsDiffer)
       <==> ms != [] && prediction.Some? && |prediction.value| != |ms|
  {
  }
}
