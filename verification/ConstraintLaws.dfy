/** Comma-joining constraint strings is conjunction, so constraints only ever tighten. */
module ConstraintLaws {
  import opened Wrappers
  import opened PyText
  import opened Versions

  /** `first and second`, evaluated left to right, where either side may raise. */
  function AndThen(first: Result<bool, PyError>, second: Result<bool, PyError>): Result<bool, PyError> {
    if first == Ok(true) then second else first
  }

  lemma ClausesOfMerge(a: string, b: string)
    requires a != ""
    ensures Clauses(MergeConstraints(Some(a), b)) == Clauses(a) + Clauses(b)
    ensures !Blank(MergeConstraints(Some(a), b))
  {
    SplitOfConcat(a, b, ',');
    NonEmptyTrimmedAppend(Split(a, ','), Split(b, ','));
    assert (a + "," + b)[|a|] == ',' && ',' in a + "," + b;
  }

  lemma {:induction false} EvalAllAppend(test: Test, a: seq<string>, b: seq<string>)
    ensures EvalAll(test, a + b) == AndThen(EvalAll(test, a), EvalAll(test, b))
  {
    if a == [] {
      assert a + b == b;
    } else {
      EvalAllAppend(test, a[1..], b);
      assert (a + b)[1..] == a[1..] + b;
    }
  }

  lemma {:induction false} BlankHasNoClauses(c: string)
    requires Blank(c)
    ensures Clauses(c) == []
  {
    StripBlank(c);
    ClausesOfStrip(c);
    assert Split("", ',') == [""];
  }

  /**
   * The merged constraint means "a, then b", results and exceptions alike. The one exception:
   * two blank constraints, the first not empty, join to a text that is not blank, and
   * that text makes an unreadable version raise where neither part would.
   */
  lemma MergeIsConjunction(version: string, a: string, b: string)
    ensures Satisfies(version, MergeConstraints(Some(a), b)) == AndThen(Satisfies(version, a), Satisfies(version, b))
       <==> ParseVersion(version).Ok? || a == "" || !Blank(a) || !Blank(b)
    ensures MergeConstraints(None, b) == b
  {
    if a != "" {
      ClausesOfMerge(a, b);
      if ParseVersion(version).Ok? {
        var v := ParseVersion(version).value;
        EvalAllAppend(TestOf(version, v), Clauses(a), Clauses(b));
        if Blank(a) { BlankHasNoClauses(a); }
        if Blank(b) { BlankHasNoClauses(b); }
      }
    }
  }

  // ----- tightening --------------------------------------------------------

  /** Every specifier of `weak` is also one of `strong`. */
  predicate Entails(strong: string, weak: string) {
    && (Blank(strong) ==> Blank(weak))
    && forall c <- Clauses(weak) :: c in Clauses(strong)
  }

  lemma {:induction false} EvalAllTrue(test: Test, clauses: seq<string>)
    ensures EvalAll(test, clauses) == Ok(true)
       <==> forall c <- clauses :: test(c) == Ok(true)
  {
    if clauses != [] {
      assert clauses == [clauses[0]] + clauses[1..];
      EvalAllTrue(test, clauses[1..]);
    }
  }

  /** A version that meets the stronger constraint meets the weaker one. */
  lemma EntailsMeets(version: string, strong: string, weak: string)
    requires Entails(strong, weak) && Meets(version, strong)
    ensures Meets(version, weak)
  {
    if !Blank(weak) {
      var v := ParseVersion(version).value;
      EvalAllTrue(TestOf(version, v), Clauses(strong));
      EvalAllTrue(TestOf(version, v), Clauses(weak));
    }
  }

  /** Merging only tightens: the result entails both of its parts. */
  lemma MergeTightens(existing: Option<string>, extra: string)
    ensures Entails(MergeConstraints(existing, extra), extra)
    ensures existing.Some? ==> Entails(MergeConstraints(existing, extra), existing.value)
  {
    if existing.Some? {
      if existing.value == "" {
        BlankHasNoClauses("");
      } else {
        ClausesOfMerge(existing.value, extra);
      }
    }
  }
}
