/** Whole runs of the prompt catalog, against what the log of operations says. */
module PromptLog {
  import opened Wrappers
  import opened Template
  import opened PromptStore

  // ----- what a prompt is, read off the log --------------------------------

  /**
   * The texts of the prompt since its creation, in order: each valid creation and revision adds one, a creation only
   * where there is no prompt and a revision only where there is one.
   */
  function TextsOf(log: seq<Op>, id: string): seq<PromptVersion> {
    if log == [] then []
    else
      var before := TextsOf(log[..|log| - 1], id);
      match log[|log| - 1]
      case Creating(i, _, v) => if i == id && before == [] && Valid(v.template, v.variables) then [v] else before
      case Revising(i, v, _) =>
        if i == id && before != [] && Valid(v.template, v.variables) then before + [v] else before
      case Deleting(i) => if i == id then [] else before
  }

  /** The number of the last text that was to be the default, else of the first. */
  function DefaultOf(log: seq<Op>, id: string): nat {
    if log == [] then 0
    else
      var before, texts := log[..|log| - 1], TextsOf(log, id);
      match log[|log| - 1]
      case Creating(_, _, _) => if |texts| > |TextsOf(before, id)| then 1 else DefaultOf(before, id)
      case Revising(_, _, asked) =>
        if asked && |texts| > |TextsOf(before, id)| then |texts| else DefaultOf(before, id)
      case Deleting(_) => DefaultOf(before, id)
  }

  /** The name given when the prompt was created. */
  function NameOf(log: seq<Op>, id: string): string {
    if log == [] then ""
    else
      var before := log[..|log| - 1];
      match log[|log| - 1]
      case Creating(_, name, _) => if |TextsOf(log, id)| > |TextsOf(before, id)| then name else NameOf(before, id)
      case _ => NameOf(before, id)
  }

  // ----- refinement --------------------------------------------------------

  lemma {:induction false} RunOfConcat(t: Tables, a: seq<Op>, b: seq<Op>)
    ensures Run(t, a + b) == Run(Run(t, a), b)
    decreases a
  {
    if a == [] {
      assert a + b == b;
    } else {
      assert (a + b)[1..] == a[1..] + b;
      RunOfConcat(Apply(t, a[0]), a[1..], b);
    }
  }

  lemma RunOfSnoc(log: seq<Op>)
    requires log != []
    ensures Run(EMPTY_TABLES, log) == Apply(Run(EMPTY_TABLES, log[..|log| - 1]), log[|log| - 1])
  {
    hide Apply;
    var front, last := log[..|log| - 1], log[|log| - 1];
    assert log == front + [last];
    RunOfConcat(EMPTY_TABLES, front, [last]);
    assert [last][1..] == [];
  }

  /** The tables hold what the log says of this prompt. */
  ghost predicate Holds(t: Tables, log: seq<Op>, id: string) {
    && (id in t.prompts <==> TextsOf(log, id) != [])
    && (id in t.prompts ==>
          t.prompts[id] == Prompt(NameOf(log, id), DefaultOf(log, id)) && 1 <= DefaultOf(log, id) <= |TextsOf(log, id)|)
    && (forall n :: (id, n) in t.versions <==> 1 <= n <= |TextsOf(log, id)|)
    && (forall n | 1 <= n <= |TextsOf(log, id)| :: t.versions[(id, n)] == TextsOf(log, id)[n - 1])
  }

  lemma HighestNumber(t: Tables, log: seq<Op>, id: string)
    requires Holds(t, log, id)
    ensures VersionNumbers(t, id) == {} <==> TextsOf(log, id) == []
    ensures VersionNumbers(t, id) != {} ==> MaxOf(VersionNumbers(t, id)) == |TextsOf(log, id)|
  {
    hide TextsOf, DefaultOf, NameOf;
    var n := |TextsOf(log, id)|;
    forall k ensures k in VersionNumbers(t, id) <==> 1 <= k <= n {
      InNumbers(t, id, k);
    }
    if n > 0 {
      assert n in VersionNumbers(t, id);
    }
  }

  lemma OneApplied(t: Tables, log: seq<Op>, id: string)
    requires log != [] && Holds(t, log[..|log| - 1], id)
    ensures Holds(Apply(t, log[|log| - 1]), log, id)
  {
    hide Valid, VersionNumbers;
    var before := log[..|log| - 1];
    HighestNumber(t, before, id);
    var u := Apply(t, log[|log| - 1]);
    var texts := TextsOf(log, id);
    assert forall i :: 0 <= i < |texts| && i < |TextsOf(before, id)| ==> texts[i] == TextsOf(before, id)[i];
  }

  /**
   * After every sequence of operations: the prompt is live exactly if it has texts; its name, its default and the
   * text and variables under each number are those the log gives, and no other number is stored.
   */
  lemma {:induction false} StoreRefinesLog(log: seq<Op>, id: string)
    ensures Holds(Run(EMPTY_TABLES, log), log, id)
  {
    if log != [] {
      hide Holds, Apply, Run;
      StoreRefinesLog(log[..|log| - 1], id);
      RunOfSnoc(log);
      OneApplied(Run(EMPTY_TABLES, log[..|log| - 1]), log, id);
    }
  }

  // ----- answers -----------------------------------------------------------

  /** The error an operation ends with after a log, if any: invalid texts are found out before anything else. */
  function FailureOf(log: seq<Op>, op: Op): Option<StoreError> {
    var live := TextsOf(log, op.id) != [];
    match op
    case Creating(_, _, v) =>
      if !Valid(v.template, v.variables) then Some(ValidationError) else if live then Some(DuplicateId) else None
    case Revising(_, v, _) =>
      if !Valid(v.template, v.variables) then Some(ValidationError) else if live then None else Some(NotFound)
    case Deleting(_) => if live then None else Some(NotFound)
  }

  lemma OperationsAnswer(log: seq<Op>, op: Op)
    ensures match Attempt(Run(EMPTY_TABLES, log), op)
            case Ok(_) => FailureOf(log, op) == None
            case Err(e) => FailureOf(log, op) == Some(e)
  {
    hide Valid, VersionNumbers, Run;
    var t := Run(EMPTY_TABLES, log);
    StoreRefinesLog(log, op.id);
    HighestNumber(t, log, op.id);
  }

  /** Reading gives the text under the number asked for, or under the default; anything else is not found. */
  lemma ReadingAnswers(log: seq<Op>, id: string, version: Option<int>)
    ensures var texts := TextsOf(log, id);
            var n := if version.Some? then version.value else DefaultOf(log, id);
            PromptStore.Find(Run(EMPTY_TABLES, log), id, version)
            == if 1 <= n <= |texts| && texts != [] then Ok(texts[n - 1]) else Err(NotFound)
  {
    hide Run, TextsOf, DefaultOf, NameOf;
    StoreRefinesLog(log, id);
  }
}
