/** The versioned prompt catalog: two tables and what every reachable state of them keeps. */
module PromptStore {
  import opened Wrappers
  import opened Template

  datatype Prompt = Prompt(name: string, defaultVersion: int)

  datatype PromptVersion = PromptVersion(template: string, variables: seq<string>)

  datatype StoreError = ValidationError | NotFound | DuplicateId

  type VersionKey = (string, int)

  datatype Tables = Tables(prompts: map<string, Prompt>, versions: map<VersionKey, PromptVersion>)

  const EMPTY_TABLES := Tables(map[], map[])

  // ----- operations --------------------------------------------------------

  /** The id is a random one; reusing a live one would violate the primary key. */
  function Create(t: Tables, id: string, name: string, v: PromptVersion): Result<Tables, StoreError> {
    if !Valid(v.template, v.variables) then Err(ValidationError)
    else if id in t.prompts || (id, 1) in t.versions then Err(DuplicateId)
    else Ok(Tables(t.prompts[id := Prompt(name, 1)], t.versions[(id, 1) := v]))
  }

  function VersionNumbers(t: Tables, id: string): set<int> {
    set k | k in t.versions && k.0 == id :: k.1
  }

  predicate IsMax(s: set<int>, m: int) {
    m in s && forall x <- s :: x <= m
  }

  lemma {:induction false} MaxExists(s: set<int>)
    requires s != {}
    ensures exists m :: IsMax(s, m)
    decreases |s|
  {
    assert (forall y :: y !in s) ==> s == {};
    var x :| x in s;
    if s == {x} {
      assert IsMax(s, x);
    } else {
      MaxExists(s - {x});
      var m :| IsMax(s - {x}, m);
      assert forall y <- s :: y == x || y in s - {x};
      assert IsMax(s, if x > m then x else m);
    }
  }

  function MaxOf(s: set<int>): (m: int)
    requires s != {}
    ensures IsMax(s, m)
  {
    MaxExists(s);
    var m :| IsMax(s, m);
    m
  }

  /** One version beyond the highest; it becomes the default only on request. */
  function Revise(t: Tables, id: string, v: PromptVersion, makeDefault: bool): Result<Tables, StoreError> {
    if !Valid(v.template, v.variables) then Err(ValidationError)
    else if VersionNumbers(t, id) == {} then Err(NotFound)
    else
      var next := MaxOf(VersionNumbers(t, id)) + 1;
      if makeDefault && id !in t.prompts then Err(NotFound)
      else Ok(Tables(if makeDefault then t.prompts[id := t.prompts[id].(defaultVersion := next)] else t.prompts,
                     t.versions[(id, next) := v]))
  }

  function Remove(t: Tables, id: string): Result<Tables, StoreError> {
    if id !in t.prompts then Err(NotFound)
    else Ok(Tables(t.prompts - {id}, map k | k in t.versions && k.0 != id :: t.versions[k]))
  }

  /** A given version, or the default one. */
  function Find(t: Tables, id: string, version: Option<int>): Result<PromptVersion, StoreError> {
    if version.None? && id !in t.prompts then Err(NotFound)
    else
      var number := if version.Some? then version.value else t.prompts[id].defaultVersion;
      if (id, number) in t.versions then Ok(t.versions[(id, number)]) else Err(NotFound)
  }

  class Store {
    var prompts: map<string, Prompt>
    var versions: map<VersionKey, PromptVersion>

    function Contents(): Tables
      reads this
    {
      Tables(prompts, versions)
    }

    constructor ()
      ensures Contents() == EMPTY_TABLES
    {
      prompts, versions := map[], map[];
    }

    method CreatePrompt(id: string, name: string, template: string, variables: seq<string>)
      returns (r: Result<PromptVersion, StoreError>)
      modifies this
      ensures match Create(old(Contents()), id, name, PromptVersion(template, variables))
              case Ok(t) => r == Ok(PromptVersion(template, variables)) && Contents() == t
              case Err(e) => r == Err(e) && Contents() == old(Contents())
    {
      hide Valid;
      var ok := ValidateTemplate(template, variables);
      if !ok {
        return Err(ValidationError);
      }
      if id in prompts || (id, 1) in versions {
        return Err(DuplicateId);
      }
      var row := PromptVersion(template, variables);
      prompts := prompts[id := Prompt(name, 1)];
      versions := versions[(id, 1) := row];
      return Ok(row);
    }

    method GetPrompt(id: string, version: Option<int>) returns (r: Result<PromptVersion, StoreError>)
      ensures r == Find(Contents(), id, version)
    {
      var number;
      if version.None? {
        if id !in prompts {
          return Err(NotFound);
        }
        number := prompts[id].defaultVersion;
      } else {
        number := version.value;
      }
      if (id, number) !in versions {
        return Err(NotFound);
      }
      return Ok(versions[(id, number)]);
    }

    method UpdatePrompt(id: string, template: string, variables: seq<string>, makeDefault: bool)
      returns (r: Result<PromptVersion, StoreError>)
      modifies this
      ensures match Revise(old(Contents()), id, PromptVersion(template, variables), makeDefault)
              case Ok(t) => r == Ok(PromptVersion(template, variables)) && Contents() == t
              case Err(e) => r == Err(e) && Contents() == old(Contents())
      ensures r.Ok? ==> var next := MaxOf(VersionNumbers(old(Contents()), id)) + 1;
                        && versions == old(versions)[(id, next) := PromptVersion(template, variables)]
                        && (!makeDefault ==> prompts == old(prompts))
                        && (makeDefault ==>
                              && id in old(prompts)
                              && prompts == old(prompts)[id := Prompt(old(prompts)[id].name, next)])
    {
      hide Valid;
      var ok := ValidateTemplate(template, variables);
      if !ok {
        return Err(ValidationError);
      }
      var numbers := VersionNumbers(Contents(), id);
      if numbers == {} {
        return Err(NotFound);
      }
      var next := MaxOf(numbers) + 1;
      var row := PromptVersion(template, variables);
      if makeDefault {
        if id !in prompts {
          return Err(NotFound);
        }
        prompts := prompts[id := prompts[id].(defaultVersion := next)];
      }
      versions := versions[(id, next) := row];
      return Ok(row);
    }

    method DeletePrompt(id: string) returns (failure: Option<StoreError>)
      modifies this
      ensures match Remove(old(Contents()), id)
              case Ok(t) => failure == None && Contents() == t
              case Err(e) => failure == Some(e) && Contents() == old(Contents())
    {
      if id !in prompts {
        return Some(NotFound);
      }
      versions := map k | k in versions && k.0 != id :: versions[k];
      prompts := prompts - {id};
      return None;
    }
  }

  // ----- every reachable state ---------------------------------------------

  datatype Op =
    | Creating(id: string, name: string, version: PromptVersion)
    | Revising(id: string, version: PromptVersion, makeDefault: bool)
    | Deleting(id: string)

  function Attempt(t: Tables, op: Op): Result<Tables, StoreError> {
    match op
    case Creating(id, name, v) => Create(t, id, name, v)
    case Revising(id, v, d) => Revise(t, id, v, d)
    case Deleting(id) => Remove(t, id)
  }

  /** A failed operation leaves the tables alone. */
  function Apply(t: Tables, op: Op): Tables {
    match Attempt(t, op) case Ok(u) => u case Err(_) => t
  }

  function Run(t: Tables, ops: seq<Op>): Tables
    decreases ops
  {
    if ops == [] then t else Run(Apply(t, ops[0]), ops[1..])
  }

  /** Number of versions of a prompt. */
  function Count(t: Tables, id: string): nat {
    |VersionNumbers(t, id)|
  }

  /** Live prompts have versions 1 to n without gaps and a default among them; others have none; all are valid. */
  ghost predicate Consistent(t: Tables) {
    && (forall id <- t.prompts :: Count(t, id) > 0 && 1 <= t.prompts[id].defaultVersion <= Count(t, id))
    && (forall id :: id !in t.prompts ==> VersionNumbers(t, id) == {})
    && (forall id, n :: (id, n) in t.versions <==> id in t.prompts && 1 <= n <= Count(t, id))
    && (forall k <- t.versions :: Valid(t.versions[k].template, t.versions[k].variables))
  }

  lemma InNumbers(t: Tables, id: string, n: int)
    ensures n in VersionNumbers(t, id) <==> (id, n) in t.versions
  {
    if (id, n) in t.versions {
      assert (id, n).0 == id && (id, n).1 == n;
    }
  }

  lemma SameNumbers(t: Tables, u: Tables, id: string)
    requires forall n :: (id, n) in t.versions <==> (id, n) in u.versions
    ensures VersionNumbers(t, id) == VersionNumbers(u, id)
  {
    forall n ensures n in VersionNumbers(t, id) <==> n in VersionNumbers(u, id) {
      InNumbers(t, id, n);
      InNumbers(u, id, n);
    }
  }

  /** In a consistent state the next version number is one more than the count. */
  lemma NextIsCountPlusOne(t: Tables, id: string)
    requires Consistent(t) && id in t.prompts
    ensures VersionNumbers(t, id) != {} && MaxOf(VersionNumbers(t, id)) == Count(t, id)
  {
    hide Valid;
    var n := Count(t, id);
    InNumbers(t, id, n);
    forall x <- VersionNumbers(t, id) ensures x <= n {
      InNumbers(t, id, x);
    }
  }

  lemma AddedNumbers(t: Tables, u: Tables, id: string, n: int)
    requires n !in VersionNumbers(t, id)
    requires forall m :: (id, m) in u.versions <==> (id, m) in t.versions || m == n
    ensures VersionNumbers(u, id) == VersionNumbers(t, id) + {n} && Count(u, id) == Count(t, id) + 1
  {
    forall m ensures m in VersionNumbers(u, id) <==> m in VersionNumbers(t, id) + {n} {
      InNumbers(t, id, m);
      InNumbers(u, id, m);
    }
  }

  /** Tables that differ in one prompt only, which is consistent in itself, are consistent. */
  lemma OneChanged(t: Tables, u: Tables, id: string)
    requires Consistent(t)
    requires forall other | other != id :: (other in u.prompts <==> other in t.prompts)
               && (other in t.prompts ==> u.prompts[other] == t.prompts[other])
    requires forall other, n | other != id :: ((other, n) in u.versions <==> (other, n) in t.versions)
    requires forall k <- u.versions :: Valid(u.versions[k].template, u.versions[k].variables)
    requires if id in u.prompts then Count(u, id) > 0 && 1 <= u.prompts[id].defaultVersion <= Count(u, id)
             else VersionNumbers(u, id) == {}
    requires forall n :: (id, n) in u.versions <==> id in u.prompts && 1 <= n <= Count(u, id)
    ensures Consistent(u)
  {
    hide Valid, VersionNumbers;
    forall other | other != id ensures VersionNumbers(u, other) == VersionNumbers(t, other) {
      SameNumbers(t, u, other);
    }
  }

  lemma StepKeepsConsistent(t: Tables, op: Op)
    requires Consistent(t)
    ensures Consistent(Apply(t, op))
  {
    hide Valid, VersionNumbers;
    var u := Apply(t, op);
    if Attempt(t, op).Ok? {
      match op
      case Creating(id, name, v) =>
        AddedNumbers(t, u, id, 1);
        OneChanged(t, u, id);
      case Revising(id, v, d) =>
        NextIsCountPlusOne(t, id);
        InNumbers(t, id, Count(t, id) + 1);
        AddedNumbers(t, u, id, Count(t, id) + 1);
        OneChanged(t, u, id);
      case Deleting(id) =>
        NoNumbers(u, id);
        OneChanged(t, u, id);
    }
  }

  lemma NoNumbers(t: Tables, id: string)
    requires forall k <- t.versions :: k.0 != id
    ensures VersionNumbers(t, id) == {}
  {
  }

  /** Every reachable state is consistent. */
  lemma {:induction false} ReachableIsConsistent(t: Tables, ops: seq<Op>)
    requires Consistent(t)
    ensures Consistent(Run(t, ops))
    decreases ops
  {
    hide Consistent;
    if ops != [] {
      StepKeepsConsistent(t, ops[0]);
      ReachableIsConsistent(Apply(t, ops[0]), ops[1..]);
    }
  }

  lemma EmptyIsConsistent()
    ensures Consistent(EMPTY_TABLES)
  {
    forall id ensures VersionNumbers(EMPTY_TABLES, id) == {} {
    }
  }

  /** A stored version never changes while its prompt is not deleted. */
  lemma {:induction false} VersionsAreImmutable(t: Tables, ops: seq<Op>, key: VersionKey)
    requires Consistent(t) && key in t.versions
    requires forall op <- ops :: op != Deleting(key.0)
    ensures key in Run(t, ops).versions && Run(t, ops).versions[key] == t.versions[key]
    decreases ops
  {
    hide Valid, VersionNumbers;
    if ops != [] {
      var u := Apply(t, ops[0]);
      assert ops[0] in ops && (forall op <- ops[1..] :: op in ops) && key == (key.0, key.1);
      if ops[0].Revising? && ops[0].id == key.0 && Attempt(t, ops[0]).Ok? {
        NextIsCountPlusOne(t, key.0);
      }
      StepKeepsConsistent(t, ops[0]);
      VersionsAreImmutable(u, ops[1..], key);
    }
  }

  /**
   * In every reachable state every stored version is found by its number, and it renders exactly if every declared
   * variable has a value.
   */
  lemma StoredVersionsRender(ops: seq<Op>, key: VersionKey, values: map<string, string>)
    requires key in Run(EMPTY_TABLES, ops).versions
    ensures var t := Run(EMPTY_TABLES, ops);
            && Find(t, key.0, Some(key.1)) == Ok(t.versions[key])
            && (Render(t.versions[key].template, t.versions[key].variables, values).Ok?
                <==> SetOf(t.versions[key].variables) <= values.Keys)
  {
    hide Valid, VersionNumbers, Render;
    EmptyIsConsistent();
    ReachableIsConsistent(EMPTY_TABLES, ops);
    var v := Run(EMPTY_TABLES, ops).versions[key];
    assert key == (key.0, key.1);
    ValidTemplatesRender(v.template, v.variables, values);
  }

  /** In every reachable state the default version of a live prompt is a stored one. */
  lemma DefaultIsStored(ops: seq<Op>, id: string)
    requires id in Run(EMPTY_TABLES, ops).prompts
    ensures var t := Run(EMPTY_TABLES, ops);
            && (id, t.prompts[id].defaultVersion) in t.versions
            && Find(t, id, None) == Find(t, id, Some(t.prompts[id].defaultVersion))
  {
    hide Valid, VersionNumbers;
    EmptyIsConsistent();
    ReachableIsConsistent(EMPTY_TABLES, ops);
  }

  /** In every reachable state a given version is found exactly when the prompt is live and the number is in 1..n. */
  lemma FoundExactly(ops: seq<Op>, id: string, version: int)
    ensures var t := Run(EMPTY_TABLES, ops);
            Find(t, id, Some(version)).Ok? <==> id in t.prompts && 1 <= version <= Count(t, id)
  {
    hide Valid, VersionNumbers;
    EmptyIsConsistent();
    ReachableIsConsistent(EMPTY_TABLES, ops);
  }
}
