/** Version strings, specifiers and constraint strings of the dependency resolver. */
module Versions {
  import opened Wrappers
  import opened PyText

  /** The two exceptions that version and constraint handling can raise. */
  datatype PyError = ValueError | IndexError

  const DEV: nat := 0
  const ALPHA: nat := 1
  const BETA: nat := 2
  const RC: nat := 3
  const FINAL: nat := 4

  /** The comparable tuple `(major, minor, micro, (pre_rank, pre_num), (post_rank, post_num))`. */
  datatype Version = Version(major: nat, minor: nat, micro: nat,
                             preRank: nat, preNum: nat, postRank: nat, postNum: nat)
  {
    /** Lexicographic comparison. */
    predicate Less(o: Version) {
      if major != o.major then major < o.major
      else if minor != o.minor then minor < o.minor
      else if micro != o.micro then micro < o.micro
      else if preRank != o.preRank then preRank < o.preRank
      else if preNum != o.preNum then preNum < o.preNum
      else if postRank != o.postRank then postRank < o.postRank
      else postNum < o.postNum
    }

    predicate AtMost(o: Version) {
      this == o || Less(o)
    }
  }

  // ----- parse_version -----------------------------------------------------

  /** The further `.N` release segments at the start of `s`, and what follows them. */
  function ScanSegments(s: string): (r: (seq<nat>, string))
    decreases |s|
  {
    var k := if s != "" && s[0] == '.' then DigitRun(s[1..]) else 0;
    if k == 0 then ([], s)
    else
      var (more, rest) := ScanSegments(s[1 + k..]);
      ([NatValue(s[1..][..k])] + more, rest)
  }

  /** Rank and length of the pre-release label at the start of `s`, in any letter case. */
  function PreLabel(s: string): (r: Option<(nat, nat)>)
    ensures r.Some? ==> r.value.1 <= |s|
  {
    var t := Lower(s);
    if StartsWith(t, "alpha") then Some((ALPHA, 5))
    else if StartsWith(t, "a") then Some((ALPHA, 1))
    else if StartsWith(t, "beta") then Some((BETA, 4))
    else if StartsWith(t, "b") then Some((BETA, 1))
    else if StartsWith(t, "rc") then Some((RC, 2))
    else if StartsWith(t, "c") then Some((RC, 1))
    else if StartsWith(t, "dev") then Some((DEV, 3))
    else None
  }

  datatype Tag = Tag(rank: nat, num: nat, rest: string)

  /** The optional pre-release part: separator, label, number. */
  function ScanPre(s: string): Tag {
    var t := if s != "" && (s[0] == '-' || s[0] == '.') then s[1..] else s;
    match PreLabel(t)
    case None => Tag(FINAL, 0, s)
    case Some((rank, len)) =>
      var k := DigitRun(t[len..]);
      Tag(rank, NatValue(t[len..][..k]), t[len..][k..])
  }

  /** The optional `.postN` part; its number is required. */
  function ScanPost(s: string): Tag {
    var k := if StartsWith(Lower(s), ".post") then DigitRun(s[5..]) else 0;
    if k == 0 then Tag(0, 0, s) else Tag(1, NatValue(s[5..][..k]), s[5..][k..])
  }

  function MatchVersion(s: string): Result<Version, PyError> {
    var k := DigitRun(s);
    var (segments, afterRelease) := ScanSegments(s[k..]);
    var pre := ScanPre(afterRelease);
    var post := ScanPost(pre.rest);
    if k == 0 || (post.rest != "" && post.rest != "\n") then Err(ValueError)
    else Ok(Version(NatValue(s[..k]),
                    if |segments| > 0 then segments[0] else 0,
                    if |segments| > 1 then segments[1] else 0,
                    pre.rank, pre.num, post.rank, post.num))
  }

  function ParseVersion(text: string): Result<Version, PyError> {
    MatchVersion(RemoveSuffix(Before(Strip(text), '+'), ".*"))
  }

  // ----- specifiers --------------------------------------------------------

  datatype Op = Compatible | Eq | Ne | Ge | Le | Gt | Lt

  predicate IsParen(c: char) {
    c == '(' || c == ')'
  }

  function ParseSpecifier(spec: string): Result<(Op, string), PyError> {
    var s := StripWhere(Strip(spec), IsParen);
    if StartsWith(s, "~=") then Ok((Compatible, Strip(s[2..])))
    else if StartsWith(s, "==") then Ok((Eq, Strip(s[2..])))
    else if StartsWith(s, "!=") then Ok((Ne, Strip(s[2..])))
    else if StartsWith(s, ">=") then Ok((Ge, Strip(s[2..])))
    else if StartsWith(s, "<=") then Ok((Le, Strip(s[2..])))
    else if StartsWith(s, ">") then Ok((Gt, Strip(s[1..])))
    else if StartsWith(s, "<") then Ok((Lt, Strip(s[1..])))
    else if s != "" && IsDigit(s[0]) then Ok((Eq, s))
    else Err(ValueError)
  }

  /** `int(text)`. */
  function ParseInt(text: string): Result<int, PyError> {
    var s := Strip(text);
    var signed := s != "" && (s[0] == '+' || s[0] == '-');
    var digits := if signed then s[1..] else s;
    if digits == "" || !AllDigits(digits) then Err(ValueError)
    else Ok(if signed && s[0] == '-' then -(NatValue(digits) as int) else NatValue(digits))
  }

  /** `str(n)`. */
  function IntText(n: int): string {
    if n < 0 then "-" + NatText(-n) else NatText(n)
  }

  /** The exclusive upper bound of `~=`: drop the last component, bump the one before it. */
  function CompatibleUpperBound(text: string): Result<Version, PyError> {
    var parts := Split(text, '.');
    var kept := parts[..|parts| - 1];
    if kept == [] then Err(IndexError)
    else
      var n :- ParseInt(kept[|kept| - 1]);
      ParseVersion(Join(kept[|kept| - 1 := IntText(n + 1)], '.'))
  }

  /** Is `prefix` a prefix of the raw dotted components of `version`? */
  predicate PrefixMatches(version: string, prefix: string) {
    Split(prefix, '.') <= Split(version, '.')
  }

  function CheckSpecifier(version: string, v: Version, op: Op, text: string): Result<bool, PyError> {
    if op == Eq && EndsWith(text, ".*") then
      Ok(PrefixMatches(version, text[..|text| - 2]))
    else if op == Compatible then
      var c :- ParseVersion(text);
      var upper :- CompatibleUpperBound(text);
      Ok(c.AtMost(v) && v.Less(upper))
    else
      var c :- ParseVersion(text);
      match op
      case Eq => Ok(v == c)
      case Ne => Ok(v != c)
      case Ge => Ok(c.AtMost(v))
      case Le => Ok(v.AtMost(c))
      case Gt => Ok(c.Less(v))
      case Lt => Ok(v.Less(c))
  }

  // ----- constraints -------------------------------------------------------

  /** The stripped parts that are not empty, in order. */
  function NonEmptyTrimmed(parts: seq<string>): seq<string> {
    if parts == [] then []
    else
      var head := Strip(parts[0]);
      (if head == "" then [] else [head]) + NonEmptyTrimmed(parts[1..])
  }

  /** The specifiers a constraint string stands for. */
  function Clauses(constraint: string): seq<string> {
    NonEmptyTrimmed(Split(constraint, ','))
  }

  function EvalClause(version: string, v: Version, clause: string): Result<bool, PyError> {
    var parsed :- ParseSpecifier(clause);
    CheckSpecifier(version, v, parsed.0, parsed.1)
  }

  type Test = string -> Result<bool, PyError>

  /** The test that one version applies to each clause. */
  function TestOf(version: string, v: Version): Test {
    clause => EvalClause(version, v, clause)
  }

  /** Conjunction of the clauses, left to right, stopping at the first that fails or raises. */
  function EvalAll(test: Test, clauses: seq<string>): Result<bool, PyError> {
    if clauses == [] then Ok(true)
    else if test(clauses[0]) == Ok(true) then EvalAll(test, clauses[1..])
    else test(clauses[0])
  }

  /** The meaning of a constraint: nothing to check, or every clause in turn. */
  function Satisfies(version: string, constraint: string): Result<bool, PyError> {
    if Blank(constraint) then Ok(true)
    else
      var v :- ParseVersion(version);
      EvalAll(TestOf(version, v), Clauses(constraint))
  }

  predicate Meets(version: string, constraint: string) {
    Satisfies(version, constraint) == Ok(true)
  }

  function MergeConstraints(existing: Option<string>, new': string): string {
    if existing.None? || existing.value == "" then new' else existing.value + "," + new'
  }

  lemma {:induction false} ClausesOfStrip(s: string)
    ensures Clauses(Strip(s)) == Clauses(s)
  {
    ClausesOfLStrip(s);
    ClausesOfRStrip(LStrip(s, IsSpace));
  }

  lemma {:induction false} ClausesOfLStrip(s: string)
    ensures Clauses(LStrip(s, IsSpace)) == Clauses(s)
  {
    if s != "" && IsSpace(s[0]) {
      ClausesOfLStrip(s[1..]);
      StripOfSpaceBefore(Split(s[1..], ',')[0], s[0]);
    }
  }

  lemma {:induction false} ClausesOfRStrip(s: string)
    ensures Clauses(RStrip(s, IsSpace)) == Clauses(s)
  {
    if s != "" && IsSpace(s[|s| - 1]) {
      var t, c := s[..|s| - 1], s[|s| - 1];
      assert s == t + [c];
      ClausesOfRStrip(t);
      SplitOfSnoc(t, c, ',');
      var p := Split(t, ',');
      var front, last := p[..|p| - 1], p[|p| - 1];
      assert p == front + [last];
      NonEmptyTrimmedAppend(front, [last]);
      NonEmptyTrimmedAppend(front, [last + [c]]);
      StripOfSpaceAfter(last, c);
      hide Strip, Split, RStrip;
      TrimmedOne(last);
      TrimmedOne(last + [c]);
    }
  }

  lemma TrimmedOne(part: string)
    ensures NonEmptyTrimmed([part]) == if Strip(part) == "" then [] else [Strip(part)]
  {
    hide Strip;
  }

  lemma {:induction false} NonEmptyTrimmedAppend(a: seq<string>, b: seq<string>)
    ensures NonEmptyTrimmed(a + b) == NonEmptyTrimmed(a) + NonEmptyTrimmed(b)
  {
    if a == [] {
      assert a + b == b;
    } else {
      hide Strip;
      NonEmptyTrimmedAppend(a[1..], b);
      assert (a + b)[1..] == a[1..] + b && (a + b)[0] == a[0];
      var head := if Strip(a[0]) == "" then [] else [Strip(a[0])];
      assert head + (NonEmptyTrimmed(a[1..]) + NonEmptyTrimmed(b))
        == (head + NonEmptyTrimmed(a[1..])) + NonEmptyTrimmed(b);
    }
  }

  lemma EvalAllCons(test: Test, head: string, more: seq<string>)
    ensures EvalAll(test, [head] + more) == if test(head) == Ok(true) then EvalAll(test, more) else test(head)
  {
    assert ([head] + more)[1..] == more;
  }

  lemma EvalAllHead(test: Test, parts: seq<string>, spec: string)
    requires parts != [] && spec == Strip(parts[0])
    ensures EvalAll(test, NonEmptyTrimmed(parts))
         == if spec == "" || test(spec) == Ok(true) then EvalAll(test, NonEmptyTrimmed(parts[1..])) else test(spec)
  {
    var more := NonEmptyTrimmed(parts[1..]);
    EvalAllCons(test, spec, more);
    assert NonEmptyTrimmed(parts) == if spec == "" then more else [spec] + more;
  }

  lemma SatisfiesIs(version: string, constraint: string)
    ensures Satisfies(version, constraint)
         == if Strip(constraint) == "" then Ok(true)
            else match ParseVersion(version)
                 case Err(e) => Err(e)
                 case Ok(v) => EvalAll(TestOf(version, v), NonEmptyTrimmed(Split(Strip(constraint), ',')))
  {
    StripBlank(constraint);
    ClausesOfStrip(constraint);
    hide Strip, Split, ParseVersion, NonEmptyTrimmed, EvalAll;
  }

  lemma NothingFails(test: Test)
    ensures EvalAll(test, NonEmptyTrimmed([])) == Ok(true)
  {
  }

  /** The source's early-exit loop computes the meaning of the constraint. */
  method VersionSatisfies(version: string, constraint: string) returns (r: Result<bool, PyError>)
    ensures r == Satisfies(version, constraint)
  {
    hide Strip, Split, ParseVersion, Satisfies, NonEmptyTrimmed, EvalAll, ParseSpecifier, CheckSpecifier;
    var stripped := Strip(constraint);
    SatisfiesIs(version, constraint);
    if stripped == "" {
      return Ok(true);
    }
    var parsed := ParseVersion(version);
    if parsed.Err? {
      return Err(parsed.error);
    }
    var specs := Split(stripped, ',');
    ghost var test := TestOf(version, parsed.value);
    assert specs[0..] == specs;
    for i := 0 to |specs|
      invariant EvalAll(test, NonEmptyTrimmed(specs[i..]))
             == Satisfies(version, constraint)
    {
      assert specs[i..][1..] == specs[i + 1..];
      var spec := Strip(specs[i]);
      EvalAllHead(test, specs[i..], spec);
      if spec != "" {
        var split := ParseSpecifier(spec);
        if split.Err? {
          return Err(split.error);
        }
        var ok := CheckSpecifier(version, parsed.value, split.value.0, split.value.1);
        if ok.Err? || !ok.value {
          return ok;
        }
      }
    }
    assert specs[|specs|..] == [];
    NothingFails(test);
    return Ok(true);
  }
}
