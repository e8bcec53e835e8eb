/** What every specifier means, from its text on. */
module SpecifierLaws {
  import opened Wrappers
  import opened PyText
  import opened Versions
  import opened VersionShapes
  import opened VersionLaws

  // ----- order -------------------------------------------------------------

  /** A version as the row of numbers it is compared by: three segments, tag, post release. */
  function Row(release: seq<nat>, rank: nat, num: nat, post: Option<nat>): (r: seq<nat>)
    ensures |r| == 7
  {
    [Segment(release, 0), Segment(release, 1), Segment(release, 2), rank, num,
     if post.Some? then 1 else 0, if post.Some? then post.value else 0]
  }

  /** At the first place where they differ, the first row has the smaller number. */
  predicate Below(a: seq<nat>, b: seq<nat>)
    requires |a| == |b|
  {
    exists k :: 0 <= k < |a| && a[k] < b[k] && forall j :: 0 <= j < k ==> a[j] == b[j]
  }

  function RowOf(v: Version): (r: seq<nat>)
    ensures |r| == 7
  {
    [v.major, v.minor, v.micro, v.preRank, v.preNum, v.postRank, v.postNum]
  }

  lemma FirstDifference(a: seq<nat>, b: seq<nat>, k: nat)
    requires |a| == |b| && k < |a| && a[k] != b[k] && forall j :: 0 <= j < k ==> a[j] == b[j]
    ensures Below(a, b) <==> a[k] < b[k]
  {
  }

  lemma LessIsBelow(v: Version, w: Version)
    ensures v.Less(w) <==> Below(RowOf(v), RowOf(w))
    ensures v == w <==> RowOf(v) == RowOf(w)
  {
    var a, b := RowOf(v), RowOf(w);
    if v != w {
      var k := if a[0] != b[0] then 0 else if a[1] != b[1] then 1 else if a[2] != b[2] then 2
               else if a[3] != b[3] then 3 else if a[4] != b[4] then 4 else if a[5] != b[5] then 5 else 6;
      FirstDifference(a, b, k);
    }
  }

  // ----- from the text of a specifier to its parts -------------------------

  /** What may stand around the operator and the version: blanks, and parentheses around both. */
  datatype Around = Around(before: string, open: string, gap: string, tail: string, close: string, after: string)

  predicate Parens(s: string) {
    forall c <- s :: c == '(' || c == ')'
  }

  predicate Padding(w: Around) {
    && Blank(w.before) && Parens(w.open) && Blank(w.gap) && Blank(w.tail) && Parens(w.close) && Blank(w.after)
  }

  function Written(op: string, bound: string, w: Around): string {
    w.before + w.open + op + w.gap + bound + w.tail + w.close + w.after
  }

  /** A text that neither starts nor ends with a blank or a parenthesis, and holds no comma. */
  predicate Solid(s: string) {
    s != "" && ',' !in s && Firm(s[0]) && Firm(s[|s| - 1])
  }

  predicate Firm(c: char) {
    !IsSpace(c) && c != '(' && c != ')'
  }

  lemma StripAroundBlank(pre: string, core: string, post: string)
    requires Blank(pre) && Blank(post) && core != "" && !IsSpace(core[0]) && !IsSpace(core[|core| - 1])
    ensures Strip(pre + core + post) == core
  {
    StripAround(pre, core, post, IsSpace);
  }

  lemma Ends(left: string, core: string, right: string)
    requires core != ""
    ensures var s := left + core + right;
            && s != "" && s[0] == (if left != "" then left[0] else core[0])
            && s[|s| - 1] == if right != "" then right[|right| - 1] else core[|core| - 1]
  {
  }

  lemma OuterEnds(open: string, inner: string, close: string)
    requires Parens(open) && Parens(close) && inner != "" && !IsSpace(inner[0])
    requires close == "" ==> !IsSpace(inner[|inner| - 1])
    ensures var whole := open + inner + close; whole != "" && !IsSpace(whole[0]) && !IsSpace(whole[|whole| - 1])
  {
    hide IsSpace;
    Ends(open, inner, close);
    ParenIsNoSpace();
    assert open != "" ==> open[0] in open;
    assert close != "" ==> close[|close| - 1] in close;
  }

  lemma InnerEnds(core: string, rest: string)
    requires core != "" && Firm(core[0]) && Firm(core[|core| - 1]) && Blank(rest)
    ensures var inner := core + rest;
            && inner != "" && Firm(inner[0]) && !IsParen(inner[|inner| - 1])
            && (rest == "" ==> !IsSpace(inner[|inner| - 1]))
  {
    hide IsSpace;
    ParenIsNoSpace();
    assert rest != "" ==> IsSpace(rest[|rest| - 1]);
  }

  /** Blanks are stripped up to the outer parentheses, or up to the specifier itself. */
  lemma Unwrapped(core: string, w: Around) returns (rest: string)
    requires Padding(w) && core != "" && Firm(core[0]) && Firm(core[|core| - 1])
    ensures Blank(rest) && (w.tail == "" ==> rest == "")
    ensures StripWhere(Strip(w.before + w.open + core + w.tail + w.close + w.after), IsParen) == core + rest
  {
    hide Strip, StripWhere, IsSpace;
    rest := if w.close == "" then "" else w.tail;
    var inner, gone := core + rest, if w.close == "" then w.tail + w.after else w.after;
    var whole := w.open + inner + w.close;
    assert w.before + w.open + core + w.tail + w.close + w.after == w.before + whole + gone;
    InnerEnds(core, rest);
    OuterEnds(w.open, inner, w.close);
    StripAroundBlank(w.before, whole, gone);
    StripAround(w.open, inner, w.close, IsParen);
  }

  lemma ParenIsNoSpace()
    ensures forall c | IsParen(c) :: !IsSpace(c)
  {
  }

  const OPERATORS: map<string, Op> :=
    map["~=" := Compatible, "==" := Eq, "!=" := Ne, ">=" := Ge, "<=" := Le, ">" := Gt, "<" := Lt, "" := Eq]

  /** Nothing but the version: blanks would come to stand before or behind it. */
  predicate Bare(w: Around) {
    w.gap == "" && w.tail == ""
  }

  lemma OperatorReads(spec: string, op: string, behind: string)
    requires op in OPERATORS && StripWhere(Strip(spec), IsParen) == op + behind
    requires behind != "" && behind[0] != '=' && (op == "" ==> IsDigit(behind[0]))
    ensures ParseSpecifier(spec) == Ok((OPERATORS[op], if op == "" then behind else Strip(behind)))
  {
    hide Strip, StripWhere;
    var s := op + behind;
    assert s[|op|..] == behind && s[|op|] == behind[0];
    TwoMark(s, "~=");
    TwoMark(s, "==");
    TwoMark(s, "!=");
    TwoMark(s, ">=");
    TwoMark(s, "<=");
    if |op| == 1 {
      assert s[0] == op[0] && s[1] == behind[0];
    } else if |op| == 2 {
      assert s[0] == op[0] && s[1] == op[1];
    }
    OneMark(s, ">");
    OneMark(s, "<");
  }

  lemma TwoMark(s: string, mark: string)
    requires |mark| == 2
    ensures StartsWith(s, mark) <==> |s| >= 2 && s[0] == mark[0] && s[1] == mark[1]
  {
    if |s| >= 2 && s[0] == mark[0] && s[1] == mark[1] {
      assert mark == s[..2];
    }
  }

  lemma OneMark(s: string, mark: string)
    requires |mark| == 1
    ensures StartsWith(s, mark) <==> s != "" && s[0] == mark[0]
  {
  }

  /** The operator is the one written, none standing for `==`, and the version what is left without blanks. */
  lemma SpecifierReads(op: string, bound: string, w: Around)
    requires Padding(w) && Solid(bound) && IsDigit(bound[0]) && op in OPERATORS && (op == "" ==> Bare(w))
    ensures ParseSpecifier(Written(op, bound, w)) == Ok((OPERATORS[op], bound))
  {
    hide ParseSpecifier, StripWhere;
    SolidOperator(op, bound);
    var core := op + w.gap + bound;
    assert core[0] == (op + bound)[0] && core[|core| - 1] == bound[|bound| - 1];
    var rest := Unwrapped(core, w);
    assert Written(op, bound, w) == w.before + w.open + core + w.tail + w.close + w.after;
    var behind := w.gap + bound + rest;
    assert core + rest == op + behind;
    assert behind[0] == if w.gap != "" then w.gap[0] else bound[0];
    assert w.gap != "" ==> w.gap[0] in w.gap;
    StripAround(w.gap, bound, rest, IsSpace);
    assert op == "" ==> behind == bound;
    OperatorReads(Written(op, bound, w), op, behind);
  }

  lemma SolidOperator(op: string, bound: string)
    requires op in OPERATORS && Solid(bound)
    ensures Solid(op + bound)
  {
    assert op != "" ==> Firm(op[0]) && ',' !in op;
  }

  // ----- a constraint of one specifier -------------------------------------

  /** Blanks around a specifier and parentheses do not make it more than one. */
  lemma OneClause(op: string, bound: string, w: Around)
    requires Padding(w) && Solid(bound) && op in OPERATORS && (op == "" ==> Bare(w))
    ensures !Blank(Written(op, bound, w)) && Clauses(Written(op, bound, w)) == [Strip(Written(op, bound, w))]
    ensures ParseSpecifier(Strip(Written(op, bound, w))) == ParseSpecifier(Written(op, bound, w))
  {
    var s := Written(op, bound, w);
    SolidOperator(op, bound);
    assert ',' !in s;
    assert bound[0] in s && !IsSpace(bound[0]);
    hide Strip, ParseSpecifier, Blank;
    SplitOfPlain(s, ',');
    StripBlank(s);
    StripStripped(s);
    TrimmedOne(s);
    SameSpecifier(s, Strip(s));
  }

  lemma SameSpecifier(s: string, t: string)
    requires Strip(s) == Strip(t)
    ensures ParseSpecifier(s) == ParseSpecifier(t)
  {
    hide Strip, StripWhere;
  }

  lemma SatisfiesOne(version: string, v: Version, op: string, bound: string, w: Around)
    requires ParseVersion(version) == Ok(v)
    requires Padding(w) && Solid(bound) && IsDigit(bound[0]) && op in OPERATORS && (op == "" ==> Bare(w))
    ensures Satisfies(version, Written(op, bound, w)) == CheckSpecifier(version, v, OPERATORS[op], bound)
  {
    hide ParseSpecifier, CheckSpecifier, Clauses, Blank, Solid, Padding, Written, ParseVersion, Strip;
    OneClause(op, bound, w);
    SpecifierReads(op, bound, w);
    var c := Strip(Written(op, bound, w));
    var test := TestOf(version, v);
    assert test(c) == CheckSpecifier(version, v, OPERATORS[op], bound);
    EvalAllCons(test, c, []);
    assert [c] + [] == [c] && EvalAll(test, []) == Ok(true);
  }

  // ----- the operators -----------------------------------------------------

  lemma VersionTextIsSolid(release: seq<nat>, rank: nat, num: nat, post: Option<nat>)
    requires release != [] && ValidTag(rank, num)
    ensures var text := VersionText(release, rank, num, post);
            Solid(text) && IsDigit(text[0]) && !EndsWith(text, ".*")
  {
    hide TextOf, CanonicalShape, Regular, NatText, DotText, Solid, EndsWith;
    var v := CanonicalShape(release, rank, num, post);
    CanonicalIsRegular(release, rank, num, post);
    CanonicalIsText(release, rank, num, post);
    NoEnding(release, rank, num, post);
    assert v.(ending := "") == v;
    TextIsShape(v);
    assert VersionText(release, rank, num, post)[0] == NatText(release[0])[0];
    ShapeIsSolid(TextOf(v));
  }

  lemma ShapeIsSolid(text: string)
    requires ShapeText(text) && text != ""
    ensures Solid(text) && !EndsWith(text, ".*")
  {
    assert ShapeChar(text[0]) && ShapeChar(text[|text| - 1]);
    assert |text| >= 2 ==> text[|text| - 2..][1] == text[|text| - 1];
  }

  lemma RowIsRowOf(release: seq<nat>, rank: nat, num: nat, post: Option<nat>)
    ensures RowOf(VersionOf(release, rank, num, post)) == Row(release, rank, num, post)
  {
  }

  /** A version written out, against one specifier. */
  lemma SatisfiesWritten(release: seq<nat>, rank: nat, num: nat, post: Option<nat>, op: string, bound: string,
                         w: Around)
    requires release != [] && ValidTag(rank, num) && Padding(w)
    requires Solid(bound) && IsDigit(bound[0]) && op in OPERATORS && (op == "" ==> Bare(w))
    ensures var text, v := VersionText(release, rank, num, post), VersionOf(release, rank, num, post);
            Satisfies(text, Written(op, bound, w)) == CheckSpecifier(text, v, OPERATORS[op], bound)
  {
    hide VersionText, VersionOf, ParseVersion, Satisfies, CheckSpecifier, Written, Solid, Padding;
    ParseOfText(release, rank, num, post);
    SatisfiesOne(VersionText(release, rank, num, post), VersionOf(release, rank, num, post), op, bound, w);
  }

  /** The rows compared as the operator says. */
  predicate Related(op: Op, a: seq<nat>, b: seq<nat>)
    requires |a| == |b|
  {
    match op
    case Lt => Below(a, b)
    case Le => Below(a, b) || a == b
    case Gt => Below(b, a)
    case Ge => Below(b, a) || a == b
    case Ne => a != b
    case _ => a == b
  }

  lemma CheckCompares(version: string, v: Version, op: Op, bound: string, c: Version)
    requires ParseVersion(bound) == Ok(c) && op != Compatible && (op == Eq ==> !EndsWith(bound, ".*"))
    ensures CheckSpecifier(version, v, op, bound) == Ok(Related(op, RowOf(v), RowOf(c)))
  {
    hide ParseVersion, EndsWith, PrefixMatches, RowOf, Below;
    LessIsBelow(v, c);
    LessIsBelow(c, v);
  }

  /** The same for every version and every bound that can be read, in whatever form they are written. */
  lemma OperatorsMean(version: string, v: Version, op: string, bound: string, c: Version, w: Around)
    requires ParseVersion(version) == Ok(v) && ParseVersion(bound) == Ok(c) && Padding(w)
    requires Solid(bound) && IsDigit(bound[0]) && op in OPERATORS && (op == "" ==> Bare(w))
    requires OPERATORS[op] != Compatible && (OPERATORS[op] == Eq ==> !EndsWith(bound, ".*"))
    ensures Satisfies(version, Written(op, bound, w)) == Ok(Related(OPERATORS[op], RowOf(v), RowOf(c)))
  {
    hide ParseVersion, Satisfies, CheckSpecifier, Written, Solid, Padding, EndsWith, Related, RowOf;
    SatisfiesOne(version, v, op, bound, w);
    CheckCompares(version, v, OPERATORS[op], bound, c);
  }

  lemma OperatorCompares(release: seq<nat>, rank: nat, num: nat, post: Option<nat>,
                         low: seq<nat>, lowRank: nat, lowNum: nat, lowPost: Option<nat>, op: string, w: Around)
    requires release != [] && ValidTag(rank, num) && low != [] && ValidTag(lowRank, lowNum) && Padding(w)
    requires op in OPERATORS && op != "~=" && (op == "" ==> Bare(w))
    ensures Satisfies(VersionText(release, rank, num, post),
                      Written(op, VersionText(low, lowRank, lowNum, lowPost), w))
         == Ok(Related(OPERATORS[op], Row(release, rank, num, post), Row(low, lowRank, lowNum, lowPost)))
  {
    hide Satisfies, ParseVersion, VersionText, VersionOf, Written, Padding, Row, RowOf, Related, EndsWith, Solid;
    var text, bound := VersionText(release, rank, num, post), VersionText(low, lowRank, lowNum, lowPost);
    var v, c := VersionOf(release, rank, num, post), VersionOf(low, lowRank, lowNum, lowPost);
    VersionTextIsSolid(low, lowRank, lowNum, lowPost);
    ParseOfText(release, rank, num, post);
    ParseOfText(low, lowRank, lowNum, lowPost);
    OperatorsMean(text, v, op, bound, c, w);
    RowIsRowOf(release, rank, num, post);
    RowIsRowOf(low, lowRank, lowNum, lowPost);
  }

  /**
   * What the comparison operators mean, for every version and every bound written out, whatever tags and post parts
   * either has, with any blanks and parentheses around the specifier: the rows of numbers stand in that relation.
   */
  lemma OperatorsCompareRows(release: seq<nat>, rank: nat, num: nat, post: Option<nat>,
                             low: seq<nat>, lowRank: nat, lowNum: nat, lowPost: Option<nat>, w: Around)
    requires release != [] && ValidTag(rank, num) && low != [] && ValidTag(lowRank, lowNum) && Padding(w)
    ensures var text, bound := VersionText(release, rank, num, post), VersionText(low, lowRank, lowNum, lowPost);
            var a, b := Row(release, rank, num, post), Row(low, lowRank, lowNum, lowPost);
            && Satisfies(text, Written("<", bound, w)) == Ok(Below(a, b))
            && Satisfies(text, Written("<=", bound, w)) == Ok(Below(a, b) || a == b)
            && Satisfies(text, Written(">", bound, w)) == Ok(Below(b, a))
            && Satisfies(text, Written(">=", bound, w)) == Ok(Below(b, a) || a == b)
            && Satisfies(text, Written("==", bound, w)) == Ok(a == b)
            && Satisfies(text, Written("!=", bound, w)) == Ok(a != b)
            && (Bare(w) ==> Satisfies(text, Written("", bound, w)) == Ok(a == b))
  {
    hide Satisfies, VersionText, Written, Padding, Row, Below;
    OperatorCompares(release, rank, num, post, low, lowRank, lowNum, lowPost, "<", w);
    OperatorCompares(release, rank, num, post, low, lowRank, lowNum, lowPost, "<=", w);
    OperatorCompares(release, rank, num, post, low, lowRank, lowNum, lowPost, ">", w);
    OperatorCompares(release, rank, num, post, low, lowRank, lowNum, lowPost, ">=", w);
    OperatorCompares(release, rank, num, post, low, lowRank, lowNum, lowPost, "==", w);
    OperatorCompares(release, rank, num, post, low, lowRank, lowNum, lowPost, "!=", w);
    if Bare(w) {
      OperatorCompares(release, rank, num, post, low, lowRank, lowNum, lowPost, "", w);
    }
  }

  lemma ReleaseTextIsSolid(release: seq<nat>)
    requires release != []
    ensures ReleaseText(release) == VersionText(release, FINAL, 0, None)
    ensures Solid(ReleaseText(release)) && IsDigit(ReleaseText(release)[0])
  {
    VersionTextIsSolid(release, FINAL, 0, None);
    hide ReleaseText, Solid;
    assert VersionText(release, FINAL, 0, None) == ReleaseText(release);
  }

  /** `~=P.z`, from its text on. */
  lemma CompatibleMeans(release: seq<nat>, rank: nat, num: nat, post: Option<nat>, prefix: seq<nat>, last: nat,
                        w: Around)
    requires release != [] && prefix != [] && ValidTag(rank, num) && Padding(w)
    ensures var text, bound := VersionText(release, rank, num, post), ReleaseText(prefix + [last]);
            var a, b := Row(release, rank, num, post), Row(prefix + [last], FINAL, 0, None);
            Satisfies(text, Written("~=", bound, w))
            == Ok(|prefix| <= 3 && (Below(b, a) || a == b)
                  && (PaddedMatch(release, prefix) || PreReleaseOfNext(release, rank, prefix)))
  {
    hide Satisfies, VersionText, VersionOf, Written, Padding, Row, RowOf, Below, Solid, CheckSpecifier, ReleaseText,
      PaddedMatch, PreReleaseOfNext;
    var whole := prefix + [last];
    var v, c := VersionOf(release, rank, num, post), VersionOf(whole, FINAL, 0, None);
    ReleaseTextIsSolid(whole);
    SatisfiesWritten(release, rank, num, post, "~=", ReleaseText(whole), w);
    CompatibleRelease(release, rank, num, post, prefix, last);
    RowIsRowOf(release, rank, num, post);
    RowIsRowOf(whole, FINAL, 0, None);
    LessIsBelow(c, v);
  }

  lemma WildcardText(stem: string)
    requires Solid(stem)
    ensures var bound := stem + ".*";
            && Solid(bound) && bound[0] == stem[0] && EndsWith(bound, ".*") && bound[..|bound| - 2] == stem
  {
    var bound := stem + ".*";
    assert bound[|bound| - 2..] == ".*" && bound[|bound| - 1] == '*';
    assert ',' !in ".*";
  }

  /** `==P.*`, from its text on. */
  lemma WildcardMeans(release: seq<nat>, rank: nat, num: nat, post: Option<nat>, prefix: seq<nat>, w: Around)
    requires release != [] && prefix != [] && ValidTag(rank, num) && Padding(w)
    ensures Satisfies(VersionText(release, rank, num, post), Written("==", ReleaseText(prefix) + ".*", w))
         == Ok(WrittenPrefix(release, rank, prefix))
  {
    hide Satisfies, VersionText, VersionOf, Written, Padding, EndsWith, Solid, ReleaseText, PrefixMatches,
      WrittenPrefix, ParseVersion;
    ReleaseTextIsSolid(prefix);
    WildcardText(ReleaseText(prefix));
    SatisfiesWritten(release, rank, num, post, "==", ReleaseText(prefix) + ".*", w);
    WildcardPrefix(release, rank, num, post, prefix);
  }

  lemma OneSegment(n: nat)
    ensures ReleaseText([n]) == NatText(n) && CompatibleUpperBound(NatText(n)) == Err(IndexError)
  {
    hide NatText, Split;
    assert [n][1..] == [] && ReleaseText([n]) == NatText(n);
    SplitOfRelease([n]);
    assert Texts([n])[..0] == [];
  }

  /** A bound of one segment has no release to stay in: `~=` raises. */
  lemma CompatibleNeedsTwo(release: seq<nat>, rank: nat, num: nat, post: Option<nat>, n: nat, w: Around)
    requires release != [] && ValidTag(rank, num) && Padding(w)
    ensures Satisfies(VersionText(release, rank, num, post), Written("~=", NatText(n), w)) == Err(IndexError)
  {
    hide Satisfies, ParseVersion, VersionText, VersionOf, Written, Padding, Solid, ReleaseText, NatText,
      CompatibleUpperBound;
    OneSegment(n);
    ReleaseTextIsSolid([n]);
    ParseOfRelease([n]);
    SatisfiesWritten(release, rank, num, post, "~=", NatText(n), w);
  }

  lemma SolidClause(spec: string)
    requires Solid(spec)
    ensures !Blank(spec) && Clauses(spec) == [spec] && Strip(spec) == spec && StripWhere(spec, IsParen) == spec
  {
    assert spec[0] in spec;
    StripOfTrimmed(spec);
    hide Strip;
    SplitOfPlain(spec, ',');
    TrimmedOne(spec);
  }

  lemma UnknownOperator(spec: string)
    requires Strip(spec) == spec && StripWhere(spec, IsParen) == spec && spec != ""
    requires !IsDigit(spec[0]) && spec[0] != '<' && spec[0] != '>'
    requires spec[0] in {'~', '=', '!'} ==> |spec| < 2 || spec[1] != '='
    ensures ParseSpecifier(spec) == Err(ValueError)
  {
    hide Strip, StripWhere;
    TwoMark(spec, "~=");
    TwoMark(spec, "==");
    TwoMark(spec, "!=");
    TwoMark(spec, ">=");
    TwoMark(spec, "<=");
    OneMark(spec, ">");
    OneMark(spec, "<");
  }

  /** A specifier that starts with neither an operator nor a digit raises. */
  lemma UnknownOperatorRaises(version: string, spec: string)
    requires ParseVersion(version).Ok? && Solid(spec)
    requires !IsDigit(spec[0]) && spec[0] != '<' && spec[0] != '>'
    requires spec[0] in {'~', '=', '!'} ==> |spec| < 2 || spec[1] != '='
    ensures Satisfies(version, spec) == Err(ValueError)
  {
    hide ParseVersion, ParseSpecifier, Strip, Clauses, Blank, StripWhere, CheckSpecifier, IsDigit;
    SolidClause(spec);
    UnknownOperator(spec);
    var test := TestOf(version, ParseVersion(version).value);
    EvalAllCons(test, spec, []);
    assert [spec] + [] == [spec] && test(spec) == Err(ValueError);
  }
}
