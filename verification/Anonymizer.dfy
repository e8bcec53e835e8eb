/** Detection of personal data in two passes, the second over a copy with all-caps words recased. */
module Anonymizer {

  // ----- recasing ----------------------------------------------------------

  /** Python's Unicode character and word classes, and title casing. */
  datatype Casing = Casing(isWordChar: char -> bool, isDigit: char -> bool, isUpper: string -> bool,
                           title: string -> string)

  /** A word character other than a-z, digits and underscore. */
  predicate CapsChar(c: Casing, x: char) {
    c.isWordChar(x) && !('a' <= x <= 'z') && !c.isDigit(x) && x != '_'
  }

  /** End of the run of word characters starting at `p`. */
  function RunEnd(c: Casing, text: string, p: nat): (e: nat)
    requires p <= |text|
    ensures p <= e <= |text|
    ensures forall i :: p <= i < e ==> c.isWordChar(text[i])
    ensures e < |text| ==> !c.isWordChar(text[e])
    decreases |text| - p
  {
    if p == |text| || !c.isWordChar(text[p]) then p else RunEnd(c, text, p + 1)
  }

  /** Start of the run of word characters ending at `p`. */
  function RunStart(c: Casing, text: string, p: nat): (s: nat)
    requires p <= |text|
    ensures s <= p
    ensures forall i :: s <= i < p ==> c.isWordChar(text[i])
    ensures s > 0 ==> !c.isWordChar(text[s - 1])
  {
    if p == 0 || !c.isWordChar(text[p - 1]) then p else RunStart(c, text, p - 1)
  }

  /** A word of at least three characters, all of the caps class, in capitals, that keeps its length. */
  predicate Recased(c: Casing, word: string) {
    && |word| >= 3 && (forall x <- word :: CapsChar(c, x))
    && c.isUpper(word) && |c.title(word)| == |word|
  }

  /** What stands at one position afterwards: decided by the whole word around it. */
  function CharAfter(c: Casing, text: string, i: nat): char
    requires i < |text|
  {
    var s, e := RunStart(c, text, i), RunEnd(c, text, i);
    var word := text[s..e];
    if Recased(c, word) && s <= i < e then c.title(word)[i - s] else text[i]
  }

  /** The recased text. */
  function Recasing(c: Casing, text: string): (r: string)
    ensures |r| == |text| && forall i :: 0 <= i < |text| ==> r[i] == CharAfter(c, text, i)
  {
    seq(|text|, i requires 0 <= i < |text| => CharAfter(c, text, i))
  }

  lemma SameRun(c: Casing, text: string, s: nat, e: nat, i: nat)
    requires s <= i < e <= |text| && (s == 0 || !c.isWordChar(text[s - 1]))
    requires e == RunEnd(c, text, s)
    ensures RunStart(c, text, i) == s && RunEnd(c, text, i) == e
  {
    assert forall j :: RunStart(c, text, i) <= j < i ==> c.isWordChar(text[j]);
    assert forall j :: i <= j < RunEnd(c, text, i) ==> c.isWordChar(text[j]);
  }

  /** Within one run every position is decided by that run. */
  lemma WithinRun(c: Casing, text: string, s: nat, i: nat)
    requires s <= |text| && s <= i < RunEnd(c, text, s) && (s == 0 || !c.isWordChar(text[s - 1]))
    ensures var word := text[s..RunEnd(c, text, s)];
            CharAfter(c, text, i) == if Recased(c, word) then c.title(word)[i - s] else text[i]
  {
    hide Recased;
    SameRun(c, text, s, RunEnd(c, text, s), i);
  }

  lemma OutsideRuns(c: Casing, text: string, i: nat)
    requires i < |text| && !c.isWordChar(text[i])
    ensures CharAfter(c, text, i) == text[i]
  {
  }

  /** Overwrite each recased word in a list of the text's characters, scanning word by word. */
  method NormalizeCase(c: Casing, text: string) returns (r: string)
    ensures r == Recasing(c, text)
  {
    hide RunStart, CharAfter;
    var characters := new char[|text|](i requires 0 <= i < |text| => text[i]);
    var p := 0;
    while p < |text|
      invariant p <= |text| && (p == 0 || p == |text| || !c.isWordChar(text[p - 1]) || !c.isWordChar(text[p]))
      invariant forall i :: 0 <= i < p ==> characters[i] == CharAfter(c, text, i)
      invariant forall i :: p <= i < |text| ==> characters[i] == text[i]
    {
      var e := RunEnd(c, text, p);
      if e == p {
        OutsideRuns(c, text, p);
        p := p + 1;
      } else {
        var word := text[p..e];
        forall i | p <= i < e
          ensures CharAfter(c, text, i) == if Recased(c, word) then c.title(word)[i - p] else text[i]
        {
          WithinRun(c, text, p, i);
        }
        if Recased(c, word) {
          var titled := c.title(word);
          forall i | p <= i < e {
            characters[i] := titled[i - p];
          }
        }
        p := e;
      }
    }
    return characters[..];
  }

  // ----- detected spans ----------------------------------------------------

  datatype Match = Match(entity: string, start: nat, end: nat)

  const STRUCTURAL := {"EMAIL_ADDRESS", "HOSTNAME", "IP_ADDRESS", "URL"}
  const NER := {"LOCATION", "ORGANIZATION", "PERSON"}
  const CASE_NORMALIZED := ["LOCATION"]

  predicate Overlaps(a: Match, b: Match) {
    a.start < b.end && a.end > b.start
  }

  predicate OverlapsAny(m: Match, found: seq<Match>) {
    exists f <- found :: Overlaps(m, f)
  }

  function StructuralOf(results: seq<Match>): seq<Match> {
    if results == [] then []
    else (if results[0].entity in STRUCTURAL then [results[0]] else []) + StructuralOf(results[1..])
  }

  /** Without the NER guesses that overlap one of the given matches. */
  function DropGuesses(results: seq<Match>, structural: seq<Match>): seq<Match> {
    if results == [] then []
    else
      (if results[0].entity in NER && OverlapsAny(results[0], structural) then [] else [results[0]])
      + DropGuesses(results[1..], structural)
  }

  function PreferStructural(results: seq<Match>): seq<Match> {
    var structural := StructuralOf(results);
    if structural == [] then results else DropGuesses(results, structural)
  }

  /** Terms the caller wants kept in the text. */
  datatype AllowList = NoList | Exact(terms: seq<string>) | Pattern(search: string -> bool)

  predicate Allowed(allow: AllowList, value: string) {
    match allow
    case NoList => false
    case Exact(terms) => value in terms
    case Pattern(search) => search(value)
  }

  function Slice(text: string, m: Match): string {
    var start := if m.start < |text| then m.start else |text|;
    var end := if m.end < |text| then m.end else |text|;
    if start <= end then text[start..end] else ""
  }

  /** Second-pass matches taken in turn: each must clear everything found so far and the allow list. */
  function Accepted(text: string, allow: AllowList, found: seq<Match>, pending: seq<Match>): seq<Match>
    decreases pending
  {
    if pending == [] then []
    else if OverlapsAny(pending[0], found) || Allowed(allow, Slice(text, pending[0])) then
      Accepted(text, allow, found, pending[1..])
    else [pending[0]] + Accepted(text, allow, found + [pending[0]], pending[1..])
  }

  type Analyzer = (string, seq<string>) -> seq<Match>

  datatype Config = Config(entities: seq<string>, allow: AllowList, caseNormalization: bool)

  function RecasedEntities(config: Config): seq<string> {
    if config.caseNormalization && "LOCATION" in config.entities then CASE_NORMALIZED else []
  }

  /** The analyzer reports only entity types it was asked for. */
  ghost predicate ReportsRequested(analyze: Analyzer) {
    forall text, entities :: forall m <- analyze(text, entities) :: m.entity in entities
  }

  /** The two passes; each new match is compared with the list it is then appended to. */
  method Analyze(c: Casing, analyze: Analyzer, config: Config, text: string) returns (r: seq<Match>)
    requires ReportsRequested(analyze)
    ensures var first, recased := analyze(text, config.entities), Recasing(c, text);
            var second := if RecasedEntities(config) == [] || recased == text then []
                          else Accepted(text, config.allow, first, analyze(recased, RecasedEntities(config)));
            r == PreferStructural(first) + second
  {
    hide OverlapsAny, Allowed, Slice, Accepted, PreferStructural, Recasing;
    var matches := analyze(text, config.entities);
    ghost var first, second := matches, [];
    var entities := RecasedEntities(config);
    if entities != [] {
      var normalized := NormalizeCase(c, text);
      if normalized != text && |normalized| == |text| {
        var pending := analyze(normalized, entities);
        second := Accepted(text, config.allow, first, pending);
        ghost var added := [];
        assert pending[0..] == pending && first + [] == first;
        for i := 0 to |pending|
          invariant matches == first + added
          invariant added + Accepted(text, config.allow, matches, pending[i..]) == second
        {
          AcceptedStep(text, config.allow, matches, pending, i);
          var m := pending[i];
          if !OverlapsAny(m, matches) && !Allowed(config.allow, Slice(text, m)) {
            matches, added := matches + [m], added + [m];
          }
        }
        NoneAccepted(text, config.allow, matches);
        assert pending[|pending|..] == [] && added == second;
        AcceptedAreGuesses(text, config.allow, first, pending);
      }
    }
    assert matches == first + second;
    AcceptedStay(first, second);
    return PreferStructural(matches);
  }

  lemma AcceptedStep(text: string, allow: AllowList, found: seq<Match>, pending: seq<Match>, i: nat)
    requires i < |pending|
    ensures var m := pending[i];
            Accepted(text, allow, found, pending[i..])
            == if OverlapsAny(m, found) || Allowed(allow, Slice(text, m)) 
               then Accepted(text, allow, found, pending[i + 1..])
               else [m] + Accepted(text, allow, found + [m], pending[i + 1..])
  {
    assert pending[i..][1..] == pending[i + 1..];
  }

  lemma NoneAccepted(text: string, allow: AllowList, found: seq<Match>)
    ensures Accepted(text, allow, found, []) == []
  {
  }

  lemma {:induction false} AcceptedAreGuesses(text: string, allow: AllowList, found: seq<Match>, pending: seq<Match>)
    requires forall m <- pending :: m.entity == "LOCATION"
    ensures var r := Accepted(text, allow, found, pending);
            && (forall m <- r ::
                  && m in pending && m.entity == "LOCATION" && !OverlapsAny(m, found)
                  && !Allowed(allow, Slice(text, m)))
            && (forall i, j :: 0 <= i < j < |r| ==> !Overlaps(r[j], r[i]))
    decreases pending
  {
    if pending != [] {
      var m, rest := pending[0], pending[1..];
      if OverlapsAny(m, found) || Allowed(allow, Slice(text, m)) {
        AcceptedAreGuesses(text, allow, found, rest);
      } else {
        AcceptedAreGuesses(text, allow, found + [m], rest);
        var more := Accepted(text, allow, found + [m], rest);
        forall x <- more ensures !OverlapsAny(x, found) && !Overlaps(x, m) {
          assert forall f <- found :: f in found + [m];
          assert m in found + [m];
        }
        assert forall j :: 0 <= j < |more| ==> more[j] in more;
      }
    }
  }

  lemma {:induction false} StructuralOfConcat(a: seq<Match>, b: seq<Match>)
    ensures StructuralOf(a + b) == StructuralOf(a) + StructuralOf(b)
  {
    if a == [] {
      assert a + b == b;
    } else {
      assert (a + b)[1..] == a[1..] + b;
      StructuralOfConcat(a[1..], b);
    }
  }

  lemma {:induction false} StructuralOfGuesses(b: seq<Match>)
    requires forall m <- b :: m.entity == "LOCATION"
    ensures StructuralOf(b) == []
  {
    if b != [] {
      assert b[0] in b;
      StructuralOfGuesses(b[1..]);
    }
  }

  lemma {:induction false} DropGuessesOfConcat(a: seq<Match>, b: seq<Match>, structural: seq<Match>)
    ensures DropGuesses(a + b, structural) == DropGuesses(a, structural) + DropGuesses(b, structural)
  {
    if a == [] {
      assert a + b == b;
    } else {
      assert (a + b)[1..] == a[1..] + b;
      DropGuessesOfConcat(a[1..], b, structural);
    }
  }

  lemma {:induction false} DropNothing(b: seq<Match>, structural: seq<Match>)
    requires forall m <- b :: !OverlapsAny(m, structural)
    ensures DropGuesses(b, structural) == b
  {
    if b != [] {
      assert b[0] in b;
      DropNothing(b[1..], structural);
    }
  }

  lemma {:induction false} StructuralAreFound(a: seq<Match>)
    ensures forall m :: m in StructuralOf(a) <==> m in a && m.entity in STRUCTURAL
  {
    if a != [] {
      StructuralAreFound(a[1..]);
      assert forall m :: m in a <==> m == a[0] || m in a[1..];
    }
  }

  /** Accepted second-pass matches are never dropped, and drop nothing: the filter sees the first pass only. */
  lemma AcceptedStay(first: seq<Match>, second: seq<Match>)
    requires forall m <- second :: m.entity == "LOCATION" && !OverlapsAny(m, first)
    ensures PreferStructural(first + second) == PreferStructural(first) + second
  {
    StructuralOfConcat(first, second);
    StructuralOfGuesses(second);
    var structural := StructuralOf(first);
    assert structural + [] == structural;
    StructuralAreFound(first);
    assert forall m <- second :: !OverlapsAny(m, structural);
    DropGuessesOfConcat(first, second, structural);
    DropNothing(second, structural);
  }

  /** What the filter keeps: everything but the NER matches that overlap a structural one. */
  lemma {:induction false} DroppedExactly(results: seq<Match>, structural: seq<Match>)
    ensures forall m :: m in DropGuesses(results, structural)
                   <==> m in results && !(m.entity in NER && OverlapsAny(m, structural))
  {
    if results != [] {
      DroppedExactly(results[1..], structural);
      assert forall m :: m in results <==> m == results[0] || m in results[1..];
    }
  }

  /** No surviving NER match overlaps a structural match, and every structural match survives. */
  lemma StructuralWins(results: seq<Match>)
    ensures forall m <- PreferStructural(results), s <- results | m.entity in NER && s.entity in STRUCTURAL ::
            !Overlaps(m, s)
    ensures forall s <- results | s.entity in STRUCTURAL :: s in PreferStructural(results)
  {
    StructuralAreFound(results);
    DroppedExactly(results, StructuralOf(results));
  }
}
