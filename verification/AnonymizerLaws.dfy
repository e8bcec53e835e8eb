/** What the two passes keep and recase, in terms of positions, words and entity names. */
module AnonymizerLaws {
  import opened Anonymizer

  predicate At(m: Match, p: nat) {
    m.start <= p < m.end
  }

  /** Two spans that are not empty overlap exactly if they share a position; an empty one must lie inside. */
  lemma OverlapIsSharing(a: Match, b: Match)
    ensures a.start < a.end && b.start < b.end ==> (Overlaps(a, b) <==> exists p :: At(a, p) && At(b, p))
    ensures a.start == a.end ==> (Overlaps(a, b) <==> b.start < a.start < b.end)
  {
    if a.start < a.end && b.start < b.end && Overlaps(a, b) {
      var p := if a.start < b.start then b.start else a.start;
      assert At(a, p) && At(b, p);
    }
  }

  /** The part of the text between two offsets, as far as the text goes. */
  lemma SliceIs(text: string, m: Match)
    ensures m.start <= m.end <= |text| ==> |Slice(text, m)| == m.end - m.start
    ensures m.start <= |text| < m.end ==> |Slice(text, m)| == |text| - m.start
    ensures m.start >= m.end || m.start >= |text| ==> Slice(text, m) == ""
    ensures forall i :: 0 <= i < |Slice(text, m)| ==> m.start + i < |text| && Slice(text, m)[i] == text[m.start + i]
  {
  }

  /** The caller wants the term kept: it is one of the terms, or the pattern is found in it. */
  predicate WantedKept(allow: AllowList, term: string) {
    (allow.Exact? && term in allow.terms) || (allow.Pattern? && allow.search(term))
  }

  lemma {:induction false} AcceptedOfConcat(text: string, allow: AllowList, found: seq<Match>, a: seq<Match>,
                                            b: seq<Match>)
    ensures var first := Accepted(text, allow, found, a);
            Accepted(text, allow, found, a + b) == first + Accepted(text, allow, found + first, b)
    decreases a
  {
    hide Slice, Allowed, OverlapsAny;
    if a == [] {
      assert a + b == b && found + [] == found;
    } else {
      assert (a + b)[1..] == a[1..] + b;
      var m := a[0];
      if OverlapsAny(m, found) || Allowed(allow, Slice(text, m)) {
        AcceptedOfConcat(text, allow, found, a[1..], b);
      } else {
        AcceptedOfConcat(text, allow, found + [m], a[1..], b);
        var more := Accepted(text, allow, found + [m], a[1..]);
        assert found + [m] + more == found + ([m] + more);
      }
    }
  }

  /**
   * Of the second-pass matches, one is accepted exactly if it overlaps neither a first-pass match nor one accepted
   * before it, and what the text has there is no term the caller wants kept.
   */
  lemma AcceptedOneByOne(text: string, allow: AllowList, found: seq<Match>, pending: seq<Match>, m: Match)
    ensures Accepted(text, allow, found, []) == []
    ensures var before := Accepted(text, allow, found, pending);
            var clear := !WantedKept(allow, Slice(text, m)) && forall f <- found + before :: !Overlaps(m, f);
            Accepted(text, allow, found, pending + [m]) == before + if clear then [m] else []
  {
    hide Slice, Overlaps;
    var before := Accepted(text, allow, found, pending);
    AcceptedOfConcat(text, allow, found, pending, [m]);
    assert [m][1..] == [];
  }

  /** What is left of the first pass: all but the model's guesses that overlap what is recognized by its shape. */
  lemma GuessesGiveWay(first: seq<Match>)
    ensures forall m :: m in PreferStructural(first) <==>
              m in first && !(m.entity in {"LOCATION", "ORGANIZATION", "PERSON"}
                              && exists s <- first :: s.entity in {"EMAIL_ADDRESS", "HOSTNAME", "IP_ADDRESS", "URL"}
                                                      && Overlaps(m, s))
  {
    hide Overlaps;
    StructuralAreFound(first);
    DroppedExactly(first, StructuralOf(first));
    if StructuralOf(first) == [] {
      assert forall s <- first :: s.entity !in STRUCTURAL by {
        assert forall s :: s !in StructuralOf(first);
      }
    }
  }

  /** The second pass asks for locations only, and only if the caller did and wants recasing. */
  lemma SecondPassAsks(config: Config)
    ensures RecasedEntities(config)
         == if config.caseNormalization && "LOCATION" in config.entities then ["LOCATION"] else []
  {
  }

  /** Three characters or more, none a small ASCII letter, digit or underscore, all capitals, with a title as long. */
  predicate ShoutedWord(c: Casing, word: string) {
    && |word| >= 3
    && (forall x <- word :: !('a' <= x <= 'z') && !c.isDigit(x) && x != '_')
    && c.isUpper(word) && |c.title(word)| == |word|
  }

  lemma RunEndIs(c: Casing, text: string, p: nat, e: nat)
    requires p <= e <= |text| && (forall i :: p <= i < e ==> c.isWordChar(text[i]))
    requires e == |text| || !c.isWordChar(text[e])
    ensures RunEnd(c, text, p) == e
  {
    var r := RunEnd(c, text, p);
    assert forall i :: p <= i < r ==> c.isWordChar(text[i]);
  }

  lemma ShoutedIsRecased(c: Casing, word: string)
    requires forall x <- word :: c.isWordChar(x)
    ensures ShoutedWord(c, word) <==> Recased(c, word)
  {
  }

  /** A whole word is put in title case exactly if it is shouted. */
  lemma WordsAreRecased(c: Casing, text: string, s: nat, e: nat)
    requires s < e <= |text| && (forall i :: s <= i < e ==> c.isWordChar(text[i]))
    requires (s == 0 || !c.isWordChar(text[s - 1])) && (e == |text| || !c.isWordChar(text[e]))
    ensures Recasing(c, text)[s..e] == if ShoutedWord(c, text[s..e]) then c.title(text[s..e]) else text[s..e]
  {
    hide RunEnd, RunStart, CharAfter, Recased, ShoutedWord;
    var word, r := text[s..e], Recasing(c, text);
    RunEndIs(c, text, s, e);
    ShoutedIsRecased(c, word);
    var titled := if ShoutedWord(c, word) then c.title(word) else word;
    assert |titled| == e - s by {
      TitleFits(c, word);
    }
    forall i | s <= i < e ensures r[i] == titled[i - s] {
      WithinRun(c, text, s, i);
    }
    assert r[s..e] == titled;
  }

  lemma TitleFits(c: Casing, word: string)
    ensures ShoutedWord(c, word) ==> |c.title(word)| == |word|
  {
  }

  /** Outside words nothing changes. */
  lemma OthersStay(c: Casing, text: string, i: nat)
    requires i < |text| && !c.isWordChar(text[i])
    ensures Recasing(c, text)[i] == text[i]
  {
    OutsideRuns(c, text, i);
  }
}
