/** What version texts mean: printing and parsing, and the compatible-release operator. */
module VersionLaws {
  import opened Wrappers
  import opened PyText
  import opened Versions
  import opened VersionShapes

  // ----- canonical texts ---------------------------------------------------

  /** `.a.b.c` */
  function DotText(segments: seq<nat>): string {
    if segments == [] then "" else "." + NatText(segments[0]) + DotText(segments[1..])
  }

  /** `a.b.c` */
  function ReleaseText(release: seq<nat>): string
    requires release != []
  {
    NatText(release[0]) + DotText(release[1..])
  }

  predicate ValidTag(rank: nat, num: nat) {
    rank <= FINAL && (rank == FINAL ==> num == 0)
  }

  function PreMark(rank: nat): string {
    if rank == DEV then "dev" else if rank == ALPHA then "a" else if rank == BETA then "b" else "rc"
  }

  function PreText(rank: nat, num: nat): string
    requires ValidTag(rank, num)
  {
    if rank == FINAL then ""
    else (if rank == DEV then "." else "") + PreMark(rank) + NatText(num)
  }

  function PostText(post: Option<nat>): string {
    match post
    case None => ""
    case Some(n) => ".post" + NatText(n)
  }

  function VersionText(release: seq<nat>, rank: nat, num: nat, post: Option<nat>): string
    requires release != [] && ValidTag(rank, num)
  {
    ReleaseText(release) + (PreText(rank, num) + PostText(post))
  }

  function Segment(release: seq<nat>, i: nat): nat {
    if i < |release| then release[i] else 0
  }

  function VersionOf(release: seq<nat>, rank: nat, num: nat, post: Option<nat>): Version {
    Version(Segment(release, 0), Segment(release, 1), Segment(release, 2), rank, num,
            if post.Some? then 1 else 0, if post.Some? then post.value else 0)
  }

  // ----- printing and parsing ----------------------------------------------

  function Texts(segments: seq<nat>): (r: seq<string>)
    ensures |r| == |segments| && forall i :: 0 <= i < |r| ==> r[i] == NatText(segments[i])
  {
    seq(|segments|, i requires 0 <= i < |segments| => NatText(segments[i]))
  }

  /** The parts of a canonical text. */
  function CanonicalShape(release: seq<nat>, rank: nat, num: nat, post: Option<nat>): Shape {
    Shape(Texts(release), if rank == DEV then "." else "", if rank == FINAL then "" else PreMark(rank),
          if rank == FINAL then "" else NatText(num), if post.None? then "" else ".post",
          if post.None? then "" else NatText(post.value), "")
  }

  lemma {:induction false} DotTextIsDotted(segments: seq<nat>)
    ensures DotText(segments) == Dotted(Texts(segments))
  {
    hide NatText;
    if segments != [] {
      DotTextIsDotted(segments[1..]);
      assert Texts(segments)[1..] == Texts(segments[1..]);
    }
  }

  lemma MarkIsListed(rank: nat)
    requires rank < FINAL
    ensures PreMark(rank) != "" && Lower(PreMark(rank)) == PreMark(rank)
    ensures PreMark(rank) in LABELS && LABELS[PreMark(rank)] == rank
  {
  }

  lemma CanonicalIsRegular(release: seq<nat>, rank: nat, num: nat, post: Option<nat>)
    requires release != [] && ValidTag(rank, num)
    ensures Regular(CanonicalShape(release, rank, num, post))
  {
    hide NatText, LABELS, PreMark, Lower;
    if rank < FINAL {
      MarkIsListed(rank);
    }
    assert Lower(".post") == ".post" by {
      PostIsLower();
    }
  }

  lemma PostIsLower()
    ensures Lower(".post") == ".post"
  {
  }

  lemma CanonicalIsText(release: seq<nat>, rank: nat, num: nat, post: Option<nat>)
    requires release != [] && ValidTag(rank, num)
    ensures TextOf(CanonicalShape(release, rank, num, post)) == VersionText(release, rank, num, post)
  {
    hide NatText, Dotted, DotText;
    DotTextIsDotted(release[1..]);
    assert Texts(release)[1..] == Texts(release[1..]);
    assert PostText(post) + "" == PostText(post) && "" + PostText(post) == PostText(post);
  }

  lemma CanonicalValue(release: seq<nat>, rank: nat, num: nat, post: Option<nat>)
    requires release != [] && ValidTag(rank, num) && Regular(CanonicalShape(release, rank, num, post))
    ensures ValueOf(CanonicalShape(release, rank, num, post)) == VersionOf(release, rank, num, post)
  {
    hide NatText, NatValue, LABELS, PreMark, Lower;
    forall i | 0 <= i < |release| ensures NatValue(Texts(release)[i]) == release[i] {
      NatRoundTrip(release[i]);
    }
    if rank < FINAL {
      MarkIsListed(rank);
      NatRoundTrip(num);
    } else {
      NothingIsZero();
    }
    if post.Some? {
      NatRoundTrip(post.value);
    } else {
      NothingIsZero();
    }
  }

  /** Parsing inverts printing, for every canonical version text. */
  lemma ParseOfText(release: seq<nat>, rank: nat, num: nat, post: Option<nat>)
    requires release != [] && ValidTag(rank, num)
    ensures ParseVersion(VersionText(release, rank, num, post)) == Ok(VersionOf(release, rank, num, post))
  {
    hide ParseVersion, Regular, TextOf, CanonicalShape, VersionText, VersionOf, ValueOf;
    var v, bare := CanonicalShape(release, rank, num, post), Frame("", "", "", "");
    CanonicalIsRegular(release, rank, num, post);
    CanonicalIsText(release, rank, num, post);
    CanonicalValue(release, rank, num, post);
    assert v.ending == "" by {
      NoEnding(release, rank, num, post);
    }
    FramedParses(v, bare);
    assert Framed(v, bare) == TextOf(v);
  }

  lemma NoEnding(release: seq<nat>, rank: nat, num: nat, post: Option<nat>)
    ensures CanonicalShape(release, rank, num, post).ending == ""
  {
  }

  lemma ParseOfRelease(release: seq<nat>)
    requires release != []
    ensures ParseVersion(ReleaseText(release)) == Ok(VersionOf(release, FINAL, 0, None))
  {
    ParseOfText(release, FINAL, 0, None);
    assert VersionText(release, FINAL, 0, None) == ReleaseText(release);
  }

  // ----- the compatible-release operator -----------------------------------

  lemma {:induction false} ReleaseTextIsJoin(release: seq<nat>)
    requires release != []
    ensures ReleaseText(release) == Join(Texts(release), '.')
  {
    if |release| > 1 {
      ReleaseTextIsJoin(release[1..]);
      assert Texts(release)[1..] == Texts(release[1..]);
    } else {
      assert NatText(release[0]) + "" == NatText(release[0]);
    }
  }

  lemma SplitOfRelease(release: seq<nat>)
    requires release != []
    ensures Split(ReleaseText(release), '.') == Texts(release)
  {
    ReleaseTextIsJoin(release);
    SplitOfJoin(Texts(release), '.');
  }

  /** Segments the version does not spell out count as zero. */
  predicate PaddedMatch(release: seq<nat>, prefix: seq<nat>) {
    forall i :: 0 <= i < |prefix| ==> Segment(release, i) == prefix[i]
  }

  lemma ParseIntOfNat(n: nat)
    ensures ParseInt(NatText(n)) == Ok(n)
  {
    NatRoundTrip(n);
    var s := NatText(n);
    assert IsDigit(s[0]) && IsDigit(s[|s| - 1]);
    StripOfTrimmed(s);
  }

  lemma UpperBoundOfRelease(prefix: seq<nat>, last: nat)
    requires prefix != []
    ensures var bumped := prefix[|prefix| - 1 := prefix[|prefix| - 1] + 1];
            CompatibleUpperBound(ReleaseText(prefix + [last])) == Ok(VersionOf(bumped, FINAL, 0, None))
  {
    hide ParseVersion, ParseInt;
    var n := |prefix| - 1;
    SplitOfRelease(prefix + [last]);
    var kept := Texts(prefix + [last])[..|prefix|];
    assert kept == Texts(prefix);
    ParseIntOfNat(prefix[n]);
    var bumped := prefix[n := prefix[n] + 1];
    assert kept[n := IntText(prefix[n] + 1)] == Texts(bumped);
    ReleaseTextIsJoin(bumped);
    ParseOfRelease(bumped);
  }

  /** The last segment of the prefix, one up. */
  function Bumped(prefix: seq<nat>): seq<nat>
    requires prefix != []
  {
    prefix[|prefix| - 1 := prefix[|prefix| - 1] + 1]
  }

  /** A pre-release whose three segments are those of the bumped prefix. */
  predicate PreReleaseOfNext(release: seq<nat>, rank: nat, prefix: seq<nat>)
    requires prefix != []
  {
    rank < FINAL && forall i :: 0 <= i < 3 ==> Segment(release, i) == Segment(Bumped(prefix), i)
  }

  /**
   * `~=P.z` for a release prefix `P`, on every version: at least the bound, and either the same release prefix, once
   * missing segments are read as zero, or a pre-release of the next one. With four or more segments in `P` nothing
   * satisfies it, because only three segments are compared and the bound then equals its own upper limit.
   */
  lemma CompatibleRelease(release: seq<nat>, rank: nat, num: nat, post: Option<nat>, prefix: seq<nat>, last: nat)
    requires release != [] && prefix != [] && ValidTag(rank, num)
    ensures var text, v := VersionText(release, rank, num, post), VersionOf(release, rank, num, post);
            var bound, low := ReleaseText(prefix + [last]), VersionOf(prefix + [last], FINAL, 0, None);
            && CheckSpecifier(text, v, Ge, bound) == Ok(low.AtMost(v))
            && CheckSpecifier(text, v, Compatible, bound)
               == Ok(|prefix| <= 3 && low.AtMost(v)
                     && (PaddedMatch(release, prefix) || PreReleaseOfNext(release, rank, prefix)))
  {
    hide ParseVersion, CompatibleUpperBound, VersionText;
    var whole := prefix + [last];
    ParseOfRelease(whole);
    UpperBoundOfRelease(prefix, last);
    CompatibleRange(release, rank, num, post, prefix, last);
  }

  lemma CompatibleRange(release: seq<nat>, rank: nat, num: nat, post: Option<nat>, prefix: seq<nat>, last: nat)
    requires release != [] && prefix != [] && ValidTag(rank, num)
    ensures var v, low := VersionOf(release, rank, num, post), VersionOf(prefix + [last], FINAL, 0, None);
            low.AtMost(v) && v.Less(VersionOf(Bumped(prefix), FINAL, 0, None))
            <==> |prefix| <= 3 && low.AtMost(v)
                 && (PaddedMatch(release, prefix) || PreReleaseOfNext(release, rank, prefix))
  {
    var low := VersionOf(prefix + [last], FINAL, 0, None);
    if |prefix| <= 3 {
      assert PaddedMatch(release, prefix)
        <==> Segment(release, 0) == prefix[0] && (|prefix| > 1 ==> Segment(release, 1) == prefix[1])
             && (|prefix| > 2 ==> Segment(release, 2) == prefix[2]);
      assert PreReleaseOfNext(release, rank, prefix)
        <==> rank < FINAL && Segment(release, 0) == Segment(Bumped(prefix), 0)
             && Segment(release, 1) == Segment(Bumped(prefix), 1) && Segment(release, 2) == Segment(Bumped(prefix), 2);
    } else {
      assert low == VersionOf(Bumped(prefix), FINAL, 0, None);
    }
  }

  // ----- the components of a version text ----------------------------------

  /** Alpha, beta and candidate tags are written right behind the last segment. */
  predicate Glued(rank: nat) {
    rank == ALPHA || rank == BETA || rank == RC
  }

  function TagText(rank: nat, num: nat): string
    requires ValidTag(rank, num) && rank != FINAL
  {
    PreMark(rank) + NatText(num)
  }

  /** The dotted components before the post part. */
  function TaggedTexts(release: seq<nat>, rank: nat, num: nat): seq<string>
    requires release != [] && ValidTag(rank, num)
  {
    if rank == FINAL then Texts(release)
    else if rank == DEV then Texts(release) + [TagText(rank, num)]
    else Texts(release[..|release| - 1]) + [NatText(release[|release| - 1]) + TagText(rank, num)]
  }

  lemma NoDots(n: nat)
    ensures '.' !in NatText(n)
  {
    assert forall c <- NatText(n) :: IsDigit(c);
  }

  lemma TagHasLetter(rank: nat, num: nat)
    requires ValidTag(rank, num) && rank != FINAL
    ensures '.' !in TagText(rank, num) && exists c <- TagText(rank, num) :: !IsDigit(c)
  {
    NoDots(num);
    hide NatText;
    var mark := PreMark(rank);
    assert mark == "dev" || mark == "a" || mark == "b" || mark == "rc";
    assert '.' !in mark && !IsDigit(mark[0]) && TagText(rank, num)[0] == mark[0];
    assert mark[0] in TagText(rank, num);
  }

  lemma {:induction false} DotTextSnoc(segments: seq<nat>, last: nat)
    ensures DotText(segments + [last]) == DotText(segments) + ("." + NatText(last))
  {
    hide NatText;
    if segments == [] {
      assert [last][1..] == [] && [] + [last] == [last];
      assert "." + NatText(last) + "" == "." + NatText(last) && "" + ("." + NatText(last)) == "." + NatText(last);
    } else {
      assert (segments + [last])[1..] == segments[1..] + [last] && (segments + [last])[0] == segments[0];
      DotTextSnoc(segments[1..], last);
      var head := "." + NatText(segments[0]);
      assert head + (DotText(segments[1..]) + ("." + NatText(last)))
        == (head + DotText(segments[1..])) + ("." + NatText(last));
    }
  }

  lemma TaggedTextSplits(release: seq<nat>, rank: nat, num: nat)
    requires release != [] && ValidTag(rank, num)
    ensures Split(ReleaseText(release) + PreText(rank, num), '.') == TaggedTexts(release, rank, num)
  {
    TagPlace(rank, num);
    SplitOfRelease(release);
    hide Split, NatText, Texts, ReleaseText, PreText, TagText;
    var text := ReleaseText(release);
    if rank == FINAL {
      assert text + "" == text;
    } else {
      TagHasLetter(rank, num);
      if rank == DEV {
        DottedTagSplits(text, TagText(rank, num));
      } else {
        GluedTextSplits(release, TagText(rank, num));
      }
    }
  }

  lemma TagPlace(rank: nat, num: nat)
    requires ValidTag(rank, num)
    ensures PreText(rank, num)
         == if rank == FINAL then "" else if rank == DEV then ['.'] + TagText(rank, num) else TagText(rank, num)
  {
    hide NatText;
    if rank == DEV {
      assert "." + PreMark(rank) + NatText(num) == ['.'] + (PreMark(rank) + NatText(num));
    } else if rank != FINAL {
      assert "" + PreMark(rank) == PreMark(rank);
    }
  }

  lemma DottedTagSplits(text: string, tag: string)
    requires '.' !in tag
    ensures Split(text + (['.'] + tag), '.') == Split(text, '.') + [tag]
  {
    hide Split;
    assert text + (['.'] + tag) == text + ['.'] + tag;
    SplitOfConcat(text, tag, '.');
    SplitOfPlain(tag, '.');
  }

  lemma GluedTextSplits(release: seq<nat>, tag: string)
    requires release != [] && '.' !in tag
    ensures Split(ReleaseText(release) + tag, '.')
            == Texts(release[..|release| - 1]) + [NatText(release[|release| - 1]) + tag]
  {
    hide Split, NatText, Texts;
    var front, last := release[..|release| - 1], release[|release| - 1];
    NoDots(last);
    SplitOfPlain(NatText(last) + tag, '.');
    if front == [] {
      assert release[1..] == [] && ReleaseText(release) == NatText(last);
      NoTexts();
      assert [] + [NatText(last) + tag] == [NatText(last) + tag];
    } else {
      assert release[1..] == front[1..] + [last] && release[0] == front[0];
      DotTextSnoc(front[1..], last);
      SplitOfRelease(front);
      assert ReleaseText(release) + tag == ReleaseText(front) + ['.'] + (NatText(last) + tag);
      SplitOfConcat(ReleaseText(front), NatText(last) + tag, '.');
    }
  }

  lemma NoTexts()
    ensures Texts([]) == []
  {
  }

  lemma VersionTextSplits(release: seq<nat>, rank: nat, num: nat, post: Option<nat>)
    requires release != [] && ValidTag(rank, num)
    ensures Split(VersionText(release, rank, num, post), '.')
         == TaggedTexts(release, rank, num) + if post.None? then [] else ["post" + NatText(post.value)]
  {
    hide Split, ReleaseText, PreText, TaggedTexts, NatText;
    TaggedTextSplits(release, rank, num);
    var body := ReleaseText(release) + PreText(rank, num);
    if post.None? {
      assert VersionText(release, rank, num, post) == body;
      assert TaggedTexts(release, rank, num) + [] == TaggedTexts(release, rank, num);
    } else {
      var suffix := "post" + NatText(post.value);
      NoDots(post.value);
      assert ".post" + NatText(post.value) == ['.'] + suffix;
      assert VersionText(release, rank, num, post) == body + ['.'] + suffix;
      SplitOfConcat(body, suffix, '.');
      SplitOfPlain(suffix, '.');
    }
  }

  /** The version is written with the segments of the prefix, none of them with a tag right behind it. */
  predicate WrittenPrefix(release: seq<nat>, rank: nat, prefix: seq<nat>) {
    prefix <= release && (Glued(rank) ==> |prefix| < |release|)
  }

  /** `==P.*` looks at the components actually written in the version text. */
  lemma WildcardPrefix(release: seq<nat>, rank: nat, num: nat, post: Option<nat>, prefix: seq<nat>)
    requires release != [] && prefix != [] && ValidTag(rank, num)
    ensures PrefixMatches(VersionText(release, rank, num, post), ReleaseText(prefix))
            <==> WrittenPrefix(release, rank, prefix)
  {
    hide Split, NatText, ReleaseText, VersionText;
    SplitOfRelease(prefix);
    VersionTextSplits(release, rank, num, post);
    if rank != FINAL {
      TagHasLetter(rank, num);
    }
    var parts, texts := Split(VersionText(release, rank, num, post), '.'), Texts(prefix);
    var k := if Glued(rank) then |release| - 1 else |release|;
    assert forall i :: 0 <= i < k ==> parts[i] == NatText(release[i]);
    assert |parts| > k ==> !AllDigits(parts[k]) by {
      PartHasLetter(release, rank, num, post);
    }
    assert forall i :: 0 <= i < |texts| ==> texts[i] == NatText(prefix[i]) && AllDigits(texts[i]);
    if |prefix| > k {
      DifferAt(texts, parts, k);
    } else if texts <= parts {
      forall i | 0 <= i < |prefix| ensures prefix[i] == release[i] {
        assert texts[i] == parts[i];
        NatTextInjective(prefix[i], release[i]);
      }
    }
    if WrittenPrefix(release, rank, prefix) {
      assert forall i :: 0 <= i < |texts| ==> texts[i] == parts[i];
    }
  }

  lemma DifferAt(a: seq<string>, b: seq<string>, k: nat)
    requires k < |a| && (k < |b| ==> a[k] != b[k])
    ensures !(a <= b)
  {
  }

  /** The first component that is no segment alone is not a number. */
  lemma PartHasLetter(release: seq<nat>, rank: nat, num: nat, post: Option<nat>)
    requires release != [] && ValidTag(rank, num)
    ensures var parts := TaggedTexts(release, rank, num) + if post.None? then [] else ["post" + NatText(post.value)];
            var k := if Glued(rank) then |release| - 1 else |release|;
            |parts| >= k && (|parts| > k ==> !AllDigits(parts[k]))
  {
    hide NatText;
    if rank != FINAL {
      TagHasLetter(rank, num);
      var c :| c in TagText(rank, num) && !IsDigit(c);
      if Glued(rank) {
        assert c in NatText(release[|release| - 1]) + TagText(rank, num);
      }
    }
    if post.Some? {
      assert ("post" + NatText(post.value))[0] == 'p' && 'p' in ("post" + NatText(post.value));
    }
  }

  /** Where `~=P.z` and `>=P.z, ==P.*` part, for a version that is at least the bound. */
  predicate Departs(release: seq<nat>, rank: nat, prefix: seq<nat>)
    requires prefix != []
  {
    if |prefix| > 3 then WrittenPrefix(release, rank, prefix)
    else (|release| < |prefix| && PaddedMatch(release, prefix)) || PreReleaseOfNext(release, rank, prefix)
  }

  /**
   * The rule of PEP 440, section "Compatible release", is that `~=P.z` is `>=P.z, ==P.*`. The code follows it, on
   * every version and for every prefix, exactly unless the version is at least the bound and `P` has more than three
   * segments and is written out in it, or matches only by padding with zeros, or the version is a pre-release of the
   * next prefix.
   */
  lemma CompatibleReleaseIsRangeAndPrefix(release: seq<nat>, rank: nat, num: nat, post: Option<nat>,
                                          prefix: seq<nat>, last: nat)
    requires release != [] && prefix != [] && ValidTag(rank, num)
    ensures var text, v := VersionText(release, rank, num, post), VersionOf(release, rank, num, post);
            var bound, low := ReleaseText(prefix + [last]), VersionOf(prefix + [last], FINAL, 0, None);
            (CheckSpecifier(text, v, Compatible, bound)
               == Ok(low.AtMost(v) && PrefixMatches(text, ReleaseText(prefix)))
             <==> !(low.AtMost(v) && Departs(release, rank, prefix)))
  {
    hide CheckSpecifier, PrefixMatches, VersionText, ReleaseText;
    CompatibleRelease(release, rank, num, post, prefix, last);
    WildcardPrefix(release, rank, num, post, prefix);
    if |prefix| <= 3 {
      if |prefix| <= |release| {
        assert PaddedMatch(release, prefix) <==> prefix <= release;
        if prefix == release && Glued(rank) {
          BelowBound(release, rank, num, post, last);
        }
      }
      if PreReleaseOfNext(release, rank, prefix) {
        NotBoth(release, rank, prefix);
      }
    }
  }

  lemma BelowBound(release: seq<nat>, rank: nat, num: nat, post: Option<nat>, last: nat)
    requires 1 <= |release| <= 3 && rank < FINAL
    ensures !VersionOf(release + [last], FINAL, 0, None).AtMost(VersionOf(release, rank, num, post))
  {
  }

  lemma NotBoth(release: seq<nat>, rank: nat, prefix: seq<nat>)
    requires 1 <= |prefix| <= 3 && PreReleaseOfNext(release, rank, prefix)
    ensures !PaddedMatch(release, prefix)
  {
    var n := |prefix| - 1;
    assert Segment(release, n) == Segment(Bumped(prefix), n);
  }

  /**
   * Pre-releases of the next series are let in: `A.(B+1)` release candidates satisfy `~=A.B.z`,
   * although they do not match `==A.B.*`, so here the code departs from PEP 440.
   */
  lemma CompatibleAdmitsNextPreRelease(a: nat, b: nat, last: nat, candidate: nat)
    ensures var text := VersionText([a, b + 1], RC, candidate, None);
            var v := VersionOf([a, b + 1], RC, candidate, None);
            && ParseVersion(text) == Ok(v)
            && CheckSpecifier(text, v, Compatible, ReleaseText([a, b, last])) == Ok(true)
            && !PrefixMatches(text, ReleaseText([a, b]))
  {
    hide ParseVersion, CheckSpecifier, PrefixMatches, PreText, VersionText, ReleaseText;
    ParseOfText([a, b + 1], RC, candidate, None);
    CompatibleRelease([a, b + 1], RC, candidate, None, [a, b], last);
    WildcardPrefix([a, b + 1], RC, candidate, None, [a, b]);
    assert [a, b] + [last] == [a, b, last] && Bumped([a, b]) == [a, b + 1];
  }
}
