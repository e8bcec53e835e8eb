/** Which texts are versions, and which version each of them is. */
module VersionShapes {
  import opened Wrappers
  import opened PyText
  import opened Versions

  const LABELS: map<string, nat> :=
    map["dev" := DEV, "a" := ALPHA, "alpha" := ALPHA, "b" := BETA, "beta" := BETA, "c" := RC, "rc" := RC]

  /**
   * The parts a version is written in: the numbers of the release, then perhaps a tag with a separator before it
   * and a number behind it, then perhaps the post mark with its number, then perhaps a line break.
   */
  datatype Shape = Shape(numbers: seq<string>, separator: string, tag: string, tagNumber: string,
                         postMark: string, postNumber: string, ending: string)

  predicate Digits(s: string) {
    s != "" && AllDigits(s)
  }

  predicate AllNumbers(ds: seq<string>) {
    forall i :: 0 <= i < |ds| ==> Digits(ds[i])
  }

  /** Labels and the post mark may be in capitals; the number of a tag may be missing. */
  predicate Regular(v: Shape) {
    && v.numbers != [] && AllNumbers(v.numbers)
    && RegularLabel(v.separator, v.tag, v.tagNumber)
    && RegularPost(v.postMark, v.postNumber)
    && (v.ending == "" || v.ending == "\n")
  }

  predicate RegularLabel(separator: string, tag: string, number: string) {
    if tag == "" then separator == "" && number == ""
    else (separator == "" || separator == "-" || separator == ".") && Lower(tag) in LABELS && AllDigits(number)
  }

  predicate RegularPost(mark: string, number: string) {
    if mark == "" then number == "" else Lower(mark) == ".post" && Digits(number)
  }

  /** `.1.2.3` */
  function Dotted(ds: seq<string>): string {
    if ds == [] then "" else "." + ds[0] + Dotted(ds[1..])
  }

  /** `1.2.3` */
  function ReleasePart(ds: seq<string>): string {
    if ds == [] then "" else ds[0] + Dotted(ds[1..])
  }

  function TextOf(v: Shape): string {
    ReleasePart(v.numbers)
    + (v.separator + v.tag + v.tagNumber + (v.postMark + v.postNumber + v.ending))
  }

  function Number(ds: seq<string>, i: nat): nat
    requires AllNumbers(ds)
  {
    if i < |ds| then NatValue(ds[i]) else 0
  }

  /** Missing numbers are zero, and so are those behind the third segment. */
  function ValueOf(v: Shape): Version
    requires Regular(v)
  {
    Version(Number(v.numbers, 0), Number(v.numbers, 1), Number(v.numbers, 2),
            if v.tag == "" then FINAL else LABELS[Lower(v.tag)], NatValue(v.tagNumber),
            if v.postMark == "" then 0 else 1, NatValue(v.postNumber))
  }

  // ----- regular texts are read --------------------------------------------

  /** Text after a release at which the scan for further segments stops. */
  predicate StopsRelease(tail: string) {
    && (tail == "" || !IsDigit(tail[0]))
    && (|tail| > 1 && tail[0] == '.' ==> !IsDigit(tail[1]))
  }

  lemma NotMarked(t: string, mark: string)
    requires mark != "" && (t == "" || t[0] != mark[0])
    ensures !StartsWith(t, mark)
  {
  }

  lemma DigitsFirst(d: string, tail: string)
    requires AllDigits(d) && (tail == "" || !IsDigit(tail[0]))
    ensures var s := d + tail; DigitRun(s) == |d| && s[..|d|] == d && s[|d|..] == tail
  {
    DigitRunOfConcat(d, tail);
  }

  function Values(ds: seq<string>): (r: seq<nat>)
    requires AllNumbers(ds)
    ensures |r| == |ds| && forall i :: 0 <= i < |r| ==> r[i] == NatValue(ds[i])
  {
    seq(|ds|, i requires 0 <= i < |ds| => NatValue(ds[i]))
  }

  lemma SegmentScans(d: string, rest: string)
    requires Digits(d) && (rest == "" || !IsDigit(rest[0]))
    ensures ScanSegments("." + d + rest) == ([NatValue(d)] + ScanSegments(rest).0, ScanSegments(rest).1)
  {
    hide NatValue, DigitRun;
    var s := "." + d + rest;
    assert s[1..] == d + rest && s[1 + |d|..] == rest;
    DigitsFirst(d, rest);
  }

  lemma NoSegment(tail: string)
    requires StopsRelease(tail)
    ensures ScanSegments(tail) == ([], tail)
  {
    if |tail| > 1 && tail[0] == '.' {
      assert !IsDigit(tail[1..][0]);
    }
  }

  lemma {:induction false} SegmentsScan(ds: seq<string>, tail: string)
    requires AllNumbers(ds) && StopsRelease(tail)
    ensures ScanSegments(Dotted(ds) + tail) == (Values(ds), tail)
    ensures Dotted(ds) + tail == "" || !IsDigit((Dotted(ds) + tail)[0])
  {
    hide NatValue, ScanSegments, StopsRelease, AllDigits;
    if ds == [] {
      assert Dotted(ds) + tail == tail;
      NoSegment(tail);
      assert tail == "" || !IsDigit(tail[0]) by {
        StopsAtOnce(tail);
      }
    } else {
      var rest := Dotted(ds[1..]) + tail;
      SegmentsScan(ds[1..], tail);
      assert Dotted(ds) + tail == "." + ds[0] + rest;
      SegmentScans(ds[0], rest);
      assert [NatValue(ds[0])] + Values(ds[1..]) == Values(ds);
    }
  }

  lemma StopsAtOnce(tail: string)
    requires StopsRelease(tail)
    ensures tail == "" || !IsDigit(tail[0])
  {
  }

  /** What may follow a tag: nothing that would make it another one. */
  predicate StopsLabel(tail: string) {
    tail == "" || !('a' <= LowerChar(tail[0]) <= 'z')
  }

  lemma LabelScans(tag: string, tail: string)
    requires Lower(tag) in LABELS && StopsLabel(tail)
    ensures PreLabel(tag + tail) == Some((LABELS[Lower(tag)], |tag|))
  {
    var s := tag + tail;
    var t, mark := Lower(s), Lower(tag);
    assert forall i :: 0 <= i < |mark| ==> t[i] == mark[i];
    assert mark <= t && |mark| == |tag|;
    assert |tail| > 0 ==> t[|mark|] == LowerChar(tail[0]);
    Marks(t, mark);
  }

  lemma Marks(t: string, mark: string)
    requires mark in LABELS && mark <= t && (|t| > |mark| ==> !('a' <= t[|mark|] <= 'z'))
    ensures StartsWith(t, "alpha") <==> mark == "alpha"
    ensures StartsWith(t, "beta") <==> mark == "beta"
    ensures StartsWith(t, "a") <==> mark == "alpha" || mark == "a"
    ensures StartsWith(t, "b") <==> mark == "beta" || mark == "b"
    ensures StartsWith(t, "rc") <==> mark == "rc"
    ensures StartsWith(t, "c") <==> mark == "c"
    ensures StartsWith(t, "dev") <==> mark == "dev"
  {
    assert t[0] == mark[0];
    assert "alpha"[1] == 'l' && "beta"[1] == 'e';
  }

  /** What may follow the release and the tag. */
  predicate AfterTag(tail: string) {
    tail == "" || tail[0] == '\n' || (|tail| > 1 && tail[0] == '.' && LowerChar(tail[1]) == 'p')
  }

  lemma PostIsAfterTag(mark: string, number: string, ending: string)
    requires RegularPost(mark, number) && (ending == "" || ending == "\n")
    ensures AfterTag(mark + number + ending)
  {
    if mark != "" {
      var tail := mark + number + ending;
      assert Lower(mark)[0] == '.' && Lower(mark)[1] == 'p';
      assert tail[0] == mark[0] && tail[1] == mark[1];
    }
  }

  lemma NoTagScans(tail: string)
    requires AfterTag(tail)
    ensures ScanPre(tail) == Tag(FINAL, 0, tail)
  {
    hide StartsWith;
    var t := Lower(if tail != "" && tail[0] == '.' then tail[1..] else tail);
    assert t == "" || t[0] == 'p' || t[0] == '\n';
    NotMarked(t, "alpha");
    NotMarked(t, "a");
    NotMarked(t, "beta");
    NotMarked(t, "b");
    NotMarked(t, "rc");
    NotMarked(t, "c");
    NotMarked(t, "dev");
  }

  lemma LetterFirst(tag: string)
    requires Lower(tag) in LABELS
    ensures tag != "" && 'a' <= LowerChar(tag[0]) <= 'z' && tag[0] != '-' && tag[0] != '.' && !IsDigit(tag[0])
  {
    assert Lower(tag)[0] == LowerChar(tag[0]);
  }

  lemma TagScansAs(s: string, t: string, rank: nat, len: nat, number: string, tail: string)
    requires s == t || (s != "" && s[1..] == t && (s[0] == '-' || s[0] == '.'))
    requires t != "" && t[0] != '-' && t[0] != '.'
    requires PreLabel(t) == Some((rank, len)) && t[len..] == number + tail
    requires AllDigits(number) && (tail == "" || !IsDigit(tail[0]))
    ensures ScanPre(s) == Tag(rank, NatValue(number), tail)
  {
    hide PreLabel, NatValue, DigitRun;
    DigitsFirst(number, tail);
  }

  lemma TagScans(separator: string, tag: string, number: string, tail: string)
    requires RegularLabel(separator, tag, number) && AfterTag(tail)
    ensures ScanPre(separator + tag + number + tail)
         == Tag(if tag == "" then FINAL else LABELS[Lower(tag)], NatValue(number), tail)
  {
    hide PreLabel, NatValue, ScanPre, LABELS, Lower;
    if tag == "" {
      assert separator + tag + number + tail == tail;
      NoTagScans(tail);
      NothingIsZero();
    } else {
      WrittenTagScans(separator, tag, number, tail);
    }
  }

  lemma WrittenTagScans(separator: string, tag: string, number: string, tail: string)
    requires separator == "" || separator == "-" || separator == "."
    requires Lower(tag) in LABELS && AllDigits(number) && AfterTag(tail)
    ensures ScanPre(separator + tag + number + tail) == Tag(LABELS[Lower(tag)], NatValue(number), tail)
  {
    LetterFirst(tag);
    assert !IsDigit('.') && !IsDigit('\n');
    hide PreLabel, NatValue, ScanPre, LABELS, Lower, LowerChar, IsDigit;
    var t := tag + (number + tail);
    Rejoin(separator, tag, number, tail);
    assert StopsLabel(number + tail) by {
      NumberStopsLabel(number, tail);
    }
    LabelScans(tag, number + tail);
    TagScansAs(separator + t, t, LABELS[Lower(tag)], |tag|, number, tail);
  }

  lemma Rejoin(separator: string, tag: string, number: string, tail: string)
    requires tag != "" && |separator| <= 1
    ensures var t := tag + (number + tail);
            && separator + tag + number + tail == separator + t
            && t[0] == tag[0] && t[|tag|..] == number + tail
            && (if separator == "" then separator + t == t
                else (separator + t)[0] == separator[0] && (separator + t)[1..] == t)
  {
  }

  lemma NumberStopsLabel(number: string, tail: string)
    requires AllDigits(number) && AfterTag(tail)
    ensures StopsLabel(number + tail)
  {
    assert number != "" ==> number[0] in number && (number + tail)[0] == number[0];
    assert number == "" ==> number + tail == tail;
  }

  lemma NothingIsZero()
    ensures NatValue("") == 0
  {
  }

  lemma PostScans(mark: string, number: string, ending: string)
    requires RegularPost(mark, number) && (ending == "" || ending == "\n")
    ensures ScanPost(mark + number + ending) == Tag(if mark == "" then 0 else 1, NatValue(number), ending)
  {
    hide NatValue, DigitRun;
    var s := mark + number + ending;
    if mark == "" {
      assert s == ending;
      NothingIsZero();
      assert !StartsWith(Lower(s), ".post");
    } else {
      assert |mark| == 5 && s[5..] == number + ending;
      assert forall i :: 0 <= i < 5 ==> Lower(s)[i] == Lower(mark)[i];
      assert Lower(s)[..5] == Lower(mark);
      DigitsFirst(number, ending);
    }
  }

  lemma TagStopsRelease(separator: string, tag: string, number: string, tail: string)
    requires RegularLabel(separator, tag, number) && AfterTag(tail)
    ensures StopsRelease(separator + tag + number + tail)
  {
    var s := separator + tag + number + tail;
    if tag == "" {
      assert s == tail;
    } else {
      LetterFirst(tag);
      assert s[0] == if separator != "" then separator[0] else tag[0];
      assert separator != "" ==> s[1] == tag[0];
    }
  }

  lemma PartsMatch(s: string, d: string, more: string, segments: seq<nat>, rest: string, pre: Tag, post: Tag)
    requires s == d + more && Digits(d) && (more == "" || !IsDigit(more[0]))
    requires ScanSegments(more) == (segments, rest) && ScanPre(rest) == pre && ScanPost(pre.rest) == post
    requires post.rest == "" || post.rest == "\n"
    ensures MatchVersion(s) == Ok(Version(NatValue(d), if |segments| > 0 then segments[0] else 0,
                                          if |segments| > 1 then segments[1] else 0,
                                          pre.rank, pre.num, post.rank, post.num))
  {
    hide NatValue, DigitRun, ScanSegments, ScanPre, ScanPost;
    DigitsFirst(d, more);
  }

  /** A regular text is read as the version its parts say. */
  lemma ShapeMatches(v: Shape)
    requires Regular(v)
    ensures MatchVersion(TextOf(v)) == Ok(ValueOf(v))
  {
    hide NatValue, ScanSegments, ScanPre, ScanPost, RegularLabel, RegularPost, Dotted, AfterTag, StopsRelease,
      MatchVersion, AllDigits;
    var first, others := v.numbers[0], v.numbers[1..];
    var tail := v.postMark + v.postNumber + v.ending;
    var rest := v.separator + v.tag + v.tagNumber + tail;
    PostIsAfterTag(v.postMark, v.postNumber, v.ending);
    TagStopsRelease(v.separator, v.tag, v.tagNumber, tail);
    SegmentsScan(others, rest);
    TagScans(v.separator, v.tag, v.tagNumber, tail);
    PostScans(v.postMark, v.postNumber, v.ending);
    assert TextOf(v) == first + (Dotted(others) + rest);
    PartsMatch(TextOf(v), first, Dotted(others) + rest, Values(others), rest, ScanPre(rest), ScanPost(tail));
  }

  // ----- every text that is read is regular --------------------------------

  lemma RestOfSegments(s: string)
    ensures var k := if s != "" && s[0] == '.' then DigitRun(s[1..]) else 0;
            ScanSegments(s).1 == if k == 0 then s else ScanSegments(s[1 + k..]).1
  {
    hide NatValue, DigitRun;
  }

  lemma SegmentCut(s: string, k: nat)
    requires s != "" && s[0] == '.' && k <= |s[1..]|
    ensures s == "." + s[1..][..k] + s[1 + k..]
  {
  }

  lemma {:induction false} SegmentsRead(s: string) returns (ds: seq<string>)
    ensures AllNumbers(ds) && s == Dotted(ds) + ScanSegments(s).1
    decreases |s|
  {
    hide NatValue, ScanSegments, AllDigits;
    RestOfSegments(s);
    var k := if s != "" && s[0] == '.' then DigitRun(s[1..]) else 0;
    ds := [];
    if k != 0 {
      var d := s[1..][..k];
      var more := SegmentsRead(s[1 + k..]);
      SegmentCut(s, k);
      ds := [d] + more;
      DottedCons(d, more, ScanSegments(s).1);
      NumbersCons(d, more);
    }
  }

  lemma DottedCons(d: string, more: seq<string>, rest: string)
    ensures Dotted([d] + more) + rest == "." + d + (Dotted(more) + rest)
  {
    assert ([d] + more)[1..] == more;
  }

  lemma MarkedBy(t: string, mark: string)
    ensures StartsWith(t, mark) ==> |mark| <= |t| && t[..|mark|] == mark
  {
  }

  lemma LabelIsListed(t: string)
    ensures PreLabel(t).Some? ==> Lower(t[..PreLabel(t).value.1]) in LABELS
  {
    var u := Lower(t);
    MarkedBy(u, "alpha");
    MarkedBy(u, "a");
    MarkedBy(u, "beta");
    MarkedBy(u, "b");
    MarkedBy(u, "rc");
    MarkedBy(u, "c");
    MarkedBy(u, "dev");
    if PreLabel(t).Some? {
      var n := PreLabel(t).value.1;
      assert Lower(t[..n]) == u[..n];
      hide StartsWith;
    }
  }

  lemma RestOfTag(s: string)
    ensures var dotted := s != "" && (s[0] == '-' || s[0] == '.');
            var t := if dotted then s[1..] else s;
            ScanPre(s).rest
            == match PreLabel(t)
               case None => s
               case Some((_, n)) => t[n..][DigitRun(t[n..])..]
  {
    hide PreLabel, NatValue, DigitRun;
  }

  lemma CutInThree(s: string, m: nat, n: nat, k: nat)
    requires m <= |s| && n <= |s[m..]| && k <= |s[m..][n..]|
    ensures s == s[..m] + s[m..][..n] + s[m..][n..][..k] + s[m..][n..][k..]
  {
    var t := s[m..];
    assert t == t[..n] + t[n..] && t[n..] == t[n..][..k] + t[n..][k..];
  }

  lemma TagRead(s: string) returns (separator: string, tag: string, number: string)
    ensures RegularLabel(separator, tag, number) && s == separator + tag + number + ScanPre(s).rest
  {
    RestOfTag(s);
    var m := if s != "" && (s[0] == '-' || s[0] == '.') then 1 else 0;
    var t := s[m..];
    assert m == 0 ==> t == s;
    LabelIsListed(t);
    hide PreLabel, ScanPre, LABELS, Lower, RegularLabel;
    if PreLabel(t).Some? {
      var n := PreLabel(t).value.1;
      var k := DigitRun(t[n..]);
      separator, tag, number := s[..m], t[..n], t[n..][..k];
      LetterOrNothing(tag);
      IsRegularLabel(separator, tag, number);
      CutInThree(s, m, n, k);
    } else {
      separator, tag, number := "", "", "";
      NoLabel();
    }
  }

  lemma NoLabel()
    ensures RegularLabel("", "", "")
  {
  }

  lemma IsRegularLabel(separator: string, tag: string, number: string)
    requires separator == "" || separator == "-" || separator == "."
    requires tag != "" && Lower(tag) in LABELS && AllDigits(number)
    ensures RegularLabel(separator, tag, number)
  {
  }

  lemma LetterOrNothing(tag: string)
    requires Lower(tag) in LABELS
    ensures tag != ""
  {
  }

  lemma PostRead(s: string) returns (mark: string, number: string)
    ensures RegularPost(mark, number) && s == mark + number + ScanPost(s).rest
  {
    hide NatValue;
    var k := if StartsWith(Lower(s), ".post") then DigitRun(s[5..]) else 0;
    mark, number := "", "";
    if k != 0 {
      mark, number := s[..5], s[5..][..k];
      assert Lower(mark) == Lower(s)[..5];
      assert s == mark + (number + s[5..][k..]);
    }
  }

  lemma PartsOfMatch(s: string)
    requires MatchVersion(s).Ok?
    ensures DigitRun(s) > 0 && Digits(s[..DigitRun(s)])
    ensures var post := ScanPost(ScanPre(ScanSegments(s[DigitRun(s)..]).1).rest); post.rest == "" || post.rest == "\n"
  {
    hide NatValue, ScanSegments, ScanPre, ScanPost, DigitRun;
  }

  lemma TextOfParts(v: Shape, first: string, ds: seq<string>)
    requires v.numbers == [first] + ds
    ensures TextOf(v)
         == first + (Dotted(ds) + (v.separator + v.tag + v.tagNumber + (v.postMark + v.postNumber + v.ending)))
  {
    assert v.numbers[1..] == ds && v.numbers[0] == first;
    hide Dotted;
    var rest := v.separator + v.tag + v.tagNumber + (v.postMark + v.postNumber + v.ending);
    assert (first + Dotted(ds)) + rest == first + (Dotted(ds) + rest);
  }

  lemma ShapeRead(s: string) returns (v: Shape)
    requires MatchVersion(s).Ok?
    ensures Regular(v) && TextOf(v) == s
  {
    hide *;
    PartsOfMatch(s);
    var first, more := s[..DigitRun(s)], s[DigitRun(s)..];
    var ds := SegmentsRead(more);
    v := RestRead(first, ds, ScanSegments(more).1);
    assert first + more == s;
  }

  lemma RestRead(first: string, ds: seq<string>, rest: string) returns (v: Shape)
    requires Digits(first) && AllNumbers(ds)
    requires ScanPost(ScanPre(rest).rest).rest == "" || ScanPost(ScanPre(rest).rest).rest == "\n"
    ensures Regular(v) && TextOf(v) == first + (Dotted(ds) + rest)
  {
    hide Regular, RegularLabel, RegularPost, ScanPre, ScanPost, TextOf, Dotted, Digits, AllNumbers;
    var separator, tag, number := TagRead(rest);
    var tail := ScanPre(rest).rest;
    var mark, post := PostRead(tail);
    v := Shape([first] + ds, separator, tag, number, mark, post, ScanPost(tail).rest);
    TextOfParts(v, first, ds);
    NumbersCons(first, ds);
    RegularParts(v);
  }

  lemma NumbersCons(first: string, ds: seq<string>)
    requires Digits(first) && AllNumbers(ds)
    ensures AllNumbers([first] + ds)
  {
    hide Digits;
  }

  lemma RegularParts(v: Shape)
    requires v.numbers != [] && AllNumbers(v.numbers) && RegularLabel(v.separator, v.tag, v.tagNumber)
    requires RegularPost(v.postMark, v.postNumber) && (v.ending == "" || v.ending == "\n")
    ensures Regular(v)
  {
  }

  // ----- blanks, local suffixes and wildcards around a version -------------

  /** What `parse_version` cuts off: blanks, a wildcard, a local suffix. */
  datatype Frame = Frame(before: string, star: string, local: string, after: string)

  predicate Fits(v: Shape, f: Frame) {
    && Regular(v) && Blank(f.before) && Blank(f.after) && (f.star == "" || f.star == ".*")
    && (f.local == "" || f.local[0] == '+') && (f.star == "" && f.local == "" ==> v.ending == "")
  }

  function Framed(v: Shape, f: Frame): string {
    f.before + (TextOf(v) + f.star + f.local) + f.after
  }

  predicate ShapeChar(c: char) {
    IsDigit(c) || c == '.' || c == '-' || 'a' <= LowerChar(c) <= 'z'
  }

  predicate ShapeText(s: string) {
    forall c <- s :: ShapeChar(c)
  }

  lemma {:induction false} DottedIsShape(ds: seq<string>)
    requires AllNumbers(ds)
    ensures ShapeText(Dotted(ds))
  {
    if ds != [] {
      DottedIsShape(ds[1..]);
      assert forall c <- ds[0] :: ShapeChar(c);
    }
  }

  lemma LettersAreShape(s: string)
    requires Lower(s) in LABELS || Lower(s) == ".post"
    ensures ShapeText(s)
  {
    forall c <- s ensures ShapeChar(c) {
      var i :| 0 <= i < |s| && s[i] == c;
      assert Lower(s)[i] == LowerChar(c);
      PlainLetters(Lower(s), i);
    }
  }

  lemma PlainLetters(t: string, i: nat)
    requires (t in LABELS || t == ".post") && i < |t|
    ensures t[i] == '.' || 'a' <= t[i] <= 'z'
  {
  }

  lemma TextIsShape(v: Shape)
    requires Regular(v)
    ensures ShapeText(TextOf(v.(ending := ""))) && TextOf(v) == TextOf(v.(ending := "")) + v.ending
    ensures TextOf(v.(ending := "")) != "" && TextOf(v)[0] == TextOf(v.(ending := ""))[0]
  {
    var first := v.numbers[0];
    DottedIsShape(v.numbers[1..]);
    if v.tag != "" {
      LettersAreShape(v.tag);
    }
    if v.postMark != "" {
      LettersAreShape(v.postMark);
    }
    assert forall c <- first + v.tagNumber + v.postNumber :: IsDigit(c);
    hide Dotted;
  }

  lemma {:induction false} BeforeOfConcat(a: string, b: string, mark: char)
    requires mark !in a && (b == "" || b[0] == mark)
    ensures Before(a + b, mark) == a
  {
    if a == "" {
      assert a + b == b;
    } else {
      assert (a + b)[1..] == a[1..] + b && [a[0]] + a[1..] == a;
      BeforeOfConcat(a[1..], b, mark);
    }
  }

  lemma {:induction false} RStripOfConcat(a: string, b: string)
    requires b != "" && !IsSpace(b[0])
    ensures RStrip(a + b, IsSpace) == a + RStrip(b, IsSpace)
    ensures RStrip(b, IsSpace) != "" && RStrip(b, IsSpace)[0] == b[0]
    decreases |b|
  {
    var n := |b| - 1;
    assert (a + b)[|a| + n] == b[n];
    if IsSpace(b[n]) {
      assert (a + b)[..|a| + n] == a + b[..n];
      RStripOfConcat(a, b[..n]);
    }
  }

  /** Blanks and a local suffix are cut off. */
  lemma CutsLocal(before: string, core: string, local: string, after: string)
    requires Blank(before) && Blank(after) && core != "" && '+' !in core && !IsSpace(core[0])
    requires if local == "" then !IsSpace(core[|core| - 1]) else local[0] == '+'
    ensures Before(Strip(before + (core + local) + after), '+') == core
  {
    hide IsSpace;
    assert !IsSpace('+') by {
      PlusIsNoSpace();
    }
    var whole := core + local + after;
    assert before + (core + local) + after == before + whole && whole[0] == core[0];
    LStripAround(before, whole, IsSpace);
    hide LStrip, RStrip;
    if local == "" {
      assert core + local == core;
      RStripAround(core, after, IsSpace);
      assert core + "" == core;
      BeforeOfConcat(core, "", '+');
    } else {
      var tail := local + after;
      assert whole == core + tail && tail[0] == '+';
      RStripOfConcat(core, tail);
      BeforeOfConcat(core, RStrip(tail, IsSpace), '+');
    }
  }

  lemma PlusIsNoSpace()
    ensures !IsSpace('+')
  {
  }

  /** A regular text holds neither plus nor star, and starts with a digit; blanks end it only as a line break. */
  lemma TextIsClean(v: Shape)
    requires Regular(v)
    ensures TextOf(v) != "" && '*' !in TextOf(v) && '+' !in TextOf(v) && !IsSpace(TextOf(v)[0])
    ensures v.ending == "" ==> !IsSpace(TextOf(v)[|TextOf(v)| - 1])
  {
    TextIsShape(v);
    MarksAreNoShape();
    ShapeIsNoSpace();
    var body := TextOf(v.(ending := ""));
    hide TextOf, Regular, ShapeChar, IsSpace;
    assert ShapeChar(body[0]) && ShapeChar(body[|body| - 1]);
    assert '*' !in v.ending && '+' !in v.ending;
  }

  lemma ShapeCore(v: Shape, star: string)
    requires Regular(v) && (star == "" || star == ".*")
    ensures var core := TextOf(v) + star;
            && core != "" && '+' !in core && !IsSpace(core[0]) && RemoveSuffix(core, ".*") == TextOf(v)
            && (star == ".*" || v.ending == "" ==> !IsSpace(core[|core| - 1]))
  {
    TextIsClean(v);
    hide TextOf, Regular;
    var text := TextOf(v);
    var core := text + star;
    if star == "" {
      assert core == text;
      assert |core| >= 2 ==> core[|core| - 2..][1] == core[|core| - 1];
    } else {
      assert core[|core| - 2..] == ".*" && core[..|core| - 2] == text;
    }
  }

  lemma MarksAreNoShape()
    ensures !ShapeChar('*') && !ShapeChar('+')
  {
  }

  lemma ShapeIsNoSpace()
    ensures forall c | ShapeChar(c) :: !IsSpace(c)
  {
  }

  lemma FramedParses(v: Shape, f: Frame)
    requires Fits(v, f)
    ensures ParseVersion(Framed(v, f)) == Ok(ValueOf(v))
  {
    hide MatchVersion, TextOf, Strip, Before, Regular, ValueOf, IsSpace, Blank, RemoveSuffix;
    ShapeCore(v, f.star);
    CutsLocal(f.before, TextOf(v) + f.star, f.local, f.after);
    ShapeMatches(v);
  }

  lemma {:induction false} BeforeParts(s: string, mark: char) returns (rest: string)
    ensures s == Before(s, mark) + rest && (rest == "" || rest[0] == mark)
  {
    if s == "" || s[0] == mark {
      rest := s;
    } else {
      rest := BeforeParts(s[1..], mark);
      assert s == [s[0]] + s[1..];
    }
  }

  /** A text that is read is a regular one, with nothing around it but what is cut off. */
  lemma ParsedIsFramed(text: string) returns (v: Shape, f: Frame)
    requires ParseVersion(text).Ok?
    ensures Fits(v, f) && text == Framed(v, f)
  {
    hide MatchVersion, TextOf, Regular, IsSpace, Blank, LStrip, RStrip, Before;
    var before := LStripParts(text);
    var inner := LStrip(text, IsSpace);
    var after := RStripParts(inner);
    var core := RStrip(inner, IsSpace);
    var local := BeforeParts(core, '+');
    var cut := Before(core, '+');
    var star := if EndsWith(cut, ".*") then ".*" else "";
    v := ShapeRead(RemoveSuffix(cut, ".*"));
    f := Frame(before, star, local, after);
    assert cut == TextOf(v) + star;
    if star == "" && local == "" {
      assert core == TextOf(v) && core == Strip(text);
      StripTail(text);
      TextIsShape(v);
      LastOfEnding(v);
    }
    assert text == before + (cut + local + after);
  }

  lemma LastOfEnding(v: Shape)
    requires Regular(v) && !IsSpace(TextOf(v)[|TextOf(v)| - 1])
    ensures v.ending == ""
  {
    TextIsShape(v);
  }

  /** The texts that `parse_version` reads, and what it reads them as. */
  lemma ParsesExactly(text: string, value: Version)
    ensures ParseVersion(text) == Ok(value)
       <==> exists v: Shape, f: Frame :: Fits(v, f) && text == Framed(v, f) && ValueOf(v) == value
  {
    hide ParseVersion, Regular, Framed, ValueOf;
    if ParseVersion(text).Ok? {
      var v, f := ParsedIsFramed(text);
      FramedParses(v, f);
    }
    if v: Shape, f: Frame :| Fits(v, f) && text == Framed(v, f) && ValueOf(v) == value {
      FramedParses(v, f);
    }
  }
}
