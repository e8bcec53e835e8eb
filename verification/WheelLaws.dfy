/** Which wheels fit a target, from the texts of their tags. */
module WheelLaws {
  import opened Wrappers
  import opened PyText
  import opened Versions
  import opened Packages
  import opened Indexes

  // ----- dotted parts ------------------------------------------------------

  /** `part` stands in the dotted text between two dots, or between a dot and an end. */
  ghost predicate PartOf(part: string, text: string) {
    '.' !in part
    && exists front: string, back: string :: text == front + part + back && Stop(front, back)
  }

  predicate Stop(front: string, back: string) {
    (front == "" || front[|front| - 1] == '.') && (back == "" || back[0] == '.')
  }

  lemma SplitHasFirst(part: string, back: string)
    requires '.' !in part && (back == "" || back[0] == '.')
    ensures part in Split(part + back, '.')
  {
    hide Split;
    SplitOfPlain(part, '.');
    if back == "" {
      assert part + back == part;
    } else {
      assert part + back == part + ['.'] + back[1..];
      SplitOfConcat(part, back[1..], '.');
    }
  }

  lemma SplitHasPart(front: string, part: string, back: string)
    requires '.' !in part && Stop(front, back)
    ensures part in Split(front + part + back, '.')
  {
    hide Split;
    SplitHasFirst(part, back);
    var text := part + back;
    assert front + part + back == front + text;
    if front == "" {
      assert front + text == text;
    } else {
      var n := |front| - 1;
      assert front + text == front[..n] + ['.'] + text;
      SplitOfConcat(front[..n], text, '.');
    }
  }

  lemma {:induction false} PartHasPlace(text: string, part: string) returns (front: string, back: string)
    requires part in Split(text, '.')
    ensures '.' !in part && text == front + part + back && Stop(front, back)
    decreases |text|
  {
    hide Split;
    if '.' !in text {
      SplitOfPlain(text, '.');
      front, back := "", "";
    } else {
      var head := Before(text, '.');
      var rest := AfterFirst(text, '.');
      SplitOfConcat(head, rest, '.');
      SplitOfPlain(head, '.');
      if part == head {
        front, back := "", ['.'] + rest;
      } else {
        var before;
        before, back := PartHasPlace(rest, part);
        front := head + ['.'] + before;
        assert front + part + back == head + ['.'] + (before + part + back);
      }
    }
  }

  lemma {:induction false} AfterFirst(text: string, mark: char) returns (rest: string)
    requires mark in text
    ensures mark !in Before(text, mark) && text == Before(text, mark) + [mark] + rest
  {
    if text[0] == mark {
      rest := text[1..];
    } else {
      rest := AfterFirst(text[1..], mark);
      assert text == [text[0]] + text[1..];
    }
  }

  lemma PartsAreSplit(text: string, part: string)
    ensures part in Split(text, '.') <==> PartOf(part, text)
  {
    hide Split, Stop;
    if part in Split(text, '.') {
      var front, back := PartHasPlace(text, part);
    }
    if PartOf(part, text) {
      var front, back :| text == front + part + back && Stop(front, back);
      SplitHasPart(front, part, back);
    }
  }

  // ----- written integers --------------------------------------------------

  /** A whole number as `int()` takes it: blanks around it, a sign, leading zeros. */
  datatype Numeral = Numeral(before: string, sign: string, digits: string, after: string)

  predicate Proper(x: Numeral) {
    && Blank(x.before) && Blank(x.after) && (x.sign == "" || x.sign == "+" || x.sign == "-")
    && x.digits != "" && AllDigits(x.digits)
  }

  function NumeralText(x: Numeral): string {
    x.before + (x.sign + x.digits) + x.after
  }

  function ValueOf(x: Numeral): int
    requires AllDigits(x.digits)
  {
    if x.sign == "-" then -(NatValue(x.digits) as int) else NatValue(x.digits)
  }

  /** The text writes this number. */
  ghost predicate Writes(text: string, n: int) {
    exists x: Numeral :: Proper(x) && NumeralText(x) == text && ValueOf(x) == n
  }

  lemma NumeralCore(x: Numeral)
    requires Proper(x)
    ensures var core := x.sign + x.digits;
            && Strip(NumeralText(x)) == core && core != "" && x.digits != ""
            && (x.sign == "" ==> core == x.digits && IsDigit(core[0]))
            && (x.sign != "" ==> core[0] == x.sign[0] && core[1..] == x.digits)
  {
    hide Strip, StripWhere;
    var core := x.sign + x.digits;
    assert x.digits[0] in x.digits && x.digits[|x.digits| - 1] in x.digits;
    assert core[0] == if x.sign == "" then x.digits[0] else x.sign[0];
    assert core[|core| - 1] == x.digits[|x.digits| - 1];
    StripAround(x.before, core, x.after, IsSpace);
    assert Strip(NumeralText(x)) == core by {
      StripIsWhere(NumeralText(x));
    }
  }

  lemma StripIsWhere(s: string)
    ensures Strip(s) == StripWhere(s, IsSpace)
  {
  }

  lemma NumeralParses(x: Numeral)
    requires Proper(x)
    ensures ParseInt(NumeralText(x)) == Ok(ValueOf(x))
  {
    hide NatValue, Strip, NumeralText;
    NumeralCore(x);
  }

  lemma {:induction false} StripParts(s: string) returns (before: string, after: string)
    ensures Blank(before) && Blank(after) && s == before + Strip(s) + after
  {
    before := LStripParts(s);
    after := RStripParts(LStrip(s, IsSpace));
    assert s == before + (RStrip(LStrip(s, IsSpace), IsSpace) + after);
  }

  lemma ParseIntReads(text: string) returns (x: Numeral)
    requires ParseInt(text).Ok?
    ensures Proper(x) && NumeralText(x) == text
  {
    var before, after := StripParts(text);
    hide NatValue, Strip, Blank;
    var s := Strip(text);
    var signed := s != "" && (s[0] == '+' || s[0] == '-');
    x := Numeral(before, if signed then s[..1] else "", if signed then s[1..] else s, after);
    assert x.sign + x.digits == s;
  }

  lemma ParseIntExactly(text: string, n: int)
    ensures ParseInt(text) == Ok(n) <==> Writes(text, n)
  {
    hide ParseInt, NumeralText, ValueOf;
    if ParseInt(text).Ok? {
      var x := ParseIntReads(text);
      NumeralParses(x);
    }
    if Writes(text, n) {
      var x :| Proper(x) && NumeralText(x) == text && ValueOf(x) == n;
      NumeralParses(x);
    }
  }

  // ----- the Python of a wheel ---------------------------------------------

  /** The four names under which a wheel may name the target's Python. */
  ghost predicate NamesPython(tag: string, major: string, minor: string) {
    || PartOf("cp" + major, tag) || PartOf("cp" + major + minor, tag)
    || PartOf("py" + major, tag) || PartOf("py" + major + minor, tag)
  }

  /** `part` is `cp`, one digit for the major version and perhaps a minor version, not newer than the target. */
  ghost predicate NotNewer(part: string, major: int, minor: int) {
    || (exists d: nat :: d < 10 && part == "cp" + NatText(d) && UpTo(d, 0, major, minor))
    || (exists d: nat, rest: string, n: int ::
          d < 10 && Writes(rest, n) && part == "cp" + NatText(d) + rest && UpTo(d, n, major, minor))
  }

  predicate UpTo(d: int, n: int, major: int, minor: int) {
    d < major || (d == major && n <= minor)
  }

  ghost predicate StableAbiFits(pythonTag: string, abiTag: string, major: int, minor: int) {
    PartOf("abi3", abiTag) && exists part :: PartOf(part, pythonTag) && NotNewer(part, major, minor)
  }

  lemma OneDigit(d: nat)
    requires d < 10
    ensures NatText(d) == [DigitChar(d)] && ParseInt(NatText(d)) == Ok(d)
  {
    assert IsDigit(DigitChar(d)) && [DigitChar(d)][..0] == "";
    StripOfTrimmed([DigitChar(d)]);
    assert NatValue([DigitChar(d)]) == d;
  }

  /** A single character is read as a number exactly if it is a digit. */
  lemma OneChar(c: char)
    ensures ParseInt([c]).Ok? <==> IsDigit(c)
    ensures IsDigit(c) ==> DigitValue(c) < 10 && NatText(DigitValue(c)) == [c] && ParseInt([c]) == Ok(DigitValue(c))
  {
    if IsDigit(c) {
      OneDigit(DigitValue(c));
    } else if IsSpace(c) {
      StripBlank([c]);
    } else {
      StripOfTrimmed([c]);
      assert [c][1..] == "";
    }
  }

  /** What the check reads off a part, in terms of the part itself. */
  predicate Abi3Part(part: string, major: int, minor: int) {
    StartsWith(part, "cp") && |part| >= 3 && Abi3TagFits(part[2..], major, minor)
  }

  lemma Abi3OfDigit(d: nat, rest: string, major: int, minor: int)
    requires d < 10
    ensures Abi3Part("cp" + NatText(d) + rest, major, minor)
       <==> if rest == "" then UpTo(d, 0, major, minor)
            else ParseInt(rest).Ok? && UpTo(d, ParseInt(rest).value, major, minor)
  {
    hide ParseInt, NatText;
    OneDigit(d);
    var part, digits := "cp" + NatText(d) + rest, NatText(d) + rest;
    assert part[..2] == "cp" && part[2..] == digits && digits[..1] == NatText(d) && digits[1..] == rest;
  }

  lemma Abi3PartExactly(part: string, major: int, minor: int)
    ensures Abi3Part(part, major, minor) <==> NotNewer(part, major, minor)
  {
    hide Writes, NatText, UpTo;
    forall rest: string, n ensures ParseInt(rest) == Ok(n) <==> Writes(rest, n) {
      ParseIntExactly(rest, n);
    }
    NoNumberInNothing();
    if Abi3Part(part, major, minor) {
      var c, rest := part[2], part[3..];
      assert part[2..][..1] == [c];
      OneChar(c);
      hide Abi3Part, ParseInt;
      assert part == "cp" + NatText(DigitValue(c)) + rest;
      assert rest == "" ==> part == "cp" + NatText(DigitValue(c));
      Abi3OfDigit(DigitValue(c), rest, major, minor);
    } else if NotNewer(part, major, minor) {
      hide Abi3Part, ParseInt;
      if d: nat :| d < 10 && part == "cp" + NatText(d) && UpTo(d, 0, major, minor) {
        assert part == "cp" + NatText(d) + "";
        Abi3OfDigit(d, "", major, minor);
      } else {
        var d: nat, rest: string, n: int :|
          d < 10 && Writes(rest, n) && part == "cp" + NatText(d) + rest && UpTo(d, n, major, minor);
        Abi3OfDigit(d, rest, major, minor);
      }
    }
  }

  lemma NoNumberInNothing()
    ensures ParseInt("") == Err(ValueError)
  {
  }

  lemma PythonExactly(pythonTag: string, abiTag: string, majorText: string, minorText: string, major: int, minor: int)
    ensures PythonFits(pythonTag, abiTag, majorText, minorText, major, minor)
       <==> NamesPython(pythonTag, majorText, minorText) || StableAbiFits(pythonTag, abiTag, major, minor)
  {
    hide Split, PartOf, Abi3TagFits, NotNewer;
    forall part ensures part in Split(pythonTag, '.') <==> PartOf(part, pythonTag) {
      PartsAreSplit(pythonTag, part);
    }
    PartsAreSplit(abiTag, "abi3");
    assert "abi3" != "" && Split("", '.') == [""] by {
      SplitOfPlain("", '.');
    }
    forall part ensures Abi3Part(part, major, minor) <==> NotNewer(part, major, minor) {
      Abi3PartExactly(part, major, minor);
    }
  }

  // ----- the platform of a wheel -------------------------------------------

  predicate PlatformFree(tag: string) {
    Lower(tag) == "any" || Lower(tag) == "none"
  }

  /** Some part is the Linux tag of the architecture, or ends in the architecture after an underscore. */
  ghost predicate NamesPlatform(tag: string, arch: string) {
    exists part :: PartOf(part, tag) && (part == "linux_" + arch || exists front :: part == front + "_" + arch)
  }

  lemma ArchOfLinux(arch: string)
    ensures ArchOf("linux_" + arch) == arch
  {
    var target := "linux_" + arch;
    assert target[5] == '_' && '_' in target;
    BeforeAt(target, '_', 5);
  }

  lemma {:induction false} BeforeAt(s: string, mark: char, k: nat)
    requires k < |s| && s[k] == mark && forall i :: 0 <= i < k ==> s[i] != mark
    ensures |Before(s, mark)| == k
  {
    if k > 0 {
      BeforeAt(s[1..], mark, k - 1);
    }
  }

  lemma EndsAfter(part: string, suffix: string)
    ensures EndsWith(part, suffix) <==> exists front :: part == front + suffix
  {
    if EndsWith(part, suffix) {
      assert part == part[..|part| - |suffix|] + suffix;
    }
  }

  lemma PlatformExactly(tag: string, arch: string)
    ensures MatchesTarget(tag, "linux_" + arch) <==> NamesPlatform(tag, arch)
  {
    ArchOfLinux(arch);
    hide Split, PartOf, ArchOf, EndsWith;
    forall part
      ensures part in Split(tag, '.') <==> PartOf(part, tag)
      ensures EndsWith(part, "_" + arch) <==> exists front :: part == front + "_" + arch
    {
      PartsAreSplit(tag, part);
      EndsAfter(part, "_" + arch);
      assert forall front: string :: front + "_" + arch == front + ("_" + arch);
    }
  }

  // ----- the wheel as a whole ----------------------------------------------

  /** The target is written as two whole numbers with a dot between them. */
  ghost predicate Target(python: string, majorText: string, minorText: string, major: int, minor: int) {
    && python == majorText + "." + minorText && '.' !in majorText && '.' !in minorText
    && Writes(majorText, major) && Writes(minorText, minor)
  }

  /** What a wheel must be to fit: a wheel, for this Python, and for one of the architectures or for any. */
  ghost predicate Usable(e: Entry, majorText: string, minorText: string, major: int, minor: int,
                         platforms: seq<string>)
  {
    && e.isWheel
    && (NamesPython(e.pythonTag, majorText, minorText) || StableAbiFits(e.pythonTag, e.abiTag, major, minor))
    && (PlatformFree(e.platformTag) || exists arch <- platforms :: NamesPlatform(e.platformTag, arch))
  }

  lemma TargetSplits(python: string, majorText: string, minorText: string, major: int, minor: int)
    requires Target(python, majorText, minorText, major, minor)
    ensures Split(python, '.') == [majorText, minorText]
    ensures ParseInt(majorText) == Ok(major) && ParseInt(minorText) == Ok(minor)
  {
    hide Split, ParseInt, Writes;
    SplitOfConcat(majorText, minorText, '.');
    SplitOfPlain(majorText, '.');
    SplitOfPlain(minorText, '.');
    ParseIntExactly(majorText, major);
    ParseIntExactly(minorText, minor);
  }

  lemma PlatformsExactly(tag: string, platforms: seq<string>)
    ensures (exists t <- TargetsOf(platforms) :: MatchesTarget(tag, t))
       <==> exists arch <- platforms :: NamesPlatform(tag, arch)
  {
    hide MatchesTarget, NamesPlatform;
    var targets := TargetsOf(platforms);
    forall i | 0 <= i < |platforms|
      ensures targets[i] == "linux_" + platforms[i]
      ensures MatchesTarget(tag, targets[i]) <==> NamesPlatform(tag, platforms[i])
    {
      PlatformExactly(tag, platforms[i]);
    }
    if t :| t in targets && MatchesTarget(tag, t) {
      var i :| 0 <= i < |targets| && targets[i] == t;
      assert platforms[i] in platforms;
    }
    if arch :| arch in platforms && NamesPlatform(tag, arch) {
      var i :| 0 <= i < |platforms| && platforms[i] == arch;
      assert targets[i] in targets;
    }
  }

  /** A wheel fits exactly if it is usable, whatever its tags are. */
  lemma WheelFitsExactly(site: RhoaiSite, e: Entry, majorText: string, minorText: string, major: int, minor: int)
    requires Target(site.python, majorText, minorText, major, minor)
    ensures EntryFits(site, e) == Ok(Usable(e, majorText, minorText, major, minor, site.platforms))
  {
    hide Split, ParseInt, Writes, PythonFits, NamesPython, StableAbiFits, MatchesTarget, NamesPlatform, TargetsOf;
    TargetSplits(site.python, majorText, minorText, major, minor);
    PythonExactly(e.pythonTag, e.abiTag, majorText, minorText, major, minor);
    PlatformsExactly(e.platformTag, site.platforms);
  }

  /** A loaded package has exactly the versions of which the page lists a usable wheel. */
  lemma RhoaiOffersTheUsable(site: RhoaiSite, norm: string, majorText: string, minorText: string, major: int,
                             minor: int)
    requires Target(site.python, majorText, minorText, major, minor) && RhoaiVersions(site, norm).Ok?
    ensures forall v :: v in RhoaiVersions(site, norm).value.order
                   <==> norm in site.known && norm in site.pages
                        && exists e <- site.pages[norm] ::
                             e.version == v && Usable(e, majorText, minorText, major, minor, site.platforms)
  {
    hide EntryFits, Usable, RhoaiVersions, Target;
    RhoaiVersionsAreTheCompatible(site, norm);
    forall e ensures EntryFits(site, e) == Ok(Usable(e, majorText, minorText, major, minor, site.platforms)) {
      WheelFitsExactly(site, e, majorText, minorText, major, minor);
    }
  }

  /** Any other target raises as soon as there is a wheel to judge. */
  lemma BadTargetRaises(site: RhoaiSite, e: Entry)
    requires e.isWheel
    ensures EntryFits(site, e).Err?
       <==> !exists majorText, minorText, major, minor :: Target(site.python, majorText, minorText, major, minor)
  {
    hide Split, ParseInt, Writes, PythonFits, MatchesTarget;
    if majorText, minorText, major, minor :| Target(site.python, majorText, minorText, major, minor) {
      TargetSplits(site.python, majorText, minorText, major, minor);
    }
    if EntryFits(site, e).Ok? {
      var parts := Split(site.python, '.');
      var major, minor := ParseInt(parts[0]).value, ParseInt(parts[1]).value;
      ParseIntExactly(parts[0], major);
      ParseIntExactly(parts[1], minor);
      TwoParts(site.python);
      assert Target(site.python, parts[0], parts[1], major, minor);
    }
  }

  lemma TwoParts(s: string)
    requires |Split(s, '.')| == 2
    ensures var parts := Split(s, '.');
            s == parts[0] + "." + parts[1] && '.' !in parts[0] && '.' !in parts[1]
  {
    hide Split;
    if '.' !in s {
      SplitOfPlain(s, '.');
    } else {
      var head := Before(s, '.');
      var rest := AfterFirst(s, '.');
      SplitOfConcat(head, rest, '.');
      SplitOfPlain(head, '.');
      if '.' in rest {
        var middle := Before(rest, '.');
        var end := AfterFirst(rest, '.');
        SplitOfConcat(middle, end, '.');
      } else {
        SplitOfPlain(rest, '.');
      }
    }
  }
}
