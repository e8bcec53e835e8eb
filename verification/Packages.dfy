/** Package names, wheel tags and index entries. */
module Packages {
  import opened Wrappers
  import opened PyText
  import opened Versions

  // ----- name normalization ------------------------------------------------

  predicate IsSeparator(c: char) {
    c == '-' || c == '_' || c == '.'
  }

  function DropSeparators(s: string): (r: string)
    ensures |r| <= |s| && (r == "" || !IsSeparator(r[0]))
  {
    if s != "" && IsSeparator(s[0]) then DropSeparators(s[1..]) else s
  }

  /** Lowercase, with every run of separators replaced by one hyphen. */
  function NormalizeName(name: string): string
    decreases |name|
  {
    if name == "" then ""
    else if IsSeparator(name[0]) then "-" + NormalizeName(DropSeparators(name[1..]))
    else [LowerChar(name[0])] + NormalizeName(name[1..])
  }

  predicate Normalized(name: string) {
    NormalizeName(name) == name
  }

  lemma {:induction false} NormalizeIsIdempotent(name: string)
    ensures Normalized(NormalizeName(name))
    decreases |name|
  {
    if name != "" {
      var rest := if IsSeparator(name[0]) then DropSeparators(name[1..]) else name[1..];
      NormalizeIsIdempotent(rest);
      assert NormalizeName(name)[1..] == NormalizeName(rest);
      assert IsSeparator(name[0]) && rest != "" ==> !IsSeparator(NormalizeName(rest)[0]);
    }
  }

  // ----- what normalization yields -----------------------------------------

  /** Words and the runs of separators between them. */
  function Woven(words: seq<string>, runs: seq<string>): string
    requires |words| == |runs| + 1
  {
    if runs == [] then words[0] else words[0] + runs[0] + Woven(words[1..], runs[1..])
  }

  predicate IsWord(s: string) {
    forall c <- s :: c !in "-_."
  }

  predicate IsRun(s: string) {
    s != "" && forall c <- s :: c in "-_."
  }

  /** Words hold no separators and runs nothing else; only the first and the last word may be empty. */
  predicate WellWoven(words: seq<string>, runs: seq<string>) {
    && |words| == |runs| + 1
    && (forall i :: 0 <= i < |words| ==> IsWord(words[i]))
    && (forall i :: 0 <= i < |runs| ==> IsRun(runs[i]))
    && (forall i :: 0 < i < |runs| ==> words[i] != "")
  }

  lemma SeparatorsAre()
    ensures forall c :: c in "-_." <==> IsSeparator(c)
  {
  }

  lemma {:induction false} WordThen(word: string, rest: string)
    requires IsWord(word)
    ensures NormalizeName(word + rest) == Lower(word) + NormalizeName(rest)
  {
    if word == "" {
      assert word + rest == rest;
    } else {
      SeparatorsAre();
      WordThen(word[1..], rest);
      assert (word + rest)[1..] == word[1..] + rest && word[0] in word;
      assert Lower(word) == [LowerChar(word[0])] + Lower(word[1..]);
    }
  }

  lemma {:induction false} RunDropped(run: string, rest: string)
    requires (forall c <- run :: IsSeparator(c)) && (rest == "" || !IsSeparator(rest[0]))
    ensures DropSeparators(run + rest) == rest
  {
    if run == "" {
      assert run + rest == rest;
    } else {
      RunDropped(run[1..], rest);
      assert (run + rest)[1..] == run[1..] + rest && run[0] in run;
    }
  }

  lemma RunThen(run: string, rest: string)
    requires IsRun(run) && (rest == "" || !IsSeparator(rest[0]))
    ensures NormalizeName(run + rest) == "-" + NormalizeName(rest)
  {
    SeparatorsAre();
    RunDropped(run[1..], rest);
    assert (run + rest)[1..] == run[1..] + rest && run[0] in run;
  }

  function LoweredAll(words: seq<string>): (r: seq<string>)
    ensures |r| == |words|
  {
    seq(|words|, i requires 0 <= i < |words| => Lower(words[i]))
  }

  /** A name becomes its words in lower case with one hyphen for every run of separators. */
  lemma {:induction false} NormalizeOfWoven(words: seq<string>, runs: seq<string>)
    requires WellWoven(words, runs)
    ensures NormalizeName(Woven(words, runs)) == Join(LoweredAll(words), '-')
    decreases runs
  {
    hide IsSeparator, Lower;
    if runs == [] {
      WordThen(words[0], "");
      assert words[0] + "" == words[0] && Lower(words[0]) + "" == Lower(words[0]);
    } else {
      var rest := Woven(words[1..], runs[1..]);
      assert WellWoven(words[1..], runs[1..]);
      NormalizeOfWoven(words[1..], runs[1..]);
      assert rest == "" || !IsSeparator(rest[0]) by {
        StartsWithWord(words[1..], runs[1..]);
      }
      assert words[0] + runs[0] + rest == words[0] + (runs[0] + rest);
      WordThen(words[0], runs[0] + rest);
      RunThen(runs[0], rest);
      assert LoweredAll(words)[1..] == LoweredAll(words[1..]);
    }
  }

  lemma StartsWithWord(words: seq<string>, runs: seq<string>)
    requires WellWoven(words, runs) && (runs != [] ==> words[0] != "")
    ensures Woven(words, runs) == "" || !IsSeparator(Woven(words, runs)[0])
  {
    SeparatorsAre();
    assert words[0] != "" ==> words[0][0] in words[0];
  }

  /** No equals sign, as in every name the requirement parser accepts. */
  predicate CleanName(name: string) {
    '=' !in name
  }

  lemma {:induction false} NormalizeKeepsClean(name: string)
    requires CleanName(name)
    ensures CleanName(NormalizeName(name))
    decreases |name|
  {
    if name != "" {
      DropSeparatorsIsSuffix(name[1..]);
      NormalizeKeepsClean(if IsSeparator(name[0]) then DropSeparators(name[1..]) else name[1..]);
    }
  }

  lemma {:induction false} DropSeparatorsIsSuffix(s: string)
    ensures forall c <- DropSeparators(s) :: c in s
  {
    if s != "" && IsSeparator(s[0]) {
      DropSeparatorsIsSuffix(s[1..]);
    }
  }

  /** `name==version`, the text under which a pin is marked as visited. */
  function PinKey(name: string, version: string): string {
    name + "==" + version
  }

  lemma PinKeyInjective(n: string, v: string, m: string, w: string)
    requires CleanName(n) && CleanName(m) && PinKey(n, v) == PinKey(m, w)
    ensures n == m && v == w
  {
    var key := PinKey(n, v);
    assert key[|n|] == '=' && key[|m|] == '=';
    assert forall i :: 0 <= i < |n| ==> key[i] == n[i] && key[i] in n;
    assert forall i :: 0 <= i < |m| ==> key[i] == m[i] && key[i] in m;
    assert key[..|n|] == n && key[..|m|] == m;
    assert key[|n| + 2..] == v && key[|m| + 2..] == w;
  }

  // ----- wheel tags --------------------------------------------------------

  /** `x86_64` of `linux_x86_64`; a target without underscore is its own architecture. */
  function ArchOf(target: string): string {
    if '_' in target then target[|Before(target, '_')| + 1..] else target
  }

  predicate AnyPlatform(platformTag: string) {
    Lower(platformTag) == "any" || Lower(platformTag) == "none"
  }

  predicate MatchesTarget(platformTag: string, target: string) {
    exists sub <- Split(platformTag, '.') :: sub == target || EndsWith(sub, "_" + ArchOf(target))
  }

  /** The first target platform that the tag matches, `any` for a tag that fits all. */
  function MatchArch(platformTag: string, targets: seq<string>): (r: Option<string>)
    ensures r == None <==> !AnyPlatform(platformTag) && forall t <- targets :: !MatchesTarget(platformTag, t)
    ensures r.Some? ==> r.value == "any" || (r.value in targets && MatchesTarget(platformTag, r.value))
  {
    if AnyPlatform(platformTag) then Some("any")
    else if targets == [] then None
    else if MatchesTarget(platformTag, targets[0]) then Some(targets[0])
    else MatchArch(platformTag, targets[1..])
  }

  /** Does an `abi3` wheel's `cpXY` tag name a Python not newer than the target? */
  predicate Abi3Compatible(pythonTag: string, major: int, minor: int) {
    exists sub <- Split(pythonTag, '.') :: StartsWith(sub, "cp") && |sub| >= 3 && Abi3TagFits(sub[2..], major, minor)
  }

  predicate Abi3TagFits(digits: string, major: int, minor: int)
    requires digits != ""
  {
    var tagMajor, tagMinor := ParseInt(digits[..1]), if |digits| > 1 then ParseInt(digits[1..]) else Ok(0);
    && tagMajor.Ok? && tagMinor.Ok?
    && (tagMajor.value < major || (tagMajor.value == major && tagMinor.value <= minor))
  }

  predicate PythonFits(pythonTag: string, abiTag: string, majorText: string, minorText: string, major: int,
                       minor: int) {
    || (exists sub <- Split(pythonTag, '.') ::
          sub in {"cp" + majorText + minorText, "cp" + majorText, "py" + majorText, "py" + majorText + minorText})
    || (abiTag != "" && "abi3" in Split(abiTag, '.') && Abi3Compatible(pythonTag, major, minor))
  }

  function IsWheelCompatible(pythonTag: string, platformTag: string, targetPython: string,
                             targets: seq<string>, abiTag: string): Result<bool, PyError>
  {
    var parts := Split(targetPython, '.');
    if |parts| != 2 then Err(ValueError)
    else
      var major :- ParseInt(parts[0]);
      var minor :- ParseInt(parts[1]);
      Ok(PythonFits(pythonTag, abiTag, parts[0], parts[1], major, minor)
         && (AnyPlatform(platformTag) || exists t <- targets :: MatchesTarget(platformTag, t)))
  }

  // ----- index entries -----------------------------------------------------

  datatype Entry = Entry(filename: string, sha256: string, version: string, isWheel: bool,
                         pythonTag: string, abiTag: string, platformTag: string)

  /** A Python dict with string keys: the items, and the order in which the keys were first set. */
  datatype Dict<V> = Dict(order: seq<string>, items: map<string, V>) {
    ghost predicate Valid() {
      && (forall k :: k in order <==> k in items)
      && (forall i, j :: 0 <= i < j < |order| ==> order[i] != order[j])
    }

    function Put(key: string, value: V): (d: Dict<V>)
      ensures Valid() ==> d.Valid()
      ensures d.items == items[key := value]
    {
      Dict(if key in items then order else order + [key], items[key := value])
    }
  }

  function EmptyDict<V>(): (d: Dict<V>)
    ensures d.Valid()
  {
    Dict([], map[])
  }

  datatype Wheel = Wheel(filename: string, sha256: string)

  type Platforms = map<string, Wheel>
}
