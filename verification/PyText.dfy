/** The string operations the repository takes from Python: strip, split, join and the like. */
module PyText {

  // ----- character classes -------------------------------------------------

  /** The characters removed by `str.strip()`. */
  predicate IsSpace(c: char) {
    var n := c as int;
    9 <= n <= 13 || 28 <= n <= 32 || n == 0x85 || n == 0xA0 || n == 0x1680 || 0x2000 <= n <= 0x200A
    || n == 0x2028 || n == 0x2029 || n == 0x202F || n == 0x205F || n == 0x3000
  }

  predicate IsDigit(c: char) {
    '0' <= c <= '9'
  }

  function LowerChar(c: char): char {
    if 'A' <= c <= 'Z' then (c as int + 32) as char else c
  }

  function Lower(s: string): (r: string)
    ensures |r| == |s|
    ensures forall i :: 0 <= i < |s| ==> r[i] == LowerChar(s[i])
  {
    seq(|s|, i requires 0 <= i < |s| => LowerChar(s[i]))
  }

  /** The ASCII characters among them. */
  lemma AsciiSpaces(c: char)
    requires c as int < 128
    ensures IsSpace(c) <==> c in " \t\n\r\U{0B}\U{0C}\U{1C}\U{1D}\U{1E}\U{1F}"
  {
  }

  const CAPITALS := "ABCDEFGHIJKLMNOPQRSTUVWXYZ"
  const SMALL := "abcdefghijklmnopqrstuvwxyz"

  /** The 26 capitals become their small letters; every other character stays. */
  lemma LowerIsAscii(s: string, i: nat)
    requires i < |s|
    ensures forall k :: 0 <= k < 26 && s[i] == CAPITALS[k] ==> Lower(s)[i] == SMALL[k]
    ensures s[i] !in CAPITALS ==> Lower(s)[i] == s[i]
  {
    assert forall k :: 0 <= k < 26 ==> CAPITALS[k] as int == 'A' as int + k && SMALL[k] as int == 'a' as int + k;
    if 'A' <= s[i] <= 'Z' {
      assert CAPITALS[s[i] as int - 'A' as int] == s[i];
    }
  }

  // ----- strip -------------------------------------------------------------

  function LStrip(s: string, drop: char -> bool): string {
    if s != "" && drop(s[0]) then LStrip(s[1..], drop) else s
  }

  function RStrip(s: string, drop: char -> bool): string {
    if s != "" && drop(s[|s| - 1]) then RStrip(s[..|s| - 1], drop) else s
  }

  /** `s.strip(chars)`, with the character set given as a predicate. */
  function StripWhere(s: string, drop: char -> bool): string {
    RStrip(LStrip(s, drop), drop)
  }

  function Strip(s: string): string {
    StripWhere(s, IsSpace)
  }

  predicate Blank(s: string) {
    forall c <- s :: IsSpace(c)
  }

  // ----- prefixes, suffixes, splitting ------------------------------------

  predicate StartsWith(s: string, prefix: string) {
    prefix <= s
  }

  predicate EndsWith(s: string, suffix: string) {
    |suffix| <= |s| && s[|s| - |suffix|..] == suffix
  }

  function RemoveSuffix(s: string, suffix: string): string {
    if EndsWith(s, suffix) then s[..|s| - |suffix|] else s
  }

  /** The text before the first `sep`, or all of it. */
  function Before(s: string, sep: char): (r: string)
    ensures |r| <= |s| && (sep in s ==> |r| < |s|)
  {
    if s == "" || s[0] == sep then "" else [s[0]] + Before(s[1..], sep)
  }

  /** `s.split(sep)` for a one-character separator. */
  function Split(s: string, sep: char): (parts: seq<string>)
    ensures parts != []
  {
    if s == "" then [""]
    else if s[0] == sep then [""] + Split(s[1..], sep)
    else
      var rest := Split(s[1..], sep);
      [[s[0]] + rest[0]] + rest[1..]
  }

  /** `sep.join(parts)` for a one-character separator. */
  function Join(parts: seq<string>, sep: char): string {
    if parts == [] then ""
    else if |parts| == 1 then parts[0]
    else parts[0] + [sep] + Join(parts[1..], sep)
  }

  /** Splitting, one character at a time. */
  lemma SplitOfCons(c: char, s: string, sep: char)
    ensures Split([c] + s, sep)
         == if c == sep then [""] + Split(s, sep) else [[c] + Split(s, sep)[0]] + Split(s, sep)[1..]
  {
    assert ([c] + s)[1..] == s;
  }

  lemma {:induction false} SplitOfConcat(a: string, b: string, sep: char)
    ensures Split(a + [sep] + b, sep) == Split(a, sep) + Split(b, sep)
  {
    if a == "" {
      assert a + [sep] + b == [sep] + b;
      SplitOfCons(sep, b, sep);
    } else {
      var c, rest := a[0], a[1..];
      SplitOfConcat(rest, b, sep);
      assert a == [c] + rest && a + [sep] + b == [c] + (rest + [sep] + b);
      SplitOfCons(c, rest, sep);
      SplitOfCons(c, rest + [sep] + b, sep);
      hide Split;
      HeadOfAppend(c, Split(rest, sep), Split(b, sep));
    }
  }

  lemma HeadOfAppend(c: char, left: seq<string>, right: seq<string>)
    requires left != []
    ensures [""] + (left + right) == ([""] + left) + right
    ensures [[c] + (left + right)[0]] + (left + right)[1..] == ([[c] + left[0]] + left[1..]) + right
  {
    assert (left + right)[1..] == left[1..] + right;
  }

  lemma {:induction false} SplitOfPlain(a: string, sep: char)
    requires sep !in a
    ensures Split(a, sep) == [a]
  {
    if a != "" {
      SplitOfPlain(a[1..], sep);
      assert [a[0]] + a[1..] == a;
    }
  }

  /** Splitting undoes joining when no part holds the separator. */
  lemma {:induction false} SplitOfJoin(parts: seq<string>, sep: char)
    requires parts != [] && forall p <- parts :: sep !in p
    ensures Split(Join(parts, sep), sep) == parts
  {
    SplitOfPlain(parts[0], sep);
    if |parts| > 1 {
      SplitOfJoin(parts[1..], sep);
      SplitOfConcat(parts[0], Join(parts[1..], sep), sep);
      assert [parts[0]] + parts[1..] == parts;
    }
  }

  function WithLast(parts: seq<string>, c: char): seq<string>
    requires parts != []
  {
    parts[..|parts| - 1] + [parts[|parts| - 1] + [c]]
  }

  lemma {:induction false} SplitOfSnoc(a: string, c: char, sep: char)
    requires c != sep
    ensures Split(a + [c], sep) == WithLast(Split(a, sep), c)
  {
    if a == "" {
      assert a + [c] == [c] && [c][1..] == "";
      assert [c] + "" == "" + [c];
    } else {
      var first, rest := a[0], a[1..];
      SplitOfSnoc(rest, c, sep);
      assert a == [first] + rest && a + [c] == [first] + (rest + [c]);
      SplitOfCons(first, rest, sep);
      SplitOfCons(first, rest + [c], sep);
      hide Split;
      WithLastOfCons(first, Split(rest, sep), c);
    }
  }

  lemma WithLastOfCons(first: char, parts: seq<string>, c: char)
    requires parts != []
    ensures [""] + WithLast(parts, c) == WithLast([""] + parts, c)
    ensures [[first] + WithLast(parts, c)[0]] + WithLast(parts, c)[1..]
         == WithLast([[first] + parts[0]] + parts[1..], c)
  {
    if |parts| == 1 {
      assert [first] + (parts[0] + [c]) == ([first] + parts[0]) + [c];
    } else {
      assert WithLast(parts, c)[1..] == WithLast(parts[1..], c);
    }
  }

  // ----- stripping lemmas --------------------------------------------------

  lemma {:induction false} StripOfSpaceBefore(s: string, c: char)
    requires IsSpace(c)
    ensures Strip([c] + s) == Strip(s)
  {
    assert ([c] + s)[1..] == s;
  }

  lemma {:induction false} LStripOfSnoc(s: string, c: char, drop: char -> bool)
    requires drop(c)
    ensures LStrip(s + [c], drop) == if LStrip(s, drop) == "" then "" else LStrip(s, drop) + [c]
  {
    if s == "" {
      assert (s + [c])[1..] == "";
    } else {
      assert (s + [c])[1..] == s[1..] + [c];
      if drop(s[0]) {
        LStripOfSnoc(s[1..], c, drop);
      }
    }
  }

  lemma {:induction false} StripOfSpaceAfter(s: string, c: char)
    requires IsSpace(c)
    ensures Strip(s + [c]) == Strip(s)
  {
    LStripOfSnoc(s, c, IsSpace);
    var t := LStrip(s, IsSpace);
    assert (t + [c])[..|t|] == t;
  }

  lemma {:induction false} LStripBlank(s: string)
    ensures Blank(s) <==> LStrip(s, IsSpace) == ""
  {
    if s != "" && IsSpace(s[0]) {
      LStripBlank(s[1..]);
      assert s == [s[0]] + s[1..];
    }
  }

  lemma {:induction false} RStripKeepsHead(s: string)
    requires s != "" && !IsSpace(s[0])
    ensures RStrip(s, IsSpace) != ""
  {
    if IsSpace(s[|s| - 1]) {
      RStripKeepsHead(s[..|s| - 1]);
    }
  }

  lemma {:induction false} LStripHead(s: string)
    ensures LStrip(s, IsSpace) == "" || !IsSpace(LStrip(s, IsSpace)[0])
  {
    if s != "" && IsSpace(s[0]) {
      LStripHead(s[1..]);
    }
  }

  lemma StripBlank(s: string)
    ensures Blank(s) <==> Strip(s) == ""
  {
    LStripBlank(s);
    LStripHead(s);
    if LStrip(s, IsSpace) != "" {
      RStripKeepsHead(LStrip(s, IsSpace));
    }
  }

  /** Text that neither starts nor ends with whitespace is left alone. */
  lemma StripOfTrimmed(s: string)
    requires s == "" || (!IsSpace(s[0]) && !IsSpace(s[|s| - 1]))
    ensures Strip(s) == s
  {
  }

  lemma {:induction false} StripTail(s: string)
    ensures Strip(s) == "" || !IsSpace(Strip(s)[|Strip(s)| - 1])
  {
    RStripTail(LStrip(s, IsSpace));
  }

  lemma {:induction false} RStripTail(s: string)
    ensures RStrip(s, IsSpace) == "" || !IsSpace(RStrip(s, IsSpace)[|RStrip(s, IsSpace)| - 1])
  {
    if s != "" && IsSpace(s[|s| - 1]) {
      RStripTail(s[..|s| - 1]);
    }
  }

  lemma StripStripped(s: string)
    ensures Strip(Strip(s)) == Strip(s)
  {
    StripTail(s);
    LStripHead(s);
    if Strip(s) != "" {
      RStripKeepsPrefix(LStrip(s, IsSpace));
    }
    StripOfTrimmed(Strip(s));
  }

  lemma {:induction false} RStripKeepsPrefix(s: string)
    ensures RStrip(s, IsSpace) <= s
  {
    if s != "" && IsSpace(s[|s| - 1]) {
      RStripKeepsPrefix(s[..|s| - 1]);
    }
  }

  lemma {:induction false} LStripAround(pre: string, core: string, drop: char -> bool)
    requires (forall c <- pre :: drop(c)) && core != "" && !drop(core[0])
    ensures LStrip(pre + core, drop) == core
  {
    if pre == "" {
      assert pre + core == core;
    } else {
      LStripAround(pre[1..], core, drop);
      assert (pre + core)[1..] == pre[1..] + core && pre[0] in pre;
    }
  }

  lemma {:induction false} RStripAround(core: string, post: string, drop: char -> bool)
    requires (forall c <- post :: drop(c)) && core != "" && !drop(core[|core| - 1])
    ensures RStrip(core + post, drop) == core
  {
    if post == "" {
      assert core + post == core;
    } else {
      var n := |post| - 1;
      RStripAround(core, post[..n], drop);
      assert (core + post)[..|core| + n] == core + post[..n] && post[n] in post;
    }
  }

  lemma StripAround(pre: string, core: string, post: string, drop: char -> bool)
    requires (forall c <- pre :: drop(c)) && forall c <- post :: drop(c)
    requires core != "" && !drop(core[0]) && !drop(core[|core| - 1])
    ensures StripWhere(pre + core + post, drop) == core
  {
    LStripAround(pre, core + post, drop);
    assert pre + core + post == pre + (core + post);
    RStripAround(core, post, drop);
  }

  lemma {:induction false} LStripParts(s: string) returns (pre: string)
    ensures Blank(pre) && s == pre + LStrip(s, IsSpace)
  {
    pre := "";
    if s != "" && IsSpace(s[0]) {
      var more := LStripParts(s[1..]);
      pre := [s[0]] + more;
      assert s == [s[0]] + s[1..];
    }
  }

  lemma {:induction false} RStripParts(s: string) returns (post: string)
    ensures Blank(post) && s == RStrip(s, IsSpace) + post
  {
    post := "";
    if s != "" && IsSpace(s[|s| - 1]) {
      var n := |s| - 1;
      var more := RStripParts(s[..n]);
      post := more + [s[n]];
      assert s == s[..n] + [s[n]];
    }
  }

  // ----- decimal numerals --------------------------------------------------

  function DigitChar(n: nat): char
    requires n < 10
  {
    (n + '0' as int) as char
  }

  function DigitValue(c: char): nat
    requires IsDigit(c)
  {
    c as int - '0' as int
  }

  predicate AllDigits(s: string) {
    forall c <- s :: IsDigit(c)
  }

  /** `str(n)` for a non-negative integer. */
  function NatText(n: nat): (s: string)
    ensures s != "" && AllDigits(s)
  {
    if n < 10 then [DigitChar(n)] else NatText(n / 10) + [DigitChar(n % 10)]
  }

  /** `int(s)` for a run of ASCII digits. */
  function NatValue(s: string): nat
    requires AllDigits(s)
  {
    if s == "" then 0 else 10 * NatValue(s[..|s| - 1]) + DigitValue(s[|s| - 1])
  }

  lemma {:induction false} NatRoundTrip(n: nat)
    ensures NatValue(NatText(n)) == n
  {
    var s := NatText(n);
    if n < 10 {
      assert s[..0] == "";
    } else {
      NatRoundTrip(n / 10);
      assert s[..|s| - 1] == NatText(n / 10);
    }
  }

  /** Different numbers are written differently. */
  lemma NatTextInjective(m: nat, n: nat)
    requires NatText(m) == NatText(n)
    ensures m == n
  {
    NatRoundTrip(m);
    NatRoundTrip(n);
  }

  /** Length of the longest prefix made of digits. */
  function DigitRun(s: string): (k: nat)
    ensures k <= |s| && AllDigits(s[..k]) && (k < |s| ==> !IsDigit(s[k]))
  {
    if s == "" || !IsDigit(s[0]) then 0
    else
      var k := 1 + DigitRun(s[1..]);
      assert s[..k] == [s[0]] + s[1..][..k - 1];
      k
  }

  lemma {:induction false} DigitRunOfConcat(d: string, rest: string)
    requires AllDigits(d) && (rest == "" || !IsDigit(rest[0]))
    ensures DigitRun(d + rest) == |d|
  {
    if d == "" {
      assert d + rest == rest;
    } else {
      assert (d + rest)[1..] == d[1..] + rest;
      DigitRunOfConcat(d[1..], rest);
    }
  }
}
