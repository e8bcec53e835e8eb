/** Placeholders with inner blanks, rendering piece by piece, and which names are allowed. */
module TemplateLaws {
  import opened Wrappers
  import opened PyText
  import opened Template

  // ----- placeholders with inner blanks ------------------------------------

  /** A name as it may be written between the braces: trimmed, on one line, without a closing brace. */
  predicate PlainInside(name: string) {
    && (forall c <- name :: c != '}' && c != '\n')
    && (name == "" || (!IsSpace(name[0]) && !IsSpace(name[|name| - 1])))
  }

  /** A character other than an opening brace, or a placeholder written with blanks around its name. */
  ghost predicate WrittenPiece(p: Piece) {
    match p
    case Lit(c) => c != '{'
    case Hole(text, name) =>
      PlainInside(name)
      && exists before: string, after: string :: Blank(before) && Blank(after) && text == Padded(before, name, after)
  }

  function Padded(before: string, name: string, after: string): string {
    "{{" + before + name + after + "}}"
  }

  lemma {:induction false} SpaceRunOf(blanks: string, rest: string)
    requires Blank(blanks) && (rest == "" || !IsSpace(rest[0]))
    ensures SpaceRun(blanks + rest) == |blanks|
  {
    if blanks == "" {
      assert blanks + rest == rest;
    } else {
      assert (blanks + rest)[1..] == blanks[1..] + rest && blanks[0] in blanks;
      SpaceRunOf(blanks[1..], rest);
    }
  }

  /** Inside the name the search goes on: what follows the next blanks is no brace. */
  lemma InsideGoesOn(t: string, g: nat, e: nat, name: string)
    requires g <= e < g + |name| <= |t| && t[g..g + |name|] == name && PlainInside(name)
    ensures FindEnd(t, g, e) == FindEnd(t, g, e + 1)
  {
    var k := SpaceRun(t[e..]);
    var last := g + |name| - 1;
    assert t[last] == t[g..g + |name|][last - g] == name[last - g];
    assert t[e..][last - e] == t[last];
    var place := e + k;
    assert t[place] == t[g..g + |name|][place - g] == name[place - g] && name[place - g] in name;
    assert t[place..][0] == t[place];
    assert t[e] == t[g..g + |name|][e - g] == name[e - g] && name[e - g] in name;
  }

  lemma {:induction false} InsideIsPassed(t: string, g: nat, e: nat, name: string)
    requires g <= e <= g + |name| <= |t| && t[g..g + |name|] == name && PlainInside(name)
    ensures FindEnd(t, g, e) == FindEnd(t, g, g + |name|)
    decreases |name| - (e - g)
  {
    hide FindEnd;
    if e < g + |name| {
      InsideGoesOn(t, g, e, name);
      InsideIsPassed(t, g, e + 1, name);
    }
  }

  lemma EndIsFound(t: string, g: nat, e: nat, after: string, rest: string)
    requires g <= e <= |t| && t[e..] == after + ("}}" + rest) && Blank(after)
    ensures e + |after| + 2 <= |t| && FindEnd(t, g, e) == Some(Hole(t[..e + |after| + 2], t[g..e]))
  {
    SpaceRunOf(after, "}}" + rest);
    var end := e + |after|;
    assert t[end..] == t[e..][|after|..] == "}}" + rest;
    assert StartsWith(t[end..], "}}");
  }

  lemma Cut(a: string, b: string)
    ensures (a + b)[|a|..] == b && (a + b)[..|a|] == a
  {
  }

  lemma MatchStarts(t: string, gap: string, inner: string)
    requires t == "{{" + (gap + inner) && Blank(gap) && (inner == "" || !IsSpace(inner[0]))
    ensures MatchAt(t) == FindEnd(t, 2 + |gap|, 2 + |gap|) && t[2 + |gap|..] == inner
  {
    hide FindEnd;
    SpaceRunOf(gap, inner);
    assert t[..2] == "{{" && t[2..] == gap + inner;
  }

  lemma NameThenEnd(t: string, g: nat, name: string, behind: string, rest: string)
    requires g <= |t| && t[g..] == name + (behind + ("}}" + rest)) && PlainInside(name) && Blank(behind)
    ensures g + |name| + |behind| + 2 <= |t|
    ensures FindEnd(t, g, g) == Some(Hole(t[..g + |name| + |behind| + 2], name))
  {
    hide FindEnd, Blank, PlainInside;
    var tail := behind + ("}}" + rest);
    Cut(name, tail);
    assert t[g..g + |name|] == t[g..][..|name|];
    InsideIsPassed(t, g, g, name);
    assert t[g + |name|..] == t[g..][|name|..];
    EndIsFound(t, g, g + |name|, behind, rest);
  }

  lemma MatchOfParts(gap: string, name: string, behind: string, rest: string)
    requires Blank(gap) && Blank(behind) && PlainInside(name) && (name == "" ==> behind == "")
    ensures MatchAt("{{" + gap + name + behind + "}}" + rest) == Some(Hole("{{" + gap + name + behind + "}}", name))
  {
    hide FindEnd, Blank, IsSpace, MatchAt;
    var inner := name + (behind + ("}}" + rest));
    var t := "{{" + (gap + inner);
    assert "{{" + gap + name + behind + "}}" + rest == t;
    assert inner[0] == if name == "" then '}' else name[0];
    BraceIsNoSpace();
    MatchStarts(t, gap, inner);
    NameThenEnd(t, 2 + |gap|, name, behind, rest);
    assert t[..2 + |gap| + |name| + |behind| + 2] == "{{" + gap + name + behind + "}}";
  }

  /** A written placeholder is matched as a whole, under the name without its blanks. */
  lemma MatchOfPadded(before: string, name: string, after: string, rest: string)
    requires Blank(before) && Blank(after) && PlainInside(name)
    ensures MatchAt(Padded(before, name, after) + rest) == Some(Hole(Padded(before, name, after), name))
  {
    hide MatchAt, Blank, PlainInside;
    if name == "" {
      BlankParts(before, after);
      MatchOfParts(before + after, "", "", rest);
      assert "{{" + (before + after) + "" + "" + "}}" == Padded(before, "", after);
    } else {
      MatchOfParts(before, name, after, rest);
    }
  }

  lemma BlankParts(a: string, b: string)
    requires Blank(a) && Blank(b)
    ensures Blank(a + b) && Blank("")
  {
  }

  lemma BraceIsNoSpace()
    ensures !IsSpace('}')
  {
  }

  /** Scanning reads back exactly the pieces a template was written from. */
  lemma {:induction false} ScanOfWritten(pieces: seq<Piece>)
    requires forall p <- pieces :: WrittenPiece(p)
    ensures Scan(Joined(pieces)) == pieces
  {
    hide Padded;
    if pieces != [] {
      var p, rest := pieces[0], pieces[1..];
      assert p in pieces && forall x <- rest :: x in pieces;
      ScanOfWritten(rest);
      hide WrittenPiece;
      FirstIsScanned(p, Joined(rest));
      assert [p] + rest == pieces;
    }
  }

  lemma FirstIsScanned(p: Piece, rest: string)
    requires WrittenPiece(p)
    ensures Scan(PieceText(p) + rest) == [p] + Scan(rest)
  {
    hide MatchAt;
    var t := PieceText(p) + rest;
    Cut(PieceText(p), rest);
    if p.Lit? {
      assert t[0] == p.c && !StartsWith(t, "{{");
      assert MatchAt(t) == None by {
        NoMatch(t);
      }
    } else {
      var before: string, after: string :|
        Blank(before) && Blank(after) && p.text == Padded(before, p.name, after);
      hide Padded;
      MatchOfPadded(before, p.name, after, rest);
      assert p.text != "" by {
        PaddedIsThere(before, p.name, after);
      }
    }
  }

  lemma PaddedIsThere(before: string, name: string, after: string)
    ensures |Padded(before, name, after)| >= 4
  {
  }

  lemma NoMatch(t: string)
    requires !StartsWith(t, "{{")
    ensures MatchAt(t) == None
  {
  }

  // ----- rendering, piece by piece -----------------------------------------

  lemma {:induction false} FillOfConcat(a: seq<Piece>, b: seq<Piece>, values: map<string, string>)
    requires Fill(a, values).Ok?
    ensures Fill(a + b, values) == Prepend(Fill(a, values).value, Fill(b, values))
  {
    hide Strip, Fill;
    if a == [] {
      assert a + b == b;
      FillsNothing(values);
      PrependNothing(Fill(b, values));
    } else {
      var rest := a[1..];
      assert a + b == [a[0]] + (rest + b) && [a[0]] + rest == a;
      FillCons(a[0], rest, values);
      FillCons(a[0], rest + b, values);
      FillOfConcat(rest, b, values);
      var head := if a[0].Hole? then values[Strip(a[0].name)] else [a[0].c];
      PrependTwice(head, Fill(rest, values).value, Fill(b, values));
    }
  }

  lemma FillsNothing(values: map<string, string>)
    ensures Fill([], values) == Ok("")
  {
  }

  /**
   * Rendering a written template goes piece by piece: a character stays and a placeholder becomes the value of its
   * name, whatever blanks are around it; a name without a value raises. Values are not looked at again.
   */
  lemma RenderedPieceByPiece(pieces: seq<Piece>, p: Piece, values: map<string, string>)
    requires forall x <- pieces + [p] :: WrittenPiece(x)
    requires Render(Joined(pieces), [], values).Ok?
    ensures Render(Joined([]), [], values) == Ok("")
    ensures var before := Render(Joined(pieces), [], values).value;
            Render(Joined(pieces + [p]), [], values)
            == match p
               case Lit(c) => Ok(before + [c])
               case Hole(_, name) => if name in values then Ok(before + values[name]) else Err(MissingKey(name))
  {
    assert p in pieces + [p] && forall x <- pieces :: x in pieces + [p];
    assert p.Hole? ==> Strip(p.name) == p.name by {
      if p.Hole? {
        StripOfTrimmed(p.name);
      }
    }
    hide WrittenPiece, Strip, Fill, Scan, Joined;
    ScanOfWritten(pieces);
    ScanOfWritten(pieces + [p]);
    ScanOfWritten([]);
    FillOfConcat(pieces, [p], values);
    FillsNothing(values);
    FillCons(p, [], values);
    assert [p] + [] == [p];
    NothingMissing(values.Keys);
    assert p.Lit? ==> [p.c] + "" == [p.c];
    assert p.Hole? && p.name in values ==> values[p.name] + "" == values[p.name];
  }

  lemma NothingMissing(given: set<string>)
    ensures SetOf([]) - given == {}
  {
  }

  /** Declared variables without a value are reported, all of them and no others; then nothing is rendered. */
  lemma MissingAreReported(template: string, variables: seq<string>, values: map<string, string>)
    ensures (exists v <- variables :: v !in values) ==>
              var r := Render(template, variables, values);
              && r.Err? && r.error.MissingVariables?
              && forall n :: n in r.error.names <==> n in variables && n !in values
    ensures (forall v <- variables :: v in values) ==>
              Render(template, variables, values) == Render(template, [], values)
  {
    hide Fill, Scan;
    var missing := SetOf(variables) - values.Keys;
    NothingMissing(values.Keys);
    if v :| v in variables && v !in values {
      assert v in missing;
    } else {
      assert missing == {};
    }
  }

  // ----- templates that may be stored --------------------------------------

  /** A piece that is more than a blank. */
  predicate Shows(p: Piece) {
    p.Lit? ==> !IsSpace(p.c)
  }

  lemma {:induction false} JoinedShows(pieces: seq<Piece>)
    requires forall p <- pieces :: WrittenPiece(p)
    ensures Blank(Joined(pieces)) <==> forall p <- pieces :: !Shows(p)
  {
    hide IsSpace;
    if pieces != [] {
      var p, rest := pieces[0], pieces[1..];
      assert p in pieces && forall x <- rest :: x in pieces;
      JoinedShows(rest);
      BlankOfConcat(PieceText(p), Joined(rest));
      assert forall x <- pieces :: x == p || x in rest;
      if p.Hole? {
        HoleIsNoBlank(p);
      }
    }
  }

  lemma BlankOfConcat(a: string, b: string)
    ensures Blank(a + b) <==> Blank(a) && Blank(b)
  {
    assert forall c :: c in a + b <==> c in a || c in b;
  }

  lemma HoleIsNoBlank(p: Piece)
    requires p.Hole? && WrittenPiece(p)
    ensures !Blank(p.text)
  {
    var before: string, after: string :| Blank(before) && Blank(after) && p.text == Padded(before, p.name, after);
    assert p.text[0] == '{' && !IsSpace('{') && p.text[0] in p.text;
  }

  /**
   * A written template may be stored with these variables exactly if it is not blank, the variables are distinct
   * allowed names, and every placeholder has an allowed name that is among them.
   */
  lemma ValidExactly(pieces: seq<Piece>, variables: seq<string>)
    requires forall p <- pieces :: WrittenPiece(p)
    ensures Valid(Joined(pieces), variables)
       <==> && (exists p <- pieces :: Shows(p))
            && (forall i, j :: 0 <= i < j < |variables| ==> variables[i] != variables[j])
            && (forall v <- variables :: ValidName(v))
            && (forall p <- pieces :: p.Hole? ==> ValidName(p.name) && p.name in variables)
  {
    hide ValidName, WrittenPiece, Joined, Scan, Strip;
    ScanOfWritten(pieces);
    JoinedShows(pieces);
    StripBlank(Joined(pieces));
    NamesDeclared(pieces, variables);
    hide Names, SetOf;
  }

  lemma NamesDeclared(pieces: seq<Piece>, variables: seq<string>)
    ensures Names(pieces) <= SetOf(variables) <==> forall p <- pieces :: p.Hole? ==> p.name in variables
  {
    forall p <- pieces | p.Hole? ensures p.name in Names(pieces) {
    }
  }

  // ----- names -------------------------------------------------------------

  const LETTERS := CAPITALS + SMALL

  /** Letters, digits, underscores and hyphens, starting with a letter or an underscore, and perhaps a line break. */
  lemma NamesAllowed(s: string)
    ensures ValidName(s)
       <==> exists core: string ::
              && (s == core || s == core + "\n") && core != "" && core[0] in LETTERS + "_"
              && forall c <- core :: c in LETTERS + "0123456789_-"
  {
    hide LETTERS;
    forall c
      ensures NameStart(c) <==> c in LETTERS + "_"
      ensures NameChar(c) <==> c in LETTERS + "0123456789_-"
    {
      LettersAre(c);
    }
    hide NameStart, NameChar;
    if ValidName(s) {
      var core := if PlainName(s) then s else s[..|s| - 1];
      assert s == core || s == core + "\n";
    }
  }

  lemma CapitalsAre(c: char)
    ensures c in CAPITALS <==> 'A' <= c <= 'Z'
  {
    assert forall k :: 0 <= k < 26 ==> CAPITALS[k] as int == 'A' as int + k;
    if 'A' <= c <= 'Z' {
      assert CAPITALS[c as int - 'A' as int] == c;
    }
  }

  lemma SmallAre(c: char)
    ensures c in SMALL <==> 'a' <= c <= 'z'
  {
    assert forall k :: 0 <= k < 26 ==> SMALL[k] as int == 'a' as int + k;
    if 'a' <= c <= 'z' {
      assert SMALL[c as int - 'a' as int] == c;
    }
  }

  lemma LettersAre(c: char)
    ensures c in LETTERS <==> 'a' <= c <= 'z' || 'A' <= c <= 'Z'
    ensures c in "0123456789" <==> IsDigit(c)
  {
    CapitalsAre(c);
    SmallAre(c);
    hide CAPITALS, SMALL;
    if IsDigit(c) {
      assert "0123456789"[c as int - '0' as int] == c;
    }
  }
}
