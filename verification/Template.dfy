/** Mustache-style templates: scanning, validation, rendering. */
module Template {
  import opened Wrappers
  import opened PyText

  // ----- scanning ----------------------------------------------------------

  /** A character that is no part of a placeholder, or a placeholder with its text and its name. */
  datatype Piece = Lit(c: char) | Hole(text: string, name: string)

  function SpaceRun(s: string): (k: nat)
    ensures k <= |s| && (k < |s| ==> !IsSpace(s[k])) && forall i :: 0 <= i < k ==> IsSpace(s[i])
  {
    if s == "" || !IsSpace(s[0]) then 0
    else
      var k := 1 + SpaceRun(s[1..]);
      assert forall i :: 0 < i < k ==> s[i] == s[1..][i - 1];
      k
  }

  /** The shortest name from `g` on that spaces and two closing braces follow; a name spans no line break. */
  function FindEnd(t: string, g: nat, e: nat): (r: Option<Piece>)
    requires g <= e <= |t|
    ensures r.Some? ==> r.value.Hole? && 2 <= |r.value.text| <= |t| && r.value.text <= t
    decreases |t| - e
  {
    var after := e + SpaceRun(t[e..]);
    if StartsWith(t[after..], "}}") then Some(Hole(t[..after + 2], t[g..e]))
    else if e == |t| || t[e] == '\n' then None
    else FindEnd(t, g, e + 1)
  }

  /** The placeholder at the start of the text, if there is one. */
  function MatchAt(t: string): (r: Option<Piece>)
    ensures r.Some? ==> r.value.Hole? && 2 <= |r.value.text| <= |t| && r.value.text <= t
  {
    if !StartsWith(t, "{{") then None
    else
      var g := 2 + SpaceRun(t[2..]);
      FindEnd(t, g, g)
  }

  /** Leftmost, non-overlapping placeholders, and the characters between them. */
  function Scan(t: string): seq<Piece>
    decreases |t|
  {
    if t == "" then []
    else match MatchAt(t)
      case None => [Lit(t[0])] + Scan(t[1..])
      case Some(hole) => [hole] + Scan(t[|hole.text|..])
  }

  function Names(pieces: seq<Piece>): set<string> {
    set p | p in pieces && p.Hole? :: p.name
  }

  // ----- validation --------------------------------------------------------

  datatype TemplateError = Invalid | MissingVariables(names: set<string>) | MissingKey(name: string)

  predicate NameStart(c: char) {
    'a' <= c <= 'z' || 'A' <= c <= 'Z' || c == '_'
  }

  predicate NameChar(c: char) {
    NameStart(c) || IsDigit(c) || c == '-'
  }

  predicate PlainName(s: string) {
    s != "" && NameStart(s[0]) && forall c <- s :: NameChar(c)
  }

  /** The name pattern; its end anchor also matches before one final line break. */
  predicate ValidName(s: string) {
    PlainName(s) || (s != "" && s[|s| - 1] == '\n' && PlainName(s[..|s| - 1]))
  }

  predicate Distinct(names: seq<string>) {
    forall i, j :: 0 <= i < j < |names| ==> names[i] != names[j]
  }

  function SetOf(names: seq<string>): set<string> {
    set n | n in names
  }

  /** A template that may be stored with these variables. */
  predicate Valid(template: string, variables: seq<string>) {
    && Strip(template) != ""
    && Distinct(variables) && (forall v <- variables :: ValidName(v))
    && (forall p <- Scan(template) :: p.Hole? ==> ValidName(p.name))
    && Names(Scan(template)) <= SetOf(variables)
  }

  lemma {:induction false} CountDistinct(names: seq<string>)
    ensures |SetOf(names)| <= |names| && (|SetOf(names)| == |names| <==> Distinct(names))
  {
    if names != [] {
      var rest := names[1..];
      CountDistinct(rest);
      assert SetOf(names) == SetOf(rest) + {names[0]};
      assert forall i :: 0 <= i < |rest| ==> rest[i] == names[i + 1];
      assert names[0] in SetOf(rest) <==> exists i :: 0 <= i < |rest| && rest[i] == names[0];
    }
  }

  method ValidateVariables(variables: seq<string>) returns (r: Result<set<string>, TemplateError>)
    ensures r == if Distinct(variables) && forall v <- variables ::
            ValidName(v) then Ok(SetOf(variables)) else Err(Invalid)
  {
    var unique := SetOf(variables);
    CountDistinct(variables);
    if |variables| != |unique| {
      return Err(Invalid);
    }
    var todo := unique;
    while todo != {}
      invariant todo <= unique && forall v <- unique - todo :: ValidName(v)
      decreases todo
    {
      var v :| v in todo;
      if !ValidName(v) {
        assert v in variables;
        return Err(Invalid);
      }
      todo := todo - {v};
    }
    assert forall v <- variables :: v in unique;
    return Ok(unique);
  }

  lemma NoNames()
    ensures Names([]) == {}
  {
  }

  lemma NamesOfSnoc(pieces: seq<Piece>, i: nat)
    requires i < |pieces|
    ensures pieces[..i + 1] == pieces[..i] + [pieces[i]]
    ensures Names(pieces[..i + 1]) == Names(pieces[..i]) + if pieces[i].Hole? then {pieces[i].name} else {}
  {
    assert forall p <- pieces[..i + 1] :: p in pieces[..i] || p == pieces[i];
    assert forall p <- pieces[..i] :: p in pieces[..i + 1];
    assert pieces[i] in pieces[..i + 1];
  }

  method ExtractPlaceholders(template: string) returns (r: Result<set<string>, TemplateError>)
    ensures r == if forall p <- Scan(template) :: p.Hole? ==>
            ValidName(p.name) then Ok(Names(Scan(template))) else Err(Invalid)
  {
    hide Scan, ValidName, Names;
    var pieces := Scan(template);
    NoNames();
    assert pieces[..0] == [];
    var valid: set<string> := {};
    for i := 0 to |pieces|
      invariant valid == Names(pieces[..i])
      invariant forall p <- pieces[..i] :: p.Hole? ==> ValidName(p.name)
    {
      NamesOfSnoc(pieces, i);
      if pieces[i].Hole? {
        if !ValidName(pieces[i].name) {
          assert pieces[i] in pieces;
          return Err(Invalid);
        }
        valid := valid + {pieces[i].name};
      }
    }
    assert pieces[..|pieces|] == pieces;
    return Ok(valid);
  }

  lemma NothingLeft(a: set<string>, b: set<string>)
    ensures a - b == {} <==> a <= b
  {
    assert forall x <- a :: x in b || x in a - b;
  }

  method ValidateTemplate(template: string, variables: seq<string>) returns (ok: bool)
    ensures ok <==> Valid(template, variables)
  {
    hide ValidName, Scan, Names, Strip;
    if Strip(template) == "" {
      return false;
    }
    var declared := ValidateVariables(variables);
    if declared.Err? {
      return false;
    }
    var placeholders := ExtractPlaceholders(template);
    if placeholders.Ok? {
      NothingLeft(placeholders.value, declared.value);
    }
    return placeholders.Ok? && placeholders.value - declared.value == {};
  }

  // ----- rendering ---------------------------------------------------------

  function PieceText(p: Piece): string {
    match p case Lit(c) => [c] case Hole(text, _) => text
  }

  /** Literal characters interleaved with the values of the placeholders. */
  function Fill(pieces: seq<Piece>, values: map<string, string>): Result<string, TemplateError> {
    if pieces == [] then Ok("")
    else
      var head :- match pieces[0]
                  case Lit(c) => Ok([c])
                  case Hole(_, name) => if Strip(name) in values then Ok(values[Strip(name)])
                    else Err(MissingKey(Strip(name)));
      var rest :- Fill(pieces[1..], values);
      Ok(head + rest)
  }

  /** What rendering gives: missing declared variables are reported, values that are not declared are ignored. */
  function Render(template: string, variables: seq<string>, values: map<string, string>)
    : Result<string, TemplateError>
  {
    var missing := SetOf(variables) - values.Keys;
    if missing != {} then Err(MissingVariables(missing)) else Fill(Scan(template), values)
  }

  /** Substitution on the template text; substituted values are not looked at again. */
  method RenderTemplate(template: string, variables: seq<string>, values: map<string, string>)
    returns (r: Result<string, TemplateError>)
    ensures r == Render(template, variables, values)
  {
    var missing := SetOf(variables) - values.Keys;
    if missing != {} {
      return Err(MissingVariables(missing));
    }
    hide Scan, Fill, MatchAt, Strip;
    ghost var whole := Fill(Scan(template), values);
    var out, rest := "", template;
    PrependNothing(whole);
    while rest != ""
      invariant whole == Prepend(out, Fill(Scan(rest), values))
      decreases |rest|
    {
      var hole := MatchAt(rest);
      FillStep(rest, values);
      var piece := if hole.Some? then hole.value else Lit(rest[0]);
      if piece.Hole? && Strip(piece.name) !in values {
        return Err(MissingKey(Strip(piece.name)));
      }
      var text := if piece.Hole? then values[Strip(piece.name)] else [piece.c];
      rest := rest[if hole.Some? then |hole.value.text| else 1..];
      PrependTwice(out, text, Fill(Scan(rest), values));
      out := out + text;
    }
    FillNothing(values);
    assert out + "" == out;
    return Ok(out);
  }

  /** Put text in front of a result. */
  function Prepend(s: string, r: Result<string, TemplateError>): Result<string, TemplateError> {
    match r case Ok(t) => Ok(s + t) case Err(e) => Err(e)
  }

  lemma PrependNothing(r: Result<string, TemplateError>)
    ensures Prepend("", r) == r
  {
    assert r.Ok? ==> "" + r.value == r.value;
  }

  lemma PrependTwice(a: string, b: string, r: Result<string, TemplateError>)
    ensures Prepend(a, Prepend(b, r)) == Prepend(a + b, r)
  {
    assert r.Ok? ==> a + (b + r.value) == (a + b) + r.value;
  }

  lemma FillNothing(values: map<string, string>)
    ensures Fill(Scan(""), values) == Ok("")
  {
  }

  lemma FillStep(rest: string, values: map<string, string>)
    requires rest != ""
    ensures var hole := MatchAt(rest);
            var piece := if hole.Some? then hole.value else Lit(rest[0]);
            var after := rest[if hole.Some? then |hole.value.text| else 1..];
            Fill(Scan(rest), values)
            == if piece.Hole? && Strip(piece.name) !in values then Err(MissingKey(Strip(piece.name)))
               else Prepend(if piece.Hole? then values[Strip(piece.name)] else [piece.c], Fill(Scan(after), values))
  {
    hide MatchAt, Strip;
    var hole := MatchAt(rest);
    FillCons(if hole.Some? then hole.value else Lit(rest[0]),
             Scan(rest[if hole.Some? then |hole.value.text| else 1..]), values);
  }

  lemma FillCons(p: Piece, rest: seq<Piece>, values: map<string, string>)
    ensures Fill([p] + rest, values)
         == if p.Hole? && Strip(p.name) !in values then Err(MissingKey(Strip(p.name)))
            else match Fill(rest, values)
                 case Ok(s) => Ok((if p.Hole? then values[Strip(p.name)] else [p.c]) + s)
                 case Err(e) => Err(e)
  {
    assert ([p] + rest)[1..] == rest;
  }

  // ----- laws --------------------------------------------------------------

  function Joined(pieces: seq<Piece>): string {
    if pieces == [] then "" else PieceText(pieces[0]) + Joined(pieces[1..])
  }

  lemma JoinedCons(head: Piece, rest: seq<Piece>)
    ensures Joined([head] + rest) == PieceText(head) + Joined(rest)
  {
    assert ([head] + rest)[1..] == rest;
  }

  /** The pieces are the template: nothing is lost or moved. */
  lemma {:induction false} ScanCovers(t: string)
    ensures Joined(Scan(t)) == t
    decreases |t|
  {
    hide MatchAt;
    if t != "" {
      var hole := MatchAt(t);
      var head := if hole.Some? then hole.value else Lit(t[0]);
      var n := if hole.Some? then |hole.value.text| else 1;
      ScanCovers(t[n..]);
      assert PieceText(head) == t[..n];
      assert t == t[..n] + t[n..];
      JoinedCons(head, Scan(t[n..]));
    }
  }

  /** A scanned name is trimmed, so the strip before the lookup changes nothing. */
  lemma {:induction false} FoundNameIsTrimmed(t: string, g: nat, e: nat)
    requires g <= e <= |t| && FindEnd(t, g, e).Some?
    requires g < |t| ==> !IsSpace(t[g])
    requires e > g ==> FindEndSkipped(t, e - 1)
    ensures Strip(FindEnd(t, g, e).value.name) == FindEnd(t, g, e).value.name
    decreases |t| - e
  {
    hide IsSpace, SpaceRun, Strip, StartsWith;
    var after := e + SpaceRun(t[e..]);
    if StartsWith(t[after..], "}}") {
      if e > g {
        EndsAtText(t, e);
        assert t[g..e][0] == t[g] && t[g..e][e - g - 1] == t[e - 1];
      }
      StripOfTrimmed(t[g..e]);
    } else {
      FoundNameIsTrimmed(t, g, e + 1);
    }
  }

  /** No placeholder can end at this position. */
  predicate FindEndSkipped(t: string, e: nat) {
    e <= |t| && !StartsWith(t[e + SpaceRun(t[e..])..], "}}")
  }

  lemma EndsAtText(t: string, e: nat)
    requires 0 < e <= |t| && FindEndSkipped(t, e - 1) && StartsWith(t[e + SpaceRun(t[e..])..], "}}")
    ensures !IsSpace(t[e - 1])
  {
    hide StartsWith, SpaceRun, IsSpace;
    if IsSpace(t[e - 1]) {
      SpaceRunBack(t, e);
    }
  }

  lemma SpaceRunBack(t: string, e: nat)
    requires 0 < e <= |t| && IsSpace(t[e - 1])
    ensures (e - 1) + SpaceRun(t[e - 1..]) == e + SpaceRun(t[e..])
  {
    assert t[e - 1..][1..] == t[e..];
  }

  lemma {:induction false} ScannedNamesAreTrimmed(t: string)
    ensures forall p <- Scan(t) :: p.Hole? ==> Strip(p.name) == p.name
    decreases |t|
  {
    if t != "" {
      var hole := MatchAt(t);
      if hole.Some? {
        var g := 2 + SpaceRun(t[2..]);
        FoundNameIsTrimmed(t, g, g);
      }
      ScannedNamesAreTrimmed(t[if hole.Some? then |hole.value.text| else 1..]);
    }
  }

  lemma {:induction false} FillSucceeds(pieces: seq<Piece>, values: map<string, string>)
    requires forall p <- pieces :: p.Hole? ==> Strip(p.name) == p.name
    ensures Fill(pieces, values).Ok? <==> Names(pieces) <= values.Keys
  {
    if pieces != [] {
      FillSucceeds(pieces[1..], values);
      assert forall p <- pieces :: p == pieces[0] || p in pieces[1..];
      assert Names(pieces) == Names(pieces[1..]) + if pieces[0].Hole? then {pieces[0].name} else {};
    }
  }

  /** Rendering a valid template fails exactly for want of a declared variable; no lookup ever misses. */
  lemma ValidTemplatesRender(template: string, variables: seq<string>, values: map<string, string>)
    requires Valid(template, variables)
    ensures Render(template, variables, values).Ok? <==> SetOf(variables) <= values.Keys
  {
    hide ValidName, Scan, Fill;
    NothingLeft(SetOf(variables), values.Keys);
    ScannedNamesAreTrimmed(template);
    FillSucceeds(Scan(template), values);
  }
}
