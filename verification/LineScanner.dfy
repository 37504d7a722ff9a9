/** A declaration scanner over lines. It meets everything the convergence theorem asks of an extraction,
    for every family of the table, so the theorem is about something. */
module LineScanner {
  import opened Text
  import opened Decimal
  import opened SourceFamily
  import opened PackageClause
  import opened FreshClause
  import opened ChangeSequence
  import opened Checkout
  import opened Convergence

  /** What stands before the name in a declaration of the family. */
  function Keyword(f: Family): Words {
    match f
    case Go => "func "
    case Java => "class "
    case Kotlin => "fun "
    case Python => "def "
    case TypeScript => "export function "
    case Tsx => "export function "
    case JavaScript => "function "
    case Ruby => "def "
    case Rust => "pub fn "
    case C => "int "
    case Cpp => "int "
    case CSharp => "class "
    case Php => "function "
    case Lua => "function "
    case Bash => ""
  }

  predicate IsIdent(c: char) {
    'a' <= c <= 'z' || 'A' <= c <= 'Z' || '0' <= c <= '9' || c == '_'
  }

  /** The identifier a text begins with. */
  function Ident(s: string): (r: string)
    ensures r <= s && forall c :: c in r ==> IsIdent(c)
  {
    if s == [] || !IsIdent(s[0]) then [] else [s[0]] + Ident(s[1..])
  }

  /** The name a line declares, or "". */
  function ScanLine(f: Family, line: string): (r: string)
    ensures forall c :: c in r ==> IsIdent(c)
  {
    if Keyword(f) <= line then Ident(line[|Keyword(f)|..]) else ""
  }

  function Scan(p: string, content: string): set<string> {
    match FamilyForPath(p)
    case None => {}
    case Some(f) => set l | l in Lines(content) :: ScanLine(f, l)
  }

  /** Some line declares the name. */
  ghost predicate SomeLine(f: Family, lines: seq<string>, name: string) {
    exists l :: l in lines && ScanLine(f, l) == name
  }

  lemma DeclaresByLine(f: Family, p: string, content: string, k: nat)
    requires FamilyForPath(p) == Some(f)
    ensures Declares(Scan, p, content, k) <==> SomeLine(f, Lines(content), ChangeSymbol(k))
  {
    hide FamilyForPath, ChangeSymbol, Split, ScanLine;
    forall l | l in Lines(content)
      ensures BareName(ScanLine(f, l)) == ScanLine(f, l)
    {
      assert '.' !in ScanLine(f, l);
    }
    if SomeLine(f, Lines(content), ChangeSymbol(k)) {
      var l :| l in Lines(content) && ScanLine(f, l) == ChangeSymbol(k);
      assert ScanLine(f, l) in Scan(p, content);
    }
  }

  lemma SomeLineInEither(f: Family, a: seq<string>, b: seq<string>, name: string)
    ensures SomeLine(f, a + b, name) <==> SomeLine(f, a, name) || SomeLine(f, b, name)
  {
    hide ScanLine;
    if SomeLine(f, a, name) {
      var l :| l in a && ScanLine(f, l) == name;
      assert l in a + b;
    }
    if SomeLine(f, b, name) {
      var l :| l in b && ScanLine(f, l) == name;
      assert l in a + b;
    }
  }

  // ---- generated lines under the scanner ---------------------------------------------------

  lemma {:induction false} IdentOf(name: string, rest: string)
    requires (forall c :: c in name ==> IsIdent(c)) && (rest == "" || !IsIdent(rest[0]))
    ensures Ident(name + rest) == name
  {
    if name == "" {
      assert name + rest == rest;
    } else {
      IdentOf(name[1..], rest);
      assert (name + rest)[1..] == name[1..] + rest;
    }
  }

  /** A first character at which no declaration of the family starts. */
  predicate Foreign(f: Family, c: char) {
    if f == Bash then !IsIdent(c) else Keyword(f) != "" && c != Keyword(f)[0]
  }

  lemma ForeignLine(f: Family, line: string)
    requires line == "" || Foreign(f, line[0])
    ensures ScanLine(f, line) == ""
  {
  }

  lemma DeclaringLine(f: Family, symbol: string, rest: string)
    requires (forall c :: c in symbol ==> IsIdent(c)) && (rest == "" || !IsIdent(rest[0]))
    ensures ScanLine(f, Keyword(f) + (symbol + rest)) == symbol
  {
    hide Keyword;
    IdentOf(symbol, rest);
    var line := Keyword(f) + (symbol + rest);
    assert line[|Keyword(f)|..] == symbol + rest;
  }

  /** Which line of the body carries the declaration. */
  function DeclaringIndex(f: Family): nat { if f == Rust then 1 else 0 }

  predicate StartsForeign(f: Family, pieces: seq<Piece>) {
    pieces != [] && pieces[0].Fixed? && pieces[0].text != "" && Foreign(f, pieces[0].text[0])
  }

  predicate StartsOutsideIdent(pieces: seq<Piece>) {
    pieces == [] || (pieces[0].Fixed? && pieces[0].text != "" && !IsIdent(pieces[0].text[0]))
  }

  /** The pieces of the declaring line after its symbol. */
  function AfterSymbol(f: Family): seq<Piece>
  {
    var line := BodyLines(f)[DeclaringIndex(f)];
    if f == Bash then line[1..] else line[2..]
  }

  lemma OtherTemplates(f: Family, i: nat)
    requires i < |BodyLines(f)| && i != DeclaringIndex(f)
    ensures StartsForeign(f, BodyLines(f)[i])
  {
    match f
    case Go => case Java => case Kotlin => case Python => case TypeScript => case Tsx => case JavaScript =>
    case Ruby => case Rust => case C => case Cpp => case CSharp => case Php => case Lua => case Bash =>
  }

  lemma CommentTemplate(f: Family)
    ensures StartsForeign(f, CommentLine(f))
  {
    match f
    case Go => case Java => case Kotlin => case Python => case TypeScript => case Tsx => case JavaScript =>
    case Ruby => case Rust => case C => case Cpp => case CSharp => case Php => case Lua => case Bash =>
  }

  lemma RenderedForeign(f: Family, pieces: seq<Piece>, symbol: string, n: nat)
    requires StartsForeign(f, pieces)
    ensures ScanLine(f, Render(pieces, symbol, n)) == ""
  {
    hide Foreign, ScanLine;
    assert Render(pieces, symbol, n)[0] == pieces[0].text[0];
    ForeignLine(f, Render(pieces, symbol, n));
  }

  lemma RenderedDeclaration(f: Family, symbol: string, n: nat)
    requires forall c :: c in symbol ==> IsIdent(c)
    ensures DeclaringIndex(f) < |BodyLines(f)|
    ensures ScanLine(f, Render(BodyLines(f)[DeclaringIndex(f)], symbol, n)) == symbol
  {
    TheDeclaringTemplate(f);
    hide BodyLines, Keyword, ScanLine, AfterSymbol;
    var rest := AfterSymbol(f);
    var text := Render(rest, symbol, n);
    var line := BodyLines(f)[DeclaringIndex(f)];
    assert text == "" || !IsIdent(text[0]);
    if f == Bash {
      assert line[1..] == rest;
      assert Render(line, symbol, n) == symbol + text;
      assert Keyword(f) == "" by { BashKeyword(); }
      assert "" + (symbol + text) == symbol + text;
    } else {
      assert line[1..] == [Symbol] + rest && line[1..][1..] == rest;
      assert Render(line[1..], symbol, n) == symbol + text;
      assert Render(line, symbol, n) == Keyword(f) + (symbol + text);
    }
    DeclaringLine(f, symbol, text);
  }

  lemma BashKeyword()
    ensures Keyword(Bash) == ""
  {
  }

  lemma TheDeclaringTemplate(f: Family)
    ensures DeclaringIndex(f) < |BodyLines(f)|
    ensures BodyLines(f)[DeclaringIndex(f)]
            == (if f == Bash then [Symbol] else [Fixed(Keyword(f)), Symbol]) + AfterSymbol(f)
    ensures StartsOutsideIdent(AfterSymbol(f))
  {
    match f
    case Go => case Java => case Kotlin => case Python => case TypeScript => case Tsx => case JavaScript =>
    case _ => hide *; OtherDeclaringTemplate(f);
  }

  lemma OtherDeclaringTemplate(f: Family)
    requires f in {Ruby, Rust, C, Cpp, CSharp, Php, Lua, Bash}
    ensures DeclaringIndex(f) < |BodyLines(f)|
    ensures BodyLines(f)[DeclaringIndex(f)]
            == (if f == Bash then [Symbol] else [Fixed(Keyword(f)), Symbol]) + AfterSymbol(f)
    ensures StartsOutsideIdent(AfterSymbol(f))
  {
    match f
    case Ruby => case Rust => case C => case Cpp => case CSharp => case Php => case Lua => case Bash =>
  }

  lemma SymbolIsIdent(n: nat)
    ensures forall c :: c in ChangeSymbol(n) ==> IsIdent(c)
    ensures ChangeSymbol(n) != ""
  {
    assert forall c :: c in Padded(n) ==> IsDigit(c);
    var head := "GraphiEvalStep";
    assert forall c :: c in head ==> IsIdent(c);
  }

  lemma EachLineDeclares(f: Family, symbol: string, n: nat, i: nat)
    requires forall c :: c in symbol ==> IsIdent(c)
    ensures var lines := DeclarationLines(f, symbol, n);
            var at := DeclaringIndex(f) + 1;
            && |lines| > at
            && (i < |lines| ==> ScanLine(f, lines[i]) == if i == at then symbol else "")
  {
    hide BodyLines, CommentLine, ScanLine, IsIdent, Render, Keyword, AfterSymbol, DeclaringIndex, StartsForeign;
    var templates: seq<seq<Piece>> := [CommentLine(f)] + BodyLines(f);
    RenderedDeclaration(f, symbol, n);
    var at := DeclaringIndex(f) + 1;
    if i < |templates| && i != at {
      if i == 0 {
        CommentTemplate(f);
      } else {
        OtherTemplates(f, i - 1);
      }
      RenderedForeign(f, templates[i], symbol, n);
    }
  }

  /** A generated declaration declares its own symbol and nothing else. */
  lemma DeclarationDeclaresItself(f: Family, n: nat, k: nat)
    ensures SomeLine(f, DeclarationLines(f, ChangeSymbol(n), n), ChangeSymbol(k)) <==> k == n
  {
    hide ChangeSymbol, DeclarationLines, ScanLine, IsIdent;
    SymbolIsIdent(n);
    SymbolIsIdent(k);
    var symbol := ChangeSymbol(n);
    var lines := DeclarationLines(f, symbol, n);
    var at := DeclaringIndex(f) + 1;
    forall i | 0 <= i < |lines|
      ensures at < |lines| && ScanLine(f, lines[i]) == if i == at then symbol else ""
    {
      EachLineDeclares(f, symbol, n, i);
    }
    assert |lines| > 0 && at < |lines| by { EachLineDeclares(f, symbol, n, 0); }
    if k != n && ChangeSymbol(k) == ChangeSymbol(n) {
      SymbolsAreInjective(k, n);
    }
    if k == n {
      assert lines[at] in lines;
    }
  }

  lemma FillersDeclareNothing(f: Family, lines: seq<string>, k: nat)
    requires forall l :: l in lines ==> l == "" || Foreign(f, l[0])
    ensures !SomeLine(f, lines, ChangeSymbol(k))
  {
    hide ChangeSymbol, ScanLine, Foreign;
    SymbolIsIdent(k);
    forall l | l in lines
      ensures ScanLine(f, l) == ""
    {
      ForeignLine(f, l);
    }
  }

  lemma ScanSeesAppends(f: Family, p: string, old_: string, n: nat, k: nat)
    requires FamilyForPath(p) == Some(f)
    ensures Declares(Scan, p, AppendTo(f, old_, ChangeSymbol(n), n), k) <==> Declares(Scan, p, old_, k) || k == n
  {
    hide FamilyForPath, AppendTo, ChangeSymbol, SomeLine, DeclarationLines, Declares, Split;
    SymbolsArePlain(n);
    var symbol := ChangeSymbol(n);
    DeclaresByLine(f, p, AppendTo(f, old_, symbol, n), k);
    DeclaresByLine(f, p, old_, k);
    var gap := LinesOfEdit(f, old_, symbol, n);
    var prefix := AppendPrefixLines(f);
    var decl := DeclarationLines(f, symbol, n);
    assert Lines(old_) + gap + (prefix + decl + [""]) == Lines(old_) + (gap + prefix) + decl + [""];
    SomeLineInEither(f, Lines(old_) + (gap + prefix) + decl, [""], ChangeSymbol(k));
    SomeLineInEither(f, Lines(old_) + (gap + prefix), decl, ChangeSymbol(k));
    SomeLineInEither(f, Lines(old_), gap + prefix, ChangeSymbol(k));
    FillersDeclareNothing(f, [""], k);
    assert prefix != [] ==> prefix[0][0] == '?' && prefix[1][0] == '<';
    FillersDeclareNothing(f, gap + prefix, k);
    DeclarationDeclaresItself(f, n, k);
  }

  lemma ScanSeesAdditions(f: Family, p: string, pkg: string, n: nat, k: nat)
    requires FamilyForPath(p) == Some(f) && Unbroken(pkg)
    ensures Declares(Scan, p, Added(f, pkg, ChangeSymbol(n), n), k) <==> k == n
  {
    hide FamilyForPath, ChangeSymbol, SomeLine, DeclarationLines, Declares, Split, Unlines;
    SymbolsArePlain(n);
    var symbol := ChangeSymbol(n);
    var pre, decl := PreambleLines(f, pkg), DeclarationLines(f, symbol, n);
    DeclaresByLine(f, p, Added(f, pkg, symbol, n), k);
    PreambleIsForeign(f, pkg);
    GeneratedLinesAreLines(f, symbol, n);
    assert forall l :: l in decl ==> l in AppendedLines(f, symbol, n);
    hide PreambleLines;
    LinesOfUnlines(pre + decl);
    SomeLineInEither(f, pre + decl, [""], ChangeSymbol(k));
    SomeLineInEither(f, pre, decl, ChangeSymbol(k));
    FillersDeclareNothing(f, [""], k);
    FillersDeclareNothing(f, pre, k);
    DeclarationDeclaresItself(f, n, k);
  }

  lemma PreambleIsForeign(f: Family, pkg: string)
    requires '\n' !in pkg
    ensures forall l :: l in PreambleLines(f, pkg) ==> '\n' !in l && (l == "" || Foreign(f, l[0]))
  {
    if f == Go || f == Java || f == Kotlin {
      assert ("package " + pkg)[0] == 'p' && ("package " + "main")[0] == 'p' && ("package " + pkg + ";")[0] == 'p';
    } else if f == Php {
      assert "<?php"[0] == '<';
    }
  }
}
