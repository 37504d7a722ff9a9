/** The language-scoped mutation contract: what a change to a source file looks like, per language family. */
module SourceFamily {
  import opened Text
  import opened Decimal
  import opened Paths
  import opened Sorting

  datatype ClauseShape = Absent | GoIdent | JvmDotted

  datatype Family =
    | Go | Java | Kotlin | Python | TypeScript | Tsx | JavaScript | Ruby
    | Rust | C | Cpp | CSharp | Php | Lua | Bash

  /** The closed table, in source order. */
  const SourceFamilies: seq<Family> :=
    [Go, Java, Kotlin, Python, TypeScript, Tsx, JavaScript, Ruby, Rust, C, Cpp, CSharp, Php, Lua, Bash]

  function Exts(f: Family): (exts: seq<string>)
    ensures |exts| > 0
  {
    match f
    case Go => [".go"]
    case Java => [".java"]
    case Kotlin => [".kt"]
    case Python => [".py"]
    case TypeScript => [".ts"]
    case Tsx => [".tsx"]
    case JavaScript => [".js"]
    case Ruby => [".rb"]
    case Rust => [".rs"]
    case C => [".c", ".h"]
    case Cpp => [".cpp", ".cc", ".cxx", ".hpp"]
    case CSharp => [".cs"]
    case Php => [".php"]
    case Lua => [".lua"]
    case Bash => [".sh", ".bash"]
  }

  /** The family's published name; it keys the package table. */
  function Name(f: Family): string {
    match f
    case Go => "go"
    case Java => "java"
    case Kotlin => "kotlin"
    case Python => "python"
    case TypeScript => "typescript"
    case Tsx => "tsx"
    case JavaScript => "javascript"
    case Ruby => "ruby"
    case Rust => "rust"
    case C => "c"
    case Cpp => "cpp"
    case CSharp => "csharp"
    case Php => "php"
    case Lua => "lua"
    case Bash => "bash"
  }

  function Clause(f: Family): ClauseShape {
    match f
    case Go => GoIdent
    case Java => JvmDotted
    case Kotlin => JvmDotted
    case _ => Absent
  }

  predicate ClauseRequired(f: Family) { f == Go }

  predicate Excluded(f: Family, p: string) {
    match f
    case Go => HasSuffix(p, "_test.go")
    case TypeScript => HasSuffix(p, ".d.ts")
    case _ => false
  }

  /** The base name an ADD step creates. */
  function AddedFileBase(f: Family, symbol: string, n: nat): string {
    match f
    case Java => symbol + ".java"
    case CSharp => symbol + ".cs"
    case _ => "graphi_eval_step" + Padded(n) + Exts(f)[0]
  }

  // ---- generated text, line by line ------------------------------------------

  /** Every line followed by a newline. */
  function Unlines(lines: seq<string>): string {
    if lines == [] then "" else lines[0] + "\n" + Unlines(lines[1..])
  }

  /** Text within one line. */
  type Words = s: string | '\n' !in s witness ""

  /** A line template: fixed words around the symbol and the step number. */
  datatype Piece = Fixed(text: Words) | Symbol | Number

  function Render(pieces: seq<Piece>, symbol: string, n: nat): string {
    if pieces == [] then ""
    else
      (match pieces[0] case Fixed(t) => t case Symbol => symbol case Number => Digits(n))
      + Render(pieces[1..], symbol, n)
  }

  /** The marker that opens the family's line comments. */
  function CommentMarker(f: Family): Words {
    match f
    case Python => "#"
    case Ruby => "#"
    case Bash => "#"
    case Lua => "--"
    case _ => "//"
  }

  function WrittenBy(): seq<Piece> {
    [Fixed(" is written"), Fixed(" by the "), Fixed("SW-126/"), Fixed("SW-191 "), Fixed("freshness "),
     Fixed("harness "),
     Fixed("(step ")]
  }

  function RemovedWith(): seq<Piece> {
    [Fixed("). It is "), Fixed("removed "), Fixed("with the "), Fixed("working "), Fixed("tree.")]
  }

  /** The provenance comment every generated declaration carries. */
  function CommentLine(f: Family): seq<Piece> {
    [Fixed(CommentMarker(f)), Fixed(" "), Symbol] + WrittenBy() + [Number] + RemovedWith()
  }

  /** A class with one method that returns the step number. */
  function ClassBody(getter: Words): seq<seq<Piece>> {
    [[Fixed("class "), Symbol, Fixed(" {")],
     [Fixed("    int "), Fixed(getter), Fixed("() { return "), Number, Fixed("; }")],
     [Fixed("}")]]
  }

  /** A multi-line function in the JavaScript grammars. */
  function ScriptBody(keyword: Words, signature: Words): seq<seq<Piece>> {
    [[Fixed(keyword), Symbol, Fixed(signature)], [Fixed("    return "), Number, Fixed(";")], [Fixed("}")]]
  }

  /** A one-line function in the C and PHP grammars. */
  function BraceLine(keyword: Words, signature: Words): seq<Piece> {
    [Fixed(keyword), Symbol, Fixed(signature), Fixed("return "), Number, Fixed("; }")]
  }

  /** The declaration proper, line by line. */
  function BodyLines(f: Family): seq<seq<Piece>> {
    match f
    case Go => [[Fixed("func "), Symbol, Fixed("() int { return "), Number, Fixed(" }")]]
    case Java => ClassBody("graphiEvalValue")
    case Kotlin => [[Fixed("fun "), Symbol, Fixed("(): Int = "), Number]]
    case Python => [[Fixed("def "), Symbol, Fixed("():")], [Fixed("    return "), Number]]
    case TypeScript => ScriptBody("export function ", "(): number {")
    case Tsx => ScriptBody("export function ", "(): number {")
    case JavaScript => ScriptBody("function ", "() {")
    case Ruby => [[Fixed("def "), Symbol], [Fixed("  "), Number], [Fixed("end")]]
    case Rust =>
      [[Fixed("#[allow"), Fixed("(non_snake_case)]")],
       [Fixed("pub fn "), Symbol, Fixed("() -> i32 { "), Number, Fixed(" }")]]
    case C => [BraceLine("int ", "(void) { ")]
    case Cpp => [BraceLine("int ", "() { ")]
    case CSharp => ClassBody("GraphiEvalValue")
    case Php => [BraceLine("function ", "() { ")]
    case Lua => [[Fixed("function "), Symbol, Fixed("() return "), Number, Fixed(" end")]]
    case Bash => [[Symbol, Fixed("() {")], [Fixed("  return "), Number], [Fixed("}")]]
  }

  function RenderAll(lines: seq<seq<Piece>>, symbol: string, n: nat): (text: seq<string>)
    ensures |text| == |lines|
    ensures forall i :: 0 <= i < |lines| ==> text[i] == Render(lines[i], symbol, n)
  {
    if lines == [] then [] else [Render(lines[0], symbol, n)] + RenderAll(lines[1..], symbol, n)
  }

  function DeclarationLines(f: Family, symbol: string, n: nat): seq<string> {
    RenderAll([CommentLine(f)] + BodyLines(f), symbol, n)
  }

  function PreambleLines(f: Family, pkg: string): seq<string> {
    match f
    case Go => ["package " + (if pkg == "" then "main" else pkg), ""]
    case Java => if pkg == "" then [] else ["package " + pkg + ";", ""]
    case Kotlin => if pkg == "" then [] else ["package " + pkg, ""]
    case Php => ["<?php", ""]
    case _ => []
  }

  function AppendPrefixLines(f: Family): seq<string> {
    if f == Php then ["?>", "<?php"] else []
  }

  /** The lines an append introduces. */
  function AppendedLines(f: Family, symbol: string, n: nat): seq<string> {
    AppendPrefixLines(f) + DeclarationLines(f, symbol, n)
  }

  /** What a MODIFY or CROSS_PACKAGE step appends. */
  function Appended(f: Family, symbol: string, n: nat): string {
    "\n" + Unlines(AppendedLines(f, symbol, n))
  }

  /** The file after a MODIFY or CROSS_PACKAGE step; a last line without a newline is ended first. */
  function AppendTo(f: Family, existing: string, symbol: string, n: nat): string {
    existing + (if existing != "" && !HasSuffix(existing, "\n") then "\n" else "") + Appended(f, symbol, n)
  }

  /** A whole new file of the family. */
  function Added(f: Family, pkg: string, symbol: string, n: nat): string {
    Unlines(PreambleLines(f, pkg) + DeclarationLines(f, symbol, n))
  }

  // ---- what makes generated text legal ---------------------------------------------------------

  /** A Java file is named after the class it declares, and so is a C# one. */
  lemma ClassFilesAreNamedAfterTheirClass(f: Family, symbol: string, n: nat)
    requires f == Java || f == CSharp
    ensures AddedFileBase(f, symbol, n) == symbol + Exts(f)[0]
    ensures "class " + symbol + " {" in DeclarationLines(f, symbol, n)
  {
    var lines := [CommentLine(f)] + BodyLines(f);
    var text := DeclarationLines(f, symbol, n);
    assert lines[1] == [Fixed("class "), Symbol, Fixed(" {")];
    hide CommentLine, BodyLines, DeclarationLines;
    ClassLine(symbol, n);
    assert text[1] == Render(lines[1], symbol, n);
  }

  lemma ClassLine(symbol: string, n: nat)
    ensures Render([Fixed("class "), Symbol, Fixed(" {")], symbol, n) == "class " + symbol + " {"
  {
    var a: seq<Piece> := [Fixed("class "), Symbol, Fixed(" {")];
    var b: seq<Piece> := [Symbol, Fixed(" {")];
    var c: seq<Piece> := [Fixed(" {")];
    assert a[1..] == b && b[1..] == c && c[1..] == [];
    assert Render(c, symbol, n) == " {" + "" && Render(b, symbol, n) == symbol + Render(c, symbol, n);
  }

  function Flat(lines: seq<seq<Piece>>): seq<Piece> {
    if lines == [] then [] else lines[0] + Flat(lines[1..])
  }

  lemma FlatOf(a: seq<Piece>, b: seq<Piece>, c: seq<Piece>)
    ensures Flat([a]) == a && Flat([a, b]) == a + b && Flat([a, b, c]) == a + b + c
  {
    FlatUnrolls(a, []);
    FlatUnrolls(b, []);
    FlatUnrolls(c, []);
    FlatUnrolls(a, [b]);
    FlatUnrolls(b, [c]);
    FlatUnrolls(a, [b, c]);
    hide Flat;
    assert [a] + [] == [a] && [b] + [] == [b] && [c] + [] == [c];
    assert [a] + [b] == [a, b] && [b] + [c] == [b, c] && [a] + [b, c] == [a, b, c];
    assert a + (b + c) == a + b + c;
  }

  lemma FlatUnrolls(line: seq<Piece>, lines: seq<seq<Piece>>)
    ensures Flat([line] + lines) == line + Flat(lines) && Flat([]) == []
  {
    assert ([line] + lines)[1..] == lines;
  }

  /** The template names the symbol once and carries the number once. */
  predicate OnceEach(lines: seq<seq<Piece>>) {
    multiset(Flat(lines))[Symbol] == 1 && multiset(Flat(lines))[Number] == 1
  }

  lemma OnceInClass(getter: Words)
    ensures OnceEach(ClassBody(getter))
  {
    var lines := ClassBody(getter);
    FlatOf(lines[0], lines[1], lines[2]);
    hide Flat;
  }

  lemma OnceInScript(keyword: Words, signature: Words)
    ensures OnceEach(ScriptBody(keyword, signature))
  {
    var lines := ScriptBody(keyword, signature);
    FlatOf(lines[0], lines[1], lines[2]);
    hide Flat;
  }

  lemma OnceInBraces(keyword: Words, signature: Words)
    ensures OnceEach([BraceLine(keyword, signature)])
  {
    FlatOf(BraceLine(keyword, signature), [], []);
    hide Flat;
  }

  lemma OnceInOneLine(a: Words, b: Words, c: Words)
    ensures OnceEach([[Fixed(a), Symbol, Fixed(b), Number, Fixed(c)]])
    ensures OnceEach([[Fixed(a), Symbol, Fixed(b), Number]])
  {
    FlatOf([Fixed(a), Symbol, Fixed(b), Number, Fixed(c)], [], []);
    FlatOf([Fixed(a), Symbol, Fixed(b), Number], [], []);
    hide Flat;
  }

  lemma OnceBehindAnAttribute(a: Words, b: Words, c: Words, d: Words, e: Words)
    ensures OnceEach([[Fixed(a), Fixed(b)], [Fixed(c), Symbol, Fixed(d), Number, Fixed(e)]])
  {
    FlatOf([Fixed(a), Fixed(b)], [Fixed(c), Symbol, Fixed(d), Number, Fixed(e)], []);
    hide Flat;
  }

  lemma OnceInABlock(a: Words, b: Words, c: Words, d: Words)
    ensures OnceEach([[Fixed(a), Symbol, Fixed(b)], [Fixed(c), Number]])
    ensures OnceEach([[Fixed(a), Symbol], [Fixed(c), Number], [Fixed(d)]])
    ensures OnceEach([[Symbol, Fixed(b)], [Fixed(c), Number], [Fixed(d)]])
  {
    FlatOf([Fixed(a), Symbol, Fixed(b)], [Fixed(c), Number], []);
    FlatOf([Fixed(a), Symbol], [Fixed(c), Number], [Fixed(d)]);
    FlatOf([Symbol, Fixed(b)], [Fixed(c), Number], [Fixed(d)]);
    hide Flat;
  }

  /** Every family's declaration names the symbol once and carries the step number once. */
  lemma OneSymbolOneNumber(f: Family)
    ensures OnceEach(BodyLines(f))
  {
    hide OnceEach, ClassBody, ScriptBody, BraceLine;
    match f
    case Java => OnceInClass("graphiEvalValue");
    case CSharp => OnceInClass("GraphiEvalValue");
    case TypeScript => OnceInScript("export function ", "(): number {");
    case Tsx => OnceInScript("export function ", "(): number {");
    case JavaScript => OnceInScript("function ", "() {");
    case C => OnceInBraces("int ", "(void) { ");
    case Cpp => OnceInBraces("int ", "() { ");
    case Php => OnceInBraces("function ", "() { ");
    case Go => OnceInOneLine("func ", "() int { return ", " }");
    case Kotlin => OnceInOneLine("fun ", "(): Int = ", "");
    case Lua => OnceInOneLine("function ", "() return ", " end");
    case Rust => OnceBehindAnAttribute("#[allow", "(non_snake_case)]", "pub fn ", "() -> i32 { ", " }");
    case Python => OnceInABlock("def ", "():", "    return ", "");
    case Ruby => OnceInABlock("def ", "", "  ", "end");
    case Bash => OnceInABlock("", "() {", "  return ", "}");
  }

  /** Whether PHP reads code behind these lines, when it did so before them, or read plain text. */
  function InCode(lines: seq<string>, before: bool): bool {
    if lines == [] then before
    else InCode(lines[1..], if lines[0] == "<?php" then true else if lines[0] == "?>" then false else before)
  }

  /** A declaration is code in a new PHP file and behind any text, whatever that text left open. */
  lemma PhpDeclarationsAreCode(pkg: string, before: bool)
    ensures InCode(PreambleLines(Php, pkg), false) && InCode(AppendPrefixLines(Php), before)
    ensures |AppendPrefixLines(Php)| > 0 && AppendPrefixLines(Php)[0] == "?>"
  {
    assert PreambleLines(Php, pkg)[1..] == [""] && [""][1..] == [];
    assert AppendPrefixLines(Php)[1..] == ["<?php"] && ["<?php"][1..] == [];
    assert InCode(["<?php"], false) == true;
    assert InCode([""], true) == true;
  }

  // ---- lookup ----------------------------------------------------------------

  /** The family of a table that owns an extension. */
  function FindFamily(table: seq<Family>, ext: string): Option<Family> {
    if table == [] then None
    else if ext in Exts(table[0]) then Some(table[0])
    else FindFamily(table[1..], ext)
  }

  /** The mutation contract for p, or None when no change to p can be written. */
  function FamilyForPath(p: string): Option<Family> {
    match FindFamily(SourceFamilies, Lower(Ext(p)))
    case None => None
    case Some(f) => if Excluded(f, p) then None else Some(f)
  }

  /** No extension is claimed twice, so building the lookup map never panics. */
  lemma ExtensionsAreDisjoint(f: Family, g: Family, ext: string)
    requires ext in Exts(f) && ext in Exts(g)
    ensures f == g
  {
    hide Owner, Exts;
    OwnerOf(f, ext);
    OwnerOf(g, ext);
  }

  /** Nor does a family list one twice. */
  lemma ExtensionsAreListedOnce(f: Family)
    ensures Distinct(Exts(f))
  {
    match f
    case Go => case Java => case Kotlin => case Python => case TypeScript => case Tsx => case JavaScript =>
    case Ruby => case Rust => case C => case Cpp => case CSharp => case Php => case Lua => case Bash =>
  }

  /** Every entry comes from a family already walked, and every extension already walked has one. */
  ghost predicate Holds(table: map<string, Family>, walked: seq<Family>, f: Family, exts: seq<string>) {
    && (forall ext :: ext in table ==> Owns(table[ext], ext, walked, f, exts))
    && (forall g, ext :: g in walked && ext in Exts(g) ==> ext in table)
    && (forall ext :: ext in exts ==> ext in table)
  }

  ghost predicate Owns(g: Family, ext: string, walked: seq<Family>, f: Family, exts: seq<string>) {
    ext in Exts(g) && (g in walked || (g == f && ext in exts))
  }

  lemma FamiliesAreListedOnce(i: nat)
    requires i < |SourceFamilies|
    ensures SourceFamilies[i] !in SourceFamilies[..i]
  {
  }

  /** The extension at hand is new to the table. */
  lemma ExtensionIsNew(table: map<string, Family>, i: nat, j: nat)
    requires i < |SourceFamilies| && j < |Exts(SourceFamilies[i])|
    requires Holds(table, SourceFamilies[..i], SourceFamilies[i], Exts(SourceFamilies[i])[..j])
    ensures Exts(SourceFamilies[i])[j] !in table
  {
    hide Exts, SourceFamilies;
    var f := SourceFamilies[i];
    var ext := Exts(f)[j];
    if ext in table {
      ExtensionsAreDisjoint(f, table[ext], ext);
      FamiliesAreListedOnce(i);
      ExtensionsAreListedOnce(f);
      assert false;
    }
  }

  lemma {:induction false} OwnerIsFound(table: seq<Family>, ext: string)
    ensures match FindFamily(table, ext)
            case Some(f) => f in table && ext in Exts(f)
            case None => forall f :: f in table ==> ext !in Exts(f)
  {
    hide Exts;
    if table != [] {
      OwnerIsFound(table[1..], ext);
      assert table == [table[0]] + table[1..];
    }
  }

  /** Builds the lookup table; None is the panic on an extension already claimed. It never happens, and looking an
      extension up finds the first family of the table that owns it. */
  method FamilyByExt() returns (built: Option<map<string, Family>>)
    ensures built.Some?
    ensures forall ext :: FindFamily(SourceFamilies, ext) == if ext in built.value then Some(built.value[ext]) else None
  {
    hide Exts, SourceFamilies, FindFamily, Owns;
    var out: map<string, Family> := map[];
    for i := 0 to |SourceFamilies|
      invariant forall f :: Holds(out, SourceFamilies[..i], f, [])
    {
      var f := SourceFamilies[i];
      assert Exts(f)[..0] == [];
      for j := 0 to |Exts(f)|
        invariant Holds(out, SourceFamilies[..i], f, Exts(f)[..j])
      {
        var ext := Exts(f)[j];
        ExtensionIsNew(out, i, j);
        if ext in out {
          return None;
        }
        OneMoreExtension(out, SourceFamilies[..i], f, Exts(f)[..j], ext);
        assert Exts(f)[..j + 1] == Exts(f)[..j] + [ext];
        out := out[ext := f];
      }
      assert Exts(f)[..|Exts(f)|] == Exts(f) && SourceFamilies[..i + 1] == SourceFamilies[..i] + [f];
      FamilyIsWalked(out, SourceFamilies[..i], f);
    }
    assert SourceFamilies[..|SourceFamilies|] == SourceFamilies;
    built := Some(out);
    forall ext
      ensures FindFamily(SourceFamilies, ext) == if ext in out then Some(out[ext]) else None
    {
      TableAnswers(out, ext);
    }
  }

  lemma OneMoreExtension(table: map<string, Family>, walked: seq<Family>, f: Family, exts: seq<string>, ext: string)
    requires Holds(table, walked, f, exts) && ext in Exts(f) && ext !in table
    ensures Holds(table[ext := f], walked, f, exts + [ext])
  {
    hide Exts;
  }

  lemma FamilyIsWalked(table: map<string, Family>, walked: seq<Family>, f: Family)
    requires Holds(table, walked, f, Exts(f))
    ensures forall g :: Holds(table, walked + [f], g, [])
  {
    hide Exts;
  }

  lemma TableAnswers(table: map<string, Family>, ext: string)
    requires Holds(table, SourceFamilies, Go, [])
    ensures FindFamily(SourceFamilies, ext) == if ext in table then Some(table[ext]) else None
  {
    hide Exts, SourceFamilies, FindFamily;
    OwnerIsFound(SourceFamilies, ext);
    var found := FindFamily(SourceFamilies, ext);
    if found.Some? && ext in table {
      ExtensionsAreDisjoint(found.value, table[ext], ext);
    }
  }

  function Owner(ext: string): Family {
    if ext == ".go" then Go
    else if ext == ".java" then Java
    else if ext == ".kt" then Kotlin
    else if ext == ".py" then Python
    else if ext == ".ts" then TypeScript
    else if ext == ".tsx" then Tsx
    else if ext == ".js" then JavaScript
    else if ext == ".rb" then Ruby
    else if ext == ".rs" then Rust
    else if ext == ".c" || ext == ".h" then C
    else if ext == ".cs" then CSharp
    else if ext == ".php" then Php
    else if ext == ".lua" then Lua
    else if ext == ".sh" || ext == ".bash" then Bash
    else Cpp
  }

  lemma OwnerOf(f: Family, ext: string)
    requires ext in Exts(f)
    ensures Owner(ext) == f
  {
    match f
    case Go => case Java => case Kotlin => case Python => case TypeScript => case Tsx => case JavaScript =>
    case _ => hide *; OtherOwner(f, ext);
  }

  lemma OtherOwner(f: Family, ext: string)
    requires ext in Exts(f) && f in {Ruby, Rust, C, Cpp, CSharp, Php, Lua, Bash}
    ensures Owner(ext) == f
  {
    match f
    case Ruby => case Rust => case C => case Cpp => case CSharp => case Php => case Lua => case Bash =>
  }

  lemma {:induction false} FindFamilyIn(table: seq<Family>, f: Family, ext: string)
    requires f in table && ext in Exts(f)
    ensures FindFamily(table, ext) == Some(f)
  {
    if ext in Exts(table[0]) {
      ExtensionsAreDisjoint(f, table[0], ext);
    } else {
      FindFamilyIn(table[1..], f, ext);
    }
  }

  lemma TableIsComplete(f: Family)
    ensures f in SourceFamilies
  {
    assert SourceFamilies[0] == Go && SourceFamilies[1] == Java && SourceFamilies[2] == Kotlin;
    assert SourceFamilies[3] == Python && SourceFamilies[4] == TypeScript && SourceFamilies[5] == Tsx;
    assert SourceFamilies[6] == JavaScript && SourceFamilies[7] == Ruby && SourceFamilies[8] == Rust;
    assert SourceFamilies[9] == C && SourceFamilies[10] == Cpp && SourceFamilies[11] == CSharp;
    assert SourceFamilies[12] == Php && SourceFamilies[13] == Lua && SourceFamilies[14] == Bash;
  }

  /** Which family a path belongs to: the one that owns its extension in any case, unless it is a Go test or a
      TypeScript
      declaration file. */
  lemma FamilyByName(p: string, f: Family)
    ensures FamilyForPath(p) == Some(f) <==>
      && Lower(Ext(p)) in Exts(f)
      && !(f == Go && HasSuffix(p, "_test.go")) && !(f == TypeScript && HasSuffix(p, ".d.ts"))
  {
    assert Excluded(f, p) <==> (f == Go && HasSuffix(p, "_test.go")) || (f == TypeScript && HasSuffix(p, ".d.ts"));
    TableIsComplete(f);
    OwnerIsFound(SourceFamilies, Lower(Ext(p)));
    hide Exts, SourceFamilies, Lower, Ext, HasSuffix, FindFamily;
    if Lower(Ext(p)) in Exts(f) {
      FindFamilyIn(SourceFamilies, f, Lower(Ext(p)));
    }
  }

  /** An added file belongs to the family that named it, in whatever directory it lands. */
  lemma AddedFileKeepsItsFamily(f: Family, dir: string, symbol: string, n: nat, p: string)
    requires '/' !in symbol
    requires p == AddedFileBase(f, symbol, n) || p == dir + "/" + AddedFileBase(f, symbol, n)
    ensures FamilyForPath(p) == Some(f)
  {
    var base := AddedFileBase(f, symbol, n);
    AddedFileBaseExt(f, symbol, n);
    AddedElement(dir, base, p);
    NotExcluded(f, dir, symbol, n, p);
    FamilyOfElement(f, base, p);
  }

  lemma AddedElement(dir: string, base: string, p: string)
    requires '/' !in base
    requires p == base || p == dir + "/" + base
    ensures Base(p) == base
  {
    BaseOfJoined(dir, base);
  }

  lemma FamilyOfElement(f: Family, base: string, p: string)
    requires Base(p) == base && ElementExt(base) == Exts(f)[0] && !Excluded(f, p)
    ensures FamilyForPath(p) == Some(f)
  {
    ExtensionShape(f);
    TableIsComplete(f);
    FindFamilyIn(SourceFamilies, f, Ext(p));
  }

  lemma AddedFileStem(f: Family, symbol: string, n: nat) returns (stem: string)
    requires '/' !in symbol
    ensures AddedFileBase(f, symbol, n) == stem + Exts(f)[0] && '/' !in stem
  {
    stem := if f == Java || f == CSharp then symbol else "graphi_eval_step" + Padded(n);
  }

  lemma AddedFileBaseExt(f: Family, symbol: string, n: nat)
    requires '/' !in symbol
    ensures ElementExt(AddedFileBase(f, symbol, n)) == Exts(f)[0]
    ensures '/' !in AddedFileBase(f, symbol, n)
  {
    hide Exts, AddedFileBase, ElementExt, Lower;
    var stem := AddedFileStem(f, symbol, n);
    ExtensionShape(f);
    ExtensionOf(stem, Exts(f)[0]);
  }

  lemma ExtensionOf(stem: string, ext: string)
    requires ext != "" && ext[0] == '.' && '.' !in ext[1..]
    ensures ElementExt(stem + ext) == ext
  {
    hide ElementExt;
    ElementExtOfDotted(stem, ext[1..]);
    assert ext == "." + ext[1..];
    assert stem + ext == stem + "." + ext[1..];
  }

  lemma ExtensionShape(f: Family)
    ensures var ext := Exts(f)[0]; ext != "" && ext[0] == '.' && '.' !in ext[1..] && '/' !in ext && Lower(ext) == ext
  {
    match f
    case Go => case Java => case Kotlin => case Python => case TypeScript => case Tsx => case JavaScript =>
    case Ruby => case Rust => case C => case Cpp => case CSharp => case Php => case Lua => case Bash =>
  }

  lemma NotExcluded(f: Family, dir: string, symbol: string, n: nat, p: string)
    requires p == AddedFileBase(f, symbol, n) || p == dir + "/" + AddedFileBase(f, symbol, n)
    ensures !Excluded(f, p)
  {
    if f == Go || f == TypeScript {
      var ext := Exts(f)[0];
      assert |ext| == 3;
      assert exists stem :: p == stem + Padded(n) + ext by {
        PathStem(dir, n, ext, p);
      }
      var stem :| p == stem + Padded(n) + ext;
      hide Exts, AddedFileBase;
      EndsInADigit(stem, n, ext);
      DigitBlocks(p, "_test.go");
      DigitBlocks(p, ".d.ts");
    }
  }

  lemma PathStem(dir: string, n: nat, ext: string, p: string)
    requires p == "graphi_eval_step" + Padded(n) + ext || p == dir + "/" + ("graphi_eval_step" + Padded(n) + ext)
    ensures exists stem :: p == stem + Padded(n) + ext
  {
    var name := "graphi_eval_step";
    var stem := if p == name + Padded(n) + ext then name else dir + "/" + name;
    assert p == stem + Padded(n) + ext;
  }

  lemma DigitBlocks(p: string, suffix: string)
    requires |p| >= 4 && IsDigit(p[|p| - 4])
    requires suffix == "_test.go" || suffix == ".d.ts"
    ensures !HasSuffix(p, suffix)
  {
    assert suffix[|suffix| - 4] == 't' || suffix[|suffix| - 4] == 'd';
    assert |p| >= |suffix| ==> p[|p| - |suffix|..][|suffix| - 4] == p[|p| - 4];
  }

  /** The character before a three-character extension is a digit. */
  lemma EndsInADigit(stem: string, n: nat, ext: string)
    requires |ext| == 3
    ensures var p := stem + Padded(n) + ext; |p| >= 4 && IsDigit(p[|p| - 4])
  {
    var digits := Padded(n);
    var p := stem + digits + ext;
    assert p[|p| - 4] == digits[|digits| - 1];
    assert digits[|digits| - 1] in digits;
  }
}
