/** Reading a file's package clause, and what survives a generated edit. */
module PackageClause {
  import opened Text
  import opened SourceFamily

  /** What one line contributes: nothing, or the reader's final answer. */
  datatype Verdict = Skip | Answer(name: string)

  /** The part of a clause before blanks and comments. */
  function FirstWord(rest: string): (word: string)
    ensures word <= rest
  {
    CutAt(CutAt(CutAny(rest, " \t"), "//"), "/*")
  }

  /** The name on a line that declares a package. */
  function RawName(line: string): string
    requires HasPrefix(TrimSpace(line), "package ")
  {
    FirstWord(TrimSpace(TrimSpace(line)[8..]))
  }

  /** A Go clause is one identifier; a JVM clause may end with Java's terminator. */
  function Interpret(shape: ClauseShape, name: string): Verdict {
    if shape == GoIdent && ('.' in name || ';' in name) then Answer("")
    else
      var bare := if shape == JvmDotted then TrimSuffix(name, ";") else name;
      if bare == "" then Skip else Answer(bare)
  }

  function ReadLine(shape: ClauseShape, line: string): Verdict {
    if HasPrefix(TrimSpace(line), "package ") then Interpret(shape, RawName(line)) else Skip
  }

  /** The first line that answers decides. */
  function ReadLines(shape: ClauseShape, lines: seq<string>): string {
    if lines == [] then ""
    else match ReadLine(shape, lines[0])
      case Answer(name) => name
      case Skip => ReadLines(shape, lines[1..])
  }

  function Read(shape: ClauseShape, raw: string): string {
    if shape == Absent then "" else ReadLines(shape, Lines(raw))
  }

  /** readPackageClause: a line loop that reassigns `name` and returns early. */
  method ReadPackageClause(shape: ClauseShape, raw: string) returns (clause: string)
    ensures clause == Read(shape, raw)
  {
    hide TrimSpace, CutAny, CutAt, Split;
    if shape == Absent {
      return "";
    }
    var lines := Lines(raw);
    for i := 0 to |lines|
      invariant ReadLines(shape, lines[i..]) == Read(shape, raw)
    {
      assert lines[i..][1..] == lines[i + 1..];
      if !HasPrefix(TrimSpace(lines[i]), "package ") {
        continue;
      }
      var name := TrimSpace(TrimSpace(lines[i])[8..]);
      name := CutAny(name, " \t");
      name := CutAt(name, "//");
      name := CutAt(name, "/*");
      if shape == GoIdent {
        if '.' in name || ';' in name {
          return "";
        }
      } else {
        name := TrimSuffix(name, ";");
      }
      if name != "" {
        return name;
      }
    }
    return "";
  }

  // ---- appending --------------------------------------------------------------------

  predicate AllSkipped(shape: ClauseShape, lines: seq<string>) {
    forall l :: l in lines ==> ReadLine(shape, l) == Skip
  }

  lemma {:induction false} SkippedTail(shape: ClauseShape, lines: seq<string>, more: seq<string>)
    requires AllSkipped(shape, more)
    ensures ReadLines(shape, lines + more) == ReadLines(shape, lines)
    decreases |lines| + |more|
  {
    hide ReadLine;
    if lines == [] {
      assert lines + more == more;
      if more != [] {
        SkippedTail(shape, [], more[1..]);
        assert [] + more[1..] == more[1..];
      }
    } else {
      SkippedTail(shape, lines[1..], more);
      assert (lines + more)[1..] == lines[1..] + more;
    }
  }

  /** A line whose first visible character is not a 'p' declares nothing. */
  lemma NotAClause(shape: ClauseShape, line: string)
    requires TrimLeft(line) == [] || TrimLeft(line)[0] != 'p'
    ensures ReadLine(shape, line) == Skip
  {
    hide RawName;
    assert !HasPrefix(TrimSpace(line), "package ") by {
      hide ReadLine, TrimLeft, TrimRight;
      assert TrimSpace(line) <= TrimLeft(line);
    }
  }

  lemma {:induction false} LinesOfUnlines(lines: seq<string>)
    requires forall l :: l in lines ==> '\n' !in l
    ensures Lines(Unlines(lines)) == lines + [""]
  {
    if lines != [] {
      LinesOfUnlines(lines[1..]);
      SplitAppend(lines[0], '\n', Unlines(lines[1..]));
      SplitWithoutSeparator(lines[0], '\n');
      assert lines[0] + "\n" + Unlines(lines[1..]) == lines[0] + ['\n'] + Unlines(lines[1..]);
    }
  }

  lemma {:induction false} RenderedLine(pieces: seq<Piece>, symbol: string, n: nat)
    requires '\n' !in symbol
    ensures '\n' !in Render(pieces, symbol, n)
  {
    if pieces != [] {
      RenderedLine(pieces[1..], symbol, n);
    }
  }

  /** Generated text is made of whole lines when the symbol is. */
  lemma GeneratedLinesAreLines(f: Family, symbol: string, n: nat)
    requires '\n' !in symbol
    ensures forall l :: l in AppendedLines(f, symbol, n) ==> '\n' !in l
  {
    hide CommentLine, BodyLines;
    var templates := [CommentLine(f)] + BodyLines(f);
    forall i | 0 <= i < |templates|
      ensures '\n' !in Render(templates[i], symbol, n)
    {
      RenderedLine(templates[i], symbol, n);
    }
  }

  lemma LinesAcrossNewline(a: string, text: string)
    ensures Lines(a + ("\n" + text)) == Lines(a) + Lines(text)
  {
    hide Split;
    assert a + ("\n" + text) == a + ['\n'] + text;
    SplitAppend(a, '\n', text);
  }

  lemma LinesAcrossNewlines(a: string, text: string)
    ensures Lines(a + "" + ("\n" + text)) == Lines(a) + [] + Lines(text)
    ensures Lines(a + "\n" + ("\n" + text)) == Lines(a) + [""] + Lines(text)
  {
    assert Lines("") == [""];
    hide Lines;
    assert a + "" + ("\n" + text) == a + ("\n" + text);
    LinesAcrossNewline(a, text);
    var inner := "\n" + text;
    assert "" + inner == inner && a + "\n" + inner == a + ("\n" + inner);
    LinesAcrossNewline("", text);
    LinesAcrossNewline(a, inner);
  }

  /** The lines of an edited file are the old lines, then generated ones. */
  lemma LinesOfEdit(f: Family, existing: string, symbol: string, n: nat) returns (gap: seq<string>)
    requires '\n' !in symbol
    ensures gap == if existing != "" && existing[|existing| - 1] != '\n' then [""] else []
    ensures Lines(AppendTo(f, existing, symbol, n)) ==
            Lines(existing) + gap + (AppendedLines(f, symbol, n) + [""])
  {
    hide AppendedLines;
    assert Lines(Unlines(AppendedLines(f, symbol, n))) == AppendedLines(f, symbol, n) + [""] by {
      GeneratedLinesAreLines(f, symbol, n);
      LinesOfUnlines(AppendedLines(f, symbol, n));
    }
    LinesAcrossNewlines(existing, Unlines(AppendedLines(f, symbol, n)));
    hide Unlines, Split;
    assert existing != "" ==> existing[|existing| - 1..] == [existing[|existing| - 1]];
    gap := if existing != "" && !HasSuffix(existing, "\n") then [""] else [];
  }

  lemma {:induction false} SkipBlanks(line: string, k: nat)
    requires k < |line| && !IsSpace(line[k]) && forall i :: 0 <= i < k ==> IsSpace(line[i])
    ensures TrimLeft(line) == line[k..]
  {
    if k > 0 {
      SkipBlanks(line[1..], k - 1);
    }
  }

  /** How the templates of the families with a package clause begin. */
  lemma TemplateStarts(f: Family, i: nat)
    requires Clause(f) != Absent && i <= |BodyLines(f)|
    ensures var line := ([CommentLine(f)] + BodyLines(f))[i];
            && line != [] && line[0].Fixed?
            && (line[0].text == "//" || line[0].text == "func " || line[0].text == "class " || line[0].text == "fun "
                || line[0].text == "    int " || line[0].text == "}")
  {
  }

  lemma StartIsSkipped(shape: ClauseShape, line: string, start: string)
    requires start <= line
    requires start == "//" || start == "func " || start == "class " || start == "fun "
             || start == "    int " || start == "}"
    ensures ReadLine(shape, line) == Skip
  {
    hide ReadLine;
    var k := if start == "    int " then 4 else 0;
    assert line[k] == start[k];
    assert forall i :: 0 <= i < k ==> line[i] == start[i] == ' ';
    SkipBlanks(line, k);
    NotAClause(shape, line);
  }

  /** In a family that has a package clause, no generated line is one. */
  lemma GeneratedLinesAreSkipped(f: Family, symbol: string, n: nat)
    requires Clause(f) != Absent
    ensures AllSkipped(Clause(f), DeclarationLines(f, symbol, n))
    ensures AppendedLines(f, symbol, n) == DeclarationLines(f, symbol, n)
  {
    hide ReadLine, CommentLine, BodyLines;
    var templates: seq<seq<Piece>> := [CommentLine(f)] + BodyLines(f);
    var lines := DeclarationLines(f, symbol, n);
    forall i | 0 <= i < |lines|
      ensures ReadLine(Clause(f), lines[i]) == Skip
    {
      TemplateStarts(f, i);
      StartIsSkipped(Clause(f), lines[i], templates[i][0].text);
    }
  }

  lemma BlankIsSkipped(shape: ClauseShape)
    ensures ReadLine(shape, "") == Skip
  {
    NotAClause(shape, "");
  }

  /** No edit changes what the reader returns, whatever the file already holds. */
  lemma EditKeepsClause(f: Family, existing: string, symbol: string, n: nat)
    requires '\n' !in symbol
    ensures Read(Clause(f), AppendTo(f, existing, symbol, n)) == Read(Clause(f), existing)
  {
    hide AppendTo, AppendedLines, DeclarationLines, ReadLine;
    if Clause(f) != Absent {
      var gap := LinesOfEdit(f, existing, symbol, n);
      GeneratedLinesAreSkipped(f, symbol, n);
      BlankIsSkipped(Clause(f));
      var tail := gap + AppendedLines(f, symbol, n) + [""];
      assert Lines(existing) + gap + (AppendedLines(f, symbol, n) + [""]) == Lines(existing) + tail;
      SkippedTail(Clause(f), Lines(existing), tail);
    }
  }
}
