/** When the package clause of a freshly added file reads back as the clause it was rendered with. */
module FreshClause {
  import opened Text
  import opened SourceFamily
  import opened PackageClause

  /** Free of everything that ends a name early. */
  predicate Unbroken(pkg: string) {
    && '\n' !in pkg && ' ' !in pkg && '\t' !in pkg
    && !Contains(pkg, "//") && !Contains(pkg, "/*")
    && (pkg != "" ==> !IsSpace(pkg[0]))
  }

  /** The names a family's added file can carry without loss. */
  predicate Survives(f: Family, pkg: string) {
    match f
    case Go => pkg != "" && Unbroken(pkg) && '.' !in pkg && ';' !in pkg && !IsSpace(pkg[|pkg| - 1])
    case Kotlin => Unbroken(pkg) && (pkg != "" ==> !IsSpace(pkg[|pkg| - 1]) && pkg[|pkg| - 1] != ';')
    case Java => Unbroken(pkg)
    case _ => pkg == ""
  }

  lemma UnbrokenPrefix(r: string, s: string)
    requires r <= s && Unbroken(s)
    ensures Unbroken(r)
  {
    hide Contains;
    if Contains(r, "//") { ContainsInPrefix(r, s, "//"); }
    if Contains(r, "/*") { ContainsInPrefix(r, s, "/*"); }
  }

  lemma FirstWordsAreUnbroken(rest: string)
    requires '\n' !in rest && (rest != "" ==> !IsSpace(rest[0]))
    ensures Unbroken(FirstWord(rest))
  {
    var word := CutAny(rest, " \t");
    var before := CutAt(word, "//");
    var name := CutAt(before, "/*");
    assert ' ' in " \t" && '\t' in " \t";
    assert ' ' !in word && '\t' !in word && word <= rest;
    assert before <= word && !Contains(before, "//") && name <= before && !Contains(name, "/*");
    assert FirstWord(rest) == name;
    hide *;
    if Contains(name, "//") { ContainsInPrefix(name, before, "//"); }
    WordIsUnbroken(name, word, rest);
  }

  lemma WordIsUnbroken(name: string, word: string, rest: string)
    requires name <= word <= rest && '\n' !in rest && ' ' !in word && '\t' !in word
    requires !Contains(name, "//") && !Contains(name, "/*") && (rest != "" ==> !IsSpace(rest[0]))
    ensures Unbroken(name)
  {
    hide Contains, IsSpace;
  }

  lemma TrimmedShape(s: string)
    requires '\n' !in s
    ensures '\n' !in TrimSpace(s) && (TrimSpace(s) != "" ==> !IsSpace(TrimSpace(s)[0]))
  {
  }

  lemma AnswersAreUnbroken(shape: ClauseShape, line: string)
    requires shape != Absent && '\n' !in line
    ensures var v := ReadLine(shape, line);
            v.Answer? ==> Unbroken(v.name) && (shape == GoIdent ==> '.' !in v.name && ';' !in v.name)
  {
    hide FirstWord, TrimSpace, Unbroken;
    EmptyIsUnbroken();
    if HasPrefix(TrimSpace(line), "package ") {
      TrimmedShape(line);
      TrimmedShape(TrimSpace(line)[8..]);
      FirstWordsAreUnbroken(TrimSpace(TrimSpace(line)[8..]));
      var name := RawName(line);
      UnbrokenPrefix(TrimSuffix(name, ";"), name);
    }
  }

  lemma {:induction false} ReadingsAreUnbroken(shape: ClauseShape, lines: seq<string>)
    requires shape != Absent && forall l :: l in lines ==> '\n' !in l
    ensures Unbroken(ReadLines(shape, lines))
    ensures shape == GoIdent ==> '.' !in ReadLines(shape, lines) && ';' !in ReadLines(shape, lines)
  {
    hide ReadLine, Contains;
    if lines == [] {
      EmptyIsUnbroken();
    } else {
      AnswersAreUnbroken(shape, lines[0]);
      ReadingsAreUnbroken(shape, lines[1..]);
    }
  }

  lemma EmptyIsUnbroken()
    ensures Unbroken("")
  {
  }

  // ---- reading the line that was written ---------------------------------------------

  lemma {:induction false} ContainsBeforeTerminator(s: string, mark: string)
    requires |mark| == 2 && mark[1] != ';' && !Contains(s, mark)
    ensures !Contains(s + ";", mark)
  {
    var t := s + ";";
    if s != [] {
      ContainsBeforeTerminator(s[1..], mark);
      assert t[1..] == s[1..] + ";";
      assert |s| >= 2 ==> s[..2] == t[..2];
    } else {
      assert t[1..] == "";
    }
  }

  lemma {:induction false} TrimRightAfter(head: string, tail: string)
    requires tail != "" && !IsSpace(tail[0])
    ensures TrimRight(tail) != "" && TrimRight(head + tail) == head + TrimRight(tail)
    decreases |tail|
  {
    hide IsSpace;
    var s := head + tail;
    assert s[|s| - 1] == tail[|tail| - 1];
    if IsSpace(tail[|tail| - 1]) {
      TrimRightAfter(head, tail[..|tail| - 1]);
      assert s[..|s| - 1] == head + tail[..|tail| - 1];
    }
  }

  lemma TrimSpaceOfName(body: string)
    requires body != "" && !IsSpace(body[0])
    ensures TrimSpace(TrimRight(body)) == TrimRight(body)
  {
    hide IsSpace;
    TrimRightAfter("", body);
    assert "" + body == body;
    var name := TrimRight(body);
    assert name[0] == body[0];
    assert TrimLeft(name) == name;
  }

  lemma TrimSpaceAfter(head: string, body: string)
    requires head != "" && !IsSpace(head[0]) && body != "" && !IsSpace(body[0])
    ensures TrimSpace(head + body) == head + TrimRight(body)
  {
    hide IsSpace, TrimRight;
    TrimRightAfter(head, body);
    assert (head + body)[0] == head[0];
  }

  lemma TrimSpaceOfLine(body: string)
    requires body != "" && !IsSpace(body[0])
    ensures TrimSpace("package " + body) == "package " + TrimRight(body)
  {
    var head := "package ";
    assert !IsSpace(head[0]);
    hide IsSpace, TrimSpace, TrimRight;
    TrimSpaceAfter(head, body);
  }

  lemma NoCut(name: string, body: string)
    requires name <= body && Unbroken(body)
    ensures FirstWord(name) == name
  {
    hide Contains, CutAt, CutAny;
    if Contains(name, "//") { ContainsInPrefix(name, body, "//"); }
    if Contains(name, "/*") { ContainsInPrefix(name, body, "/*"); }
    assert forall c :: c in " \t" ==> c !in name;
  }

  /** What the reader makes of a clause line that was written with an unbroken text. */
  lemma WrittenLine(shape: ClauseShape, body: string)
    requires body != "" && Unbroken(body)
    ensures ReadLine(shape, "package " + body) == Interpret(shape, TrimRight(body))
  {
    hide Interpret;
    TrimSpaceOfLine(body);
    TrimSpaceOfName(body);
    NoCut(TrimRight(body), body);
    hide TrimSpace, TrimRight, Unbroken, FirstWord;
    var t := TrimSpace("package " + body);
    assert t[..8] == "package " && t[8..] == TrimRight(body);
  }

  /** An added Java file's terminator is stripped again. */
  lemma WrittenJavaLine(pkg: string)
    requires pkg != "" && Unbroken(pkg)
    ensures ReadLine(JvmDotted, "package " + (pkg + ";")) == Answer(pkg)
  {
    var body := pkg + ";";
    ContainsBeforeTerminator(pkg, "//");
    ContainsBeforeTerminator(pkg, "/*");
    assert body[0] == pkg[0] && body[|body| - 1] == ';';
    WrittenLine(JvmDotted, body);
    hide ReadLine, Contains;
    assert TrimRight(body) == body && body[|body| - 1..] == ";" && body[..|body| - 1] == pkg;
  }

  lemma TrimmedLength(s: string)
    requires s != ""
    ensures |TrimRight(s)| <= |s|
    ensures TrimRight(s) == s <==> !IsSpace(s[|s| - 1])
    ensures HasSuffix(s, ";") <==> s[|s| - 1] == ';'
  {
    assert s[|s| - 1..] == [s[|s| - 1]];
  }

  /** A Kotlin line loses trailing space and one terminator, so a name with neither survives. */
  lemma WrittenKotlinLine(pkg: string)
    requires pkg != "" && Unbroken(pkg)
    ensures ReadLine(JvmDotted, "package " + pkg) == Answer(pkg)
      <==> !IsSpace(pkg[|pkg| - 1]) && pkg[|pkg| - 1] != ';'
  {
    hide *;
    WrittenLine(JvmDotted, pkg);
    TrimmedLength(pkg);
    SurvivesTrimming(pkg, TrimRight(pkg));
  }

  lemma SurvivesTrimming(pkg: string, name: string)
    requires pkg != "" && |name| <= |pkg| && (HasSuffix(pkg, ";") <==> pkg[|pkg| - 1] == ';')
    ensures Interpret(JvmDotted, name) == Answer(pkg) <==> name == pkg && pkg[|pkg| - 1] != ';'
  {
    assert |TrimSuffix(name, ";")| <= |name|;
  }

  /** A Go line loses trailing space only. */
  lemma WrittenGoLine(pkg: string)
    requires pkg != "" && Unbroken(pkg) && '.' !in pkg && ';' !in pkg
    ensures ReadLine(GoIdent, "package " + pkg) == Answer(pkg) <==> !IsSpace(pkg[|pkg| - 1])
  {
    hide *;
    WrittenLine(GoIdent, pkg);
    TrimmedLength(pkg);
    TrimmedGoName(pkg);
  }

  lemma TrimmedGoName(pkg: string)
    requires pkg != "" && '.' !in pkg && ';' !in pkg
    ensures Interpret(GoIdent, TrimRight(pkg)) == Answer(pkg) <==> TrimRight(pkg) == pkg
  {
    hide TrimRight;
    assert forall c :: c in TrimRight(pkg) ==> c in pkg;
  }

  // ---- the round trip -----------------------------------------------------------------

  lemma PreambleIsLines(f: Family, pkg: string)
    requires '\n' !in pkg
    ensures forall l :: l in PreambleLines(f, pkg) ==> '\n' !in l
  {
  }

  /** The lines of a whole added file. */
  lemma LinesOfAdded(f: Family, pkg: string, symbol: string, n: nat)
    requires Clause(f) != Absent && '\n' !in symbol && '\n' !in pkg
    ensures Lines(Added(f, pkg, symbol, n)) == PreambleLines(f, pkg) + DeclarationLines(f, symbol, n) + [""]
  {
    hide DeclarationLines, PreambleLines, AppendedLines, Unlines, Split;
    GeneratedLinesAreLines(f, symbol, n);
    GeneratedLinesAreSkipped(f, symbol, n);
    PreambleIsLines(f, pkg);
    LinesOfUnlines(PreambleLines(f, pkg) + DeclarationLines(f, symbol, n));
  }

  /** Below a clause line, nothing of an added file answers. */
  lemma AddedReadsItsClauseLine(f: Family, symbol: string, n: nat, preamble: seq<string>)
    requires Clause(f) != Absent && (preamble == [] || (|preamble| == 2 && preamble[1] == ""))
    ensures ReadLines(Clause(f), preamble + DeclarationLines(f, symbol, n) + [""]) ==
            if preamble == [] || ReadLine(Clause(f), preamble[0]) == Skip then ""
            else ReadLine(Clause(f), preamble[0]).name
  {
    hide ReadLine, DeclarationLines;
    GeneratedLinesAreSkipped(f, symbol, n);
    BlankIsSkipped(Clause(f));
    var shape := Clause(f);
    var tail := DeclarationLines(f, symbol, n) + [""];
    assert preamble + DeclarationLines(f, symbol, n) + [""] == preamble + tail;
    SkippedTail(shape, preamble, tail);
    if preamble != [] {
      assert preamble == [preamble[0]] + [""];
      SkippedTail(shape, [preamble[0]], [""]);
    }
  }

  /** A freshly added file reads back as the clause it was rendered with, on exactly the names that survive. */
  lemma FreshClauseRoundTrip(f: Family, pkg: string, symbol: string, n: nat)
    requires '\n' !in symbol
    requires Clause(f) != Absent
    ensures Read(Clause(f), Added(f, pkg, symbol, n)) == pkg <==> Survives(f, pkg)
  {
    hide Added, DeclarationLines, ReadLine, Split;
    var raw := Added(f, pkg, symbol, n);
    SplitPartsAreFree(raw, '\n');
    ReadingsAreUnbroken(Clause(f), Lines(raw));
    if Unbroken(pkg) && (f == Go ==> '.' !in pkg && ';' !in pkg) {
      LinesOfAdded(f, pkg, symbol, n);
      AddedReadsItsClauseLine(f, symbol, n, PreambleLines(f, pkg));
      if pkg != "" {
        if f == Java {
          WrittenJavaLine(pkg);
          assert "package " + pkg + ";" == "package " + (pkg + ";");
        } else if f == Kotlin {
          WrittenKotlinLine(pkg);
        } else {
          WrittenGoLine(pkg);
        }
      } else if f == Go {
        GoPlaceholder();
      }
    }
  }

  /** Without a clause the Go preamble falls back to a placeholder, which is not empty. */
  lemma GoPlaceholder()
    ensures ReadLine(GoIdent, "package " + "main") == Answer("main")
  {
    ContainsNeedsItsStart("main", "//");
    ContainsNeedsItsStart("main", "/*");
    WrittenGoLine("main");
  }
}
