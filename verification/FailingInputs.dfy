/** Concrete inputs at which the planner and the clause round trip fall short of what their comments say. */
module FailingInputs {
  import opened Text
  import Paths
  import opened SourceFamily
  import opened PackageClause
  import opened FreshClause
  import opened ChangeSequence
  import opened ChangePlanner

  // ---- the planner ------------------------------------------------------------------------

  lemma {:induction false} NotFound(table: seq<Family>, ext: string)
    requires forall f :: f in table ==> ext !in Exts(f)
    ensures FindFamily(table, ext) == None
  {
    hide Exts;
    if table != [] {
      assert table[0] in table;
      NotFound(table[1..], ext);
    }
  }

  lemma NobodyOwnsTxt(f: Family)
    ensures ".txt" !in Exts(f)
  {
    match f
    case Go => case Java => case Kotlin => case Python => case TypeScript => case Tsx => case JavaScript =>
    case Ruby => case Rust => case C => case Cpp => case CSharp => case Php => case Lua => case Bash =>
  }

  /** No text file can be changed. */
  lemma TextFile(stem: string)
    requires '/' !in stem
    ensures !Mutable(stem + ".txt")
  {
    var ext := ".txt";
    assert ext[1..] == ['t', 'x', 't'];
    assert '/' !in stem + ext;
    assert Paths.Lower(ext) == ext;
    hide Exts, Paths.ElementExt, Paths.Base, Paths.Lower;
    Paths.BaseOfJoined("", stem + ext);
    ExtensionOf(stem, ext);
    forall f | f in SourceFamilies ensures ext !in Exts(f) {
      NobodyOwnsTxt(f);
    }
    NotFound(SourceFamilies, ext);
  }

  /** One text file and one wanted change: the planner, documented as total, never returns. */
  lemma TextFileAloneLoopsForever()
    ensures !Terminates(SequenceInput(["a.txt"], map[], [], 1))
  {
    var input := SequenceInput(["a.txt"], map[], [], 1);
    hide Mutable, Terminates, After;
    TextFile("a");
    assert "a.txt" == "a" + ".txt";
    TerminatesIffPlannable(input);
  }

  const Sparse := SequenceInput(["a.txt", "b.txt", "c.txt", "d.txt", "e.txt", "a.py"], map[], [], 4)

  lemma SparseFilesAreText(k: nat)
    requires k < 5
    ensures !Mutable(Anchor(Sparse, k))
  {
    var names := ["a", "b", "c", "d", "e"];
    hide Mutable;
    TextFile(names[k]);
    assert Sparse.files[k] == names[k] + ".txt";
  }

  lemma PythonFile()
    ensures FamilyForPath("a.py") == Some(Python)
  {
    var name, ext := "a.py", ".py";
    assert '/' !in name && ext[1..] == ['p', 'y'] && name == "a" + ext;
    hide FamilyForPath, Paths.ElementExt, Paths.Base;
    Paths.BaseOfJoined("", name);
    ExtensionOf("a", ext);
    FamilyOfElement(Python, name, name);
  }

  lemma {:induction false} SparseIsUnproductive(k: nat)
    requires k <= 5
    ensures Productive(Sparse, k) == 0
  {
    hide Mutable, Anchor;
    if k > 0 {
      SparseIsUnproductive(k - 1);
      SparseFilesAreText(k - 1);
    }
  }

  lemma OneCycle(input: SequenceInput)
    ensures input.targets == [] ==> Cycles(input, 1) == 3
  {
  }

  /** A plan of four changes over a list whose first five files cannot be changed stops after one cycle of three. */
  lemma LateSourceIsCutShort(input: SequenceInput, k: nat)
    requires input.files != [] && input.targets == [] && input.count == 4
    requires Productive(input, 5) == 0 && !Running(input, After(input, k))
    ensures |After(input, k).steps| < input.count
  {
    hide *;
    OneCycle(input);
    FullLengthIff(input, k);
  }

  lemma SparsePlans()
    ensures Plannable(Sparse)
  {
    PythonFile();
    hide FamilyForPath;
    assert Sparse.files[5] == "a.py" && Sparse.files[5] in Sparse.files;
  }

  /** Five text files before the only source file: four changes are wanted, the planner stops, and it has fewer. */
  lemma SparseListIsCutShort()
    ensures Terminates(Sparse)
    ensures forall k: nat :: !Running(Sparse, After(Sparse, k)) ==> |After(Sparse, k).steps| < 4
  {
    SparsePlans();
    SparseIsUnproductive(5);
    hide *;
    TerminatesIffPlannable(Sparse);
    forall k: nat | !Running(Sparse, After(Sparse, k))
      ensures |After(Sparse, k).steps| < 4
    {
      LateSourceIsCutShort(Sparse, k);
    }
  }

  // ---- the clause round trip --------------------------------------------------------------

  lemma OneLine(shape: ClauseShape, line: string, name: string)
    requires shape != Absent && '\n' !in line && ReadLine(shape, line) == Answer(name)
    ensures Read(shape, line) == name
  {
    hide ReadLine, Split;
    SplitWithoutSeparator(line, '\n');
  }

  lemma TerminatorGoes(name: string)
    requires name != "" && Unbroken(name)
    ensures Read(JvmDotted, "package " + (name + ";")) == name
  {
    var head := "package ";
    assert '\n' !in head && '\n' !in head + (name + ";");
    hide ReadLine, Unbroken, Read;
    WrittenJavaLine(name);
    OneLine(JvmDotted, head + (name + ";"), name);
  }

  lemma KeepsUnbroken(name: string)
    requires name != "" && Unbroken(name)
    ensures Unbroken(name + ";")
  {
    ContainsBeforeTerminator(name, "//");
    ContainsBeforeTerminator(name, "/*");
    hide Contains;
    assert (name + ";")[0] == name[0];
  }

  lemma SiblingLosesItsTerminator(name: string, symbol: string, n: nat)
    requires name != "" && Unbroken(name) && '\n' !in symbol
    ensures Read(JvmDotted, Added(Kotlin, name + ";", symbol, n)) == name
  {
    KeepsUnbroken(name);
    var pkg := name + ";";
    assert '\n' !in pkg && PreambleLines(Kotlin, pkg) == ["package " + pkg, ""];
    hide ReadLine, Unbroken, DeclarationLines, PreambleLines, Split, Added;
    WrittenJavaLine(name);
    LinesOfAdded(Kotlin, pkg, symbol, n);
    AddedReadsItsClauseLine(Kotlin, symbol, n, PreambleLines(Kotlin, pkg));
  }

  /** A Kotlin file `package x;;` reads as `x;`, and the sibling written with that name reads back as `x`. */
  lemma KotlinTerminatorIsLost(name: string, symbol: string, n: nat)
    requires name != "" && Unbroken(name) && '\n' !in symbol
    ensures Read(Clause(Kotlin), "package " + (name + ";" + ";")) == name + ";"
    ensures Read(Clause(Kotlin), Added(Kotlin, name + ";", symbol, n)) == name
  {
    KeepsUnbroken(name);
    hide Read, Unbroken, Added;
    TerminatorGoes(name + ";");
    SiblingLosesItsTerminator(name, symbol, n);
  }

  lemma PlainName()
    ensures Unbroken("a")
  {
    ContainsNeedsItsStart("a", "//");
    ContainsNeedsItsStart("a", "/*");
    hide Contains;
  }

  /** The Kotlin file `package a;;` reads as `a;`, and every sibling written with that name reads back as `a`. */
  lemma TwoTerminatorsAreNotKept(n: nat)
    ensures Read(Clause(Kotlin), "package a;;") == "a;"
    ensures Read(Clause(Kotlin), Added(Kotlin, "a;", ChangeSymbol(n), n)) == "a"
  {
    PlainName();
    SymbolsArePlain(n);
    assert "package " + ("a" + ";" + ";") == "package a;;" && "a" + ";" == "a;";
    hide *;
    KotlinTerminatorIsLost("a", ChangeSymbol(n), n);
  }
}
