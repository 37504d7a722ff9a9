/** Where the convergence theorem applies: every admitted file list over a tree without generated names. */
module PinnedTrees {
  import opened Text
  import opened Decimal
  import opened SourceFamily
  import opened PackageClause
  import opened FreshClause
  import opened ChangeSequence
  import opened ChangePlanner
  import opened Checkout
  import opened Convergence
  import opened LineScanner
  import opened IncrementalDriver
  import opened AnyWeather
  import opened Completion
  import Admission
  import Paths
  import FailingInputs

  // ---- the line scanner sees every plan ----------------------------------------------------

  lemma ScanSeesAnAppend(input: SequenceInput, pinned: Tree, i: nat, p: string)
    requires input.files != [] && FamilyFiltered(input) && p in pinned
    requires Edits(input, i, p) && (forall t :: t in input.targets ==> Mutable(t))
    ensures SeesAppend(input, Scan, pinned, i, p)
  {
    hide FamilyForPath, StepAt, AppendTo, ChangeSymbol, Scan, Declares;
    StepShape(input, i);
    var f := FamilyForPath(p).value;
    var before, after := ContentAfter(input, pinned, i, p), ContentAfter(input, pinned, i + 1, p);
    assert after == AppendTo(f, before, ChangeSymbol(i + 1), i + 1);
    hide ContentAfter;
    forall k: nat
      ensures Declares(Scan, p, after, k) <==> Declares(Scan, p, before, k) || k == i + 1
    {
      ScanSeesAppends(f, p, before, i + 1, k);
    }
  }

  lemma ScanSeesAnAddition(input: SequenceInput, i: nat)
    requires input.files != [] && FamilyFiltered(input) && StepAt(input, i).class_ == Add
    requires forall key :: key in input.packages ==> Unbroken(input.packages[key])
    ensures SeesAddition(input, Scan, i)
  {
    hide FamilyForPath, StepAt, Added, ChangeSymbol, AddedFilePath, Scan, Unbroken, Declares;
    StepShape(input, i);
    var s := StepAt(input, i);
    var dir, f := AddShape(input, i);
    AddedFileFamily(dir, f, i + 1);
    EmptyIsUnbroken();
    forall k: nat
      ensures Declares(Scan, s.path, AddedFileContent(s), k) <==> k == i + 1
    {
      ScanSeesAdditions(f, s.path, s.pkg, i + 1, k);
    }
  }

  /** The convergence theorem's demands are met: this extraction sees every plan, in all fifteen families. */
  lemma LineScannerIsFaithful(input: SequenceInput, pinned: Tree, n: nat)
    requires input.files != [] && FamilyFiltered(input) && (forall t :: t in input.targets ==> Mutable(t))
    requires forall key :: key in input.packages ==> Unbroken(input.packages[key])
    ensures Faithful(input, Scan, pinned, n)
  {
    hide FamilyForPath, StepAt, Edits, Scan, Unbroken, SeesAppend, SeesAddition;
    forall p, i: nat | p in pinned && i < n && Edits(input, i, p)
      ensures SeesAppend(input, Scan, pinned, i, p)
    {
      ScanSeesAnAppend(input, pinned, i, p);
    }
    forall i: nat | i < n && StepAt(input, i).class_ == Add
      ensures SeesAddition(input, Scan, i)
    {
      ScanSeesAnAddition(input, i);
    }
  }

  // ---- the line scanner in bad weather -----------------------------------------------------

  lemma ScanOwnsAppend(input: SequenceInput, i: nat, tree: Tree)
    requires input.files != [] && FamilyFiltered(input) && (forall t :: t in input.targets ==> Mutable(t))
    requires StepAt(input, i).class_ == Modify || StepAt(input, i).class_ == CrossPackage
    requires var p := StepAt(input, i).path; p in tree && OwnNames(input, i, p, Scan(p, tree[p]))
    ensures var s := StepAt(input, i);
            var names := Scan(s.path, ModifiedFileContent(tree[s.path], s));
            OwnNames(input, i + 1, s.path, names) && NamesBare(names, ChangeSymbol(i + 1))
  {
    hide FamilyForPath, StepAt, AppendTo, ChangeSymbol, Scan, NamesBare;
    StepShape(input, i);
    var s := StepAt(input, i);
    var p, f := s.path, FamilyForPath(s.path).value;
    var text := ModifiedFileContent(tree[p], s);
    assert text == AppendTo(f, tree[p], ChangeSymbol(i + 1), i + 1);
    forall k: nat
      ensures Declares(Scan, p, text, k) <==> Declares(Scan, p, tree[p], k) || k == i + 1
    {
      ScanSeesAppends(f, p, tree[p], i + 1, k);
    }
    assert Declares(Scan, p, text, i + 1);
    forall k: nat | NamesBare(Scan(p, text), ChangeSymbol(k))
      ensures 1 <= k <= i + 1 && Writes(input, k - 1, p)
    {
      assert Declares(Scan, p, text, k);
    }
  }

  lemma ScanOwnsAddition(input: SequenceInput, i: nat)
    requires input.files != [] && FamilyFiltered(input) && StepAt(input, i).class_ == Add
    requires forall key :: key in input.packages ==> Unbroken(input.packages[key])
    ensures var s := StepAt(input, i);
            var names := Scan(s.path, AddedFileContent(s));
            OwnNames(input, i + 1, s.path, names) && NamesBare(names, ChangeSymbol(i + 1))
  {
    hide FamilyForPath, StepAt, AddedFileContent, ChangeSymbol, Scan, NamesBare, Unbroken;
    ScanSeesAnAddition(input, i);
    var s := StepAt(input, i);
    assert Declares(Scan, s.path, AddedFileContent(s), i + 1);
    forall k: nat | NamesBare(Scan(s.path, AddedFileContent(s)), ChangeSymbol(k))
      ensures 1 <= k <= i + 1 && Writes(input, k - 1, s.path)
    {
      assert Declares(Scan, s.path, AddedFileContent(s), k);
    }
  }

  lemma ScanSeesAWrite(input: SequenceInput, rig: Rig, i: nat, w: World)
    requires input.files != [] && FamilyFiltered(input) && (forall t :: t in input.targets ==> Mutable(t))
    requires forall key :: key in input.packages ==> Unbroken(input.packages[key])
    requires rig.extract == Scan && Attributed(input, Scan, i, w) && !rig.env.apply(w.applies).CutShort?
    requires rig.env.ingest(w.ingests).Leaves? ==> rig.env.ingest(w.ingests).entry == None
    ensures SeesWrite(input, rig, w, i)
  {
    hide FamilyForPath, StepAt, ModifiedFileContent, AddedFileContent, ChangeSymbol, Scan, NamesBare, OwnNames,
         Unbroken;
    var s := StepAt(input, i);
    if Wrote(w.tree, s, rig.env.apply(w.applies)) {
      if s.class_ == Add {
        ScanOwnsAddition(input, i);
      } else {
        ScanOwnsAppend(input, i, w.tree);
      }
    }
  }

  /** The demands of the completion theorem are met: while no write is cut short and no failed ingest leaves
      an entry of its own, the line scanner sees every run. */
  lemma {:induction false} ScanSeesUncutRuns(input: SequenceInput, rig: Rig, pinned: Tree, n: nat, w: World)
    requires Pinned(input, Scan, pinned) && rig.extract == Scan
    requires forall key :: key in input.packages ==> Unbroken(input.packages[key])
    requires w.tree == pinned && w.index == FullIndex(Scan, pinned)
    requires forall k: nat :: !rig.env.apply(k).CutShort?
    requires forall k: nat :: rig.env.ingest(k).Leaves? ==> rig.env.ingest(k).entry == None
    ensures SeesRun(input, rig, w, n)
  {
    hide FamilyForPath, StepAt, WorldAfter, Scan, SeesWrite, Attributed, Unbroken, GeneratedPath, Declares;
    if n > 0 {
      ScanSeesUncutRuns(input, rig, pinned, n - 1, w);
      AttributedRun(input, rig, pinned, n - 1, w);
      ScanSeesAWrite(input, rig, n - 1, WorldAfter(input, rig, w, n - 1));
    }
  }

  // ---- a parser that refuses texts ---------------------------------------------------------

  /** The line scanner behind a parser that answers nothing for a Go text without a package clause. */
  function ClauseScan(p: string, content: string): set<string> {
    if FamilyForPath(p) == Some(Go) && Read(GoIdent, content) == "" then {} else Scan(p, content)
  }

  lemma SameAnswer(p: string, content: string, k: nat)
    requires ClauseScan(p, content) == Scan(p, content)
    ensures Declares(ClauseScan, p, content, k) == Declares(Scan, p, content, k)
  {
    hide ClauseScan, Scan, ChangeSymbol, NamesBare;
  }

  /** It sees no declaration appended to an empty Go file. */
  lemma ClauseScanRefuses(p: string, n: nat)
    requires FamilyForPath(p) == Some(Go)
    ensures ClauseScan(p, AppendTo(Go, "", ChangeSymbol(n), n)) == {}
  {
    hide FamilyForPath, AppendTo, ChangeSymbol, Scan, Read;
    SymbolsArePlain(n);
    EditKeepsClause(Go, "", ChangeSymbol(n), n);
    EmptyHasNoClause();
  }

  lemma EmptyHasNoClause()
    ensures Read(GoIdent, "") == ""
  {
    BlankIsSkipped(GoIdent);
    hide ReadLine;
    assert Lines("") == [""];
  }

  /** No planned append changes what the clause reader finds in a pinned file. */
  lemma {:induction false} ContentKeepsClause(input: SequenceInput, pinned: Tree, i: nat, p: string, f: Family)
    requires input.files != [] && FamilyFiltered(input) && p in pinned && FamilyForPath(p) == Some(f)
    ensures Read(Clause(f), ContentAfter(input, pinned, i, p)) == Read(Clause(f), pinned[p])
  {
    hide FamilyForPath, StepAt, AppendTo, ChangeSymbol, Read;
    if i > 0 {
      ContentKeepsClause(input, pinned, i - 1, p, f);
      StepShape(input, i - 1);
      if Edits(input, i - 1, p) {
        SymbolsArePlain(i);
        EditKeepsClause(f, ContentAfter(input, pinned, i - 1, p), ChangeSymbol(i), i);
      }
    }
  }

  /** A new Go file has a readable clause when its directory's survives rendering, or when there is none to join. */
  lemma AddedGoFileHasAClause(pkg: string, symbol: string, n: nat)
    requires '\n' !in symbol && (pkg == "" || Survives(Go, pkg))
    ensures Read(GoIdent, Added(Go, pkg, symbol, n)) != ""
  {
    hide Read, Added;
    if pkg == "" {
      PlaceholderClause(symbol, n);
      MainSurvives();
      FreshClauseRoundTrip(Go, "main", symbol, n);
    } else {
      FreshClauseRoundTrip(Go, pkg, symbol, n);
    }
  }

  lemma PlaceholderClause(symbol: string, n: nat)
    ensures Added(Go, "", symbol, n) == Added(Go, "main", symbol, n)
  {
    hide Unlines, DeclarationLines;
  }

  lemma MainSurvives()
    ensures Survives(Go, "main")
  {
    ContainsNeedsItsStart("main", "//");
    ContainsNeedsItsStart("main", "/*");
  }

  lemma ClauseScanSeesAnAddition(input: SequenceInput, i: nat)
    requires input.files != [] && FamilyFiltered(input) && StepAt(input, i).class_ == Add
    requires forall key :: key in input.packages ==> Unbroken(input.packages[key])
    requires var s := StepAt(input, i); FamilyForPath(s.path) == Some(Go) ==> s.pkg == "" || Survives(Go, s.pkg)
    ensures SeesAddition(input, ClauseScan, i)
  {
    hide FamilyForPath, StepAt, Added, ChangeSymbol, Scan, Read, Unbroken, Survives;
    StepShape(input, i);
    ScanSeesAnAddition(input, i);
    var s := StepAt(input, i);
    SymbolsArePlain(i + 1);
    if FamilyForPath(s.path) == Some(Go) {
      AddedGoFileHasAClause(s.pkg, s.symbol, s.index);
    }
    var c := AddedFileContent(s);
    assert ClauseScan(s.path, c) == Scan(s.path, c);
    hide ClauseScan, AddedFileContent, Declares;
    forall k: nat
      ensures Declares(ClauseScan, s.path, c, k) <==> k == i + 1
    {
      SameAnswer(s.path, c, k);
    }
  }

  lemma SameAppend(input: SequenceInput, pinned: Tree, i: nat, p: string)
    requires input.files != [] && FamilyFiltered(input) && p in pinned && SeesAppend(input, Scan, pinned, i, p)
    requires var c := ContentAfter(input, pinned, i, p); ClauseScan(p, c) == Scan(p, c)
    requires var c := ContentAfter(input, pinned, i + 1, p); ClauseScan(p, c) == Scan(p, c)
    ensures SeesAppend(input, ClauseScan, pinned, i, p)
  {
    hide FamilyForPath, StepAt, ClauseScan, Scan, ContentAfter, Declares;
    var before, after := ContentAfter(input, pinned, i, p), ContentAfter(input, pinned, i + 1, p);
    forall k: nat
      ensures Declares(ClauseScan, p, after, k) <==> Declares(ClauseScan, p, before, k) || k == i + 1
    {
      SameAnswer(p, before, k);
      SameAnswer(p, after, k);
    }
  }

  predicate AddsGo(input: SequenceInput, i: nat)
    requires input.files != [] && FamilyFiltered(input)
  {
    StepAt(input, i).class_ == Add && FamilyForPath(StepAt(input, i).path) == Some(Go)
  }

  /** A parser that refuses such texts still sees the plan, when the pinned Go files parse and their clauses survive. */
  lemma ClauseScannerIsFaithful(input: SequenceInput, pinned: Tree, n: nat)
    requires input.files != [] && FamilyFiltered(input) && (forall t :: t in input.targets ==> Mutable(t))
    requires forall key :: key in input.packages ==> Unbroken(input.packages[key])
    requires forall p :: p in pinned && FamilyForPath(p) == Some(Go) ==> Read(GoIdent, pinned[p]) != ""
    requires forall i: nat :: i < n && AddsGo(input, i) ==>
      StepAt(input, i).pkg == "" || Survives(Go, StepAt(input, i).pkg)
    ensures Faithful(input, ClauseScan, pinned, n)
  {
    hide FamilyForPath, StepAt, Edits, Scan, Read, Unbroken, Survives, SeesAddition, ContentAfter;
    forall p, i: nat | p in pinned && i < n && Edits(input, i, p)
      ensures SeesAppend(input, ClauseScan, pinned, i, p)
    {
      ScanSeesAnAppend(input, pinned, i, p);
      if FamilyForPath(p) == Some(Go) {
        ContentKeepsClause(input, pinned, i, p, Go);
        ContentKeepsClause(input, pinned, i + 1, p, Go);
      }
      SameAppend(input, pinned, i, p);
    }
    forall i: nat | i < n && StepAt(input, i).class_ == Add
      ensures SeesAddition(input, ClauseScan, i)
    {
      ClauseScanSeesAnAddition(input, i);
    }
  }

  // ---- admitted lists ----------------------------------------------------------------------

  /** A clause the harness recorded can be written back on one line. */
  lemma RecordedClausesAreUnbroken(packages: map<string, string>, indexed: seq<Admission.IndexedFile>)
    requires Admission.Witnessed(packages, indexed)
    ensures forall key :: key in packages ==> Unbroken(packages[key])
  {
    hide FamilyForPath, Unbroken, Read, Admission.ModifiableFamily, PackageKey;
    forall key | key in packages
      ensures Unbroken(packages[key])
    {
      var x :| x in indexed && Admission.Declared(x, key) == Some(packages[key]);
      var f := Admission.ModifiableFamily(x.path, x.parses).value;
      ReadingIsUnbroken(Clause(f), x.raw.value);
    }
  }

  lemma ReadingIsUnbroken(shape: ClauseShape, raw: string)
    ensures Unbroken(Read(shape, raw))
  {
    SplitPartsAreFree(raw, '\n');
    hide ReadLine, Unbroken, Split;
    EmptyIsUnbroken();
    if shape != Absent {
      ReadingsAreUnbroken(shape, Lines(raw));
    }
  }

  /** The admitted candidates of any index, over a tree that holds them and nothing generated, are what the theorem
      asks for. */
  lemma AdmittedFilesArePinned(indexed: seq<Admission.IndexedFile>, files: seq<string>, packages: map<string, string>,
                               targets: seq<string>, count: int, extract: Extractor, tree: Tree)
    requires files != [] && (forall p :: p in files ==> Mutable(p)) && Admission.Witnessed(packages, indexed)
    requires (forall p :: p in targets ==> Mutable(p)) && (forall p :: p in files || p in targets ==> p in tree)
    requires forall p :: p in tree ==> !GeneratedPath(p)
    requires forall p, k: nat :: p in tree ==> !Declares(extract, p, tree[p], k)
    ensures var input := SequenceInput(files, packages, targets, count);
            Pinned(input, extract, tree) && Faithful(input, Scan, tree, Wanted(input))
  {
    hide FamilyForPath, Unbroken, GeneratedPath, Declares, Faithful, Admission.Witnessed;
    RecordedClausesAreUnbroken(packages, indexed);
    var input := SequenceInput(files, packages, targets, count);
    LineScannerIsFaithful(input, tree, Wanted(input));
  }

  /** Every planned add of the admitted candidates carries the clause that the first indexed file of its own directory
      and
      family declares, in index order; a planned Go file always carries one. */
  lemma AddsCarryTheFirstClause(indexed: seq<Admission.IndexedFile>, files: seq<string>, targets: seq<string>,
                                count: int, i: nat)
    requires files != [] && forall p :: p in files <==> p in Admission.AdmittedPaths(indexed)
    ensures var input := SequenceInput(files, Admission.TableAfter(indexed), targets, count);
            && FamilyFiltered(input)
            && (StepAt(input, i).class_ == Add ==>
                  var s := StepAt(input, i);
                  && FamilyForPath(s.path).Some?
                  && var f := FamilyForPath(s.path).value;
                     var first := Admission.FirstDeclared(indexed, PackageKey(Paths.Dir(s.path), f));
                     && s.pkg == (if first.Some? then first.value else "")
                     && (f == Go ==> s.pkg != ""))
  {
    hide FamilyForPath, StepAt, Paths.Dir, PackageKey, Admission.AdmittedPaths, Admission.TableAfter,
         Admission.FirstDeclared;
    Admission.AdmittedAreJoinable(indexed);
    var packages := Admission.TableAfter(indexed);
    var input := SequenceInput(files, packages, targets, count);
    if StepAt(input, i).class_ == Add {
      AddJoinsItsDirectory(input, i);
      var s := StepAt(input, i);
      var base := files[(i / (if targets == [] then 3 else 4)) % |files|];
      var key := PackageKey(Paths.Dir(s.path), FamilyForPath(s.path).value);
      Admission.TableHoldsTheFirst(indexed, key);
      assert base in files && Admission.Joinable(packages, base);
    }
  }

  /** What a planned edit makes of a text: its own lines, a blank one where the last was not ended, and one declaration
      of
      the step's symbol and number, in the language of the file that is edited. */
  lemma EditedText(input: SequenceInput, i: nat, before: string) returns (f: Family)
    requires input.files != [] && FamilyFiltered(input) && (forall t :: t in input.targets ==> Mutable(t))
    requires StepAt(input, i).class_ == Modify || StepAt(input, i).class_ == CrossPackage
    ensures FamilyForPath(StepAt(input, i).path) == Some(f)
    ensures var gap := if before != "" && before[|before| - 1] != '\n' then [""] else [];
            Lines(ModifiedFileContent(before, StepAt(input, i))) ==
              Lines(before) + gap + (AppendedLines(f, ChangeSymbol(i + 1), i + 1) + [""])
  {
    hide FamilyForPath, StepAt, AppendTo, ChangeSymbol, AppendedLines, Split;
    StepShape(input, i);
    var s := StepAt(input, i);
    assert Mutable(s.path);
    f := FamilyForPath(s.path).value;
    SymbolsArePlain(i + 1);
    var gap := LinesOfEdit(f, before, ChangeSymbol(i + 1), i + 1);
  }

  /** What a planned add writes, in a family that declares packages: the clause and one declaration of the step's symbol
      and number; and exactly when the clause reads back from the new file as the one that was recorded. */
  lemma AddedText(input: SequenceInput, i: nat)
    requires input.files != [] && FamilyFiltered(input) && StepAt(input, i).class_ == Add
    requires forall key :: key in input.packages ==> Unbroken(input.packages[key])
    ensures var s := StepAt(input, i);
            && FamilyForPath(s.path).Some?
            && var f, text := FamilyForPath(s.path).value, AddedFileContent(s);
               && (Clause(f) != Absent ==>
                     && Lines(text) ==
                        PreambleLines(f, s.pkg) + DeclarationLines(f, ChangeSymbol(i + 1), i + 1) + [""]
                     && (Read(Clause(f), text) == s.pkg <==> Survives(f, s.pkg)))
  {
    hide FamilyForPath, StepAt, Paths.Dir, AddedFilePath, PackageKey, ChangeSymbol, DeclarationLines, PreambleLines,
         Unbroken, Survives, Read, Split, Added;
    StepShape(input, i);
    AddJoinsItsDirectory(input, i);
    var s := StepAt(input, i);
    var f := FamilyForPath(s.path).value;
    SymbolsArePlain(i + 1);
    if Clause(f) != Absent {
      RecordedIsOneLine(input, s.pkg);
      LinesOfAdded(f, s.pkg, ChangeSymbol(i + 1), i + 1);
      FreshClauseRoundTrip(f, s.pkg, ChangeSymbol(i + 1), i + 1);
    }
  }

  lemma RecordedIsOneLine(input: SequenceInput, pkg: string)
    requires forall key :: key in input.packages ==> Unbroken(input.packages[key])
    requires pkg == "" || exists key :: key in input.packages && pkg == input.packages[key]
    ensures '\n' !in pkg
  {
    hide Contains;
  }

  /** A tree of one empty Python file meets every demand, for any count. */
  lemma PinnedTreeExists(count: int)
    ensures var input, tree := SequenceInput(["a.py"], map[], [], count), map["a.py" := ""];
            Pinned(input, Scan, tree) && Faithful(input, Scan, tree, Wanted(input))
  {
    FailingInputs.PythonFile();
    hide Unbroken, Declares, GeneratedPath, Scan, Faithful, StepAt, FamilyForPath;
    var input := SequenceInput(["a.py"], map[], [], count);
    assert forall p :: p in input.files <==> p == "a.py";
    LineScannerIsFaithful(input, map["a.py" := ""], Wanted(input));
    forall k: nat ensures !Declares(Scan, "a.py", "", k) {
      EmptyDeclaresNothing("a.py", k);
    }
    GeneratedPathsAreLong("a.py");
  }

  lemma EmptyDeclaresNothing(p: string, k: nat)
    requires FamilyForPath(p).Some?
    ensures !Declares(Scan, p, "", k)
  {
    var f := FamilyForPath(p).value;
    hide FamilyForPath, ChangeSymbol, Declares, SomeLine;
    DeclaresByLine(f, p, "", k);
    FillersDeclareNothing(f, Lines(""), k);
  }

  lemma GeneratedPathsAreLong(p: string)
    ensures GeneratedPath(p) ==> |p| >= 18
  {
    hide Exts, Padded;
    if dir: string, f: Family, n: nat :| p == AddedFilePath(dir, f, ChangeSymbol(n), n) {
      GeneratedNamesAreLong(f, n);
    }
  }

  lemma GeneratedNamesAreLong(f: Family, n: nat)
    ensures |AddedFileBase(f, ChangeSymbol(n), n)| >= 18
  {
    assert |"GraphiEvalStep"| == 14 && |"graphi_eval_step"| == 16 && |Padded(n)| >= 4;
    hide Exts;
  }
}
