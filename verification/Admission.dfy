/** Which indexed files the sequence may change, and the package clause an added sibling joins. */
module Admission {
  import opened Text
  import opened Paths
  import opened SourceFamily
  import opened ChangeSequence
  import opened PackageClause
  import opened FreshClause
  import opened Sorting

  predicate VendoredPart(part: string) {
    part == "vendor" || part == "testdata" || part == "third_party" || part == "node_modules"
  }

  /** `parses` is the shipped registry's answer for p. */
  function ModifiableFamily(p: string, parses: bool): Option<Family> {
    if exists part :: part in Split(p, '/') && VendoredPart(part) then None
    else if FamilyForPath(p).Some? && parses then FamilyForPath(p)
    else None
  }

  /** An indexed path, its bytes when they could be read, and whether the registry parses it. */
  datatype IndexedFile = IndexedFile(path: string, raw: Option<string>, parses: bool)

  class PackageTable {
    var packages: map<string, string>

    constructor ()
      ensures packages == map[]
    {
      packages := map[];
    }

    /** The directory gate: the first clause a family declares in a directory is the one recorded. */
    method Admit(p: string, raw: string, parses: bool) returns (admitted: bool)
      modifies this
      ensures packages == Recorded(old(packages), p, raw, parses)
      ensures admitted <==> Admitted(old(packages), p, raw, parses)
    {
      hide FamilyForPath, Dir, Read, PackageKey;
      var family := ModifiableFamily(p, parses);
      if family == None {
        return false;
      }
      var f := family.value;
      var key := PackageKey(Dir(p), f);
      if key !in packages {
        var pkg := ReadPackageClause(Clause(f), raw);
        if pkg != "" {
          packages := packages[key := pkg];
        }
      }
      return !ClauseRequired(f) || Lookup(packages, key) != "";
    }
  }

  function Recorded(packages: map<string, string>, p: string, raw: string, parses: bool): map<string, string> {
    match ModifiableFamily(p, parses)
    case None => packages
    case Some(f) =>
      var key := PackageKey(Dir(p), f);
      var pkg := Read(Clause(f), raw);
      if key in packages || pkg == "" then packages else packages[key := pkg]
  }

  predicate Admitted(packages: map<string, string>, p: string, raw: string, parses: bool) {
    match ModifiableFamily(p, parses)
    case None => false
    case Some(f) => ClauseRequired(f) ==> Lookup(Recorded(packages, p, raw, parses), PackageKey(Dir(p), f)) != ""
  }

  /** Every entry is a clause that the reader found in some indexed file of that directory and family. */
  ghost predicate Witnessed(packages: map<string, string>, indexed: seq<IndexedFile>) {
    forall key :: key in packages ==> exists x :: x in indexed && Declared(x, key) == Some(packages[key])
  }

  /** The clause a file declares for its directory and family, or None when it is unreadable, unmodifiable or silent. */
  function Declared(x: IndexedFile, key: string): Option<string> {
    match ModifiableFamily(x.path, x.parses)
    case None => None
    case Some(f) =>
      if x.raw == None || PackageKey(Dir(x.path), f) != key || Read(Clause(f), x.raw.value) == "" then None
      else Some(Read(Clause(f), x.raw.value))
  }

  /** A Go file is listed only beside a recorded clause. */
  ghost predicate Joinable(packages: map<string, string>, p: string) {
    && FamilyForPath(p).Some?
    && var f := FamilyForPath(p).value;
       ClauseRequired(f) ==> Lookup(packages, PackageKey(Dir(p), f)) != ""
  }

  lemma AdmittedIsJoinable(packages: map<string, string>, p: string, raw: string, parses: bool)
    requires Admitted(packages, p, raw, parses)
    ensures Joinable(Recorded(packages, p, raw, parses), p)
  {
    hide FamilyForPath, Dir, Read, PackageKey, Split;
  }

  lemma RecordingKeeps(packages: map<string, string>, x: IndexedFile, before: seq<IndexedFile>)
    requires x.raw.Some? && Witnessed(packages, before)
    ensures Witnessed(Recorded(packages, x.path, x.raw.value, x.parses), before + [x])
  {
    hide FamilyForPath, Dir, Read, PackageKey, Split;
    var after := Recorded(packages, x.path, x.raw.value, x.parses);
    forall key | key in after
      ensures exists y :: y in before + [x] && Declared(y, key) == Some(after[key])
    {
      if key in packages {
        var y :| y in before && Declared(y, key) == Some(packages[key]);
        assert y in before + [x];
      } else {
        assert x in before + [x] && Declared(x, key) == Some(after[key]);
      }
    }
  }

  // ---- the candidate list --------------------------------------------------------------

  /** The clause table once these files have been walked in order; an unreadable file leaves it alone. */
  function TableAfter(indexed: seq<IndexedFile>): map<string, string> {
    if indexed == [] then map[]
    else
      var x, before := indexed[|indexed| - 1], TableAfter(indexed[..|indexed| - 1]);
      if x.raw == None then before else Recorded(before, x.path, x.raw.value, x.parses)
  }

  /** The paths the gate lets through, in index order. */
  function AdmittedPaths(indexed: seq<IndexedFile>): seq<string> {
    if indexed == [] then []
    else
      var x, init := indexed[|indexed| - 1], indexed[..|indexed| - 1];
      if x.raw.Some? && Admitted(TableAfter(init), x.path, x.raw.value, x.parses) then AdmittedPaths(init) + [x.path]
      else AdmittedPaths(init)
  }

  lemma RecordedIsFirst(packages: map<string, string>, x: IndexedFile, key: string)
    requires x.raw.Some?
    ensures var after := Recorded(packages, x.path, x.raw.value, x.parses);
            (if key in after then Some(after[key]) else None) ==
              if key in packages then Some(packages[key]) else Declared(x, key)
  {
    hide FamilyForPath, Dir, Read, PackageKey, Split;
  }

  /** The first clause declared for a key, in index order. */
  function FirstDeclared(indexed: seq<IndexedFile>, key: string): Option<string> {
    if indexed == [] then None
    else
      var before := FirstDeclared(indexed[..|indexed| - 1], key);
      if before.Some? then before else Declared(indexed[|indexed| - 1], key)
  }

  /** The table holds exactly the first clause declared for each directory and family. */
  lemma {:induction false} TableHoldsTheFirst(indexed: seq<IndexedFile>, key: string)
    ensures (if key in TableAfter(indexed) then Some(TableAfter(indexed)[key]) else None) == FirstDeclared(indexed, key)
    ensures key in TableAfter(indexed) <==> exists j :: 0 <= j < |indexed| && Declared(indexed[j], key).Some?
    ensures key in TableAfter(indexed) ==> TableAfter(indexed)[key] != ""
  {
    hide Recorded, Declared;
    if indexed != [] {
      var x, init := indexed[|indexed| - 1], indexed[..|indexed| - 1];
      TableHoldsTheFirst(init, key);
      if x.raw.Some? {
        RecordedIsFirst(TableAfter(init), x, key);
      }
      DeclaredNeedsText(x, key);
      assert forall j :: 0 <= j < |init| ==> init[j] == indexed[j];
    }
  }

  lemma DeclaredNeedsText(x: IndexedFile, key: string)
    ensures Declared(x, key).Some? ==> x.raw.Some? && Declared(x, key).value != ""
  {
    hide FamilyForPath, Dir, Read, PackageKey, Split;
  }

  /** File i can be changed and read, and a family that needs a clause finds one in its directory by then. */
  ghost predicate AdmissibleAt(indexed: seq<IndexedFile>, i: int, p: string) {
    && 0 <= i < |indexed| && indexed[i].path == p && indexed[i].raw.Some?
    && ModifiableFamily(p, indexed[i].parses).Some?
    && var f := ModifiableFamily(p, indexed[i].parses).value;
       ClauseRequired(f) ==> exists j :: 0 <= j <= i && Declared(indexed[j], PackageKey(Dir(p), f)).Some?
  }

  /** Admission at the end of a walk, without the table. */
  lemma AdmittedLast(init: seq<IndexedFile>, x: IndexedFile)
    ensures x.raw.Some? && Admitted(TableAfter(init), x.path, x.raw.value, x.parses)
      <==> AdmissibleAt(init + [x], |init|, x.path)
  {
    hide FamilyForPath, Dir, Read, PackageKey, Split, Declared, Recorded, TableAfter;
    var all := init + [x];
    if x.raw.Some? && ModifiableFamily(x.path, x.parses).Some? {
      var f := ModifiableFamily(x.path, x.parses).value;
      var key := PackageKey(Dir(x.path), f);
      TableHoldsTheFirst(all, key);
      TableOfOneMore(init, x);
    }
  }

  lemma TableOfOneMore(init: seq<IndexedFile>, x: IndexedFile)
    requires x.raw.Some?
    ensures TableAfter(init + [x]) == Recorded(TableAfter(init), x.path, x.raw.value, x.parses)
  {
    assert (init + [x])[..|init|] == init;
  }

  /** Nothing admissible is dropped and nothing else is listed. */
  lemma {:induction false} AdmittedIffAdmissible(indexed: seq<IndexedFile>, p: string)
    ensures p in AdmittedPaths(indexed) <==> exists i :: AdmissibleAt(indexed, i, p)
  {
    hide Admitted, TableAfter, AdmissibleAt;
    if indexed != [] {
      var x, init := indexed[|indexed| - 1], indexed[..|indexed| - 1];
      assert indexed == init + [x];
      AdmittedIffAdmissible(init, p);
      AdmittedLast(init, x);
      forall i ensures i < |init| ==> (AdmissibleAt(indexed, i, p) <==> AdmissibleAt(init, i, p)) {
        AdmissibleInPrefix(init, x, i, p);
      }
      forall i ensures AdmissibleAt(indexed, i, p) ==> i <= |init| && (i == |init| ==> p == x.path) {
        AdmissibleIsInRange(indexed, i, p);
      }
      forall i ensures AdmissibleAt(init, i, p) ==> i < |init| {
        AdmissibleIsInRange(init, i, p);
      }
    } else {
      forall i ensures !AdmissibleAt(indexed, i, p) {
        AdmissibleIsInRange(indexed, i, p);
      }
    }
  }

  lemma AdmissibleInPrefix(init: seq<IndexedFile>, x: IndexedFile, i: int, p: string)
    ensures i < |init| ==> (AdmissibleAt(init + [x], i, p) <==> AdmissibleAt(init, i, p))
  {
    hide ModifiableFamily, Declared, PackageKey, Dir;
    assert forall j :: 0 <= j < |init| ==> (init + [x])[j] == init[j];
  }

  lemma AdmissibleIsInRange(indexed: seq<IndexedFile>, i: int, p: string)
    ensures AdmissibleAt(indexed, i, p) ==> 0 <= i < |indexed| && p == indexed[i].path
  {
    hide ModifiableFamily, Declared, PackageKey, Dir;
  }

  /** A family that has no clause to declare never loses a file to the gate. */
  lemma ClauselessFilesAreListed(indexed: seq<IndexedFile>, x: IndexedFile)
    requires x in indexed && x.raw.Some? && ModifiableFamily(x.path, x.parses).Some?
    requires !ClauseRequired(ModifiableFamily(x.path, x.parses).value)
    ensures x.path in AdmittedPaths(indexed)
  {
    hide ModifiableFamily, Declared, PackageKey, Dir, AdmittedPaths;
    var i :| 0 <= i < |indexed| && indexed[i] == x;
    AdmittedIffAdmissible(indexed, x.path);
    assert AdmissibleAt(indexed, i, x.path);
  }

  // ---- the gate without the families' tables --------------------------------------------------

  /** A path the harness may change: of a mutation family, parsed, and in no vendored or generated tree. */
  ghost predicate Changeable(x: IndexedFile) {
    && FamilyForPath(x.path).Some? && x.parses
    && forall part :: part in Split(x.path, '/') ==> part !in {"vendor", "testdata", "third_party", "node_modules"}
  }

  /** A changeable Go file of that directory whose text declares a package. */
  ghost predicate GoClauseIn(x: IndexedFile, dir: string) {
    && Changeable(x) && x.raw.Some? && FamilyForPath(x.path) == Some(Go) && Dir(x.path) == dir
    && Read(GoIdent, x.raw.value) != ""
  }

  ghost predicate Listable(indexed: seq<IndexedFile>, i: int) {
    && 0 <= i < |indexed| && Changeable(indexed[i]) && indexed[i].raw.Some?
    && (FamilyForPath(indexed[i].path) == Some(Go) ==>
          exists j :: 0 <= j <= i && GoClauseIn(indexed[j], Dir(indexed[i].path)))
  }

  lemma ChangeableIsModifiable(x: IndexedFile)
    ensures ModifiableFamily(x.path, x.parses).Some? <==> Changeable(x)
    ensures Changeable(x) ==> ModifiableFamily(x.path, x.parses) == FamilyForPath(x.path)
  {
    hide FamilyForPath, Split;
  }

  lemma GoIsDeclared(x: IndexedFile, dir: string)
    ensures Declared(x, PackageKey(dir, Go)).Some? <==> GoClauseIn(x, dir)
  {
    ChangeableIsModifiable(x);
    hide FamilyForPath, Split, Dir, Read, PackageKey, ModifiableFamily, Changeable;
    if Changeable(x) {
      var f := FamilyForPath(x.path).value;
      if PackageKey(Dir(x.path), f) == PackageKey(dir, Go) {
        PackageKeysAreInjective(Dir(x.path), f, dir, Go);
      }
    }
  }

  /** Which files are candidates: every readable file that the harness may change, except a Go file whose directory has
      declared no package by then. */
  lemma ListedIffListable(indexed: seq<IndexedFile>, p: string)
    ensures p in AdmittedPaths(indexed) <==> exists i :: Listable(indexed, i) && indexed[i].path == p
  {
    hide AdmittedPaths, FamilyForPath, Changeable, GoClauseIn, Declared, PackageKey, ModifiableFamily, Dir;
    AdmittedIffAdmissible(indexed, p);
    forall i | 0 <= i < |indexed| && indexed[i].path == p
      ensures AdmissibleAt(indexed, i, p) <==> Listable(indexed, i)
    {
      ChangeableIsModifiable(indexed[i]);
      forall j | 0 <= j <= i
        ensures Declared(indexed[j], PackageKey(Dir(p), Go)).Some? <==> GoClauseIn(indexed[j], Dir(p))
      {
        GoIsDeclared(indexed[j], Dir(p));
      }
    }
    forall i ensures AdmissibleAt(indexed, i, p) ==> 0 <= i < |indexed| && indexed[i].path == p {
      AdmissibleIsInRange(indexed, i, p);
    }
    forall i ensures Listable(indexed, i) ==> 0 <= i < |indexed| {
      ListableIsInRange(indexed, i);
    }
  }

  lemma ListableIsInRange(indexed: seq<IndexedFile>, i: int)
    ensures Listable(indexed, i) ==> 0 <= i < |indexed|
  {
  }

  lemma {:induction false} TableIsWitnessed(indexed: seq<IndexedFile>)
    ensures Witnessed(TableAfter(indexed), indexed)
  {
    hide Recorded;
    if indexed != [] {
      var x, init := indexed[|indexed| - 1], indexed[..|indexed| - 1];
      assert indexed == init + [x];
      TableIsWitnessed(init);
      if x.raw.Some? {
        RecordingKeeps(TableAfter(init), x, init);
      } else {
        WitnessedByMore(TableAfter(init), init, x);
      }
    }
  }

  lemma WitnessedByMore(packages: map<string, string>, indexed: seq<IndexedFile>, x: IndexedFile)
    requires Witnessed(packages, indexed)
    ensures Witnessed(packages, indexed + [x])
  {
    hide Declared;
    forall key | key in packages
      ensures exists y :: y in indexed + [x] && Declared(y, key) == Some(packages[key])
    {
      var y :| y in indexed && Declared(y, key) == Some(packages[key]);
      assert y in indexed + [x];
    }
  }

  lemma {:induction false} AdmittedAreJoinable(indexed: seq<IndexedFile>)
    ensures forall p :: p in AdmittedPaths(indexed) ==> Mutable(p) && Joinable(TableAfter(indexed), p)
  {
    hide Recorded, Joinable, Admitted;
    if indexed != [] {
      var x, init := indexed[|indexed| - 1], indexed[..|indexed| - 1];
      AdmittedAreJoinable(init);
      if x.raw.Some? {
        forall p ensures Joinable(TableAfter(init), p) ==> Joinable(TableAfter(indexed), p) {
          StaysJoinable(TableAfter(init), x, p);
        }
        if Admitted(TableAfter(init), x.path, x.raw.value, x.parses) {
          AdmittedIsJoinable(TableAfter(init), x.path, x.raw.value, x.parses);
        }
      }
      forall p ensures Joinable(TableAfter(indexed), p) ==> Mutable(p) {
        JoinableIsMutable(TableAfter(indexed), p);
      }
    }
  }

  lemma StaysJoinable(packages: map<string, string>, x: IndexedFile, p: string)
    requires x.raw.Some?
    ensures Joinable(packages, p) ==> Joinable(Recorded(packages, x.path, x.raw.value, x.parses), p)
  {
    hide FamilyForPath, Dir, Read, PackageKey, Split;
  }

  lemma JoinableIsMutable(packages: map<string, string>, p: string)
    ensures Joinable(packages, p) ==> Mutable(p)
  {
    hide FamilyForPath, PackageKey, Dir;
  }

  /** The candidates: every admitted path and no other, sorted; and the table of first clauses, each read from an
      indexed file. */
  method IncrementalSourceFiles(indexed: seq<IndexedFile>) returns (files: seq<string>, packages: map<string, string>)
    ensures files == Sort(AdmittedPaths(indexed)) && packages == TableAfter(indexed)
    ensures Sorted(files) && forall p :: p in files <==> exists i :: AdmissibleAt(indexed, i, p)
    ensures forall p :: p in files ==> Mutable(p) && Joinable(packages, p)
    ensures Witnessed(packages, indexed)
  {
    hide ModifiableFamily, Recorded, Admitted, Joinable, Witnessed, AdmissibleAt, Sorted, Mutable;
    var table := new PackageTable();
    var found: seq<string> := [];
    for i := 0 to |indexed|
      invariant table.packages == TableAfter(indexed[..i]) && found == AdmittedPaths(indexed[..i])
    {
      var x := indexed[i];
      assert indexed[..i + 1][..i] == indexed[..i];
      Unmodifiable(table.packages, x);
      if x.raw == None || ModifiableFamily(x.path, x.parses) == None {
        continue;
      }
      var admitted := table.Admit(x.path, x.raw.value, x.parses);
      if admitted {
        found := found + [x.path];
      }
    }
    assert indexed[..|indexed|] == indexed;
    files := Sort(found);
    packages := table.packages;
    SameElements(files, found);
    forall p ensures p in found <==> exists i :: AdmissibleAt(indexed, i, p) {
      AdmittedIffAdmissible(indexed, p);
    }
    AdmittedAreJoinable(indexed);
    TableIsWitnessed(indexed);
  }

  lemma Unmodifiable(packages: map<string, string>, x: IndexedFile)
    ensures x.raw.Some? && ModifiableFamily(x.path, x.parses) == None ==>
      && Recorded(packages, x.path, x.raw.value, x.parses) == packages
      && !Admitted(packages, x.path, x.raw.value, x.parses)
  {
    hide ModifiableFamily, Dir, Read, PackageKey;
  }

  // ---- siblings ---------------------------------------------------------------------

  /** A recorded clause is carried into an added sibling unchanged, except for the endings the rendering loses. */
  lemma SiblingsShareTheirClause(f: Family, raw: string, symbol: string, n: nat)
    requires Clause(f) != Absent && Read(Clause(f), raw) != "" && '\n' !in symbol
    ensures var pkg := Read(Clause(f), raw);
            var last := pkg[|pkg| - 1];
            (Read(Clause(f), Added(f, pkg, symbol, n)) == pkg)
              <==> (f == Java || (!IsSpace(last) && (f == Kotlin ==> last != ';')))
  {
    hide Added, ReadLine, IsSpace, Split;
    FreshClauseRoundTrip(f, Read(Clause(f), raw), symbol, n);
    SplitPartsAreFree(raw, '\n');
    ReadingsAreUnbroken(Clause(f), Lines(raw));
  }

  /** Two directories, or two families in one directory, never share an entry. */
  lemma PackageKeysAreInjective(dir: string, f: Family, dir': string, f': Family)
    requires PackageKey(dir, f) == PackageKey(dir', f')
    ensures dir == dir' && f == f'
  {
    hide Split;
    NamesAreDistinct(f, f');
    SplitAppend(Name(f), '\0', dir);
    SplitAppend(Name(f'), '\0', dir');
    SplitWithoutSeparator(Name(f), '\0');
    SplitWithoutSeparator(Name(f'), '\0');
    assert PackageKey(dir, f) == Name(f) + ['\0'] + dir;
    assert PackageKey(dir', f') == Name(f') + ['\0'] + dir';
    var parts := Split(PackageKey(dir, f), '\0');
    assert parts[0] == Name(f) && parts[0] == Name(f');
    assert dir == PackageKey(dir, f)[|Name(f)| + 1..];
    assert dir' == PackageKey(dir', f')[|Name(f')| + 1..];
  }

  lemma NamesAreDistinct(f: Family, g: Family)
    ensures Name(f) == Name(g) ==> f == g
    ensures '\0' !in Name(f) && '\0' !in Name(g)
  {
    assert FamilyNamed(Name(f)) == f && FamilyNamed(Name(g)) == g;
  }

  function FamilyNamed(name: string): Family {
    if name == "go" then Go
    else if name == "java" then Java
    else if name == "kotlin" then Kotlin
    else if name == "python" then Python
    else if name == "typescript" then TypeScript
    else if name == "tsx" then Tsx
    else if name == "javascript" then JavaScript
    else if name == "ruby" then Ruby
    else if name == "rust" then Rust
    else if name == "c" then C
    else if name == "cpp" then Cpp
    else if name == "csharp" then CSharp
    else if name == "php" then Php
    else if name == "lua" then Lua
    else Bash
  }
}
