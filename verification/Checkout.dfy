/** The repository under measurement: a working tree, an index kept up to date one path at a time, and a search. */
module Checkout {
  import opened Text
  import opened SourceFamily
  import opened ChangeSequence

  type Tree = map<string, string>

  /** The qualified names the index holds for each path. */
  type Index = map<string, set<string>>

  /** The parser and its extraction: the qualified names a file's content declares. */
  type Extractor = (string, string) -> set<string>

  /** How an apply ends. A file write truncates before it writes, so one that errs may leave only the first characters
      of the new content, or none; a removal, or a write that never opened its file, leaves things as they were. */
  datatype ApplyFault = Completes | Untouched | CutShort(kept: nat)

  /** How an ingest of one path ends: with the path's entry brought up to date, with an error before anything was
      committed, or with an error that leaves some other entry, or none. */
  datatype IngestFault = Ingested | Unchanged | Leaves(entry: Option<set<string>>)

  datatype SearchFault = Healthy | Lagging | Broken

  /** What the outside world does to the k-th call of each kind. */
  datatype Environment = Environment(
    apply: nat -> ApplyFault, ingest: nat -> IngestFault, search: nat -> SearchFault)

  datatype Probe = Answered | NotYet | Errored

  // ---- content -----------------------------------------------------------------------

  function ModifiedFileContent(existing: string, s: ChangeStep): string {
    match FamilyForPath(s.path)
    case None => existing
    case Some(f) => AppendTo(f, existing, s.symbol, s.index)
  }

  function AddedFileContent(s: ChangeStep): string {
    match FamilyForPath(s.path)
    case None => ""
    case Some(f) => Added(f, s.pkg, s.symbol, s.index)
  }

  /** The tree after a step, or None when the file it needs is missing. */
  function Applied(tree: Tree, s: ChangeStep): Option<Tree> {
    match s.class_
    case Delete => if s.path in tree then Some(tree - {s.path}) else None
    case Add => Some(tree[s.path := AddedFileContent(s)])
    case _ => if s.path in tree then Some(tree[s.path := ModifiedFileContent(tree[s.path], s)]) else None
  }

  /** The first characters of a content. */
  function Cut(content: string, kept: nat): (r: string)
    ensures r <= content && |r| == if kept <= |content| then kept else |content|
  {
    if kept <= |content| then content[..kept] else content
  }

  predicate Applies(tree: Tree, s: ChangeStep, fault: ApplyFault) {
    fault == Completes && Applied(tree, s).Some?
  }

  /** The tree an apply leaves, whether or not it reports success. */
  function Left(tree: Tree, s: ChangeStep, fault: ApplyFault): Tree {
    match Applied(tree, s)
    case None => tree
    case Some(t) =>
      match fault
      case Completes => t
      case Untouched => tree
      case CutShort(kept) => if s.class_ == Delete then tree else tree[s.path := Cut(t[s.path], kept)]
  }

  // ---- index -------------------------------------------------------------------------

  /** Indexing everything from scratch. */
  function FullIndex(extract: Extractor, tree: Tree): Index {
    map p | p in tree :: extract(p, tree[p])
  }

  /** Indexing the changed path only. */
  function Reindexed(extract: Extractor, index: Index, tree: Tree, path: string): Index {
    if path in tree then index[path := extract(path, tree[path])] else index - {path}
  }

  /** The index an ingest leaves, whether or not it reports success. */
  function IngestLeaves(extract: Extractor, index: Index, tree: Tree, path: string, fault: IngestFault): Index {
    match fault
    case Ingested => Reindexed(extract, index, tree, path)
    case Unchanged => index
    case Leaves(None) => index - {path}
    case Leaves(Some(names)) => index[path := names]
  }

  /** After any step, re-ingesting the one changed path equals indexing the whole new tree. */
  lemma IncrementalEqualsFull(extract: Extractor, tree: Tree, s: ChangeStep)
    requires Applied(tree, s).Some?
    ensures var t := Applied(tree, s).value;
            Reindexed(extract, FullIndex(extract, tree), t, s.path) == FullIndex(extract, t)
  {
    hide ModifiedFileContent, AddedFileContent;
    var t := Applied(tree, s).value;
    var a, b := Reindexed(extract, FullIndex(extract, tree), t, s.path), FullIndex(extract, t);
    assert a.Keys == b.Keys;
    assert forall p :: p in a ==> a[p] == b[p];
  }

  // ---- search ------------------------------------------------------------------------

  /** What follows the last dot of a qualified name. */
  function BareName(q: string): (b: string)
    ensures '.' !in b && |b| <= |q| && q[|q| - |b|..] == b
    ensures '.' !in q <==> b == q
    ensures b != q ==> |b| < |q| && q[|q| - |b| - 1] == '.'
  {
    if q == [] then []
    else if q[|q| - 1] == '.' then []
    else
      assert q == q[..|q| - 1] + [q[|q| - 1]];
      BareName(q[..|q| - 1]) + [q[|q| - 1]]
  }

  ghost predicate NamesBare(names: set<string>, symbol: string) {
    exists q :: q in names && BareName(q) == symbol
  }

  /** Some listed name is the symbol. */
  ghost predicate NamesBareIn(matches: seq<string>, symbol: string) {
    exists q :: q in matches && BareName(q) == symbol
  }

  lemma NamesBareAppend(matches: seq<string>, q: string, symbol: string)
    ensures NamesBareIn(matches + [q], symbol) <==> NamesBareIn(matches, symbol) || BareName(q) == symbol
  {
    hide BareName;
    assert q in matches + [q] && forall x :: x in matches ==> x in matches + [q];
  }

  lemma NoNames(symbol: string)
    ensures !NamesBare({}, symbol)
  {
  }

  lemma NamesBareWith(names: set<string>, q: string, symbol: string)
    ensures NamesBare(names + {q}, symbol) <==> NamesBare(names, symbol) || BareName(q) == symbol
  {
    hide BareName;
    assert q in names + {q} && forall x :: x in names ==> x in names + {q};
  }

  ghost predicate Indexed(index: Index, q: string) {
    exists p :: p in index && q in index[p]
  }

  ghost predicate Found(index: Index, symbol: string) {
    exists p :: p in index && NamesBare(index[p], symbol)
  }

  /** Some indexed name ends, behind its last dot, in the symbol. */
  ghost predicate Declared(index: Index, symbol: string) {
    exists p, q :: p in index && q in index[p] && BareName(q) == symbol
  }

  /** A step is answerable when its symbol is declared, a delete when it is not. */
  lemma ConvergedByName(index: Index, s: ChangeStep)
    ensures Converged(index, s) <==> (s.class_ == Delete <==> !Declared(index, s.symbol))
    ensures Found(index, s.symbol) <==> Declared(index, s.symbol)
  {
    hide BareName;
    if Found(index, s.symbol) {
      var p :| p in index && NamesBare(index[p], s.symbol);
      var q :| q in index[p] && BareName(q) == s.symbol;
    }
    if Declared(index, s.symbol) {
      var p, q :| p in index && q in index[p] && BareName(q) == s.symbol;
      assert NamesBare(index[p], s.symbol);
    }
  }

  /** The step's new state is answerable. */
  ghost predicate Converged(index: Index, s: ChangeStep) {
    if s.class_ == Delete then !Found(index, s.symbol) else Found(index, s.symbol)
  }

  /** The loop over the matches, which stops at the first whose bare name is the symbol. */
  method Lists(matches: seq<string>, symbol: string) returns (found: bool)
    ensures found <==> NamesBareIn(matches, symbol)
  {
    hide BareName;
    found := false;
    for i := 0 to |matches|
      invariant !NamesBareIn(matches[..i], symbol)
    {
      if BareName(matches[i]) == symbol {
        assert matches[i] in matches;
        return true;
      }
      NamesBareAppend(matches[..i], matches[i], symbol);
      assert matches[..i + 1] == matches[..i] + [matches[i]];
    }
    assert matches[..|matches|] == matches;
  }

  class RepoTarget {
    const extract: Extractor
    const env: Environment
    var tree: Tree
    var index: Index
    var applies: nat
    var ingests: nat
    var searches: nat

    /** A checkout whose index is fresh. */
    constructor (extract: Extractor, env: Environment, tree: Tree)
      ensures this.extract == extract && this.env == env && this.tree == tree
      ensures index == FullIndex(extract, tree) && applies == ingests == searches == 0
    {
      this.extract, this.env, this.tree := extract, env, tree;
      this.index := FullIndex(extract, tree);
      applies, ingests, searches := 0, 0, 0;
    }

    /** os.WriteFile: creates or truncates the file, then writes. */
    method WriteFile(path: string, content: string, fault: ApplyFault) returns (ok: bool)
      modifies this`tree
      ensures ok <==> fault == Completes
      ensures tree == match fault
                      case Completes => old(tree)[path := content]
                      case Untouched => old(tree)
                      case CutShort(kept) => old(tree)[path := Cut(content, kept)]
    {
      match fault {
        case Untouched => return false;
        case CutShort(kept) =>
          tree := tree[path := Cut(content, kept)];
          return false;
        case Completes =>
          tree := tree[path := content];
          return true;
      }
    }

    /** Mutates the working tree: a removal, a new file, or a file read and written back longer. */
    method Apply(s: ChangeStep) returns (ok: bool)
      modifies this
      ensures applies == old(applies) + 1 && unchanged(`index, `ingests, `searches)
      ensures ok <==> Applies(old(tree), s, env.apply(old(applies)))
      ensures tree == Left(old(tree), s, env.apply(old(applies)))
      ensures s.class_ != Add && s.path !in old(tree) ==> !ok && tree == old(tree)
      ensures ok ==> tree.Keys == if s.class_ == Delete then old(tree.Keys) - {s.path} else old(tree.Keys) + {s.path}
    {
      hide FamilyForPath, AppendTo, Added;
      var fault := env.apply(applies);
      applies := applies + 1;
      match s.class_ {
        case Delete =>
          if s.path !in tree || fault != Completes {
            return false;
          }
          tree := tree - {s.path};
          return true;
        case Add =>
          ok := WriteFile(s.path, AddedFileContent(s), fault);
        case _ =>
          if s.path !in tree {
            return false;
          }
          ok := WriteFile(s.path, ModifiedFileContent(tree[s.path], s), fault);
      }
    }

    /** Ingests the changed path, and only that path. */
    method Update(s: ChangeStep) returns (ok: bool)
      modifies this
      ensures ingests == old(ingests) + 1 && unchanged(`tree, `applies, `searches)
      ensures ok <==> env.ingest(old(ingests)) == Ingested
      ensures index == IngestLeaves(extract, old(index), tree, s.path, env.ingest(old(ingests)))
    {
      var fault := env.ingest(ingests);
      ingests := ingests + 1;
      match fault {
        case Unchanged => return false;
        case Leaves(None) =>
          index := index - {s.path};
          return false;
        case Leaves(Some(names)) =>
          index := index[s.path := names];
          return false;
        case Ingested =>
          index := if s.path in tree then index[s.path := extract(s.path, tree[s.path])] else index - {s.path};
          return true;
      }
    }

    /** At most `limit` indexed names, in an order of the search engine's choosing, a name that is the symbol before
        the others. */
    method Search(symbol: string, limit: nat) returns (matches: seq<string>)
      requires limit > 0
      ensures |matches| <= limit && forall q :: q in matches ==> Indexed(index, q)
      ensures NamesBareIn(matches, symbol) <==> Found(index, symbol)
    {
      hide BareName;
      matches := [];
      var paths := index.Keys;
      while paths != {}
        invariant paths <= index.Keys && |matches| <= limit
        invariant forall q :: q in matches ==> Indexed(index, q)
        invariant NamesBareIn(matches, symbol) <==> exists p :: p in index && p !in paths && NamesBare(index[p], symbol)
        decreases paths
      {
        var p :| p in paths;
        matches := SearchFile(matches, p, symbol, limit);
        paths := paths - {p};
      }
    }

    /** One file's names: they fill the free places, and one that is the symbol displaces the last. */
    method SearchFile(found: seq<string>, p: string, symbol: string, limit: nat) returns (matches: seq<string>)
      requires p in index && 0 < limit && |found| <= limit && forall q :: q in found ==> Indexed(index, q)
      ensures |matches| <= limit && forall q :: q in matches ==> Indexed(index, q)
      ensures NamesBareIn(matches, symbol) <==> NamesBareIn(found, symbol) || NamesBare(index[p], symbol)
    {
      hide BareName, NamesBareIn, NamesBare;
      matches := found;
      var names := index[p];
      assert index[p] - names == {};
      NoNames(symbol);
      while names != {}
        invariant names <= index[p] && |matches| <= limit
        invariant forall q :: q in matches ==> Indexed(index, q)
        invariant NamesBareIn(matches, symbol) <==> NamesBareIn(found, symbol) || NamesBare(index[p] - names, symbol)
        decreases names
      {
        var q :| q in names;
        assert Indexed(index, q);
        assert index[p] - (names - {q}) == (index[p] - names) + {q};
        NamesBareWith(index[p] - names, q, symbol);
        if |matches| < limit {
          NamesBareAppend(matches, q, symbol);
          matches := matches + [q];
        } else if BareName(q) == symbol {
          NamesBareAppend(matches[..limit - 1], q, symbol);
          matches := matches[..limit - 1] + [q];
        }
        names := names - {q};
      }
      assert index[p] - {} == index[p];
    }

    /** Probes whether a search answers the step's new state. */
    method Answers(s: ChangeStep) returns (probe: Probe)
      modifies this`searches
      ensures searches == old(searches) + 1
      ensures probe == match env.search(old(searches))
                       case Broken => Errored
                       case Lagging => NotYet
                       case Healthy => if Converged(index, s) then Answered else NotYet
      ensures probe == Answered ==> (s.class_ == Delete <==> !Declared(index, s.symbol))
      ensures env.search(old(searches)) == Healthy && probe != Answered ==>
        (s.class_ == Delete <==> Declared(index, s.symbol))
    {
      ConvergedByName(index, s);
      hide Found, NamesBareIn, Converged, Declared;
      searches := searches + 1;
      match env.search(searches - 1) {
        case Broken => return Errored;
        case Lagging => return NotYet;
        case Healthy =>
      }
      var matches := Search(s.symbol, 25);
      var found := Lists(matches, s.symbol);
      probe := if found == (s.class_ != Delete) then Answered else NotYet;
    }
  }
}
