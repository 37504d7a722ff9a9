/** Slash-separated paths: Go's path.Clean, path.Dir, path.Base and filepath.Ext. */
module Paths {
  import opened Text

  /** Walks the components, dropping empty and "." ones and resolving "..". */
  function CleanParts(parts: seq<string>, rooted: bool, kept: seq<string>): seq<string>
  {
    if parts == [] then kept
    else if parts[0] == "" || parts[0] == "." then CleanParts(parts[1..], rooted, kept)
    else if parts[0] == ".." then
      if kept != [] && kept[|kept| - 1] != ".." then CleanParts(parts[1..], rooted, kept[..|kept| - 1])
      else if rooted then CleanParts(parts[1..], rooted, kept)
      else CleanParts(parts[1..], rooted, kept + [parts[0]])
    else CleanParts(parts[1..], rooted, kept + [parts[0]])
  }

  function Clean(p: string): string {
    if p == [] then "."
    else
      var rooted := p[0] == '/';
      var parts := CleanParts(Split(p, '/'), rooted, []);
      if rooted then "/" + Join(parts, '/')
      else if parts == [] then "."
      else Join(parts, '/')
  }

  /** The length of p up to and including its last slash; 0 when it has none. */
  function LastSlash(p: string): (k: nat)
    ensures k <= |p|
    ensures k > 0 ==> p[k - 1] == '/'
    ensures '/' !in p[k..]
  {
    if p == [] then 0
    else if p[|p| - 1] == '/' then |p|
    else
      var k := LastSlash(p[..|p| - 1]);
      assert p[k..] == p[..|p| - 1][k..] + [p[|p| - 1]];
      k
  }

  /** path.Dir: everything before the last slash, cleaned. */
  function Dir(p: string): string {
    Clean(p[..LastSlash(p)])
  }

  /** The element after the last slash. */
  function Base(p: string): (b: string)
    ensures '/' !in b
  {
    p[LastSlash(p)..]
  }

  /** The suffix of an element from its last dot on, or "" when it has none. */
  function ElementExt(b: string): string {
    if b == [] then []
    else if b[|b| - 1] == '.' then "."
    else
      var e := ElementExt(b[..|b| - 1]);
      if e == [] then [] else e + [b[|b| - 1]]
  }

  /** filepath.Ext */
  function Ext(p: string): string { ElementExt(Base(p)) }

  lemma {:induction false} LastSlashOfJoined(dir: string, name: string)
    requires '/' !in name
    ensures LastSlash(dir + "/" + name) == |dir| + 1
  {
    var p := dir + "/" + name;
    if name != [] {
      var init := name[..|name| - 1];
      LastSlashOfJoined(dir, init);
      assert p[..|p| - 1] == dir + "/" + init;
      assert p[|p| - 1] == name[|name| - 1];
      assert name[|name| - 1] in name;
    } else {
      assert p[|p| - 1] == '/';
    }
  }

  lemma {:induction false} LastSlashOfElement(name: string)
    requires '/' !in name
    ensures LastSlash(name) == 0
  {
    if name != [] {
      LastSlashOfElement(name[..|name| - 1]);
      assert name[|name| - 1] in name;
    }
  }

  lemma BaseOfJoined(dir: string, name: string)
    requires '/' !in name
    ensures Base(dir + "/" + name) == name && Base(name) == name
  {
    LastSlashOfJoined(dir, name);
    LastSlashOfElement(name);
  }

  // ---- cleaning twice -------------------------------------------------------------------

  /** Components as Clean leaves them: named ones, behind leading ".." ones that only an unrooted path keeps. */
  predicate Cleaned(parts: seq<string>, rooted: bool) {
    forall i :: 0 <= i < |parts| ==> CleanedAt(parts, i, rooted)
  }

  predicate CleanedAt(parts: seq<string>, i: nat, rooted: bool)
    requires i < |parts|
  {
    && parts[i] != "" && parts[i] != "." && '/' !in parts[i]
    && (parts[i] == ".." ==> !rooted && (i > 0 ==> parts[i - 1] == ".."))
  }

  lemma {:induction false} CleanPartsAreCleaned(parts: seq<string>, rooted: bool, kept: seq<string>)
    requires Cleaned(kept, rooted) && forall p :: p in parts ==> '/' !in p
    ensures Cleaned(CleanParts(parts, rooted, kept), rooted)
    decreases |parts|
  {
    if parts != [] {
      var more := if parts[0] == "" || parts[0] == "." then kept
                  else if parts[0] == ".." && kept != [] && kept[|kept| - 1] != ".." then kept[..|kept| - 1]
                  else if parts[0] == ".." && rooted then kept
                  else kept + [parts[0]];
      assert parts[0] in parts && forall p :: p in parts[1..] ==> p in parts;
      hide Cleaned;
      NotBehindAName(kept, parts[0], rooted);
      CleanPartsAreCleaned(parts[1..], rooted, more);
    }
  }

  lemma NotBehindAName(kept: seq<string>, part: string, rooted: bool)
    requires Cleaned(kept, rooted)
    ensures Cleaned(kept + [part], rooted) <==>
      && part != "" && part != "." && '/' !in part
      && (part == ".." ==> !rooted && (kept != [] ==> kept[|kept| - 1] == ".."))
    ensures kept != [] ==> Cleaned(kept[..|kept| - 1], rooted)
  {
    var all := kept + [part];
    assert all[|kept|] == part;
    forall i: nat | i < |kept|
      ensures CleanedAt(all, i, rooted) <==> CleanedAt(kept, i, rooted)
    {
      assert all[i] == kept[i] && (i > 0 ==> all[i - 1] == kept[i - 1]);
    }
    assert Cleaned(all, rooted) ==> CleanedAt(all, |kept|, rooted);
    assert Cleaned(all, rooted) <==> Cleaned(kept, rooted) && CleanedAt(all, |kept|, rooted);
    if kept != [] {
      var init := kept[..|kept| - 1];
      forall i: nat | i < |init|
        ensures CleanedAt(init, i, rooted)
      {
        assert CleanedAt(kept, i, rooted);
      }
    }
  }

  lemma {:induction false} CleanedStays(parts: seq<string>, rooted: bool, kept: seq<string>)
    requires Cleaned(kept + parts, rooted)
    ensures CleanParts(parts + [""], rooted, kept) == kept + parts
    decreases |parts|
  {
    var all := kept + parts;
    if parts == [] {
      assert parts + [""] == [""] && kept + parts == kept;
      assert CleanParts([""], rooted, kept) == CleanParts([], rooted, kept);
    } else {
      assert all[|kept|] == parts[0] && CleanedAt(all, |kept|, rooted);
      assert kept != [] ==> all[|kept| - 1] == kept[|kept| - 1];
      assert (parts + [""])[1..] == parts[1..] + [""];
      assert kept + [parts[0]] + parts[1..] == all;
      CleanedStays(parts[1..], rooted, kept + [parts[0]]);
    }
  }

  /** A cleaned path with a trailing slash cleans to itself. */
  lemma CleanIsStable(p: string)
    ensures Clean(Clean(p) + "/") == Clean(p)
  {
    hide CleanParts, Cleaned;
    if p == [] {
      DotIsClean();
    } else {
      var rooted := p[0] == '/';
      var parts := CleanParts(Split(p, '/'), rooted, []);
      SplitPartsAreFree(p, '/');
      NothingIsCleaned(rooted);
      CleanPartsAreCleaned(Split(p, '/'), rooted, []);
      hide Split;
      if parts == [] {
        if rooted { RootIsClean(); } else { DotIsClean(); }
      } else {
        CleanOfJoin(parts, rooted);
        assert "" + Join(parts, '/') == Join(parts, '/');
      }
    }
  }

  lemma NothingIsCleaned(rooted: bool)
    ensures Cleaned([], rooted)
  {
  }

  lemma DotIsClean()
    ensures Clean("./") == "." && "." + "/" == "./"
  {
    SplitAppend(".", '/', "");
    SplitWithoutSeparator(".", '/');
    SplitWithoutSeparator("", '/');
    hide Split;
    assert "." + ['/'] + "" == "./";
    var parts := [".", ""];
    assert Split("./", '/') == parts && parts[1..] == [""] && parts[1..][1..] == [];
    assert CleanParts(parts, false, []) == CleanParts([""], false, []) == [];
  }

  lemma RootIsClean()
    ensures Clean("//") == "/" && "/" + Join([], '/') + "/" == "//"
  {
    SplitAppend("", '/', "");
    SplitAppend("", '/', "/");
    SplitWithoutSeparator("", '/');
    hide Split;
    assert "" + ['/'] + "" == "/" && "" + ['/'] + "/" == "//";
    var parts := ["", "", ""];
    assert Split("//", '/') == parts && parts[1..] == ["", ""] && parts[1..][1..] == [""];
    assert CleanParts([""], true, []) == [];
    assert CleanParts(["", ""], true, []) == [];
    assert CleanParts(parts, true, []) == [];
  }

  lemma CleanOfJoin(parts: seq<string>, rooted: bool)
    requires parts != [] && Cleaned(parts, rooted)
    ensures var p := (if rooted then "/" else "") + Join(parts, '/');
            Clean(p + "/") == p
  {
    var joined := Join(parts, '/');
    var p := (if rooted then "/" else "") + joined;
    assert CleanedAt(parts, 0, rooted);
    JoinBegins(parts);
    assert parts[0][0] in parts[0];
    assert p != [] && (p[0] == '/' <==> rooted);
    forall x | x in parts
      ensures '/' !in x
    {
      var i: nat :| i < |parts| && parts[i] == x;
      assert CleanedAt(parts, i, rooted);
    }
    SplitJoin(parts, '/');
    SplitAppend(joined, '/', "");
    assert joined + ['/'] + "" == joined + "/";
    assert [] + parts == parts;
    CleanedStays(parts, rooted, []);
    if rooted {
      SplitAppend("", '/', joined + "/");
      assert "" + ['/'] + (joined + "/") == p + "/";
      assert Split("", '/') == [""];
      assert Split(p + "/", '/') == [""] + (parts + [""]);
      assert ([""] + (parts + [""]))[1..] == parts + [""];
    } else {
      assert p + "/" == joined + "/";
    }
  }

  lemma JoinBegins(parts: seq<string>)
    requires parts != [] && parts[0] != ""
    ensures Join(parts, '/') != "" && Join(parts, '/')[0] == parts[0][0]
  {
  }

  lemma CleanOfNothing()
    ensures Clean("") == "."
  {
  }

  lemma CleanIsNotEmpty(p: string)
    ensures Clean(p) != ""
  {
    hide Split, CleanParts;
    if p != [] && p[0] != '/' {
      var parts := CleanParts(Split(p, '/'), false, []);
      SplitPartsAreFree(p, '/');
      NothingIsCleaned(false);
      CleanPartsAreCleaned(Split(p, '/'), false, []);
      if parts != [] {
        assert CleanedAt(parts, 0, false);
        JoinBegins(parts);
      }
    }
  }

  /** A file named in a cleaned directory lies in that directory. */
  lemma DirOfJoined(p: string, name: string)
    requires '/' !in name
    ensures Dir(Clean(p) + "/" + name) == Clean(p)
  {
    hide Clean;
    LastSlashOfJoined(Clean(p), name);
    assert (Clean(p) + "/" + name)[..|Clean(p)| + 1] == Clean(p) + "/";
    CleanIsStable(p);
  }

  /** A dot followed by a dot-free tail is the extension. */
  lemma {:induction false} ElementExtOfDotted(stem: string, tail: string)
    requires '.' !in tail
    ensures ElementExt(stem + "." + tail) == "." + tail
  {
    var b := stem + "." + tail;
    if tail == [] {
      assert b[|b| - 1] == '.';
    } else {
      var init := tail[..|tail| - 1];
      ElementExtOfDotted(stem, init);
      assert b[..|b| - 1] == stem + "." + init;
      assert b[|b| - 1] == tail[|tail| - 1];
      assert tail[|tail| - 1] in tail;
      assert "." + tail == "." + init + [tail[|tail| - 1]];
    }
  }

  function LowerChar(c: char): char {
    if 'A' <= c <= 'Z' then ((c as int) - ('A' as int) + ('a' as int)) as char
    else if c == '\U{212A}' then 'k'
    else if c == '\U{130}' then 'i'
    else c
  }

  /** strings.ToLower, as far as it can produce an ASCII letter. */
  function Lower(s: string): (r: string)
    ensures |r| == |s|
  {
    seq(|s|, i requires 0 <= i < |s| => LowerChar(s[i]))
  }
}
