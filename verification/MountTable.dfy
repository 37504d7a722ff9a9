/** Which filesystem a directory sits on: longest-mount matching as deepest containing directory. */
module MountTable {
  import opened Text

  datatype MountEntry = MountEntry(point: string, fs: string)

  /** "Is path inside point", compared on separators. */
  predicate UnderPath(point: string, path: string) {
    if point == "" then false
    else if point == "/" || point == path then true
    else HasPrefix(path, TrimSuffix(point, "/") + "/")
  }

  /** The loop that keeps the longest containing mount, the last one among equals. */
  method MatchMountTable(entries: seq<MountEntry>, path: string) returns (fs: string)
    ensures (forall e :: e in entries ==> !UnderPath(e.point, path)) ==> fs == ""
    ensures (exists e :: e in entries && UnderPath(e.point, path)) ==>
      exists i :: IsChosen(entries, path, i) && fs == entries[i].fs
  {
    hide UnderPath;
    var best := "";
    fs := "";
    ghost var at := -1;
    for i := 0 to |entries|
      invariant at == -1 ==> best == "" && fs == "" && forall j :: 0 <= j < i ==> !UnderPath(entries[j].point, path)
      invariant at != -1 ==>
        0 <= at < i && IsChosen(entries[..i], path, at) && best == entries[at].point && fs == entries[at].fs
    {
      var e := entries[i];
      if !UnderPath(e.point, path) {
        continue;
      }
      if |e.point| >= |best| {
        best, fs := e.point, e.fs;
        at := i;
      }
    }
    if at != -1 {
      assert entries[..|entries|] == entries;
      assert IsChosen(entries, path, at);
    }
  }

  /** Entry i contains the path, no containing entry is longer, and no later one is as long. */
  ghost predicate IsChosen(entries: seq<MountEntry>, path: string, i: int) {
    && 0 <= i < |entries| && UnderPath(entries[i].point, path)
    && (forall j :: 0 <= j < |entries| && UnderPath(entries[j].point, path) ==>
          |entries[j].point| <= |entries[i].point|)
    && (forall j :: i < j < |entries| && UnderPath(entries[j].point, path) ==>
          |entries[j].point| < |entries[i].point|)
  }

  // ---- directories as component lists ------------------------------------------------------

  /** Absolute, with no empty component: neither a doubled nor a trailing slash. */
  predicate CleanAbsolute(p: string) {
    p != "" && p[0] == '/' && (p == "/" || forall c :: c in Split(p, '/')[1..] ==> c != "")
  }

  function Components(p: string): seq<string>
    requires CleanAbsolute(p)
  {
    if p == "/" then [] else Split(p, '/')[1..]
  }

  lemma TrailingSlash(p: string)
    requires p != ""
    ensures p[|p| - 1] == '/' ==> |Split(p, '/')| > 1 && Split(p, '/')[|Split(p, '/')| - 1] == ""
  {
    if p[|p| - 1] == '/' {
      var init := p[..|p| - 1];
      assert p == init + ['/'] + "";
      SplitAppend(init, '/', "");
      assert Split("", '/') == [""];
    }
  }

  lemma LeadingSlash(p: string)
    requires p != "" && p[0] == '/'
    ensures Split(p, '/') == [""] + Split(p[1..], '/')
  {
    assert Split("", '/') == [""];
    assert p == "" + ['/'] + p[1..];
    hide Split;
    SplitAppend("", '/', p[1..]);
  }

  lemma SplitOfAbsolute(p: string)
    requires CleanAbsolute(p) && p != "/"
    ensures Split(p, '/') == [""] + Components(p) && Components(p) != []
    ensures p[|p| - 1] != '/' && |p| > 1
  {
    hide Split;
    LeadingSlash(p);
    TrailingSlash(p);
    var parts := Split(p, '/');
    assert parts[1..] == Split(p[1..], '/');
    assert |p| == 1 ==> p == "/";
    assert |parts| > 1 ==> parts[|parts| - 1] in parts[1..];
  }

  lemma {:induction false} JoinAppend(a: seq<string>, b: seq<string>, sep: char)
    requires a != [] && b != []
    ensures Join(a + b, sep) == Join(a, sep) + [sep] + Join(b, sep)
  {
    assert (a + b)[1..] == a[1..] + b;
    if |a| > 1 {
      JoinAppend(a[1..], b, sep);
    } else {
      assert a[1..] + b == b;
    }
  }

  /** Containment is the component-prefix relation, so /var never swallows /variant. */
  lemma UnderPathIsComponentPrefix(point: string, path: string)
    requires CleanAbsolute(point) && CleanAbsolute(path)
    ensures UnderPath(point, path) <==> Components(point) <= Components(path)
  {
    hide Split, Join;
    if point != "/" {
      SplitOfAbsolute(point);
      assert TrimSuffix(point, "/") == point by { assert point[|point| - 1..] == [point[|point| - 1]]; }
      if path != "/" {
        SplitOfAbsolute(path);
        if HasPrefix(path, point + "/") {
          PrefixGivesComponents(point, path);
        }
        if Components(point) <= Components(path) {
          ComponentsGivePrefix(point, path);
        }
      } else {
        assert |point| > 1;
      }
    }
  }

  lemma PrefixGivesComponents(point: string, path: string)
    requires CleanAbsolute(point) && CleanAbsolute(path) && point != "/" && path != "/"
    requires HasPrefix(path, point + "/")
    ensures Components(point) <= Components(path)
  {
    hide Split;
    SplitOfAbsolute(point);
    SplitOfAbsolute(path);
    var rest := path[|point| + 1..];
    assert path == point + ['/'] + rest;
    SplitAppend(point, '/', rest);
    assert [""] + Components(path) == [""] + (Components(point) + Split(rest, '/'));
    assert Components(path) == ([""] + Components(path))[1..] == Components(point) + Split(rest, '/');
  }

  lemma ComponentsGivePrefix(point: string, path: string)
    requires CleanAbsolute(point) && CleanAbsolute(path) && point != "/" && path != "/"
    requires Components(point) <= Components(path)
    ensures point == path || HasPrefix(path, point + "/")
  {
    hide Split, Join;
    SplitOfAbsolute(point);
    SplitOfAbsolute(path);
    JoinSplit(point, '/');
    JoinSplit(path, '/');
    var more := Components(path)[|Components(point)|..];
    assert Split(path, '/') == Split(point, '/') + more;
    if more == [] {
      assert Split(path, '/') == Split(point, '/');
    } else {
      JoinAppend(Split(point, '/'), more, '/');
      assert path == (point + "/") + Join(more, '/');
    }
  }

  /** Among directories containing the same path, a longer name is a deeper directory, and an equally long one the
      same. */
  lemma LongerIsDeeper(p: string, q: string, path: string)
    requires CleanAbsolute(p) && CleanAbsolute(q) && CleanAbsolute(path)
    requires UnderPath(p, path) && UnderPath(q, path)
    ensures |p| <= |q| <==> |Components(p)| <= |Components(q)|
    ensures |p| == |q| ==> p == q
  {
    hide UnderPath, Components, CleanAbsolute;
    UnderPathIsComponentPrefix(p, path);
    UnderPathIsComponentPrefix(q, path);
    var cp, cq, c := Components(p), Components(q), Components(path);
    if |cp| <= |cq| {
      assert cp == c[..|cp|] && cq == c[..|cq|];
      UnderPathIsComponentPrefix(p, q);
      UnderIsShorter(p, q);
    }
    if |cq| <= |cp| {
      assert cp == c[..|cp|] && cq == c[..|cq|];
      UnderPathIsComponentPrefix(q, p);
      UnderIsShorter(q, p);
    }
  }

  /** The components name the directory. */
  lemma ComponentsDetermine(p: string, q: string)
    requires CleanAbsolute(p) && CleanAbsolute(q) && p != "/" && q != "/" && Components(p) == Components(q)
    ensures p == q
  {
    SplitOfAbsolute(p);
    SplitOfAbsolute(q);
    JoinSplit(p, '/');
    JoinSplit(q, '/');
    hide *;
  }

  lemma UnderIsShorter(p: string, q: string)
    requires CleanAbsolute(p) && CleanAbsolute(q) && UnderPath(p, q)
    ensures p == q || (|p| < |q| && |Components(p)| < |Components(q)|)
  {
    hide Split, Join;
    UnderPathIsComponentPrefix(p, q);
    if p != "/" {
      SplitOfAbsolute(p);
      assert TrimSuffix(p, "/") == p by { assert p[|p| - 1..] == [p[|p| - 1]]; }
      assert q != "/" by { assert |p| > 1; }
      if |Components(p)| == |Components(q)| {
        assert Components(q) == Components(q)[..|Components(p)|];
        ComponentsDetermine(p, q);
      }
    } else if q != "/" {
      SplitOfAbsolute(q);
    }
  }

  /** What being chosen says about one other containing entry. */
  lemma ChosenBeats(entries: seq<MountEntry>, path: string, i: int, j: int)
    requires IsChosen(entries, path, i) && 0 <= j < |entries| && UnderPath(entries[j].point, path)
    ensures |entries[j].point| <= |entries[i].point|
    ensures |entries[j].point| == |entries[i].point| ==> j <= i
  {
    hide UnderPath;
    if i < j {
      assert |entries[j].point| < |entries[i].point|;
    }
  }

  /** For clean tables: the answer is the type of the last entry at the deepest mount point that contains the path. */
  lemma ChosenIsDeepest(entries: seq<MountEntry>, path: string, i: int, j: int)
    requires CleanAbsolute(path) && forall e :: e in entries ==> CleanAbsolute(e.point)
    requires IsChosen(entries, path, i) && 0 <= j < |entries|
    requires Components(entries[j].point) <= Components(path)
    ensures Components(entries[i].point) <= Components(path)
    ensures |Components(entries[j].point)| <= |Components(entries[i].point)|
    ensures |Components(entries[j].point)| == |Components(entries[i].point)| ==>
      entries[j].point == entries[i].point && j <= i
  {
    var p, q := entries[j].point, entries[i].point;
    assert entries[i] in entries && entries[j] in entries;
    assert UnderPath(q, path);
    UnderPathIsComponentPrefix(q, path);
    UnderPathIsComponentPrefix(p, path);
    ChosenBeats(entries, path, i, j);
    hide *;
    LongerIsDeeper(p, q, path);
    LongerIsDeeper(q, p, path);
  }
}
