/** What the clause reader answers on any line a repository may hold, and so on any file. */
module ClauseLines {
  import opened Text
  import opened SourceFamily
  import opened PackageClause
  import opened FreshClause

  // ---- cutting behind a name ---------------------------------------------------------------

  lemma {:induction false} CutAnyAfter(name: string, rest: string, stops: string)
    requires forall i :: 0 <= i < |name| ==> name[i] !in stops
    ensures CutAny(name + rest, stops) == name + CutAny(rest, stops)
  {
    hide *;
    if name == "" {
      assert name + rest == rest;
      assert "" + CutAny(rest, stops) == CutAny(rest, stops);
    } else {
      CutAnyAfter(name[1..], rest, stops);
      CutAnyBehind(name[0], name[1..] + rest, stops);
      assert name + rest == [name[0]] + (name[1..] + rest);
      assert name + CutAny(rest, stops) == [name[0]] + (name[1..] + CutAny(rest, stops));
    }
  }

  lemma CutAnyBehind(c: char, s: string, stops: string)
    requires c !in stops
    ensures CutAny([c] + s, stops) == [c] + CutAny(s, stops)
  {
    assert ([c] + s)[1..] == s;
  }

  /** A two-character mark that neither occurs in the name nor can begin at its end is only looked for behind it. */
  lemma {:induction false} CutAtAfter(name: string, rest: string, mark: string)
    requires |mark| == 2 && !Contains(name, mark) && (name != "" ==> name[|name| - 1] != mark[0])
    ensures CutAt(name + rest, mark) == name + CutAt(rest, mark)
  {
    hide CutAt, Contains, HasPrefix;
    if name == "" {
      assert name + rest == rest;
    } else {
      MarkNotAtName(name, rest, mark);
      CutAtAfter(name[1..], rest, mark);
      assert name + rest == [name[0]] + (name[1..] + rest);
      CutAtBehind(name[0], name[1..] + rest, mark);
    }
  }

  lemma MarkNotAtName(name: string, rest: string, mark: string)
    requires |mark| == 2 && !Contains(name, mark) && name != "" && name[|name| - 1] != mark[0]
    ensures !HasPrefix(name + rest, mark) && !Contains(name[1..], mark)
  {
    var s := name + rest;
    assert |name| >= 2 ==> s[..2] == name[..2];
    assert s[0] == name[0];
  }

  lemma CutAtBehind(c: char, s: string, mark: string)
    requires mark != "" && !HasPrefix([c] + s, mark)
    ensures CutAt([c] + s, mark) == [c] + CutAt(s, mark)
  {
    hide Contains, HasPrefix;
    assert ([c] + s)[1..] == s;
  }

  /** Text that cutting leaves out: nothing, or something that starts with a blank or a comment. */
  predicate Behind(rest: string) {
    rest == "" || rest[0] == ' ' || rest[0] == '\t' || HasPrefix(rest, "//") || HasPrefix(rest, "/*")
  }

  lemma BehindIsCut(rest: string)
    requires Behind(rest)
    ensures FirstWord(rest) == ""
  {
    assert ' ' in " \t" && '\t' in " \t";
    if HasPrefix(rest, "//") || HasPrefix(rest, "/*") {
      CommentIsCut(rest);
    }
  }

  lemma CommentIsCut(rest: string)
    requires HasPrefix(rest, "//") || HasPrefix(rest, "/*")
    ensures FirstWord(rest) == ""
  {
    var head := rest[..2];
    assert rest == head + rest[2..];
    CutAnyAfter(head, rest[2..], " \t");
    hide CutAny;
    var word := head + CutAny(rest[2..], " \t");
    assert word[..2] == head;
    if head == "/*" {
      SlashStarIsKept(word);
    } else {
      assert CutAt(word, "//") == "";
    }
  }

  lemma SlashStarIsKept(word: string)
    requires HasPrefix(word, "/*")
    ensures HasPrefix(CutAt(word, "//"), "/*")
  {
    var head := word[..1];
    assert word == "/*" + word[2..];
    var t := CutAt(word[1..], "//");
    assert word[1..][0] == '*' && word[1..][..1] == "*";
    assert word[0] == '/' && word[1] == '*';
    assert t[0] == '*';
  }

  /** A name as it may stand in a clause line: not broken, and not ending where trimming or a comment could reach. */
  predicate Plain(name: string) {
    name != "" && Unbroken(name) && !IsSpace(name[|name| - 1]) && name[|name| - 1] != '/'
  }

  lemma FirstWordIsTheName(name: string, rest: string)
    requires Plain(name) && Behind(rest)
    ensures FirstWord(name + rest) == name
  {
    hide Contains, IsSpace, CutAny, CutAt;
    BehindIsCut(rest);
    CutAnyAfter(name, rest, " \t");
    CutAtAfter(name, CutAny(rest, " \t"), "//");
    CutAtAfter(name, CutAt(CutAny(rest, " \t"), "//"), "/*");
  }

  // ---- trimming around a name --------------------------------------------------------------

  lemma {:induction false} TrimRightTakesSpace(s: string)
    ensures forall i :: |TrimRight(s)| <= i < |s| ==> IsSpace(s[i])
  {
    hide IsSpace;
    if s != [] && IsSpace(s[|s| - 1]) {
      TrimRightTakesSpace(s[..|s| - 1]);
    }
  }

  /** What trimming leaves of the text behind a name still starts as that text did. */
  lemma BehindTrimmed(s: string, rest: string) returns (left: string)
    requires s != "" && !IsSpace(s[|s| - 1]) && Behind(rest)
    ensures TrimRight(s + rest) == s + left && Behind(left)
    ensures !IsSpace((s + left)[|s + left| - 1])
  {
    var all := s + rest;
    TrimRightTakesSpace(all);
    var r := TrimRight(all);
    assert all[|s| - 1] == s[|s| - 1];
    assert |r| >= |s|;
    left := r[|s|..];
    assert r == all[..|r|] && left == rest[..|left|];
    assert r[..|s|] == s && r == s + left;
    StartsLikeTheWhole(all, rest, |s|, left);
  }

  lemma StartsLikeTheWhole(all: string, rest: string, k: nat, left: string)
    requires k <= |all| && all[k..] == rest && left <= rest && Behind(rest)
    requires forall i :: k + |left| <= i < |all| ==> IsSpace(all[i])
    ensures Behind(left)
  {
    assert !IsSpace('/') && !IsSpace('*');
    hide IsSpace;
    assert forall i :: |left| <= i < |rest| ==> IsSpace(rest[i]) by {
      forall i | |left| <= i < |rest| ensures IsSpace(rest[i]) {
        assert all[k + i] == rest[i];
      }
    }
    if HasPrefix(rest, "//") || HasPrefix(rest, "/*") {
      assert rest[0] == rest[..2][0] && rest[1] == rest[..2][1];
      assert |left| >= 2 && left[..2] == rest[..2];
    }
  }

  /** What may follow the name: space to the end of the line, or anything behind a blank or a comment opener. */
  predicate Trails(rest: string) { AllSpace(rest) || Behind(rest) }

  /** A line that declares a package: any indentation, the word, any further space, the name, and what may follow it. */
  predicate IsClauseLine(line: string, before: string, gap: string, name: string, rest: string) {
    line == before + "package " + gap + name + rest && AllSpace(before) && AllSpace(gap) && Trails(rest)
  }

  lemma TrailsTrimmed(s: string, rest: string) returns (left: string)
    requires s != "" && !IsSpace(s[|s| - 1]) && Trails(rest)
    ensures TrimRight(s + rest) == s + left && Behind(left)
    ensures !IsSpace((s + left)[|s + left| - 1])
  {
    hide IsSpace, AllSpace, TrimRight;
    if AllSpace(rest) {
      TrimRightBehind(s, rest);
      left := "";
      assert s + left == s;
    } else {
      left := BehindTrimmed(s, rest);
    }
  }

  lemma ClauseLine(shape: ClauseShape, line: string, before: string, gap: string, name: string, rest: string)
    requires IsClauseLine(line, before, gap, name, rest) && Plain(name)
    ensures ReadLine(shape, line) == Interpret(shape, name)
  {
    assert AllSpace(before) && AllSpace(gap) && Trails(rest) && line == before + "package " + gap + name + rest;
    hide *;
    var head := "package " + gap + name;
    PlainEnds(name);
    assert head[0] == 'p' && head[|head| - 1] == name[|name| - 1] && line == before + (head + rest);
    var left := TrailsTrimmed(head, rest);
    TrimBefore(before, head, rest);
    PackageBegins(gap, name, left);
    TrimmedName(gap, name, left);
    FirstWordIsTheName(name, left);
    ReadsTheWord(shape, line, head + left, name);
  }

  lemma PlainEnds(name: string)
    requires Plain(name)
    ensures name != "" && !IsSpace(name[0]) && !IsSpace(name[|name| - 1]) && !IsSpace('p')
  {
    hide Contains;
  }

  lemma PackageBegins(gap: string, name: string, left: string)
    ensures var t := "package " + gap + name + left;
            HasPrefix(t, "package ") && t[8..] == gap + (name + left)
  {
    var t := "package " + gap + name + left;
    assert t == "package " + (gap + (name + left));
  }

  lemma ReadsTheWord(shape: ClauseShape, line: string, t: string, name: string)
    requires TrimSpace(line) == t && HasPrefix(t, "package ") && FirstWord(TrimSpace(t[8..])) == name
    ensures ReadLine(shape, line) == Interpret(shape, name)
  {
    hide TrimSpace, FirstWord, Interpret;
  }

  lemma TrimBefore(before: string, head: string, rest: string)
    requires AllSpace(before) && head != "" && !IsSpace(head[0])
    ensures TrimSpace(before + (head + rest)) == TrimRight(head + rest)
  {
    hide IsSpace, TrimRight;
    TrimLeftBefore(before, head + rest);
    assert (head + rest)[0] == head[0];
  }

  lemma TrimmedName(gap: string, name: string, left: string)
    requires AllSpace(gap) && name != "" && !IsSpace(name[0]) && !IsSpace((name + left)[|name + left| - 1])
    ensures TrimSpace(gap + (name + left)) == name + left
  {
    hide IsSpace;
    TrimBefore(gap, name, left);
  }

  /** A Go line answers one identifier, and with a dot or a terminator it answers that there is none. */
  lemma GoLineReads(line: string, before: string, gap: string, name: string, rest: string)
    requires IsClauseLine(line, before, gap, name, rest) && Plain(name)
    ensures ReadLine(Clause(Go), line) == Answer(if '.' in name || ';' in name then "" else name)
  {
    hide ReadLine, IsClauseLine;
    ClauseLine(GoIdent, line, before, gap, name, rest);
    assert Plain(name) ==> name != "";
    hide Plain;
  }

  /** A JVM line answers its dotted name, with or without Java's terminator. */
  lemma JvmLineReads(f: Family, line: string, before: string, gap: string, name: string, end: string, rest: string)
    requires (f == Java || f == Kotlin) && (end == "" || end == ";")
    requires IsClauseLine(line, before, gap, name + end, rest) && Plain(name) && name[|name| - 1] != ';'
    ensures ReadLine(Clause(f), line) == Answer(name)
  {
    hide ReadLine, IsClauseLine, Contains, IsSpace;
    TerminatedIsPlain(name, end);
    ClauseLine(JvmDotted, line, before, gap, name + end, rest);
    hide Unbroken;
    assert (name + ";")[|name|..] == ";" && (name + ";")[..|name|] == name && name + "" == name;
    TrimmedLength(name);
  }

  /** The other twelve families read no clause, whatever a file holds. */
  lemma NoClauseElsewhere(f: Family, raw: string)
    requires f !in {Go, Java, Kotlin}
    ensures Read(Clause(f), raw) == ""
  {
  }

  lemma TerminatedIsPlain(name: string, end: string)
    requires Plain(name) && (end == "" || end == ";")
    ensures Plain(name + end)
  {
    hide Contains;
    ContainsBeforeTerminator(name, "//");
    ContainsBeforeTerminator(name, "/*");
    assert name + "" == name && (name + ";")[0] == name[0];
  }

  // ---- and nothing else --------------------------------------------------------------------

  lemma {:induction false} LeadingSpace(s: string) returns (before: string)
    ensures s == before + TrimLeft(s) && AllSpace(before)
  {
    hide *;
    NoSpaceToTrim(s);
    before := "";
    if s != [] && IsSpace(s[0]) {
      var rest := LeadingSpace(s[1..]);
      assert s == [s[0]] + s[1..];
      TrimLeftOfSpace(s[0], s[1..]);
      OneMoreSpace(s[0], rest);
      before := [s[0]] + rest;
      assert before + TrimLeft(s) == [s[0]] + (rest + TrimLeft(s[1..]));
    }
  }

  lemma NoSpaceToTrim(s: string)
    ensures s == [] || !IsSpace(s[0]) ==> s == "" + TrimLeft(s)
    ensures AllSpace("")
  {
    hide IsSpace;
  }

  lemma OneMoreSpace(c: char, s: string)
    requires IsSpace(c) && AllSpace(s)
    ensures AllSpace([c] + s)
  {
    hide IsSpace;
  }

  lemma TrailingSpace(s: string) returns (after: string)
    ensures s == TrimRight(s) + after && AllSpace(after)
  {
    hide IsSpace, TrimRight;
    TrimRightTakesSpace(s);
    after := s[|TrimRight(s)|..];
  }

  /** A text is what trimming leaves of it between two stretches of space. */
  lemma AroundTrimmed(s: string) returns (before: string, after: string)
    ensures s == before + TrimSpace(s) + after && AllSpace(before) && AllSpace(after)
  {
    TrimOfText(s);
    hide *;
    before := LeadingSpace(s);
    after := TrailingSpace(TrimLeft(s));
  }

  lemma WordIsFollowed(s: string)
    ensures FirstWord(s) <= s && Behind(s[|FirstWord(s)|..])
  {
    var a := CutAny(s, " \t");
    var b := CutAt(a, "//");
    var w := CutAt(b, "/*");
    hide CutAny, CutAt, Contains;
    if w != b {
      assert b[|w|..][..2] == s[|w|..][..2];
    } else if b != a {
      assert a[|w|..][..2] == s[|w|..][..2];
    }
  }

  /** Every line that answers a name is such a line, and the name stands in it. */
  lemma AnswersAreClauseLines(shape: ClauseShape, line: string, name: string)
    returns (before: string, gap: string, word: string, rest: string)
    requires ReadLine(shape, line) == Answer(name) && name != ""
    ensures IsClauseLine(line, before, gap, word, rest)
    ensures word == name || (shape == JvmDotted && word == name + ";")
    ensures shape == GoIdent ==> '.' !in name && ';' !in name
  {
    hide IsSpace, FirstWord, TrimSpace, Behind, AllSpace;
    var t := TrimSpace(line);
    var after, behind;
    before, after := AroundTrimmed(line);
    assert t == "package " + t[8..];
    gap, behind := AroundTrimmed(t[8..]);
    var inner := TrimSpace(t[8..]);
    word := FirstWord(inner);
    WordIsFollowed(inner);
    var left := inner[|word|..];
    assert inner == word + left;
    rest := left + behind + after;
    TrailsJoined(left, behind, after);
    assert line == before + "package " + gap + word + rest;
    assert HasSuffix(word, ";") ==> word == TrimSuffix(word, ";") + ";";
  }

  lemma TrailsJoined(left: string, behind: string, after: string)
    requires Behind(left) && AllSpace(behind) && AllSpace(after)
    ensures Trails(left + behind + after)
  {
    hide IsSpace;
    var rest := left + behind + after;
    if left == "" {
      assert rest == behind + after;
    } else {
      assert rest[0] == left[0];
      assert |left| >= 2 ==> rest[..2] == left[..2];
    }
  }

  // ---- whole files -------------------------------------------------------------------------

  /** No part of the file before its clause line starts with the word. */
  predicate Header(lines: seq<string>) {
    forall l :: l in lines ==> '\n' !in l && !HasPrefix(TrimSpace(l), "package ")
  }

  lemma {:induction false} HeaderIsSkipped(shape: ClauseShape, header: seq<string>, lines: seq<string>)
    requires Header(header)
    ensures ReadLines(shape, header + lines) == ReadLines(shape, lines)
  {
    hide TrimSpace, RawName;
    if header == [] {
      assert header + lines == lines;
    } else {
      assert header[0] in header && (header + lines)[0] == header[0];
      assert (header + lines)[1..] == header[1..] + lines;
      HeaderIsSkipped(shape, header[1..], lines);
    }
  }

  /** A file reads as the name on its first line that answers, whatever stands below it. */
  lemma FileReads(shape: ClauseShape, header: seq<string>, line: string, below: string, name: string)
    requires shape != Absent && Header(header) && '\n' !in line && ReadLine(shape, line) == Answer(name)
    ensures Read(shape, Unlines(header) + line + "\n" + below) == name
    ensures Read(shape, Unlines(header) + line) == name
  {
    hide TrimSpace, ReadLine, Split, Unlines;
    LinesBehindHeader(header, line + "\n" + below);
    LinesBehindHeader(header, line);
    assert Unlines(header) + line + "\n" + below == Unlines(header) + (line + "\n" + below);
    SplitAppend(line, '\n', below);
    SplitWithoutSeparator(line, '\n');
    assert line + ['\n'] + below == line + "\n" + below;
    hide Header;
    HeaderIsSkipped(shape, header, [line] + Lines(below));
    HeaderIsSkipped(shape, header, [line]);
  }

  lemma LinesBehindHeader(header: seq<string>, text: string)
    requires Header(header)
    ensures Lines(Unlines(header) + text) == header + Lines(text)
    decreases |header|
  {
    hide TrimSpace, Split;
    if header == [] {
      assert Unlines(header) + text == text && header + Lines(text) == Lines(text);
    } else {
      assert header[0] in header;
      LinesBehindHeader(header[1..], text);
      var tail := Unlines(header[1..]) + text;
      assert Unlines(header) + text == header[0] + ['\n'] + tail;
      SplitAppend(header[0], '\n', tail);
      SplitWithoutSeparator(header[0], '\n');
      assert [header[0]] + (header[1..] + Lines(text)) == header + Lines(text);
    }
  }
}
