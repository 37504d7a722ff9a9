/** String primitives of the harness: splitting, trimming, searching and cutting.
    A Go string is modelled as a sequence of characters. */
module Text {

  datatype Option<+T> = None | Some(value: T)

  // ---- splitting -----------------------------------------------------------

  /** One more character in front of the parts that follow it. */
  function Attach(c: char, rest: seq<string>, sep: char): (parts: seq<string>)
    requires |rest| >= 1
    ensures |parts| >= 1
  {
    if c == sep then [[]] + rest else [[c] + rest[0]] + rest[1..]
  }

  /** strings.Split on a one-character separator: one more part than separators. */
  function Split(s: string, sep: char): (parts: seq<string>)
    ensures |parts| >= 1
  {
    if s == [] then [[]] else Attach(s[0], Split(s[1..], sep), sep)
  }

  function Lines(s: string): (lines: seq<string>)
    ensures |lines| >= 1
  {
    Split(s, '\n')
  }

  /** The inverse of Split. */
  function Join(parts: seq<string>, sep: char): string
  {
    if parts == [] then []
    else if |parts| == 1 then parts[0]
    else parts[0] + [sep] + Join(parts[1..], sep)
  }

  lemma AttachAppend(c: char, rest: seq<string>, more: seq<string>, sep: char)
    requires |rest| >= 1
    ensures Attach(c, rest + more, sep) == Attach(c, rest, sep) + more
  {
  }

  /** Splitting distributes over concatenation at a separator. */
  lemma {:induction false} SplitAppend(a: string, sep: char, b: string)
    ensures Split(a + [sep] + b, sep) == Split(a, sep) + Split(b, sep)
  {
    if a == [] {
      assert (a + [sep] + b)[1..] == b;
    } else {
      hide Attach;
      SplitAppend(a[1..], sep, b);
      AttachAppend(a[0], Split(a[1..], sep), Split(b, sep), sep);
      assert (a + [sep] + b)[1..] == a[1..] + [sep] + b;
      assert (a + [sep] + b)[0] == a[0];
    }
  }

  lemma {:induction false} SplitWithoutSeparator(s: string, sep: char)
    requires sep !in s
    ensures Split(s, sep) == [s]
  {
    if s != [] {
      SplitWithoutSeparator(s[1..], sep);
      assert s == [s[0]] + s[1..];
    }
  }

  lemma {:induction false} SplitPartsAreFree(s: string, sep: char)
    ensures forall p :: p in Split(s, sep) ==> sep !in p
  {
    if s != [] {
      SplitPartsAreFree(s[1..], sep);
      var rest := Split(s[1..], sep);
      assert rest[0] in rest;
      assert forall p :: p in rest[1..] ==> p in rest;
    }
  }

  lemma {:induction false} JoinSplit(s: string, sep: char)
    ensures Join(Split(s, sep), sep) == s
  {
    if s != [] {
      JoinSplit(s[1..], sep);
      var rest := Split(s[1..], sep);
      if s[0] == sep {
        assert ([[]] + rest)[1..] == rest;
      } else {
        var parts := [[s[0]] + rest[0]] + rest[1..];
        assert parts[1..] == rest[1..];
      }
    }
  }

  lemma {:induction false} SplitJoin(parts: seq<string>, sep: char)
    requires parts != []
    requires forall p :: p in parts ==> sep !in p
    ensures Split(Join(parts, sep), sep) == parts
  {
    if |parts| == 1 {
      SplitWithoutSeparator(parts[0], sep);
    } else {
      SplitJoin(parts[1..], sep);
      SplitAppend(parts[0], sep, Join(parts[1..], sep));
      SplitWithoutSeparator(parts[0], sep);
    }
  }

  // ---- affixes and searching -----------------------------------------------

  predicate HasSuffix(s: string, suffix: string) {
    |suffix| <= |s| && s[|s| - |suffix|..] == suffix
  }

  predicate HasPrefix(s: string, prefix: string) {
    |prefix| <= |s| && s[..|prefix|] == prefix
  }

  /** s with one trailing occurrence of suffix removed, when there is one. */
  function TrimSuffix(s: string, suffix: string): string {
    if HasSuffix(s, suffix) then s[..|s| - |suffix|] else s
  }

  /** strings.Contains */
  predicate Contains(s: string, sub: string) {
    HasPrefix(s, sub) || (s != [] && Contains(s[1..], sub))
  }

  lemma {:induction false} ContainsInPrefix(r: string, s: string, sub: string)
    requires r <= s && Contains(r, sub)
    ensures Contains(s, sub)
  {
    if HasPrefix(r, sub) {
      assert s[..|sub|] == r[..|sub|];
    } else {
      ContainsInPrefix(r[1..], s[1..], sub);
    }
  }

  lemma {:induction false} ContainsNeedsItsStart(s: string, sub: string)
    requires sub != [] && sub[0] !in s
    ensures !Contains(s, sub)
  {
    if s != [] {
      ContainsNeedsItsStart(s[1..], sub);
    }
  }

  /** The part of s before the first character of `stops`, or all of s. */
  function CutAny(s: string, stops: string): (r: string)
    ensures r <= s
    ensures forall c :: c in stops ==> c !in r
    ensures (forall c :: c in stops ==> c !in s) ==> r == s
    ensures r == s || s[|r|] in stops
  {
    if s == [] || s[0] in stops then [] else [s[0]] + CutAny(s[1..], stops)
  }

  /** The part of s before the first occurrence of a non-empty mark, or all of s. */
  function CutAt(s: string, mark: string): (r: string)
    requires mark != []
    ensures r <= s
    ensures !Contains(r, mark)
    ensures !Contains(s, mark) ==> r == s
    ensures r == s || HasPrefix(s[|r|..], mark)
  {
    if s == [] || HasPrefix(s, mark) then []
    else
      var t := CutAt(s[1..], mark);
      var r := [s[0]] + t;
      assert r[1..] == t;
      assert |mark| <= |r| ==> s[..|mark|] == r[..|mark|];
      r
  }

  // ---- white space ---------------------------------------------------------

  /** unicode.IsSpace */
  predicate IsSpace(c: char) {
    || c == ' ' || ('\t' <= c <= '\r') || c == '\U{85}' || c == '\U{A0}' || c == '\U{1680}'
    || ('\U{2000}' <= c <= '\U{200A}') || c == '\U{2028}' || c == '\U{2029}' || c == '\U{202F}'
    || c == '\U{205F}' || c == '\U{3000}'
  }

  function TrimLeft(s: string): (r: string)
    ensures r == [] || !IsSpace(r[0])
    ensures |r| <= |s| && r == s[|s| - |r|..]
  {
    if s != [] && IsSpace(s[0]) then TrimLeft(s[1..]) else s
  }

  function TrimRight(s: string): (r: string)
    ensures r == [] || !IsSpace(r[|r| - 1])
    ensures r <= s
    ensures s != [] && !IsSpace(s[|s| - 1]) ==> r == s
  {
    if s != [] && IsSpace(s[|s| - 1]) then TrimRight(s[..|s| - 1]) else s
  }

  function TrimSpace(s: string): (r: string)
    ensures r == [] || (!IsSpace(r[0]) && !IsSpace(r[|r| - 1]))
    ensures forall c :: c in r ==> c in s
  {
    TrimRight(TrimLeft(s))
  }

  predicate AllSpace(s: string) {
    forall c :: c in s ==> IsSpace(c)
  }

  /** Trimming takes the white space around a text and nothing else. */
  lemma TrimSpaceAround(before: string, s: string, after: string)
    requires AllSpace(before) && AllSpace(after)
    requires s == "" || (!IsSpace(s[0]) && !IsSpace(s[|s| - 1]))
    ensures TrimSpace(before + s + after) == s
  {
    hide *;
    assert before + s + after == before + (s + after);
    TrimLeftBefore(before, s + after);
    TrimLeftOfText(s, after);
    TrimOfText(before + s + after);
    if s != "" {
      TrimRightBehind(s, after);
    }
  }

  lemma TrimOfText(s: string)
    ensures TrimSpace(s) == TrimRight(TrimLeft(s)) && TrimRight("") == ""
  {
    hide TrimLeft;
  }

  lemma TrimLeftOfText(s: string, after: string)
    requires AllSpace(after) && (s == "" || !IsSpace(s[0]))
    ensures TrimLeft(s + after) == if s == "" then "" else s + after
  {
    hide IsSpace, AllSpace;
    if s == "" {
      TrimLeftBefore(after, "");
      assert s + after == after + "";
    } else {
      assert (s + after)[0] == s[0];
    }
  }

  lemma {:induction false} TrimLeftBefore(before: string, s: string)
    requires AllSpace(before)
    ensures TrimLeft(before + s) == TrimLeft(s)
  {
    hide IsSpace, TrimLeft;
    if before == "" {
      assert before + s == s;
    } else {
      var rest := before[1..];
      assert IsSpace(before[0]) && AllSpace(rest);
      hide AllSpace;
      TrimLeftBefore(rest, s);
      assert before + s == [before[0]] + (rest + s);
      TrimLeftOfSpace(before[0], rest + s);
    }
  }

  lemma TrimLeftOfSpace(c: char, s: string)
    requires IsSpace(c)
    ensures TrimLeft([c] + s) == TrimLeft(s)
  {
    hide IsSpace;
    assert ([c] + s)[1..] == s;
  }

  lemma {:induction false} TrimRightBehind(s: string, after: string)
    requires AllSpace(after) && s != "" && !IsSpace(s[|s| - 1])
    ensures TrimRight(s + after) == s
  {
    hide IsSpace;
    if after == "" {
      assert s + after == s;
    } else {
      var init := after[..|after| - 1];
      TrimRightBehind(s, init);
      assert (s + after)[|s + after| - 1] == after[|after| - 1] && (s + after)[..|s + after| - 1] == s + init;
    }
  }
}
