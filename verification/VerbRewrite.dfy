/** Short verbs mean the long form: argument rewriting against global-flag extraction. */
module VerbRewrite {
  import opened Text

  // ---- extracting the global flags -------------------------------------------------------

  datatype Extracted = Extracted(db: string, socket: string, meta: string, rest: seq<string>)

  const Nothing := Extracted("", "", "", [])

  /** Does the first token carry this flag? As a separate value (2 tokens), joined by "=" (1), or not at all (0). */
  function Takes(args: seq<string>, name: string): (n: nat)
    requires args != []
    ensures n <= 2 && n <= |args|
  {
    if args[0] == name && |args| > 1 then 2
    else if HasPrefix(args[0], name + "=") then 1
    else 0
  }

  function Taken(args: seq<string>, name: string): string
    requires args != [] && Takes(args, name) > 0
  {
    if Takes(args, name) == 2 then args[1] else args[0][|name| + 1..]
  }

  /** Scanning the arguments from left to right; a later flag overrides an earlier one. */
  function Scan(args: seq<string>, st: Extracted): Extracted
    decreases |args|
  {
    if args == [] then st
    else if Takes(args, "-db") > 0 then Scan(args[Takes(args, "-db")..], st.(db := Taken(args, "-db")))
    else if Takes(args, "-daemon") > 0 then Scan(args[Takes(args, "-daemon")..], st.(socket := Taken(args, "-daemon")))
    else if Takes(args, "-meta") > 0 then Scan(args[Takes(args, "-meta")..], st.(meta := Taken(args, "-meta")))
    else Scan(args[1..], st.(rest := st.rest + [args[0]]))
  }

  /** One step of the scan, from index i. */
  lemma ScanFrom(args: seq<string>, i: nat, st: Extracted)
    requires i < |args|
    ensures var db, daemon, meta := Takes(args[i..], "-db"), Takes(args[i..], "-daemon"), Takes(args[i..], "-meta");
            Scan(args[i..], st) ==
              if db > 0 then Scan(args[i + db..], st.(db := Taken(args[i..], "-db")))
              else if daemon > 0 then Scan(args[i + daemon..], st.(socket := Taken(args[i..], "-daemon")))
              else if meta > 0 then Scan(args[i + meta..], st.(meta := Taken(args[i..], "-meta")))
              else Scan(args[i + 1..], st.(rest := st.rest + [args[i]]))
  {
    hide Takes, Taken;
    assert forall n :: 0 < n <= |args| - i ==> args[i..][n..] == args[i + n..];
  }

  /** The index loop of extractFlagsMeta; `Take` may advance the index past a value. */
  method ExtractFlagsMeta(args: seq<string>)
    returns (dbPath: string, socket: string, metaDir: string, rest: seq<string>)
    ensures Extracted(dbPath, socket, metaDir, rest) == Scan(args, Nothing)
  {
    hide Takes, Taken, Scan;
    dbPath, socket, metaDir, rest := "", "", "", [];
    var i := 0;
    assert args[0..] == args;
    while i < |args|
      invariant 0 <= i <= |args|
      invariant Scan(args[i..], Extracted(dbPath, socket, metaDir, rest)) == Scan(args, Nothing)
    {
      ScanFrom(args, i, Extracted(dbPath, socket, metaDir, rest));
      var v, n := Take(args, i, "-db");
      if n > 0 {
        dbPath, i := v, i + n;
        continue;
      }
      v, n := Take(args, i, "-daemon");
      if n > 0 {
        socket, i := v, i + n;
        continue;
      }
      v, n := Take(args, i, "-meta");
      if n > 0 {
        metaDir, i := v, i + n;
        continue;
      }
      rest := rest + [args[i]];
      i := i + 1;
    }
    assert args[i..] == [];
    ScanNothing(Extracted(dbPath, socket, metaDir, rest));
  }

  lemma ScanNothing(st: Extracted)
    ensures Scan([], st) == st
  {
  }

  method Take(args: seq<string>, i: nat, name: string) returns (v: string, n: nat)
    requires i < |args|
    ensures n == Takes(args[i..], name) && (n > 0 ==> v == Taken(args[i..], name))
  {
    if args[i] == name && i + 1 < |args| {
      return args[i + 1], 2;
    }
    if HasPrefix(args[i], name + "=") {
      return args[i][|name| + 1..], 1;
    }
    return "", 0;
  }

  // ---- rewriting a short verb ---------------------------------------------------------------

  /** How many tokens the front pull takes in its next step; a joined flag needs a non-empty value. */
  function Pulls(args: seq<string>): (n: nat)
    ensures n <= 2 && n <= |args|
  {
    if args == [] then 0
    else if args[0] == "-db" && |args| > 1 then 2
    else if |args[0]| > 4 && args[0][..4] == "-db=" then 1
    else if args[0] == "-daemon" && |args| > 1 then 2
    else if |args[0]| > 8 && args[0][..8] == "-daemon=" then 1
    else 0
  }

  /** How many leading tokens are global flags and their values. */
  function FrontPull(args: seq<string>): (i: nat)
    ensures i <= |args|
    decreases |args|
  {
    if Pulls(args) == 0 then 0 else Pulls(args) + FrontPull(args[Pulls(args)..])
  }

  predicate IsSymbolFlag(a: string) { a == "-symbol" || (|a| >= 8 && a[..8] == "-symbol=") }

  predicate HasSymbol(tail: seq<string>) { exists a :: a in tail && IsSymbolFlag(a) }

  predicate IsBare(a: string) { a != "" && a[0] != '-' }

  /** The leading remaining token is a bare positional and no symbol is given. */
  predicate Promotes(tail: seq<string>) { tail != [] && !HasSymbol(tail) && IsBare(tail[0]) }

  function Rewritten(op: string, args: seq<string>): seq<string> {
    var i := FrontPull(args);
    args[..i] + [op] + (if Promotes(args[i..]) then ["-symbol"] + args[i..] else args[i..])
  }

  method RewriteVerbArgs(op: string, args: seq<string>) returns (out: seq<string>)
    ensures out == Rewritten(op, args)
  {
    hide FrontPull, HasSymbol;
    var i := PullFront(args);
    var prefix := args[..i];
    var tail := args[i..];
    var hasSymbol := FindSymbol(tail);
    var rest: seq<string> := [];
    if |tail| > 0 && !hasSymbol && |tail[0]| > 0 && tail[0][0] != '-' {
      rest := rest + ["-symbol", tail[0]];
      rest := rest + tail[1..];
      assert rest == ["-symbol"] + tail;
    } else {
      rest := rest + tail;
    }
    out := prefix + [op] + rest;
  }

  /** The front-pull loop: it stops at the first token that is not one of the two flags. */
  method PullFront(args: seq<string>) returns (i: nat)
    ensures i == FrontPull(args)
  {
    hide Pulls, FrontPull;
    i := 0;
    assert args[0..] == args;
    PullsNothing();
    while i < |args|
      invariant 0 <= i <= |args|
      invariant FrontPull(args) == i + FrontPull(args[i..])
    {
      var a := args[i];
      PullsAt(args, i);
      if a == "-db" && i + 1 < |args| {
        i := i + 2;
      } else if |a| > 4 && a[..4] == "-db=" {
        i := i + 1;
      } else if a == "-daemon" && i + 1 < |args| {
        i := i + 2;
      } else if |a| > 8 && a[..8] == "-daemon=" {
        i := i + 1;
      } else {
        return;
      }
    }
    assert args[i..] == [];
  }

  lemma PullsNothing()
    ensures FrontPull([]) == 0
  {
  }

  lemma PullsAt(args: seq<string>, i: nat)
    requires i < |args|
    ensures var n, a := Pulls(args[i..]), args[i];
            && i + n <= |args|
            && FrontPull(args[i..]) == (if n == 0 then 0 else n + FrontPull(args[i + n..]))
            && n == (if a == "-db" && i + 1 < |args| then 2
                     else if |a| > 4 && a[..4] == "-db=" then 1
                     else if a == "-daemon" && i + 1 < |args| then 2
                     else if |a| > 8 && a[..8] == "-daemon=" then 1
                     else 0)
  {
    var n := Pulls(args[i..]);
    assert args[i..][n..] == args[i + n..];
  }

  method FindSymbol(tail: seq<string>) returns (found: bool)
    ensures found <==> HasSymbol(tail)
  {
    for k := 0 to |tail|
      invariant forall j :: 0 <= j < k ==> !IsSymbolFlag(tail[j])
    {
      if IsSymbolFlag(tail[k]) {
        return true;
      }
    }
    return false;
  }

  // ---- the parity contract ---------------------------------------------------------------------

  /** A token that is neither a global flag nor one joined to its value. */
  predicate Plain(a: string) {
    && a != "-db" && a != "-daemon" && a != "-meta"
    && !HasPrefix(a, "-db=") && !HasPrefix(a, "-daemon=") && !HasPrefix(a, "-meta=")
  }

  lemma BareIsPlain(a: string)
    requires IsBare(a)
    ensures Plain(a)
  {
  }

  /** Values are read off independently of what was collected before; the leftover only grows at its end. */
  lemma {:induction false} ScanAccumulates(args: seq<string>, st: Extracted, before: seq<string>)
    ensures Scan(args, st.(rest := before + st.rest)) == Scan(args, st).(rest := before + Scan(args, st).rest)
    decreases |args|
  {
    hide Takes, Taken;
    if args != [] {
      if Takes(args, "-db") > 0 {
        ScanAccumulates(args[Takes(args, "-db")..], st.(db := Taken(args, "-db")), before);
      } else if Takes(args, "-daemon") > 0 {
        ScanAccumulates(args[Takes(args, "-daemon")..], st.(socket := Taken(args, "-daemon")), before);
      } else if Takes(args, "-meta") > 0 {
        ScanAccumulates(args[Takes(args, "-meta")..], st.(meta := Taken(args, "-meta")), before);
      } else {
        ScanAccumulates(args[1..], st.(rest := st.rest + [args[0]]), before);
        assert before + st.rest + [args[0]] == before + (st.rest + [args[0]]);
      }
    }
  }

  /** A plain token joins the leftover whatever follows it. */
  lemma ScanPlain(a: string, args: seq<string>, st: Extracted)
    requires Plain(a)
    ensures Scan([a] + args, st) == Scan(args, st.(rest := st.rest + [a]))
  {
    var all := [a] + args;
    assert all[1..] == args;
    assert Takes(all, "-db") == 0 && Takes(all, "-daemon") == 0 && Takes(all, "-meta") == 0;
  }

  /** What a pulled token and its value do to the scan, whatever follows. */
  lemma PulledStep(args: seq<string>, more: seq<string>, st: Extracted) returns (next: Extracted)
    requires Pulls(args) > 0
    ensures next.rest == st.rest
    ensures Scan(args, st) == Scan(args[Pulls(args)..], next)
    ensures Scan(args[..Pulls(args)] + more, st) == Scan(more, next)
  {
    var n := Pulls(args);
    var other := args[..n] + more;
    assert other[n..] == more;
    PulledIsTaken(args, other);
    hide Pulls;
    if Takes(args, "-db") > 0 {
      next := st.(db := Taken(args, "-db"));
    } else {
      next := st.(socket := Taken(args, "-daemon"));
    }
  }

  lemma PulledIsTaken(args: seq<string>, other: seq<string>)
    requires Pulls(args) > 0 && |other| >= Pulls(args) && other[..Pulls(args)] == args[..Pulls(args)]
    ensures Takes(args, "-db") == Takes(other, "-db") && (Takes(args, "-db") == Pulls(args) || Takes(args, "-db") == 0)
    ensures Takes(args, "-db") == 0 ==> Takes(args, "-daemon") == Takes(other, "-daemon") == Pulls(args)
    ensures Takes(args, "-db") > 0 ==> Taken(args, "-db") == Taken(other, "-db")
    ensures Takes(args, "-db") == 0 ==> Taken(args, "-daemon") == Taken(other, "-daemon")
  {
    var n := Pulls(args);
    assert args[0] == args[..n][0] == other[0];
    if n == 2 {
      assert args[1] == args[..n][1] == other[1];
    } else {
      assert HasPrefix(args[0], "-db=") || HasPrefix(args[0], "-daemon=");
    }
  }

  /** The pulled prefix sets the same values in front of any tail. */
  lemma {:induction false} ScanThroughPrefix(args: seq<string>, tail: seq<string>, st: Extracted)
    returns (mid: Extracted)
    ensures mid.rest == st.rest
    ensures Scan(args, st) == Scan(args[FrontPull(args)..], mid)
    ensures Scan(args[..FrontPull(args)] + tail, st) == Scan(tail, mid)
    decreases |args|
  {
    hide *;
    FrontPullStep(args);
    var n := Pulls(args);
    if n == 0 {
      mid := st;
      assert args[0..] == args && args[..0] + tail == tail;
    } else {
      var inner := args[n..];
      var k := FrontPull(inner);
      var next := PulledStep(args, inner[..k] + tail, st);
      mid := ScanThroughPrefix(inner, tail, next);
      assert args[..n] + (inner[..k] + tail) == args[..n + k] + tail;
      assert inner[k..] == args[n + k..];
    }
  }

  lemma FrontPullStep(args: seq<string>)
    ensures var n := Pulls(args); FrontPull(args) == if n == 0 then 0 else n + FrontPull(args[n..])
  {
    hide Pulls;
  }

  /** For every argv: the global values are those of the original, and the leftover is the verb, then "-symbol"
      exactly when the leading remaining token is promoted, then the original leftover. */
  lemma ShortVerbMeansLongForm(op: string, args: seq<string>)
    requires IsBare(op)
    ensures var original := Scan(args, Nothing);
            var promoted := if Promotes(args[FrontPull(args)..]) then ["-symbol"] else [];
            Scan(Rewritten(op, args), Nothing) == original.(rest := [op] + promoted + original.rest)
  {
    hide Scan, FrontPull, HasSymbol, Plain;
    var i := FrontPull(args);
    var tail := args[i..];
    var promoted: seq<string> := if Promotes(tail) then ["-symbol"] else [];
    var rest := promoted + tail;
    assert Rewritten(op, args) == args[..i] + ([op] + rest);
    var mid := ScanThroughPrefix(args, [op] + rest, Nothing);
    var head := [op] + promoted;
    BareIsPlain(op);
    ScanPlain(op, rest, mid);
    var withOp := mid.(rest := mid.rest + [op]);
    if Promotes(tail) {
      SymbolFlagIsPlain();
      ScanPlain("-symbol", tail, withOp);
      assert mid.rest + [op] + ["-symbol"] == head + mid.rest;
    } else {
      assert rest == tail && mid.rest + [op] == head + mid.rest;
    }
    ScanAccumulates(tail, mid, head);
    assert head + Scan(tail, mid).rest == [op] + promoted + Scan(args, Nothing).rest;
  }

  lemma SymbolFlagIsPlain()
    ensures Plain("-symbol")
  {
    NotBehind("-symbol", "-db=");
    NotBehind("-symbol", "-daemon=");
    NotBehind("-symbol", "-meta=");
    assert |"-symbol"| == 7 && |"-daemon"| == 7 && "-symbol"[1] == 's' && "-daemon"[1] == 'd';
    assert |"-db"| == 3 && |"-meta"| == 5;
  }

  lemma NotBehind(a: string, prefix: string)
    requires |a| > 1 && |prefix| > 1 && a[1] != prefix[1]
    ensures !HasPrefix(a, prefix)
  {
    if |prefix| <= |a| {
      assert a[..|prefix|][1] == a[1];
    }
  }

  /** What the promotion promotes is the first of the original leftover. */
  lemma PromotedIsFirstLeftover(args: seq<string>)
    requires Promotes(args[FrontPull(args)..])
    ensures var rest := Scan(args, Nothing).rest; rest != [] && rest[0] == args[FrontPull(args)]
  {
    hide Scan, FrontPull, HasSymbol, Plain;
    var tail := args[FrontPull(args)..];
    var mid := ScanThroughPrefix(args, [], Nothing);
    BareIsPlain(tail[0]);
    assert tail == [tail[0]] + tail[1..];
    ScanPlain(tail[0], tail[1..], mid);
    var after := mid.(rest := []);
    assert mid.(rest := mid.rest + [tail[0]]) == after.(rest := [tail[0]] + after.rest);
    ScanAccumulates(tail[1..], after, [tail[0]]);
  }

  // ---- the same, by the shape of the arguments ---------------------------------------------------

  datatype Global = Db | Daemon | Meta

  function FlagName(g: Global): string {
    match g
    case Db => "-db"
    case Daemon => "-daemon"
    case Meta => "-meta"
  }

  /** A global flag with its value, as two tokens or joined by "=". */
  datatype Flag = Flag(global: Global, value: string, joined: bool)

  function Tokens(f: Flag): seq<string> {
    if f.joined then [FlagName(f.global) + "=" + f.value] else [FlagName(f.global), f.value]
  }

  function AllTokens(flags: seq<Flag>): seq<string> {
    if flags == [] then [] else Tokens(flags[0]) + AllTokens(flags[1..])
  }

  /** A leading flag that is pulled in front of the verb: -db or -daemon, and not one joined to an empty value. */
  predicate Leading(f: Flag) { f.global != Meta && (f.joined ==> f.value != "") }

  ghost predicate StartsWithLeading(args: seq<string>) {
    exists f: Flag :: Leading(f) && Tokens(f) <= args
  }

  lemma PulledIsAFlag(args: seq<string>) returns (f: Flag)
    requires Pulls(args) > 0
    ensures Leading(f) && Tokens(f) == args[..Pulls(args)]
  {
    var a := args[0];
    if a == "-db" && |args| > 1 {
      f := Flag(Db, args[1], false);
    } else if |a| > 4 && a[..4] == "-db=" {
      f := Flag(Db, a[4..], true);
      assert a == "-db" + "=" + a[4..];
    } else if a == "-daemon" && |args| > 1 {
      f := Flag(Daemon, args[1], false);
    } else {
      f := Flag(Daemon, a[8..], true);
      assert a == "-daemon" + "=" + a[8..];
    }
  }

  lemma FlagIsPulled(f: Flag, more: seq<string>)
    requires Leading(f)
    ensures Pulls(Tokens(f) + more) == |Tokens(f)|
  {
    var args := Tokens(f) + more;
    assert args[0] == Tokens(f)[0];
    if f.joined {
      var a := args[0];
      if f.global == Db {
        assert a[..4] == "-db=" && |a| == 4 + |f.value|;
      } else {
        assert a[..8] == "-daemon=" && |a| == 8 + |f.value|;
        assert a[1] == 'd' && a[2] == 'a';
        assert a[..4][2] == 'a';
      }
    } else {
      assert args[1] == f.value;
      if f.global == Daemon {
        assert args[0][..4][2] == 'a';
      }
    }
  }

  /** The front pull takes whole flags and stops where none starts. */
  lemma {:induction false} PrefixIsFlags(args: seq<string>) returns (flags: seq<Flag>)
    ensures forall f :: f in flags ==> Leading(f)
    ensures AllTokens(flags) == args[..FrontPull(args)]
    ensures !StartsWithLeading(args[FrontPull(args)..])
    decreases |args|
  {
    hide Pulls, Tokens, Leading;
    var n := Pulls(args);
    if n == 0 {
      flags := [];
      NothingPulled(args);
      assert args[0..] == args;
    } else {
      var f := PulledIsAFlag(args);
      var rest := PrefixIsFlags(args[n..]);
      flags := [f] + rest;
      assert args[..n] + args[n..][..FrontPull(args[n..])] == args[..FrontPull(args)];
      assert args[n..][FrontPull(args[n..])..] == args[FrontPull(args)..];
      assert flags[1..] == rest;
    }
  }

  lemma NothingPulled(args: seq<string>)
    requires Pulls(args) == 0
    ensures !StartsWithLeading(args)
  {
    hide Pulls, Tokens;
    forall f: Flag | Leading(f)
      ensures !(Tokens(f) <= args)
    {
      PulledWhenItStarts(f, args);
    }
  }

  lemma PulledWhenItStarts(f: Flag, args: seq<string>)
    requires Leading(f)
    ensures Tokens(f) <= args ==> Pulls(args) > 0
  {
    hide Pulls;
    if Tokens(f) <= args {
      assert args == Tokens(f) + args[|Tokens(f)|..];
      FlagIsPulled(f, args[|Tokens(f)|..]);
    }
  }

  /** And it takes all of them, however many stand in front. */
  lemma {:induction false} FlagsArePrefix(flags: seq<Flag>, tail: seq<string>)
    requires (forall f :: f in flags ==> Leading(f)) && !StartsWithLeading(tail)
    ensures FrontPull(AllTokens(flags) + tail) == |AllTokens(flags)|
  {
    hide Pulls, Tokens, Leading;
    if flags == [] {
      assert AllTokens(flags) + tail == tail;
      if Pulls(tail) > 0 {
        var f := PulledIsAFlag(tail);
      }
    } else {
      var f, rest := flags[0], AllTokens(flags[1..]);
      assert AllTokens(flags) + tail == Tokens(f) + (rest + tail);
      FlagIsPulled(f, rest + tail);
      assert (Tokens(f) + (rest + tail))[|Tokens(f)|..] == rest + tail;
      FlagsArePrefix(flags[1..], tail);
    }
  }

  /** The whole rewriting: leading -db and -daemon flags stay in front, then the verb, then -symbol when the first other
      token is bare and no token is a symbol flag, then the rest. */
  lemma RewriteByShape(op: string, flags: seq<Flag>, tail: seq<string>)
    requires (forall f :: f in flags ==> Leading(f)) && !StartsWithLeading(tail)
    ensures var named := exists a :: a in tail && (a == "-symbol" || "-symbol=" <= a);
            var bare := tail != [] && tail[0] != "" && tail[0][0] != '-';
            Rewritten(op, AllTokens(flags) + tail) ==
              AllTokens(flags) + [op] + (if bare && !named then ["-symbol"] else []) + tail
  {
    hide StartsWithLeading, Leading, Tokens, AllTokens, FrontPull, HasSymbol, IsBare;
    FlagsArePrefix(flags, tail);
    var args, i := AllTokens(flags) + tail, |AllTokens(flags)|;
    assert args[..i] == AllTokens(flags) && args[i..] == tail;
    SymbolByShape(tail);
    if tail != [] {
      BareByShape(tail[0]);
    }
  }

  lemma SymbolByShape(tail: seq<string>)
    ensures HasSymbol(tail) <==> exists a :: a in tail && (a == "-symbol" || "-symbol=" <= a)
  {
    forall a: string
      ensures IsSymbolFlag(a) <==> a == "-symbol" || "-symbol=" <= a
    {
    }
    hide IsSymbolFlag;
  }

  lemma BareByShape(a: string)
    ensures IsBare(a) <==> a != "" && a[0] != '-'
  {
  }

  /** An argument is a global flag or any other token. */
  datatype Item = Carries(flag: Flag) | Other(text: string)

  function Written(items: seq<Item>): seq<string> {
    if items == [] then []
    else (match items[0] case Carries(f) => Tokens(f) case Other(a) => [a]) + Written(items[1..])
  }

  /** The value given last for a flag, or the one it had before. */
  function LastValue(items: seq<Item>, g: Global, before: string): string {
    if items == [] then before
    else match items[|items| - 1]
      case Carries(f) => if f.global == g then f.value else LastValue(items[..|items| - 1], g, before)
      case Other(_) => LastValue(items[..|items| - 1], g, before)
  }

  function Others(items: seq<Item>): seq<string> {
    if items == [] then []
    else (match items[0] case Carries(_) => [] case Other(a) => [a]) + Others(items[1..])
  }

  lemma FlagIsTaken(f: Flag, more: seq<string>, st: Extracted)
    ensures Scan(Tokens(f) + more, st) == Scan(more, match f.global
                                                     case Db => st.(db := f.value)
                                                     case Daemon => st.(socket := f.value)
                                                     case Meta => st.(meta := f.value))
  {
    var args := Tokens(f) + more;
    assert args[|Tokens(f)|..] == more;
    FlagTakes(f, more);
    hide Tokens, Takes, Taken;
  }

  lemma FlagTakes(f: Flag, more: seq<string>)
    ensures var args := Tokens(f) + more;
            && args != [] && Takes(args, FlagName(f.global)) == |Tokens(f)| > 0
            && Taken(args, FlagName(f.global)) == f.value
            && (f.global != Db ==> Takes(args, "-db") == 0)
            && (f.global == Meta ==> Takes(args, "-daemon") == 0)
  {
    var args := Tokens(f) + more;
    var name := FlagName(f.global);
    var a := args[0];
    assert a == Tokens(f)[0];
    if f.joined {
      assert a == name + "=" + f.value;
      assert a[..|name| + 1] == name + "=" && a[|name| + 1..] == f.value;
      assert |a| == |name| + 1 + |f.value| && a != name;
    } else {
      assert args[1] == f.value;
    }
    assert f.global != Db ==> a[1] != 'd' || a[2] != 'b';
    assert f.global == Meta ==> a[1] == 'm';
    NotThisFlag(a, "-db");
    NotThisFlag(a, "-daemon");
  }

  lemma NotThisFlag(a: string, name: string)
    requires |name| > 2
    ensures |a| > 2 && (a[1] != name[1] || a[2] != name[2]) ==> a != name && !HasPrefix(a, name + "=")
  {
    if HasPrefix(a, name + "=") {
      assert a[..|name| + 1] == name + "=";
      assert a[1] == (name + "=")[1] && a[2] == (name + "=")[2];
    }
  }

  lemma {:induction false} LastOfTail(items: seq<Item>, g: Global, before: string)
    requires items != []
    ensures LastValue(items, g, before) ==
            LastValue(items[1..], g, if items[0].Carries? && items[0].flag.global == g then items[0].flag.value
                                     else before)
  {
    if |items| > 1 {
      LastOfTail(items[..|items| - 1], g, before);
      assert items[..|items| - 1][1..] == items[1..][..|items| - 2];
      assert items[1..][|items| - 2] == items[|items| - 1];
    } else {
      assert items[1..] == [] && items[..0] == [];
    }
  }

  /** What the values given last, and the other tokens in their order, make of st. */
  function Summary(items: seq<Item>, st: Extracted): Extracted {
    Extracted(LastValue(items, Db, st.db), LastValue(items, Daemon, st.socket), LastValue(items, Meta, st.meta),
              st.rest + Others(items))
  }

  function Next(x: Item, st: Extracted): Extracted {
    match x
    case Carries(f) =>
      (match f.global
       case Db => st.(db := f.value)
       case Daemon => st.(socket := f.value)
       case Meta => st.(meta := f.value))
    case Other(a) => st.(rest := st.rest + [a])
  }

  lemma SummaryNext(items: seq<Item>, st: Extracted)
    requires items != []
    ensures Summary(items, st) == Summary(items[1..], Next(items[0], st))
  {
    hide LastValue, Others;
    LastOfTail(items, Db, st.db);
    LastOfTail(items, Daemon, st.socket);
    LastOfTail(items, Meta, st.meta);
    OthersOfTail(items);
    var others := Others(items[1..]);
    match items[0] {
      case Carries(f) => assert [] + others == others;
      case Other(a) => assert st.rest + ([a] + others) == st.rest + [a] + others;
    }
  }

  lemma OthersOfTail(items: seq<Item>)
    requires items != []
    ensures Others(items) == (if items[0].Other? then [items[0].text] else []) + Others(items[1..])
  {
  }

  lemma ScanNext(items: seq<Item>, st: Extracted)
    requires items != [] && (items[0].Other? ==> Plain(items[0].text))
    ensures Scan(Written(items), st) == Scan(Written(items[1..]), Next(items[0], st))
  {
    hide Tokens, Plain, Scan;
    match items[0] {
      case Carries(f) => FlagIsTaken(f, Written(items[1..]), st);
      case Other(a) => ScanPlain(a, Written(items[1..]), st);
    }
  }

  lemma SummaryOfNothing(st: Extracted)
    ensures Scan(Written([]), st) == Summary([], st) == st
  {
  }

  /** Scanning finds in any argument list the value given last for each flag, and the other tokens in their order. */
  lemma {:induction false} ScanFindsTheLast(items: seq<Item>, st: Extracted)
    requires forall i :: 0 <= i < |items| && items[i].Other? ==> Plain(items[i].text)
    ensures Scan(Written(items), st) == Summary(items, st)
  {
    hide Plain, Scan, Summary, Written, Next;
    if items == [] {
      SummaryOfNothing(st);
    } else {
      ScanNext(items, st);
      ScanFindsTheLast(items[1..], Next(items[0], st));
      SummaryNext(items, st);
    }
  }

  /** A flag that ends the arguments without a value is an ordinary token. */
  lemma LoneFlagIsLeftOver(g: Global, st: Extracted)
    ensures Scan([FlagName(g)], st) == st.(rest := st.rest + [FlagName(g)])
  {
    var args := [FlagName(g)];
    assert args[1..] == [];
    NoEqualsSign(g, "-db=");
    NoEqualsSign(g, "-daemon=");
    NoEqualsSign(g, "-meta=");
    hide HasPrefix;
    ScanNothing(st.(rest := st.rest + [FlagName(g)]));
  }

  lemma NoEqualsSign(g: Global, prefix: string)
    requires '=' in prefix
    ensures !HasPrefix(FlagName(g), prefix)
  {
    assert '=' !in FlagName(g);
    assert HasPrefix(FlagName(g), prefix) ==> prefix <= FlagName(g);
  }
}
