/** Retrieval rows rebuilt from node ids and projected into scored hits; the printed line span must read back. */
module RetrievalRows {
  import opened Decimal

  const TWO_63 := 0x8000_0000_0000_0000
  const TWO_64 := 0x1_0000_0000_0000_0000

  /** A Go int keeps 64 bits, two's complement. */
  function Wrap(x: int): (r: int)
    ensures -TWO_63 <= r < TWO_63
  {
    (x + TWO_63) % TWO_64 - TWO_63
  }

  datatype Node = Node(path: string, line: int)

  /** The graph store: looking up an absent id is an error. */
  type Store = map<string, Node>

  datatype Row = Row(nodeId: string, path: string, span: string)
  datatype Hit = Hit(rank: nat, path: string, line: int, nodeId: string)

  ghost predicate Wide(store: Store) {
    forall id :: id in store ==> -TWO_63 <= store[id].line < TWO_63
  }

  // ---- reading the span -----------------------------------------------------------------

  /** The text before the first dash. */
  function BeforeDash(span: string): (r: string)
    ensures r <= span && '-' !in r
    ensures '-' in span ==> |r| < |span| && span[|r|] == '-'
  {
    if span == [] || span[0] == '-' then [] else [span[0]] + BeforeDash(span[1..])
  }

  /** The start line a span denotes: the wrapped decimal before its first dash, 0 for anything else. */
  function LineOf(span: string): int {
    if '-' !in span || !AllDigits(BeforeDash(span)) then 0 else Wrap(Value(BeforeDash(span)))
  }

  /** The two nested index loops. */
  method LineStart(span: string) returns (line: int)
    ensures line == LineOf(span)
  {
    hide Wrap, Value;
    WrapSmall(0);
    if span == "" {
      return 0;
    }
    for i := 0 to |span|
      invariant '-' !in span[..i]
    {
      if span[i] == '-' {
        DashAt(span, i);
        var n := 0;
        assert Value(span[..0]) == 0 by { NoDigits(); }
        for j := 0 to i
          invariant AllDigits(span[..j]) && n == Wrap(Value(span[..j]))
        {
          var c := span[j];
          if c < '0' || c > '9' {
            assert c in span[..i];
            return 0;
          }
          assert span[..j + 1] == span[..j] + [c];
          OneMoreDigit(span[..j], c);
          n := Wrap(n * 10 + DigitValue(c));
        }
        return n;
      }
      assert span[..i + 1] == span[..i] + [span[i]];
    }
    assert span[..|span|] == span;
    return 0;
  }

  lemma NoDigits()
    ensures Value([]) == 0
  {
  }

  lemma {:induction false} DashAt(span: string, i: nat)
    requires i < |span| && span[i] == '-' && '-' !in span[..i]
    ensures BeforeDash(span) == span[..i] && '-' in span
  {
    if i > 0 {
      assert span[0] == span[..i][0] && span[1..][..i - 1] == span[..i][1..];
      DashAt(span[1..], i - 1);
      assert span[..i] == [span[0]] + span[1..][..i - 1];
    }
  }

  lemma WrapSmall(x: int)
    requires -TWO_63 <= x < TWO_63
    ensures Wrap(x) == x
  {
  }

  /** Dropping the carry early or late comes to the same number. */
  lemma WrapStep(x: int, d: int)
    ensures Wrap(Wrap(x) * 10 + d) == Wrap(x * 10 + d)
  {
    var k := (x + TWO_63) / TWO_64;
    assert Wrap(x) == x - k * TWO_64;
    assert Wrap(x) * 10 + d == x * 10 + d - (k * 10) * TWO_64;
    WrapIsPeriodic(x * 10 + d, -(k * 10));
  }

  lemma WrapIsPeriodic(x: int, k: int)
    ensures Wrap(x + k * TWO_64) == Wrap(x)
  {
    var q := (x + TWO_63) / TWO_64;
    var r := (x + TWO_63) % TWO_64;
    assert x + k * TWO_64 + TWO_63 == (q + k) * TWO_64 + r;
    ModUnique(x + k * TWO_64 + TWO_63, q + k, r);
  }

  lemma ModUnique(y: int, q: int, r: int)
    requires y == q * TWO_64 + r && 0 <= r < TWO_64
    ensures y % TWO_64 == r
  {
  }

  lemma OneMoreDigit(s: string, c: char)
    requires AllDigits(s) && IsDigit(c)
    ensures AllDigits(s + [c]) && Wrap(Value(s + [c])) == Wrap(Wrap(Value(s)) * 10 + DigitValue(c))
  {
    hide Wrap;
    assert (s + [c])[..|s|] == s;
    assert Value(s + [c]) == Value(s) * 10 + DigitValue(c);
    WrapStep(Value(s), DigitValue(c));
  }

  /** What fmt prints for a one-line span. */
  function SpanOf(line: int): string {
    if line > 0 then Digits(line) + "-" + Digits(line) else ""
  }

  /** Every positive line a Go int can hold survives printing and reading; a span is never read as a different line. */
  lemma SpanRoundTrip(line: int)
    requires -TWO_63 <= line < TWO_63
    ensures LineOf(SpanOf(line)) == if line > 0 then line else 0
  {
    if line > 0 {
      var d := Digits(line);
      var s := SpanOf(line);
      assert s[|d|] == '-' && s[..|d|] == d;
      assert '-' !in d by { assert forall c :: c in d ==> IsDigit(c); }
      DashAt(s, |d|);
      ValueOfDigits(line);
      WrapSmall(line);
    }
  }

  /** Beyond 63 bits the reader wraps, so the round trip holds exactly for the lines that fit. */
  lemma RoundTripIffItFits(line: nat)
    ensures line > 0 ==> (LineOf(Digits(line) + "-" + Digits(line)) == line <==> line < TWO_63)
  {
    if line > 0 {
      var d := Digits(line);
      var s := d + "-" + d;
      assert s[|d|] == '-' && s[..|d|] == d;
      assert '-' !in d by { assert forall c :: c in d ==> IsDigit(c); }
      DashAt(s, |d|);
      ValueOfDigits(line);
      if line < TWO_63 {
        WrapSmall(line);
      }
    }
  }

  /** A span reads as the number before its first dash, whatever stands behind the dash; without a dash, or with
      anything but digits before it, it reads as 0. */
  lemma SpanReadsItsStart(before: string, behind: string)
    requires '-' !in before
    ensures AllDigits(before) ==> LineOf(before + "-" + behind) == Wrap(Value(before))
    ensures !AllDigits(before) ==> LineOf(before + "-" + behind) == 0
    ensures LineOf(before) == 0
  {
    var s := before + "-" + behind;
    assert s[|before|] == '-' && s[..|before|] == before;
    DashAt(s, |before|);
  }

  /** So the start line of a longer stretch is its first number. */
  lemma StartOfStretch(first: nat, behind: string)
    requires first < TWO_63
    ensures LineOf(Digits(first) + "-" + behind) == first
  {
    hide Wrap;
    assert '-' !in Digits(first) by { assert forall c :: c in Digits(first) ==> IsDigit(c); }
    SpanReadsItsStart(Digits(first), behind);
    ValueOfDigits(first);
    WrapSmall(first);
  }

  // ---- rows and hits --------------------------------------------------------------------

  function RowOf(store: Store, id: string): Row {
    if id in store then Row(id, store[id].path, SpanOf(store[id].line)) else Row(id, "", "")
  }

  method ReconstructRows(store: Store, ids: seq<string>) returns (rows: seq<Row>)
    ensures |rows| == |ids| && forall i :: 0 <= i < |ids| ==> rows[i] == RowOf(store, ids[i])
  {
    rows := [];
    for i := 0 to |ids|
      invariant |rows| == i && forall j :: 0 <= j < i ==> rows[j] == RowOf(store, ids[j])
    {
      var path, line := "", 0;
      if ids[i] in store {
        path, line := store[ids[i]].path, store[ids[i]].line;
      }
      var row := Row(ids[i], path, "");
      if line > 0 {
        row := row.(span := Digits(line) + "-" + Digits(line));
      }
      rows := rows + [row];
    }
  }

  /** The row's own path and line, each replaced by the node's when it is missing. */
  function PathOf(store: Store, row: Row): string {
    if row.path == "" && row.nodeId in store then store[row.nodeId].path else row.path
  }

  function HitLine(store: Store, row: Row): int {
    if LineOf(row.span) == 0 && row.nodeId in store then store[row.nodeId].line else LineOf(row.span)
  }

  /** Positions, in order, of the rows that resolve to a path. */
  function Resolvable(store: Store, rows: seq<Row>): seq<nat>
  {
    if rows == [] then []
    else
      var n := |rows| - 1;
      var before := Resolvable(store, rows[..n]);
      if PathOf(store, rows[n]) == "" then before else before + [n]
  }

  /** They are in range and increasing, and they are all the rows with a path and no others. */
  lemma {:induction false} ResolvablePositions(store: Store, rows: seq<Row>)
    ensures var at := Resolvable(store, rows);
            && (forall j :: 0 <= j < |at| ==> at[j] < |rows| && PathOf(store, rows[at[j]]) != "")
            && (forall j, k :: 0 <= j < k < |at| ==> at[j] < at[k])
            && (forall k :: 0 <= k < |rows| && PathOf(store, rows[k]) != "" ==> k in at)
  {
    hide PathOf;
    if rows != [] {
      var n := |rows| - 1;
      ResolvablePositions(store, rows[..n]);
      assert forall k :: 0 <= k < n ==> rows[..n][k] == rows[k];
    }
  }

  /** The hit of a row that resolves. */
  function HitOf(store: Store, row: Row, rank: nat): Hit {
    Hit(rank, PathOf(store, row), HitLine(store, row), row.nodeId)
  }

  function Projected(store: Store, rows: seq<Row>): seq<Hit> {
    if rows == [] then []
    else
      var last := rows[|rows| - 1];
      var before := Projected(store, rows[..|rows| - 1]);
      if PathOf(store, last) == "" then before else before + [HitOf(store, last, |before| + 1)]
  }

  /** Hit k is the row at the k-th resolvable position, ranked k + 1. */
  ghost predicate IsProjection(store: Store, rows: seq<Row>, hits: seq<Hit>, at: seq<nat>) {
    && |hits| == |at|
    && forall k :: 0 <= k < |hits| ==> at[k] < |rows| && hits[k] == HitOf(store, rows[at[k]], k + 1)
  }

  lemma ProjectionStep(store: Store, rows: seq<Row>, last: Row, hits: seq<Hit>, at: seq<nat>)
    requires IsProjection(store, rows, hits, at)
    ensures IsProjection(store, rows + [last], hits, at)
    ensures IsProjection(store, rows + [last], hits + [HitOf(store, last, |hits| + 1)], at + [|rows|])
  {
    hide HitOf;
  }

  lemma {:induction false} ProjectedAtPositions(store: Store, rows: seq<Row>)
    ensures IsProjection(store, rows, Projected(store, rows), Resolvable(store, rows))
  {
    hide PathOf, HitOf, IsProjection;
    if rows != [] {
      var init, last := rows[..|rows| - 1], rows[|rows| - 1];
      ProjectedAtPositions(store, init);
      assert rows == init + [last];
      ProjectionStep(store, init, last, Projected(store, init), Resolvable(store, init));
    } else {
      NoHits(store);
    }
  }

  /** The hits are an order-preserving subsequence of the rows, with ranks 1..n and no empty path. */
  lemma HitsAreASubsequence(store: Store, rows: seq<Row>)
    ensures IsProjection(store, rows, Projected(store, rows), Resolvable(store, rows))
    ensures forall k :: 0 <= k < |Projected(store, rows)| ==>
      Projected(store, rows)[k].rank == k + 1 && Projected(store, rows)[k].path != ""
  {
    hide PathOf, HitLine, Projected, Resolvable;
    ProjectedAtPositions(store, rows);
    ResolvablePositions(store, rows);
  }

  /** A row speaks for itself where it can: its own path and the start of its own span; its node is asked for the rest,
      and a row whose node is unknown has only what it says. */
  lemma RowBeforeNode(store: Store, row: Row, first: nat, behind: string)
    requires first < TWO_63
    ensures row.path != "" ==> PathOf(store, row) == row.path
    ensures row.path == "" && row.nodeId in store ==> PathOf(store, row) == store[row.nodeId].path
    ensures row.path == "" && row.nodeId !in store ==> PathOf(store, row) == ""
    ensures row.span == Digits(first) + "-" + behind && first > 0 ==> HitLine(store, row) == first
    ensures row.span == "" && row.nodeId in store ==> HitLine(store, row) == store[row.nodeId].line
    ensures row.span == "" && row.nodeId !in store ==> HitLine(store, row) == 0
  {
    StartOfStretch(first, behind);
    EmptySpan();
    hide LineOf;
  }

  lemma NoHits(store: Store)
    ensures IsProjection(store, [], [], [])
  {
  }

  method HitsFor(store: Store, rows: seq<Row>) returns (hits: seq<Hit>)
    ensures hits == Projected(store, rows)
  {
    hide LineOf;
    hits := [];
    for i := 0 to |rows|
      invariant hits == Projected(store, rows[..i])
    {
      var row := rows[i];
      assert rows[..i + 1][..i] == rows[..i];
      var line := LineStart(row.span);
      var path := row.path;
      if row.nodeId in store {
        var n := store[row.nodeId];
        if path == "" {
          path := n.path;
        }
        if line == 0 {
          line := n.line;
        }
      }
      if path == "" {
        continue;
      }
      hits := hits + [Hit(|hits| + 1, path, line, row.nodeId)];
    }
    assert rows[..|rows|] == rows;
  }

  /** Rebuilding rows from ids and projecting them loses nothing: every hit carries its node's own path and line. */
  method HitsOfIds(store: Store, ids: seq<string>) returns (hits: seq<Hit>)
    requires Wide(store)
    ensures forall k :: 0 <= k < |hits| ==> hits[k].nodeId in ids && hits[k].nodeId in store
    ensures forall k :: 0 <= k < |hits| ==> Node(hits[k].path, hits[k].line) == store[hits[k].nodeId]
    ensures forall id :: id in ids && id in store && store[id].path != "" ==>
      exists k :: 0 <= k < |hits| && hits[k].nodeId == id
  {
    hide LineOf, SpanOf, Projected, Resolvable;
    var rows := ReconstructRows(store, ids);
    hits := HitsFor(store, rows);
    HitsAreASubsequence(store, rows);
    ResolvablePositions(store, rows);
    var at := Resolvable(store, rows);
    forall k | 0 <= k < |hits|
      ensures hits[k].nodeId in ids && hits[k].nodeId in store
      ensures Node(hits[k].path, hits[k].line) == store[hits[k].nodeId]
    {
      RowKeepsItsNode(store, ids[at[k]]);
    }
    forall id | id in ids && id in store && store[id].path != ""
      ensures exists k :: 0 <= k < |hits| && hits[k].nodeId == id
    {
      var i :| 0 <= i < |ids| && ids[i] == id;
      assert PathOf(store, rows[i]) != "";
      assert i in at;
      var k :| 0 <= k < |at| && at[k] == i;
      assert hits[k].nodeId == id;
    }
  }

  lemma RowKeepsItsNode(store: Store, id: string)
    requires Wide(store)
    ensures id !in store ==> PathOf(store, RowOf(store, id)) == ""
    ensures id in store ==>
      PathOf(store, RowOf(store, id)) == store[id].path && HitLine(store, RowOf(store, id)) == store[id].line
  {
    hide LineOf, SpanOf;
    if id in store {
      SpanRoundTrip(store[id].line);
      EmptySpan();
    }
  }

  lemma EmptySpan()
    ensures LineOf("") == 0
  {
  }
}
