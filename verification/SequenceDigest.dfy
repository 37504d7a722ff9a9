/** The reproducibility digest: what is hashed determines the sequence. */
module SequenceDigest {
  import opened Text
  import opened Decimal
  import opened SourceFamily
  import opened ChangeSequence
  import opened ChangePlanner

  function ClassName(c: ChangeClass): string {
    match c
    case Modify => "modify"
    case Add => "add"
    case CrossPackage => "cross_package"
    case Delete => "delete"
  }

  /** A step's identity for the digest. */
  function Descriptor(s: ChangeStep): string {
    ClassName(s.class_) + "|" + (s.path + "|" + s.symbol)
  }

  /** The bytes the digest hashes: every descriptor behind its length and a colon. */
  function Preimage(ids: seq<string>): string {
    if ids == [] then "" else Digits(|ids[0]|) + ":" + (ids[0] + Preimage(ids[1..]))
  }

  /** The first separator splits a text in one way only. */
  lemma FirstSeparator(a: string, x: string, b: string, y: string, sep: char)
    requires sep !in a && sep !in b && a + [sep] + x == b + [sep] + y
    ensures a == b && x == y
  {
    hide Split;
    SplitAppend(a, sep, x);
    SplitAppend(b, sep, y);
    SplitWithoutSeparator(a, sep);
    SplitWithoutSeparator(b, sep);
    assert Split(a + [sep] + x, sep)[0] == a && Split(b + [sep] + y, sep)[0] == b;
    assert x == (a + [sep] + x)[|a| + 1..] && y == (b + [sep] + y)[|b| + 1..];
  }

  /** So does the last. */
  lemma LastSeparator(a: string, x: string, b: string, y: string, sep: char)
    requires sep !in x && sep !in y && a + [sep] + x == b + [sep] + y
    ensures a == b && x == y
  {
    hide Split;
    SplitAppend(a, sep, x);
    SplitAppend(b, sep, y);
    SplitWithoutSeparator(x, sep);
    SplitWithoutSeparator(y, sep);
    var p, q := Split(a + [sep] + x, sep), Split(b + [sep] + y, sep);
    assert p[|p| - 1] == x && q[|q| - 1] == y;
    assert a == (a + [sep] + x)[..|a|] && b == (b + [sep] + y)[..|b|];
  }

  /** Length-prefixing makes the encoding of a list injective, whatever the descriptors contain. */
  lemma {:induction false} PreimageIsInjective(a: seq<string>, b: seq<string>)
    requires Preimage(a) == Preimage(b)
    ensures a == b
  {
    hide Digits;
    if a != [] && b != [] {
      var la, lb := Digits(|a[0]|), Digits(|b[0]|);
      var ra, rb := a[0] + Preimage(a[1..]), b[0] + Preimage(b[1..]);
      assert ':' !in la && ':' !in lb;
      assert la + [':'] + ra == lb + [':'] + rb;
      FirstSeparator(la, ra, lb, rb, ':');
      DigitsInjective(|a[0]|, |b[0]|);
      assert a[0] == ra[..|a[0]|] && b[0] == rb[..|b[0]|];
      assert Preimage(a[1..]) == ra[|a[0]|..] && Preimage(b[1..]) == rb[|b[0]|..];
      PreimageIsInjective(a[1..], b[1..]);
      assert a == [a[0]] + a[1..] && b == [b[0]] + b[1..];
    } else {
      EmptyPreimage(a);
      EmptyPreimage(b);
    }
  }

  lemma EmptyPreimage(a: seq<string>)
    ensures Preimage(a) == "" <==> a == []
  {
    hide Digits;
  }

  lemma DescriptorIsInjective(s: ChangeStep, t: ChangeStep)
    requires '|' !in s.symbol && '|' !in t.symbol
    ensures Descriptor(s) == Descriptor(t) <==> s.class_ == t.class_ && s.path == t.path && s.symbol == t.symbol
  {
    if Descriptor(s) == Descriptor(t) {
      var a, b := ClassName(s.class_), ClassName(t.class_);
      var x, y := s.path + "|" + s.symbol, t.path + "|" + t.symbol;
      ClassNamesDiffer(s.class_, t.class_);
      hide ClassName;
      assert a + ['|'] + x == b + ['|'] + y;
      FirstSeparator(a, x, b, y, '|');
      assert s.path + ['|'] + s.symbol == t.path + ['|'] + t.symbol;
      LastSeparator(s.path, s.symbol, t.path, t.symbol, '|');
    }
  }

  lemma ClassNamesDiffer(c: ChangeClass, d: ChangeClass)
    ensures '|' !in ClassName(c) && '|' !in ClassName(d)
    ensures ClassName(c) == ClassName(d) ==> c == d
  {
    assert ClassName(c)[0] == ClassName(d)[0] ==> c == d;
  }

  function Descriptors(steps: seq<ChangeStep>): (ids: seq<string>)
    ensures |ids| == |steps| && forall i :: 0 <= i < |steps| ==> ids[i] == Descriptor(steps[i])
  {
    seq(|steps|, i requires 0 <= i < |steps| => Descriptor(steps[i]))
  }

  /** Two planned sequences hash the same text exactly when they make the same changes in the same order. */
  lemma EqualPreimagesMeanEqualChanges(a: SequenceInput, b: SequenceInput)
    requires FamilyFiltered(a) && FamilyFiltered(b)
    ensures var p, q := Plan(a), Plan(b);
            Preimage(Descriptors(p)) == Preimage(Descriptors(q)) <==>
              (|p| == |q| && forall i :: 0 <= i < |p| ==>
                p[i].class_ == q[i].class_ && p[i].path == q[i].path && p[i].symbol == q[i].symbol)
  {
    hide FamilyForPath, StepAt, Descriptor, Preimage;
    var p, q := Plan(a), Plan(b);
    if Preimage(Descriptors(p)) == Preimage(Descriptors(q)) {
      PreimageIsInjective(Descriptors(p), Descriptors(q));
    }
    if |p| == |q| {
      forall i | 0 <= i < |p|
        ensures Descriptors(p)[i] == Descriptors(q)[i]
          <==> p[i].class_ == q[i].class_ && p[i].path == q[i].path && p[i].symbol == q[i].symbol
      {
        PlannedSymbol(a, i);
        PlannedSymbol(b, i);
        DescriptorIsInjective(p[i], q[i]);
      }
      if forall i :: 0 <= i < |p| ==>
        p[i].class_ == q[i].class_ && p[i].path == q[i].path && p[i].symbol == q[i].symbol
      {
        assert Descriptors(p) == Descriptors(q);
      }
    }
  }

  lemma PlannedSymbol(input: SequenceInput, i: nat)
    requires input.files != [] && FamilyFiltered(input)
    ensures '|' !in StepAt(input, i).symbol
  {
    hide FamilyForPath, StepAt, ChangeSymbol;
    StepShape(input, i);
    if StepAt(input, i).class_ == Delete {
      DeleteUndoesItsAdd(input, i);
      StepShape(input, i - SlotOf(input, i) + 1);
    }
    NoBar(StepAt(input, i).index);
    NoBar(StepAt(input, i).deleteTargets);
  }

  lemma NoBar(n: nat)
    ensures '|' !in ChangeSymbol(n)
  {
    assert AllDigits(Padded(n));
    assert '|' !in "GraphiEvalStep";
  }
}
