/** No numeric zero anywhere in a budget document: a recursion over the JSON tree, in sorted key order. */
module ZeroBudgets {
  import opened Text
  import opened Decimal
  import opened Sorting

  datatype Json = Object(fields: map<string, Json>) | Array(items: seq<Json>) | Number(value: real) | Scalar

  /** One edge from a value to one of its parts. */
  datatype Step = Key(name: string) | Item(index: nat)

  /** Following `steps` from v leads to a number that is zero. */
  predicate ZeroAt(v: Json, steps: seq<Step>)
    decreases |steps|
  {
    if steps == [] then v == Number(0.0)
    else match steps[0]
      case Key(k) => v.Object? && k in v.fields && ZeroAt(v.fields[k], steps[1..])
      case Item(i) => v.Array? && i < |v.items| && ZeroAt(v.items[i], steps[1..])
  }

  function Label(step: Step): string {
    match step
    case Key(k) => "." + k
    case Item(i) => "[" + Digits(i) + "]"
  }

  function Render(path: string, steps: seq<Step>): string
    decreases |steps|
  {
    if steps == [] then path else Render(path + Label(steps[0]), steps[1..])
  }

  /** The first step comes earlier: a smaller index, or a key that sorts before. */
  predicate StepBefore(a: Step, b: Step) {
    || (a.Item? && b.Item? && a.index < b.index)
    || (a.Key? && b.Key? && a.name != b.name && AtMost(a.name, b.name))
  }

  /** Position a comes earlier than position b at the first step in which they differ. */
  predicate Before(a: seq<Step>, b: seq<Step>)
    decreases |a|
  {
    a != [] && b != [] && (StepBefore(a[0], b[0]) || (a[0] == b[0] && Before(a[1..], b[1..])))
  }

  /** The position holds a zero, and no position before it does. */
  ghost predicate FirstZero(v: Json, steps: seq<Step>) {
    ZeroAt(v, steps) && forall other :: ZeroAt(v, other) ==> !Before(other, steps)
  }

  /** The answer is the rendered position of the first zero, or None because there is no zero at any position. */
  ghost predicate IsAnswer(path: string, v: Json, found: Option<string>) {
    match found
    case None => forall steps :: !ZeroAt(v, steps)
    case Some(where) => exists steps :: FirstZero(v, steps) && where == Render(path, steps)
  }

  /** No zero lies behind a step that comes earlier. */
  ghost predicate NoneBefore(v: Json, step: Step) {
    forall other :: ZeroAt(v, other) && other != [] ==> !StepBefore(other[0], step)
  }

  lemma ThroughStep(path: string, v: Json, step: Step, child: Json, where: string)
    requires IsAnswer(path + Label(step), child, Some(where))
    requires match step
             case Key(k) => v.Object? && k in v.fields && child == v.fields[k]
             case Item(i) => v.Array? && i < |v.items| && child == v.items[i]
    requires NoneBefore(v, step)
    ensures IsAnswer(path, v, Some(where))
  {
    hide Label, StepBefore;
    var steps :| FirstZero(child, steps) && where == Render(path + Label(step), steps);
    var longer := [step] + steps;
    assert longer[1..] == steps;
    assert ZeroAt(v, longer) && where == Render(path, longer);
    forall other | ZeroAt(v, other)
      ensures !Before(other, longer)
    {
      assert other != [] && other[0] == step ==> ZeroAt(child, other[1..]);
    }
    assert FirstZero(v, longer);
  }

  lemma NoneBeforeKey(v: Json, keys: seq<string>, i: nat)
    requires v.Object? && Sorted(keys) && i < |keys| && forall k :: k in keys <==> k in v.fields
    requires forall j, steps :: 0 <= j < i ==> !ZeroAt(v.fields[keys[j]], steps)
    ensures NoneBefore(v, Key(keys[i]))
  {
    forall other: seq<Step> | ZeroAt(v, other) && other != []
      ensures !StepBefore(other[0], Key(keys[i]))
    {
      var k := other[0].name;
      var j :| 0 <= j < |keys| && keys[j] == k;
      assert ZeroAt(v.fields[keys[j]], other[1..]);
      assert j >= i;
      if j > i && AtMost(k, keys[i]) {
        AtMostAntisymmetric(k, keys[i]);
      }
    }
  }

  lemma NoneBeforeItem(v: Json, i: nat)
    requires v.Array? && i < |v.items|
    requires forall j, steps :: 0 <= j < i ==> !ZeroAt(v.items[j], steps)
    ensures NoneBefore(v, Item(i))
  {
  }

  method SortedKeys(keys: set<string>) returns (sorted: seq<string>)
    ensures Sorted(sorted) && forall k :: k in sorted <==> k in keys
  {
    var rest, list := keys, [];
    while rest != {}
      invariant rest <= keys && forall k :: k in list <==> k in keys && k !in rest
      decreases |rest|
    {
      var k :| k in rest;
      list := list + [k];
      rest := rest - {k};
    }
    sorted := Sort(list);
    SameElements(sorted, list);
  }

  method WalkForZero(path: string, v: Json) returns (found: Option<string>)
    ensures IsAnswer(path, v, found)
    decreases v
  {
    hide Label, Render, Sorted;
    match v {
      case Object(fields) =>
        var keys := SortedKeys(fields.Keys);
        for i := 0 to |keys|
          invariant forall j, steps :: 0 <= j < i ==> !ZeroAt(fields[keys[j]], steps)
        {
          assert keys[i] in keys;
          found := WalkForZero(path + "." + keys[i], fields[keys[i]]);
          if found.Some? {
            LabelOfKey(keys[i]);
            assert path + "." + keys[i] == path + Label(Key(keys[i]));
            NoneBeforeKey(v, keys, i);
            ThroughStep(path, v, Key(keys[i]), fields[keys[i]], found.value);
            return;
          }
        }
        NoZeroInside(v);
        return None;
      case Array(items) =>
        for i := 0 to |items|
          invariant forall j, steps :: 0 <= j < i ==> !ZeroAt(items[j], steps)
        {
          LabelOfItem(i);
          assert path + Label(Item(i)) == path + "[" + Digits(i) + "]";
          found := WalkForZero(path + "[" + Digits(i) + "]", items[i]);
          if found.Some? {
            NoneBeforeItem(v, i);
            ThroughStep(path, v, Item(i), items[i], found.value);
            return;
          }
        }
        NoZeroInside(v);
        return None;
      case Number(value) =>
        LeafAnswer(path, v);
        return if value == 0.0 then Some(path) else None;
      case Scalar =>
        LeafAnswer(path, v);
        return None;
    }
  }

  lemma LabelOfKey(k: string)
    ensures Label(Key(k)) == "." + k
  {
  }

  lemma LabelOfItem(i: nat)
    ensures Label(Item(i)) == "[" + Digits(i) + "]"
  {
  }

  lemma LeafAnswer(path: string, v: Json)
    requires v.Number? || v.Scalar?
    ensures IsAnswer(path, v, if v == Number(0.0) then Some(path) else None)
  {
    assert ZeroAt(v, []) <==> v == Number(0.0);
    assert Render(path, []) == path;
    assert v == Number(0.0) ==> FirstZero(v, []);
  }

  lemma NoZeroInside(v: Json)
    requires v.Object? || v.Array?
    requires v.Object? ==> forall k, steps :: k in v.fields ==> !ZeroAt(v.fields[k], steps)
    requires v.Array? ==> forall i, steps :: 0 <= i < |v.items| ==> !ZeroAt(v.items[i], steps)
    ensures forall steps :: !ZeroAt(v, steps)
  {
  }
}
