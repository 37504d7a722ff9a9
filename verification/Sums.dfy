/** Sums over the values of a map. */
module Sums {

  /** The sum of the values at the given keys. */
  ghost function Total(m: map<string, int>, keys: set<string>): int
    requires keys <= m.Keys
  {
    if keys == {} then 0
    else
      var k :| k in keys;
      m[k] + Total(m, keys - {k})
  }

  /** Any key can be counted first. */
  lemma {:induction false} TotalWithout(m: map<string, int>, keys: set<string>, k: string)
    requires keys <= m.Keys && k in keys
    ensures Total(m, keys) == m[k] + Total(m, keys - {k})
    decreases keys
  {
    var x :| x in keys && Total(m, keys) == m[x] + Total(m, keys - {x});
    if x != k {
      TotalWithout(m, keys - {x}, k);
      TotalWithout(m, keys - {k}, x);
      assert keys - {x} - {k} == keys - {k} - {x};
    }
  }

  lemma {:induction false} TotalDependsOnItsKeys(m: map<string, int>, n: map<string, int>, keys: set<string>)
    requires keys <= m.Keys && keys <= n.Keys
    requires forall k :: k in keys ==> m[k] == n[k]
    ensures Total(m, keys) == Total(n, keys)
    decreases keys
  {
    if keys != {} {
      var k :| k in keys;
      TotalWithout(m, keys, k);
      TotalWithout(n, keys, k);
      TotalDependsOnItsKeys(m, n, keys - {k});
    }
  }

  ghost function Sum(m: map<string, int>): int { Total(m, m.Keys) }

  lemma EmptySum()
    ensures Sum(map[]) == 0
  {
  }

  /** Adding to one entry, absent counting as zero, adds to the sum. */
  lemma SumAfterAdding(m: map<string, int>, k: string, d: int)
    ensures Sum(m[k := (if k in m then m[k] else 0) + d]) == Sum(m) + d
  {
    var n := m[k := (if k in m then m[k] else 0) + d];
    TotalWithout(n, n.Keys, k);
    TotalDependsOnItsKeys(m, n, n.Keys - {k});
    if k in m {
      TotalWithout(m, m.Keys, k);
      assert n.Keys == m.Keys;
    } else {
      assert n.Keys - {k} == m.Keys;
    }
  }
}
