/** Sums over the rows of a table held as a finite map. */
module MapSums {

  /** The total of f over every row of m. */
  ghost function Sum<K, V>(m: map<K, V>, f: (K, V) -> int): int
    decreases |m|
  {
    if m == map[] then 0
    else
      var k :| k in m;
      f(k, m[k]) + Sum(m - {k}, f)
  }

  /** Any row may be taken out first. */
  lemma {:induction false} SumSplit<K, V>(m: map<K, V>, f: (K, V) -> int, k: K)
    requires k in m
    ensures Sum(m, f) == f(k, m[k]) + Sum(m - {k}, f)
    decreases |m|
  {
    var j :| j in m && Sum(m, f) == f(j, m[j]) + Sum(m - {j}, f);
    if j != k {
      SumSplit(m - {j}, f, k);
      SumSplit(m - {k}, f, j);
      assert m - {j} - {k} == m - {k} - {j};
    }
  }

  /** Writing one row replaces its contribution. */
  lemma SumWrite<K, V>(m: map<K, V>, f: (K, V) -> int, k: K, v: V)
    ensures Sum(m[k := v], f) == Sum(m, f) - (if k in m then f(k, m[k]) else 0) + f(k, v)
  {
    SumSplit(m[k := v], f, k);
    assert m[k := v] - {k} == m - {k};
    if k in m {
      SumSplit(m, f, k);
    } else {
      assert m - {k} == m;
    }
  }

  /** Two tables over the same keys whose rows contribute the same have the same total. */
  lemma {:induction false} SumSame<K, V, W>(m: map<K, V>, f: (K, V) -> int, n: map<K, W>, g: (K, W) -> int)
    requires m.Keys == n.Keys
    requires forall k :: k in m ==> f(k, m[k]) == g(k, n[k])
    ensures Sum(m, f) == Sum(n, g)
    decreases |m|
  {
    if m == map[] {
      assert n == map[];
    } else {
      var k :| k in m;
      SumSplit(m, f, k);
      SumSplit(n, g, k);
      assert (m - {k}).Keys == (n - {k}).Keys;
      SumSame(m - {k}, f, n - {k}, g);
    }
  }

  /** A total of nonnegative contributions is nonnegative. */
  lemma {:induction false} SumNonnegative<K, V>(m: map<K, V>, f: (K, V) -> int)
    requires forall k :: k in m ==> f(k, m[k]) >= 0
    ensures Sum(m, f) >= 0
    decreases |m|
  {
    if m != map[] {
      var k :| k in m;
      SumSplit(m, f, k);
      SumNonnegative(m - {k}, f);
    }
  }

  /** No nonnegative contribution exceeds the total. */
  lemma SumAtLeast<K, V>(m: map<K, V>, f: (K, V) -> int, k: K)
    requires forall j :: j in m ==> f(j, m[j]) >= 0
    requires k in m
    ensures f(k, m[k]) <= Sum(m, f)
  {
    SumSplit(m, f, k);
    SumNonnegative(m - {k}, f);
  }

  /** Totals add up row by row. */
  lemma {:induction false} SumAdd<K, V>(m: map<K, V>, f: (K, V) -> int, g: (K, V) -> int, h: (K, V) -> int)
    requires forall k :: k in m ==> f(k, m[k]) + g(k, m[k]) == h(k, m[k])
    ensures Sum(m, f) + Sum(m, g) == Sum(m, h)
    decreases |m|
  {
    if m != map[] {
      var k :| k in m;
      SumSplit(m, f, k);
      SumSplit(m, g, k);
      SumSplit(m, h, k);
      SumAdd(m - {k}, f, g, h);
    }
  }

  /** A total of contributions that are all zero. */
  lemma {:induction false} SumZero<K, V>(m: map<K, V>, f: (K, V) -> int)
    requires forall k :: k in m ==> f(k, m[k]) == 0
    ensures Sum(m, f) == 0
    decreases |m|
  {
    if m != map[] {
      var k :| k in m;
      SumSplit(m, f, k);
      SumZero(m - {k}, f);
    }
  }

  /** The rows of one group. */
  ghost function Part<K, V, G>(m: map<K, V>, groupOf: (K, V) -> G, g: G): map<K, V> {
    map k | k in m && groupOf(k, m[k]) == g :: m[k]
  }

  /** The total of every group. */
  ghost function PartSums<K, V, G>(m: map<K, V>, f: (K, V) -> int, groupOf: (K, V) -> G, groups: set<G>): map<G, int> {
    map g | g in groups :: Sum(Part(m, groupOf, g), f)
  }

  function Second<G>(): (G, int) -> int {
    (g: G, total: int) => total
  }

  /** A total is the sum of the totals of the groups the rows fall into. */
  lemma {:induction false} SumRegroup<K, V, G>(m: map<K, V>, f: (K, V) -> int, groupOf: (K, V) -> G, groups: set<G>)
    requires forall k :: k in m ==> groupOf(k, m[k]) in groups
    ensures Sum(PartSums(m, f, groupOf, groups), Second()) == Sum(m, f)
    decreases |m|
  {
    hide Sum, PartSums;
    if m == map[] {
      RegroupNothing(m, f, groupOf, groups);
    } else {
      var k :| k in m;
      var rest, g := m - {k}, groupOf(k, m[k]);
      SumRegroup(rest, f, groupOf, groups);
      SumSplit(m, f, k);
      PartSumsWithout(m, f, groupOf, groups, k);
      var parts := PartSums(rest, f, groupOf, groups);
      SumWrite(parts, Second(), g, parts[g] + f(k, m[k]));
    }
  }

  lemma RegroupNothing<K, V, G>(m: map<K, V>, f: (K, V) -> int, groupOf: (K, V) -> G, groups: set<G>)
    requires m == map[]
    ensures Sum(PartSums(m, f, groupOf, groups), Second()) == Sum(m, f)
  {
    SumZero(PartSums(m, f, groupOf, groups), Second());
  }

  /** Taking one row out only lowers the total of its group. */
  lemma PartSumsWithout<K, V, G>(m: map<K, V>, f: (K, V) -> int, groupOf: (K, V) -> G, groups: set<G>, k: K)
    requires k in m && groupOf(k, m[k]) in groups
    ensures var parts, g := PartSums(m - {k}, f, groupOf, groups), groupOf(k, m[k]);
            g in parts && PartSums(m, f, groupOf, groups) == parts[g := parts[g] + f(k, m[k])]
  {
    var rest, own := m - {k}, groupOf(k, m[k]);
    forall g | g in groups
      ensures Sum(Part(m, groupOf, g), f) == Sum(Part(rest, groupOf, g), f) + if g == own then f(k, m[k]) else 0
    {
      if g == own {
        SumSplit(Part(m, groupOf, g), f, k);
        assert Part(m, groupOf, g) - {k} == Part(rest, groupOf, g);
      } else {
        assert Part(m, groupOf, g) == Part(rest, groupOf, g);
      }
    }
  }
}
