/** Sums over the entries of a finite map, and how they change when the map does. */
module MapSums {

  ghost function Pick<K, V>(m: map<K, V>): (k: K)
    requires |m| != 0
    ensures k in m
  {
    var k :| k in m; k
  }

  /** The sum of f over the entries of m. The order of summation does not matter (SumSplit). */
  ghost function Sum<K, V>(m: map<K, V>, f: (K, V) -> int): int
    decreases |m|
  {
    if |m| == 0 then 0
    else
      var k := Pick(m);
      assert |m - {k}| < |m| by { MinusKey(m, k); }
      f(k, m[k]) + Sum(m - {k}, f)
  }

  lemma MinusKey<K, V>(m: map<K, V>, k: K)
    requires k in m
    ensures |m - {k}| == |m| - 1
  {
    assert (m - {k}).Keys == m.Keys - {k};
  }

  /** Any entry can be taken out first. */
  lemma {:induction false} SumSplit<K, V>(m: map<K, V>, f: (K, V) -> int, k: K)
    requires k in m
    ensures Sum(m, f) == f(k, m[k]) + Sum(m - {k}, f)
    decreases |m|
  {
    MinusKey(m, k);
    var j := Pick(m);
    if j != k {
      SumSplit(m - {j}, f, k);
      SumSplit(m - {k}, f, j);
      assert m - {j} - {k} == m - {k} - {j};
    }
  }

  lemma UpdateMinus<K, V>(m: map<K, V>, k: K, v: V)
    ensures m[k := v] - {k} == m - {k}
    ensures k !in m ==> m - {k} == m
  {
  }

  lemma SumUpdate<K, V>(m: map<K, V>, f: (K, V) -> int, k: K, v: V)
    ensures Sum(m[k := v], f) == Sum(m, f) - (if k in m then f(k, m[k]) else 0) + f(k, v)
  {
    hide Sum;
    UpdateMinus(m, k, v);
    SumSplit(m[k := v], f, k);
    if k in m {
      SumSplit(m, f, k);
    }
  }

  /** Two maps agree on a sum when they agree on the weight of every key, absent keys weighing nothing. */
  lemma {:induction false} SumAgree<K, V>(m: map<K, V>, n: map<K, V>, f: (K, V) -> int)
    requires n.Keys <= m.Keys
    requires forall k | k in n :: f(k, n[k]) == f(k, m[k])
    requires forall k | k in m && k !in n :: f(k, m[k]) == 0
    ensures Sum(n, f) == Sum(m, f)
    decreases |m|
  {
    if |m| == 0 {
      assert m.Keys == {} && n.Keys == {};
      assert |n| == 0;
    } else {
      var k :| k in m;
      MinusKey(m, k);
      SumSplit(m, f, k);
      if k in n {
        SumSplit(n, f, k);
        SumAgree(m - {k}, n - {k}, f);
      } else {
        SumAgree(m - {k}, n, f);
      }
    }
  }

  /** A sum of non-negative weights is at least any one of them. */
  lemma {:induction false} SumAtLeast<K, V>(m: map<K, V>, f: (K, V) -> int, k: K)
    requires forall j | j in m :: f(j, m[j]) >= 0
    ensures Sum(m, f) >= 0
    ensures k in m ==> Sum(m, f) >= f(k, m[k])
    decreases |m|
  {
    if |m| != 0 {
      var j :| j in m;
      MinusKey(m, j);
      SumSplit(m, f, j);
      SumAtLeast(m - {j}, f, j);
      if k in m {
        MinusKey(m, k);
        SumSplit(m, f, k);
        SumAtLeast(m - {k}, f, k);
      }
    } else {
      assert m.Keys == {};
    }
  }

  lemma SumNonNegative<K, V>(m: map<K, V>, f: (K, V) -> int)
    requires forall k | k in m :: f(k, m[k]) >= 0
    ensures Sum(m, f) >= 0
  {
    if |m| != 0 {
      SumAtLeast(m, f, Pick(m));
    }
  }

  lemma {:induction false} SumMonotone<K, V>(m: map<K, V>, f: (K, V) -> int, g: (K, V) -> int)
    requires forall k | k in m :: f(k, m[k]) <= g(k, m[k])
    ensures Sum(m, f) <= Sum(m, g)
    decreases |m|
  {
    if |m| != 0 {
      var k :| k in m;
      MinusKey(m, k);
      SumSplit(m, f, k);
      SumSplit(m, g, k);
      SumMonotone(m - {k}, f, g);
    }
  }

  lemma {:induction false} SumPlus<K, V>(m: map<K, V>, f: (K, V) -> int, g: (K, V) -> int, h: (K, V) -> int)
    requires forall k | k in m :: h(k, m[k]) == f(k, m[k]) + g(k, m[k])
    ensures Sum(m, h) == Sum(m, f) + Sum(m, g)
    decreases |m|
  {
    if |m| != 0 {
      var k :| k in m;
      MinusKey(m, k);
      SumSplit(m, f, k);
      SumSplit(m, g, k);
      SumSplit(m, h, k);
      SumPlus(m - {k}, f, g, h);
    }
  }

  lemma {:induction false} SumZero<K, V>(m: map<K, V>, f: (K, V) -> int)
    requires forall k | k in m :: f(k, m[k]) == 0
    ensures Sum(m, f) == 0
    decreases |m|
  {
    if |m| != 0 {
      var k := Pick(m);
      MinusKey(m, k);
      SumZero(m - {k}, f);
    }
  }

  /** Part of a map weighs no more than the whole. */
  lemma {:induction false} SumPart<K, V>(n: map<K, V>, m: map<K, V>, f: (K, V) -> int)
    requires forall k | k in n :: k in m && n[k] == m[k]
    requires forall k | k in m :: f(k, m[k]) >= 0
    ensures Sum(n, f) <= Sum(m, f)
    decreases |m|
  {
    if |m| == 0 {
      assert m.Keys == {} && n.Keys == {};
      assert |n| == 0;
    } else {
      var k :| k in m;
      MinusKey(m, k);
      SumSplit(m, f, k);
      if k in n {
        SumSplit(n, f, k);
        SumPart(n - {k}, m - {k}, f);
      } else {
        SumPart(n, m - {k}, f);
      }
    }
  }

  function One<K, V>(): (K, V) -> int {
    (k: K, v: V) => 1
  }

  lemma {:induction false} SumOne<K, V>(m: map<K, V>)
    ensures Sum(m, One()) == |m|
    decreases |m|
  {
    if |m| != 0 {
      var k := Pick(m);
      MinusKey(m, k);
      SumOne(m - {k});
    }
  }

  ghost function Only<A, B>(a: A, x: int): (A, B) -> int {
    (b: A, v: B) => if b == a then x else 0
  }

  lemma {:induction false} SumOnly<A, B>(m: map<A, B>, a: A, x: int)
    ensures Sum(m, Only(a, x)) == if a in m then x else 0
    decreases |m|
  {
    if |m| != 0 {
      var k := Pick(m);
      MinusKey(m, k);
      SumOnly(m - {k}, a, x);
    } else {
      assert m.Keys == {};
    }
  }

  /** The part of f on the entries of one group. */
  ghost function InGroup<K, V, A>(f: (K, V) -> int, group: K -> A, a: A): (K, V) -> int {
    (k: K, v: V) => if group(k) == a then f(k, v) else 0
  }

  ghost function GroupSums<K, V, A, B>(m: map<K, V>, f: (K, V) -> int, group: K -> A): (A, B) -> int {
    (a: A, b: B) => Sum(m, InGroup(f, group, a))
  }

  /** A sum can be taken group by group. */
  lemma {:induction false} SumByGroup<K, V, A, B>(m: map<K, V>, f: (K, V) -> int, group: K -> A, groups: map<A, B>)
    requires forall k | k in m :: group(k) in groups
    ensures Sum(groups, GroupSums(m, f, group)) == Sum(m, f)
    decreases |m|
  {
    hide Sum;
    if |m| == 0 {
      NoGroups(m, f, group, groups);
    } else {
      var k := Pick(m);
      MinusKey(m, k);
      SumByGroup(m - {k}, f, group, groups);
      OneInGroups(m, f, group, groups, k);
      SumSplit(m, f, k);
    }
  }

  lemma NoGroups<K, V, A, B>(m: map<K, V>, f: (K, V) -> int, group: K -> A, groups: map<A, B>)
    requires |m| == 0
    ensures Sum(groups, GroupSums(m, f, group)) == Sum(m, f)
  {
    SumZero(groups, GroupSums(m, f, group));
  }

  /** An entry adds to the sum of its group and to no other. */
  lemma OneInGroups<K, V, A, B>(m: map<K, V>, f: (K, V) -> int, group: K -> A, groups: map<A, B>, k: K)
    requires k in m && group(k) in groups
    ensures Sum(groups, GroupSums(m, f, group)) == Sum(groups, GroupSums(m - {k}, f, group)) + f(k, m[k])
  {
    hide Sum;
    var only: (A, B) -> int := Only(group(k), f(k, m[k]));
    forall a | a in groups
      ensures Sum(m, InGroup(f, group, a)) == Sum(m - {k}, InGroup(f, group, a)) + only(a, groups[a])
    {
      SumSplit(m, InGroup(f, group, a), k);
    }
    SumPlus(groups, GroupSums(m - {k}, f, group), only, GroupSums(m, f, group));
    SumOnly(groups, group(k), f(k, m[k]));
  }
}
