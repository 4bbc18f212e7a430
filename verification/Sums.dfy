/** Finite sums: over the rows of a table, over the members of a set, over a list.
    Every "SUM(column)" of the modelled program is one of these. */
module Sums {

  /** SUM(f) over all rows of a table. */
  ghost function Total<K, V>(m: map<K, V>, f: V -> int): int
  {
    if m == map[] then 0
    else
      var k :| k in m;
      f(m[k]) + Total(m - {k}, f)
  }

  lemma {:induction false} TotalRemove<K, V>(m: map<K, V>, f: V -> int, k: K)
    requires k in m
    ensures Total(m, f) == f(m[k]) + Total(m - {k}, f)
    decreases |m|
  {
    var j :| j in m && Total(m, f) == f(m[j]) + Total(m - {j}, f);
    if j != k {
      TotalRemove(m - {j}, f, k);
      TotalRemove(m - {k}, f, j);
      assert m - {j} - {k} == m - {k} - {j};
    }
  }

  lemma TotalUpdate<K, V>(m: map<K, V>, f: V -> int, k: K, v: V)
    ensures Total(m[k := v], f) == Total(m, f) + f(v) - (if k in m then f(m[k]) else 0)
  {
    TotalRemove(m[k := v], f, k);
    if k in m {
      TotalRemove(m, f, k);
      assert m[k := v] - {k} == m - {k};
    } else {
      assert m[k := v] - {k} == m;
    }
  }

  /** Row-wise comparison of two tables with the same keys. */
  lemma {:induction false} TotalLe<K, V, W>(m: map<K, V>, f: V -> int, n: map<K, W>, g: W -> int)
    requires m.Keys == n.Keys
    requires forall k :: k in m ==> f(m[k]) <= g(n[k])
    ensures Total(m, f) <= Total(n, g)
    decreases |m|
  {
    if m == map[] {
      assert n == map[];
    } else {
      var k :| k in m;
      TotalRemove(m, f, k);
      TotalRemove(n, g, k);
      TotalLe(m - {k}, f, n - {k}, g);
    }
  }

  lemma TotalSame<K, V, W>(m: map<K, V>, f: V -> int, n: map<K, W>, g: W -> int)
    requires m.Keys == n.Keys
    requires forall k :: k in m ==> f(m[k]) == g(n[k])
    ensures Total(m, f) == Total(n, g)
  {
    TotalLe(m, f, n, g);
    TotalLe(n, g, m, f);
  }

  lemma {:induction false} TotalNonNegative<K, V>(m: map<K, V>, f: V -> int)
    requires forall k :: k in m ==> f(m[k]) >= 0
    ensures Total(m, f) >= 0
    decreases |m|
  {
    if m != map[] {
      var k :| k in m;
      TotalRemove(m, f, k);
      TotalNonNegative(m - {k}, f);
    }
  }

  lemma {:induction false} TotalZero<K, V>(m: map<K, V>, f: V -> int)
    requires forall k :: k in m ==> f(m[k]) == 0
    ensures Total(m, f) == 0
    decreases |m|
  {
    if m != map[] {
      var k :| k in m;
      TotalRemove(m, f, k);
      TotalZero(m - {k}, f);
    }
  }

  /** Rows that contribute nothing can be left out. */
  lemma {:induction false} TotalRestrict<K, V>(m: map<K, V>, n: map<K, V>, f: V -> int)
    requires forall k :: k in n ==> k in m && n[k] == m[k]
    requires forall k :: k in m && k !in n ==> f(m[k]) == 0
    ensures Total(n, f) == Total(m, f)
    decreases |m|
  {
    if k :| k in m && k !in n {
      TotalRemove(m, f, k);
      TotalRestrict(m - {k}, n, f);
    } else {
      assert m == n;
    }
  }

  /** More rows that take nothing away. */
  lemma {:induction false} TotalGrows<K, V>(m: map<K, V>, n: map<K, V>, f: V -> int)
    requires forall k :: k in n ==> k in m && n[k] == m[k]
    requires forall k :: k in m && k !in n ==> f(m[k]) >= 0
    ensures Total(n, f) <= Total(m, f)
    decreases |m|
  {
    if k :| k in m && k !in n {
      TotalRemove(m, f, k);
      TotalGrows(m - {k}, n, f);
    } else {
      assert m == n;
    }
  }

  /** `SELECT SUM(f)`: visits every row once, in no particular order. */
  method SumQuery<K(==), V>(m: map<K, V>, f: V -> int) returns (sum: int)
    ensures sum == Total(m, f)
  {
    sum := 0;
    var left := m;
    while left != map[]
      invariant sum + Total(left, f) == Total(m, f)
      decreases |left|
    {
      var k :| k in left;
      TotalRemove(left, f, k);
      sum := sum + f(left[k]);
      left := left - {k};
    }
  }

  /** Sum over a set: the table whose rows are its own keys. */
  ghost function SetTotal<K>(s: set<K>, f: K -> int): int
  {
    Total(map k | k in s :: k, f)
  }

  lemma SetTotalAdd<K>(s: set<K>, f: K -> int, k: K)
    requires k !in s
    ensures SetTotal(s + {k}, f) == SetTotal(s, f) + f(k)
  {
    var m := map x | x in s :: x;
    TotalUpdate(m, f, k, k);
    assert m[k := k] == map x | x in s + {k} :: x;
  }

  lemma SetTotalTake<K>(s: set<K>, f: K -> int, k: K)
    requires k in s
    ensures SetTotal(s, f) == SetTotal(s - {k}, f) + f(k)
  {
    SetTotalAdd(s - {k}, f, k);
    assert s - {k} + {k} == s;
  }

  lemma SetTotalSame<K>(s: set<K>, f: K -> int, g: K -> int)
    requires forall k :: k in s ==> f(k) == g(k)
    ensures SetTotal(s, f) == SetTotal(s, g)
  {
    TotalSame(map k | k in s :: k, f, map k | k in s :: k, g);
  }

  lemma SetTotalZero<K>(s: set<K>, f: K -> int)
    requires forall k :: k in s ==> f(k) == 0
    ensures SetTotal(s, f) == 0
  {
    TotalZero(map k | k in s :: k, f);
  }

  /** Two functions that differ at one place at most. */
  lemma SetTotalMoves<K>(s: set<K>, f: K -> int, g: K -> int, k: K)
    requires forall x :: x in s && x != k ==> g(x) == f(x)
    ensures SetTotal(s, g) == SetTotal(s, f) + if k in s then g(k) - f(k) else 0
  {
    SetTotalSame(s - {k}, f, g);
    if k in s {
      SetTotalTake(s, f, k);
      SetTotalTake(s, g, k);
    } else {
      assert s - {k} == s;
    }
  }

  lemma SetTotalEmpty<K>(s: set<K>, f: K -> int)
    requires s == {}
    ensures SetTotal(s, f) == 0
  {}

  lemma {:induction false} SetTotalSubset<K>(s: set<K>, t: set<K>, f: K -> int)
    requires s <= t
    requires forall k :: k in t ==> f(k) >= 0
    ensures SetTotal(s, f) <= SetTotal(t, f)
    decreases |t - s|
  {
    if s != t {
      var k :| k in t && k !in s;
      assert t - (s + {k}) < t - s;
      SetTotalSubset(s + {k}, t, f);
      SetTotalAdd(s, f, k);
    }
  }

  function Max(a: int, b: int): int { if a >= b then a else b }
  function Min(a: int, b: int): int { if a <= b then a else b }
}
