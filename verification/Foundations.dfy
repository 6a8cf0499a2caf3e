/** An optional value, as Python's `None` or a value. */
module Wrappers {
  datatype Option<+T> = None | Some(value: T)
}

/** Sums over the rows of a table, and sizes of sets related by an injection. */
module TableSums {

  /** The sum of the numbers stored under the keys of `rows`. */
  ghost function Sum<K>(rows: map<K, int>): int
    decreases |rows|
  {
    if rows == map[] then 0 else
      var k :| k in rows;
      rows[k] + Sum(rows - {k})
  }

  lemma {:induction false} SumRemove<K>(rows: map<K, int>, k: K)
    requires k in rows
    ensures Sum(rows) == rows[k] + Sum(rows - {k})
    decreases |rows|
  {
    var p :| p in rows && Sum(rows) == rows[p] + Sum(rows - {p});
    if p == k {
    } else {
      SumRemove(rows - {p}, k);
      SumRemove(rows - {k}, p);
      assert rows - {p} - {k} == rows - {k} - {p};
    }
  }

  lemma SumInsert<K>(rows: map<K, int>, k: K, v: int)
    requires k !in rows
    ensures Sum(rows[k := v]) == Sum(rows) + v
  {
    SumRemove(rows[k := v], k);
    assert rows[k := v] - {k} == rows;
  }

  lemma SumReplace<K>(rows: map<K, int>, k: K, v: int)
    requires k in rows
    ensures Sum(rows[k := v]) == Sum(rows) - rows[k] + v
  {
    SumRemove(rows, k);
    SumRemove(rows[k := v], k);
    assert rows[k := v] - {k} == rows - {k};
  }

  lemma {:induction false} SumNonNegative<K>(rows: map<K, int>)
    requires forall k :: k in rows ==> rows[k] >= 0
    ensures Sum(rows) >= 0
    decreases |rows|
  {
    if rows == map[] {
    } else {
      var k :| k in rows;
      SumRemove(rows, k);
      SumNonNegative(rows - {k});
    }
  }

  /** A set that a map sends injectively into another is no larger than it. */
  lemma {:induction false} InjectionBound<A, B>(f: map<A, B>, target: set<B>)
    requires forall a :: a in f ==> f[a] in target
    requires forall a, b :: a in f && b in f && f[a] == f[b] ==> a == b
    ensures |f.Keys| <= |target|
    decreases |f|
  {
    if f == map[] {
    } else {
      var a :| a in f;
      var g := f - {a};
      assert g.Keys == f.Keys - {a};
      InjectionBound(g, target - {f[a]});
    }
  }

  lemma SubsetSize<A>(small: set<A>, large: set<A>)
    requires small <= large
    ensures |small| <= |large|
  {
    var f := map a | a in small :: a;
    assert f.Keys == small;
    InjectionBound(f, large);
  }
}
