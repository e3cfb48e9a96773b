// Sums over tables (finite maps) and over append-only sequences.
module Totals {

  function Abs(x: int): nat {
    if x < 0 then -x else x
  }

  /** The sum of f over the rows of a table. */
  ghost function Total<K(!new), V>(m: map<K, V>, f: V -> int): int
    decreases |m|
  {
    if m == map[] then 0
    else
      var k :| k in m;
      f(m[k]) + Total(m - {k}, f)
  }

  /** Any row may be taken out first. */
  lemma {:induction false} TotalRemove<K(!new), V>(m: map<K, V>, k: K, f: V -> int)
    requires k in m
    ensures Total(m, f) == f(m[k]) + Total(m - {k}, f)
    decreases |m|
  {
    var first :| first in m && Total(m, f) == f(m[first]) + Total(m - {first}, f);
    if first != k {
      TotalRemove(m - {first}, k, f);
      TotalRemove(m - {k}, first, f);
      assert m - {first} - {k} == m - {k} - {first};
    }
  }

  /** What row k contributes, 0 when there is no such row. */
  function At<K, V>(m: map<K, V>, k: K, f: V -> int): int {
    if k in m then f(m[k]) else 0
  }

  /** Inserting or overwriting one row changes a total by that row's contribution alone. */
  lemma TotalPut<K(!new), V>(m: map<K, V>, k: K, v: V, f: V -> int)
    ensures Total(m[k := v], f) == Total(m, f) - At(m, k, f) + f(v)
  {
    TotalRemove(m[k := v], k, f);
    assert m[k := v] - {k} == m - {k};
    if k in m {
      TotalRemove(m, k, f);
    } else {
      assert m - {k} == m;
    }
  }

  /** Two measures that agree on every row of a table have the same total. */
  lemma {:induction false} TotalAgree<K(!new), V>(m: map<K, V>, f: V -> int, g: V -> int)
    requires forall k :: k in m ==> f(m[k]) == g(m[k])
    ensures Total(m, f) == Total(m, g)
    decreases |m|
  {
    if k :| k in m {
      TotalRemove(m, k, f);
      TotalRemove(m, k, g);
      TotalAgree(m - {k}, f, g);
    }
  }

  /** A measure that is nowhere below another has no smaller total, and the same total only if it is the same. */
  lemma {:induction false} TotalAbove<K(!new), V>(m: map<K, V>, f: V -> int, g: V -> int)
    requires forall k :: k in m ==> f(m[k]) >= g(m[k])
    ensures Total(m, f) >= Total(m, g)
    ensures Total(m, f) == Total(m, g) <==> forall k :: k in m ==> f(m[k]) == g(m[k])
    decreases |m|
  {
    if k :| k in m {
      TotalRemove(m, k, f);
      TotalRemove(m, k, g);
      var rest := m - {k};
      TotalAbove(rest, f, g);
      assert (forall j :: j in m ==> f(m[j]) == g(m[j]))
        <==> f(m[k]) == g(m[k]) && forall j :: j in rest ==> f(rest[j]) == g(rest[j]) by {
        assert forall j :: j in m <==> j == k || j in rest;
        assert forall j :: j in rest ==> rest[j] == m[j];
      }
    }
  }

  /** The sum of f over a sequence. */
  function SumOf<T>(s: seq<T>, f: T -> int): int {
    if s == [] then 0 else SumOf(s[..|s| - 1], f) + f(s[|s| - 1])
  }

  lemma {:induction false} SumOfAppend<T>(s: seq<T>, x: T, f: T -> int)
    ensures SumOf(s + [x], f) == SumOf(s, f) + f(x)
  {
    assert (s + [x])[..|s|] == s;
  }
}
