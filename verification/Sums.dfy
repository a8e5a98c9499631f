// Sums over finite maps and sequences, shared by the ledger, escrow and backend models.

module Sums {

  datatype Option<+T> = None | Some(value: T)

  /** The sum of a map's values. */
  ghost function Total<K(!new)>(m: map<K, int>): int {
    if m == map[] then 0 else
      var k :| k in m;
      m[k] + Total(m - {k})
  }

  lemma {:induction false} TotalExtract<K(!new)>(m: map<K, int>, k: K)
    requires k in m
    ensures Total(m) == m[k] + Total(m - {k})
    decreases |m|
  {
    var c :| c in m && Total(m) == m[c] + Total(m - {c});
    if c != k {
      TotalExtract(m - {c}, k);
      TotalExtract(m - {k}, c);
      assert m - {c} - {k} == m - {k} - {c};
    }
  }

  /** Writing one key changes the sum by the difference at that key. */
  lemma TotalPut<K(!new)>(m: map<K, int>, k: K, v: int)
    ensures Total(m[k := v]) == Total(m) - (if k in m then m[k] else 0) + v
  {
    TotalExtract(m[k := v], k);
    assert m[k := v] - {k} == m - {k};
    if k in m {
      TotalExtract(m, k);
    } else {
      assert m - {k} == m;
    }
  }

  /** A sum of non-negative values bounds each of them. */
  lemma {:induction false} TotalBounds<K(!new)>(m: map<K, int>, k: K)
    requires k in m
    requires forall j :: j in m ==> 0 <= m[j]
    ensures m[k] <= Total(m)
  {
    TotalExtract(m, k);
    TotalNonNegative(m - {k});
  }

  lemma {:induction false} TotalNonNegative<K(!new)>(m: map<K, int>)
    requires forall j :: j in m ==> 0 <= m[j]
    ensures 0 <= Total(m)
    decreases |m|
  {
    if m != map[] {
      var c :| c in m && Total(m) == m[c] + Total(m - {c});
      TotalNonNegative(m - {c});
    }
  }

  function Sum(s: seq<int>): int {
    if s == [] then 0 else Sum(s[..|s| - 1]) + s[|s| - 1]
  }
}
