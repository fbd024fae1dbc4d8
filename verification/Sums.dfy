// Sums of a finite map's values, used as ranking functions and as totals over histories.
module Sums {

  /** The sum of every value of `m`. */
  ghost function Total(m: map<nat, nat>): nat
  {
    if m == map[] then 0 else var k :| k in m; m[k] + Total(m - {k})
  }

  /** Any key may be taken out first. */
  lemma {:induction false} TotalTakes(m: map<nat, nat>, k: nat)
    requires k in m
    ensures Total(m) == m[k] + Total(m - {k})
    decreases |m|
  {
    var c :| c in m && Total(m) == m[c] + Total(m - {c});
    if c != k {
      TotalTakes(m - {c}, k);
      TotalTakes(m - {k}, c);
      assert (m - {c}) - {k} == (m - {k}) - {c};
    }
  }

  /** Changing or adding one key changes the sum by that key's value alone. */
  lemma TotalPut(m: map<nat, nat>, k: nat, v: nat)
    ensures Total(m[k := v]) == v + Total(m - {k})
  {
    var n := m[k := v];
    TotalTakes(n, k);
    assert n - {k} == m - {k};
  }
}
