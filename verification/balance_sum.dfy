/** The sum of all amounts in a map, and how single-entry updates move it.
    This is the quantity the recorded total supply is meant to track. */
module BalanceSum {
  import opened Amounts
  import opened Ledger

  /** The sum of every amount stored in `m`. */
  ghost function Sum<K>(m: map<K, Uint128>): nat
    decreases |m|
  {
    if m == map[] then 0
    else
      var k :| k in m;
      m[k] + Sum(m - {k})
  }

  /** Any entry can be split off the sum, not only the one `Sum` happens to pick. */
  lemma {:induction false} SumRemove<K>(m: map<K, Uint128>, k: K)
    requires k in m
    ensures Sum(m) == m[k] + Sum(m - {k})
    decreases |m|
  {
    var j :| j in m && Sum(m) == m[j] + Sum(m - {j});
    if j != k {
      SumRemove(m - {j}, k);
      SumRemove(m - {k}, j);
      assert m - {j} - {k} == m - {k} - {j};
    }
  }

  /** Storing `v` under `k` moves the sum by `v` minus the amount it replaces. */
  lemma SumUpdate<K>(m: map<K, Uint128>, k: K, v: Uint128)
    ensures Sum(m[k := v]) + GetOrZero(m, k) == Sum(m) + v
  {
    SumRemove(m[k := v], k);
    if k in m {
      SumRemove(m, k);
      assert m[k := v] - {k} == m - {k};
    } else {
      assert m[k := v] - {k} == m;
    }
  }

  /** A credit of `amount` raises the sum by exactly `amount`. */
  lemma CreditedSum<K(!new)>(m: map<K, Uint128>, m': map<K, Uint128>, k: K, amount: Uint128)
    requires Credited(m, m', k, amount)
    ensures Sum(m') == Sum(m) + amount
  {
    assert m' == m[k := m'[k]];
    SumUpdate(m, k, m'[k]);
  }

  /** A debit of `amount` lowers the sum by exactly `amount`. */
  lemma DebitedSum<K(!new)>(m: map<K, Uint128>, m': map<K, Uint128>, k: K, amount: Uint128)
    requires Debited(m, m', k, amount)
    ensures Sum(m') + amount == Sum(m)
  {
    assert m' == m[k := m'[k]];
    SumUpdate(m, k, m'[k]);
  }

  /** Moving an amount between entries leaves the sum where it was. */
  lemma MovedSum<K(!new)>(m: map<K, Uint128>, m': map<K, Uint128>, from: K, to: K, amount: Uint128)
    requires Moved(m, m', from, to, amount)
    ensures Sum(m') == Sum(m)
  {
    if from == to {
      assert m' == m;
    } else {
      var mid := m[from := m'[from]];
      assert m' == mid[to := m'[to]];
      SumUpdate(m, from, m'[from]);
      SumUpdate(mid, to, m'[to]);
    }
  }
}
