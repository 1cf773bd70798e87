/** The persisted state of the token contract and the vocabulary used to say
    how an operation changed it. Storage buckets keyed by byte prefixes become
    plain maps: a balance entry per address and an allowance entry per
    (owner, spender) pair. An absent entry and a zero entry read alike through
    `GetOrZero`, but absence still matters where an entry is loaded strictly. */
module Ledger {
  import opened Amounts

  /** A human-readable account address. */
  type Addr = string

  /** Token metadata and the recorded supply. */
  datatype TokenInfo = TokenInfo(name: string, symbol: string, decimals: Uint8, totalSupply: Uint128)

  /** The whole contract state between two calls. */
  datatype State = State(
    owner: Addr,
    paused: bool,
    reentrancyGuard: bool,
    tokenInfo: TokenInfo,
    balances: map<Addr, Uint128>,
    allowances: map<(Addr, Addr), Uint128>)

  /** The "action" attribute of a call's response, with the attributes that
      accompany it; `NoAttributes` is an empty response. */
  datatype Event =
    | NoAttributes
    | Transferred(from: Addr, to: Addr, amount: Uint128)
    | Approved(owner: Addr, spender: Addr, amount: Uint128)
    | TransferredFrom(from: Addr, to: Addr, amount: Uint128)
    | Burned(from: Addr, amount: Uint128)
    | Minted(to: Addr, amount: Uint128)
    | Paused
    | Unpaused

  /** What a successful call leaves behind: the state to commit and its event. */
  datatype Step = Step(state: State, event: Event)

  /** The stored amount under `k`, or zero when there is no entry. */
  function GetOrZero<K>(m: map<K, Uint128>, k: K): (r: Uint128)
    ensures k in m ==> r == m[k]
    ensures k !in m ==> r == 0
  {
    if k in m then m[k] else 0
  }

  /** Every key outside `changed` has the same entry (or the same absence) in
      `m'` as in `m`. */
  ghost predicate Keeps<K(!new)>(m: map<K, Uint128>, m': map<K, Uint128>, changed: set<K>)
  {
    forall k :: k !in changed ==> (k in m <==> k in m') && (k in m ==> m[k] == m'[k])
  }

  /** `m'` is `m` with `amount` added to the entry under `k` (absent = 0). */
  ghost predicate Credited<K(!new)>(m: map<K, Uint128>, m': map<K, Uint128>, k: K, amount: Uint128)
  {
    && Keeps(m, m', {k})
    && k in m'
    && m'[k] == GetOrZero(m, k) + amount
  }

  /** `m'` is `m` with `amount` taken from the entry under `k` (absent = 0). */
  ghost predicate Debited<K(!new)>(m: map<K, Uint128>, m': map<K, Uint128>, k: K, amount: Uint128)
  {
    && Keeps(m, m', {k})
    && k in m'
    && m'[k] + amount == GetOrZero(m, k)
  }

  /** `m'` is `m` with `amount` moved from the existing entry `from` to `to`;
      a move onto the same key leaves the map as it was. */
  ghost predicate Moved<K(!new)>(m: map<K, Uint128>, m': map<K, Uint128>, from: K, to: K, amount: Uint128)
  {
    && from in m
    && Keeps(m, m', {from, to})
    && from in m' && to in m'
    && (from != to ==> m'[from] + amount == m[from] && m'[to] == GetOrZero(m, to) + amount)
    && (from == to ==> m'[from] == m[from])
  }

  /** Only the balances differ between `s` and `s'`. */
  predicate OnlyBalancesChange(s: State, s': State)
  {
    s' == s.(balances := s'.balances)
  }

  /** Only the allowances differ between `s` and `s'`. */
  predicate OnlyAllowancesChange(s: State, s': State)
  {
    s' == s.(allowances := s'.allowances)
  }

  /** Owner, token info, balances and allowances are the same in `s` and `s'`:
      at most the two flags differ. */
  predicate SameLedger(s: State, s': State)
  {
    s' == s.(paused := s'.paused, reentrancyGuard := s'.reentrancyGuard)
  }
}
