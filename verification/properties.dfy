/** Properties of single operations and of pairs of operations that the
    contracts of `Contract` do not state by themselves. */
module Properties {
  import opened Results
  import opened Amounts
  import opened Ledger
  import opened BalanceSum
  import opened Contract

  /** An address not listed in `entries` keeps whatever entry `m` gave it. */
  lemma {:induction false} LoadUnlisted(m: map<Addr, Uint128>, entries: seq<InitialBalance>, a: Addr)
    requires forall j :: 0 <= j < |entries| ==> entries[j].address != a
    ensures a in LoadBalances(m, entries) <==> a in m
    ensures a in m ==> LoadBalances(m, entries)[a] == m[a]
    decreases |entries|
  {
    if |entries| > 0 {
      LoadUnlisted(m[entries[0].address := entries[0].amount], entries[1..], a);
    }
  }

  /** The last entry listed for an address decides its loaded balance. */
  lemma {:induction false} LoadLastWins(m: map<Addr, Uint128>, entries: seq<InitialBalance>, i: nat)
    requires i < |entries|
    requires forall j :: i < j < |entries| ==> entries[j].address != entries[i].address
    ensures entries[i].address in LoadBalances(m, entries)
    ensures LoadBalances(m, entries)[entries[i].address] == entries[i].amount
    decreases |entries|
  {
    var m1 := m[entries[0].address := entries[0].amount];
    if i == 0 {
      LoadUnlisted(m1, entries[1..], entries[0].address);
    } else {
      LoadLastWins(m1, entries[1..], i - 1);
    }
  }

  /** After instantiate, querying an address gives the amount of the last
      initial-balance entry listed for it (duplicates overwrite rather than
      add), or zero if it is not listed. */
  lemma InstantiateQuery(sender: Addr, initialBalances: seq<InitialBalance>, a: Addr)
    ensures forall i :: 0 <= i < |initialBalances| && initialBalances[i].address == a
                        && (forall j :: i < j < |initialBalances| ==> initialBalances[j].address != a)
                        ==> Query(Instantiate(sender, initialBalances), a) == initialBalances[i].amount
    ensures (forall i :: 0 <= i < |initialBalances| ==> initialBalances[i].address != a)
            ==> Query(Instantiate(sender, initialBalances), a) == 0
  {
    forall i | 0 <= i < |initialBalances| && initialBalances[i].address == a
               && (forall j :: i < j < |initialBalances| ==> initialBalances[j].address != a)
    {
      LoadLastWins(map[], initialBalances, i);
    }
    if forall i :: 0 <= i < |initialBalances| ==> initialBalances[i].address != a {
      LoadUnlisted(map[], initialBalances, a);
    }
  }

  /** A successful transfer preserves the sum of all balances. */
  lemma TransferPreservesSum(s: State, sender: Addr, recipient: Addr, amount: Uint128)
    requires Transfer(s, sender, recipient, amount).Ok?
    ensures Sum(Transfer(s, sender, recipient, amount).value.state.balances) == Sum(s.balances)
  {
    MovedSum(s.balances, Transfer(s, sender, recipient, amount).value.state.balances, sender, recipient, amount);
  }

  /** A successful transfer_from preserves the sum of all balances, and the
      sum of all allowances drops by exactly the amount moved. */
  lemma TransferFromSums(s: State, caller: Addr, owner: Addr, recipient: Addr, amount: Uint128)
    requires TransferFrom(s, caller, owner, recipient, amount).Ok?
    ensures Sum(TransferFrom(s, caller, owner, recipient, amount).value.state.balances) == Sum(s.balances)
    ensures Sum(TransferFrom(s, caller, owner, recipient, amount).value.state.allowances) + amount
            == Sum(s.allowances)
  {
    var s' := TransferFrom(s, caller, owner, recipient, amount).value.state;
    MovedSum(s.balances, s'.balances, owner, recipient, amount);
    DebitedSum(s.allowances, s'.allowances, (owner, caller), amount);
  }

  /** A successful burn lowers the sum of balances by the amount burnt, while
      the recorded total supply stays where it was. */
  lemma BurnLowersSum(s: State, sender: Addr, amount: Uint128)
    requires Burn(s, sender, amount).Ok?
    ensures Sum(Burn(s, sender, amount).value.state.balances) + amount == Sum(s.balances)
    ensures Burn(s, sender, amount).value.state.tokenInfo.totalSupply == s.tokenInfo.totalSupply
  {
    DebitedSum(s.balances, Burn(s, sender, amount).value.state.balances, sender, amount);
  }

  /** A successful mint raises the sum of balances by the amount minted, while
      the recorded total supply stays where it was. */
  lemma MintRaisesSum(s: State, caller: Addr, recipient: Addr, amount: Uint128)
    requires Mint(s, caller, recipient, amount).Ok?
    ensures Sum(Mint(s, caller, recipient, amount).value.state.balances) == Sum(s.balances) + amount
    ensures Mint(s, caller, recipient, amount).value.state.tokenInfo.totalSupply == s.tokenInfo.totalSupply
  {
    CreditedSum(s.balances, Mint(s, caller, recipient, amount).value.state.balances, recipient, amount);
  }

  /** Approve accumulates: two approvals of `x` starting from no allowance
      leave an allowance of `2 * x`. */
  lemma ApproveTwiceDoubles(s: State, owner: Addr, spender: Addr, x: Uint128)
    requires GetOrZero(s.allowances, (owner, spender)) == 0
    requires 2 * x <= MAX_UINT128
    ensures Approve(s, owner, spender, x).Ok?
    ensures Approve(Approve(s, owner, spender, x).value.state, owner, spender, x).Ok?
    ensures Approve(Approve(s, owner, spender, x).value.state, owner, spender, x).value.state.allowances[(owner, spender)]
            == 2 * x
  {
  }

  /** Pausing twice is the same as pausing once, and likewise for unpausing. */
  lemma PauseIdempotent(s: State, caller: Addr)
    ensures Pause(s, caller).Ok? ==> Pause(Pause(s, caller).value.state, caller) == Pause(s, caller)
    ensures Unpause(s, caller).Ok? ==> Unpause(Unpause(s, caller).value.state, caller) == Unpause(s, caller)
  {
  }

  /** decrease_allowance undoes approve: approving `x` and then decreasing by
      `x` restores the state that had an allowance entry for the pair. */
  lemma ApproveThenDecreaseRestores(s: State, owner: Addr, spender: Addr, x: Uint128)
    requires (owner, spender) in s.allowances
    requires Approve(s, owner, spender, x).Ok?
    ensures DecreaseAllowance(Approve(s, owner, spender, x).value.state, owner, spender, x).Ok?
    ensures DecreaseAllowance(Approve(s, owner, spender, x).value.state, owner, spender, x).value.state == s
  {
  }

  /** A successful decrease_allowance lowers the sum of allowances by exactly
      the amount and leaves the sum of balances unchanged. */
  lemma DecreaseAllowanceSums(s: State, sender: Addr, spender: Addr, amount: Uint128)
    requires DecreaseAllowance(s, sender, spender, amount).Ok?
    ensures Sum(DecreaseAllowance(s, sender, spender, amount).value.state.allowances) + amount
            == Sum(s.allowances)
    ensures Sum(DecreaseAllowance(s, sender, spender, amount).value.state.balances) == Sum(s.balances)
  {
    DebitedSum(s.allowances, DecreaseAllowance(s, sender, spender, amount).value.state.allowances,
               (sender, spender), amount);
  }
}
