/** The public entry points of the token contract, each a pure function from
    the committed state, the caller and the message fields to either an error
    or the next state with its response event. The intermediate states named
    inside each operation follow the order of the contract's loads and saves;
    an error discards all of them. */
module Contract {
  import opened Results
  import opened Amounts
  import opened Ledger

  const TOKEN_NAME: string := "My Token"
  const TOKEN_SYMBOL: string := "MYT"
  const TOKEN_DECIMALS: Uint8 := 6

  /** One entry of the instantiate message's initial balance list. */
  datatype InitialBalance = InitialBalance(address: Addr, amount: Uint128)

  /** Inserts the listed balances into `m` in list order, so a later entry for
      an address overwrites an earlier one. */
  function LoadBalances(m: map<Addr, Uint128>, entries: seq<InitialBalance>): (m': map<Addr, Uint128>)
    ensures m.Keys <= m'.Keys
    decreases |entries|
  {
    if |entries| == 0 then m
    else LoadBalances(m[entries[0].address := entries[0].amount], entries[1..])
  }

  /** instantiate: the sender becomes the owner, both flags start down, the
      recorded supply starts (and stays) at zero, and the initial balances are
      stored as listed. */
  function Instantiate(sender: Addr, initialBalances: seq<InitialBalance>): (s: State)
    ensures s.owner == sender
    ensures !s.paused && !s.reentrancyGuard
    ensures s.tokenInfo == TokenInfo(TOKEN_NAME, TOKEN_SYMBOL, TOKEN_DECIMALS, 0)
    ensures s.allowances == map[]
  {
    State(
      owner := sender,
      paused := false,
      reentrancyGuard := false,
      tokenInfo := TokenInfo(TOKEN_NAME, TOKEN_SYMBOL, TOKEN_DECIMALS, 0),
      balances := LoadBalances(map[], initialBalances),
      allowances := map[])
  }

  /** query: the balance of `address`, zero for an address with no entry. */
  function Query(s: State, address: Addr): (amount: Uint128)
    ensures address in s.balances ==> amount == s.balances[address]
    ensures address !in s.balances ==> amount == 0
  {
    GetOrZero(s.balances, address)
  }

  /** transfer: debit the sender, save, then credit the recipient as re-read. */
  function Transfer(s: State, sender: Addr, recipient: Addr, amount: Uint128): (r: Result<Step>)
    ensures sender !in s.balances ==> r == Err(BalanceNotFound)
    ensures sender in s.balances && s.balances[sender] < amount ==> r == Err(InsufficientBalance)
    ensures r.Ok? <==>
              && sender in s.balances
              && amount <= s.balances[sender]
              && (recipient == sender || GetOrZero(s.balances, recipient) + amount <= MAX_UINT128)
    ensures r.Err? && sender in s.balances && amount <= s.balances[sender] ==> r.error == Overflow
    ensures r.Ok? ==> Moved(s.balances, r.value.state.balances, sender, recipient, amount)
    ensures r.Ok? ==> OnlyBalancesChange(s, r.value.state)
    ensures r.Ok? ==> r.value.event == Transferred(sender, recipient, amount)
  {
    if sender !in s.balances then Err(BalanceNotFound)
    else if s.balances[sender] < amount then Err(InsufficientBalance)
    else
      // checked_sub cannot fail once the balance check above has passed
      var senderBalance := CheckedSub(s.balances[sender], amount).value;
      var s1 := s.(balances := s.balances[sender := senderBalance]);
      var recipientBalance :- CheckedAdd(GetOrZero(s1.balances, recipient), amount);
      var s2 := s1.(balances := s1.balances[recipient := recipientBalance]);
      Ok(Step(s2, Transferred(sender, recipient, amount)))
  }

  /** approve: add `amount` to the sender's allowance for `spender`. */
  function Approve(s: State, sender: Addr, spender: Addr, amount: Uint128): (r: Result<Step>)
    ensures r.Ok? <==> GetOrZero(s.allowances, (sender, spender)) + amount <= MAX_UINT128
    ensures r.Err? ==> r.error == Overflow
    ensures r.Ok? ==> Credited(s.allowances, r.value.state.allowances, (sender, spender), amount)
    ensures r.Ok? ==> OnlyAllowancesChange(s, r.value.state)
    ensures r.Ok? ==> r.value.event == Approved(sender, spender, amount)
  {
    var allowance :- CheckedAdd(GetOrZero(s.allowances, (sender, spender)), amount);
    var s1 := s.(allowances := s.allowances[(sender, spender) := allowance]);
    Ok(Step(s1, Approved(sender, spender, amount)))
  }

  /** transfer_from: spend the caller's allowance from `owner` first, then
      debit `owner` and credit `recipient` as in transfer. */
  function TransferFrom(s: State, caller: Addr, owner: Addr, recipient: Addr, amount: Uint128): (r: Result<Step>)
    ensures GetOrZero(s.allowances, (owner, caller)) < amount ==> r == Err(InsufficientAllowance)
    ensures amount <= GetOrZero(s.allowances, (owner, caller)) && owner !in s.balances
            ==> r == Err(BalanceNotFound)
    ensures amount <= GetOrZero(s.allowances, (owner, caller)) && owner in s.balances && s.balances[owner] < amount
            ==> r == Err(InsufficientBalance)
    ensures r.Ok? <==>
              && amount <= GetOrZero(s.allowances, (owner, caller))
              && owner in s.balances
              && amount <= s.balances[owner]
              && (recipient == owner || GetOrZero(s.balances, recipient) + amount <= MAX_UINT128)
    ensures r.Err? && amount <= GetOrZero(s.allowances, (owner, caller))
            && owner in s.balances && amount <= s.balances[owner]
            ==> r.error == Overflow
    ensures r.Ok? ==> Debited(s.allowances, r.value.state.allowances, (owner, caller), amount)
    ensures r.Ok? ==> Moved(s.balances, r.value.state.balances, owner, recipient, amount)
    ensures r.Ok? ==> r.value.state == s.(balances := r.value.state.balances, allowances := r.value.state.allowances)
    ensures r.Ok? ==> r.value.event == TransferredFrom(owner, recipient, amount)
  {
    var allowance := GetOrZero(s.allowances, (owner, caller));
    if allowance < amount then Err(InsufficientAllowance)
    else
      var remaining := CheckedSub(allowance, amount).value;
      var s1 := s.(allowances := s.allowances[(owner, caller) := remaining]);
      if owner !in s1.balances then Err(BalanceNotFound)
      else if s1.balances[owner] < amount then Err(InsufficientBalance)
      else
        var ownerBalance := CheckedSub(s1.balances[owner], amount).value;
        var s2 := s1.(balances := s1.balances[owner := ownerBalance]);
        var recipientBalance :- CheckedAdd(GetOrZero(s2.balances, recipient), amount);
        var s3 := s2.(balances := s2.balances[recipient := recipientBalance]);
        Ok(Step(s3, TransferredFrom(owner, recipient, amount)))
  }

  /** decrease_allowance: take `amount` off the sender's allowance for `spender`. */
  function DecreaseAllowance(s: State, sender: Addr, spender: Addr, amount: Uint128): (r: Result<Step>)
    ensures r.Ok? <==> amount <= GetOrZero(s.allowances, (sender, spender))
    ensures r.Err? ==> r.error == InsufficientAllowance
    ensures r.Ok? ==> Debited(s.allowances, r.value.state.allowances, (sender, spender), amount)
    ensures r.Ok? ==> OnlyAllowancesChange(s, r.value.state)
    ensures r.Ok? ==> r.value.event == NoAttributes
  {
    var allowance := GetOrZero(s.allowances, (sender, spender));
    if allowance < amount then Err(InsufficientAllowance)
    else
      var remaining := CheckedSub(allowance, amount).value;
      var s1 := s.(allowances := s.allowances[(sender, spender) := remaining]);
      Ok(Step(s1, NoAttributes))
  }

  /** burn: debit the sender's own balance; the recorded supply is not touched. */
  function Burn(s: State, sender: Addr, amount: Uint128): (r: Result<Step>)
    ensures sender !in s.balances ==> r == Err(BalanceNotFound)
    ensures r.Ok? <==> sender in s.balances && amount <= s.balances[sender]
    ensures r.Err? && sender in s.balances ==> r.error == InsufficientBalance
    ensures r.Ok? ==> sender in s.balances && Debited(s.balances, r.value.state.balances, sender, amount)
    ensures r.Ok? ==> OnlyBalancesChange(s, r.value.state)
    ensures r.Ok? ==> r.value.event == Burned(sender, amount)
  {
    if sender !in s.balances then Err(BalanceNotFound)
    else if s.balances[sender] < amount then Err(InsufficientBalance)
    else
      var senderBalance := CheckedSub(s.balances[sender], amount).value;
      var s1 := s.(balances := s.balances[sender := senderBalance]);
      Ok(Step(s1, Burned(sender, amount)))
  }

  /** mint: checks pause, then the guard, raises the guard, checks the owner,
      credits the recipient and lowers the guard again. The recorded supply is
      not touched. */
  function Mint(s: State, caller: Addr, recipient: Addr, amount: Uint128): (r: Result<Step>)
    ensures s.paused ==> r == Err(ContractPaused)
    ensures !s.paused && s.reentrancyGuard ==> r == Err(ReentrantCall)
    ensures !s.paused && !s.reentrancyGuard && caller != s.owner ==> r == Err(Unauthorized)
    ensures r.Ok? <==>
              && !s.paused
              && !s.reentrancyGuard
              && caller == s.owner
              && GetOrZero(s.balances, recipient) + amount <= MAX_UINT128
    ensures r.Err? && !s.paused && !s.reentrancyGuard && caller == s.owner ==> r.error == Overflow
    ensures r.Ok? ==> !r.value.state.reentrancyGuard
    ensures r.Ok? ==> Credited(s.balances, r.value.state.balances, recipient, amount)
    ensures r.Ok? ==> OnlyBalancesChange(s, r.value.state)
    ensures r.Ok? ==> r.value.event == Minted(recipient, amount)
  {
    if s.paused then Err(ContractPaused)
    else if s.reentrancyGuard then Err(ReentrantCall)
    else
      var s1 := s.(reentrancyGuard := true);
      if caller != s1.owner then Err(Unauthorized)
      else
        var recipientBalance :- CheckedAdd(GetOrZero(s1.balances, recipient), amount);
        var s2 := s1.(balances := s1.balances[recipient := recipientBalance]);
        var s3 := s2.(reentrancyGuard := false);
        Ok(Step(s3, Minted(recipient, amount)))
  }

  /** pause: the owner raises the paused flag. */
  function Pause(s: State, caller: Addr): (r: Result<Step>)
    ensures r.Ok? <==> caller == s.owner
    ensures r.Err? ==> r.error == Unauthorized
    ensures r.Ok? ==> r.value.state.paused && r.value.state.reentrancyGuard == s.reentrancyGuard
    ensures r.Ok? ==> SameLedger(s, r.value.state)
    ensures r.Ok? ==> r.value.event == Paused
  {
    if caller != s.owner then Err(Unauthorized)
    else Ok(Step(s.(paused := true), Paused))
  }

  /** unpause: the owner lowers the paused flag. */
  function Unpause(s: State, caller: Addr): (r: Result<Step>)
    ensures r.Ok? <==> caller == s.owner
    ensures r.Err? ==> r.error == Unauthorized
    ensures r.Ok? ==> !r.value.state.paused && r.value.state.reentrancyGuard == s.reentrancyGuard
    ensures r.Ok? ==> SameLedger(s, r.value.state)
    ensures r.Ok? ==> r.value.event == Unpaused
  {
    if caller != s.owner then Err(Unauthorized)
    else Ok(Step(s.(paused := false), Unpaused))
  }
}
