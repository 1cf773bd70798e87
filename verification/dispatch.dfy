/** Routing of one call to its operation, and runs of calls as the host
    delivers them: one at a time, committing a call's state only when it
    succeeds. Properties that hold in every state reachable after
    instantiate are stated over such runs. */
module Dispatch {
  import opened Results
  import opened Amounts
  import opened Ledger
  import opened BalanceSum
  import Contract
  import Properties

  /** The mutating messages a caller can send after instantiate. */
  datatype Msg =
    | Transfer(recipient: Addr, amount: Uint128)
    | Approve(spender: Addr, amount: Uint128)
    | TransferFrom(owner: Addr, recipient: Addr, amount: Uint128)
    | DecreaseAllowance(spender: Addr, amount: Uint128)
    | Burn(amount: Uint128)
    | Mint(recipient: Addr, amount: Uint128)
    | Pause
    | Unpause

  /** A message together with the address that sent it. */
  datatype Call = Call(sender: Addr, msg: Msg)

  /** The state after a run and the events of its successful calls, in order. */
  datatype Trace = Trace(state: State, events: seq<Event>)

  /** Runs `msg` from `caller` against `s`. No call changes the owner or the
      token info, and none leaves the reentrancy guard raised. */
  function Execute(s: State, caller: Addr, msg: Msg): (r: Result<Step>)
    ensures r.Ok? ==> r.value.state.owner == s.owner
    ensures r.Ok? ==> r.value.state.tokenInfo == s.tokenInfo
    ensures r.Ok? && !s.reentrancyGuard ==> !r.value.state.reentrancyGuard
  {
    match msg
    case Transfer(recipient, amount) => Contract.Transfer(s, caller, recipient, amount)
    case Approve(spender, amount) => Contract.Approve(s, caller, spender, amount)
    case TransferFrom(owner, recipient, amount) => Contract.TransferFrom(s, caller, owner, recipient, amount)
    case DecreaseAllowance(spender, amount) => Contract.DecreaseAllowance(s, caller, spender, amount)
    case Burn(amount) => Contract.Burn(s, caller, amount)
    case Mint(recipient, amount) => Contract.Mint(s, caller, recipient, amount)
    case Pause => Contract.Pause(s, caller)
    case Unpause => Contract.Unpause(s, caller)
  }

  /** Delivers `calls` in order starting from `s`; a failing call is dropped
      and the next call sees the state as it was before it. */
  function Run(s: State, calls: seq<Call>): (t: Trace)
    ensures t.state.owner == s.owner
    ensures t.state.tokenInfo == s.tokenInfo
    ensures !s.reentrancyGuard ==> !t.state.reentrancyGuard
    ensures |t.events| <= |calls|
    decreases |calls|
  {
    if |calls| == 0 then Trace(s, [])
    else
      match Execute(s, calls[0].sender, calls[0].msg)
      case Err(_) => Run(s, calls[1..])
      case Ok(step) =>
        var rest := Run(step.state, calls[1..]);
        Trace(rest.state, [step.event] + rest.events)
  }

  /** The amount an event adds to the balances out of nothing. */
  function MintedBy(e: Event): nat
  {
    if e.Minted? then e.amount else 0
  }

  /** The amount an event removes from the balances for good. */
  function BurnedBy(e: Event): nat
  {
    if e.Burned? then e.amount else 0
  }

  /** The amounts minted over a sequence of events. */
  function TotalMinted(events: seq<Event>): nat
  {
    if |events| == 0 then 0 else MintedBy(events[0]) + TotalMinted(events[1..])
  }

  /** The amounts burnt over a sequence of events. */
  function TotalBurned(events: seq<Event>): nat
  {
    if |events| == 0 then 0 else BurnedBy(events[0]) + TotalBurned(events[1..])
  }

  /** A successful call changes the sum of balances only by what it mints or
      burns; every other call leaves the sum where it was. */
  lemma ExecuteSum(s: State, caller: Addr, msg: Msg)
    requires Execute(s, caller, msg).Ok?
    ensures Sum(Execute(s, caller, msg).value.state.balances) + BurnedBy(Execute(s, caller, msg).value.event)
            == Sum(s.balances) + MintedBy(Execute(s, caller, msg).value.event)
  {
    match msg
    case Transfer(recipient, amount) => Properties.TransferPreservesSum(s, caller, recipient, amount);
    case TransferFrom(owner, recipient, amount) => Properties.TransferFromSums(s, caller, owner, recipient, amount);
    case Burn(amount) => Properties.BurnLowersSum(s, caller, amount);
    case Mint(recipient, amount) => Properties.MintRaisesSum(s, caller, recipient, amount);
    case _ =>
  }

  /** Over any run, the balances gain exactly what was minted and lose exactly
      what was burnt. */
  lemma {:induction false} RunSum(s: State, calls: seq<Call>)
    ensures Sum(Run(s, calls).state.balances) + TotalBurned(Run(s, calls).events)
            == Sum(s.balances) + TotalMinted(Run(s, calls).events)
    decreases |calls|
  {
    if |calls| > 0 {
      var r := Execute(s, calls[0].sender, calls[0].msg);
      if r.Ok? {
        ExecuteSum(s, calls[0].sender, calls[0].msg);
        RunSum(r.value.state, calls[1..]);
        var rest := Run(r.value.state, calls[1..]);
        assert ([r.value.event] + rest.events)[1..] == rest.events;
      } else {
        RunSum(s, calls[1..]);
      }
    }
  }

  /** The paused flag gates mint alone: every other message succeeds or fails,
      and leaves the same balances, allowances and event, whether or not the
      contract is paused. */
  lemma ExecuteIgnoresPause(s: State, caller: Addr, msg: Msg, paused: bool)
    requires !msg.Mint?
    ensures Execute(s.(paused := paused), caller, msg).Ok? <==> Execute(s, caller, msg).Ok?
    ensures Execute(s, caller, msg).Ok? ==>
              && Execute(s.(paused := paused), caller, msg).value.state.balances
                 == Execute(s, caller, msg).value.state.balances
              && Execute(s.(paused := paused), caller, msg).value.state.allowances
                 == Execute(s, caller, msg).value.state.allowances
              && Execute(s.(paused := paused), caller, msg).value.event == Execute(s, caller, msg).value.event
  {
  }

  /** Every state reachable by a run after instantiate has the instantiating
      sender as owner, a recorded supply of zero, and the reentrancy guard
      down: the guard raised inside a mint that fails is never committed. */
  lemma ReachableStates(sender: Addr, initialBalances: seq<Contract.InitialBalance>, calls: seq<Call>)
    ensures Run(Contract.Instantiate(sender, initialBalances), calls).state.owner == sender
    ensures Run(Contract.Instantiate(sender, initialBalances), calls).state.tokenInfo.totalSupply == 0
    ensures !Run(Contract.Instantiate(sender, initialBalances), calls).state.reentrancyGuard
  {
  }
}
