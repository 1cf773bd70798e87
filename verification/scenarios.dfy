/** Concrete call sequences worked through the model: the spending flow of a
    fresh ledger, and the failures that follow from it. */
module Scenarios {
  import opened Results
  import opened Ledger
  import opened Contract

  /** Instantiate with alice at 100, alice sends 40 to bob, approves bob for 50,
      and bob moves 30 of alice's tokens to carol. The recorded supply stays
      at zero throughout, because nothing in the contract updates it. */
  lemma SpendingFlow()
    ensures var s0 := Instantiate("admin", [InitialBalance("alice", 100)]);
            && Query(s0, "alice") == 100
            && s0.tokenInfo.totalSupply == 0
            && var s1 := Transfer(s0, "alice", "bob", 40).value.state;
               && Query(s1, "alice") == 60 && Query(s1, "bob") == 40
               && var s2 := Approve(s1, "alice", "bob", 50).value.state;
                  && var r3 := TransferFrom(s2, "bob", "alice", "carol", 30);
                     && r3.Ok?
                     && GetOrZero(r3.value.state.allowances, ("alice", "bob")) == 20
                     && Query(r3.value.state, "alice") == 30
                     && Query(r3.value.state, "carol") == 30
                     && r3.value.state.tokenInfo.totalSupply == 0
                     && TransferFrom(r3.value.state, "bob", "alice", "carol", 1000) == Err(InsufficientAllowance)
  {
    var s0 := Instantiate("admin", [InitialBalance("alice", 100)]);
    assert s0.balances == map["alice" := 100];
    var s1 := Transfer(s0, "alice", "bob", 40).value.state;
    assert s1.balances == map["alice" := 60, "bob" := 40];
  }

  /** Once paused, mint fails even for the owner; burning a whole balance
      leaves zero, and burning again fails. */
  lemma PauseAndBurn()
    ensures var s0 := Instantiate("admin", [InitialBalance("alice", 60)]);
            && var s1 := Pause(s0, "admin").value.state;
               && Mint(s1, "admin", "dave", 10) == Err(ContractPaused)
               && var s2 := Burn(s1, "alice", 60).value.state;
                  && Query(s2, "alice") == 0
                  && Burn(s2, "alice", 1) == Err(InsufficientBalance)
  {
    var s0 := Instantiate("admin", [InitialBalance("alice", 60)]);
    assert s0.balances == map["alice" := 60];
  }
}
