# CW20-style token ledger, modelled in Dafny

This project models the core of a CosmWasm fungible-token contract (`src/main.rs`).
The ledger is one persisted state record:

- the owner;
- the `paused` and `reentrancy_guard` flags;
- the token info, with its recorded `total_supply`;
- a balance per address;
- an allowance per (owner, spender) pair.

Each public entry point is a pure function. It takes the committed state, the caller and the message fields. It returns either an error or a `Step`: the next state plus the response's action tag (`Event`). The host commits a call's writes only when the call succeeds. So an error carries no state, and the saves a failing call made before its error have no lasting effect.

Modules, leaf first:

- `Results`: the error kinds and the `Result` type.
- `Amounts`: `Uint128` as a nat bounded by 2^128 − 1, with `checked_add` (fails with `Overflow`) and `checked_sub` (fails with `Underflow`).
- `Ledger`: the state record, the response events, the get-or-zero reader, and predicates that say which entries an operation changed and by how much.
- `BalanceSum`: the sum of a map's amounts and how single-entry updates move it.
- `Contract`: instantiate, query, transfer, approve, transfer_from, decrease_allowance, burn, mint, pause and unpause.
- `Properties`: lemmas relating operations to the balance sum, to each other, and to instantiate's input list.
- `Dispatch`: routing of a message to its operation, and runs of calls from a state. The invariants of reachable states are proved here.
- `Scenarios`: two concrete call sequences.

Behaviour of the code that the model follows:

- The recorded `total_supply` is zero after instantiate and nothing ever changes it. Instantiate, mint and burn leave it alone. The model therefore proves exact deltas of the sum of balances. It does not prove a `total_supply == sum` invariant, which the code does not keep.
- Instantiate inserts the listed balances in order. A later entry for the same address overwrites an earlier one; it does not add to it. Instantiate has no overflow case.
- Loading a debited balance that has no entry fails (`BalanceNotFound`). This applies to the sender of transfer, the owner in transfer_from, and the sender of burn. A missing recipient balance or a missing allowance reads as zero.
- Only mint checks the pause flag. Transfer, approve, transfer_from, decrease_allowance and burn run the same way whether or not the contract is paused.
- Mint raises the guard and saves it before checking the owner. A non-owner mint therefore fails after the guard went up. Because a failing call commits nothing, the guard is still down in every state reachable after instantiate. The guard cannot lock out later mints.
- The source builds its state with `State::new`, which resets the owner to `""` and both flags to false on every call. It also builds the state from `HashMap`s in instantiate but from storage buckets elsewhere. The model uses one persisted state instead, whose owner is fixed at instantiate.

## Model

| member | source | states |
|---|---|---|
| Amounts.CheckedAdd | src/main.rs:188 | Succeeds exactly when the sum fits in 128 bits, with the exact sum; otherwise fails with Overflow, never wrapping |
| Amounts.CheckedSub | src/main.rs:184 | Succeeds exactly when the subtrahend is at most the minuend, with the exact difference; otherwise fails with Underflow |
| Amounts.CheckedRoundTrip | src/main.rs:184-188 | A checked subtraction undoes a successful checked addition, and the reverse |
| Ledger.GetOrZero | src/main.rs:187 | A stored entry reads as itself and a missing entry reads as zero |
| Contract.Instantiate | src/main.rs:123-150 | The sender becomes owner, paused and guard are false, token info is "My Token"/"MYT"/6 with total supply 0, and there are no allowances |
| Contract.LoadBalances | src/main.rs:143-145 | Inserting the initial list loses no key of the starting map |
| Properties.LoadUnlisted | src/main.rs:143-145 | Inserting the initial list leaves an address that is not listed as it was, present or absent |
| Properties.LoadLastWins | src/main.rs:143-145 | Inserting the initial list stores, for a listed address, the amount of its last entry |
| Properties.InstantiateQuery | src/main.rs:143-145 | After instantiate, a query returns the amount of the last entry listed for the address (duplicates overwrite), or 0 if the address is unlisted |
| Contract.Query | src/main.rs:162-170 | Returns the stored balance, or 0 for an address with no entry |
| Contract.Transfer | src/main.rs:172-192 | Fails with BalanceNotFound if the sender has no entry, else InsufficientBalance if the balance is below the amount, else Overflow if the recipient's balance would pass 2^128 − 1. On success the sender loses exactly the amount, the recipient gains exactly the amount, and a self-transfer leaves the balance unchanged. Every other balance, all allowances and the flags stay as they were. The event is a transfer from sender to recipient |
| Properties.TransferPreservesSum | src/main.rs:180-189 | A successful transfer leaves the sum of all balances unchanged |
| Contract.Approve | src/main.rs:194-207 | The allowance (sender, spender) becomes its old value (absent = 0) plus the amount. The call fails only on overflow. No balance and no other allowance changes |
| Properties.ApproveTwiceDoubles | src/main.rs:202-204 | Two approvals of X starting from no allowance both succeed (when 2X fits) and leave an allowance of 2X |
| Contract.TransferFrom | src/main.rs:209-245 | Fails with InsufficientAllowance whenever allowance(owner, caller) is below the amount, whatever the balances are. Otherwise it fails with BalanceNotFound or InsufficientBalance for the owner's balance, else Overflow at the recipient. On success the allowance drops by exactly the amount and the balances move exactly as in transfer. Nothing else changes |
| Properties.TransferFromSums | src/main.rs:220-242 | A successful transfer_from preserves the sum of balances and lowers the sum of allowances by exactly the amount |
| Contract.DecreaseAllowance | src/main.rs:247-267 | Fails with InsufficientAllowance exactly when the current allowance (absent = 0) is below the amount. On success it subtracts exactly the amount from (sender, spender) and changes nothing else. The response has no attributes |
| Properties.ApproveThenDecreaseRestores | src/main.rs:247-267 | When the pair already has an allowance entry, approving X and then decreasing by X succeeds and gives back exactly the starting state |
| Properties.DecreaseAllowanceSums | src/main.rs:257-264 | A successful decrease_allowance lowers the sum of allowances by exactly the amount and leaves the balance sum unchanged |
| Contract.Burn | src/main.rs:269-288 | Fails with BalanceNotFound if the sender has no entry, and with InsufficientBalance if the balance is below the amount. On success only the sender's balance drops, by exactly the amount. The total supply and all other state stay unchanged |
| Properties.BurnLowersSum | src/main.rs:278-285 | A successful burn lowers the balance sum by the amount and leaves the recorded total supply alone |
| Contract.Mint | src/main.rs:290-323 | Errors come in this order: paused gives ContractPaused, then a raised guard gives ReentrantCall, then a non-owner caller gives Unauthorized, then Overflow at the recipient. On success the recipient gains exactly the amount, the guard is down, and only balances change |
| Properties.MintRaisesSum | src/main.rs:314-317 | A successful mint raises the balance sum by the amount and leaves the recorded total supply alone |
| Contract.Pause | src/main.rs:77-92 | Fails with Unauthorized exactly when the caller is not the owner. From the owner it sets paused to true and touches no balance, allowance, owner, token info or guard |
| Contract.Unpause | src/main.rs:94-109 | Fails with Unauthorized exactly when the caller is not the owner. From the owner it sets paused to false and touches nothing else |
| Properties.PauseIdempotent | src/main.rs:84-88 | Pausing an already paused contract gives the same result as pausing once; likewise for unpausing |
| Dispatch.Execute | src/main.rs:39-46 | No operation changes the owner or the token info, and no successful call leaves the reentrancy guard raised if it was down |
| Dispatch.Run | src/main.rs:39-46 | Over any sequence of calls, with failed calls committing nothing, the owner and token info stay fixed and a lowered guard stays lowered |
| Dispatch.ExecuteSum | src/main.rs:172-323 | A successful call changes the balance sum by exactly what it mints minus what it burns |
| Dispatch.RunSum | src/main.rs:172-323 | Over any run, the final balance sum plus everything burnt equals the initial sum plus everything minted |
| Dispatch.ExecuteIgnoresPause | src/main.rs:172-288 | Every message except mint succeeds or fails, and leaves the same balances, allowances and event, whether or not the contract is paused |
| Dispatch.ReachableStates | src/main.rs:299-320 | In every state reachable after instantiate, the owner is the instantiating sender, the recorded supply is 0, and the reentrancy guard is down |
| Scenarios.SpendingFlow | src/main.rs:172-245 | Alice starts at 100 and sends 40 to bob (60/40). She approves bob for 50, and bob moves 30 of her tokens to carol. That leaves allowance 20, alice 30 and carol 30, and a further transfer_from of 1000 fails with InsufficientAllowance. The recorded supply is 0 after instantiate and still 0 after the transfer_from |
| Scenarios.PauseAndBurn | src/main.rs:269-301 | After pause, the owner's mint fails with ContractPaused. Burning a whole balance leaves 0, and burning 1 more fails with InsufficientBalance |

## Left out

- Storage plumbing: the `Singleton`/`Bucket` construction, the key prefixes and the byte encoding of keys. Balances and allowances are plain maps.
- Storage failures of `save` and `load` other than a missing balance entry. The model treats the store as infallible, so instantiate always succeeds.
- The serde/JsonSchema derives, the message and response structs, and the attribute strings. A response is reduced to an `Event` tag carrying the addresses and amount.
- `TokenMetadata` and the unused `Decimal` import. The name, symbol and decimals are constants.
- The `Env` parameter, which no operation uses, and the host's message dispatch. `Dispatch.Execute` stands in for dispatch, and the host's all-or-nothing commit is modelled by returning no state on error.
- The compile-level inconsistencies: the `owner`/flag reset in `State::new` and the `HashMap` state built by instantiate. One persisted state record replaces both.
- Contract.LoadBalances: its contract only says that no key is lost. What it stores is stated by `Properties.LoadUnlisted` and `Properties.LoadLastWins`.
