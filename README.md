# vault-zapper, modelled in Dafny

vault-zapper is a CosmWasm contract that lets a user enter or leave a vault
holding any assets. It has four parts:

- **Deposit.** It swaps the sent funds through a DEX router. It provides
  liquidity when the vault's base token is an LP token, then deposits into
  the vault.
- **Redeem.** It redeems vault tokens, or withdraws an unlocked lockup
  position. The value comes back as the base token, as the pool's underlying
  assets, or swapped into one asset.
- **Zap out.** It takes base tokens sent with the call and swaps them to one
  asset.
- **Lockup tracking.** It records which lockup ids belong to which user, and
  answers queries about depositable assets, receive choices and unlocking
  positions.

Handlers are modelled as functions or methods from inputs to a `Result` of a
CosmWasm `Response`. A `Response` is a list of sub-messages with attributes,
events and data.

Several things become parameters:

- Queries the contract makes: bank balances (`balanceOf`), the vault's info,
  the pool classification (`pool: Option<Pool>`), pool liquidity, liquidity
  simulations, and the router's lists of supported assets.
- The contract's own address (`contractAddr`).

Messages built by collaborators are `CosmosMsg` constructors that keep the
arguments they were built from. These are the router's `basket_liquidate_msgs`,
the pool's provide and withdraw liquidity, `receive_asset(s)`, and
`VaultContract::redeem`. So contracts can say exactly what was asked of each
collaborator.

`CallbackMsg::into_cosmos_msg` is a self-addressed, fund-less wasm execute. A
Rust panic is `ContractError.Panic`. `Uint128` is a `nat`, and the model checks
explicitly that it stays below 2^128 where the source uses `checked_add` or
`checked_sub`.

Modules: `Types` (assets, errors, `Result`, list helpers), `Messages` (`msg.rs`
and the CosmWasm response shapes), `Helpers` (`helpers.rs`), `Withdraw`
(`withdraw.rs`), `Deposit` (`deposit.rs`), `ZapOut` (`zap_out.rs`), `Lockup`
(`lockup.rs` with the `reply` entry point of `contract.rs`, as the class
`Zapper` over the lockup ledger), and `Query` (`query.rs`).

Where the source loops, the model uses a method with a loop, proved against a
specification:

- `TokenBalances::new`, `update_balances`, `merge_responses` and the
  receive-choices intersection are proved against recursive specification
  functions (`DeductAllSent`, `CreditAllObserved`, `Flatten`,
  `RunningIntersection`);
- the minimum-out check of `callback_after_withdraw_liq` is proved against
  quantified statements: the first unmet floor, or no floor unmet;
- the range over a user's vaults repeatedly takes the least remaining key,
  and is proved against quantified predicates (ascending, none skipped, each
  vault answered).

The lockup storage is state that the entry points change. It is the class
`Lockup.Zapper`, whose methods are proved against pure step functions
(`UnlockStep`, `ReplyStep`, `WithdrawUnlockedStep`). The unlock, reply and
withdraw lifecycle is then proved about those step functions. As written,
`reply` only appends to a list that already exists, and no handler ever
creates one. So from the empty ledger that `instantiate` leaves, no unlock is
ever recorded (see "## Findings"). The once-only withdrawal is proved both for
an owner who already has a list and, with the corrected reply, from the empty
ledger.

The storage key of the lockup ledger differs between files:

- `lockup.rs`, `contract.rs` (`reply`) and `withdraw.rs` load and save it under
  the owner alone. That is modelled as `map<Addr, seq<nat>>`.
- `state.rs` and `query.rs` key it by (owner, vault). That is modelled as
  `map<(Addr, Addr), seq<nat>>` in `Query`.

The code is followed in each place.

## Model

| member | source | states |
|---|---|---|
| `Messages.RecipientOr` | src/zap_out.rs:27 | the recipient is the one given, or the sender when none is given |
| `Messages.IntoCosmosMsg` | src/msg.rs:126-132 | a callback becomes a message that reads back, by `SelfCallback`, as exactly that callback addressed to the contract itself with no funds |
| `Messages.SelfCallbackIsIntoCosmosMsg` | src/msg.rs:126-132 | every message read as a self-callback is the `into_cosmos_msg` of that callback, so the encoding is a bijection onto self-callbacks |
| `Helpers.NewTokenBalances` | src/helpers.rs:60-75 | the caller is credited with exactly the funds sent. The contract's own balance of each sent asset is its queried balance minus the amount sent. With distinct assets the call succeeds iff every sent amount is at most the queried balance; otherwise the unsigned subtraction panics |
| `Helpers.DeductSentStep` | src/helpers.rs:65-69 | one sent asset is taken off the contract's first entry for it. The step panics exactly when that entry exists and holds less than the amount sent; the listed assets never change |
| `Helpers.GetCallerBalance` | src/helpers.rs:77-82 | the amount of the first caller entry for the asset, and zero when the caller has none |
| `Helpers.UpdateBalances` | src/helpers.rs:86-112 | the contract balances are unchanged and the caller's assets are the same list. With distinct tracked assets: it fails with an overflow iff some re-queried balance is below the caller's recorded amount; on success every tracked asset the caller holds is now credited with its re-queried balance, and untracked assets keep their amounts |
| `Helpers.CreditObservedStep` | src/helpers.rs:94-108 | one re-queried balance fails with an overflow exactly when it is below the caller's recorded amount; otherwise the caller's listed assets are unchanged |
| `Helpers.CreditObservedEffect` | src/helpers.rs:94-108 | a re-queried balance at or above the recorded one succeeds. It sets the caller's amount of that asset to the re-queried balance when the caller lists the asset, and leaves every other asset's amount alone |
| `Helpers.CreditRest` | src/helpers.rs:94-109 | with distinct tracked assets, crediting the remaining re-queried balances fails exactly when some tracked balance is below the caller's starting amount; otherwise every tracked asset ends up credited |
| `Helpers.UpdatedBalancesSpec` | src/helpers.rs:86-112 | with distinct tracked assets, update_balances fails iff some re-queried balance is below the caller's recorded amount. On success every tracked asset the caller lists holds its re-queried balance, and untracked assets keep their amounts |
| `Helpers.MergeResponses` | src/helpers.rs:32-47 | the merged response holds every response's messages (as plain sub-messages), attributes and events in order, and no data |
| `Helpers.MergeTwoMessages` | src/helpers.rs:32-47 | merging two responses yields the first one's messages followed by the second one's, and likewise for their attributes and their events |
| `Withdraw.UnwrapMinOut` | src/withdraw.rs:289-303 | fails with InvalidMinOut iff more than one minimum is given or the one given is for another asset; otherwise the minimum for the requested asset, zero when none is given |
| `Withdraw.Withdraw` | src/withdraw.rs:81-134 | used both by `execute_redeem` (src/withdraw.rs:24-43, `Normal`) and by `execute_withdraw_unlocked` (`Lockup`). Fails with InvalidVaultToken iff a normal redeem is not sent exactly one coin of the vault token. Otherwise it sends two messages: the vault redeem of the sent amount (or the lockup's withdraw-unlocked), then the self-callback `AfterRedeem` with the receive choice, base token, recipient (or sender) and minimums |
| `Withdraw.CallbackAfterRedeem` | src/withdraw.rs:136-211 | when the base token is wanted, the whole base balance is transferred to the recipient. Underlying with no pool is UnsupportedWithdrawal. For an LP base token it sends the withdraw of the whole balance and then the `AfterWithdrawLiq` callback. For a SwapTo of another asset when the base token is no LP token, it sends one basket liquidation of the balance to that asset for the recipient, with the unwrapped minimum as floor. It fails with InvalidMinOut iff the minimum is invalid |
| `Withdraw.Excluding` | src/zap_out.rs:59-63 | keeps exactly the entries not for the excluded asset |
| `Withdraw.CallbackAfterWithdrawLiq` | src/withdraw.rs:213-286 | BaseToken panics. SwapTo fails iff the minimum is invalid; otherwise it liquidates every other pool asset towards the target, with the floor reduced by what is already held (saturating), and transfers held target if there is any. Underlying fails iff some held balance is below its minimum, reporting the first such one; otherwise it transfers every pool asset's balance |
| `Deposit.Targets` | src/deposit.rs:65-78 | the pool's assets for an LP base token, else the base token alone |
| `Deposit.LiquidationSet` | src/deposit.rs:86-95 | exactly the sent native coins that are not a target |
| `Deposit.ExecuteDeposit` | src/deposit.rs:19-131 | sending exactly the base token deposits it directly with one message. Otherwise it fails iff the balances cannot be set up or there is no target. The messages are: receive the funds, a basket liquidation of the non-target coins towards the first target when there are any, then exactly one self-callback (`ProvideLiquidity` or `Deposit`), which comes last |
| `Deposit.CallbackComesLast` | src/deposit.rs:97-130 | in the messages execute_deposit sends (receive, liquidations, callback), the callback is last and no other message is a self-callback |
| `Deposit.ProvideAssets` | src/deposit.rs:153-165 | every pool asset the caller holds a positive amount of is provided with that whole amount, and nothing else is |
| `Deposit.ProvideAssetsFromPool` | src/deposit.rs:153-165 | every asset provided is one of the pool's |
| `Deposit.CallbackProvideLiquidity` | src/deposit.rs:133-204 | a caller other than the contract is Unauthorized. A failed balance update is passed on. The deposit amount (the caller's LP balance plus the simulated LP received) overflows iff it reaches 2^128. Otherwise the messages are the liquidity provision with the slippage-adjusted minimum, then the vault deposit of that amount for the recipient |
| `Deposit.ProvideAndDeposit` | src/deposit.rs:155-203 | after the balance update: overflow iff the caller's LP balance plus the simulated LP amount reaches 2^128. Otherwise the messages are the provision of every credited pool asset with the slippage-adjusted minimum, then the vault deposit of that sum |
| `Deposit.CallbackDeposit` | src/deposit.rs:206-238 | a caller other than the contract is Unauthorized. A failed balance update is passed on. Otherwise the caller's updated balance of the deposit asset is deposited for the recipient; for a tracked asset the caller holds, this is its whole re-queried balance |
| `ZapOut.ExecuteZapOut` | src/zap_out.rs:18-87 | for an LP base token: the messages of `receive_asset`'s and the pool's withdraw Responses, then the liquidation of every withdrawn asset but the target towards the target for the recipient, then the transfer of the withdrawn target only when it is among them. The attributes and events are those two Responses' in order, with no data. Otherwise: `receive_asset`'s Response followed by the liquidation of the base amount, keeping its attributes, events and data. The router is never given a floor |
| `Lockup.RemoveAll` | src/withdraw.rs:64 | the id no longer occurs and the list does not grow |
| `Lockup.RemoveAllCounts` | src/withdraw.rs:64 | every other id keeps its number of occurrences and the removed one has none |
| `Lockup.RemoveSingle` | src/withdraw.rs:64 | removing an id that occurs once, with none of its copies before or after it, leaves exactly the ids before it followed by those after it |
| `Lockup.UnlockStep` | src/lockup.rs:16-56 | fails with InvalidVaultToken iff not exactly one coin of the vault token is sent. Otherwise the caller is stored as the temporary unlock caller, the ids are unchanged, and the one message is the vault's unlock of the sent amount as a sub-message replying on success with id 0 |
| `Lockup.ReplyStep` | src/contract.rs:126-159 | every error of the reply entry point: an invalid id, a failed result, no data, no temporary caller, no stored list. It succeeds iff none applies; then the new id is appended to the caller's list, other owners are unchanged and the temporary caller is cleared |
| `Lockup.WithdrawUnlockedStep` | src/withdraw.rs:55-65 | succeeds iff the sender has a stored list that holds the id: no list is a not-found error, and a list without the id is Unauthorized. On success every copy of the id is removed from the sender's list and nothing else changes |
| `Lockup.UnlockReplyWithdrawOnce` | src/lockup.rs:46-47 | for an owner who already has a stored list: after unlock, reply with id n, and withdraw-unlocked of n, no copy of n is left, every other id keeps its count, and a second withdraw of n is Unauthorized. No call ever creates such a list (see `FreshLedgerReplyFails`) |
| `Lockup.ReplyNeedsStoredList` | src/contract.rs:145 | a reply for a caller with no stored list fails |
| `Lockup.RunKeepsOwners` | src/contract.rs:145-150 | over any sequence of unlock, reply and withdraw-unlocked calls (a failed call reverted), the set of owners in the ledger never changes |
| `Lockup.FreshLedgerReplyFails` | src/contract.rs:19-31 | from the ledger instantiate leaves, after any sequence of calls the ledger is still empty, every reply fails and every withdraw-unlocked is a not-found error. So no lockup id is ever recorded |
| `Lockup.ReplyStepIntended` | src/contract.rs:126-159 | the reply with a missing list read as empty. It succeeds iff the id, result, data and temporary caller are all present. On success the id is appended to the caller's list (empty if there was none), other owners are unchanged and the temporary caller is cleared. Where the caller has a list it agrees with `ReplyStep` |
| `Lockup.IntendedUnlockReplyWithdrawOnce` | src/withdraw.rs:55-65 | with the intended reply, any owner who unlocks gets the id recorded and withdraws it once. A second withdraw is Unauthorized and every other id keeps its count |
| `Lockup.FreshLedgerUnlockWithdrawsOnce` | src/contract.rs:142-153 | start from the ledger instantiate leaves and use the intended reply: an unlock and its reply record exactly [n] for the owner. Withdrawing n leaves an empty list, and a second withdraw is Unauthorized |
| `Lockup.Zapper.constructor` | src/contract.rs:19-31 | instantiate stores no lockup ids and no pending unlock caller |
| `Lockup.Zapper.ExecuteUnlock` | src/lockup.rs:16-56 | the stored state and the response are those of `UnlockStep`, and a failure leaves the state unchanged |
| `Lockup.Zapper.Reply` | src/contract.rs:126-159 | the stored state becomes that of `ReplyStep`, the response is empty, and a failure leaves the state unchanged |
| `Lockup.Zapper.ExecuteWithdrawUnlocked` | src/withdraw.rs:45-78 | the ledger changes as `WithdrawUnlockedStep` says, and the response is that of `Withdraw` for the lockup; any failure leaves the ledger unchanged |
| `Query.QueryDepositableAssets` | src/query.rs:15-60 | an LP pool without assets is "Unsupported vault". Otherwise the answer is the deposit asset, then the target (the first pool asset or the deposit asset), then the router's offer assets for the target |
| `Query.IntersectionWithinLast` | src/query.rs:90-98 | what the loop as written ends with is always among the last pool token's ask assets |
| `Query.StepWithin` | src/query.rs:92-97 | whatever one turn of the loop keeps is among that turn's ask assets |
| `Query.IntersectionKeepsCommon` | src/query.rs:90-98 | the loop as written keeps every asset that every pool token supports |
| `Query.IntersectionRestarts` | src/query.rs:90-98 | the loop as written restarts when the running set empties: for ask lists [a], [b], [c] it ends with [c] |
| `Query.NarrowExact` | src/query.rs:90-98 | narrowing keeps an asset iff it was in the start list and in every list |
| `Query.CommonAskAssetsExact` | src/query.rs:90-98 | the intersection keeps an asset iff every pool token's ask list holds it (the intent stated on line 90) |
| `Query.SwapTargetsOfPool` | src/query.rs:73-101 | for an LP base token an asset is a SwapTo target iff every pool token supports it or it is a pool token |
| `Query.QueryReceiveChoices` | src/query.rs:62-121 | the answer is SwapTo for each target, then BaseToken, then Underlying. The targets are what the loop as written leaves, followed by the pool tokens, or the router's ask assets for a non-LP base token. When some ask asset is common to every pool token, these are exactly the intended targets of `SwapTargets` |
| `Query.RunningIsNarrow` | src/query.rs:92-97 | while the narrowed set stays non-empty, the loop as written never restarts and computes the same narrowing |
| `Query.RunningIntersectionAgrees` | src/query.rs:90-98 | when some ask asset is common to every pool token, the loop as written yields exactly the common ask assets |
| `Query.Insert` | src/query.rs:132 | insertion keeps the list ascending and adds exactly one occurrence |
| `Query.SortIds` | src/query.rs:132 | the sorted ids ascend and are a permutation of the stored ones |
| `Query.SortIdsSameIds` | src/query.rs:132 | sorting keeps exactly the stored ids |
| `Query.StartAfter` | src/query.rs:138-142 | one less than the smallest id, and None when there is no id or the smallest is 0 |
| `Query.StartAfterBelowAll` | src/query.rs:138-142 | the start bound is strictly below every stored id, so the vault's exclusive range skips none of them; None means there is no id or one of them is 0 |
| `Query.PositionsForVault` | src/query.rs:123-149 | the result is a subsequence of the vault's answer, in the vault's order. It holds every answer entry whose id the user has stored, and only entries with stored ids. A user with no list for the vault gets none |
| `Query.LexLessIrreflexive` | src/query.rs:166 | the order of storage keys is irreflexive |
| `Query.LexLessTransitive` | src/query.rs:166 | the order of storage keys is transitive |
| `Query.LexLessTotal` | src/query.rs:166 | any two different keys are ordered |
| `Query.LeastExists` | src/query.rs:166 | every non-empty set of keys has a least element, so the ascending range is well defined |
| `Query.ListLeast` | src/query.rs:164-168 | listing the least remaining vault keeps the listing ascending, ahead of everything remaining, and splits the candidates exactly |
| `Query.QueryAllUserUnlockingPositions` | src/query.rs:151-198 | at most `limit` (10 by default) entries. Each entry is a vault of the user after the start vault. The vaults strictly ascend. A vault left out means the limit was reached and it comes after all listed ones. Each entry holds exactly that vault's per-vault positions |

## Findings

| source | as written | input that shows it | evidently intended | confidence | as-written member | corrected member |
|---|---|---|---|---|---|---|
| src/query.rs:90-98 | an empty running set is replaced by the next pool token's ask assets, so the intersection restarts once it empties | three pool tokens with ask lists [a], [b], [c] for three different assets: the loop ends with [c], which neither of the first two tokens supports | keep only ask assets supported by every pool token, as the comment on line 90 says | medium, not executed | `Query.IntersectionRestarts` | `Query.CommonAskAssetsExact` |
| src/contract.rs:145 | `reply` loads the caller's LOCKUP_IDS entry and fails when it is missing. No handler and not instantiate ever creates an entry | a fresh deployment: unlock, then the vault's reply with id n. The reply fails with a not-found error, which aborts the unlock, so every later withdraw-unlocked fails too | a caller without a list starts from the empty list (`may_load` with a default), so the unlock is recorded and can be withdrawn once | medium, not executed | `Lockup.FreshLedgerReplyFails` | `Lockup.FreshLedgerUnlockWithdrawsOnce` |

The corrected intersection is `CommonAskAssets`. It takes the first pool
token's list and narrows it by every other token's list. `SwapTargets` and
`SwapTargetsOfPool` state the intended targets with it.
`Query.QueryReceiveChoices` follows the loop as written
(`RunningIntersection`). `RunningIntersectionAgrees` shows the two coincide
whenever some ask asset is common to all pool tokens.

The corrected reply is `ReplyStepIntended`. `IntendedUnlockReplyWithdrawOnce`
and `FreshLedgerUnlockWithdrawsOnce` prove the once-only withdrawal with it.
The class `Lockup.Zapper` follows the code as written (`ReplyStep`).

## Left out

- The `execute` and `query` entry points are not modelled. Their dispatch in
  `contract.rs` uses message variants, fields and handlers that `msg.rs` and
  `withdraw.rs` do not define. Of `instantiate`, only its effect on the
  lockup storage is modelled (the `Zapper` constructor): it stores nothing
  there. The router address it saves is not modelled. The handlers are modelled
  directly, at the arguments `msg.rs` gives them. `EnforceMinOut` is not
  modelled either.
- Serialisation (`to_binary`, `from_binary`) is not modelled. A reply's data
  is already the decoded id, and a sub-message result's error is already its
  string.
- Errors raised by collaborators are not modelled: queries, the router, the
  pool and `addr_validate`. Only the contract's own error paths are modelled.
  `receive_assets` validation of funds against `info.funds` belongs to a
  collaborator and is an opaque message.
- Responses built by collaborators (`receive_assets` in `execute_deposit`,
  the pool's provide and withdraw liquidity in the callbacks) are modelled
  as one opaque message with no attributes, events or data. The contracts of
  those handlers therefore speak only of messages. `ZapOut.ExecuteZapOut`
  takes its two collaborator Responses as parameters instead.
- Host rollback of state on a failed transaction is not modelled. The
  `Zapper` methods instead leave the ledger unchanged on failure.
- `Deposit.CallbackProvideLiquidity`: the slippage product
  `amount * (1 - tolerance)` is Decimal arithmetic. It is a parameter
  (`applySlippage`), so the model states only that the result is passed on
  as the minimum.
- `AssetList` normalisation is not modelled. The list constructors
  (`into()`, `add`) are taken to keep every entry as given, and duplicate
  assets are merged nowhere. Contracts that need distinct assets say so
  (`Distinct`).
- Ids are unbounded `nat`: the `u64` width of lockup ids and the `u32`
  width of `limit` are not modelled. `StartAfter` subtracts only from a
  positive id, as the source does.
- Storage iteration is modelled as repeatedly taking the least remaining key
  under a lexicographic order on characters. The byte encoding of composite
  keys is not modelled.
- The mismatch between the owner key and the (owner, vault) key of
  `LOCKUP_IDS` is modelled as two separate maps (see above). The model does
  not relate them.
- Neither callback after a redeem checks its caller, as in the source. The
  balances they act on are given as parameters, so whose holdings these
  are is outside the model.
