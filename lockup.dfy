/** The lockup-id ledger: execute_unlock (src/lockup.rs), the reply entry
    point (src/contract.rs) and execute_withdraw_unlocked (src/withdraw.rs).
    An unlock request remembers its caller in a one-slot temporary item; the
    vault's reply carries the new lockup id, which is appended to that
    caller's stored list; withdrawing an unlocked position consumes an id
    from the caller's list. The ledger is keyed by owner alone, as these
    three handlers key it. */
module Lockup {
  import opened Types
  import opened Messages
  import opened Withdraw

  /** UNLOCK_REPLY_ID */
  const UNLOCK_REPLY_ID: nat := 0

  /** The result of a submessage as the reply entry point receives it. The
      data of a successful one is the lockup id it encodes, if it has data. */
  datatype SubMsgResult = ReplyOk(data: Option<nat>) | ReplyErr(message: string)

  /** Reply */
  datatype ReplyMsg = ReplyMsg(id: nat, result: SubMsgResult)

  /** The stored ledger: LOCKUP_IDS by owner, and TEMP_UNLOCK_CALLER. */
  datatype Ledger = Ledger(lockupIds: map<Addr, seq<nat>>, tempUnlockCaller: Option<Addr>)

  /** The kinds Item::load and Map::load report for a missing entry. */
  const NOT_FOUND_CALLER := "cosmwasm_std::addresses::Addr"
  const NOT_FOUND_IDS := "alloc::vec::Vec<u64>"

  // ---------------------------------------------------------------- ids

  /** `retain(|x| *x != id)`: every occurrence of `id` dropped, the rest in order. */
  function RemoveAll(ids: seq<nat>, id: nat): (r: seq<nat>)
    ensures |r| <= |ids|
    ensures id !in r
  {
    if ids == [] then []
    else if ids[0] == id then RemoveAll(ids[1..], id)
    else [ids[0]] + RemoveAll(ids[1..], id)
  }

  /** RemoveAll keeps every other id exactly as often as it occurred. */
  lemma {:induction false} RemoveAllCounts(ids: seq<nat>, id: nat, x: nat)
    ensures multiset(RemoveAll(ids, id))[x] == if x == id then 0 else multiset(ids)[x]
  {
    if ids != [] {
      RemoveAllCounts(ids[1..], id, x);
      assert ids == [ids[0]] + ids[1..];
    }
  }

  /** RemoveAll distributes over concatenation, so the kept ids stay in order. */
  lemma {:induction false} RemoveAllAppend(a: seq<nat>, b: seq<nat>, id: nat)
    ensures RemoveAll(a + b, id) == RemoveAll(a, id) + RemoveAll(b, id)
  {
    if a == [] {
      assert a + b == b;
    } else {
      assert (a + b)[1..] == a[1..] + b;
      RemoveAllAppend(a[1..], b, id);
    }
  }

  /** A list without `id` is left as it is. */
  lemma {:induction false} RemoveAllAbsent(ids: seq<nat>, id: nat)
    requires id !in ids
    ensures RemoveAll(ids, id) == ids
  {
    if ids != [] {
      RemoveAllAbsent(ids[1..], id);
    }
  }

  /** Removing an id that occurs once takes out exactly that occurrence. */
  lemma {:induction false} RemoveSingle(before: seq<nat>, id: nat, after: seq<nat>)
    requires id !in before && id !in after
    ensures RemoveAll(before + [id] + after, id) == before + after
  {
    RemoveAllAppend(before + [id], after, id);
    RemoveAllAppend(before, [id], id);
    RemoveAllAbsent(before, id);
    RemoveAllAbsent(after, id);
    assert RemoveAll([id], id) == [] by {
      assert [id][1..] == [];
    }
  }

  // ---------------------------------------------------------------- the three transitions

  /** execute_unlock: exactly one attached coin, of the vault token, or
      InvalidVaultToken with nothing written. On success the temporary slot
      holds the sender, whatever it held before, and the response is one
      submessage, replied to on success only, that forwards the coin and asks
      the vault to unlock exactly its amount. */
  function UnlockStep(st: Ledger, info: MessageInfo, vaultAddress: Addr, vaultTokenDenom: string)
    : (r: Result<(Ledger, Response)>)
    ensures r.Err? <==> |info.funds| != 1 || info.funds[0].denom != vaultTokenDenom
    ensures r.Err? ==> r.error == InvalidVaultToken
    ensures r.Ok? ==> r.value.0.lockupIds == st.lockupIds && r.value.0.tempUnlockCaller == Some(info.sender)
    ensures r.Ok? ==>
      r.value.1.messages == [SubMsg(UNLOCK_REPLY_ID, WasmExecute(vaultAddress, VaultUnlock(info.funds[0].amount),
                                                                 [info.funds[0]]), Success)]
  {
    if |info.funds| != 1 || info.funds[0].denom != vaultTokenDenom then Err(InvalidVaultToken)
    else
      var vaultToken := info.funds[0];
      var unlockMsg := WasmExecute(vaultAddress, VaultUnlock(vaultToken.amount), [vaultToken]);
      Ok((st.(tempUnlockCaller := Some(info.sender)),
          EmptyResponse.(messages := [SubMsg(UNLOCK_REPLY_ID, unlockMsg, Success)])))
  }

  /** reply: only UNLOCK_REPLY_ID is known; a failed submessage or one
      without data is a Generic error; a missing temporary caller, or a
      caller without a stored list, is a not-found error (both are loaded,
      not may-loaded). On success the id is appended at the end of the caller's
      list, every other list is untouched and the temporary slot is cleared. */
  function ReplyStep(st: Ledger, msg: ReplyMsg): (r: Result<Ledger>)
    ensures msg.id != UNLOCK_REPLY_ID ==> r == Err(Generic("Invalid reply id"))
    ensures msg.id == UNLOCK_REPLY_ID && msg.result.ReplyErr? ==> r == Err(Generic(msg.result.message))
    ensures msg.id == UNLOCK_REPLY_ID && msg.result == ReplyOk(None) ==> r == Err(Generic("No data in reply"))
    ensures msg.id == UNLOCK_REPLY_ID && msg.result.ReplyOk? && msg.result.data.Some? ==>
      (st.tempUnlockCaller.None? ==> r == Err(Std(NotFound(NOT_FOUND_CALLER)))) &&
      (st.tempUnlockCaller.Some? && st.tempUnlockCaller.value !in st.lockupIds ==> r == Err(Std(NotFound(NOT_FOUND_IDS))))
    ensures r.Ok? <==> msg.id == UNLOCK_REPLY_ID && msg.result.ReplyOk? && msg.result.data.Some? &&
                       st.tempUnlockCaller.Some? && st.tempUnlockCaller.value in st.lockupIds
    ensures r.Ok? ==>
      var caller := st.tempUnlockCaller.value;
      && r.value.tempUnlockCaller.None?
      && r.value.lockupIds.Keys == st.lockupIds.Keys
      && r.value.lockupIds[caller] == st.lockupIds[caller] + [msg.result.data.value]
      && forall owner :: owner in st.lockupIds && owner != caller ==> r.value.lockupIds[owner] == st.lockupIds[owner]
  {
    if msg.id != UNLOCK_REPLY_ID then Err(Generic("Invalid reply id"))
    else match msg.result
      case ReplyErr(message) => Err(Generic(message))
      case ReplyOk(data) =>
        if data.None? then Err(Generic("No data in reply"))
        else match st.tempUnlockCaller
          case None => Err(Std(NotFound(NOT_FOUND_CALLER)))
          case Some(caller) =>
            if caller !in st.lockupIds then Err(Std(NotFound(NOT_FOUND_IDS)))
            else Ok(Ledger(st.lockupIds[caller := st.lockupIds[caller] + [data.value]], None))
  }

  /** The ledger part of execute_withdraw_unlocked: the owner must have a
      stored list holding the id, else Unauthorized; the id is then removed
      from that list and nothing else changes. */
  function WithdrawUnlockedStep(st: Ledger, owner: Addr, lockupId: nat): (r: Result<Ledger>)
    ensures r.Ok? <==> owner in st.lockupIds && lockupId in st.lockupIds[owner]
    ensures owner !in st.lockupIds ==> r == Err(Std(NotFound(NOT_FOUND_IDS)))
    ensures owner in st.lockupIds && lockupId !in st.lockupIds[owner] ==> r == Err(Unauthorized)
    ensures r.Ok? ==>
      && r.value.tempUnlockCaller == st.tempUnlockCaller
      && r.value.lockupIds.Keys == st.lockupIds.Keys
      && r.value.lockupIds[owner] == RemoveAll(st.lockupIds[owner], lockupId)
      && forall o :: o in st.lockupIds && o != owner ==> r.value.lockupIds[o] == st.lockupIds[o]
  {
    if owner !in st.lockupIds then Err(Std(NotFound(NOT_FOUND_IDS)))
    else if lockupId !in st.lockupIds[owner] then Err(Unauthorized)
    else Ok(st.(lockupIds := st.lockupIds[owner := RemoveAll(st.lockupIds[owner], lockupId)]))
  }

  /** The lifecycle of one lockup id: the owner (who already has a stored
      list) unlocks, the vault replies with the id, and the owner withdraws
      it once; a second withdrawal of the same id is Unauthorized, and every
      other id of the owner is kept, as often as it was stored. */
  lemma {:induction false} UnlockReplyWithdrawOnce(st: Ledger, info: MessageInfo, vaultAddress: Addr, vaultTokenDenom: string,
                                lockupId: nat, x: nat)
    requires UnlockStep(st, info, vaultAddress, vaultTokenDenom).Ok?
    requires info.sender in st.lockupIds
    requires x != lockupId
    ensures
      var s1 := UnlockStep(st, info, vaultAddress, vaultTokenDenom).value.0;
      var s2 := ReplyStep(s1, ReplyMsg(UNLOCK_REPLY_ID, ReplyOk(Some(lockupId))));
      && s2.Ok? && lockupId in s2.value.lockupIds[info.sender]
      && var s3 := WithdrawUnlockedStep(s2.value, info.sender, lockupId);
         && s3.Ok?
         && WithdrawUnlockedStep(s3.value, info.sender, lockupId) == Err(Unauthorized)
         && multiset(s3.value.lockupIds[info.sender])[x] == multiset(st.lockupIds[info.sender])[x]
  {
    var s1 := UnlockStep(st, info, vaultAddress, vaultTokenDenom).value.0;
    var s2 := ReplyStep(s1, ReplyMsg(UNLOCK_REPLY_ID, ReplyOk(Some(lockupId)))).value;
    var appended: seq<nat> := st.lockupIds[info.sender] + [lockupId];
    assert s2.lockupIds[info.sender] == appended;
    RemoveAllCounts(appended, lockupId, x);
    var stored: seq<nat> := st.lockupIds[info.sender];
    assert multiset(appended)[x] == multiset(stored)[x];
  }

  /** A reply cannot record an id for a caller that has no stored list. */
  lemma {:induction false} ReplyNeedsStoredList(st: Ledger, msg: ReplyMsg)
    requires st.tempUnlockCaller.Some? && st.tempUnlockCaller.value !in st.lockupIds
    ensures ReplyStep(st, msg).Err?
  {
  }

  // ---------------------------------------------------------------- runs of the handlers

  /** One call of a handler that touches the ledger. */
  datatype LedgerCall =
    | UnlockCall(info: MessageInfo, vaultAddress: Addr, vaultTokenDenom: string)
    | ReplyCall(msg: ReplyMsg)
    | WithdrawUnlockedCall(owner: Addr, lockupId: nat)

  /** The ledger after one call: the step's ledger when it succeeds; a failed
      call is reverted and leaves the ledger as it was. */
  function Apply(st: Ledger, call: LedgerCall): Ledger {
    match call
    case UnlockCall(info, vaultAddress, vaultTokenDenom) =>
      var r := UnlockStep(st, info, vaultAddress, vaultTokenDenom);
      if r.Ok? then r.value.0 else st
    case ReplyCall(msg) =>
      var r := ReplyStep(st, msg);
      if r.Ok? then r.value else st
    case WithdrawUnlockedCall(owner, lockupId) =>
      var r := WithdrawUnlockedStep(st, owner, lockupId);
      if r.Ok? then r.value else st
  }

  /** The ledger after a sequence of calls, in order. */
  function Run(st: Ledger, calls: seq<LedgerCall>): Ledger
    decreases |calls|
  {
    if calls == [] then st else Run(Apply(st, calls[0]), calls[1..])
  }

  /** No handler adds or drops an owner of the ledger. */
  lemma {:induction false} RunKeepsOwners(st: Ledger, calls: seq<LedgerCall>)
    ensures Run(st, calls).lockupIds.Keys == st.lockupIds.Keys
    decreases |calls|
  {
    if calls != [] {
      RunKeepsOwners(Apply(st, calls[0]), calls[1..]);
    }
  }

  /** instantiate stores no lockup ids, so after any run of calls from the
      freshly instantiated ledger every reply and every withdrawal of an
      unlocked position fails: no lockup id is ever recorded. */
  lemma {:induction false} FreshLedgerReplyFails(calls: seq<LedgerCall>, msg: ReplyMsg, owner: Addr, lockupId: nat)
    ensures var st := Run(Ledger(map[], None), calls);
            && st.lockupIds == map[]
            && ReplyStep(st, msg).Err?
            && WithdrawUnlockedStep(st, owner, lockupId) == Err(Std(NotFound(NOT_FOUND_IDS)))
  {
    var st := Run(Ledger(map[], None), calls);
    RunKeepsOwners(Ledger(map[], None), calls);
    assert st.lockupIds.Keys == {};
    assert st.lockupIds == map[];
  }

  // ---------------------------------------------------------------- reply, as intended

  /** The caller's stored list, or the empty list when there is none. */
  function StoredOrEmpty(st: Ledger, owner: Addr): seq<nat> {
    if owner in st.lockupIds then st.lockupIds[owner] else []
  }

  /** reply as evidently intended: a caller without a stored list starts
      from the empty list (`may_load` … `unwrap_or_default`) instead of
      failing; every other path is as written. */
  function ReplyStepIntended(st: Ledger, msg: ReplyMsg): (r: Result<Ledger>)
    ensures r.Ok? <==> msg.id == UNLOCK_REPLY_ID && msg.result.ReplyOk? && msg.result.data.Some? &&
                       st.tempUnlockCaller.Some?
    ensures st.tempUnlockCaller.Some? && st.tempUnlockCaller.value in st.lockupIds ==> r == ReplyStep(st, msg)
    ensures r.Ok? ==>
      var caller := st.tempUnlockCaller.value;
      && r.value.tempUnlockCaller.None?
      && r.value.lockupIds.Keys == st.lockupIds.Keys + {caller}
      && r.value.lockupIds[caller] == StoredOrEmpty(st, caller) + [msg.result.data.value]
      && forall owner :: owner in st.lockupIds && owner != caller ==> r.value.lockupIds[owner] == st.lockupIds[owner]
  {
    if msg.id != UNLOCK_REPLY_ID then Err(Generic("Invalid reply id"))
    else match msg.result
      case ReplyErr(message) => Err(Generic(message))
      case ReplyOk(data) =>
        if data.None? then Err(Generic("No data in reply"))
        else match st.tempUnlockCaller
          case None => Err(Std(NotFound(NOT_FOUND_CALLER)))
          case Some(caller) => Ok(Ledger(st.lockupIds[caller := StoredOrEmpty(st, caller) + [data.value]], None))
  }

  /** With the intended reply, any owner who unlocks gets the id recorded and
      withdraws it once; a second withdrawal is Unauthorized and every other
      id keeps its multiplicity. */
  lemma {:induction false} IntendedUnlockReplyWithdrawOnce(st: Ledger, info: MessageInfo, vaultAddress: Addr,
                                                           vaultTokenDenom: string, lockupId: nat, x: nat)
    requires UnlockStep(st, info, vaultAddress, vaultTokenDenom).Ok?
    requires x != lockupId
    ensures
      var s1 := UnlockStep(st, info, vaultAddress, vaultTokenDenom).value.0;
      var s2 := ReplyStepIntended(s1, ReplyMsg(UNLOCK_REPLY_ID, ReplyOk(Some(lockupId))));
      && s2.Ok? && lockupId in s2.value.lockupIds[info.sender]
      && var s3 := WithdrawUnlockedStep(s2.value, info.sender, lockupId);
         && s3.Ok?
         && WithdrawUnlockedStep(s3.value, info.sender, lockupId) == Err(Unauthorized)
         && multiset(s3.value.lockupIds[info.sender])[x] == multiset(StoredOrEmpty(st, info.sender))[x]
  {
    var s1 := UnlockStep(st, info, vaultAddress, vaultTokenDenom).value.0;
    var s2 := ReplyStepIntended(s1, ReplyMsg(UNLOCK_REPLY_ID, ReplyOk(Some(lockupId)))).value;
    var stored: seq<nat> := StoredOrEmpty(st, info.sender);
    assert StoredOrEmpty(s1, info.sender) == stored;
    var appended: seq<nat> := stored + [lockupId];
    assert s2.lockupIds[info.sender] == appended;
    RemoveAllCounts(appended, lockupId, x);
    assert multiset(appended)[x] == multiset(stored)[x];
  }

  /** From the freshly instantiated ledger, the intended reply lets an
      unlock be recorded and withdrawn exactly once, leaving the owner an
      empty list. */
  lemma {:induction false} FreshLedgerUnlockWithdrawsOnce(info: MessageInfo, vaultAddress: Addr,
                                                          vaultTokenDenom: string, lockupId: nat)
    requires UnlockStep(Ledger(map[], None), info, vaultAddress, vaultTokenDenom).Ok?
    ensures
      var s1 := UnlockStep(Ledger(map[], None), info, vaultAddress, vaultTokenDenom).value.0;
      var s2 := ReplyStepIntended(s1, ReplyMsg(UNLOCK_REPLY_ID, ReplyOk(Some(lockupId))));
      && s2.Ok? && s2.value.lockupIds == map[info.sender := [lockupId]]
      && var s3 := WithdrawUnlockedStep(s2.value, info.sender, lockupId);
         && s3.Ok? && s3.value.lockupIds == map[info.sender := []]
         && WithdrawUnlockedStep(s3.value, info.sender, lockupId) == Err(Unauthorized)
  {
    var s1 := UnlockStep(Ledger(map[], None), info, vaultAddress, vaultTokenDenom).value.0;
    assert s1.lockupIds == map[] && s1.tempUnlockCaller == Some(info.sender);
    assert StoredOrEmpty(s1, info.sender) + [lockupId] == [lockupId];
    var s2 := ReplyStepIntended(s1, ReplyMsg(UNLOCK_REPLY_ID, ReplyOk(Some(lockupId)))).value;
    assert s2.lockupIds == map[info.sender := [lockupId]];
    assert RemoveAll([lockupId], lockupId) == [] by {
      assert [lockupId][1..] == [];
    }
  }

  // ---------------------------------------------------------------- the contract's storage

  /** The contract's lockup storage, updated in place by the handlers. */
  class Zapper {
    var lockupIds: map<Addr, seq<nat>>
    var tempUnlockCaller: Option<Addr>

    /** The stored ledger as a value. */
    function State(): Ledger
      reads this
    {
      Ledger(lockupIds, tempUnlockCaller)
    }

    /** instantiate: no lockup ids are stored and no unlock is pending. */
    constructor ()
      ensures State() == Ledger(map[], None)
    {
      lockupIds := map[];
      tempUnlockCaller := None;
    }

    /** execute_unlock, given the vault's vault-token denom. */
    method ExecuteUnlock(info: MessageInfo, vaultAddress: Addr, vaultTokenDenom: string) returns (r: Result<Response>)
      modifies this
      ensures
        var step := UnlockStep(old(State()), info, vaultAddress, vaultTokenDenom);
        && (step.Err? ==> r == Err(step.error) && State() == old(State()))
        && (step.Ok? ==> r == Ok(step.value.1) && State() == step.value.0)
    {
      if |info.funds| != 1 || info.funds[0].denom != vaultTokenDenom {
        r := Err(InvalidVaultToken);
        return;
      }
      var vaultToken := info.funds[0];
      var unlockMsg := WasmExecute(vaultAddress, VaultUnlock(vaultToken.amount), [vaultToken]);
      tempUnlockCaller := Some(info.sender);
      r := Ok(EmptyResponse.(messages := [SubMsg(UNLOCK_REPLY_ID, unlockMsg, Success)]));
    }

    /** reply: the ledger is written only when the whole reply succeeds. */
    method Reply(msg: ReplyMsg) returns (r: Result<Response>)
      modifies this
      ensures
        var step := ReplyStep(old(State()), msg);
        && (step.Err? ==> r == Err(step.error) && State() == old(State()))
        && (step.Ok? ==> r == Ok(EmptyResponse) && State() == step.value)
    {
      if msg.id != UNLOCK_REPLY_ID {
        r := Err(Generic("Invalid reply id"));
        return;
      }
      if msg.result.ReplyErr? {
        r := Err(Generic(msg.result.message));
        return;
      }
      if msg.result.data.None? {
        r := Err(Generic("No data in reply"));
        return;
      }
      var lockupId := msg.result.data.value;
      if tempUnlockCaller.None? {
        r := Err(Std(NotFound(NOT_FOUND_CALLER)));
        return;
      }
      var callerAddr := tempUnlockCaller.value;
      if callerAddr !in lockupIds {
        r := Err(Std(NotFound(NOT_FOUND_IDS)));
        return;
      }
      var lockIds := lockupIds[callerAddr];
      lockIds := lockIds + [lockupId];
      lockupIds := lockupIds[callerAddr := lockIds];
      tempUnlockCaller := None;
      r := Ok(EmptyResponse);
    }

    /** execute_withdraw_unlocked: consume the id from the sender's list,
      then withdraw the unlocked position as `withdraw` does for a Lockup
      redeem. */
    method ExecuteWithdrawUnlocked(contractAddr: Addr, info: MessageInfo, vaultAddress: Addr, vault: VaultInfo,
                                   lockupId: nat, recipient: Option<string>, receiveChoice: ReceiveChoice,
                                   minOut: seq<Asset>)
      returns (r: Result<Response>)
      modifies this
      ensures
        var step := WithdrawUnlockedStep(old(State()), info.sender, lockupId);
        && (step.Err? ==> r == Err(step.error) && State() == old(State()))
        && (step.Ok? ==> State() == step.value && r.Ok? &&
                         r == Withdraw.Withdraw(contractAddr, info, vaultAddress, vault, recipient, receiveChoice, minOut,
                                       Lockup(lockupId)))
    {
      if info.sender !in lockupIds {
        r := Err(Std(NotFound(NOT_FOUND_IDS)));
        return;
      }
      var lockIds := lockupIds[info.sender];
      if lockupId !in lockIds {
        r := Err(Unauthorized);
        return;
      }
      lockIds := RemoveAll(lockIds, lockupId);
      lockupIds := lockupIds[info.sender := lockIds];
      r := Withdraw.Withdraw(contractAddr, info, vaultAddress, vault, recipient, receiveChoice, minOut, Lockup(lockupId));
    }
  }
}
