/** src/withdraw.rs: taking the base tokens out of a vault (a plain redeem of
    sent vault tokens, or the withdrawal of an unlocked lockup position) and
    the two callbacks that then deliver the redeemed value as the caller chose. */
module Withdraw {
  import opened Types
  import opened Messages

  /** RedeemType */
  datatype RedeemType = Normal | Lockup(lockupId: nat)

  /** What the zapper reads of a vault: the denom of its vault token and its
      base token, already classified as a cw20 token (the base token string
      is a valid address) or a native denom. */
  datatype VaultInfo = VaultInfo(vaultToken: string, baseToken: AssetInfo)

  // ---------------------------------------------------------------- unwrap_min_out

  /** unwrap_min_out: a single-asset floor. More than one entry, or one entry
      for a different asset, is InvalidMinOut; otherwise the floor is the
      listed amount of the requested asset, zero when nothing is listed. */
  function UnwrapMinOut(minOut: seq<Asset>, requested: AssetInfo): (r: Result<nat>)
    ensures r.Err? <==> |minOut| > 1 || (|minOut| == 1 && minOut[0].info != requested)
    ensures r.Err? ==> r.error == InvalidMinOut
    ensures r.Ok? ==> r.value == AmountOf(minOut, requested)
    ensures r.Ok? && minOut == [] ==> r.value == 0
  {
    if |minOut| > 1 || (|minOut| == 1 && minOut[0].info != requested) then Err(InvalidMinOut)
    else if |minOut| == 1 then Ok(minOut[0].amount)
    else Ok(0)
  }

  // ---------------------------------------------------------------- withdraw

  /** withdraw. A Normal redeem needs exactly one attached coin, of the vault
      token, and redeems exactly its amount; a Lockup withdrawal asks the
      vault for the unlocked position and needs no funds. The vault call
      comes first, then the self-addressed AfterRedeem callback for the
      recipient, who defaults to the sender. */
  function Withdraw(contractAddr: Addr, info: MessageInfo, vaultAddress: Addr, vault: VaultInfo,
                    recipient: Option<string>, receiveChoice: ReceiveChoice, minOut: seq<Asset>,
                    withdrawType: RedeemType): (r: Result<Response>)
    ensures r.Err? <==> withdrawType.Normal? && (|info.funds| != 1 || info.funds[0].denom != vault.vaultToken)
    ensures r.Err? ==> r.error == InvalidVaultToken
    ensures r.Ok? ==> |r.value.messages| == 2 && r.value.attributes == [] && r.value.events == []
    ensures r.Ok? && withdrawType.Normal? ==>
      r.value.messages[0] == Plain(VaultRedeem(vaultAddress, info.funds[0].amount, None))
    ensures r.Ok? && withdrawType.Lockup? ==>
      r.value.messages[0] == Plain(WasmExecute(vaultAddress, VaultWithdrawUnlocked(withdrawType.lockupId, None), []))
    ensures r.Ok? ==>
      r.value.messages[1].replyOn == Never &&
      SelfCallback(r.value.messages[1].msg, contractAddr)
        == Some(AfterRedeem(receiveChoice, vault.baseToken, RecipientOr(recipient, info.sender), minOut))
  {
    var rcpt := RecipientOr(recipient, info.sender);
    var withdrawMsg :- match withdrawType
      case Normal =>
        if |info.funds| != 1 || info.funds[0].denom != vault.vaultToken then Err(InvalidVaultToken)
        else Ok(VaultRedeem(vaultAddress, info.funds[0].amount, None))
      case Lockup(id) => Ok(WasmExecute(vaultAddress, VaultWithdrawUnlocked(id, None), []));
    var callback := IntoCosmosMsg(AfterRedeem(receiveChoice, vault.baseToken, rcpt, minOut), contractAddr);
    Ok(AddMessages(AddMessages(EmptyResponse, [withdrawMsg]), [callback]))
  }

  // ---------------------------------------------------------------- callback_after_redeem

  /** The receive choices that callback_after_redeem answers with the base token itself. */
  predicate WantsBaseToken(receiveChoice: ReceiveChoice, baseToken: AssetInfo) {
    receiveChoice.BaseToken? || receiveChoice == SwapTo(baseToken)
  }

  /** callback_after_redeem, given the contract's observed balance of the
      base token and the pool classification of the base token (`pool`,
      `poolAssets`). There is no check on who calls it. */
  function CallbackAfterRedeem(contractAddr: Addr, receiveChoice: ReceiveChoice, vaultBaseToken: AssetInfo,
                               recipient: Addr, minOut: seq<Asset>, baseBalance: nat,
                               pool: Option<Pool>, poolAssets: seq<AssetInfo>): (r: Result<Response>)
    // base token wanted: one transfer of the whole observed balance
    ensures WantsBaseToken(receiveChoice, vaultBaseToken) ==>
      r.Ok? && r.value.messages == PlainAll([Transfer(Asset(vaultBaseToken, baseBalance), recipient)])
    // Underlying of a base token that is no LP token
    ensures receiveChoice.Underlying? && pool.None? ==> r == Err(UnsupportedWithdrawal)
    // LP base token: withdraw the whole balance of liquidity, then call back AfterWithdrawLiq
    ensures !WantsBaseToken(receiveChoice, vaultBaseToken) && pool.Some? ==>
      r.Ok? && r.value.messages == PlainAll([
        PoolWithdrawLiquidity(pool.value, Asset(vaultBaseToken, baseBalance), []),
        IntoCosmosMsg(AfterWithdrawLiq(poolAssets, receiveChoice, recipient, minOut), contractAddr)])
    // another asset, no LP token: one liquidation of the whole balance with the single floor
    ensures receiveChoice.SwapTo? && receiveChoice.asset != vaultBaseToken && pool.None? ==>
      (r.Ok? <==> UnwrapMinOut(minOut, receiveChoice.asset).Ok?) &&
      (r.Err? ==> r.error == InvalidMinOut) &&
      (r.Ok? ==> r.value.messages == PlainAll([
         BasketLiquidate([Asset(vaultBaseToken, baseBalance)], receiveChoice.asset,
                         Some(AmountOf(minOut, receiveChoice.asset)), Some(recipient))]))
  {
    var baseToken := Asset(vaultBaseToken, baseBalance);
    match receiveChoice
    case SwapTo(requested) =>
      if requested == vaultBaseToken then
        Ok(AddMessages(EmptyResponse, [Transfer(baseToken, recipient)]))
      else if pool.Some? then
        var withdrawLiq := CollaboratorResponse(PoolWithdrawLiquidity(pool.value, baseToken, []));
        Ok(AddMessages(withdrawLiq,
          [IntoCosmosMsg(AfterWithdrawLiq(poolAssets, receiveChoice, recipient, minOut), contractAddr)]))
      else
        var floor :- UnwrapMinOut(minOut, requested);
        Ok(AddMessages(EmptyResponse, [BasketLiquidate([baseToken], requested, Some(floor), Some(recipient))]))
    case BaseToken =>
      Ok(AddMessages(EmptyResponse, [Transfer(baseToken, recipient)]))
    case Underlying =>
      if pool.Some? then
        var withdrawLiq := CollaboratorResponse(PoolWithdrawLiquidity(pool.value, baseToken, []));
        Ok(AddMessages(withdrawLiq,
          [IntoCosmosMsg(AfterWithdrawLiq(poolAssets, receiveChoice, recipient, minOut), contractAddr)]))
      else
        Err(UnsupportedWithdrawal)
  }

  // ---------------------------------------------------------------- callback_after_withdraw_liq

  /** AssetList::query_asset_info_balances: each asset with the contract's balance of it. */
  function AssetBalances(assets: seq<AssetInfo>, balanceOf: AssetInfo -> nat): (r: seq<Asset>)
    ensures |r| == |assets|
    ensures forall i :: 0 <= i < |r| ==> r[i] == Asset(assets[i], balanceOf(assets[i]))
  {
    seq(|assets|, i requires 0 <= i < |assets| => Asset(assets[i], balanceOf(assets[i])))
  }

  /** AssetList::transfer_msgs: one transfer per entry, in order. */
  function TransferAll(list: seq<Asset>, recipient: Addr): (r: seq<CosmosMsg>)
    ensures |r| == |list|
    ensures forall i :: 0 <= i < |list| ==> r[i] == Transfer(list[i], recipient)
  {
    seq(|list|, i requires 0 <= i < |list| => Transfer(list[i], recipient))
  }

  /** The entries of a list for any asset but `x`, in order. */
  function Excluding(list: seq<Asset>, x: AssetInfo): (r: seq<Asset>)
    ensures forall i :: 0 <= i < |r| ==> r[i] in list && r[i].info != x
    ensures forall i :: 0 <= i < |list| && list[i].info != x ==> list[i] in r
  {
    Filter(list, (a: Asset) => a.info != x)
  }

  /** A floor of `floors` the observed balances do not meet, absent assets counting as zero. */
  predicate Unmet(balances: seq<Asset>, floors: seq<Asset>, k: int) {
    0 <= k < |floors| && AmountOf(balances, floors[k].info) < floors[k].amount
  }

  const PANIC_BASE_TOKEN := "Should not be possible to receive base token from callback_after_withdraw_liq"

  /** callback_after_withdraw_liq, given the contract's balances after the
      liquidity withdrawal (`balanceOf`). There is no check on who calls it.
      SwapTo liquidates every withdrawn asset but the requested one, with the
      floor lowered by what is already held of the requested asset, and then
      transfers that held amount if it is positive. Underlying fails on the
      first floor its balance does not meet and otherwise transfers every
      balance. */
  method CallbackAfterWithdrawLiq(assets: seq<AssetInfo>, receiveChoice: ReceiveChoice, recipient: Addr,
                                  minOut: seq<Asset>, balanceOf: AssetInfo -> nat)
    returns (r: Result<Response>)
    ensures receiveChoice.BaseToken? ==> r == Err(Panic(PANIC_BASE_TOKEN))
    ensures receiveChoice.SwapTo? ==>
      var x := receiveChoice.asset;
      var balances := AssetBalances(assets, balanceOf);
      var held := AmountOf(balances, x);
      && (r.Err? <==> UnwrapMinOut(minOut, x).Err?)
      && (r.Err? ==> r.error == InvalidMinOut)
      && (r.Ok? ==> Msgs(r.value.messages)
                    == [BasketLiquidate(Excluding(balances, x), x, Some(SaturatingSub(AmountOf(minOut, x), held)),
                                        Some(recipient))]
                       + (if held > 0 then [Transfer(Asset(x, held), recipient)] else []))
    ensures receiveChoice.Underlying? ==>
      (r.Err? <==> exists k :: Unmet(AssetBalances(assets, balanceOf), minOut, k))
    ensures receiveChoice.Underlying? && r.Err? ==>
      var balances := AssetBalances(assets, balanceOf);
      exists k :: Unmet(balances, minOut, k) && (forall j :: 0 <= j < k ==> !Unmet(balances, minOut, j)) &&
                  r.error == MinOutNotMet(minOut[k].amount, AmountOf(balances, minOut[k].info))
    ensures receiveChoice.Underlying? && r.Ok? ==>
      Msgs(r.value.messages) == TransferAll(AssetBalances(assets, balanceOf), recipient)
  {
    var balances := AssetBalances(assets, balanceOf);
    match receiveChoice {
      case SwapTo(requested) =>
        var unwrapped := UnwrapMinOut(minOut, requested);
        if unwrapped.Err? {
          r := Err(unwrapped.error);
          return;
        }
        var held := AmountOf(balances, requested);
        var floor := SaturatingSub(unwrapped.value, held);
        var msgs := [BasketLiquidate(Excluding(balances, requested), requested, Some(floor), Some(recipient))];
        if held > 0 {
          msgs := msgs + [Transfer(Asset(requested, held), recipient)];
        }
        r := Ok(AddMessages(EmptyResponse, msgs));
        AddMessagesMsgs(EmptyResponse, msgs);
      case Underlying =>
        var i := 0;
        while i < |minOut|
          invariant 0 <= i <= |minOut|
          invariant forall j :: 0 <= j < i ==> !Unmet(balances, minOut, j)
        {
          var minAsset := minOut[i];
          if AmountOf(balances, minAsset.info) < minAsset.amount {
            assert Unmet(balances, minOut, i);
            r := Err(MinOutNotMet(minAsset.amount, AmountOf(balances, minAsset.info)));
            return;
          }
          i := i + 1;
        }
        var transfers := TransferAll(balances, recipient);
        r := Ok(AddMessages(EmptyResponse, transfers));
        AddMessagesMsgs(EmptyResponse, transfers);
      case BaseToken =>
        r := Err(Panic(PANIC_BASE_TOKEN));
    }
  }
}
