/** src/deposit.rs: depositing arbitrary assets into a vault. The entry
    point either deposits the base token directly or liquidates the funds
    that are not already a target asset and calls itself back; the callbacks
    re-read the balances and deposit (after providing liquidity when the
    base token is an LP token). */
module Deposit {
  import opened Types
  import opened Messages
  import opened Helpers

  /** The coins a list of assets converts to: `filter_map(try_into().ok())`
      keeps the native assets, in order. */
  function NativeCoins(list: seq<Asset>): (r: seq<Coin>)
    ensures |r| <= |list|
    ensures forall i :: 0 <= i < |r| ==> exists j :: 0 <= j < |list| && ToCoin(list[j]) == Some(r[i])
  {
    if list == [] then []
    else match ToCoin(list[0])
      case Some(c) => [c] + NativeCoins(list[1..])
      case None => NativeCoins(list[1..])
  }

  /** The assets the basket liquidation aims at: the pool's assets for an LP
      base token, else the deposit asset itself. */
  function Targets(depositAsset: AssetInfo, pool: Option<Pool>, poolLiquidity: seq<Asset>): (r: seq<AssetInfo>)
    ensures pool.None? ==> r == [depositAsset]
    ensures pool.Some? ==> r == Infos(poolLiquidity)
  {
    if pool.Some? then Infos(poolLiquidity) else [depositAsset]
  }

  /** The funds that execute_deposit liquidates: the native ones whose asset
      is not a target, in the order they were sent. */
  function LiquidationSet(callerFunds: seq<Asset>, targets: seq<AssetInfo>): (r: seq<Asset>)
    ensures forall i :: 0 <= i < |r| ==> r[i] in callerFunds && r[i].info.Native? && r[i].info !in targets
    ensures forall i :: 0 <= i < |callerFunds| && callerFunds[i].info.Native? && callerFunds[i].info !in targets ==>
              callerFunds[i] in r
  {
    Filter(callerFunds, (a: Asset) => a.info.Native? && a.info !in targets)
  }

  /** The vault's standard Deposit call with `amount` of `denom` attached. */
  function VaultDepositMsg(vaultAddress: Addr, amount: nat, recipient: Addr, funds: seq<Coin>): CosmosMsg {
    WasmExecute(vaultAddress, VaultDeposit(amount, Some(recipient)), funds)
  }

  /** The one case execute_deposit forwards without liquidating: exactly one
      asset sent, and it is the vault's base token. */
  predicate IsDirectDeposit(callerFunds: seq<Asset>, baseDenom: string) {
    |callerFunds| == 1 && callerFunds[0].info == Native(baseDenom)
  }

  /** The callback execute_deposit ends with. */
  function DepositCallback(vaultAddress: Addr, recipient: Addr, pool: Option<Pool>, tb: TokenBalances,
                           slippageTolerance: Option<Decimal>, baseDenom: string): CallbackMsg
  {
    if pool.Some? then ProvideLiquidity(vaultAddress, recipient, pool.value, tb, slippageTolerance)
    else CallbackMsg.Deposit(vaultAddress, recipient, tb, Native(baseDenom))
  }

  /** In what execute_deposit sends after receiving the funds and any
      liquidation, the callback is the only self-callback, and it is last. */
  lemma {:induction false} CallbackComesLast(callerFunds: seq<Asset>, liquidations: seq<CosmosMsg>, callback: CallbackMsg, contractAddr: Addr)
    requires forall i :: 0 <= i < |liquidations| ==> liquidations[i].BasketLiquidate?
    ensures [ReceiveAssets(callerFunds)] + (liquidations + [IntoCosmosMsg(callback, contractAddr)])
            == [ReceiveAssets(callerFunds)] + liquidations + [IntoCosmosMsg(callback, contractAddr)]
    ensures var ms := [ReceiveAssets(callerFunds)] + liquidations + [IntoCosmosMsg(callback, contractAddr)];
            && |ms| >= 2 && SelfCallback(ms[|ms| - 1], contractAddr) == Some(callback)
            && forall i :: 0 <= i < |ms| - 1 ==> SelfCallback(ms[i], contractAddr).None?
  {
    var ms := [ReceiveAssets(callerFunds)] + liquidations + [IntoCosmosMsg(callback, contractAddr)];
    forall i | 0 <= i < |ms| - 1 ensures SelfCallback(ms[i], contractAddr).None? {
      if i > 0 {
        assert ms[i] == liquidations[i - 1];
      }
    }
  }

  const PANIC_NO_TARGET := "index out of bounds: the len is 0 but the index is 0"

  /** execute_deposit, given the vault's base denom (the deposit asset is
      always native), the pool classification of it, the pool's liquidity
      and the contract's balances (`balanceOf`).
      - One asset sent that is the base token: one vault deposit of exactly
        it, nothing else.
      - Otherwise the balances are recorded (a sent amount above the
        contract's balance aborts), an LP pool without assets aborts, the
        caller's native funds that are not a target are liquidated towards
        the first target only when there are any, and exactly one
        self-addressed callback comes last. */
  method ExecuteDeposit(contractAddr: Addr, info: MessageInfo, callerFunds: seq<Asset>, vaultAddress: Addr,
                        recipient: Option<string>, slippageTolerance: Option<Decimal>, baseDenom: string,
                        pool: Option<Pool>, poolLiquidity: seq<Asset>, balanceOf: AssetInfo -> nat)
    returns (r: Result<Response>)
    ensures IsDirectDeposit(callerFunds, baseDenom) ==>
      r == Ok(AddMessages(EmptyResponse, [VaultDepositMsg(vaultAddress, callerFunds[0].amount,
                                                          RecipientOr(recipient, info.sender),
                                                          [Coin(baseDenom, callerFunds[0].amount)])]))
    ensures !IsDirectDeposit(callerFunds, baseDenom) ==>
      var targets := Targets(Native(baseDenom), pool, poolLiquidity);
      var tb := InitialBalances(callerFunds, balanceOf);
      && (r.Err? <==> tb.Err? || targets == [])
      && (tb.Err? ==> r == Err(tb.error))
      && (tb.Ok? && targets == [] ==> r == Err(Panic(PANIC_NO_TARGET)))
      && (r.Ok? ==>
            var liquidate := LiquidationSet(callerFunds, targets);
            var callback := DepositCallback(vaultAddress, RecipientOr(recipient, info.sender), pool, tb.value,
                                            slippageTolerance, baseDenom);
            Msgs(r.value.messages)
              == [ReceiveAssets(callerFunds)]
                 + (if liquidate == [] then [] else [BasketLiquidate(liquidate, targets[0], None, None)])
                 + [IntoCosmosMsg(callback, contractAddr)])
    ensures r.Ok? && !IsDirectDeposit(callerFunds, baseDenom) ==>
      var ms := Msgs(r.value.messages);
      |ms| >= 2 && SelfCallback(ms[|ms| - 1], contractAddr).Some? &&
      forall i :: 0 <= i < |ms| - 1 ==> SelfCallback(ms[i], contractAddr).None?
  {
    var rcpt := RecipientOr(recipient, info.sender);
    var receiveAssetsRes := CollaboratorResponse(ReceiveAssets(callerFunds));
    var depositAssetInfo := Native(baseDenom);
    if |callerFunds| == 1 && callerFunds[0].info == depositAssetInfo {
      assert NativeCoins(callerFunds) == [Coin(baseDenom, callerFunds[0].amount)] by {
        assert callerFunds[1..] == [];
      }
      var depositMsg := VaultDepositMsg(vaultAddress, callerFunds[0].amount, rcpt, NativeCoins(callerFunds));
      r := Ok(AddMessages(EmptyResponse, [depositMsg]));
      return;
    }
    var receiveAssetInfos := Targets(depositAssetInfo, pool, poolLiquidity);
    var tokenBalances := NewTokenBalances(callerFunds, balanceOf);
    if tokenBalances.Err? {
      r := Err(tokenBalances.error);
      return;
    }
    var liquidateCoins := LiquidationSet(callerFunds, receiveAssetInfos);
    if |receiveAssetInfos| == 0 {
      r := Err(Panic(PANIC_NO_TARGET));
      return;
    }
    var receiveAssetInfo := receiveAssetInfos[0];
    var liquidations: seq<CosmosMsg> :=
      if liquidateCoins != [] then [BasketLiquidate(liquidateCoins, receiveAssetInfo, None, None)] else [];
    var callback := DepositCallback(vaultAddress, rcpt, pool, tokenBalances.value, slippageTolerance, baseDenom);
    var msgs := liquidations + [IntoCosmosMsg(callback, contractAddr)];
    CallbackComesLast(callerFunds, liquidations, callback, contractAddr);
    AddMessagesMsgs(EmptyResponse, [ReceiveAssets(callerFunds)]);
    AddMessagesMsgs(receiveAssetsRes, msgs);
    r := Ok(AddMessages(receiveAssetsRes, msgs));
  }

  // ---------------------------------------------------------------- callback_provide_liquidity

  /** The assets callback_provide_liquidity provides: each pool asset the
      caller has a positive balance of, at that whole balance, in pool order. */
  function ProvideAssets(poolLiquidity: seq<Asset>, tb: TokenBalances): (r: seq<Asset>)
    ensures |r| <= |poolLiquidity|
    ensures forall i :: 0 <= i < |r| ==> r[i].amount > 0 && r[i].amount == GetCallerBalance(tb, r[i].info)
    ensures forall j :: 0 <= j < |poolLiquidity| && GetCallerBalance(tb, poolLiquidity[j].info) > 0 ==>
              Asset(poolLiquidity[j].info, GetCallerBalance(tb, poolLiquidity[j].info)) in r
  {
    if poolLiquidity == [] then []
    else
      var balance := GetCallerBalance(tb, poolLiquidity[0].info);
      var rest := ProvideAssets(poolLiquidity[1..], tb);
      assert forall j :: 1 <= j < |poolLiquidity| ==> poolLiquidity[j] == poolLiquidity[1..][j - 1];
      if balance > 0 then [Asset(poolLiquidity[0].info, balance)] + rest else rest
  }

  /** Only pool assets are provided. */
  lemma {:induction false} ProvideAssetsFromPool(poolLiquidity: seq<Asset>, tb: TokenBalances)
    ensures forall a :: a in ProvideAssets(poolLiquidity, tb) ==> a.info in Infos(poolLiquidity)
  {
    if poolLiquidity != [] {
      ProvideAssetsFromPool(poolLiquidity[1..], tb);
      forall a | a in ProvideAssets(poolLiquidity[1..], tb)
        ensures a.info in Infos(poolLiquidity)
      {
        var k :| 0 <= k < |Infos(poolLiquidity[1..])| && Infos(poolLiquidity[1..])[k] == a.info;
        assert Infos(poolLiquidity)[k + 1] == a.info;
      }
      assert Infos(poolLiquidity)[0] == poolLiquidity[0].info;
    }
  }

  /** The minimum LP amount asked of the pool: the simulated amount, lowered
      by the slippage tolerance when one is given. */
  function MinLp(lpAmount: nat, slippageTolerance: Option<Decimal>, applySlippage: (nat, Decimal) -> nat): nat {
    if slippageTolerance.Some? then applySlippage(lpAmount, slippageTolerance.value) else lpAmount
  }

  /** The outcome of providing every pool asset the caller is credited with
      and depositing the caller's LP balance plus the simulated LP amount:
      an overflow error exactly when that sum is not a Uint128, and
      otherwise the provision followed by the vault deposit. */
  predicate ProvidedAndDeposited(r: Result<Response>, vaultAddress: Addr, recipient: Addr, pool: Pool,
                                 balances: TokenBalances, slippageTolerance: Option<Decimal>, poolLiquidity: seq<Asset>,
                                 simulateProvide: seq<Asset> -> Asset, applySlippage: (nat, Decimal) -> nat)
  {
    var provided := ProvideAssets(poolLiquidity, balances);
    var lp := simulateProvide(provided);
    var amount := GetCallerBalance(balances, lp.info) + lp.amount;
    && (r.Err? <==> amount >= UINT128_LIMIT)
    && (r.Err? ==> r.error == OverflowError)
    && (r.Ok? ==> Msgs(r.value.messages)
                  == [PoolProvideLiquidity(pool, provided, MinLp(lp.amount, slippageTolerance, applySlippage)),
                      VaultDepositMsg(vaultAddress, amount, recipient, [Coin(InfoString(lp.info), amount)])])
  }

  /** The part of callback_provide_liquidity after the balance update:
      provide every pool asset the caller is credited with, then deposit the
      caller's LP balance plus the simulated LP amount, which must stay a
      Uint128. */
  method ProvideAndDeposit(vaultAddress: Addr, recipient: Addr, pool: Pool, balances: TokenBalances,
                           slippageTolerance: Option<Decimal>, poolLiquidity: seq<Asset>,
                           simulateProvide: seq<Asset> -> Asset, applySlippage: (nat, Decimal) -> nat)
    returns (r: Result<Response>)
    ensures ProvidedAndDeposited(r, vaultAddress, recipient, pool, balances, slippageTolerance, poolLiquidity,
                                 simulateProvide, applySlippage)
  {
    var provideLiquidityAssets := ProvideAssets(poolLiquidity, balances);
    var lpTokensReceived := simulateProvide(provideLiquidityAssets);
    var response := CollaboratorResponse(PoolProvideLiquidity(pool, provideLiquidityAssets,
                                                              MinLp(lpTokensReceived.amount, slippageTolerance, applySlippage)));
    var amountToDeposit := CheckedAdd(GetCallerBalance(balances, lpTokensReceived.info), lpTokensReceived.amount);
    if amountToDeposit.Err? {
      r := Err(amountToDeposit.error);
      return;
    }
    var depositMsg := VaultDepositMsg(vaultAddress, amountToDeposit.value, recipient,
                                      [Coin(InfoString(lpTokensReceived.info), amountToDeposit.value)]);
    AddMessagesMsgs(response, [depositMsg]);
    response := AddMessages(response, [depositMsg]);
    r := Ok(response);
  }

  /** callback_provide_liquidity, given the contract's balances
      (`balanceOf`), the pool's liquidity, the pool's simulation of a
      provision (`simulateProvide`, the LP asset and amount it would mint)
      and the Decimal slippage arithmetic (`applySlippage`). Only the contract
      may call it; it then re-reads the balances, provides every pool asset
      the caller is credited with, and deposits the caller's LP balance plus
      the simulated LP amount. */
  method CallbackProvideLiquidity(contractAddr: Addr, info: MessageInfo, vaultAddress: Addr, recipient: Addr,
                                  pool: Pool, coinBalances: TokenBalances, slippageTolerance: Option<Decimal>,
                                  balanceOf: AssetInfo -> nat, poolLiquidity: seq<Asset>,
                                  simulateProvide: seq<Asset> -> Asset, applySlippage: (nat, Decimal) -> nat)
    returns (r: Result<Response>)
    ensures info.sender != contractAddr ==> r == Err(Unauthorized)
    ensures info.sender == contractAddr ==>
      var updated := UpdatedBalances(coinBalances, balanceOf);
      && (updated.Err? ==> r == Err(updated.error))
      && (updated.Ok? ==>
            ProvidedAndDeposited(r, vaultAddress, recipient, pool, updated.value, slippageTolerance, poolLiquidity,
                                 simulateProvide, applySlippage))
  {
    if info.sender != contractAddr {
      r := Err(Unauthorized);
      return;
    }
    var updated := UpdateBalances(coinBalances, balanceOf);
    if updated.Err? {
      r := Err(updated.error);
      return;
    }
    r := ProvideAndDeposit(vaultAddress, recipient, pool, updated.value, slippageTolerance, poolLiquidity,
                           simulateProvide, applySlippage);
  }

  // ---------------------------------------------------------------- callback_deposit

  /** callback_deposit, given the contract's balances (`balanceOf`). Only the
      contract may call it; it then re-reads the balances and deposits
      exactly the caller's balance of the deposit asset for the recipient.
      When the deposit asset was among the tracked funds and the caller has
      an entry for it, that balance is the whole re-queried balance. */
  method CallbackDeposit(contractAddr: Addr, info: MessageInfo, vaultAddress: Addr, recipient: Addr,
                         coinBalances: TokenBalances, depositAssetInfo: AssetInfo, balanceOf: AssetInfo -> nat)
    returns (r: Result<Response>)
    ensures info.sender != contractAddr ==> r == Err(Unauthorized)
    ensures info.sender == contractAddr ==>
      var updated := UpdatedBalances(coinBalances, balanceOf);
      && (r.Err? <==> updated.Err?)
      && (updated.Err? ==> r == Err(updated.error))
      && (updated.Ok? ==>
            var amount := GetCallerBalance(updated.value, depositAssetInfo);
            r == Ok(AddMessages(EmptyResponse, [VaultDepositMsg(vaultAddress, amount, recipient,
                                                                [Coin(InfoString(depositAssetInfo), amount)])])))
    ensures r.Ok? && Distinct(coinBalances.contractBalances) && depositAssetInfo in Infos(coinBalances.contractBalances)
            && FirstIndex(coinBalances.callerBalances, depositAssetInfo).Some? ==>
      Msgs(r.value.messages)
        == [VaultDepositMsg(vaultAddress, balanceOf(depositAssetInfo), recipient,
                            [Coin(InfoString(depositAssetInfo), balanceOf(depositAssetInfo))])]
  {
    if info.sender != contractAddr {
      r := Err(Unauthorized);
      return;
    }
    var updated := UpdateBalances(coinBalances, balanceOf);
    if updated.Err? {
      r := Err(updated.error);
      return;
    }
    var callerBalance := GetCallerBalance(updated.value, depositAssetInfo);
    var depositMsg := VaultDepositMsg(vaultAddress, callerBalance, recipient,
                                      [Coin(InfoString(depositAssetInfo), callerBalance)]);
    r := Ok(AddMessages(EmptyResponse, [depositMsg]));
    AddMessagesMsgs(EmptyResponse, [depositMsg]);
    if Distinct(coinBalances.contractBalances) && depositAssetInfo in Infos(coinBalances.contractBalances) {
      var k :| 0 <= k < |Infos(coinBalances.contractBalances)| && Infos(coinBalances.contractBalances)[k] == depositAssetInfo;
      assert coinBalances.contractBalances[k].info == depositAssetInfo;
    }
  }
}
