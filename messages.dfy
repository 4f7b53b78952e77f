/** The zapper's message types (src/msg.rs) and the outgoing CosmWasm
    messages and responses its handlers build. Messages built by
    collaborators (the router, the pool helper, the vault helper) are opaque
    constructors that carry the arguments they were built from. */
module Messages {
  import opened Types

  /** How redeemed value is delivered. */
  datatype ReceiveChoice =
    | BaseToken                // the vault's base token as it is
    | Underlying               // the assets an LP base token wraps
    | SwapTo(asset: AssetInfo) // the base token swapped to one asset

  /** A pool handle returned by the pool collaborator for an LP token; opaque. */
  datatype Pool = Pool(handle: string)

  /** A cosmwasm Decimal, as its 18-decimal atomics; only carried, never computed with. */
  datatype Decimal = Decimal(atomics: nat)

  /** CallbackMsg: the continuation steps the contract addresses to itself.
      The fields are those the handlers build and read. */
  datatype CallbackMsg =
    | ProvideLiquidity(vaultAddress: Addr, recipient: Addr, pool: Pool,
                       coinBalances: TokenBalances, slippageTolerance: Option<Decimal>)
    | Deposit(vaultAddress: Addr, recipient: Addr, coinBalances: TokenBalances,
              depositAssetInfo: AssetInfo)
    | EnforceMinOut(assets: seq<AssetInfo>, recipient: Addr, balancesBefore: seq<Asset>,
                    minOut: seq<Asset>)
    | AfterRedeem(receiveChoice: ReceiveChoice, vaultBaseToken: AssetInfo, recipient: Addr,
                  minOut: seq<Asset>)
    | AfterWithdrawLiq(assets: seq<AssetInfo>, receiveChoice: ReceiveChoice, recipient: Addr,
                       minOut: seq<Asset>)

  /** ExecuteMsg. Deposit's floor is a single vault-token amount; Redeem,
      ZapBaseTokens and WithdrawUnlocked take a floor per asset. */
  datatype ExecuteMsg =
    | Deposit(assets: seq<Asset>, vaultAddress: string, recipient: Option<string>,
              minVaultTokens: nat, slippageTolerance: Option<Decimal>)
    | Redeem(vaultAddress: string, recipient: Option<string>, receiveChoice: ReceiveChoice,
             minOut: seq<Asset>)
    | ZapBaseTokens(baseToken: Asset, recipient: Option<string>, receiveChoice: ReceiveChoice,
                    minOut: seq<Asset>)
    | Unlock(vaultAddress: string)
    | WithdrawUnlocked(vaultAddress: string, lockupId: nat, recipient: Option<string>,
                       receiveChoice: ReceiveChoice, minOut: seq<Asset>)
    | Callback(callback: CallbackMsg)

  /** The execute message carried by a WasmMsg::Execute. */
  datatype WasmPayload =
    | ZapperExecute(execute: ExecuteMsg)                          // to this contract
    | VaultDeposit(amount: nat, recipient: Option<Addr>)          // vault standard Deposit
    | VaultUnlock(amount: nat)                                    // lockup extension Unlock
    | VaultWithdrawUnlocked(lockupId: nat, recipient: Option<Addr>) // lockup extension WithdrawUnlocked

  /** An outgoing CosmosMsg. */
  datatype CosmosMsg =
    | WasmExecute(contractAddr: Addr, msg: WasmPayload, funds: seq<Coin>)
      /** Asset::transfer_msg */
    | Transfer(asset: Asset, recipient: Addr)
      /** VaultContract::redeem */
    | VaultRedeem(vault: Addr, redeemAmount: nat, redeemRecipient: Option<Addr>)
      /** the router's basket_liquidate_msgs, standing for the messages it returns */
    | BasketLiquidate(offerAssets: seq<Asset>, receiveAsset: AssetInfo,
                      minimumReceive: Option<nat>, liquidateRecipient: Option<Addr>)
      /** Pool::provide_liquidity */
    | PoolProvideLiquidity(pool: Pool, provided: seq<Asset>, minLpOut: nat)
      /** Pool::withdraw_liquidity */
    | PoolWithdrawLiquidity(pool: Pool, lpTokens: Asset, minAssetsOut: seq<Asset>)
      /** receive_asset / receive_assets */
    | ReceiveAssets(expected: seq<Asset>)

  /** MessageInfo: who called and which native coins were attached. */
  datatype MessageInfo = MessageInfo(sender: Addr, funds: seq<Coin>)

  /** `recipient.map_or(Ok(info.sender), addr_validate)`: the given recipient
      (address validation is not part of this model), else the sender. */
  function RecipientOr(recipient: Option<string>, sender: Addr): (r: Addr)
    ensures recipient.None? ==> r == sender
    ensures recipient.Some? ==> r == recipient.value
  {
    recipient.GetOr(sender)
  }

  datatype ReplyOn = Never | Success | Error | Always

  datatype SubMsg = SubMsg(id: nat, msg: CosmosMsg, replyOn: ReplyOn)

  datatype Attribute = Attribute(key: string, value: string)

  datatype Event = Event(kind: string, attributes: seq<Attribute>)

  datatype Response = Response(messages: seq<SubMsg>, attributes: seq<Attribute>,
                               events: seq<Event>, data: Option<seq<bv8>>)

  /** Response::new() */
  const EmptyResponse: Response := Response([], [], [], None)

  /** SubMsg::new: a message sent without asking for a reply. */
  function Plain(m: CosmosMsg): SubMsg {
    SubMsg(0, m, Never)
  }

  /** Every message wrapped as SubMsg::new would wrap it. */
  function PlainAll(ms: seq<CosmosMsg>): (r: seq<SubMsg>)
    ensures |r| == |ms|
    ensures forall i :: 0 <= i < |ms| ==> r[i] == Plain(ms[i])
  {
    if ms == [] then [] else [Plain(ms[0])] + PlainAll(ms[1..])
  }

  /** Response::add_messages */
  function AddMessages(r: Response, ms: seq<CosmosMsg>): Response {
    r.(messages := r.messages + PlainAll(ms))
  }

  /** What a collaborator-built Response holds: the one opaque message it stands for. */
  function CollaboratorResponse(m: CosmosMsg): Response {
    AddMessages(EmptyResponse, [m])
  }

  /** The messages of a response, without their submessage wrapping. */
  function Msgs(subs: seq<SubMsg>): (r: seq<CosmosMsg>)
    ensures |r| == |subs|
    ensures forall i :: 0 <= i < |subs| ==> r[i] == subs[i].msg
  {
    if subs == [] then [] else [subs[0].msg] + Msgs(subs[1..])
  }

  lemma {:induction false} MsgsAppend(a: seq<SubMsg>, b: seq<SubMsg>)
    ensures Msgs(a + b) == Msgs(a) + Msgs(b)
  {
    if a == [] {
      assert a + b == b;
    } else {
      assert (a + b)[1..] == a[1..] + b;
      MsgsAppend(a[1..], b);
    }
  }

  lemma {:induction false} MsgsPlainAll(ms: seq<CosmosMsg>)
    ensures Msgs(PlainAll(ms)) == ms
  {
  }

  /** The messages a response ends up sending after `add_messages(ms)`. */
  lemma {:induction false} AddMessagesMsgs(r: Response, ms: seq<CosmosMsg>)
    ensures Msgs(AddMessages(r, ms).messages) == Msgs(r.messages) + ms
  {
    MsgsAppend(r.messages, PlainAll(ms));
    MsgsPlainAll(ms);
  }

  /** CallbackMsg::into_cosmos_msg: a WasmMsg::Execute addressed to the
      contract itself, carrying no funds, whose payload is
      ExecuteMsg::Callback of the callback unchanged. */
  function IntoCosmosMsg(cb: CallbackMsg, contractAddr: Addr): (m: CosmosMsg)
    ensures SelfCallback(m, contractAddr) == Some(cb)
  {
    WasmExecute(contractAddr, ZapperExecute(Callback(cb)), [])
  }

  /** The callback a message delivers when the host runs it: only a fund-less
      execute of ExecuteMsg::Callback addressed to `contractAddr` is one. */
  function SelfCallback(m: CosmosMsg, contractAddr: Addr): (r: Option<CallbackMsg>)
    ensures r.Some? ==> m.WasmExecute? && m.contractAddr == contractAddr && m.funds == []
  {
    match m
    case WasmExecute(addr, ZapperExecute(Callback(cb)), funds) =>
      if addr == contractAddr && funds == [] then Some(cb) else None
    case _ => None
  }

  /** A self-addressed callback message is exactly IntoCosmosMsg of the callback it delivers. */
  lemma {:induction false} SelfCallbackIsIntoCosmosMsg(m: CosmosMsg, contractAddr: Addr)
    requires SelfCallback(m, contractAddr).Some?
    ensures m == IntoCosmosMsg(SelfCallback(m, contractAddr).value, contractAddr)
  {
  }
}
