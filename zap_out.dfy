/** src/zap_out.rs: swapping base tokens sent with the call into one asset
    for a recipient, by first withdrawing liquidity when the base token is
    an LP token. */
module ZapOut {
  import opened Types
  import opened Messages
  import opened Helpers
  import Withdraw

  /** Some entry of the list is for asset `x`. */
  predicate Lists(list: seq<Asset>, x: AssetInfo) {
    exists i :: 0 <= i < |list| && list[i].info == x
  }

  /** execute_zap_out, given the vault's base token, its pool classification,
      the Response receive_asset builds for the base tokens (`receiveRes`),
      the Response the pool builds to withdraw that liquidity
      (`withdrawLiqRes`) and the pool's simulation of that withdrawal
      (`withdrawn`). The recipient defaults to the sender and the router is
      never given a floor.
      - LP base token: the two Responses merged (messages, attributes and
        events in order, no data), then the liquidation of every withdrawn
        asset but `zapTo` towards `zapTo`, and the transfer of the withdrawn
        amount of `zapTo` itself only when it is among them.
      - Otherwise: receive_asset's Response, then the liquidation of the
        whole base amount towards `zapTo`. */
  method ExecuteZapOut(info: MessageInfo, vaultAddress: Addr, amount: nat, zapTo: AssetInfo,
                       recipient: Option<Addr>, baseToken: AssetInfo, pool: Option<Pool>,
                       receiveRes: Response, withdrawLiqRes: Response, withdrawn: seq<Asset>)
    returns (response: Response)
    ensures pool.Some? ==>
      var rcpt := RecipientOr(recipient, info.sender);
      && Msgs(response.messages)
         == Msgs(receiveRes.messages) + Msgs(withdrawLiqRes.messages)
            + [BasketLiquidate(Withdraw.Excluding(withdrawn, zapTo), zapTo, None, Some(rcpt))]
            + (if Lists(withdrawn, zapTo) then [Transfer(Asset(zapTo, AmountOf(withdrawn, zapTo)), rcpt)] else [])
      && response.attributes == receiveRes.attributes + withdrawLiqRes.attributes
      && response.events == receiveRes.events + withdrawLiqRes.events
      && response.data.None?
    ensures pool.None? ==>
      && response.messages
         == receiveRes.messages
            + PlainAll([BasketLiquidate([Asset(baseToken, amount)], zapTo, None, Some(RecipientOr(recipient, info.sender)))])
      && response.attributes == receiveRes.attributes
      && response.events == receiveRes.events
      && response.data == receiveRes.data
  {
    var rcpt := recipient.GetOr(info.sender);
    var base := Asset(baseToken, amount);
    response := receiveRes;
    var liquidate: CosmosMsg;
    if pool.Some? {
      var before := response;
      response := MergeResponses([before, withdrawLiqRes]);
      MergeTwoMessages(before, withdrawLiqRes);
      liquidate := BasketLiquidate(Withdraw.Excluding(withdrawn, zapTo), zapTo, None, Some(rcpt));
      AddMessagesMsgs(response, [liquidate]);
      response := AddMessages(response, [liquidate]);
      var found := FirstIndex(withdrawn, zapTo);
      assert Lists(withdrawn, zapTo) <==> found.Some?;
      if found.Some? {
        var transfer := Transfer(withdrawn[found.value], rcpt);
        AddMessagesMsgs(response, [transfer]);
        response := AddMessages(response, [transfer]);
      }
    } else {
      liquidate := BasketLiquidate([base], zapTo, None, Some(rcpt));
      response := AddMessages(response, [liquidate]);
    }
  }
}
