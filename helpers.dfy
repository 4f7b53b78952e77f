/** src/helpers.rs: the balance bookkeeping carried through the deposit
    callbacks (TokenBalances) and merge_responses. */
module Helpers {
  import opened Types
  import opened Messages

  /** AssetList::query_balances: every listed asset with the holder's
      current balance of it, `balanceOf` being the querier's answer. */
  function QueryBalances(list: seq<Asset>, balanceOf: AssetInfo -> nat): (r: seq<Asset>)
    ensures SameInfos(r, list)
    ensures forall i :: 0 <= i < |r| ==> r[i].amount == balanceOf(list[i].info)
  {
    seq(|list|, i requires 0 <= i < |list| => Asset(list[i].info, balanceOf(list[i].info)))
  }

  /** The assets of a list, in order. */
  function Infos(list: seq<Asset>): (r: seq<AssetInfo>)
    ensures |r| == |list| && forall i :: 0 <= i < |list| ==> r[i] == list[i].info
  {
    seq(|list|, i requires 0 <= i < |list| => list[i].info)
  }

  lemma {:induction false} DistinctSameInfos(a: seq<Asset>, b: seq<Asset>)
    requires SameInfos(a, b) && Distinct(b)
    ensures Distinct(a)
  {
  }

  // ---------------------------------------------------------------- new

  /** One turn of the loop of TokenBalances::new: the sent amount is taken
      off the first entry for its asset; `-=` panics when it would go below zero. */
  function DeductSent(balances: seq<Asset>, sent: Asset): Result<seq<Asset>> {
    match FirstIndex(balances, sent.info)
    case None => Ok(balances)
    case Some(k) =>
      if balances[k].amount < sent.amount then Err(Panic("attempt to subtract with overflow"))
      else Ok(balances[k := Asset(balances[k].info, balances[k].amount - sent.amount)])
  }

  /** The body of the loop of TokenBalances::new for one sent asset: the
      amount is taken off the contract's first entry for the asset, and a
      deduction below zero panics. */
  method DeductSentStep(balances: seq<Asset>, sent: Asset) returns (r: Result<seq<Asset>>)
    ensures r == DeductSent(balances, sent)
    ensures r.Err? <==> FirstIndex(balances, sent.info).Some? && sent.amount > AmountOf(balances, sent.info)
    ensures r.Err? ==> r.error.Panic?
    ensures r.Ok? ==> SameInfos(r.value, balances)
  {
    var found := FirstIndex(balances, sent.info);
    if found.Some? {
      var k := found.value;
      if balances[k].amount < sent.amount {
        return Err(Panic("attempt to subtract with overflow"));
      }
      return Ok(balances[k := Asset(balances[k].info, balances[k].amount - sent.amount)]);
    }
    r := Ok(balances);
  }

  /** The whole loop of TokenBalances::new, over the sent funds in order. */
  function DeductAllSent(balances: seq<Asset>, sent: seq<Asset>): Result<seq<Asset>>
    decreases |sent|
  {
    if sent == [] then Ok(balances)
    else match DeductSent(balances, sent[0])
      case Err(e) => Err(e)
      case Ok(b) => DeductAllSent(b, sent[1..])
  }

  /** The value TokenBalances::new produces. */
  function InitialBalances(callerFunds: seq<Asset>, balanceOf: AssetInfo -> nat): Result<TokenBalances> {
    match DeductAllSent(QueryBalances(callerFunds, balanceOf), callerFunds)
    case Ok(c) => Ok(TokenBalances(c, callerFunds))
    case Err(e) => Err(e)
  }

  /** What TokenBalances::new has established after deducting the first `i`
      sent funds, when the sent assets are distinct: those entries hold the
      queried balance less the amount sent, which was at most the balance,
      and the later entries still hold the queried balance. */
  ghost predicate DeductedUpTo(contract: seq<Asset>, callerFunds: seq<Asset>, balanceOf: AssetInfo -> nat, i: nat) {
    && SameInfos(contract, callerFunds)
    && (forall j :: 0 <= j < |callerFunds| ==>
          contract[j].amount == if j < i then balanceOf(callerFunds[j].info) - callerFunds[j].amount
                                else balanceOf(callerFunds[j].info))
    && (forall j :: 0 <= j < i && j < |callerFunds| ==> callerFunds[j].amount <= balanceOf(callerFunds[j].info))
  }

  /** With distinct sent assets the next sent asset's entry is its own, and
      deducting it extends what has been established by one. */
  lemma {:induction false} DeductStep(contract: seq<Asset>, callerFunds: seq<Asset>, balanceOf: AssetInfo -> nat, i: nat)
    requires Distinct(callerFunds) && i < |callerFunds|
    requires DeductedUpTo(contract, callerFunds, balanceOf, i)
    ensures FirstIndex(contract, callerFunds[i].info) == Some(i)
    ensures contract[i].amount == balanceOf(callerFunds[i].info)
    ensures contract[i].amount >= callerFunds[i].amount ==>
      DeductedUpTo(contract[i := Asset(contract[i].info, contract[i].amount - callerFunds[i].amount)],
                   callerFunds, balanceOf, i + 1)
  {
    DistinctSameInfos(contract, callerFunds);
    FirstIndexOfDistinct(contract, i);
  }

  /** TokenBalances::new. The caller is credited with exactly what it sent;
      the contract's own holding of each sent asset is its queried balance
      less the amount sent, and a sent amount above the queried balance aborts. */
  method NewTokenBalances(callerFunds: seq<Asset>, balanceOf: AssetInfo -> nat)
    returns (r: Result<TokenBalances>)
    ensures r == InitialBalances(callerFunds, balanceOf)
    ensures r.Ok? ==> r.value.callerBalances == callerFunds
    ensures r.Ok? ==> SameInfos(r.value.contractBalances, callerFunds)
    ensures r.Err? ==> r.error.Panic?
    ensures Distinct(callerFunds) ==>
      (r.Ok? <==> forall i :: 0 <= i < |callerFunds| ==>
                    callerFunds[i].amount <= balanceOf(callerFunds[i].info))
    ensures Distinct(callerFunds) && r.Ok? ==>
      forall i :: 0 <= i < |callerFunds| ==>
        r.value.contractBalances[i].amount == balanceOf(callerFunds[i].info) - callerFunds[i].amount
  {
    var contract := QueryBalances(callerFunds, balanceOf);
    ghost var queried := contract;
    var i := 0;
    while i < |callerFunds|
      invariant 0 <= i <= |callerFunds|
      invariant SameInfos(contract, callerFunds)
      invariant DeductAllSent(contract, callerFunds[i..]) == DeductAllSent(queried, callerFunds)
      invariant Distinct(callerFunds) ==> DeductedUpTo(contract, callerFunds, balanceOf, i)
    {
      var asset := callerFunds[i];
      assert callerFunds[i..][0] == asset && callerFunds[i..][1..] == callerFunds[i + 1..];
      if Distinct(callerFunds) {
        DeductStep(contract, callerFunds, balanceOf, i);
      }
      var step := DeductSentStep(contract, asset);
      if step.Err? {
        r := Err(step.error);
        return;
      }
      contract := step.value;
      i := i + 1;
    }
    assert callerFunds[i..] == [];
    r := Ok(TokenBalances(contract, callerFunds));
  }

  // ---------------------------------------------------------------- get_caller_balance

  /** TokenBalances::get_caller_balance: the amount of the first caller entry
      for the asset, or zero when the caller has none. */
  function GetCallerBalance(tb: TokenBalances, info: AssetInfo): (r: nat)
    ensures (forall i :: 0 <= i < |tb.callerBalances| ==> tb.callerBalances[i].info != info) ==> r == 0
    ensures forall i :: (0 <= i < |tb.callerBalances| && tb.callerBalances[i].info == info &&
                         forall j :: 0 <= j < i ==> tb.callerBalances[j].info != info) ==>
                        r == tb.callerBalances[i].amount
  {
    AmountOf(tb.callerBalances, info)
  }

  // ---------------------------------------------------------------- update_balances

  /** One turn of the loop of update_balances for one re-queried balance:
      the caller's entry is raised by the positive difference; a balance
      below the caller's recorded one is a checked_sub overflow. */
  function CreditObserved(caller: seq<Asset>, observed: Asset): Result<seq<Asset>> {
    var before := AmountOf(caller, observed.info);
    if observed.amount < before then Err(Std(Overflow))
    else if observed.amount - before > 0 then
      match FirstIndex(caller, observed.info)
      case Some(k) => Ok(caller[k := Asset(caller[k].info, caller[k].amount + (observed.amount - before))])
      case None => Ok(caller)
    else Ok(caller)
  }

  /** The body of the loop of update_balances for one re-queried balance:
      a checked_sub of the caller's recorded amount, then a credit of the
      positive difference to the caller's first entry for the asset. */
  method CreditObservedStep(caller: seq<Asset>, observed: Asset) returns (r: Result<seq<Asset>>)
    ensures r == CreditObserved(caller, observed)
    ensures r.Err? <==> observed.amount < AmountOf(caller, observed.info)
    ensures r.Err? ==> r.error == Std(Overflow)
    ensures r.Ok? ==> SameInfos(r.value, caller)
  {
    var oldBalance := AmountOf(caller, observed.info);
    if observed.amount < oldBalance {
      return Err(Std(Overflow));
    }
    var difference := observed.amount - oldBalance;
    var credited := caller;
    if difference > 0 {
      var found := FirstIndex(caller, observed.info);
      if found.Some? {
        var k := found.value;
        // the sum is the re-queried balance, itself a Uint128, so `+=` cannot overflow
        credited := caller[k := Asset(caller[k].info, caller[k].amount + difference)];
      }
    }
    r := Ok(credited);
  }

  /** The whole loop of update_balances, over the re-queried balances in order. */
  function CreditAllObserved(caller: seq<Asset>, observed: seq<Asset>): Result<seq<Asset>>
    decreases |observed|
  {
    if observed == [] then Ok(caller)
    else match CreditObserved(caller, observed[0])
      case Err(e) => Err(e)
      case Ok(c) => CreditAllObserved(c, observed[1..])
  }

  /** What update_balances has established after crediting the first `i`
      tracked assets: caller entries of those assets are credited up to
      their re-queried balance, the others are as they were. */
  ghost predicate CreditedUpTo(caller: seq<Asset>, caller0: seq<Asset>, tracked: seq<Asset>,
                               balanceOf: AssetInfo -> nat, i: nat)
    requires i <= |tracked|
  {
    && SameInfos(caller, caller0)
    && (forall j :: 0 <= j < i ==> balanceOf(tracked[j].info) >= AmountOf(caller0, tracked[j].info))
    && (forall j :: 0 <= j < i && FirstIndex(caller0, tracked[j].info).Some? ==>
          AmountOf(caller, tracked[j].info) == balanceOf(tracked[j].info))
    && (forall j :: i <= j < |tracked| ==> AmountOf(caller, tracked[j].info) == AmountOf(caller0, tracked[j].info))
    && (forall x :: x !in Infos(tracked) ==> AmountOf(caller, x) == AmountOf(caller0, x))
  }

  /** Crediting an observed balance no lower than the caller's recorded one
      succeeds, keeps the listed assets, sets the caller's amount of that
      asset to the observed one when the caller lists it, and leaves every
      other asset's amount alone. */
  lemma {:induction false} CreditObservedEffect(caller: seq<Asset>, x0: AssetInfo, v: nat)
    requires AmountOf(caller, x0) <= v
    ensures CreditObserved(caller, Asset(x0, v)).Ok?
    ensures SameInfos(CreditObserved(caller, Asset(x0, v)).value, caller)
    ensures FirstIndex(caller, x0).Some? ==> AmountOf(CreditObserved(caller, Asset(x0, v)).value, x0) == v
    ensures forall y :: y != x0 ==> AmountOf(CreditObserved(caller, Asset(x0, v)).value, y) == AmountOf(caller, y)
  {
    var next := CreditObserved(caller, Asset(x0, v)).value;
    var before := AmountOf(caller, x0);
    if v - before > 0 && FirstIndex(caller, x0).Some? {
      var k := FirstIndex(caller, x0).value;
      assert caller[k].info == x0 && caller[k].amount == before;
      assert next == caller[k := Asset(x0, v)];
      forall y ensures AmountOf(next, y) == if y == x0 then v else AmountOf(caller, y) {
        AmountOfAfterSet(caller, k, x0, v, y);
      }
    } else {
      assert next == caller;
    }
  }

  /** Crediting the next tracked asset extends what has been established by one. */
  lemma {:induction false} CreditStepPreserves(caller: seq<Asset>, caller0: seq<Asset>, tracked: seq<Asset>,
                            balanceOf: AssetInfo -> nat, i: nat)
    requires Distinct(tracked) && i < |tracked|
    requires CreditedUpTo(caller, caller0, tracked, balanceOf, i)
    requires CreditObserved(caller, Asset(tracked[i].info, balanceOf(tracked[i].info))).Ok?
    ensures CreditedUpTo(CreditObserved(caller, Asset(tracked[i].info, balanceOf(tracked[i].info))).value,
                         caller0, tracked, balanceOf, i + 1)
  {
    var x0 := tracked[i].info;
    var v := balanceOf(x0);
    var next := CreditObserved(caller, Asset(x0, v)).value;
    assert Infos(tracked)[i] == x0;
    FirstIndexSameInfos(caller, caller0, x0);
    assert AmountOf(caller, x0) == AmountOf(caller0, x0);
    CreditObservedEffect(caller, x0, v);
    assert SameInfos(next, caller0);
    forall j | 0 <= j < i + 1
      ensures balanceOf(tracked[j].info) >= AmountOf(caller0, tracked[j].info)
    {
    }
    forall j | 0 <= j < i + 1 && FirstIndex(caller0, tracked[j].info).Some?
      ensures AmountOf(next, tracked[j].info) == balanceOf(tracked[j].info)
    {
      if j < i {
        assert tracked[j].info != x0;
      }
    }
    forall j | i + 1 <= j < |tracked|
      ensures AmountOf(next, tracked[j].info) == AmountOf(caller0, tracked[j].info)
    {
      assert tracked[j].info != x0;
    }
    forall x | x !in Infos(tracked)
      ensures AmountOf(next, x) == AmountOf(caller0, x)
    {
      assert x != x0;
    }
  }

  /** A failing step of update_balances is a tracked asset whose re-queried
      balance is below the caller's recorded amount. */
  lemma {:induction false} CreditStepFails(caller: seq<Asset>, caller0: seq<Asset>, tracked: seq<Asset>,
                        balanceOf: AssetInfo -> nat, i: nat)
    requires Distinct(tracked) && i < |tracked|
    requires CreditedUpTo(caller, caller0, tracked, balanceOf, i)
    requires balanceOf(tracked[i].info) < AmountOf(caller, tracked[i].info)
    ensures exists j :: 0 <= j < |tracked| && balanceOf(tracked[j].info) < AmountOf(caller0, tracked[j].info)
  {
    assert balanceOf(tracked[i].info) < AmountOf(caller0, tracked[i].info);
  }

  /** Once every tracked asset is credited, the caller amounts are as update_balances promises. */
  lemma {:induction false} CreditedAll(caller: seq<Asset>, caller0: seq<Asset>, tracked: seq<Asset>, balanceOf: AssetInfo -> nat)
    requires CreditedUpTo(caller, caller0, tracked, balanceOf, |tracked|)
    ensures !exists i :: 0 <= i < |tracked| && balanceOf(tracked[i].info) < AmountOf(caller0, tracked[i].info)
    ensures forall i :: 0 <= i < |tracked| && FirstIndex(caller0, tracked[i].info).Some? ==>
              AmountOf(caller, tracked[i].info) == balanceOf(tracked[i].info)
    ensures forall x :: x !in Infos(tracked) ==> AmountOf(caller, x) == AmountOf(caller0, x)
  {
  }

  /** Crediting the remaining re-queried balances, from what has been
      established for the first `i`, fails exactly when some tracked
      balance is below the caller's starting amount, and otherwise
      establishes it for all of them. */
  lemma {:induction false} CreditRest(caller: seq<Asset>, caller0: seq<Asset>, tracked: seq<Asset>,
                                      balanceOf: AssetInfo -> nat, i: nat)
    requires Distinct(tracked) && i <= |tracked|
    requires CreditedUpTo(caller, caller0, tracked, balanceOf, i)
    ensures var res := CreditAllObserved(caller, QueryBalances(tracked, balanceOf)[i..]);
            && (res.Err? <==> exists j :: 0 <= j < |tracked| && balanceOf(tracked[j].info) < AmountOf(caller0, tracked[j].info))
            && (res.Ok? ==> CreditedUpTo(res.value, caller0, tracked, balanceOf, |tracked|))
    decreases |tracked| - i
  {
    var observed := QueryBalances(tracked, balanceOf);
    if i == |tracked| {
      assert observed[i..] == [];
      CreditedAll(caller, caller0, tracked, balanceOf);
    } else {
      var asset := observed[i];
      assert observed[i..][0] == asset && observed[i..][1..] == observed[i + 1..];
      assert asset == Asset(tracked[i].info, balanceOf(tracked[i].info));
      var step := CreditObserved(caller, asset);
      if step.Err? {
        CreditStepFails(caller, caller0, tracked, balanceOf, i);
      } else {
        CreditStepPreserves(caller, caller0, tracked, balanceOf, i);
        CreditRest(step.value, caller0, tracked, balanceOf, i + 1);
      }
    }
  }

  /** The value TokenBalances::update_balances leaves behind. */
  function UpdatedBalances(tb: TokenBalances, balanceOf: AssetInfo -> nat): Result<TokenBalances> {
    match CreditAllObserved(tb.callerBalances, QueryBalances(tb.contractBalances, balanceOf))
    case Ok(c) => Ok(TokenBalances(tb.contractBalances, c))
    case Err(e) => Err(e)
  }

  /** With distinct tracked assets, update_balances fails exactly when some
      re-queried balance is below the caller's recorded amount; otherwise
      every tracked asset the caller lists is credited up to its re-queried
      balance, and no other asset's caller amount changes. */
  lemma {:induction false} UpdatedBalancesSpec(tb: TokenBalances, balanceOf: AssetInfo -> nat)
    requires Distinct(tb.contractBalances)
    ensures UpdatedBalances(tb, balanceOf).Err? <==>
              exists i :: 0 <= i < |tb.contractBalances| &&
                balanceOf(tb.contractBalances[i].info) < AmountOf(tb.callerBalances, tb.contractBalances[i].info)
    ensures UpdatedBalances(tb, balanceOf).Ok? ==>
      forall i :: 0 <= i < |tb.contractBalances| && FirstIndex(tb.callerBalances, tb.contractBalances[i].info).Some? ==>
        AmountOf(UpdatedBalances(tb, balanceOf).value.callerBalances, tb.contractBalances[i].info)
          == balanceOf(tb.contractBalances[i].info)
    ensures UpdatedBalances(tb, balanceOf).Ok? ==>
      forall x :: x !in Infos(tb.contractBalances) ==>
        AmountOf(UpdatedBalances(tb, balanceOf).value.callerBalances, x) == AmountOf(tb.callerBalances, x)
  {
    var tracked := tb.contractBalances;
    var caller0 := tb.callerBalances;
    var observed := QueryBalances(tracked, balanceOf);
    assert CreditedUpTo(caller0, caller0, tracked, balanceOf, 0);
    CreditRest(caller0, caller0, tracked, balanceOf, 0);
    assert observed[0..] == observed;
    var res := CreditAllObserved(caller0, observed);
    if res.Ok? {
      CreditedAll(res.value, caller0, tracked, balanceOf);
    }
  }

  /** TokenBalances::update_balances, re-querying the contract's balances of
      the tracked assets (`balanceOf`). It never changes the contract
      balances and never adds an asset to the caller balances. With distinct
      tracked assets: it fails exactly when some re-queried balance is below
      the caller's recorded amount; otherwise every tracked asset the caller
      has an entry for is credited up to the re-queried balance, and no
      other asset's caller amount changes. */
  method UpdateBalances(tb: TokenBalances, balanceOf: AssetInfo -> nat) returns (r: Result<TokenBalances>)
    ensures r == UpdatedBalances(tb, balanceOf)
    ensures r.Ok? ==> r.value.contractBalances == tb.contractBalances
    ensures r.Ok? ==> SameInfos(r.value.callerBalances, tb.callerBalances)
    ensures r.Err? ==> r.error == Std(Overflow)
    ensures Distinct(tb.contractBalances) ==>
      (r.Err? <==> exists i :: 0 <= i < |tb.contractBalances| &&
                     balanceOf(tb.contractBalances[i].info) < AmountOf(tb.callerBalances, tb.contractBalances[i].info))
    ensures Distinct(tb.contractBalances) && r.Ok? ==>
      forall i :: 0 <= i < |tb.contractBalances| && FirstIndex(tb.callerBalances, tb.contractBalances[i].info).Some? ==>
        AmountOf(r.value.callerBalances, tb.contractBalances[i].info) == balanceOf(tb.contractBalances[i].info)
    ensures Distinct(tb.contractBalances) && r.Ok? ==>
      forall x :: x !in Infos(tb.contractBalances) ==>
        AmountOf(r.value.callerBalances, x) == AmountOf(tb.callerBalances, x)
  {
    var newBalances := QueryBalances(tb.contractBalances, balanceOf);
    ghost var tracked := tb.contractBalances;
    ghost var caller0 := tb.callerBalances;
    var caller := tb.callerBalances;
    var i := 0;
    while i < |newBalances|
      invariant 0 <= i <= |newBalances|
      invariant SameInfos(caller, caller0)
      invariant CreditAllObserved(caller, newBalances[i..]) == CreditAllObserved(caller0, newBalances)
    {
      var asset := newBalances[i];
      assert newBalances[i..][0] == asset && newBalances[i..][1..] == newBalances[i + 1..];
      var step := CreditObservedStep(caller, asset);
      if step.Err? {
        r := Err(step.error);
        if Distinct(tracked) {
          UpdatedBalancesSpec(tb, balanceOf);
        }
        return;
      }
      caller := step.value;
      i := i + 1;
    }
    assert newBalances[i..] == [];
    r := Ok(TokenBalances(tb.contractBalances, caller));
    if Distinct(tracked) {
      UpdatedBalancesSpec(tb, balanceOf);
    }
  }

  // ---------------------------------------------------------------- merge_responses

  /** Concatenation of a list of lists, front to back. */
  function Flatten<T>(ss: seq<seq<T>>): seq<T> {
    if ss == [] then [] else ss[0] + Flatten(ss[1..])
  }

  lemma {:induction false} FlattenAppend<T>(a: seq<seq<T>>, b: seq<seq<T>>)
    ensures Flatten(a + b) == Flatten(a) + Flatten(b)
  {
    if a == [] {
      assert a + b == b;
    } else {
      assert (a + b)[1..] == a[1..] + b;
      FlattenAppend(a[1..], b);
    }
  }

  function MessageLists(rs: seq<Response>): (r: seq<seq<CosmosMsg>>)
    ensures |r| == |rs| && forall i :: 0 <= i < |rs| ==> r[i] == Msgs(rs[i].messages)
  {
    seq(|rs|, i requires 0 <= i < |rs| => Msgs(rs[i].messages))
  }

  function AttributeLists(rs: seq<Response>): (r: seq<seq<Attribute>>)
    ensures |r| == |rs| && forall i :: 0 <= i < |rs| ==> r[i] == rs[i].attributes
  {
    seq(|rs|, i requires 0 <= i < |rs| => rs[i].attributes)
  }

  function EventLists(rs: seq<Response>): (r: seq<seq<Event>>)
    ensures |r| == |rs| && forall i :: 0 <= i < |rs| ==> r[i] == rs[i].events
  {
    seq(|rs|, i requires 0 <= i < |rs| => rs[i].events)
  }

  lemma {:induction false} PlainAllAppend(a: seq<CosmosMsg>, b: seq<CosmosMsg>)
    ensures PlainAll(a + b) == PlainAll(a) + PlainAll(b)
  {
    if a == [] {
      assert a + b == b;
    } else {
      assert (a + b)[0] == a[0] && (a + b)[1..] == a[1..] + b;
      PlainAllAppend(a[1..], b);
    }
  }

  /** How the three concatenations grow when one more response is merged. */
  lemma {:induction false} MergeStep(responses: seq<Response>, i: nat)
    requires i < |responses|
    ensures PlainAll(Flatten(MessageLists(responses[..i + 1])))
            == PlainAll(Flatten(MessageLists(responses[..i]))) + PlainAll(Msgs(responses[i].messages))
    ensures Flatten(AttributeLists(responses[..i + 1])) == Flatten(AttributeLists(responses[..i])) + responses[i].attributes
    ensures Flatten(EventLists(responses[..i + 1])) == Flatten(EventLists(responses[..i])) + responses[i].events
  {
    var response := responses[i];
    assert MessageLists(responses[..i + 1]) == MessageLists(responses[..i]) + [Msgs(response.messages)];
    assert AttributeLists(responses[..i + 1]) == AttributeLists(responses[..i]) + [response.attributes];
    assert EventLists(responses[..i + 1]) == EventLists(responses[..i]) + [response.events];
    FlattenAppend(MessageLists(responses[..i]), [Msgs(response.messages)]);
    FlattenAppend(AttributeLists(responses[..i]), [response.attributes]);
    FlattenAppend(EventLists(responses[..i]), [response.events]);
    assert Flatten([Msgs(response.messages)]) == Msgs(response.messages);
    assert Flatten([response.attributes]) == response.attributes;
    assert Flatten([response.events]) == response.events;
    PlainAllAppend(Flatten(MessageLists(responses[..i])), Msgs(response.messages));
  }

  /** merge_responses: the messages, attributes and events of all responses
      concatenated in input order; every message is re-wrapped as a plain
      SubMsg (its reply id and reply mode are dropped) and the data fields
      are discarded. */
  method MergeResponses(responses: seq<Response>) returns (merged: Response)
    ensures merged.messages == PlainAll(Flatten(MessageLists(responses)))
    ensures merged.attributes == Flatten(AttributeLists(responses))
    ensures merged.events == Flatten(EventLists(responses))
    ensures merged.data == None
  {
    merged := EmptyResponse;
    var i := 0;
    while i < |responses|
      invariant 0 <= i <= |responses|
      invariant merged.messages == PlainAll(Flatten(MessageLists(responses[..i])))
      invariant merged.attributes == Flatten(AttributeLists(responses[..i]))
      invariant merged.events == Flatten(EventLists(responses[..i]))
      invariant merged.data == None
    {
      var response := responses[i];
      MergeStep(responses, i);
      merged := AddMessages(merged.(attributes := merged.attributes + response.attributes,
                                    events := merged.events + response.events),
                            Msgs(response.messages));
      i := i + 1;
    }
    assert responses[..i] == responses;
  }

  /** Merging two responses sends the first one's messages, then the second
      one's, and likewise keeps their attributes and events in that order. */
  lemma {:induction false} MergeTwoMessages(a: Response, b: Response)
    ensures Msgs(PlainAll(Flatten(MessageLists([a, b])))) == Msgs(a.messages) + Msgs(b.messages)
    ensures Flatten(AttributeLists([a, b])) == a.attributes + b.attributes
    ensures Flatten(EventLists([a, b])) == a.events + b.events
  {
    assert MessageLists([a, b]) == [Msgs(a.messages), Msgs(b.messages)];
    assert AttributeLists([a, b]) == [a.attributes, b.attributes];
    assert EventLists([a, b]) == [a.events, b.events];
    assert Flatten([Msgs(b.messages)]) == Msgs(b.messages);
    assert Flatten([b.attributes]) == b.attributes;
    assert Flatten([b.events]) == b.events;
    MsgsPlainAll(Msgs(a.messages) + Msgs(b.messages));
  }
}
