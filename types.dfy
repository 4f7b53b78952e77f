/** The data model shared by every handler of the vault zapper: addresses,
    assets and amounts, the contract's error type and a Result to carry it. */
module Types {

  /** A validated account or contract address. */
  type Addr = string

  /** 2^128: every Uint128 amount is below it. */
  const UINT128_LIMIT: nat := 0x1_0000_0000_0000_0000_0000_0000_0000_0000

  datatype Option<+T> = None | Some(value: T) {
    /** Option::unwrap_or */
    function GetOr(default: T): T {
      if Some? then value else default
    }
  }

  /** The cosmwasm StdError variants the core raises itself. */
  datatype StdError =
    | Overflow                 // Uint128::checked_sub / checked_add inside a StdResult
    | GenericErr(msg: string)  // StdError::generic_err
    | NotFound(kind: string)   // Item::load / Map::load of a missing key

  /** ContractError of src/error.rs, together with the variants the handlers
      use that error.rs does not declare (MinOutNotMet, InvalidMinOut), and
      Panic for a Rust panic, which aborts the call like an error does. */
  datatype ContractError =
    | Std(std: StdError)
    | Generic(message: string)
    | OverflowError
    | Unauthorized
    | UnsupportedVault
    | UnsupportedWithdrawal
    | InvalidVaultToken
    | MinOutNotReceived(expected: nat, received: nat)
    | MinOutNotMet(minOut: nat, actual: nat)
    | InvalidMinOut
    | Panic(reason: string)

  datatype Result<+T> = Ok(value: T) | Err(error: ContractError) {
    predicate IsFailure() {
      Err?
    }

    function PropagateFailure<U>(): Result<U>
      requires Err?
    {
      Err(error)
    }

    function Extract(): T
      requires Ok?
    {
      value
    }
  }

  /** apollo_cw_asset::AssetInfo: a native denomination or a CW20 token contract. */
  datatype AssetInfo = Native(denom: string) | Cw20(tokenAddr: Addr)

  /** An amount of one asset (Uint128 amounts are represented as naturals). */
  datatype Asset = Asset(info: AssetInfo, amount: nat)

  /** A native coin as attached to a message. */
  datatype Coin = Coin(denom: string, amount: nat)

  /** helpers.rs TokenBalances: what the contract already held of each asset
      the caller sent, and how much of each the caller is credited with. It is
      an owned value that travels inside callback messages. */
  datatype TokenBalances = TokenBalances(contractBalances: seq<Asset>, callerBalances: seq<Asset>)

  /** AssetInfo's Display form, used as the denom of attached coins. */
  function InfoString(info: AssetInfo): string {
    match info
    case Native(d) => d
    case Cw20(a) => "cw20:" + a
  }

  /** Asset -> Coin conversion (`try_into`): only native assets convert. */
  function ToCoin(a: Asset): Option<Coin> {
    match a.info
    case Native(d) => Some(Coin(d, a.amount))
    case Cw20(_) => None
  }

  /** Index of the first entry of `list` for `info`, the entry that
      AssetList::find and `iter_mut().find` reach. */
  function FirstIndex(list: seq<Asset>, info: AssetInfo): (r: Option<nat>)
    ensures r.Some? ==> r.value < |list| && list[r.value].info == info
    ensures r.Some? ==> forall j :: 0 <= j < r.value ==> list[j].info != info
    ensures r.None? ==> forall j :: 0 <= j < |list| ==> list[j].info != info
  {
    if list == [] then None
    else if list[0].info == info then Some(0)
    else match FirstIndex(list[1..], info)
      case None => None
      case Some(k) => Some(k + 1)
  }

  /** `find(info).map(|a| a.amount).unwrap_or_default()` */
  function AmountOf(list: seq<Asset>, info: AssetInfo): nat {
    match FirstIndex(list, info)
    case Some(k) => list[k].amount
    case None => 0
  }

  /** No two entries of the list are for the same asset (the AssetList invariant). */
  predicate Distinct(list: seq<Asset>) {
    forall i, j :: 0 <= i < j < |list| ==> list[i].info != list[j].info
  }

  /** The two lists hold the same assets at the same positions. */
  predicate SameInfos(a: seq<Asset>, b: seq<Asset>) {
    |a| == |b| && forall i :: 0 <= i < |a| ==> a[i].info == b[i].info
  }

  /** Which entry is first for an asset depends only on the assets listed, not on the amounts. */
  lemma {:induction false} FirstIndexSameInfos(a: seq<Asset>, b: seq<Asset>, info: AssetInfo)
    requires SameInfos(a, b)
    ensures FirstIndex(a, info) == FirstIndex(b, info)
  {
    if a != [] && a[0].info != info {
      assert SameInfos(a[1..], b[1..]);
      FirstIndexSameInfos(a[1..], b[1..], info);
    }
  }

  /** Setting the amount of the first entry for `x` changes what AmountOf
      reports for `x` and for no other asset. */
  lemma {:induction false} AmountOfAfterSet(list: seq<Asset>, k: nat, x: AssetInfo, v: nat, y: AssetInfo)
    requires FirstIndex(list, x) == Some(k)
    ensures AmountOf(list[k := Asset(x, v)], y) == if y == x then v else AmountOf(list, y)
  {
    FirstIndexSameInfos(list, list[k := Asset(x, v)], y);
  }

  /** In a list of distinct assets the entry at position i is the first for its asset. */
  lemma {:induction false} FirstIndexOfDistinct(list: seq<Asset>, i: nat)
    requires Distinct(list) && i < |list|
    ensures FirstIndex(list, list[i].info) == Some(i)
  {
  }

  /** `Uint128::saturating_sub` */
  function SaturatingSub(a: nat, b: nat): nat {
    if a > b then a - b else 0
  }

  /** `Uint128::checked_add` inside a ContractError result. */
  function CheckedAdd(a: nat, b: nat): (r: Result<nat>)
    ensures r.Ok? <==> a + b < UINT128_LIMIT
    ensures r.Ok? ==> r.value == a + b
    ensures r.Err? ==> r.error == OverflowError
  {
    if a + b < UINT128_LIMIT then Ok(a + b) else Err(OverflowError)
  }

  /** The part of `s` that `keep` accepts, in order (`filter`, `retain`). */
  function Filter<T>(s: seq<T>, keep: T -> bool): (r: seq<T>)
    ensures |r| <= |s|
    ensures forall i :: 0 <= i < |r| ==> r[i] in s && keep(r[i])
    ensures forall i :: 0 <= i < |s| && keep(s[i]) ==> s[i] in r
  {
    if s == [] then []
    else if keep(s[0]) then [s[0]] + Filter(s[1..], keep)
    else Filter(s[1..], keep)
  }

  /** Filtering distributes over concatenation, so what it keeps stays in order. */
  lemma {:induction false} FilterAppend<T>(a: seq<T>, b: seq<T>, keep: T -> bool)
    ensures Filter(a + b, keep) == Filter(a, keep) + Filter(b, keep)
  {
    if a != [] {
      assert (a + b)[1..] == a[1..] + b;
      FilterAppend(a[1..], b, keep);
    } else {
      assert a + b == b;
    }
  }

  /** `r` is `s` with some entries left out and the rest kept in their order. */
  predicate SubsequenceOf<T(==)>(r: seq<T>, s: seq<T>)
    decreases |s|
  {
    if r == [] then true
    else if s == [] then false
    else (r[0] == s[0] && SubsequenceOf(r[1..], s[1..])) || SubsequenceOf(r, s[1..])
  }

  /** What a filter keeps is a subsequence of its input. */
  lemma {:induction false} FilterSubsequence<T>(s: seq<T>, keep: T -> bool)
    ensures SubsequenceOf(Filter(s, keep), s)
    decreases |s|
  {
    if s != [] {
      FilterSubsequence(s[1..], keep);
      var r := Filter(s, keep);
      if keep(s[0]) {
        assert r[0] == s[0] && r[1..] == Filter(s[1..], keep);
      } else {
        assert r == Filter(s[1..], keep);
      }
    }
  }
}
