/** src/query.rs: what may be deposited into a vault, how redeemed value may
    be received, and a user's unlocking positions. The positions queries read
    the lockup ledger keyed by (owner, vault), as they key it. */
module Query {
  import opened Types
  import opened Messages
  import Helpers

  /** DEFAULT_LIMIT */
  const DEFAULT_LIMIT: nat := 10

  const UNSUPPORTED_VAULT := "Unsupported vault"

  // ---------------------------------------------------------------- query_depositable_assets

  /** query_depositable_assets, given the vault's base token (classified
      cw20 or native), its pool classification, the pool's liquidity and the
      router's offer assets for a target. The target is the first pool asset
      of an LP base token, else the base token; an LP pool without assets is
      an unsupported vault. The answer is the deposit asset, the target, then
      the router's offer assets for the target in the router's order. */
  function QueryDepositableAssets(depositAsset: AssetInfo, pool: Option<Pool>, poolLiquidity: seq<Asset>,
                                  supportedOfferAssets: AssetInfo -> seq<AssetInfo>): (r: Result<seq<AssetInfo>>)
    ensures r.Err? <==> pool.Some? && poolLiquidity == []
    ensures r.Err? ==> r.error == Std(GenericErr(UNSUPPORTED_VAULT))
    ensures r.Ok? ==>
      var target := if pool.Some? then poolLiquidity[0].info else depositAsset;
      |r.value| >= 2 && r.value[0] == depositAsset && r.value[1] == target &&
      r.value[2..] == supportedOfferAssets(target)
  {
    var target :- match pool
      case Some(_) =>
        if poolLiquidity == [] then Err(Std(GenericErr(UNSUPPORTED_VAULT))) else Ok(poolLiquidity[0].info)
      case None => Ok(depositAsset);
    Ok([depositAsset, target] + supportedOfferAssets(target))
  }

  // ---------------------------------------------------------------- query_receive_choices

  /** `retain(|a| keep.contains(a))` */
  function Retain(running: seq<AssetInfo>, keep: seq<AssetInfo>): (r: seq<AssetInfo>)
    ensures forall i :: 0 <= i < |r| ==> r[i] in running && r[i] in keep
    ensures forall i :: 0 <= i < |running| && running[i] in keep ==> running[i] in r
  {
    Filter(running, (a: AssetInfo) => a in keep)
  }

  /** One turn of the intersection loop: an empty running set restarts from
      the next list, any other is narrowed to it. */
  function IntersectStep(running: seq<AssetInfo>, askAssets: seq<AssetInfo>): seq<AssetInfo> {
    if running == [] then askAssets else Retain(running, askAssets)
  }

  /** The intersection loop as written, over the lists in order. */
  function RunningIntersection(running: seq<AssetInfo>, lists: seq<seq<AssetInfo>>): seq<AssetInfo>
    decreases |lists|
  {
    if lists == [] then running else RunningIntersection(IntersectStep(running, lists[0]), lists[1..])
  }

  /** Whatever one turn of the loop keeps is an ask asset of that turn's pool token. */
  lemma {:induction false} StepWithin(running: seq<AssetInfo>, askAssets: seq<AssetInfo>, x: AssetInfo)
    requires x in IntersectStep(running, askAssets)
    ensures x in askAssets
  {
    if running != [] {
      var kept := Retain(running, askAssets);
      var k :| 0 <= k < |kept| && kept[k] == x;
    }
  }

  /** Whatever the loop ends with is an ask asset of the last pool token. */
  lemma {:induction false} IntersectionWithinLast(running: seq<AssetInfo>, lists: seq<seq<AssetInfo>>, x: AssetInfo)
    requires lists != [] && x in RunningIntersection(running, lists)
    ensures x in lists[|lists| - 1]
    decreases |lists|
  {
    var next := IntersectStep(running, lists[0]);
    assert RunningIntersection(running, lists) == RunningIntersection(next, lists[1..]);
    if |lists| == 1 {
      assert RunningIntersection(next, lists[1..]) == next by { assert lists[1..] == []; }
      StepWithin(running, lists[0], x);
    } else {
      IntersectionWithinLast(next, lists[1..], x);
      assert lists[1..][|lists[1..]| - 1] == lists[|lists| - 1];
    }
  }

  /** An asset supported for every pool token is kept. */
  lemma {:induction false} IntersectionKeepsCommon(running: seq<AssetInfo>, lists: seq<seq<AssetInfo>>, x: AssetInfo)
    requires forall i :: 0 <= i < |lists| ==> x in lists[i]
    requires (running == [] && lists != []) || x in running
    ensures x in RunningIntersection(running, lists)
    decreases |lists|
  {
    if lists != [] {
      var next := IntersectStep(running, lists[0]);
      assert x in lists[0];
      if running != [] {
        var k :| 0 <= k < |running| && running[k] == x;
      }
      assert x in next;
      forall i | 0 <= i < |lists[1..]| ensures x in lists[1..][i] {
        assert lists[1..][i] == lists[i + 1];
      }
      IntersectionKeepsCommon(next, lists[1..], x);
    }
  }

  /** The restart: once the running set is empty, the next list is taken
      whole, so an asset of the third list is kept although the first pool
      token does not support it, nor the second. */
  lemma {:induction false} IntersectionRestarts(a: AssetInfo, b: AssetInfo, c: AssetInfo)
    requires a != b && c != a && c != b
    ensures RunningIntersection([], [[a], [b], [c]]) == [c]
    ensures c !in [a] && c !in [b]
  {
    var lists := [[a], [b], [c]];
    assert Retain([a], [b]) == [] by {
      assert a !in [b] && [a][1..] == [];
    }
    assert lists[1..] == [[b], [c]] && lists[1..][1..] == [[c]] && lists[1..][1..][1..] == [];
    assert RunningIntersection([c], []) == [c];
    assert RunningIntersection([], [[c]]) == [c];
    assert RunningIntersection([a], [[b], [c]]) == RunningIntersection([], [[c]]);
    assert RunningIntersection([], lists) == RunningIntersection([a], [[b], [c]]);
  }

  /** Narrowing `running` by each list in turn. */
  function Narrow(running: seq<AssetInfo>, lists: seq<seq<AssetInfo>>): seq<AssetInfo>
    decreases |lists|
  {
    if lists == [] then running else Narrow(Retain(running, lists[0]), lists[1..])
  }

  /** The intersection the loop means to compute: the first pool token's ask
      assets, in its order, narrowed by every other pool token's. */
  function CommonAskAssets(lists: seq<seq<AssetInfo>>): seq<AssetInfo> {
    if lists == [] then [] else Narrow(lists[0], lists[1..])
  }

  lemma {:induction false} NarrowExact(running: seq<AssetInfo>, lists: seq<seq<AssetInfo>>, x: AssetInfo)
    ensures x in Narrow(running, lists) <==> x in running && forall i :: 0 <= i < |lists| ==> x in lists[i]
    decreases |lists|
  {
    if lists != [] {
      var next := Retain(running, lists[0]);
      assert x in next <==> x in running && x in lists[0] by {
        if x in next {
          var k :| 0 <= k < |next| && next[k] == x;
        }
        if x in running && x in lists[0] {
          var k :| 0 <= k < |running| && running[k] == x;
        }
      }
      NarrowExact(next, lists[1..], x);
      assert forall i :: 0 <= i < |lists[1..]| ==> lists[1..][i] == lists[i + 1];
      if x in running && forall i :: 0 <= i < |lists| ==> x in lists[i] {
        assert x in lists[0];
        assert forall i :: 0 <= i < |lists[1..]| ==> x in lists[1..][i];
      }
      if x in Narrow(running, lists) {
        assert forall i :: 0 <= i < |lists| ==> x in lists[i] by {
          forall i | 0 <= i < |lists| ensures x in lists[i] {
            if i > 0 {
              assert lists[1..][i - 1] == lists[i];
            }
          }
        }
      }
    }
  }

  /** An asset is offered exactly when every pool token's ask assets hold it. */
  lemma {:induction false} CommonAskAssetsExact(lists: seq<seq<AssetInfo>>, x: AssetInfo)
    requires lists != []
    ensures x in CommonAskAssets(lists) <==> forall i :: 0 <= i < |lists| ==> x in lists[i]
  {
    NarrowExact(lists[0], lists[1..], x);
    assert forall i :: 0 <= i < |lists[1..]| ==> lists[1..][i] == lists[i + 1];
    if x in CommonAskAssets(lists) {
      forall i | 0 <= i < |lists| ensures x in lists[i] {
        if i > 0 {
          assert lists[1..][i - 1] == lists[i];
        }
      }
    }
  }

  /** Narrowing nothing leaves nothing. */
  lemma {:induction false} NarrowEmpty(lists: seq<seq<AssetInfo>>)
    ensures Narrow([], lists) == []
    decreases |lists|
  {
    if lists != [] {
      assert Retain([], lists[0]) == [];
      NarrowEmpty(lists[1..]);
    }
  }

  /** While the narrowed set stays non-empty the loop as written never
      restarts, so it computes the same narrowing. */
  lemma {:induction false} RunningIsNarrow(running: seq<AssetInfo>, lists: seq<seq<AssetInfo>>)
    requires running != [] && Narrow(running, lists) != []
    ensures RunningIntersection(running, lists) == Narrow(running, lists)
    decreases |lists|
  {
    if lists != [] {
      var next := Retain(running, lists[0]);
      assert IntersectStep(running, lists[0]) == next;
      if next == [] {
        NarrowEmpty(lists[1..]);
      } else {
        RunningIsNarrow(next, lists[1..]);
      }
    }
  }

  /** When some ask asset is common to every pool token, the loop as written
      yields exactly the intended intersection. */
  lemma {:induction false} RunningIntersectionAgrees(lists: seq<seq<AssetInfo>>)
    requires CommonAskAssets(lists) != []
    ensures RunningIntersection([], lists) == CommonAskAssets(lists)
  {
    assert RunningIntersection([], lists) == RunningIntersection(lists[0], lists[1..]);
    if lists[0] == [] {
      NarrowEmpty(lists[1..]);
    } else {
      RunningIsNarrow(lists[0], lists[1..]);
    }
  }

  /** The ask assets the router supports for each pool token, in pool order. */
  function AskLists(poolTokens: seq<AssetInfo>, supportedAskAssets: AssetInfo -> seq<AssetInfo>)
    : (r: seq<seq<AssetInfo>>)
    ensures |r| == |poolTokens|
    ensures forall i :: 0 <= i < |r| ==> r[i] == supportedAskAssets(poolTokens[i])
  {
    seq(|poolTokens|, i requires 0 <= i < |poolTokens| => supportedAskAssets(poolTokens[i]))
  }

  /** Each asset as a SwapTo choice, in order. */
  function SwapToChoices(assets: seq<AssetInfo>): (r: seq<ReceiveChoice>)
    ensures |r| == |assets|
    ensures forall i :: 0 <= i < |r| ==> r[i] == SwapTo(assets[i])
  {
    seq(|assets|, i requires 0 <= i < |assets| => SwapTo(assets[i]))
  }

  /** The SwapTo targets query_receive_choices offers: for an LP base token
      the ask assets common to all pool tokens followed by the pool tokens,
      else the router's ask assets for the base token. */
  function SwapTargets(withdrawAsset: AssetInfo, pool: Option<Pool>, poolLiquidity: seq<Asset>,
                       supportedAskAssets: AssetInfo -> seq<AssetInfo>): seq<AssetInfo>
  {
    if pool.Some? then
      CommonAskAssets(AskLists(Helpers.Infos(poolLiquidity), supportedAskAssets)) + Helpers.Infos(poolLiquidity)
    else supportedAskAssets(withdrawAsset)
  }

  /** The SwapTo targets as the handler computes them: for an LP base token
      what the intersection loop as written ends with, followed by the pool
      tokens, else the router's ask assets for the base token. */
  function SwapTargetsAsWritten(withdrawAsset: AssetInfo, pool: Option<Pool>, poolLiquidity: seq<Asset>,
                                supportedAskAssets: AssetInfo -> seq<AssetInfo>): seq<AssetInfo>
  {
    if pool.Some? then
      RunningIntersection([], AskLists(Helpers.Infos(poolLiquidity), supportedAskAssets)) + Helpers.Infos(poolLiquidity)
    else supportedAskAssets(withdrawAsset)
  }

  /** For an LP base token an asset may be swapped to exactly when the router
      supports it as an ask asset for every pool token, or it is a pool token. */
  lemma {:induction false} SwapTargetsOfPool(withdrawAsset: AssetInfo, pool: Option<Pool>, poolLiquidity: seq<Asset>,
                          supportedAskAssets: AssetInfo -> seq<AssetInfo>, x: AssetInfo)
    requires pool.Some? && poolLiquidity != []
    ensures x in SwapTargets(withdrawAsset, pool, poolLiquidity, supportedAskAssets) <==>
              (forall i :: 0 <= i < |poolLiquidity| ==> x in supportedAskAssets(poolLiquidity[i].info))
              || exists i :: 0 <= i < |poolLiquidity| && poolLiquidity[i].info == x
  {
    var tokens := Helpers.Infos(poolLiquidity);
    var lists := AskLists(tokens, supportedAskAssets);
    CommonAskAssetsExact(lists, x);
    var common := CommonAskAssets(lists);
    assert x in common + tokens <==> x in common || x in tokens;
    assert x in tokens <==> exists i :: 0 <= i < |poolLiquidity| && poolLiquidity[i].info == x by {
      if x in tokens {
        var k :| 0 <= k < |tokens| && tokens[k] == x;
      }
      if exists i :: 0 <= i < |poolLiquidity| && poolLiquidity[i].info == x {
        var k :| 0 <= k < |poolLiquidity| && poolLiquidity[k].info == x;
        assert tokens[k] == x;
      }
    }
  }

  /** query_receive_choices: SwapTo for every target the intersection loop
      as written leaves, then BaseToken, then Underlying. When some ask asset
      is common to every pool token (or the base token is no LP token) these
      are exactly the intended targets. */
  method QueryReceiveChoices(withdrawAsset: AssetInfo, pool: Option<Pool>, poolLiquidity: seq<Asset>,
                             supportedAskAssets: AssetInfo -> seq<AssetInfo>)
    returns (r: seq<ReceiveChoice>)
    ensures r == SwapToChoices(SwapTargetsAsWritten(withdrawAsset, pool, poolLiquidity, supportedAskAssets)) + [BaseToken, Underlying]
    ensures pool.None? || CommonAskAssets(AskLists(Helpers.Infos(poolLiquidity), supportedAskAssets)) != [] ==>
              r == SwapToChoices(SwapTargets(withdrawAsset, pool, poolLiquidity, supportedAskAssets)) + [BaseToken, Underlying]
    ensures |r| >= 2 && r[|r| - 2] == BaseToken && r[|r| - 1] == Underlying
    ensures forall i :: 0 <= i < |r| - 2 ==> r[i].SwapTo?
  {
    var swapToChoices: seq<AssetInfo>;
    if pool.Some? {
      var poolTokens := Helpers.Infos(poolLiquidity);
      var perPoolToken := AskLists(poolTokens, supportedAskAssets);
      var supported: seq<AssetInfo> := [];
      var i := 0;
      while i < |perPoolToken|
        invariant 0 <= i <= |perPoolToken|
        invariant RunningIntersection(supported, perPoolToken[i..]) == RunningIntersection([], perPoolToken)
      {
        var askAssets := perPoolToken[i];
        assert perPoolToken[i..][0] == askAssets && perPoolToken[i..][1..] == perPoolToken[i + 1..];
        if supported == [] {
          supported := askAssets;
        } else {
          supported := Retain(supported, askAssets);
        }
        i := i + 1;
      }
      assert perPoolToken[i..] == [];
      if CommonAskAssets(perPoolToken) != [] {
        RunningIntersectionAgrees(perPoolToken);
      }
      swapToChoices := supported + poolTokens;
    } else {
      swapToChoices := supportedAskAssets(withdrawAsset);
    }
    r := SwapToChoices(swapToChoices) + [BaseToken, Underlying];
  }

  // ---------------------------------------------------------------- unlocking positions

  /** UnlockingPosition as the vault reports it (its release time is not part of this model). */
  datatype UnlockingPosition = UnlockingPosition(id: nat, owner: Addr, baseTokenAmount: nat)

  datatype UnlockingPositionsPerVault =
    UnlockingPositionsPerVault(vaultAddress: Addr, unlockingPositions: seq<UnlockingPosition>)

  /** The vault's answer to UnlockingPositions { owner, start_after, limit: None },
      by vault address, owner and start_after. */
  type PositionsAnswer = (Addr, Addr, Option<nat>) -> seq<UnlockingPosition>

  predicate Sorted(s: seq<nat>) {
    forall i, j :: 0 <= i < j < |s| ==> s[i] <= s[j]
  }

  function Insert(x: nat, s: seq<nat>): (r: seq<nat>)
    requires Sorted(s)
    ensures Sorted(r)
    ensures multiset(r) == multiset(s) + multiset{x}
    ensures r != [] && r[0] == if s != [] && s[0] < x then s[0] else x
  {
    if s == [] then [x]
    else if x <= s[0] then [x] + s
    else
      assert s == [s[0]] + s[1..];
      var rest := Insert(x, s[1..]);
      assert forall k :: 0 <= k < |rest| ==> s[0] <= rest[0] <= rest[k];
      [s[0]] + rest
  }

  /** `sort()` on the stored ids: ascending, the same ids as often as stored. */
  function SortIds(s: seq<nat>): (r: seq<nat>)
    ensures Sorted(r)
    ensures multiset(r) == multiset(s)
  {
    if s == [] then []
    else
      assert s == [s[0]] + s[1..];
      Insert(s[0], SortIds(s[1..]))
  }

  /** Sorting keeps exactly the stored ids. */
  lemma {:induction false} SortIdsSameIds(s: seq<nat>)
    ensures forall x :: x in SortIds(s) <==> x in s
  {
    var r := SortIds(s);
    forall x ensures x in r <==> x in s {
      assert x in r <==> x in multiset(r);
      assert x in s <==> x in multiset(s);
    }
  }

  /** The start_after passed to the vault: just below the smallest id, or
      None when there are no ids or the smallest is 0. */
  function StartAfter(sortedIds: seq<nat>): (r: Option<nat>)
    ensures r.Some? <==> sortedIds != [] && sortedIds[0] > 0
    ensures r.Some? ==> r.value + 1 == sortedIds[0]
  {
    if sortedIds != [] && sortedIds[0] > 0 then Some(sortedIds[0] - 1) else None
  }

  /** The vault is asked for positions strictly after start_after, and every
      stored id is strictly after it, so no stored id is skipped; None means
      there are no ids or one of them is 0. */
  lemma {:induction false} StartAfterBelowAll(ids: seq<nat>)
    ensures var start := StartAfter(SortIds(ids));
            && (start.Some? ==> forall x :: x in ids ==> start.value < x)
            && (start.None? ==> ids == [] || 0 in ids)
  {
    var sorted := SortIds(ids);
    SortIdsSameIds(ids);
    forall x | x in ids ensures sorted[0] <= x {
      var k :| 0 <= k < |sorted| && sorted[k] == x;
    }
    if sorted == [] {
      assert |multiset(ids)| == 0;
    } else {
      assert sorted[0] in sorted;
    }
  }

  /** The ids stored for (user, vault), none when the key is missing (`may_load`). */
  function StoredIds(ledger: map<(Addr, Addr), seq<nat>>, user: Addr, vaultAddress: Addr): seq<nat> {
    if (user, vaultAddress) in ledger then ledger[(user, vaultAddress)] else []
  }

  /** query_user_unlocking_positions_for_vault: the vault's positions for
      the contract from just below the user's smallest id, kept only when
      their id is one of the user's stored ids, in the vault's order: the
      result is a subsequence of the vault's answer that holds every answer
      entry with a stored id and no other. */
  function PositionsForVault(ledger: map<(Addr, Addr), seq<nat>>, contractAddr: Addr, vaultAddress: Addr,
                             user: Addr, vaultPositions: PositionsAnswer): (r: seq<UnlockingPosition>)
    ensures forall i :: 0 <= i < |r| ==> r[i].id in StoredIds(ledger, user, vaultAddress)
    ensures (user, vaultAddress) !in ledger ==> r == []
    ensures var answer := vaultPositions(vaultAddress, contractAddr, StartAfter(SortIds(StoredIds(ledger, user, vaultAddress))));
            && SubsequenceOf(r, answer)
            && (forall i :: 0 <= i < |r| ==> r[i] in answer)
            && forall i :: 0 <= i < |answer| && answer[i].id in StoredIds(ledger, user, vaultAddress) ==> answer[i] in r
  {
    var stored := StoredIds(ledger, user, vaultAddress);
    var userLockupIds := SortIds(stored);
    SortIdsSameIds(stored);
    var positions := vaultPositions(vaultAddress, contractAddr, StartAfter(userLockupIds));
    var kept := Filter(positions, (p: UnlockingPosition) => p.id in userLockupIds);
    assert kept != [] ==> kept[0].id in userLockupIds;
    FilterSubsequence(positions, (p: UnlockingPosition) => p.id in userLockupIds);
    kept
  }

  // ---------------------------------------------------------------- query_all_user_unlocking_positions

  /** The order of storage keys: lexicographic on characters. */
  predicate LexLess(a: string, b: string)
    decreases |a|
  {
    if a == [] then b != []
    else b != [] && (a[0] < b[0] || (a[0] == b[0] && LexLess(a[1..], b[1..])))
  }

  lemma {:induction false} LexLessIrreflexive(a: string)
    ensures !LexLess(a, a)
    decreases |a|
  {
    if a != [] {
      LexLessIrreflexive(a[1..]);
    }
  }

  lemma {:induction false} LexLessTransitive(a: string, b: string, c: string)
    requires LexLess(a, b) && LexLess(b, c)
    ensures LexLess(a, c)
    decreases |a|
  {
    if a != [] && a[0] == b[0] && b[0] == c[0] {
      LexLessTransitive(a[1..], b[1..], c[1..]);
    }
  }

  lemma {:induction false} LexLessTotal(a: string, b: string)
    requires a != b
    ensures LexLess(a, b) || LexLess(b, a)
    decreases |a|
  {
    if a != [] && b != [] && a[0] == b[0] {
      assert a == [a[0]] + a[1..] && b == [b[0]] + b[1..];
      LexLessTotal(a[1..], b[1..]);
    }
  }

  /** Every non-empty set of keys has a least one. */
  lemma {:induction false} LeastExists(s: set<string>)
    requires s != {}
    ensures exists m :: m in s && forall w :: w in s && w != m ==> LexLess(m, w)
    decreases s
  {
    var x :| x in s;
    if s != {x} {
      var rest := s - {x};
      LeastExists(rest);
      var m :| m in rest && forall w :: w in rest && w != m ==> LexLess(m, w);
      if LexLess(x, m) {
        forall w | w in s && w != x ensures LexLess(x, w) {
          if w != m {
            LexLessTransitive(x, m, w);
          }
        }
      } else {
        LexLessTotal(x, m);
        assert forall w :: w in s && w != m ==> LexLess(m, w);
      }
    }
  }

  /** The exclusive start bound of the range. */
  predicate After(startAfter: Option<Addr>, vaultAddress: Addr) {
    startAfter.None? || LexLess(startAfter.value, vaultAddress)
  }

  /** The vault of each entry, in order. */
  function VaultsOf(entries: seq<UnlockingPositionsPerVault>): (r: seq<Addr>)
    ensures |r| == |entries|
    ensures forall i :: 0 <= i < |r| ==> r[i] == entries[i].vaultAddress
  {
    seq(|entries|, i requires 0 <= i < |entries| => entries[i].vaultAddress)
  }

  /** The listed vaults ascend. */
  ghost predicate Ascending(r: seq<UnlockingPositionsPerVault>) {
    forall i, j :: 0 <= i < j < |r| ==> LexLess(r[i].vaultAddress, r[j].vaultAddress)
  }

  /** Every listed vault comes before every vault still to be listed. */
  ghost predicate AllBefore(r: seq<UnlockingPositionsPerVault>, remaining: set<Addr>) {
    forall i, v :: 0 <= i < |r| && v in remaining ==> LexLess(r[i].vaultAddress, v)
  }

  /** The candidates are split between the listed vaults and the remaining ones. */
  ghost predicate SplitBetween(candidates: set<Addr>, r: seq<UnlockingPositionsPerVault>, remaining: set<Addr>) {
    && remaining <= candidates
    && (forall i :: 0 <= i < |r| ==> r[i].vaultAddress in candidates)
    && (forall v :: v in candidates ==> (v in remaining <==> v !in VaultsOf(r)))
  }

  /** Listing the least remaining vault keeps the listing invariants. */
  lemma {:induction false} ListLeast(candidates: set<Addr>, r: seq<UnlockingPositionsPerVault>, remaining: set<Addr>,
                  entry: UnlockingPositionsPerVault)
    requires Ascending(r) && AllBefore(r, remaining) && SplitBetween(candidates, r, remaining)
    requires entry.vaultAddress in remaining
    requires forall w :: w in remaining && w != entry.vaultAddress ==> LexLess(entry.vaultAddress, w)
    ensures Ascending(r + [entry])
    ensures AllBefore(r + [entry], remaining - {entry.vaultAddress})
    ensures SplitBetween(candidates, r + [entry], remaining - {entry.vaultAddress})
  {
    var v := entry.vaultAddress;
    var r' := r + [entry];
    assert VaultsOf(r') == VaultsOf(r) + [v];
    forall i, j | 0 <= i < j < |r'| ensures LexLess(r'[i].vaultAddress, r'[j].vaultAddress) {
      if j < |r| {
        assert r'[i] == r[i] && r'[j] == r[j];
      } else {
        assert r'[i] == r[i];
      }
    }
    forall i, w | 0 <= i < |r'| && w in remaining - {v} ensures LexLess(r'[i].vaultAddress, w) {
      if i < |r| {
        assert r'[i] == r[i];
      }
    }
  }

  /** Every listed vault carries its per-vault positions answer. */
  ghost predicate Answered(r: seq<UnlockingPositionsPerVault>, ledger: map<(Addr, Addr), seq<nat>>,
                           contractAddr: Addr, user: Addr, vaultPositions: PositionsAnswer) {
    forall i :: 0 <= i < |r| ==>
      r[i].unlockingPositions == PositionsForVault(ledger, contractAddr, r[i].vaultAddress, user, vaultPositions)
  }

  /** Appending a vault with its own answer keeps every vault answered. */
  lemma {:induction false} AnsweredAppend(r: seq<UnlockingPositionsPerVault>, entry: UnlockingPositionsPerVault,
                                          ledger: map<(Addr, Addr), seq<nat>>, contractAddr: Addr, user: Addr,
                                          vaultPositions: PositionsAnswer)
    requires Answered(r, ledger, contractAddr, user, vaultPositions)
    requires entry.unlockingPositions == PositionsForVault(ledger, contractAddr, entry.vaultAddress, user, vaultPositions)
    ensures Answered(r + [entry], ledger, contractAddr, user, vaultPositions)
  {
    forall i | 0 <= i < |r + [entry]|
      ensures (r + [entry])[i].unlockingPositions
              == PositionsForVault(ledger, contractAddr, (r + [entry])[i].vaultAddress, user, vaultPositions)
    {
      if i < |r| {
        assert (r + [entry])[i] == r[i];
      }
    }
  }

  /** query_all_user_unlocking_positions. The ascending range over the
      user's vaults strictly after the start vault, cut at `limit` (10 by
      default), is taken one least remaining key at a time; each listed vault
      gets exactly its per-vault positions answer. */
  method QueryAllUserUnlockingPositions(ledger: map<(Addr, Addr), seq<nat>>, contractAddr: Addr, user: Addr,
                                        startAfterVault: Option<Addr>, limit: Option<nat>,
                                        vaultPositions: PositionsAnswer)
    returns (r: seq<UnlockingPositionsPerVault>)
    ensures |r| <= limit.GetOr(DEFAULT_LIMIT)
    ensures forall i :: 0 <= i < |r| ==> (user, r[i].vaultAddress) in ledger && After(startAfterVault, r[i].vaultAddress)
    ensures forall i, j :: 0 <= i < j < |r| ==> LexLess(r[i].vaultAddress, r[j].vaultAddress)
    ensures forall v :: (user, v) in ledger && After(startAfterVault, v) && v !in VaultsOf(r) ==>
              |r| == limit.GetOr(DEFAULT_LIMIT) && forall i :: 0 <= i < |r| ==> LexLess(r[i].vaultAddress, v)
    ensures forall i :: 0 <= i < |r| ==>
              r[i].unlockingPositions == PositionsForVault(ledger, contractAddr, r[i].vaultAddress, user, vaultPositions)
  {
    var n := limit.GetOr(DEFAULT_LIMIT);
    var remaining := set k | k in ledger && k.0 == user && After(startAfterVault, k.1) :: k.1;
    ghost var candidates := remaining;
    assert forall v :: v in candidates <==> (user, v) in ledger && After(startAfterVault, v) by {
      forall v | (user, v) in ledger && After(startAfterVault, v) ensures v in candidates {
        var k := (user, v);
        assert k.1 == v;
      }
    }
    r := [];
    while |r| < n && remaining != {}
      invariant |r| <= n
      invariant Ascending(r) && AllBefore(r, remaining) && SplitBetween(candidates, r, remaining)
      invariant Answered(r, ledger, contractAddr, user, vaultPositions)
      decreases |remaining|
    {
      LeastExists(remaining);
      var v :| v in remaining && forall w :: w in remaining && w != v ==> LexLess(v, w);
      var entry := UnlockingPositionsPerVault(v, PositionsForVault(ledger, contractAddr, v, user, vaultPositions));
      ListLeast(candidates, r, remaining, entry);
      AnsweredAppend(r, entry, ledger, contractAddr, user, vaultPositions);
      r := r + [entry];
      remaining := remaining - {v};
    }
  }
}
