/**
 * The key-value store behind the hub's store traits. Every namespace
 * (`Item` or `Map`) of the storage crate is one field. The namespaces are
 * grouped as the store traits group them (dApp, referral, collect); each
 * group is a value (`DappState`, ...) with pure reads and writes, and a
 * class (`DappStore`, ...) whose methods write the fields in place.
 */
module Storage {
  import opened Wrappers
  import opened Common
  import opened ReferralCode

  datatype StoreError = NotFound | IndexOutOfBounds

  /** A (dApp, referral code) pair, the key of the per-referrer namespaces. */
  type Pair = (Id, Code)

  /** A counter namespace read with `unwrap_or(0)`. */
  function Count<K>(m: map<K, nat>, k: K): nat
  {
    if k in m then m[k] else 0
  }

  /** `may_load` */
  function Lookup<K, V>(m: map<K, V>, k: K): (r: Option<V>)
    ensures r.Some? <==> k in m
    ensures r.Some? ==> r.value == m[k]
  {
    if k in m then Some(m[k]) else None
  }

  /** `may_load(..)?.ok_or(Error::NotFound)` */
  function Require<K, V>(m: map<K, V>, k: K): (r: Result<V, StoreError>)
    ensures r.Ok? <==> k in m
    ensures r.Ok? ==> r.value == m[k]
  {
    if k in m then Ok(m[k]) else Err(NotFound)
  }

  /** The dApp namespaces. */
  datatype DappState = DappState(
    lastIndex: Option<nat>,
    index: map<nat, Id>,
    reverseIndex: map<Id, nat>,
    names: map<Id, string>,
    percent: map<Id, NonZeroPercent>,
    collector: map<Id, Id>,
    repoUrl: map<Id, string>,
    rewardsPot: map<Id, Id>)
  {
    function DappExists(id: Id): bool { id in names }

    /**
     * The percent namespace holds `to_u8` of a `NonZeroPercent` and is read
     * back through `NonZeroPercent::new(..).unwrap()`; by
     * `Common.PercentRoundTrip` that is the stored percentage itself.
     */
    function Percent(id: Id): Result<NonZeroPercent, StoreError> { Require(percent, id) }

    function Collector(id: Id): Result<Id, StoreError> { Require(collector, id) }

    function HasRewardsPot(id: Id): bool { id in rewardsPot }

    function RewardsPot(id: Id): Result<Id, StoreError> { Require(rewardsPot, id) }

    function DappName(id: Id): Option<string> { Lookup(names, id) }

    function DappRepoUrl(id: Id): Option<string> { Lookup(repoUrl, id) }

    /** The index a first-time id receives: one past the last, or 0 for the first dApp. */
    function NextIndex(): nat
    {
      match lastIndex
      case None => 0
      case Some(last) => last + 1
    }

    /** A first-time id is indexed in registration order; the name is always (re)written. */
    function AddDapp(id: Id, name: string): DappState
    {
      var indexed :=
        if id in reverseIndex then this
        else this.(index := index[NextIndex() := id],
                   reverseIndex := reverseIndex[id := NextIndex()],
                   lastIndex := Some(NextIndex()));
      indexed.(names := indexed.names[id := name])
    }

    /** Only the name is removed: index, percent, collector and pot stay. */
    function RemoveDapp(id: Id): DappState { this.(names := names - {id}) }

    function SetPercent(id: Id, p: NonZeroPercent): DappState { this.(percent := percent[id := p]) }

    function SetCollector(id: Id, c: Id): DappState { this.(collector := collector[id := c]) }

    function SetRepoUrl(id: Id, url: string): DappState { this.(repoUrl := repoUrl[id := url]) }

    function SetRewardsPot(id: Id, pot: Id): DappState { this.(rewardsPot := rewardsPot[id := pot]) }
  }

  /** The referral namespaces. */
  datatype ReferralState = ReferralState(
    codes: map<Code, Id>,
    codeOwners: map<Id, Code>,
    latest: Option<Code>,
    invocationCounts: map<Pair, nat>,
    totalInvocationCounts: map<Id, nat>,
    discreteReferrers: map<Id, nat>,
    totalEarnings: map<Code, NonZeroU128>,
    dappEarnings: map<Pair, NonZeroU128>,
    contributions: map<Id, NonZeroU128>)
  {
    function CodeExists(code: Code): bool { code in codes }

    function OwnerExists(owner: Id): bool { owner in codeOwners }

    function OwnerOf(code: Code): Option<Id> { Lookup(codes, code) }

    function Latest(): Option<Code> { latest }

    function TotalEarnings(code: Code): Option<NonZeroU128> { Lookup(totalEarnings, code) }

    function DappEarnings(dapp: Id, code: Code): Option<NonZeroU128> { Lookup(dappEarnings, (dapp, code)) }

    function DappContributions(dapp: Id): Option<NonZeroU128> { Lookup(contributions, dapp) }

    /** The code registered to `referrer`, read from the owner-to-code namespace. */
    function ReferralCodeOf(referrer: Id): Option<Code> { Lookup(codeOwners, referrer) }

    function DappTotalInvocations(id: Id): nat { Count(totalInvocationCounts, id) }

    function DappDiscreteReferrers(id: Id): nat { Count(discreteReferrers, id) }

    function SetLatest(code: Code): ReferralState { this.(latest := Some(code)) }

    /** Writes both directions; the previous owner's owner-to-code entry is left in place. */
    function SetCodeOwner(code: Code, owner: Id): ReferralState
    {
      this.(codes := codes[code := owner], codeOwners := codeOwners[owner := code])
    }

    /** Counts one invocation of `dapp` through `code`; the first one of the pair adds a discrete referrer. */
    function IncrementInvocations(dapp: Id, code: Code): ReferralState
    {
      var current := Count(invocationCounts, (dapp, code));
      var counted :=
        if current == 0 then this.(discreteReferrers := discreteReferrers[dapp := Count(discreteReferrers, dapp) + 1])
        else this;
      counted.(invocationCounts := invocationCounts[(dapp, code) := current + 1],
               totalInvocationCounts := totalInvocationCounts[dapp := Count(totalInvocationCounts, dapp) + 1])
    }

    function SetTotalEarnings(code: Code, total: NonZeroU128): ReferralState
    {
      this.(totalEarnings := totalEarnings[code := total])
    }

    function SetDappEarnings(dapp: Id, code: Code, total: NonZeroU128): ReferralState
    {
      this.(dappEarnings := dappEarnings[(dapp, code) := total])
    }

    function SetDappContributions(dapp: Id, total: NonZeroU128): ReferralState
    {
      this.(contributions := contributions[dapp := total])
    }
  }

  /** The collection namespaces. */
  datatype CollectState = CollectState(
    referrerTotal: map<Code, NonZeroU128>,
    referrerDapp: map<Pair, NonZeroU128>,
    dappTotal: map<Id, NonZeroU128>)
  {
    function ReferrerTotalCollected(code: Code): Option<NonZeroU128> { Lookup(referrerTotal, code) }

    function ReferrerDappCollected(dapp: Id, code: Code): Option<NonZeroU128> { Lookup(referrerDapp, (dapp, code)) }

    function DappTotalCollected(dapp: Id): Option<NonZeroU128> { Lookup(dappTotal, dapp) }

    function SetReferrerTotalCollected(code: Code, total: NonZeroU128): CollectState
    {
      this.(referrerTotal := referrerTotal[code := total])
    }

    function SetReferrerDappCollected(dapp: Id, code: Code, total: NonZeroU128): CollectState
    {
      this.(referrerDapp := referrerDapp[(dapp, code) := total])
    }

    function SetDappTotalCollected(dapp: Id, total: NonZeroU128): CollectState
    {
      this.(dappTotal := dappTotal[dapp := total])
    }
  }

  /** The value of the whole store. */
  datatype Ledger = Ledger(dapp: DappState, referral: ReferralState, collect: CollectState)
  {
    /** `total_dapp_count`: the 0-based last index plus one, or 0 if no dApp was ever added. */
    function TotalDappCount(): (n: nat)
      ensures n == 0 <==> dapp.lastIndex.None?
    {
      match dapp.lastIndex
      case None => 0
      case Some(last) => last + 1
    }

    /** The ids at indices `lo..=hi`, in index order; `NotFound` for a missing index. */
    function IdsBetween(lo: nat, hi: nat): Result<seq<Id>, StoreError>
      decreases hi + 1 - lo
    {
      if lo > hi then Ok([])
      else if lo !in dapp.index then Err(NotFound)
      else match IdsBetween(lo + 1, hi)
        case Err(e) => Err(e)
        case Ok(rest) => Ok([dapp.index[lo]] + rest)
    }

    /** The last index `all_dapp_ids` reads from `start` with `limit` (itself included). */
    static function PageEnd(start: nat, limit: Option<nat>, last: nat): nat
    {
      match limit
      case Some(l) => if start + l < last then start + l else last
      case None => last
    }

    /** `all_dapp_ids`: the ids with registration index in `start..=min(start + limit, last)`. */
    function AllDappIds(start: Option<nat>, limit: Option<nat>): Result<seq<Id>, StoreError>
    {
      match dapp.lastIndex
      case None => Ok([])
      case Some(last) =>
        var s := start.GetOr(0);
        if s > last then Err(IndexOutOfBounds)
        else IdsBetween(s, PageEnd(s, limit, last))
    }
  }

  /** `add_dapp` of a first-time id: the next index in both directions, the index advanced, the name written. */
  lemma AddDappNewId(d: DappState, id: Id, name: string)
    requires id !in d.reverseIndex
    ensures var d' := d.AddDapp(id, name);
      && d'.reverseIndex == d.reverseIndex[id := d.NextIndex()]
      && d'.index == d.index[d.NextIndex() := id]
      && d'.lastIndex == Some(d.NextIndex())
      && d'.NextIndex() == d.NextIndex() + 1
      && d'.DappName(id) == Some(name)
      && d' == d.(lastIndex := d'.lastIndex, index := d'.index, reverseIndex := d'.reverseIndex, names := d.names[id := name])
  {
  }

  /** `add_dapp` of a known id keeps its index and only rewrites its name. */
  lemma AddDappKnownId(d: DappState, id: Id, name: string)
    requires id in d.reverseIndex
    ensures d.AddDapp(id, name) == d.(names := d.names[id := name])
  {
  }

  /** `remove_dapp`: the dApp no longer exists, but its percent, collector and pot stay readable. */
  lemma RemoveDappKeepsRecords(d: DappState, id: Id)
    ensures var d' := d.RemoveDapp(id);
      && !d'.DappExists(id)
      && (forall other :: other != id ==> (d'.DappExists(other) <==> d.DappExists(other)))
      && d'.Percent(id) == d.Percent(id)
      && d'.Collector(id) == d.Collector(id)
      && d'.RewardsPot(id) == d.RewardsPot(id)
      && d'.reverseIndex == d.reverseIndex && d'.index == d.index
  {
  }

  /** `set_code_owner` writes both directions and touches no other code or owner. */
  lemma SetCodeOwnerBothWays(r: ReferralState, code: Code, owner: Id)
    ensures var r' := r.SetCodeOwner(code, owner);
      && r'.OwnerOf(code) == Some(owner)
      && r'.ReferralCodeOf(owner) == Some(code)
      && r'.OwnerExists(owner)
      && (forall c :: c != code ==> r'.OwnerOf(c) == r.OwnerOf(c))
      // an earlier owner of `code` keeps its owner-to-code entry
      && (forall o :: o != owner ==> r'.ReferralCodeOf(o) == r.ReferralCodeOf(o))
  {
  }

  /**
   * `increment_invocations`: one more invocation of the pair and of the dApp,
   * and one more discrete referrer exactly when the pair was never invoked.
   */
  lemma IncrementInvocationsCounts(r: ReferralState, dapp: Id, code: Code)
    ensures var r' := r.IncrementInvocations(dapp, code);
      && Count(r'.invocationCounts, (dapp, code)) == Count(r.invocationCounts, (dapp, code)) + 1
      && r'.DappTotalInvocations(dapp) == r.DappTotalInvocations(dapp) + 1
      && r'.DappDiscreteReferrers(dapp) ==
           r.DappDiscreteReferrers(dapp) + (if Count(r.invocationCounts, (dapp, code)) == 0 then 1 else 0)
  {
    var current := Count(r.invocationCounts, (dapp, code));
    var r' := r.IncrementInvocations(dapp, code);
    assert r'.invocationCounts == r.invocationCounts[(dapp, code) := current + 1];
    assert r'.totalInvocationCounts == r.totalInvocationCounts[dapp := r.DappTotalInvocations(dapp) + 1];
    if current == 0 {
      assert r'.discreteReferrers == r.discreteReferrers[dapp := r.DappDiscreteReferrers(dapp) + 1];
    } else {
      assert r'.discreteReferrers == r.discreteReferrers;
    }
  }

  /** `increment_invocations` changes no other pair's or dApp's counter and no other namespace. */
  lemma IncrementInvocationsLocal(r: ReferralState, dapp: Id, code: Code)
    ensures var r' := r.IncrementInvocations(dapp, code);
      && (forall k :: k != (dapp, code) ==> Count(r'.invocationCounts, k) == Count(r.invocationCounts, k))
      && (forall d :: d != dapp ==> r'.DappTotalInvocations(d) == r.DappTotalInvocations(d))
      && (forall d :: d != dapp ==> r'.DappDiscreteReferrers(d) == r.DappDiscreteReferrers(d))
      && r' == r.(invocationCounts := r'.invocationCounts, totalInvocationCounts := r'.totalInvocationCounts,
                  discreteReferrers := r'.discreteReferrers)
  {
    var current := Count(r.invocationCounts, (dapp, code));
    var r' := r.IncrementInvocations(dapp, code);
    assert r'.invocationCounts == r.invocationCounts[(dapp, code) := current + 1];
    assert r'.totalInvocationCounts == r.totalInvocationCounts[dapp := r.DappTotalInvocations(dapp) + 1];
    var discrete := if current == 0 then r.discreteReferrers[dapp := r.DappDiscreteReferrers(dapp) + 1] else r.discreteReferrers;
    assert r'.discreteReferrers == discrete;
    assert r' == r.(invocationCounts := r'.invocationCounts, totalInvocationCounts := r'.totalInvocationCounts,
                    discreteReferrers := discrete);
    forall d | d != dapp ensures r'.DappDiscreteReferrers(d) == r.DappDiscreteReferrers(d) {
      assert Count(discrete, d) == Count(r.discreteReferrers, d);
    }
  }

  /** Adding a first-time id adds one to `total_dapp_count`; re-adding a known id leaves it. */
  lemma TotalDappCountAfterAdd(l: Ledger, id: Id, name: string)
    ensures var l' := l.(dapp := l.dapp.AddDapp(id, name));
      l'.TotalDappCount() == l.TotalDappCount() + (if id in l.dapp.reverseIndex then 0 else 1)
  {
  }

  /** The ids at `lo..=hi` are read exactly when every index in that range is present, in index order. */
  lemma {:induction false} IdsBetweenIndexed(l: Ledger, lo: nat, hi: nat)
    ensures l.IdsBetween(lo, hi).Ok? <==> forall i: nat :: lo <= i <= hi ==> i in l.dapp.index
    ensures l.IdsBetween(lo, hi).Err? ==> l.IdsBetween(lo, hi).error == NotFound
    ensures l.IdsBetween(lo, hi).Ok? ==>
      var ids := l.IdsBetween(lo, hi).value;
      && |ids| == (if lo <= hi then hi + 1 - lo else 0)
      && forall k :: 0 <= k < |ids| ==> ids[k] == l.dapp.index[lo + k]
    decreases hi + 1 - lo
  {
    if lo <= hi {
      IdsBetweenIndexed(l, lo + 1, hi);
      if lo in l.dapp.index && l.IdsBetween(lo + 1, hi).Ok? {
        var ids := l.IdsBetween(lo, hi).value;
        forall k | 0 <= k < |ids| ensures ids[k] == l.dapp.index[lo + k] {
          if k > 0 {
            assert ids[k] == l.IdsBetween(lo + 1, hi).value[k - 1];
          }
        }
      }
    }
  }

  /**
   * `all_dapp_ids` over a dense index: nothing before the first dApp,
   * `IndexOutOfBounds` past the last index, and otherwise the ids at
   * `start..=min(start + limit, last)` in registration order.
   */
  lemma AllDappIdsPage(l: Ledger, start: Option<nat>, limit: Option<nat>)
    requires l.dapp.lastIndex.Some? ==> forall i: nat :: i <= l.dapp.lastIndex.value ==> i in l.dapp.index
    ensures l.dapp.lastIndex.None? ==> l.AllDappIds(start, limit) == Ok([])
    ensures l.dapp.lastIndex.Some? && start.GetOr(0) > l.dapp.lastIndex.value ==>
      l.AllDappIds(start, limit) == Err(IndexOutOfBounds)
    ensures l.dapp.lastIndex.Some? && start.GetOr(0) <= l.dapp.lastIndex.value ==>
      var s := start.GetOr(0);
      var end := Ledger.PageEnd(s, limit, l.dapp.lastIndex.value);
      && l.AllDappIds(start, limit).Ok?
      && s <= end <= l.dapp.lastIndex.value
      && |l.AllDappIds(start, limit).value| == end + 1 - s
      && forall k :: 0 <= k < end + 1 - s ==> l.AllDappIds(start, limit).value[k] == l.dapp.index[s + k]
  {
    if l.dapp.lastIndex.Some? {
      var s := start.GetOr(0);
      IdsBetweenIndexed(l, s, Ledger.PageEnd(s, limit, l.dapp.lastIndex.value));
    }
  }

  /** With neither a start nor a limit, `all_dapp_ids` lists `total_dapp_count` ids. */
  lemma AllDappIdsEverything(l: Ledger)
    requires l.dapp.lastIndex.Some? ==> forall i: nat :: i <= l.dapp.lastIndex.value ==> i in l.dapp.index
    ensures l.AllDappIds(None, None).Ok?
    ensures |l.AllDappIds(None, None).value| == l.TotalDappCount()
    ensures forall k :: 0 <= k < l.TotalDappCount() ==> l.AllDappIds(None, None).value[k] == l.dapp.index[k]
  {
    AllDappIdsPage(l, None, None);
  }

  function EmptyLedger(): (l: Ledger)
    ensures l.TotalDappCount() == 0 && l.referral.latest.None?
  {
    Ledger(DappState(None, map[], map[], map[], map[], map[], map[], map[]),
           ReferralState(map[], map[], None, map[], map[], map[], map[], map[], map[]),
           CollectState(map[], map[], map[]))
  }

  class DappStore {
    var lastIndex: Option<nat>
    var index: map<nat, Id>
    var reverseIndex: map<Id, nat>
    var names: map<Id, string>
    var percent: map<Id, NonZeroPercent>
    var collector: map<Id, Id>
    var repoUrl: map<Id, string>
    var rewardsPot: map<Id, Id>

    function State(): DappState
      reads this
    {
      DappState(lastIndex, index, reverseIndex, names, percent, collector, repoUrl, rewardsPot)
    }

    constructor ()
      ensures State() == EmptyLedger().dapp
    {
      lastIndex, index, reverseIndex, names := None, map[], map[], map[];
      percent, collector, repoUrl, rewardsPot := map[], map[], map[], map[];
    }

    method Restore(s: DappState)
      modifies this
      ensures State() == s
    {
      lastIndex, index, reverseIndex, names := s.lastIndex, s.index, s.reverseIndex, s.names;
      percent, collector, repoUrl, rewardsPot := s.percent, s.collector, s.repoUrl, s.rewardsPot;
    }

    method AddDapp(id: Id, name: string)
      modifies this
      ensures State() == old(State()).AddDapp(id, name)
    {
      if id !in reverseIndex {
        var next := match lastIndex case None => 0 case Some(last) => last + 1;
        index := index[next := id];
        reverseIndex := reverseIndex[id := next];
        lastIndex := Some(next);
      }
      names := names[id := name];
    }

    method RemoveDapp(id: Id)
      modifies this
      ensures State() == old(State()).RemoveDapp(id)
    {
      names := names - {id};
    }

    method SetPercent(id: Id, p: NonZeroPercent)
      modifies this
      ensures State() == old(State()).SetPercent(id, p)
    {
      percent := percent[id := p];
    }

    method SetCollector(id: Id, c: Id)
      modifies this
      ensures State() == old(State()).SetCollector(id, c)
    {
      collector := collector[id := c];
    }

    method SetRepoUrl(id: Id, url: string)
      modifies this
      ensures State() == old(State()).SetRepoUrl(id, url)
    {
      repoUrl := repoUrl[id := url];
    }

    method SetRewardsPot(id: Id, pot: Id)
      modifies this
      ensures State() == old(State()).SetRewardsPot(id, pot)
    {
      rewardsPot := rewardsPot[id := pot];
    }
  }

  class ReferralStore {
    var codes: map<Code, Id>
    var codeOwners: map<Id, Code>
    var latest: Option<Code>
    var invocationCounts: map<Pair, nat>
    var totalInvocationCounts: map<Id, nat>
    var discreteReferrers: map<Id, nat>
    var totalEarnings: map<Code, NonZeroU128>
    var dappEarnings: map<Pair, NonZeroU128>
    var contributions: map<Id, NonZeroU128>

    function State(): ReferralState
      reads this
    {
      ReferralState(codes, codeOwners, latest, invocationCounts, totalInvocationCounts, discreteReferrers,
                    totalEarnings, dappEarnings, contributions)
    }

    constructor ()
      ensures State() == EmptyLedger().referral
    {
      codes, codeOwners, latest := map[], map[], None;
      invocationCounts, totalInvocationCounts, discreteReferrers := map[], map[], map[];
      totalEarnings, dappEarnings, contributions := map[], map[], map[];
    }

    method Restore(s: ReferralState)
      modifies this
      ensures State() == s
    {
      codes, codeOwners, latest := s.codes, s.codeOwners, s.latest;
      invocationCounts, totalInvocationCounts, discreteReferrers := s.invocationCounts, s.totalInvocationCounts, s.discreteReferrers;
      totalEarnings, dappEarnings, contributions := s.totalEarnings, s.dappEarnings, s.contributions;
    }

    method SetLatest(code: Code)
      modifies this
      ensures State() == old(State()).SetLatest(code)
    {
      latest := Some(code);
    }

    method SetCodeOwner(code: Code, owner: Id)
      modifies this
      ensures State() == old(State()).SetCodeOwner(code, owner)
    {
      codes := codes[code := owner];
      codeOwners := codeOwners[owner := code];
    }

    method IncrementInvocations(dapp: Id, code: Code)
      modifies this
      ensures State() == old(State()).IncrementInvocations(dapp, code)
    {
      var currentPerReferrer := Count(invocationCounts, (dapp, code));
      if currentPerReferrer == 0 {
        var discrete := Count(discreteReferrers, dapp);
        discreteReferrers := discreteReferrers[dapp := discrete + 1];
      }
      var currentTotal := Count(totalInvocationCounts, dapp);
      invocationCounts := invocationCounts[(dapp, code) := currentPerReferrer + 1];
      totalInvocationCounts := totalInvocationCounts[dapp := currentTotal + 1];
    }

    method SetTotalEarnings(code: Code, total: NonZeroU128)
      modifies this
      ensures State() == old(State()).SetTotalEarnings(code, total)
    {
      totalEarnings := totalEarnings[code := total];
    }

    method SetDappEarnings(dapp: Id, code: Code, total: NonZeroU128)
      modifies this
      ensures State() == old(State()).SetDappEarnings(dapp, code, total)
    {
      dappEarnings := dappEarnings[(dapp, code) := total];
    }

    method SetDappContributions(dapp: Id, total: NonZeroU128)
      modifies this
      ensures State() == old(State()).SetDappContributions(dapp, total)
    {
      contributions := contributions[dapp := total];
    }
  }

  class CollectStore {
    var referrerTotal: map<Code, NonZeroU128>
    var referrerDapp: map<Pair, NonZeroU128>
    var dappTotal: map<Id, NonZeroU128>

    function State(): CollectState
      reads this
    {
      CollectState(referrerTotal, referrerDapp, dappTotal)
    }

    constructor ()
      ensures State() == EmptyLedger().collect
    {
      referrerTotal, referrerDapp, dappTotal := map[], map[], map[];
    }

    method Restore(s: CollectState)
      modifies this
      ensures State() == s
    {
      referrerTotal, referrerDapp, dappTotal := s.referrerTotal, s.referrerDapp, s.dappTotal;
    }

    method SetReferrerTotalCollected(code: Code, total: NonZeroU128)
      modifies this
      ensures State() == old(State()).SetReferrerTotalCollected(code, total)
    {
      referrerTotal := referrerTotal[code := total];
    }

    method SetReferrerDappCollected(dapp: Id, code: Code, total: NonZeroU128)
      modifies this
      ensures State() == old(State()).SetReferrerDappCollected(dapp, code, total)
    {
      referrerDapp := referrerDapp[(dapp, code) := total];
    }

    method SetDappTotalCollected(dapp: Id, total: NonZeroU128)
      modifies this
      ensures State() == old(State()).SetDappTotalCollected(dapp, total)
    {
      dappTotal := dappTotal[dapp := total];
    }
  }

  /** The contract's storage: the three namespace groups. */
  class Store {
    const dapp: DappStore
    const referral: ReferralStore
    const collect: CollectStore

    function State(): Ledger
      reads dapp, referral, collect
    {
      Ledger(dapp.State(), referral.State(), collect.State())
    }

    constructor ()
      ensures State() == EmptyLedger()
      ensures fresh(dapp) && fresh(referral) && fresh(collect)
    {
      dapp := new DappStore();
      referral := new ReferralStore();
      collect := new CollectStore();
    }

    /** Overwrites every namespace with `l` (the host discarding a failed transaction). */
    method Restore(l: Ledger)
      modifies dapp, referral, collect
      ensures State() == l
    {
      dapp.Restore(l.dapp);
      referral.Restore(l.referral);
      collect.Restore(l.collect);
    }
  }
}
