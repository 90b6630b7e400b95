/**
 * Invariants of the hub's store that every committed message preserves:
 * registration indices are dense and two-way, codes are issued in
 * increasing order and never reused, the invocation counters agree with
 * each other, a dApp's earnings through a code never exceed either running
 * total they were added to, and a referrer never collected more than it
 * earned.
 *
 * Each part of the invariant is a predicate over the namespaces it reads
 * and nothing else, so a write to other namespaces keeps it unchanged.
 */
module Invariants {
  import opened Wrappers
  import opened Common
  import opened ReferralCode
  import opened Storage
  import opened External
  import opened Errors
  import opened Msg
  import Dapp
  import Referral
  import Collection
  import HubCollect
  import Hub

  /** The registration index is dense from 0 to the last index and is inverted by the reverse index. */
  ghost predicate IndexOk(last: Option<nat>, index: map<nat, Id>, reverse: map<Id, nat>)
  {
    && (last.None? ==> index == map[] && reverse == map[])
    && (last.Some? ==> forall i: nat :: i in index <==> i <= last.value)
    && (forall id :: id in reverse ==> reverse[id] in index && index[reverse[id]] == id)
    && (forall i :: i in index ==> index[i] in reverse && reverse[index[i]] == i)
  }

  /**
   * Every registered dApp was indexed; every indexed dApp keeps a percent and
   * a collector; percents and pots are only ever stored for indexed dApps.
   */
  ghost predicate CompleteOk(names: map<Id, string>, reverse: map<Id, nat>, percent: map<Id, NonZeroPercent>,
                             collector: map<Id, Id>, pots: map<Id, Id>)
  {
    && (forall id :: id in names ==> id in reverse)
    && (forall id :: id in reverse ==> id in percent && id in collector)
    && (forall id :: id in percent ==> id in reverse)
    && (forall id :: id in pots ==> id in reverse)
  }

  ghost predicate DappValid(d: DappState)
  {
    && IndexOk(d.lastIndex, d.index, d.reverseIndex)
    && CompleteOk(d.names, d.reverseIndex, d.percent, d.collector, d.rewardsPot)
  }

  /** Codes lie in `1..=latest`; owners and codes point into each other's namespace. */
  ghost predicate CodesOk(codes: map<Code, Id>, owners: map<Id, Code>, latest: Option<Code>)
  {
    && (latest.None? ==> codes == map[])
    && (latest.Some? ==> forall c :: c in codes ==> 1 <= c.value <= latest.value.value)
    && (forall c :: c in codes ==> codes[c] in owners)
    && (forall o :: o in owners ==> owners[o] in codes)
  }

  /** The (dApp, code) pairs through which `dapp` was invoked. */
  ghost function ReferredPairs(counts: map<Pair, nat>, dapp: Id): set<Pair>
  {
    set k | k in counts && k.0 == dapp
  }

  /**
   * A pair is counted once it is invoked; the discrete referrers of a dApp
   * are the codes it was invoked through, and never more than its invocations.
   */
  ghost predicate CountsOk(counts: map<Pair, nat>, totals: map<Id, nat>, discrete: map<Id, nat>)
  {
    && (forall k :: k in counts ==> counts[k] >= 1)
    && (forall d :: Count(discrete, d) == |ReferredPairs(counts, d)|)
    && (forall d :: Count(discrete, d) <= Count(totals, d))
  }

  /** A dApp's earnings through a code are part of both the code's total and the dApp's contributions. */
  ghost predicate EarningsOk(codes: map<Code, Id>, totals: map<Code, NonZeroU128>,
                             earned: map<Pair, NonZeroU128>, contributions: map<Id, NonZeroU128>)
  {
    forall k :: k in earned ==>
      && k.1 in codes
      && k.1 in totals && earned[k] <= totals[k.1]
      && k.0 in contributions && earned[k] <= contributions[k.0]
  }

  ghost predicate ReferralValid(r: ReferralState)
  {
    && CodesOk(r.codes, r.codeOwners, r.latest)
    && CountsOk(r.invocationCounts, r.totalInvocationCounts, r.discreteReferrers)
    && EarningsOk(r.codes, r.totalEarnings, r.dappEarnings, r.contributions)
  }

  /** A referrer has never collected more on a dApp than it earned there. */
  ghost predicate CollectedOk(collected: map<Pair, NonZeroU128>, earned: map<Pair, NonZeroU128>)
  {
    forall k :: k in collected ==> k in earned && collected[k] <= earned[k]
  }

  ghost predicate Valid(l: Ledger)
  {
    && DappValid(l.dapp)
    && ReferralValid(l.referral)
    && CollectedOk(l.collect.referrerDapp, l.referral.dappEarnings)
  }

  /** No amount in `m` decreases or disappears in `m'`. */
  ghost predicate Grows<K>(m: map<K, NonZeroU128>, m': map<K, NonZeroU128>)
  {
    forall k :: k in m ==> k in m' && m[k] <= m'[k]
  }

  lemma EmptyLedgerValid()
    ensures Valid(EmptyLedger())
  {
    var r := EmptyLedger().referral;
    forall d ensures Count(r.discreteReferrers, d) == |ReferredPairs(r.invocationCounts, d)| {
      assert ReferredPairs(r.invocationCounts, d) == {};
    }
  }

  // ---- the dApp namespaces

  /** `add_dapp` of a first-time id keeps the registration index dense and two-way. */
  lemma AddNewDappIndexes(d: DappState, id: Id, name: string)
    requires IndexOk(d.lastIndex, d.index, d.reverseIndex) && id !in d.reverseIndex
    ensures var d' := d.AddDapp(id, name); IndexOk(d'.lastIndex, d'.index, d'.reverseIndex)
  {
    AddDappNewId(d, id, name);
    var n := d.NextIndex();
    assert n !in d.index by {
      if d.lastIndex.Some? {
        assert !(n <= d.lastIndex.value);
      }
    }
  }

  lemma RegisterDappPreservesValid(l: Ledger, chain: Chain, sender: Id, name: string, percent: NonZeroPercent, collector: Id)
    requires Valid(l)
    ensures Valid(Commit(l, Dapp.RegisterStep(l, chain, sender, name, percent, collector)))
  {
    var s := Dapp.RegisterStep(l, chain, sender, name, percent, collector);
    if s.result.Ok? {
      var d := l.dapp.AddDapp(sender, name);
      if sender in l.dapp.reverseIndex {
        AddDappKnownId(l.dapp, sender, name);
      } else {
        AddDappNewId(l.dapp, sender, name);
        AddNewDappIndexes(l.dapp, sender, name);
      }
      assert s.ledger == l.(dapp := d.(percent := d.percent[sender := percent], collector := d.collector[sender := collector]));
      assert sender in d.reverseIndex;
    }
  }

  /** A pot is only stored for a registered, hence indexed, dApp. */
  lemma SetRewardsPotPreservesValid(l: Ledger, chain: Chain, dapp: Id, pot: Id)
    requires Valid(l)
    ensures Valid(Commit(l, Dapp.SetRewardsPotStep(l, chain, dapp, pot)))
  {
  }

  /** Deregistering removes only the name. */
  lemma DeregisterPreservesValid(l: Ledger, sender: Id, dapp: Id, admin: Id, recipient: Id)
    requires Valid(l)
    ensures Valid(Commit(l, Dapp.DeregisterStep(l, sender, dapp, admin, recipient)))
  {
  }

  /** Configuring overwrites the fields of a registered, hence indexed, dApp. */
  lemma ConfigurePreservesValid(l: Ledger, sender: Id, dapp: Id, m: Dapp.Metadata)
    requires Valid(l)
    ensures Valid(Commit(l, Dapp.ConfigureStep(l, sender, dapp, m)))
  {
    var s := Dapp.ConfigureStep(l, sender, dapp, m);
    if s.result.Ok? {
      assert dapp in l.dapp.reverseIndex;
    }
  }

  // ---- the referral namespaces

  /** The code `register` issues is above every code issued so far. */
  lemma NextCodeIsFresh(r: ReferralState)
    requires CodesOk(r.codes, r.codeOwners, r.latest)
    ensures forall c :: c in r.codes ==> c.value < Referral.NextCode(r).value
    ensures Referral.NextCode(r) !in r.codes
  {
  }

  /** Issuing `code` to a first-time owner, `code` above every code so far. */
  lemma CodesAfterRegister(codes: map<Code, Id>, owners: map<Id, Code>, latest: Option<Code>, code: Code, owner: Id)
    requires CodesOk(codes, owners, latest) && 1 <= code.value
    requires latest.Some? ==> latest.value.value < code.value
    ensures CodesOk(codes[code := owner], owners[owner := code], Some(code))
  {
  }

  /** Pointing an issued code at a new owner, and that owner at the code. */
  lemma CodesAfterTransfer(codes: map<Code, Id>, owners: map<Id, Code>, latest: Option<Code>, code: Code, owner: Id)
    requires CodesOk(codes, owners, latest) && code in codes
    ensures CodesOk(codes[code := owner], owners[owner := code], latest)
  {
  }

  /** The earnings invariant only needs their codes to stay issued. */
  lemma EarningsWithMoreCodes(codes: map<Code, Id>, codes': map<Code, Id>, totals: map<Code, NonZeroU128>,
                              earned: map<Pair, NonZeroU128>, contributions: map<Id, NonZeroU128>)
    requires EarningsOk(codes, totals, earned, contributions) && codes.Keys <= codes'.Keys
    ensures EarningsOk(codes', totals, earned, contributions)
  {
  }

  lemma RegisterReferrerPreservesValid(l: Ledger, sender: Id)
    requires Valid(l)
    ensures Valid(Commit(l, Referral.RegisterStep(l, sender)))
  {
    var s := Referral.RegisterStep(l, sender);
    if s.result.Ok? {
      var code := Referral.NextCode(l.referral);
      var r := l.referral;
      var r' := r.(codes := r.codes[code := sender], codeOwners := r.codeOwners[sender := code], latest := Some(code));
      assert s.ledger == l.(referral := r');
      CodesAfterRegister(r.codes, r.codeOwners, r.latest, code, sender);
      EarningsWithMoreCodes(r.codes, r'.codes, r.totalEarnings, r.dappEarnings, r.contributions);
    }
  }

  /** A transfer overwrites the code's owner and points the new owner at the code. */
  lemma TransferOwnershipPreservesValid(l: Ledger, sender: Id, code: Code, newOwner: Id)
    requires Valid(l)
    ensures Valid(Commit(l, Referral.TransferOwnershipStep(l, sender, code, newOwner)))
  {
    var s := Referral.TransferOwnershipStep(l, sender, code, newOwner);
    if s.result.Ok? {
      var r := l.referral;
      var r' := r.(codes := r.codes[code := newOwner], codeOwners := r.codeOwners[newOwner := code]);
      assert s.ledger == l.(referral := r');
      CodesAfterTransfer(r.codes, r.codeOwners, r.latest, code, newOwner);
      EarningsWithMoreCodes(r.codes, r'.codes, r.totalEarnings, r.dappEarnings, r.contributions);
    }
  }

  /** The pairs of `d` after one invocation of `dapp` through `code`. */
  lemma PairsAfterIncrement(counts: map<Pair, nat>, dapp: Id, code: Code, n: nat, d: Id)
    ensures ReferredPairs(counts[(dapp, code) := n], d) ==
      if d == dapp then ReferredPairs(counts, d) + {(dapp, code)} else ReferredPairs(counts, d)
  {
    var a := ReferredPairs(counts[(dapp, code) := n], d);
    var b := if d == dapp then ReferredPairs(counts, d) + {(dapp, code)} else ReferredPairs(counts, d);
    forall k | k in a ensures k in b { }
    forall k | k in b ensures k in a { }
  }

  /** Counting an invocation keeps the counters consistent: a first invocation of a pair adds that pair. */
  lemma IncrementInvocationsPreservesCounts(r: ReferralState, dapp: Id, code: Code)
    requires CountsOk(r.invocationCounts, r.totalInvocationCounts, r.discreteReferrers)
    ensures var r' := r.IncrementInvocations(dapp, code);
      CountsOk(r'.invocationCounts, r'.totalInvocationCounts, r'.discreteReferrers)
  {
    var r' := r.IncrementInvocations(dapp, code);
    var counts := r.invocationCounts;
    var current := Count(counts, (dapp, code));
    var first := current == 0;
    assert r'.invocationCounts == counts[(dapp, code) := current + 1];
    assert first <==> (dapp, code) !in counts;
    forall d ensures Count(r'.discreteReferrers, d) == |ReferredPairs(r'.invocationCounts, d)| {
      PairsAfterIncrement(counts, dapp, code, current + 1, d);
      if d == dapp && !first {
        assert (dapp, code) in ReferredPairs(counts, d);
        assert ReferredPairs(counts, d) + {(dapp, code)} == ReferredPairs(counts, d);
      }
    }
    forall d ensures Count(r'.discreteReferrers, d) <= Count(r'.totalInvocationCounts, d) {
      assert Count(r'.discreteReferrers, d) <= Count(r.discreteReferrers, d) + (if d == dapp then 1 else 0);
    }
  }

  /** Accruing a share within `u128` keeps every pair's earnings below both totals it was added to. */
  lemma AccrueEarnings(r: ReferralState, dapp: Id, code: Code, share: NonZeroU128)
    requires EarningsOk(r.codes, r.totalEarnings, r.dappEarnings, r.contributions)
    requires code in r.codes && Referral.Fits(r, dapp, code, share)
    ensures var r' := Referral.Accrue(r, dapp, code, share);
      EarningsOk(r'.codes, r'.totalEarnings, r'.dappEarnings, r'.contributions)
  {
    var r' := Referral.Accrue(r, dapp, code, share);
    forall k | k in r'.dappEarnings
      ensures k.1 in r'.totalEarnings && r'.dappEarnings[k] <= r'.totalEarnings[k.1]
      ensures k.0 in r'.contributions && r'.dappEarnings[k] <= r'.contributions[k.0]
    {
      if k != (dapp, code) {
        assert k in r.dappEarnings;
      }
    }
  }

  /** Accruing a share never lowers an amount. */
  lemma AccrueGrows(r: ReferralState, dapp: Id, code: Code, share: NonZeroU128)
    requires Referral.Fits(r, dapp, code, share)
    ensures var r' := Referral.Accrue(r, dapp, code, share);
      && Grows(r.totalEarnings, r'.totalEarnings)
      && Grows(r.dappEarnings, r'.dappEarnings)
      && Grows(r.contributions, r'.contributions)
  {
  }

  /** Earnings that only grow keep every collected value below them. */
  lemma CollectedAfterGrowth(collected: map<Pair, NonZeroU128>, earned: map<Pair, NonZeroU128>, earned': map<Pair, NonZeroU128>)
    requires CollectedOk(collected, earned) && Grows(earned, earned')
    ensures CollectedOk(collected, earned')
  {
  }

  /** The store once `record` has counted an invocation, before any earnings are added. */
  lemma CountedValid(l: Ledger, sender: Id, code: Code)
    requires Valid(l)
    ensures Valid(l.(referral := l.referral.IncrementInvocations(sender, code)))
  {
    IncrementInvocationsPreservesCounts(l.referral, sender, code);
  }

  lemma AccruedValid(l: Ledger, dapp: Id, code: Code, share: NonZeroU128)
    requires Valid(l) && code in l.referral.codes && Referral.Fits(l.referral, dapp, code, share)
    ensures Valid(l.(referral := Referral.Accrue(l.referral, dapp, code, share)))
  {
    var r' := Referral.Accrue(l.referral, dapp, code, share);
    AccrueEarnings(l.referral, dapp, code, share);
    AccrueGrows(l.referral, dapp, code, share);
    CollectedAfterGrowth(l.collect.referrerDapp, l.referral.dappEarnings, r'.dappEarnings);
  }

  /** Accruing a share adds it to the pair's earnings and to both totals above them. */
  lemma AccruePreservesValid(l: Ledger, dapp: Id, code: Code, share: NonZeroU128)
    requires Valid(l) && code in l.referral.codes
    ensures Valid(Commit(l, Referral.AccrueStep(l, dapp, code, share)))
  {
    if Referral.Fits(l.referral, dapp, code, share) {
      AccruedValid(l, dapp, code, share);
    }
  }

  lemma RecordPreservesValid(l: Ledger, chain: Chain, sender: Id, code: Code)
    requires Valid(l)
    ensures Valid(Commit(l, Referral.RecordStep(l, chain, sender, code)))
  {
    var s := Referral.RecordStep(l, chain, sender, code);
    if s.result.Ok? {
      var counted := l.(referral := l.referral.IncrementInvocations(sender, code));
      CountedValid(l, sender, code);
      var share := Referral.Share(l.dapp, chain, sender).value;
      if share.Some? {
        assert s == Referral.AccrueStep(counted, sender, code, share.value);
        AccruePreservesValid(counted, sender, code, share.value);
      } else {
        assert s.ledger == counted;
      }
    }
  }

  // ---- the collection namespaces

  /** A referrer's collected value on a dApp becomes exactly its earnings there. */
  lemma ReferrerCollectPreservesValid(l: Ledger, sender: Id, dapp: Id, code: Code)
    requires Valid(l)
    ensures Valid(Commit(l, Collection.ReferrerStep(l, sender, dapp, code)))
  {
    var s := Collection.ReferrerStep(l, sender, dapp, code);
    if s.result.Ok? {
      var earned := l.referral.dappEarnings[(dapp, code)];
      assert s.ledger.collect.referrerDapp == l.collect.referrerDapp[(dapp, code) := earned];
    }
  }

  /** A dApp's collection writes only the dApp's own collected total, which no invariant reads. */
  lemma DappCollectPreservesValid(l: Ledger, chain: Chain, sender: Id, dapp: Id)
    requires Valid(l)
    ensures Valid(Commit(l, Collection.DappStep(l, chain, sender, dapp)))
  {
  }

  // ---- every message

  /** The invariant holds after every message the hub executes, committed or discarded. */
  lemma ExecPreservesValid(l: Ledger, chain: Chain, msg: Msg)
    requires Valid(l)
    ensures Valid(Commit(l, Hub.ExecStep(l, chain, msg)))
  {
    var s := Hub.ExecStep(l, chain, msg);
    match msg.kind
    case Register(reg) =>
      match reg {
        case Referrer =>
          RegisterReferrerPreservesValid(l, msg.sender);
        case Dapp(name, percent, collector) =>
          RegisterDappPreservesValid(l, chain, msg.sender, name, percent, collector);
        case RewardsPot(dapp, pot) =>
          SetRewardsPotPreservesValid(l, chain, dapp, pot);
        case DeregisterDapp(dapp, admin, recipient) =>
          DeregisterPreservesValid(l, msg.sender, dapp, admin, recipient);
      }
    case Referral(code) =>
      RecordPreservesValid(l, chain, msg.sender, code);
    case Collect(collection) =>
      match collection {
        case Referrer(dapp, code) =>
          ReferrerCollectPreservesValid(l, msg.sender, dapp, code);
        case Dapp(dapp) =>
          DappCollectPreservesValid(l, chain, msg.sender, dapp);
      }
    case Config(configure) =>
      match configure {
        case TransferReferralCodeOwnership(code, owner) =>
          TransferOwnershipPreservesValid(l, msg.sender, code, owner);
        case DappMetadata(dapp, metadata) =>
          ConfigurePreservesValid(l, msg.sender, dapp, metadata);
        case DappFee(_, _) =>
      }
  }

  /** The store after each message in turn, each read against the chain as it was at that message. */
  ghost function Run(l: Ledger, msgs: seq<(Chain, Msg)>): Ledger
    decreases |msgs|
  {
    if |msgs| == 0 then l
    else Run(Commit(l, Hub.ExecStep(l, msgs[0].0, msgs[0].1)), msgs[1..])
  }

  lemma {:induction false} RunPreservesValid(l: Ledger, msgs: seq<(Chain, Msg)>)
    requires Valid(l)
    ensures Valid(Run(l, msgs))
    decreases |msgs|
  {
    if |msgs| > 0 {
      ExecPreservesValid(l, msgs[0].0, msgs[0].1);
      RunPreservesValid(Commit(l, Hub.ExecStep(l, msgs[0].0, msgs[0].1)), msgs[1..]);
    }
  }

  /** Every store reachable from the empty one satisfies the invariant. */
  lemma ReachableValid(msgs: seq<(Chain, Msg)>)
    ensures Valid(Run(EmptyLedger(), msgs))
  {
    EmptyLedgerValid();
    RunPreservesValid(EmptyLedger(), msgs);
  }
}
