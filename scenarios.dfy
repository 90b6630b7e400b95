/**
 * Worked examples: the sequences of messages the repository's own tests walk
 * through, replayed against the model. Each is stated for every store that
 * matches the example's starting point, not for one fixed store.
 */
module Scenarios {
  import opened Wrappers
  import opened Common
  import opened ReferralCode
  import opened Storage
  import opened External
  import opened Errors
  import opened Reply
  import opened Msg
  import HubMsg = Msg
  import Dapp
  import Referral
  import Collection
  import Collect
  import HubCollect
  import Hub

  /**
   * A referrer first collects the whole 5000 it earned; once its earnings
   * on the dApp reach 7000 it collects the 2000 difference, and its
   * collected values follow the earnings.
   */
  lemma ReferrerCollectsFullThenDelta(l: Ledger, referrer: Id, dapp: Id, code: Code)
    requires l.referral.OwnerOf(code) == Some(referrer) && l.dapp.HasRewardsPot(dapp)
    requires l.referral.DappEarnings(dapp, code) == Some(5000)
    requires l.collect.ReferrerDappCollected(dapp, code).None? && l.collect.ReferrerTotalCollected(code).None?
    ensures var pot := l.dapp.rewardsPot[dapp];
      var s1 := Collect.ReferrerStep(l, referrer, dapp, code);
      && s1.result == Ok([Command.WithdrawPending(pot), Command.RedistributeRewards(5000, pot, referrer)])
      && s1.ledger.collect.ReferrerDappCollected(dapp, code) == Some(5000)
      && s1.ledger.collect.ReferrerTotalCollected(code) == Some(5000)
      && var l2 := s1.ledger.(referral := s1.ledger.referral.SetDappEarnings(dapp, code, 7000));
      var s2 := Collect.ReferrerStep(l2, referrer, dapp, code);
      && s2.result == Ok([Command.WithdrawPending(pot), Command.RedistributeRewards(2000, pot, referrer)])
      && s2.ledger.collect.ReferrerDappCollected(dapp, code) == Some(7000)
      && s2.ledger.collect.ReferrerTotalCollected(code) == Some(7000)
  {
    var s1 := Collection.ReferrerStep(l, referrer, dapp, code);
    assert s1.result.Ok?;
    var l2 := s1.ledger.(referral := s1.ledger.referral.SetDappEarnings(dapp, code, 7000));
    assert l2.referral.DappEarnings(dapp, code) == Some(7000);
    assert l2.collect.ReferrerDappCollected(dapp, code) == Some(5000);
    assert Collection.Owed(7000, Some(5000)) == Ok(2000);
  }

  /**
   * A dApp's collector collects 6000 out of rewards of 11000 with 5000
   * contributed; with rewards of 22000 and 10000 contributed the dApp
   * itself collects another 6000, and its collected value becomes 12000.
   */
  lemma DappCollectsTwice(l: Ledger, chain: Chain, dapp: Id, collector: Id)
    requires l.dapp.Collector(dapp) == Ok(collector) && l.dapp.HasRewardsPot(dapp)
    requires chain.dappTotalRewards(l.dapp.rewardsPot[dapp]) == Some(11000)
    requires l.referral.DappContributions(dapp) == Some(5000)
    requires l.collect.DappTotalCollected(dapp).None?
    ensures var pot := l.dapp.rewardsPot[dapp];
      var s1 := HubCollect.DappStep(l, chain, collector, dapp);
      && s1.result == Ok(Command.RedistributeRewards(6000, pot, collector))
      && s1.ledger.collect.DappTotalCollected(dapp) == Some(6000)
      && var l2 := s1.ledger.(referral := s1.ledger.referral.SetDappContributions(dapp, 10000));
      var chain2 := chain.(dappTotalRewards := p => if p == pot then Some(22000) else chain.dappTotalRewards(p));
      var s2 := HubCollect.DappStep(l2, chain2, dapp, dapp);
      && s2.result == Ok(Command.RedistributeRewards(6000, pot, dapp))
      && s2.ledger.collect.DappTotalCollected(dapp) == Some(12000)
  {
    var pot := l.dapp.rewardsPot[dapp];
    assert Dapp.Authorize(l.dapp, collector, dapp).Ok?;
    assert Collection.Remaining(Some(11000), Some(5000)) == Ok(6000);
    var s1 := Collection.DappStep(l, chain, collector, dapp);
    var l2 := s1.ledger.(referral := s1.ledger.referral.SetDappContributions(dapp, 10000));
    var chain2 := chain.(dappTotalRewards := p => if p == pot then Some(22000) else chain.dappTotalRewards(p));
    assert l2.dapp == l.dapp;
    assert l2.referral.DappContributions(dapp) == Some(10000);
    assert l2.collect.DappTotalCollected(dapp) == Some(6000);
    assert Collection.Remaining(Some(22000), Some(10000)) == Ok(12000);
    assert Collection.Owed(12000, Some(6000)) == Ok(6000);
  }

  // ---- a whole session through the hub's router

  const Self: Id := Id("self")
  const App: Id := Id("dapp")
  const Collector: Id := Id("collector")
  const Pot: Id := Id("rewards_pot")
  const Referrer1: Id := Id("referrer1")
  const Referrer2: Id := Id("referrer2")

  /** The chain as the session sees it: the hub administers everything, the fee is 1000. */
  function SessionChain(rewards: Option<NonZeroU128>): Chain
  {
    Chain(Self, _ => Self, _ => Self, _ => Some(1000), _ => rewards)
  }

  /** One message executed and committed by the host. */
  function Exec(l: Ledger, chain: Chain, sender: Id, kind: Kind): (Ledger, Result<Reply, Error>)
  {
    var s := Hub.ExecStep(l, chain, Msg(sender, kind));
    (Commit(l, s), s.result)
  }

  /** The dApp registers itself at 50% with its collector, and is asked for a pot. */
  lemma SessionRegister(c: Chain)
    requires c == SessionChain(None)
    ensures var (l1, r1) := Exec(EmptyLedger(), c, App, Register(Registration.Dapp("dapp", 50, Collector)));
      && r1 == Ok(Cmd(Command.CreateRewardsPot(App)))
      && l1.dapp.DappExists(App) && l1.dapp.Collector(App) == Ok(Collector) && !l1.dapp.HasRewardsPot(App)
      && l1.referral == EmptyLedger().referral && l1.collect == EmptyLedger().collect
  {
  }

  /** The pot's instantiation reply sets the pot. */
  lemma SessionSetPot(l: Ledger, c: Chain)
    requires c == SessionChain(None)
    requires l.dapp.DappExists(App) && l.dapp.Collector(App) == Ok(Collector) && !l.dapp.HasRewardsPot(App)
    ensures var (l2, r2) := Exec(l, c, Self, Register(Registration.RewardsPot(App, Pot)));
      && r2 == Ok(Cmd(Command.SetRewardsRecipient(App, Pot)))
      && l2.dapp.DappExists(App) && l2.dapp.Collector(App) == Ok(Collector) && l2.dapp.RewardsPot(App) == Ok(Pot)
      && l2.referral == l.referral && l2.collect == l.collect
  {
  }

  /** The first referrer receives code 1. */
  lemma SessionRegisterReferrer(l: Ledger, c: Chain)
    requires c == SessionChain(None) && l.referral == EmptyLedger().referral
    ensures var (l3, r3) := Exec(l, c, Referrer1, Register(Registration.Referrer));
      && r3 == Ok(FromCode(Code(1)))
      && l3.referral.OwnerOf(Code(1)) == Some(Referrer1)
      && l3.referral.TotalEarnings(Code(1)).None? && l3.referral.DappEarnings(App, Code(1)).None?
      && l3.referral.DappContributions(App).None?
      && l3.dapp == l.dapp && l3.collect == l.collect
  {
  }

  /** The collector sets the dApp's fee: a command for the chain, nothing written. */
  lemma SessionFee(l: Ledger, c: Chain)
    requires l.dapp.DappExists(App) && l.dapp.Collector(App) == Ok(Collector)
    ensures var (l4, r4) := Exec(l, c, Collector, Config(Configure.DappFee(App, 1000)));
      r4 == Ok(Cmd(Command.SetDappFee(App, 1000))) && l4 == l
  {
  }

  /** The collector raises the dApp's percent to 75. */
  lemma SessionConfigure(l: Ledger, c: Chain)
    requires c == SessionChain(None)
    requires l.dapp.DappExists(App) && l.dapp.Collector(App) == Ok(Collector) && l.dapp.RewardsPot(App) == Ok(Pot)
    ensures var (l5, r5) := Exec(l, c, Collector, Config(Configure.DappMetadata(App, Dapp.Metadata(Some(75), None, Some("some_repo")))));
      && r5 == Ok(Empty)
      && l5.dapp.DappExists(App) && l5.dapp.Collector(App) == Ok(Collector) && l5.dapp.RewardsPot(App) == Ok(Pot)
      && l5.dapp.Percent(App) == Ok(75)
      && l5.referral == l.referral && l5.collect == l.collect
  {
  }

  /** `referrer1` hands code 1 to `referrer2`; no earnings move. */
  lemma SessionTransfer(l: Ledger, c: Chain)
    requires c == SessionChain(None) && l.referral.OwnerOf(Code(1)) == Some(Referrer1)
    ensures var (l6, r6) := Exec(l, c, Referrer1, Config(Configure.TransferReferralCodeOwnership(Code(1), Referrer2)));
      && r6 == Ok(Empty)
      && l6.referral.OwnerOf(Code(1)) == Some(Referrer2)
      && l6.referral.TotalEarnings(Code(1)) == l.referral.TotalEarnings(Code(1))
      && l6.referral.DappEarnings(App, Code(1)) == l.referral.DappEarnings(App, Code(1))
      && l6.referral.DappContributions(App) == l.referral.DappContributions(App)
      && l6.dapp == l.dapp && l6.collect == l.collect
  {
    SetCodeOwnerBothWays(l.referral, Code(1), Referrer2);
  }

  /** One referral at a fee of 1000 and 75% earns 750 in all three totals. */
  lemma SessionRecord(l: Ledger, c: Chain)
    requires c == SessionChain(None)
    requires l.dapp.DappExists(App) && l.dapp.Percent(App) == Ok(75) && l.referral.OwnerOf(Code(1)).Some?
    requires l.referral.TotalEarnings(Code(1)).None? && l.referral.DappEarnings(App, Code(1)).None?
    requires l.referral.DappContributions(App).None?
    ensures var (l7, r7) := Exec(l, c, App, Referral(Code(1)));
      && r7 == Ok(Empty)
      && l7.referral.DappEarnings(App, Code(1)) == Some(750)
      && l7.referral.TotalEarnings(Code(1)) == Some(750)
      && l7.referral.DappContributions(App) == Some(750)
      && l7.referral.OwnerOf(Code(1)) == l.referral.OwnerOf(Code(1))
      && l7.dapp == l.dapp && l7.collect == l.collect
  {
    assert Referral.Share(l.dapp, c, App) == Ok(Some(750));
    var counted := l.referral.IncrementInvocations(App, Code(1));
    IncrementInvocationsLocal(l.referral, App, Code(1));
    assert counted.TotalEarnings(Code(1)).None? && counted.DappEarnings(App, Code(1)).None?;
    assert counted.DappContributions(App).None? && counted.codes == l.referral.codes;
  }

  /** `referrer2` collects its 750 in full. */
  lemma SessionCollectReferrer(l: Ledger, c: Chain)
    requires c == SessionChain(None)
    requires l.referral.OwnerOf(Code(1)) == Some(Referrer2) && l.dapp.RewardsPot(App) == Ok(Pot)
    requires l.referral.DappEarnings(App, Code(1)) == Some(750)
    requires l.collect.ReferrerDappCollected(App, Code(1)).None? && l.collect.ReferrerTotalCollected(Code(1)).None?
    ensures var (l8, r8) := Exec(l, c, Referrer2, Collect(HubMsg.Collection.Referrer(App, Code(1))));
      && r8 == Ok(Cmd(Command.RedistributeRewards(750, Pot, Referrer2)))
      && l8.dapp == l.dapp && l8.referral == l.referral
      && l8.collect.DappTotalCollected(App) == l.collect.DappTotalCollected(App)
  {
  }

  /** With the pot reporting 1333, the collector collects 1333 - 750 = 583. */
  lemma SessionCollectDapp(l: Ledger, c: Chain)
    requires c == SessionChain(Some(1333))
    requires l.dapp.Collector(App) == Ok(Collector) && l.dapp.RewardsPot(App) == Ok(Pot)
    requires l.referral.DappContributions(App) == Some(750) && l.collect.DappTotalCollected(App).None?
    ensures var (l9, r9) := Exec(l, c, Collector, Collect(HubMsg.Collection.Dapp(App)));
      && r9 == Ok(Cmd(Command.RedistributeRewards(583, Pot, Collector)))
      && l9.dapp == l.dapp && l9.referral == l.referral
      && l9.collect.DappTotalCollected(App) == Some(583)
  {
    assert Collection.Remaining(Some(1333), Some(750)) == Ok(583);
  }

  /** The collector deregisters the dApp, handing the pot's rewards and administration to itself. */
  lemma SessionDeregister(l: Ledger, c: Chain)
    requires l.dapp.DappExists(App) && l.dapp.Collector(App) == Ok(Collector) && l.dapp.RewardsPot(App) == Ok(Pot)
    ensures var (l10, r10) := Exec(l, c, Collector, Register(Registration.DeregisterDapp(App, Collector, Collector)));
      && r10 == Ok(MultiCmd([Command.WithdrawPending(Pot), Command.SetRewardsRecipient(App, Collector),
                             Command.SetRewardsAdmin(App, Collector)]))
      && !l10.dapp.DappExists(App)
      && l10.referral == l.referral && l10.collect == l.collect
  {
  }

  /**
   * The dApp registers at 50%, its pot is set, `referrer1` registers, the
   * collector sets the fee and raises the percent to 75, `referrer1` hands
   * code 1 to `referrer2`, and the dApp records one referral at a fee of
   * 1000: the code earns 750, which `referrer2` collects in full; with the
   * pot reporting 1333 the collector then collects 1333 - 750 = 583, and
   * finally deregisters the dApp.
   */
  lemma SessionThroughHub()
    ensures
      var c0 := SessionChain(None);
      var (l1, r1) := Exec(EmptyLedger(), c0, App, Register(Registration.Dapp("dapp", 50, Collector)));
      var (l2, r2) := Exec(l1, c0, Self, Register(Registration.RewardsPot(App, Pot)));
      var (l3, r3) := Exec(l2, c0, Referrer1, Register(Registration.Referrer));
      var (l4, r4) := Exec(l3, c0, Collector, Config(Configure.DappFee(App, 1000)));
      var (l5, r5) := Exec(l4, c0, Collector, Config(Configure.DappMetadata(App, Dapp.Metadata(Some(75), None, Some("some_repo")))));
      var (l6, r6) := Exec(l5, c0, Referrer1, Config(Configure.TransferReferralCodeOwnership(Code(1), Referrer2)));
      var (l7, r7) := Exec(l6, c0, App, Referral(Code(1)));
      var (l8, r8) := Exec(l7, c0, Referrer2, Collect(HubMsg.Collection.Referrer(App, Code(1))));
      var c1 := SessionChain(Some(1333));
      var (l9, r9) := Exec(l8, c1, Collector, Collect(HubMsg.Collection.Dapp(App)));
      var (l10, r10) := Exec(l9, c1, Collector, Register(Registration.DeregisterDapp(App, Collector, Collector)));
      && r1 == Ok(Cmd(Command.CreateRewardsPot(App)))
      && r2 == Ok(Cmd(Command.SetRewardsRecipient(App, Pot)))
      && r3 == Ok(FromCode(Code(1)))
      && r4 == Ok(Cmd(Command.SetDappFee(App, 1000)))
      && r5 == Ok(Empty) && r6 == Ok(Empty) && r7 == Ok(Empty)
      && l7.referral.DappEarnings(App, Code(1)) == Some(750)
      && l7.referral.TotalEarnings(Code(1)) == Some(750)
      && l7.referral.DappContributions(App) == Some(750)
      && r8 == Ok(Cmd(Command.RedistributeRewards(750, Pot, Referrer2)))
      && r9 == Ok(Cmd(Command.RedistributeRewards(583, Pot, Collector)))
      && r10 == Ok(MultiCmd([Command.WithdrawPending(Pot), Command.SetRewardsRecipient(App, Collector),
                             Command.SetRewardsAdmin(App, Collector)]))
      && !l10.dapp.DappExists(App)
  {
    var c0 := SessionChain(None);
    var c1 := SessionChain(Some(1333));
    var l1 := Exec(EmptyLedger(), c0, App, Register(Registration.Dapp("dapp", 50, Collector))).0;
    SessionRegister(c0);
    var l2 := Exec(l1, c0, Self, Register(Registration.RewardsPot(App, Pot))).0;
    SessionSetPot(l1, c0);
    var l3 := Exec(l2, c0, Referrer1, Register(Registration.Referrer)).0;
    SessionRegisterReferrer(l2, c0);
    var l4 := Exec(l3, c0, Collector, Config(Configure.DappFee(App, 1000))).0;
    SessionFee(l3, c0);
    var l5 := Exec(l4, c0, Collector, Config(Configure.DappMetadata(App, Dapp.Metadata(Some(75), None, Some("some_repo"))))).0;
    SessionConfigure(l4, c0);
    var l6 := Exec(l5, c0, Referrer1, Config(Configure.TransferReferralCodeOwnership(Code(1), Referrer2))).0;
    SessionTransfer(l5, c0);
    var l7 := Exec(l6, c0, App, Referral(Code(1))).0;
    SessionRecord(l6, c0);
    var l8 := Exec(l7, c0, Referrer2, Collect(HubMsg.Collection.Referrer(App, Code(1)))).0;
    SessionCollectReferrer(l7, c0);
    var l9 := Exec(l8, c1, Collector, Collect(HubMsg.Collection.Dapp(App))).0;
    SessionCollectDapp(l8, c1);
    SessionDeregister(l9, c1);
  }

  /**
   * The collector deregisters the dApp once code 1 has earned 500 on it and
   * the pot reports 1222: the referrer still collects its 500 and the
   * collector the remaining 1222 - 500 = 722.
   */
  lemma CollectAfterDeregisterThroughHub(l: Ledger, referrer: Id)
    requires l.dapp.DappExists(App) && l.dapp.Collector(App) == Ok(Collector) && l.dapp.RewardsPot(App) == Ok(Pot)
    requires l.referral.OwnerOf(Code(1)) == Some(referrer)
    requires l.referral.DappEarnings(App, Code(1)) == Some(500) && l.referral.DappContributions(App) == Some(500)
    requires l.collect.ReferrerDappCollected(App, Code(1)).None? && l.collect.ReferrerTotalCollected(Code(1)).None?
    requires l.collect.DappTotalCollected(App).None?
    ensures
      var c := SessionChain(Some(1222));
      var (l1, r1) := Exec(l, c, Collector, Register(Registration.DeregisterDapp(App, Collector, Collector)));
      var (l2, r2) := Exec(l1, c, referrer, Collect(HubMsg.Collection.Referrer(App, Code(1))));
      var (l3, r3) := Exec(l2, c, Collector, Collect(HubMsg.Collection.Dapp(App)));
      && r1 == Ok(MultiCmd([Command.WithdrawPending(Pot), Command.SetRewardsRecipient(App, Collector),
                            Command.SetRewardsAdmin(App, Collector)]))
      && !l1.dapp.DappExists(App)
      && r2 == Ok(Cmd(Command.RedistributeRewards(500, Pot, referrer)))
      && r3 == Ok(Cmd(Command.RedistributeRewards(722, Pot, Collector)))
  {
    var c := SessionChain(Some(1222));
    var l1 := Exec(l, c, Collector, Register(Registration.DeregisterDapp(App, Collector, Collector))).0;
    assert l1 == l.(dapp := l.dapp.RemoveDapp(App));
    RemoveDappKeepsRecords(l.dapp, App);
    var l2 := Exec(l1, c, referrer, Collect(HubMsg.Collection.Referrer(App, Code(1)))).0;
    assert l2.dapp == l1.dapp && l2.referral == l1.referral;
    assert l2.collect.DappTotalCollected(App).None?;
    assert Collection.Remaining(Some(1222), Some(500)) == Ok(722);
  }
}
