/**
 * What the store invariant buys, and how the handlers relate to each other:
 * the referrer's unchecked subtraction never underflows, a collection with
 * nothing new to collect is refused, collections pay out exactly the
 * earnings (or the remaining rewards), codes are fresh, and nothing the hub
 * records is ever lost or lowered.
 */
module Properties {
  import opened Wrappers
  import opened Common
  import opened ReferralCode
  import opened Storage
  import opened External
  import opened Errors
  import opened Msg
  import HubMsg = Msg
  import opened Invariants
  import Dapp
  import Referral
  import Collection
  import Hub

  // ---- referrals

  /** A successful `register` issues a code that was never issued, above every code issued so far. */
  lemma RegisterIssuesFreshCode(l: Ledger, sender: Id)
    requires Valid(l)
    ensures var s := Referral.RegisterStep(l, sender);
      s.result.Ok? ==>
        && s.result.value !in l.referral.codes
        && forall c :: c in l.referral.codes ==> c.value < s.result.value.value
  {
    NextCodeIsFresh(l.referral);
  }

  /**
   * A transfer leaves the previous owner's owner-to-code entry in place: the
   * code now belongs to the new owner, yet the previous owner still reads the
   * code as its own and can never register again.
   */
  lemma TransferKeepsPreviousOwner(l: Ledger, sender: Id, code: Code, newOwner: Id)
    requires Valid(l)
    requires Referral.TransferOwnershipStep(l, sender, code, newOwner).result.Ok? && sender != newOwner
    ensures var l' := Referral.TransferOwnershipStep(l, sender, code, newOwner).ledger;
      && l'.referral.OwnerOf(code) == Some(newOwner)
      && l'.referral.ReferralCodeOf(sender) == l.referral.ReferralCodeOf(sender)
      && l'.referral.OwnerExists(sender)
      && Referral.RegisterStep(l', sender).result == Err(AlreadyRegistered)
  {
    assert sender == l.referral.codes[code];
    SetCodeOwnerBothWays(l.referral, code, newOwner);
  }

  /**
   * A dApp's earnings through a code are below both totals they are added to,
   * so under the invariant `record`'s second checked addition cannot fail:
   * an accrual fits exactly when the code's total and the dApp's
   * contributions can both take the share.
   */
  lemma AccrualFitsWhenTotalsFit(r: ReferralState, dapp: Id, code: Code, share: NonZeroU128)
    requires EarningsOk(r.codes, r.totalEarnings, r.dappEarnings, r.contributions)
    ensures Referral.Fits(r, dapp, code, share) <==>
      && Referral.Value(r.TotalEarnings(code)) + share <= U128_MAX
      && Referral.Value(r.DappContributions(dapp)) + share <= U128_MAX
  {
    if (dapp, code) in r.dappEarnings {
      assert r.dappEarnings[(dapp, code)] <= r.totalEarnings[code];
    }
  }

  // ---- collections

  /** Under the invariant a referrer's collection never reaches the unchecked subtraction's panic. */
  lemma ReferrerNeverUnderflows(l: Ledger, chain: Chain, sender: Id, dapp: Id, code: Code)
    requires Valid(l)
    ensures Collection.ReferrerStep(l, sender, dapp, code).result != Err(Underflow)
    ensures Hub.ExecStep(l, chain, Msg(sender, Collect(HubMsg.Collection.Referrer(dapp, code)))).result != Err(Underflow)
  {
    CollectedWithinEarnings(l, sender, dapp, code);
  }

  /** The part of the invariant the subtraction needs: collected never exceeds earned. */
  lemma CollectedWithinEarnings(l: Ledger, sender: Id, dapp: Id, code: Code)
    requires CollectedOk(l.collect.referrerDapp, l.referral.dappEarnings)
    ensures Collection.ReferrerStep(l, sender, dapp, code).result != Err(Underflow)
  {
    if (dapp, code) in l.collect.referrerDapp {
      assert l.collect.referrerDapp[(dapp, code)] <= l.referral.dappEarnings[(dapp, code)];
    }
  }

  /**
   * A referrer's successful collection pays what it earned since the last one:
   * the payout and what was collected before add up to its earnings, the
   * collected value becomes the earnings and the code's total grows by the payout.
   */
  lemma ReferrerPaidUpToEarnings(l: Ledger, sender: Id, dapp: Id, code: Code)
    requires Collection.ReferrerStep(l, sender, dapp, code).result.Ok?
    ensures var s := Collection.ReferrerStep(l, sender, dapp, code);
      && l.referral.DappEarnings(dapp, code).Some?
      && s.result.value.amount + Referral.Value(l.collect.ReferrerDappCollected(dapp, code))
           == l.referral.DappEarnings(dapp, code).value
      && s.ledger.collect.ReferrerDappCollected(dapp, code) == l.referral.DappEarnings(dapp, code)
      && Referral.Value(s.ledger.collect.ReferrerTotalCollected(code))
           == Referral.Value(l.collect.ReferrerTotalCollected(code)) + s.result.value.amount
      && s.result.value.receiver == sender
  {
  }

  /** Collecting again with no new earnings is refused and writes nothing. */
  lemma ReferrerCollectTwice(l: Ledger, sender: Id, dapp: Id, code: Code)
    requires Collection.ReferrerStep(l, sender, dapp, code).result.Ok?
    ensures var l' := Collection.ReferrerStep(l, sender, dapp, code).ledger;
      Collection.ReferrerStep(l', sender, dapp, code) == Step(l', Err(NothingToCollect))
  {
    var l' := Collection.ReferrerStep(l, sender, dapp, code).ledger;
    assert l'.collect.ReferrerDappCollected(dapp, code) == l.referral.DappEarnings(dapp, code);
  }

  /**
   * A dApp's successful collection pays what remains of its pot's rewards
   * beyond the referrers' contributions, less what it collected before, and
   * records that remaining amount as collected.
   */
  lemma DappPaidUpToRemaining(l: Ledger, chain: Chain, sender: Id, dapp: Id)
    requires Collection.DappStep(l, chain, sender, dapp).result.Ok?
    ensures var s := Collection.DappStep(l, chain, sender, dapp);
      && l.dapp.HasRewardsPot(dapp)
      && var rewards := chain.dappTotalRewards(l.dapp.rewardsPot[dapp]);
      && rewards.Some? && l.referral.DappContributions(dapp).Some?
      && s.result.value.amount + Referral.Value(l.collect.DappTotalCollected(dapp))
           == rewards.value - l.referral.DappContributions(dapp).value
      && s.ledger.collect.DappTotalCollected(dapp) == Some(rewards.value - l.referral.DappContributions(dapp).value)
      && s.result.value.pot == l.dapp.rewardsPot[dapp]
  {
  }

  /** A dApp collecting again with the same rewards and contributions is refused and writes nothing. */
  lemma DappCollectTwice(l: Ledger, chain: Chain, sender: Id, dapp: Id)
    requires Collection.DappStep(l, chain, sender, dapp).result.Ok?
    ensures var l' := Collection.DappStep(l, chain, sender, dapp).ledger;
      Collection.DappStep(l', chain, sender, dapp) == Step(l', Err(NothingToCollect))
  {
  }

  /** Collections never read registration: deregistering a dApp changes neither collection. */
  lemma CollectAfterDeregister(l: Ledger, chain: Chain, sender: Id, dapp: Id, referrer: Id, code: Code)
    ensures var l' := l.(dapp := l.dapp.RemoveDapp(dapp));
      && Collection.DappStep(l', chain, sender, dapp).result == Collection.DappStep(l, chain, sender, dapp).result
      && Collection.ReferrerStep(l', referrer, dapp, code).result == Collection.ReferrerStep(l, referrer, dapp, code).result
  {
    RemoveDappKeepsRecords(l.dapp, dapp);
  }
}
