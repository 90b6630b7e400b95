/**
 * The collection ledger shared by both generations of the collect handlers:
 * what a referrer or a dApp is owed, and the collected totals that record
 * it. The handlers differ only in the commands they build from the payout
 * (modules `Collect` and `HubCollect`).
 */
module Collection {
  import opened Wrappers
  import opened Common
  import opened ReferralCode
  import opened Storage
  import opened External
  import opened Errors
  import Dapp

  /** An amount to move out of a dApp's rewards pot to a receiver. */
  datatype Payout = Payout(amount: NonZeroU128, pot: Id, receiver: Id)

  /**
   * What is owed on a running `value` of which `collected` was already paid:
   * everything when nothing was ever collected, otherwise the difference.
   * A zero difference is `NothingToCollect`; a negative one is the panic of
   * the unchecked subtraction.
   */
  function Owed(value: NonZeroU128, collected: Option<NonZeroU128>): (r: Result<NonZeroU128, Error>)
    ensures collected.None? ==> r == Ok(value)
    ensures collected.Some? ==> (r == Err(Underflow) <==> value < collected.value)
    ensures collected.Some? ==> (r == Err(NothingToCollect) <==> value == collected.value)
    ensures collected.Some? && r.Ok? ==> r.value == value - collected.value
    ensures r.Err? ==> r.error == Underflow || r.error == NothingToCollect
  {
    match collected
    case None => Ok(value)
    case Some(c) =>
      if value < c then Err(Underflow)
      else match NonZero(value - c)
        case None => Err(NothingToCollect)
        case Some(owed) => Ok(owed)
  }

  /** `referrer_total_collected` after paying `owed`: a checked add, or `owed` alone the first time. */
  function TotalAfter(total: Option<NonZeroU128>, owed: NonZeroU128): (r: Option<NonZeroU128>)
    ensures r.Some? <==> total.None? || total.value + owed <= U128_MAX
    ensures r.Some? ==> r.value == (if total.Some? then total.value else 0) + owed
  {
    match total
    case None => Some(owed)
    case Some(t) => CheckedAddNonZero(t, owed)
  }

  /**
   * A referrer collects what it earned through `code` on `dapp` since its
   * last collection there. On success the per-dApp collected value becomes
   * the earnings and the code's collected total grows by the payout.
   */
  function ReferrerStep(l: Ledger, sender: Id, dapp: Id, code: Code): (s: Step<Payout>)
    ensures s.result == Err(ReferralCodeNotRegistered) <==> l.referral.OwnerOf(code).None?
    ensures s.result == Err(Unauthorized) <==>
      l.referral.OwnerOf(code).Some? && l.referral.OwnerOf(code).value != sender
    ensures l.referral.OwnerOf(code) == Some(sender) && l.referral.DappEarnings(dapp, code).None? ==>
      s == Step(l, Err(NothingToCollect))
    ensures l.referral.OwnerOf(code) == Some(sender) && l.referral.DappEarnings(dapp, code).Some? ==>
      var earned := l.referral.DappEarnings(dapp, code).value;
      var owed := Owed(earned, l.collect.ReferrerDappCollected(dapp, code));
      && (owed.Err? ==> s == Step(l, Err(owed.error)))
      && (owed.Ok? ==>
            var total := TotalAfter(l.collect.ReferrerTotalCollected(code), owed.value);
            && (total.None? ==> s == Step(l, Err(Overflow)))
            && (total.Some? ==>
                  && s.ledger == l.(collect := l.collect
                       .SetReferrerTotalCollected(code, total.value)
                       .SetReferrerDappCollected(dapp, code, earned))
                  && s.result == (if l.dapp.HasRewardsPot(dapp)
                                  then Ok(Payout(owed.value, l.dapp.rewardsPot[dapp], sender))
                                  else Err(Api(Store(NotFound))))))
    ensures s.ledger.dapp == l.dapp && s.ledger.referral == l.referral
  {
    match l.referral.OwnerOf(code)
    case None => Step(l, Err(ReferralCodeNotRegistered))
    case Some(owner) =>
      if sender != owner then Step(l, Err(Unauthorized))
      else match l.referral.DappEarnings(dapp, code)
        case None => Step(l, Err(NothingToCollect))
        case Some(earned) =>
          match Owed(earned, l.collect.ReferrerDappCollected(dapp, code))
          case Err(e) => Step(l, Err(e))
          case Ok(owed) =>
            match TotalAfter(l.collect.ReferrerTotalCollected(code), owed)
            case None => Step(l, Err(Overflow))
            case Some(total) =>
              var written := l.(collect := l.collect
                .SetReferrerTotalCollected(code, total)
                .SetReferrerDappCollected(dapp, code, earned));
              match written.dapp.RewardsPot(dapp)
              case Err(e) => Step(written, StoreErr(e))
              case Ok(pot) => Step(written, Ok(Payout(owed, pot, sender)))
  }

  method Referrer(store: Store, sender: Id, dapp: Id, code: Code) returns (r: Result<Payout, Error>)
    modifies store.collect
    ensures store.State() == ReferrerStep(old(store.State()), sender, dapp, code).ledger
    ensures r == ReferrerStep(old(store.State()), sender, dapp, code).result
  {
    var owner := store.referral.State().OwnerOf(code);
    if owner.None? {
      return Err(ReferralCodeNotRegistered);
    }
    if sender != owner.value {
      return Err(Unauthorized);
    }
    var earnings := store.referral.State().DappEarnings(dapp, code);
    if earnings.None? {
      return Err(NothingToCollect);
    }
    var owed := Owed(earnings.value, store.collect.State().ReferrerDappCollected(dapp, code));
    if owed.Err? {
      return Err(owed.error);
    }
    var total := TotalAfter(store.collect.State().ReferrerTotalCollected(code), owed.value);
    if total.None? {
      return Err(Overflow);
    }
    store.collect.SetReferrerTotalCollected(code, total.value);
    store.collect.SetReferrerDappCollected(dapp, code, earnings.value);
    var pot := store.dapp.State().RewardsPot(dapp);
    if pot.Err? {
      return StoreErr(pot.error);
    }
    return Ok(Payout(owed.value, pot.value, sender));
  }

  /**
   * What remains of a pot's rewards once the referrers' contributions are
   * set aside: `NothingToCollect` without rewards, without contributions or
   * when they are equal; the subtraction panics when contributions exceed
   * the rewards.
   */
  function Remaining(rewards: Option<NonZeroU128>, contributions: Option<NonZeroU128>): (r: Result<NonZeroU128, Error>)
    ensures rewards.None? || contributions.None? ==> r == Err(NothingToCollect)
    ensures rewards.Some? && contributions.Some? ==>
      && (r == Err(Underflow) <==> rewards.value < contributions.value)
      && (r == Err(NothingToCollect) <==> rewards.value == contributions.value)
      && (r.Ok? ==> r.value == rewards.value - contributions.value)
    ensures r.Err? ==> r.error == Underflow || r.error == NothingToCollect
  {
    match rewards
    case None => Err(NothingToCollect)
    case Some(total) =>
      match contributions
      case None => Err(NothingToCollect)
      case Some(c) =>
        if total < c then Err(Underflow)
        else match NonZero(total - c)
          case None => Err(NothingToCollect)
          case Some(rest) => Ok(rest)
  }

  /**
   * A dApp (or its collector) collects what remains of its pot's rewards
   * beyond the referrers' contributions, less what it already collected.
   * On success the dApp's collected value becomes that remaining amount.
   * Registration is not checked: a deregistered dApp can still collect.
   */
  function DappStep(l: Ledger, chain: Chain, sender: Id, dapp: Id): (s: Step<Payout>)
    ensures Dapp.Authorize(l.dapp, sender, dapp).Err? ==> s == Step(l, Err(Dapp.Authorize(l.dapp, sender, dapp).error))
    ensures Dapp.Authorize(l.dapp, sender, dapp).Ok? && !l.dapp.HasRewardsPot(dapp) ==>
      s == Step(l, Err(Api(Store(NotFound))))
    ensures Dapp.Authorize(l.dapp, sender, dapp).Ok? && l.dapp.HasRewardsPot(dapp) ==>
      var pot := l.dapp.rewardsPot[dapp];
      var remaining := Remaining(chain.dappTotalRewards(pot), l.referral.DappContributions(dapp));
      && (remaining.Err? ==> s == Step(l, Err(remaining.error)))
      && (remaining.Ok? ==>
            var owed := Owed(remaining.value, l.collect.DappTotalCollected(dapp));
            && (owed.Err? ==> s == Step(l, Err(owed.error)))
            && (owed.Ok? ==>
                  && s.ledger == l.(collect := l.collect.SetDappTotalCollected(dapp, remaining.value))
                  && s.result == Ok(Payout(owed.value, pot, sender))))
    ensures s.ledger.dapp == l.dapp && s.ledger.referral == l.referral
  {
    match Dapp.Authorize(l.dapp, sender, dapp)
    case Err(e) => Step(l, Err(e))
    case Ok(_) =>
      match l.dapp.RewardsPot(dapp)
      case Err(e) => Step(l, StoreErr(e))
      case Ok(pot) =>
        match Remaining(chain.dappTotalRewards(pot), l.referral.DappContributions(dapp))
        case Err(e) => Step(l, Err(e))
        case Ok(remaining) =>
          match Owed(remaining, l.collect.DappTotalCollected(dapp))
          case Err(e) => Step(l, Err(e))
          case Ok(owed) =>
            var written := l.(collect := l.collect.SetDappTotalCollected(dapp, remaining));
            match written.dapp.RewardsPot(dapp)
            case Err(e) => Step(written, StoreErr(e))
            case Ok(pot2) => Step(written, Ok(Payout(owed, pot2, sender)))
  }

  method CollectDapp(store: Store, chain: Chain, sender: Id, dapp: Id) returns (r: Result<Payout, Error>)
    modifies store.collect
    ensures store.State() == DappStep(old(store.State()), chain, sender, dapp).ledger
    ensures r == DappStep(old(store.State()), chain, sender, dapp).result
  {
    if sender != dapp {
      var collector := store.dapp.State().Collector(dapp);
      if collector.Err? {
        return StoreErr(collector.error);
      }
      if sender != collector.value {
        return Err(Unauthorized);
      }
    }
    var pot := store.dapp.State().RewardsPot(dapp);
    if pot.Err? {
      return StoreErr(pot.error);
    }
    var remaining := Remaining(chain.dappTotalRewards(pot.value), store.referral.State().DappContributions(dapp));
    if remaining.Err? {
      return Err(remaining.error);
    }
    var owed := Owed(remaining.value, store.collect.State().DappTotalCollected(dapp));
    if owed.Err? {
      return Err(owed.error);
    }
    store.collect.SetDappTotalCollected(dapp, remaining.value);
    // the pot is read again; the collect write above cannot have removed it
    var potAgain := store.dapp.State().RewardsPot(dapp);
    assert potAgain == pot;
    return Ok(Payout(owed.value, potAgain.value, sender));
  }
}
