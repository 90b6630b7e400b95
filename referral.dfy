/**
 * The referral registry: issuing codes, transferring their ownership and
 * recording a referred invocation, which accrues the referrer's share of
 * the dApp's fee into three running totals.
 */
module Referral {
  import opened Wrappers
  import opened Common
  import opened ReferralCode
  import opened Storage
  import opened External
  import opened Errors

  /** An earnings namespace read as a plain amount: absent is 0. */
  function Value(o: Option<NonZeroU128>): U128
  {
    match o
    case None => 0
    case Some(v) => v
  }

  /** A running total with `share` added: the share itself when absent, else a checked add. */
  function Accrued(current: Option<NonZeroU128>, share: NonZeroU128): (r: Option<NonZeroU128>)
    ensures r.Some? <==> Value(current) + share <= U128_MAX
    ensures r.Some? ==> r.value == Value(current) + share
  {
    match current
    case None => Some(share)
    case Some(cur) => CheckedAddNonZero(cur, share)
  }

  /** The code `register` issues next: one past the latest, so 1 for the first referrer. */
  function NextCode(r: ReferralState): (c: Code)
    ensures r.latest.None? ==> c.value == 1
    ensures r.latest.Some? ==> c.value == r.latest.value.value + 1
  {
    r.Latest().GetOr(Code.Default()).Next()
  }

  function RegisterStep(l: Ledger, sender: Id): (s: Step<Code>)
    ensures s.result == Err(AlreadyRegistered) <==> l.referral.OwnerExists(sender)
    ensures s.result.Ok? <==> !l.referral.OwnerExists(sender)
    ensures s.result.Ok? ==>
      && s.result.value == NextCode(l.referral)
      && s.ledger.referral.OwnerOf(s.result.value) == Some(sender)
      && s.ledger.referral.ReferralCodeOf(sender) == Some(s.result.value)
      && s.ledger.referral.Latest() == Some(s.result.value)
      && s.ledger == l.(referral := l.referral.SetCodeOwner(s.result.value, sender).SetLatest(s.result.value))
    ensures s.result.Err? ==> s.ledger == l
  {
    if l.referral.OwnerExists(sender) then Step(l, Err(AlreadyRegistered))
    else
      var code := NextCode(l.referral);
      Step(l.(referral := l.referral.SetCodeOwner(code, sender).SetLatest(code)), Ok(code))
  }

  method Register(store: Store, sender: Id) returns (r: Result<Code, Error>)
    modifies store.referral
    ensures store.State() == RegisterStep(old(store.State()), sender).ledger
    ensures r == RegisterStep(old(store.State()), sender).result
  {
    if store.referral.State().OwnerExists(sender) {
      return Err(AlreadyRegistered);
    }
    var code := store.referral.State().Latest().GetOr(Code.Default()).Next();
    store.referral.SetCodeOwner(code, sender);
    store.referral.SetLatest(code);
    return Ok(code);
  }

  function TransferOwnershipStep(l: Ledger, sender: Id, code: Code, newOwner: Id): (s: Step<()>)
    ensures s.result == Err(ReferralCodeNotRegistered) <==> l.referral.OwnerOf(code).None?
    ensures s.result == Err(Unauthorized) <==>
      l.referral.OwnerOf(code).Some? && l.referral.OwnerOf(code).value != sender
    ensures s.result.Ok? <==> l.referral.OwnerOf(code) == Some(sender)
    ensures s.result.Ok? ==>
      && s.ledger.referral.OwnerOf(code) == Some(newOwner)
      && s.ledger.referral.OwnerExists(newOwner)
      && s.ledger == l.(referral := l.referral.SetCodeOwner(code, newOwner))
    ensures s.result.Err? ==> s.ledger == l
  {
    match l.referral.OwnerOf(code)
    case None => Step(l, Err(ReferralCodeNotRegistered))
    case Some(owner) =>
      if sender != owner then Step(l, Err(Unauthorized))
      else Step(l.(referral := l.referral.SetCodeOwner(code, newOwner)), Ok(()))
  }

  method TransferOwnership(store: Store, sender: Id, code: Code, newOwner: Id) returns (r: Result<(), Error>)
    modifies store.referral
    ensures store.State() == TransferOwnershipStep(old(store.State()), sender, code, newOwner).ledger
    ensures r == TransferOwnershipStep(old(store.State()), sender, code, newOwner).result
  {
    var owner := store.referral.State().OwnerOf(code);
    if owner.None? {
      return Err(ReferralCodeNotRegistered);
    }
    if sender != owner.value {
      return Err(Unauthorized);
    }
    store.referral.SetCodeOwner(code, newOwner);
    return Ok(());
  }

  /**
   * The referrer's share of the dApp's current fee: `DappFeeNotSet` without
   * a fee, `NotFound` without a stored percent, `Overflow` when the product
   * does not fit, and `None` when the truncated share is zero.
   */
  function Share(d: DappState, chain: Chain, dapp: Id): (r: Result<Option<NonZeroU128>, Error>)
    ensures r == Err(Api(DappFeeNotSet)) <==> chain.currentFee(dapp).None?
    ensures r == Err(Api(Store(NotFound))) <==> chain.currentFee(dapp).Some? && d.Percent(dapp).Err?
    ensures r == Err(Overflow) <==>
      chain.currentFee(dapp).Some? && d.Percent(dapp).Ok? && CheckedApplyTo(d.Percent(dapp).value, chain.currentFee(dapp).value).None?
    ensures r.Ok? ==> r.value == CheckedApplyTo(d.Percent(dapp).value, chain.currentFee(dapp).value).value
  {
    match chain.currentFee(dapp)
    case None => Err(Api(DappFeeNotSet))
    case Some(fee) =>
      match d.Percent(dapp)
      case Err(e) => StoreErr(e)
      case Ok(p) =>
        match CheckedApplyTo(p, fee)
        case None => Err(Overflow)
        case Some(share) => Ok(share)
  }

  /** Whether all three totals can take `share` without passing `u128::MAX`. */
  predicate Fits(r: ReferralState, dapp: Id, code: Code, share: NonZeroU128)
  {
    && Value(r.TotalEarnings(code)) + share <= U128_MAX
    && Value(r.DappEarnings(dapp, code)) + share <= U128_MAX
    && Value(r.DappContributions(dapp)) + share <= U128_MAX
  }

  /** The referral namespaces with `share` added to the three totals; nothing else changes. */
  function Accrue(r: ReferralState, dapp: Id, code: Code, share: NonZeroU128): (r': ReferralState)
    requires Fits(r, dapp, code, share)
    ensures r'.TotalEarnings(code) == Some(Value(r.TotalEarnings(code)) + share)
    ensures r'.DappEarnings(dapp, code) == Some(Value(r.DappEarnings(dapp, code)) + share)
    ensures r'.DappContributions(dapp) == Some(Value(r.DappContributions(dapp)) + share)
    ensures r'.totalEarnings == r.totalEarnings[code := Value(r.TotalEarnings(code)) + share]
    ensures r'.dappEarnings == r.dappEarnings[(dapp, code) := Value(r.DappEarnings(dapp, code)) + share]
    ensures r'.contributions == r.contributions[dapp := Value(r.DappContributions(dapp)) + share]
    ensures r' == r.(totalEarnings := r'.totalEarnings, dappEarnings := r'.dappEarnings, contributions := r'.contributions)
  {
    r.SetTotalEarnings(code, Value(r.TotalEarnings(code)) + share)
     .SetDappEarnings(dapp, code, Value(r.DappEarnings(dapp, code)) + share)
     .SetDappContributions(dapp, Value(r.DappContributions(dapp)) + share)
  }

  /**
   * Adds `share` to the code's total earnings, its earnings from the dApp
   * and the dApp's contributions, in that order, failing with `Overflow`
   * at the first total that would pass `u128::MAX` (after the earlier
   * totals were written).
   */
  function AccrueStep(l: Ledger, dapp: Id, code: Code, share: NonZeroU128): (s: Step<()>)
    ensures s.result.Ok? <==> Fits(l.referral, dapp, code, share)
    ensures s.result.Err? ==> s.result.error == Overflow
    ensures s.result.Ok? ==>
      s.ledger == l.(referral := Accrue(l.referral, dapp, code, share))
  {
    var r := l.referral;
    match Accrued(r.TotalEarnings(code), share)
    case None => Step(l, Err(Overflow))
    case Some(total) =>
      var r1 := r.SetTotalEarnings(code, total);
      assert r1.DappEarnings(dapp, code) == r.DappEarnings(dapp, code);
      match Accrued(r1.DappEarnings(dapp, code), share)
      case None => Step(l.(referral := r1), Err(Overflow))
      case Some(earned) =>
        var r2 := r1.SetDappEarnings(dapp, code, earned);
        assert r2.DappContributions(dapp) == r.DappContributions(dapp);
        match Accrued(r2.DappContributions(dapp), share)
        case None => Step(l.(referral := r2), Err(Overflow))
        case Some(contributed) =>
          assert r2.SetDappContributions(dapp, contributed) == Accrue(r, dapp, code, share);
          Step(l.(referral := r2.SetDappContributions(dapp, contributed)), Ok(()))
  }

  /**
   * `record` counts the invocation before it reads the fee, so every error
   * after the two registration guards leaves that write behind for the host
   * to discard.
   */
  function RecordStep(l: Ledger, chain: Chain, sender: Id, code: Code): (s: Step<()>)
    ensures s.result == Err(DappNotRegistered) <==> !l.dapp.DappExists(sender)
    ensures s.result == Err(ReferralCodeNotRegistered) <==> l.dapp.DappExists(sender) && !l.referral.CodeExists(code)
    ensures !l.dapp.DappExists(sender) || !l.referral.CodeExists(code) ==> s.ledger == l
    ensures s.result.Ok? <==>
      && l.dapp.DappExists(sender) && l.referral.CodeExists(code)
      && Share(l.dapp, chain, sender).Ok?
      && (Share(l.dapp, chain, sender).value.Some? ==>
            Fits(l.referral.IncrementInvocations(sender, code), sender, code, Share(l.dapp, chain, sender).value.value))
    // a fee that cannot be read fails after the invocation was counted
    ensures l.dapp.DappExists(sender) && l.referral.CodeExists(code) && Share(l.dapp, chain, sender).Err? ==>
      s == Step(l.(referral := l.referral.IncrementInvocations(sender, code)), Err(Share(l.dapp, chain, sender).error))
    // a share truncated to zero is counted and accrues nothing
    ensures l.dapp.DappExists(sender) && l.referral.CodeExists(code) && Share(l.dapp, chain, sender) == Ok(None) ==>
      s == Step(l.(referral := l.referral.IncrementInvocations(sender, code)), Ok(()))
    // a non-zero share is accrued on top of the counted invocation, or fails with Overflow
    ensures l.dapp.DappExists(sender) && l.referral.CodeExists(code) && Share(l.dapp, chain, sender).Ok?
            && Share(l.dapp, chain, sender).value.Some? ==>
      s == AccrueStep(l.(referral := l.referral.IncrementInvocations(sender, code)), sender, code,
                      Share(l.dapp, chain, sender).value.value)
    ensures s.ledger.dapp == l.dapp && s.ledger.collect == l.collect
  {
    if !l.dapp.DappExists(sender) then Step(l, Err(DappNotRegistered))
    else if !l.referral.CodeExists(code) then Step(l, Err(ReferralCodeNotRegistered))
    else
      var counted := l.(referral := l.referral.IncrementInvocations(sender, code));
      match Share(counted.dapp, chain, sender)
      case Err(e) => Step(counted, Err(e))
      case Ok(None) => Step(counted, Ok(()))
      case Ok(Some(share)) => AccrueStep(counted, sender, code, share)
  }

  method Record(store: Store, chain: Chain, sender: Id, code: Code) returns (r: Result<(), Error>)
    modifies store.referral
    ensures store.State() == RecordStep(old(store.State()), chain, sender, code).ledger
    ensures r == RecordStep(old(store.State()), chain, sender, code).result
  {
    if !store.dapp.State().DappExists(sender) {
      return Err(DappNotRegistered);
    }
    if !store.referral.State().CodeExists(code) {
      return Err(ReferralCodeNotRegistered);
    }
    store.referral.IncrementInvocations(sender, code);
    var fee := chain.currentFee(sender);
    if fee.None? {
      return Err(Api(DappFeeNotSet));
    }
    var percent := store.dapp.State().Percent(sender);
    if percent.Err? {
      return StoreErr(percent.error);
    }
    var applied := CheckedApplyTo(percent.value, fee.value);
    if applied.None? {
      return Err(Overflow);
    }
    if applied.value.None? {
      return Ok(());
    }
    var share := applied.value.value;

    var total := Accrued(store.referral.State().TotalEarnings(code), share);
    if total.None? {
      return Err(Overflow);
    }
    store.referral.SetTotalEarnings(code, total.value);

    var earned := Accrued(store.referral.State().DappEarnings(sender, code), share);
    if earned.None? {
      return Err(Overflow);
    }
    store.referral.SetDappEarnings(sender, code, earned.value);

    var contributed := Accrued(store.referral.State().DappContributions(sender), share);
    if contributed.None? {
      return Err(Overflow);
    }
    store.referral.SetDappContributions(sender, contributed.value);
    return Ok(());
  }
}
