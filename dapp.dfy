/**
 * The dApp registry: registration, the rewards pot re-entry, deregistration,
 * metadata configuration and fee setting. Each handler is an ordered list
 * of guards followed by store writes; `...Step` is the effect of the
 * handler on a store value and the method of the same name performs it on
 * the mutable store, write by write.
 */
module Dapp {
  import opened Wrappers
  import opened Common
  import opened Storage
  import opened External
  import opened Errors
  import opened Reply

  /** Optional new metadata for a dApp; an absent field is left as it is. */
  datatype Metadata = Metadata(
    percent: Option<NonZeroPercent>,
    collector: Option<Id>,
    repoUrl: Option<string>)

  /**
   * `sender != dapp && sender != api.collector(dapp)?`: the dApp itself is
   * always allowed; anyone else must be its collector, and a dApp without a
   * stored collector fails the read with `NotFound`.
   */
  function Authorize(d: DappState, sender: Id, dapp: Id): (r: Result<(), Error>)
    ensures r.Ok? <==> sender == dapp || d.Collector(dapp) == Ok(sender)
    ensures r == Err(Unauthorized) <==> sender != dapp && dapp in d.collector && d.collector[dapp] != sender
    ensures r == Err(Api(Store(NotFound))) <==> sender != dapp && dapp !in d.collector
  {
    if sender == dapp then Ok(())
    else match d.Collector(dapp)
      case Err(e) => StoreErr(e)
      case Ok(c) => if sender == c then Ok(()) else Err(Unauthorized)
  }

  /** The guards shared by `deregister`, `configure` and `set_fee`, in their order. */
  function Guard(d: DappState, sender: Id, dapp: Id): (r: Result<(), Error>)
    ensures r == Err(DappNotRegistered) <==> !d.DappExists(dapp)
    ensures r.Ok? <==> d.DappExists(dapp) && Authorize(d, sender, dapp).Ok?
    ensures d.DappExists(dapp) ==> r == Authorize(d, sender, dapp)
  {
    if !d.DappExists(dapp) then Err(DappNotRegistered) else Authorize(d, sender, dapp)
  }

  function RegisterStep(l: Ledger, chain: Chain, sender: Id, name: string, percent: NonZeroPercent, collector: Id)
    : (s: Step<Command>)
    ensures s.result == Err(AlreadyRegistered) <==> l.dapp.DappExists(sender)
    ensures s.result == Err(InvalidRewardsAdmin) <==>
      !l.dapp.DappExists(sender) && chain.selfId != chain.rewardsAdmin(sender)
    ensures s.result.Ok? <==> !l.dapp.DappExists(sender) && chain.selfId == chain.rewardsAdmin(sender)
    ensures s.result.Ok? ==>
      && s.result.value == Command.CreateRewardsPot(sender)
      && s.ledger.dapp.DappName(sender) == Some(name)
      && s.ledger.dapp.Percent(sender) == Ok(percent)
      && s.ledger.dapp.Collector(sender) == Ok(collector)
      && s.ledger.dapp == l.dapp.AddDapp(sender, name).SetPercent(sender, percent).SetCollector(sender, collector)
    ensures s.ledger.referral == l.referral && s.ledger.collect == l.collect
    ensures s.result.Err? ==> s.ledger == l
  {
    if l.dapp.DappExists(sender) then Step(l, Err(AlreadyRegistered))
    else if chain.selfId != chain.rewardsAdmin(sender) then Step(l, Err(InvalidRewardsAdmin))
    else
      Step(l.(dapp := l.dapp.AddDapp(sender, name).SetPercent(sender, percent).SetCollector(sender, collector)),
           Ok(Command.CreateRewardsPot(sender)))
  }

  method Register(store: Store, chain: Chain, sender: Id, name: string, percent: NonZeroPercent, collector: Id)
    returns (r: Result<Command, Error>)
    modifies store.dapp
    ensures store.State() == RegisterStep(old(store.State()), chain, sender, name, percent, collector).ledger
    ensures r == RegisterStep(old(store.State()), chain, sender, name, percent, collector).result
  {
    if store.dapp.State().DappExists(sender) {
      return Err(AlreadyRegistered);
    }
    if chain.selfId != chain.rewardsAdmin(sender) {
      return Err(InvalidRewardsAdmin);
    }
    store.dapp.AddDapp(sender, name);
    store.dapp.SetPercent(sender, percent);
    store.dapp.SetCollector(sender, collector);
    return Ok(Command.CreateRewardsPot(sender));
  }

  function SetRewardsPotStep(l: Ledger, chain: Chain, dapp: Id, pot: Id): (s: Step<Command>)
    ensures s.result == Err(DappNotRegistered) <==> !l.dapp.DappExists(dapp)
    ensures s.result == Err(RewardsPotAlreadySet) <==> l.dapp.DappExists(dapp) && l.dapp.HasRewardsPot(dapp)
    ensures s.result == Err(InvalidRewardsPotAdmin) <==>
      l.dapp.DappExists(dapp) && !l.dapp.HasRewardsPot(dapp) && chain.selfId != chain.rewardsPotAdmin(pot)
    ensures s.result.Ok? ==>
      && s.result.value == Command.SetRewardsRecipient(dapp, pot)
      && s.ledger == l.(dapp := l.dapp.SetRewardsPot(dapp, pot))
    ensures s.result.Err? ==> s.ledger == l
    // a pot, once set, is never overwritten
    ensures l.dapp.HasRewardsPot(dapp) ==> s.ledger.dapp.rewardsPot == l.dapp.rewardsPot
  {
    if !l.dapp.DappExists(dapp) then Step(l, Err(DappNotRegistered))
    else if l.dapp.HasRewardsPot(dapp) then Step(l, Err(RewardsPotAlreadySet))
    else if chain.selfId != chain.rewardsPotAdmin(pot) then Step(l, Err(InvalidRewardsPotAdmin))
    else Step(l.(dapp := l.dapp.SetRewardsPot(dapp, pot)), Ok(Command.SetRewardsRecipient(dapp, pot)))
  }

  method SetRewardsPot(store: Store, chain: Chain, dapp: Id, pot: Id) returns (r: Result<Command, Error>)
    modifies store.dapp
    ensures store.State() == SetRewardsPotStep(old(store.State()), chain, dapp, pot).ledger
    ensures r == SetRewardsPotStep(old(store.State()), chain, dapp, pot).result
  {
    if !store.dapp.State().DappExists(dapp) {
      return Err(DappNotRegistered);
    }
    if store.dapp.State().HasRewardsPot(dapp) {
      return Err(RewardsPotAlreadySet);
    }
    if chain.selfId != chain.rewardsPotAdmin(pot) {
      return Err(InvalidRewardsPotAdmin);
    }
    store.dapp.SetRewardsPot(dapp, pot);
    return Ok(Command.SetRewardsRecipient(dapp, pot));
  }

  /**
   * `deregister` removes the dApp's name before it reads the pot, so a dApp
   * without a pot fails after that write; the host discards it.
   */
  function DeregisterStep(l: Ledger, sender: Id, dapp: Id, rewardsAdmin: Id, rewardsRecipient: Id)
    : (s: Step<seq<Command>>)
    ensures Guard(l.dapp, sender, dapp).Err? ==> s == Step(l, Err(Guard(l.dapp, sender, dapp).error))
    ensures s.result.Ok? <==> Guard(l.dapp, sender, dapp).Ok? && l.dapp.HasRewardsPot(dapp)
    ensures s.result.Ok? ==>
      s.result.value == [Command.WithdrawPending(l.dapp.rewardsPot[dapp]),
                         Command.SetRewardsRecipient(dapp, rewardsRecipient),
                         Command.SetRewardsAdmin(dapp, rewardsAdmin)]
    ensures Guard(l.dapp, sender, dapp).Ok? ==>
      && s.ledger == l.(dapp := l.dapp.RemoveDapp(dapp))
      && !s.ledger.dapp.DappExists(dapp)
  {
    match Guard(l.dapp, sender, dapp)
    case Err(e) => Step(l, Err(e))
    case Ok(_) =>
      var removed := l.(dapp := l.dapp.RemoveDapp(dapp));
      match removed.dapp.RewardsPot(dapp)
      case Err(e) => Step(removed, StoreErr(e))
      case Ok(pot) =>
        Step(removed, Ok([Command.WithdrawPending(pot),
                          Command.SetRewardsRecipient(dapp, rewardsRecipient),
                          Command.SetRewardsAdmin(dapp, rewardsAdmin)]))
  }

  method Deregister(store: Store, sender: Id, dapp: Id, rewardsAdmin: Id, rewardsRecipient: Id)
    returns (r: Result<seq<Command>, Error>)
    modifies store.dapp
    ensures store.State() == DeregisterStep(old(store.State()), sender, dapp, rewardsAdmin, rewardsRecipient).ledger
    ensures r == DeregisterStep(old(store.State()), sender, dapp, rewardsAdmin, rewardsRecipient).result
  {
    if !store.dapp.State().DappExists(dapp) {
      return Err(DappNotRegistered);
    }
    if sender != dapp {
      var collector := store.dapp.State().Collector(dapp);
      if collector.Err? {
        return StoreErr(collector.error);
      }
      if sender != collector.value {
        return Err(Unauthorized);
      }
    }
    store.dapp.RemoveDapp(dapp);
    var pot := store.dapp.State().RewardsPot(dapp);
    if pot.Err? {
      return StoreErr(pot.error);
    }
    return Ok([Command.WithdrawPending(pot.value),
               Command.SetRewardsRecipient(dapp, rewardsRecipient),
               Command.SetRewardsAdmin(dapp, rewardsAdmin)]);
  }

  /** The dApp namespaces after `configure`'s writes: only the present fields are overwritten. */
  function Configured(d: DappState, dapp: Id, m: Metadata): (c: DappState)
    ensures c.percent == if m.percent.Some? then d.percent[dapp := m.percent.value] else d.percent
    ensures c.collector == if m.collector.Some? then d.collector[dapp := m.collector.value] else d.collector
    ensures c.repoUrl == if m.repoUrl.Some? then d.repoUrl[dapp := m.repoUrl.value] else d.repoUrl
    ensures c.lastIndex == d.lastIndex && c.index == d.index && c.reverseIndex == d.reverseIndex
    ensures c.names == d.names && c.rewardsPot == d.rewardsPot
  {
    var d1 := if m.percent.Some? then d.SetPercent(dapp, m.percent.value) else d;
    var d2 := if m.collector.Some? then d1.SetCollector(dapp, m.collector.value) else d1;
    if m.repoUrl.Some? then d2.SetRepoUrl(dapp, m.repoUrl.value) else d2
  }

  function ConfigureStep(l: Ledger, sender: Id, dapp: Id, m: Metadata): (s: Step<()>)
    ensures s.result.Ok? <==> Guard(l.dapp, sender, dapp).Ok?
    ensures s.result.Err? ==> s == Step(l, Err(Guard(l.dapp, sender, dapp).error))
    ensures s.result.Ok? ==> s.ledger == l.(dapp := Configured(l.dapp, dapp, m))
  {
    match Guard(l.dapp, sender, dapp)
    case Err(e) => Step(l, Err(e))
    case Ok(_) => Step(l.(dapp := Configured(l.dapp, dapp, m)), Ok(()))
  }

  method Configure(store: Store, sender: Id, dapp: Id, m: Metadata) returns (r: Result<(), Error>)
    modifies store.dapp
    ensures store.State() == ConfigureStep(old(store.State()), sender, dapp, m).ledger
    ensures r == ConfigureStep(old(store.State()), sender, dapp, m).result
  {
    if !store.dapp.State().DappExists(dapp) {
      return Err(DappNotRegistered);
    }
    if sender != dapp {
      var collector := store.dapp.State().Collector(dapp);
      if collector.Err? {
        return StoreErr(collector.error);
      }
      if sender != collector.value {
        return Err(Unauthorized);
      }
    }
    if m.percent.Some? {
      store.dapp.SetPercent(dapp, m.percent.value);
    }
    if m.collector.Some? {
      store.dapp.SetCollector(dapp, m.collector.value);
    }
    if m.repoUrl.Some? {
      store.dapp.SetRepoUrl(dapp, m.repoUrl.value);
    }
    return Ok(());
  }

  /** `set_fee` only reads: it asks for the fee to be set with a command. */
  function SetFee(d: DappState, sender: Id, dapp: Id, amount: NonZeroU128): (r: Result<Command, Error>)
    ensures r.Ok? <==> Guard(d, sender, dapp).Ok?
    ensures r.Ok? ==> r.value == Command.SetDappFee(dapp, amount)
    ensures r.Err? ==> r.error == Guard(d, sender, dapp).error
  {
    match Guard(d, sender, dapp)
    case Err(e) => Err(e)
    case Ok(_) => Ok(Command.SetDappFee(dapp, amount))
  }
}
