/**
 * The hub's entry point: a trusted message is routed to its handler and the
 * handler's result is turned into a reply; errors pass through unchanged.
 */
module Hub {
  import opened Wrappers
  import opened Common
  import opened ReferralCode
  import opened Storage
  import opened External
  import opened Errors
  import opened Reply
  import opened Msg
  import Dapp
  import Referral
  import HubCollect

  /** A handler finished with `f` applied to its value. */
  function MapReply<T>(s: Step<T>, f: T -> Reply): (t: Step<Reply>)
    ensures t.ledger == s.ledger
    ensures t.result.Ok? <==> s.result.Ok?
    ensures s.result.Ok? ==> t.result.value == f(s.result.value)
    ensures s.result.Err? ==> t.result.error == s.result.error
  {
    match s.result
    case Err(e) => Step(s.ledger, Err(e))
    case Ok(v) => Step(s.ledger, Ok(f(v)))
  }

  /**
   * `s` is the handler's step `t` passed through: the same writes, and the
   * same error when the handler fails.
   */
  predicate Forwards<T>(s: Step<Reply>, t: Step<T>)
  {
    && s.ledger == t.ledger
    && (s.result.Err? <==> t.result.Err?)
    && (t.result.Err? ==> s.result.error == t.result.error)
  }

  function ExecStep(l: Ledger, chain: Chain, msg: Msg): (s: Step<Reply>)
    // each kind of message is handled by its own handler, whose writes and errors pass through
    ensures msg.kind == Register(Registration.Referrer) ==>
      Forwards(s, Referral.RegisterStep(l, msg.sender))
    ensures msg.kind.Register? && msg.kind.registration.Dapp? ==>
      Forwards(s, Dapp.RegisterStep(l, chain, msg.sender, msg.kind.registration.name,
                                    msg.kind.registration.percent, msg.kind.registration.collector))
    ensures msg.kind.Register? && msg.kind.registration.RewardsPot? ==>
      Forwards(s, Dapp.SetRewardsPotStep(l, chain, msg.kind.registration.dapp, msg.kind.registration.rewardsPot))
    ensures msg.kind.Register? && msg.kind.registration.DeregisterDapp? ==>
      Forwards(s, Dapp.DeregisterStep(l, msg.sender, msg.kind.registration.dapp,
                                      msg.kind.registration.rewardsAdmin, msg.kind.registration.rewardsRecipient))
    ensures msg.kind.Referral? ==> Forwards(s, Referral.RecordStep(l, chain, msg.sender, msg.kind.code))
    ensures msg.kind.Collect? && msg.kind.collection.Referrer? ==>
      Forwards(s, HubCollect.ReferrerStep(l, msg.sender, msg.kind.collection.dapp, msg.kind.collection.code))
    ensures msg.kind.Collect? && msg.kind.collection.Dapp? ==>
      Forwards(s, HubCollect.DappStep(l, chain, msg.sender, msg.kind.collection.dapp))
    ensures msg.kind.Config? && msg.kind.configure.TransferReferralCodeOwnership? ==>
      Forwards(s, Referral.TransferOwnershipStep(l, msg.sender, msg.kind.configure.code, msg.kind.configure.owner))
    ensures msg.kind.Config? && msg.kind.configure.DappMetadata? ==>
      Forwards(s, Dapp.ConfigureStep(l, msg.sender, msg.kind.configure.dapp, msg.kind.configure.metadata))
    ensures msg.kind.Config? && msg.kind.configure.DappFee? ==>
      Forwards(s, Step(l, Dapp.SetFee(l.dapp, msg.sender, msg.kind.configure.dapp, msg.kind.configure.fee)))
    // the reply a successful message produces, kind by kind
    ensures s.result.Ok? && msg.kind == Register(Registration.Referrer) ==>
      s.result.value == FromCode(Referral.NextCode(l.referral))
    ensures s.result.Ok? && msg.kind.Register? && msg.kind.registration.Dapp? ==>
      s.result.value == Cmd(Command.CreateRewardsPot(msg.sender))
    ensures s.result.Ok? && msg.kind.Register? && msg.kind.registration.RewardsPot? ==>
      s.result.value == Cmd(Command.SetRewardsRecipient(msg.kind.registration.dapp, msg.kind.registration.rewardsPot))
    ensures s.result.Ok? && msg.kind.Register? && msg.kind.registration.DeregisterDapp? ==>
      s.result.value == MultiCmd(Dapp.DeregisterStep(l, msg.sender, msg.kind.registration.dapp,
                                                     msg.kind.registration.rewardsAdmin,
                                                     msg.kind.registration.rewardsRecipient).result.value)
    ensures s.result.Ok? && msg.kind.Collect? && msg.kind.collection.Referrer? ==>
      s.result.value == Cmd(HubCollect.ReferrerStep(l, msg.sender, msg.kind.collection.dapp, msg.kind.collection.code).result.value)
    ensures s.result.Ok? && msg.kind.Collect? && msg.kind.collection.Dapp? ==>
      s.result.value == Cmd(HubCollect.DappStep(l, chain, msg.sender, msg.kind.collection.dapp).result.value)
    ensures s.result.Ok? && (msg.kind.Referral? || (msg.kind.Config? && !msg.kind.configure.DappFee?)) ==>
      s.result.value == Empty
    ensures s.result.Ok? && msg.kind.Config? && msg.kind.configure.DappFee? ==>
      s.result.value == Cmd(Command.SetDappFee(msg.kind.configure.dapp, msg.kind.configure.fee))
    // the tables each kind of message may write
    ensures (msg.kind.Register? && !msg.kind.registration.Referrer?) || (msg.kind.Config? && msg.kind.configure.DappMetadata?) ==>
      s.ledger.referral == l.referral && s.ledger.collect == l.collect
    ensures (|| msg.kind.Referral?
             || msg.kind == Register(Registration.Referrer)
             || (msg.kind.Config? && msg.kind.configure.TransferReferralCodeOwnership?)) ==>
      s.ledger.dapp == l.dapp && s.ledger.collect == l.collect
    ensures msg.kind.Collect? ==> s.ledger.dapp == l.dapp && s.ledger.referral == l.referral
    ensures msg.kind.Config? && msg.kind.configure.DappFee? ==> s.ledger == l
  {
    match msg.kind
    case Register(reg) => (
      match reg
      case Referrer => MapReply(Referral.RegisterStep(l, msg.sender), FromCode)
      case Dapp(name, percent, collector) =>
        MapReply(Dapp.RegisterStep(l, chain, msg.sender, name, percent, collector), FromCommand)
      case RewardsPot(dapp, pot) => MapReply(Dapp.SetRewardsPotStep(l, chain, dapp, pot), FromCommand)
      case DeregisterDapp(dapp, admin, recipient) =>
        MapReply(Dapp.DeregisterStep(l, msg.sender, dapp, admin, recipient), FromCommands))
    case Referral(code) => MapReply(Referral.RecordStep(l, chain, msg.sender, code), (_: ()) => Empty)
    case Collect(collection) => (
      match collection
      case Referrer(dapp, code) => MapReply(HubCollect.ReferrerStep(l, msg.sender, dapp, code), FromCommand)
      case Dapp(dapp) => MapReply(HubCollect.DappStep(l, chain, msg.sender, dapp), FromCommand))
    case Config(configure) =>
      match configure
      case TransferReferralCodeOwnership(code, owner) =>
        MapReply(Referral.TransferOwnershipStep(l, msg.sender, code, owner), (_: ()) => Empty)
      case DappMetadata(dapp, metadata) => MapReply(Dapp.ConfigureStep(l, msg.sender, dapp, metadata), (_: ()) => Empty)
      case DappFee(dapp, fee) => MapReply(Step(l, Dapp.SetFee(l.dapp, msg.sender, dapp, fee)), FromCommand)
  }

  method Exec(store: Store, chain: Chain, msg: Msg) returns (r: Result<Reply, Error>)
    modifies store.dapp, store.referral, store.collect
    ensures store.State() == ExecStep(old(store.State()), chain, msg).ledger
    ensures r == ExecStep(old(store.State()), chain, msg).result
  {
    match msg.kind {
      case Register(reg) => r := ExecRegister(store, chain, msg.sender, reg);
      case Referral(code) =>
        var c := Referral.Record(store, chain, msg.sender, code);
        r := if c.Err? then Err(c.error) else Ok(Empty);
      case Collect(collection) => r := ExecCollect(store, chain, msg.sender, collection);
      case Config(configure) => r := ExecConfig(store, chain, msg.sender, configure);
    }
  }

  /** The registration arm of `Exec`. */
  method ExecRegister(store: Store, chain: Chain, sender: Id, reg: Registration) returns (r: Result<Reply, Error>)
    modifies store.dapp, store.referral, store.collect
    ensures store.State() == ExecStep(old(store.State()), chain, Msg(sender, Register(reg))).ledger
    ensures r == ExecStep(old(store.State()), chain, Msg(sender, Register(reg))).result
  {
    match reg {
      case Referrer =>
        var c := Referral.Register(store, sender);
        r := if c.Err? then Err(c.error) else Ok(FromCode(c.value));
      case Dapp(name, percent, collector) =>
        var c := Dapp.Register(store, chain, sender, name, percent, collector);
        r := if c.Err? then Err(c.error) else Ok(FromCommand(c.value));
      case RewardsPot(dapp, pot) =>
        var c := Dapp.SetRewardsPot(store, chain, dapp, pot);
        r := if c.Err? then Err(c.error) else Ok(FromCommand(c.value));
      case DeregisterDapp(dapp, admin, recipient) =>
        var c := Dapp.Deregister(store, sender, dapp, admin, recipient);
        r := if c.Err? then Err(c.error) else Ok(FromCommands(c.value));
    }
  }

  /** The collection arm of `Exec`. */
  method ExecCollect(store: Store, chain: Chain, sender: Id, collection: Collection) returns (r: Result<Reply, Error>)
    modifies store.dapp, store.referral, store.collect
    ensures store.State() == ExecStep(old(store.State()), chain, Msg(sender, Collect(collection))).ledger
    ensures r == ExecStep(old(store.State()), chain, Msg(sender, Collect(collection))).result
  {
    match collection {
      case Referrer(dapp, code) =>
        var c := HubCollect.Referrer(store, sender, dapp, code);
        r := if c.Err? then Err(c.error) else Ok(FromCommand(c.value));
      case Dapp(dapp) =>
        var c := HubCollect.CollectDapp(store, chain, sender, dapp);
        r := if c.Err? then Err(c.error) else Ok(FromCommand(c.value));
    }
  }

  /** The configuration arm of `Exec`. */
  method ExecConfig(store: Store, chain: Chain, sender: Id, configure: Configure) returns (r: Result<Reply, Error>)
    modifies store.dapp, store.referral, store.collect
    ensures store.State() == ExecStep(old(store.State()), chain, Msg(sender, Config(configure))).ledger
    ensures r == ExecStep(old(store.State()), chain, Msg(sender, Config(configure))).result
  {
    match configure {
      case TransferReferralCodeOwnership(code, owner) =>
        var c := Referral.TransferOwnership(store, sender, code, owner);
        r := if c.Err? then Err(c.error) else Ok(Empty);
      case DappMetadata(dapp, metadata) =>
        var c := Dapp.Configure(store, sender, dapp, metadata);
        r := if c.Err? then Err(c.error) else Ok(Empty);
      case DappFee(dapp, fee) =>
        var c := Dapp.SetFee(store.dapp.State(), sender, dapp, fee);
        r := if c.Err? then Err(c.error) else Ok(FromCommand(c.value));
    }
  }

  /**
   * The host's transaction around `exec`: the writes of a message that fails
   * are discarded, so a failed message leaves the store as it was.
   */
  method Transact(store: Store, chain: Chain, msg: Msg) returns (r: Result<Reply, Error>)
    modifies store.dapp, store.referral, store.collect
    ensures r == ExecStep(old(store.State()), chain, msg).result
    ensures store.State() == Commit(old(store.State()), ExecStep(old(store.State()), chain, msg))
    ensures r.Err? ==> store.State() == old(store.State())
  {
    var before := store.State();
    r := Exec(store, chain, msg);
    if r.Err? {
      store.Restore(before);
    }
  }
}
