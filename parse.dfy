/**
 * Parsing an untrusted CosmWasm execute message, or the reply to a pot's
 * instantiation, into a trusted hub message. Address validation is the
 * host's and is a parameter here.
 */
module Parse {
  import opened Wrappers
  import opened Common
  import opened ReferralCode
  import opened Msg
  import Dapp

  /** The host's parse-reply error, carried unchanged. */
  datatype ParseReplyError = ParseReplyError(reason: string)

  datatype Error =
    | InvalidAddress(address: string)
    | InvalidPercent
    | Reply(reply: ParseReplyError)
    | ExpectedReplyData
    | InvalidReplyData

  /** The JSON execute message a user sends the hub. */
  datatype ExecuteMsg =
    | RegisterReferrer
    | RegisterDapp(name: string, percent: U8, collector: string)
    | DeregisterDapp(dapp: string, rewardsAdmin: string, rewardsRecipient: string)
    | RecordReferral(code: nat)
    | CollectReferrer(code: nat, dapp: string)
    | CollectDapp(dapp: string)
    | TransferOwnership(code: nat, owner: string)
    | ConfigureDapp(dapp: string, newPercent: Option<U8>, newCollector: Option<string>, repoUrl: Option<string>)

  /** `api.addr_validate(a).map(Id::from)`: a valid address becomes the id of the same text. */
  function Address(isValid: string -> bool, a: string): (r: Result<Id, Error>)
    ensures r.Ok? <==> isValid(a)
    ensures r.Ok? ==> r.value.value == a
    ensures r.Err? ==> r.error == InvalidAddress(a)
  {
    if isValid(a) then Ok(Id.From(a)) else Err(InvalidAddress(a))
  }

  function Percent(p: U8): (r: Result<NonZeroPercent, Error>)
    ensures r.Ok? <==> 1 <= p <= 100
    ensures r.Ok? ==> r.value == p
    ensures r.Err? ==> r.error == InvalidPercent
  {
    match NewPercent(p)
    case None => Err(InvalidPercent)
    case Some(percent) => Ok(percent)
  }

  /** An optional field: absent stays absent and is not checked. */
  function OptionalPercent(p: Option<U8>): (r: Result<Option<NonZeroPercent>, Error>)
    ensures p.None? ==> r == Ok(None)
    ensures p.Some? ==> (r.Ok? <==> Percent(p.value).Ok?)
    ensures p.Some? && r.Ok? ==> r.value == Some(p.value)
    ensures r.Err? ==> r.error == InvalidPercent
  {
    match p
    case None => Ok(None)
    case Some(v) =>
      match Percent(v)
      case Err(e) => Err(e)
      case Ok(percent) => Ok(Some(percent))
  }

  function OptionalAddress(isValid: string -> bool, a: Option<string>): (r: Result<Option<Id>, Error>)
    ensures a.None? ==> r == Ok(None)
    ensures a.Some? ==> (r.Ok? <==> isValid(a.value))
    ensures a.Some? && r.Ok? ==> r.value == Some(Id.From(a.value))
    ensures a.Some? && r.Err? ==> r.error == InvalidAddress(a.value)
  {
    match a
    case None => Ok(None)
    case Some(v) =>
      match Address(isValid, v)
      case Err(e) => Err(e)
      case Ok(id) => Ok(Some(id))
  }

  /** The fields of each message are checked in the order they are written. */
  function ParseKind(isValid: string -> bool, m: ExecuteMsg): (r: Result<Kind, Error>)
    ensures m.RegisterReferrer? ==> r == Ok(Register(Registration.Referrer))
    ensures m.RegisterDapp? ==>
      && (Percent(m.percent).Err? ==> r == Err(InvalidPercent))
      && (Percent(m.percent).Ok? && !isValid(m.collector) ==> r == Err(InvalidAddress(m.collector)))
      && (r.Ok? <==> Percent(m.percent).Ok? && isValid(m.collector))
      && (r.Ok? ==> r.value == Register(Registration.Dapp(m.name, m.percent, Id.From(m.collector))))
    ensures m.DeregisterDapp? ==>
      && (r.Ok? <==> isValid(m.dapp) && isValid(m.rewardsAdmin) && isValid(m.rewardsRecipient))
      && (!isValid(m.dapp) ==> r == Err(InvalidAddress(m.dapp)))
      && (isValid(m.dapp) && !isValid(m.rewardsAdmin) ==> r == Err(InvalidAddress(m.rewardsAdmin)))
      && (isValid(m.dapp) && isValid(m.rewardsAdmin) && !isValid(m.rewardsRecipient) ==>
            r == Err(InvalidAddress(m.rewardsRecipient)))
      && (r.Ok? ==> r.value == Register(Registration.DeregisterDapp(
                                 Id.From(m.dapp), Id.From(m.rewardsAdmin), Id.From(m.rewardsRecipient))))
    ensures m.RecordReferral? ==> r == Ok(Referral(Code(m.code)))
    ensures m.CollectReferrer? ==>
      && (r.Ok? <==> isValid(m.dapp))
      && (r.Ok? ==> r.value == Collect(Collection.Referrer(Id.From(m.dapp), Code(m.code))))
      && (r.Err? ==> r.error == InvalidAddress(m.dapp))
    ensures m.CollectDapp? ==>
      && (r.Ok? <==> isValid(m.dapp))
      && (r.Ok? ==> r.value == Collect(Collection.Dapp(Id.From(m.dapp))))
      && (r.Err? ==> r.error == InvalidAddress(m.dapp))
    ensures m.TransferOwnership? ==>
      && (r.Ok? <==> isValid(m.owner))
      && (r.Ok? ==> r.value == Config(Configure.TransferReferralCodeOwnership(Code(m.code), Id.From(m.owner))))
      && (r.Err? ==> r.error == InvalidAddress(m.owner))
    ensures m.ConfigureDapp? ==>
      && (!isValid(m.dapp) ==> r == Err(InvalidAddress(m.dapp)))
      && (isValid(m.dapp) && OptionalPercent(m.newPercent).Err? ==> r == Err(InvalidPercent))
      && (isValid(m.dapp) && OptionalPercent(m.newPercent).Ok? && m.newCollector.Some? && !isValid(m.newCollector.value) ==>
            r == Err(InvalidAddress(m.newCollector.value)))
      && (r.Ok? <==> isValid(m.dapp) && OptionalPercent(m.newPercent).Ok? && OptionalAddress(isValid, m.newCollector).Ok?)
      && (r.Ok? ==> r.value == Config(Configure.DappMetadata(
                                 Id.From(m.dapp),
                                 Dapp.Metadata(OptionalPercent(m.newPercent).value,
                                               OptionalAddress(isValid, m.newCollector).value,
                                               m.repoUrl))))
  {
    match m
    case RegisterReferrer => Ok(Register(Registration.Referrer))
    case RegisterDapp(name, p, c) =>
      (match Percent(p)
       case Err(e) => Err(e)
       case Ok(percent) =>
         match Address(isValid, c)
         case Err(e) => Err(e)
         case Ok(collector) => Ok(Register(Registration.Dapp(name, percent, collector))))
    case DeregisterDapp(d, a, rr) =>
      (match Address(isValid, d)
       case Err(e) => Err(e)
       case Ok(dapp) =>
         match Address(isValid, a)
         case Err(e) => Err(e)
         case Ok(admin) =>
           match Address(isValid, rr)
           case Err(e) => Err(e)
           case Ok(recipient) => Ok(Register(Registration.DeregisterDapp(dapp, admin, recipient))))
    case RecordReferral(code) => Ok(Referral(Code.FromU64(code)))
    case CollectReferrer(code, d) =>
      (match Address(isValid, d)
       case Err(e) => Err(e)
       case Ok(dapp) => Ok(Collect(Collection.Referrer(dapp, Code.FromU64(code)))))
    case CollectDapp(d) =>
      (match Address(isValid, d)
       case Err(e) => Err(e)
       case Ok(dapp) => Ok(Collect(Collection.Dapp(dapp))))
    case TransferOwnership(code, o) =>
      (match Address(isValid, o)
       case Err(e) => Err(e)
       case Ok(owner) => Ok(Config(Configure.TransferReferralCodeOwnership(Code.FromU64(code), owner))))
    case ConfigureDapp(d, p, c, url) =>
      match Address(isValid, d)
      case Err(e) => Err(e)
      case Ok(dapp) =>
        match OptionalPercent(p)
        case Err(e) => Err(e)
        case Ok(percent) =>
          match OptionalAddress(isValid, c)
          case Err(e) => Err(e)
          case Ok(collector) => Ok(Config(Configure.DappMetadata(dapp, Dapp.Metadata(percent, collector, url))))
  }

  /** `parse_exec`: the trusted message carries the message's sender unchanged. */
  function ParseExec(isValid: string -> bool, sender: string, m: ExecuteMsg): (r: Result<Msg, Error>)
    ensures r.Ok? <==> ParseKind(isValid, m).Ok?
    ensures r.Ok? ==> r.value.sender == Id.From(sender) && r.value.kind == ParseKind(isValid, m).value
    ensures r.Err? ==> r.error == ParseKind(isValid, m).error
  {
    match ParseKind(isValid, m)
    case Err(e) => Err(e)
    case Ok(kind) => Ok(Msg(Id.From(sender), kind))
  }

  /** What the host extracts from a successful instantiation reply. */
  datatype InstantiateData = InstantiateData(contractAddress: string, data: Option<seq<bv8>>)

  /**
   * `parse_init_pot_reply`: the new pot says which dApp it serves; the pot
   * re-enters the hub as its own sender. `decode` reads the pot's
   * instantiate response and yields its dApp.
   */
  function ParseInitPotReply(reply: Result<InstantiateData, ParseReplyError>, decode: seq<bv8> -> Option<string>)
    : (r: Result<Msg, Error>)
    ensures reply.Err? ==> r == Err(Reply(reply.error))
    ensures reply.Ok? && reply.value.data.None? ==> r == Err(ExpectedReplyData)
    ensures reply.Ok? && reply.value.data.Some? && decode(reply.value.data.value).None? ==> r == Err(InvalidReplyData)
    ensures r.Ok? <==> reply.Ok? && reply.value.data.Some? && decode(reply.value.data.value).Some?
    ensures r.Ok? ==>
      var pot := Id.From(reply.value.contractAddress);
      && r.value.sender == pot
      && r.value.kind == Register(Registration.RewardsPot(Id.From(decode(reply.value.data.value).value), pot))
  {
    match reply
    case Err(e) => Err(Reply(e))
    case Ok(init) =>
      match init.data
      case None => Err(ExpectedReplyData)
      case Some(data) =>
        match decode(data)
        case None => Err(InvalidReplyData)
        case Some(dapp) =>
          var pot := Id.From(init.contractAddress);
          Ok(Msg(pot, Register(Registration.RewardsPot(Id.From(dapp), pot))))
  }
}
