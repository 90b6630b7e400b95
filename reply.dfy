/**
 * What a handled message asks the contract to do next: a `Reply` made of
 * `Command`s, and the loop that hands each command to the API that turns it
 * into chain messages.
 */
module Reply {
  import opened Wrappers
  import opened Common
  import opened ReferralCode

  datatype Command =
    | CreateRewardsPot(dapp: Id)
    | SetRewardsRecipient(dapp: Id, recipient: Id)
    | SetRewardsAdmin(dapp: Id, admin: Id)
    | SetDappFee(dapp: Id, amount: NonZeroU128)
    | RedistributeRewards(amount: NonZeroU128, pot: Id, receiver: Id)
    | WithdrawPending(pot: Id)

  datatype Reply =
    | Empty
    | ReferralCode(code: Code)
    | Cmd(cmd: Command)
    | MultiCmd(cmds: seq<Command>)

  /** `From<ReferralCode> for Reply` */
  function FromCode(code: Code): (r: Reply)
    ensures r.ReferralCode? && r.code == code
  {
    ReferralCode(code)
  }

  /** `From<Command> for Reply` */
  function FromCommand(cmd: Command): (r: Reply)
    ensures r.Cmd? && r.cmd == cmd
  {
    Cmd(cmd)
  }

  /** `From<impl IntoIterator<Item = Command>> for Reply`: order and multiplicity are kept. */
  function FromCommands(cmds: seq<Command>): (r: Reply)
    ensures r.MultiCmd? && |r.cmds| == |cmds|
    ensures forall i :: 0 <= i < |cmds| ==> r.cmds[i] == cmds[i]
  {
    MultiCmd(cmds)
  }

  /** One call of the `Handle` trait, with its arguments. */
  datatype ApiCall =
    | AddReferralCode(code: Code)
    | CreateRewardsPot(dapp: Id)
    | SetRewardsRecipient(dapp: Id, recipient: Id)
    | SetRewardsAdmin(dapp: Id, admin: Id)
    | SetDappFee(dapp: Id, amount: NonZeroU128)
    | WithdrawRewards(pot: Id)
    | DistributeRewards(pot: Id, amount: NonZeroU128, receiver: Id)

  datatype HandleError = Rejected(call: ApiCall)

  /**
   * An implementor of the `Handle` trait, as a value: the calls it has
   * accepted so far (`into_response` returns them) and which calls it
   * rejects with an error. The chain messages it builds for each call are
   * not part of this model.
   */
  datatype HandleApi = HandleApi(calls: seq<ApiCall>, rejects: ApiCall -> bool)
  {
    function Call(c: ApiCall): (r: Result<HandleApi, HandleError>)
      ensures r.Ok? <==> !rejects(c)
      ensures r.Ok? ==> r.value.calls == calls + [c] && r.value.rejects == rejects
      ensures r.Err? ==> r.error == Rejected(c)
    {
      if rejects(c) then Err(Rejected(c)) else Ok(this.(calls := calls + [c]))
    }
  }

  /** The API call `handle_cmd` makes for a command. */
  function CallOf(cmd: Command): (c: ApiCall)
    ensures CommandOf(c) == Some(cmd)
  {
    match cmd
    case CreateRewardsPot(dapp) => ApiCall.CreateRewardsPot(dapp)
    case SetRewardsRecipient(dapp, recipient) => ApiCall.SetRewardsRecipient(dapp, recipient)
    case SetRewardsAdmin(dapp, admin) => ApiCall.SetRewardsAdmin(dapp, admin)
    case SetDappFee(dapp, amount) => ApiCall.SetDappFee(dapp, amount)
    case RedistributeRewards(amount, pot, receiver) => DistributeRewards(pot, amount, receiver)
    case WithdrawPending(pot) => WithdrawRewards(pot)
  }

  /** The command a call enacts; adding a referral code is not a command. */
  function CommandOf(c: ApiCall): Option<Command>
  {
    match c
    case AddReferralCode(_) => None
    case CreateRewardsPot(dapp) => Some(Command.CreateRewardsPot(dapp))
    case SetRewardsRecipient(dapp, recipient) => Some(Command.SetRewardsRecipient(dapp, recipient))
    case SetRewardsAdmin(dapp, admin) => Some(Command.SetRewardsAdmin(dapp, admin))
    case SetDappFee(dapp, amount) => Some(Command.SetDappFee(dapp, amount))
    case WithdrawRewards(pot) => Some(Command.WithdrawPending(pot))
    case DistributeRewards(pot, amount, receiver) => Some(Command.RedistributeRewards(amount, pot, receiver))
  }

  /** Distinct commands are enacted by distinct calls. */
  lemma CallOfInjective(a: Command, b: Command)
    requires CallOf(a) == CallOf(b)
    ensures a == b
  {
    assert Some(a) == CommandOf(CallOf(a));
  }

  /** `handle_cmd`: exactly one API call per command. */
  function HandleCmd(api: HandleApi, cmd: Command): (r: Result<HandleApi, HandleError>)
    ensures r.Ok? <==> !api.rejects(CallOf(cmd))
    ensures r.Ok? ==> r.value.calls == api.calls + [CallOf(cmd)] && r.value.rejects == api.rejects
    ensures r.Err? ==> r.error == Rejected(CallOf(cmd))
  {
    api.Call(CallOf(cmd))
  }

  /** Whether the first `n` commands are all accepted. */
  ghost predicate AllAccepted(api: HandleApi, cmds: seq<Command>, n: nat)
    requires n <= |cmds|
  {
    forall j :: 0 <= j < n ==> !api.rejects(CallOf(cmds[j]))
  }

  function Calls(cmds: seq<Command>): (cs: seq<ApiCall>)
    ensures |cs| == |cmds|
    ensures forall i :: 0 <= i < |cmds| ==> cs[i] == CallOf(cmds[i])
  {
    if cmds == [] then [] else [CallOf(cmds[0])] + Calls(cmds[1..])
  }

  /**
   * `handle`: enacts the reply's commands in list order and stops at the
   * first rejected call, whose error it returns; on success the response is
   * the calls made.
   */
  method Handle(api: HandleApi, reply: Reply) returns (r: Result<seq<ApiCall>, HandleError>)
    ensures reply.Empty? ==> r == Ok(api.calls)
    ensures reply.ReferralCode? ==>
      r == (if api.rejects(AddReferralCode(reply.code)) then Err(Rejected(AddReferralCode(reply.code)))
            else Ok(api.calls + [AddReferralCode(reply.code)]))
    ensures reply.Cmd? ==>
      r == (if api.rejects(CallOf(reply.cmd)) then Err(Rejected(CallOf(reply.cmd)))
            else Ok(api.calls + [CallOf(reply.cmd)]))
    ensures reply.MultiCmd? ==> (r.Ok? <==> AllAccepted(api, reply.cmds, |reply.cmds|))
    ensures reply.MultiCmd? && r.Ok? ==> r.value == api.calls + Calls(reply.cmds)
    ensures reply.MultiCmd? && r.Err? ==>
      exists k :: 0 <= k < |reply.cmds| && AllAccepted(api, reply.cmds, k)
        && api.rejects(CallOf(reply.cmds[k])) && r.error == Rejected(CallOf(reply.cmds[k]))
  {
    match reply {
      case Empty =>
        return Ok(api.calls);
      case ReferralCode(code) =>
        var next := api.Call(AddReferralCode(code));
        if next.Err? { return Err(next.error); }
        return Ok(next.value.calls);
      case Cmd(cmd) =>
        var next := HandleCmd(api, cmd);
        if next.Err? { return Err(next.error); }
        return Ok(next.value.calls);
      case MultiCmd(cmds) =>
        var current := api;
        for i := 0 to |cmds|
          invariant current.rejects == api.rejects
          invariant AllAccepted(api, cmds, i)
          invariant current.calls == api.calls + Calls(cmds[..i])
        {
          var next := HandleCmd(current, cmds[i]);
          if next.Err? {
            return Err(next.error);
          }
          assert cmds[..i + 1] == cmds[..i] + [cmds[i]];
          CallsAppend(cmds[..i], cmds[i]);
          current := next.value;
        }
        assert cmds[..|cmds|] == cmds;
        return Ok(current.calls);
    }
  }

  lemma {:induction false} CallsAppend(cmds: seq<Command>, c: Command)
    ensures Calls(cmds + [c]) == Calls(cmds) + [CallOf(c)]
  {
  }
}
