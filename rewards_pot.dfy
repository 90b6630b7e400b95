/**
 * The core of a dApp's rewards pot: only its owner (the hub) may have it
 * withdraw its pending rewards or send an amount to a recipient.
 */
module RewardsPot {
  import opened Wrappers
  import opened Common

  /** Errors of the pot core, over the error type `E` of the implementor's API. */
  datatype Error<E> = Api(api: E) | Unauthorized

  datatype Kind = WithdrawPending | Distribute(recipient: Id, amount: NonZeroU128)

  datatype Msg = Msg(sender: Id, kind: Kind)

  datatype Command = WithdrawPending | Send(recipient: Id, amount: NonZeroU128)

  datatype Reply = Empty | Commands(cmds: seq<Command>)

  /** What the pot core reads from its API: the owner and whether rewards are uncollected. */
  datatype View<E> = View(ownerId: Result<Id, E>, hasUncollectedRewards: Result<bool, E>)

  /** The owner check shared by both handlers; the owner read comes first. */
  function Authorize<E>(v: View<E>, sender: Id): (r: Result<(), Error<E>>)
    ensures r.Ok? <==> v.ownerId == Ok(sender)
    ensures r == Err(Unauthorized) <==> v.ownerId.Ok? && v.ownerId.value != sender
    ensures v.ownerId.Err? ==> r == Err(Api(v.ownerId.error))
  {
    match v.ownerId
    case Err(e) => Err(Api(e))
    case Ok(owner) => if sender != owner then Err(Unauthorized) else Ok(())
  }

  /** The commands issued before any send: a withdrawal exactly when rewards are uncollected. */
  function PendingWithdrawal<E>(v: View<E>): (r: Result<seq<Command>, Error<E>>)
    ensures v.hasUncollectedRewards.Err? ==> r == Err(Api(v.hasUncollectedRewards.error))
    ensures v.hasUncollectedRewards == Ok(true) ==> r == Ok([Command.WithdrawPending])
    ensures v.hasUncollectedRewards == Ok(false) ==> r == Ok([])
  {
    match v.hasUncollectedRewards
    case Err(e) => Err(Api(e))
    case Ok(pending) => Ok(if pending then [Command.WithdrawPending] else [])
  }

  function WithdrawPendingCmds<E>(v: View<E>, sender: Id): (r: Result<seq<Command>, Error<E>>)
    ensures Authorize(v, sender).Err? ==> r == Err(Authorize(v, sender).error)
    ensures Authorize(v, sender).Ok? ==> r == PendingWithdrawal(v)
    ensures r.Ok? ==> |r.value| <= 1 && forall k :: 0 <= k < |r.value| ==> r.value[k] == Command.WithdrawPending
  {
    match Authorize(v, sender)
    case Err(e) => Err(e)
    case Ok(_) => PendingWithdrawal(v)
  }

  function DistributeCmds<E>(v: View<E>, sender: Id, recipient: Id, amount: NonZeroU128)
    : (r: Result<seq<Command>, Error<E>>)
    ensures Authorize(v, sender).Err? ==> r == Err(Authorize(v, sender).error)
    ensures Authorize(v, sender).Ok? ==>
      && (PendingWithdrawal(v).Err? ==> r == Err(PendingWithdrawal(v).error))
      && (PendingWithdrawal(v).Ok? ==> r == Ok(PendingWithdrawal(v).value + [Send(recipient, amount)]))
    // the send is always last and is the only send
    ensures r.Ok? ==>
      && 1 <= |r.value| <= 2
      && r.value[|r.value| - 1] == Send(recipient, amount)
      && forall k :: 0 <= k < |r.value| - 1 ==> r.value[k] == Command.WithdrawPending
  {
    match Authorize(v, sender)
    case Err(e) => Err(e)
    case Ok(_) =>
      match PendingWithdrawal(v)
      case Err(e) => Err(e)
      case Ok(cmds) => Ok(cmds + [Send(recipient, amount)])
  }

  /** `exec`: both kinds answer with their commands; errors pass through. */
  function Exec<E>(v: View<E>, msg: Msg): (r: Result<Reply, Error<E>>)
    ensures r.Ok? ==> r.value.Commands?
    ensures msg.kind.WithdrawPending? ==>
      && (r.Ok? <==> WithdrawPendingCmds(v, msg.sender).Ok?)
      && (r.Ok? ==> r.value.cmds == WithdrawPendingCmds(v, msg.sender).value)
      && (r.Err? ==> r.error == WithdrawPendingCmds(v, msg.sender).error)
    ensures msg.kind.Distribute? ==>
      && (r.Ok? <==> DistributeCmds(v, msg.sender, msg.kind.recipient, msg.kind.amount).Ok?)
      && (r.Ok? ==> r.value.cmds == DistributeCmds(v, msg.sender, msg.kind.recipient, msg.kind.amount).value)
      && (r.Err? ==> r.error == DistributeCmds(v, msg.sender, msg.kind.recipient, msg.kind.amount).error)
  {
    match msg.kind
    case WithdrawPending =>
      (match WithdrawPendingCmds(v, msg.sender)
       case Err(e) => Err(e)
       case Ok(cmds) => Ok(Commands(cmds)))
    case Distribute(recipient, amount) =>
      match DistributeCmds(v, msg.sender, recipient, amount)
      case Err(e) => Err(e)
      case Ok(cmds) => Ok(Commands(cmds))
  }
}
