/** The hub generation of the collect handlers: a payout is one `RedistributeRewards` command. */
module HubCollect {
  import opened Wrappers
  import opened Common
  import opened ReferralCode
  import opened Storage
  import opened External
  import opened Errors
  import opened Reply
  import Collection

  /** The single command that pays a payout out of its rewards pot. */
  function Redistribute(p: Collection.Payout): Command
  {
    Command.RedistributeRewards(p.amount, p.pot, p.receiver)
  }

  function ReferrerStep(l: Ledger, sender: Id, dapp: Id, code: Code): (s: Step<Command>)
    ensures s.ledger == Collection.ReferrerStep(l, sender, dapp, code).ledger
    ensures s.result.Ok? <==> Collection.ReferrerStep(l, sender, dapp, code).result.Ok?
    ensures s.result.Ok? ==> s.result.value == Redistribute(Collection.ReferrerStep(l, sender, dapp, code).result.value)
    ensures s.result.Err? ==> s.result.error == Collection.ReferrerStep(l, sender, dapp, code).result.error
  {
    var p := Collection.ReferrerStep(l, sender, dapp, code);
    Step(p.ledger, match p.result case Err(e) => Err(e) case Ok(payout) => Ok(Redistribute(payout)))
  }

  method Referrer(store: Store, sender: Id, dapp: Id, code: Code) returns (r: Result<Command, Error>)
    modifies store.collect
    ensures store.State() == ReferrerStep(old(store.State()), sender, dapp, code).ledger
    ensures r == ReferrerStep(old(store.State()), sender, dapp, code).result
  {
    var p := Collection.Referrer(store, sender, dapp, code);
    if p.Err? {
      return Err(p.error);
    }
    return Ok(Redistribute(p.value));
  }

  function DappStep(l: Ledger, chain: Chain, sender: Id, dapp: Id): (s: Step<Command>)
    ensures s.ledger == Collection.DappStep(l, chain, sender, dapp).ledger
    ensures s.result.Ok? <==> Collection.DappStep(l, chain, sender, dapp).result.Ok?
    ensures s.result.Ok? ==> s.result.value == Redistribute(Collection.DappStep(l, chain, sender, dapp).result.value)
    ensures s.result.Err? ==> s.result.error == Collection.DappStep(l, chain, sender, dapp).result.error
  {
    var p := Collection.DappStep(l, chain, sender, dapp);
    Step(p.ledger, match p.result case Err(e) => Err(e) case Ok(payout) => Ok(Redistribute(payout)))
  }

  method CollectDapp(store: Store, chain: Chain, sender: Id, dapp: Id) returns (r: Result<Command, Error>)
    modifies store.collect
    ensures store.State() == DappStep(old(store.State()), chain, sender, dapp).ledger
    ensures r == DappStep(old(store.State()), chain, sender, dapp).result
  {
    var p := Collection.CollectDapp(store, chain, sender, dapp);
    if p.Err? {
      return Err(p.error);
    }
    return Ok(Redistribute(p.value));
  }
}
