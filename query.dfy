/**
 * The hub's read-only queries: the dApp count, one dApp's summary, a page
 * of dApp summaries in registration order and a referrer's code.
 */
module Query {
  import opened Wrappers
  import opened Common
  import opened ReferralCode
  import opened Storage
  import opened External
  import opened Errors
  import Referral

  datatype DappInfo = DappInfo(
    id: Id,
    active: bool,
    name: Option<string>,
    percent: NonZeroPercent,
    repoUrl: Option<string>,
    fee: Option<NonZeroU128>,
    totalInvocations: nat,
    discreteReferrers: nat,
    totalContributions: U128,
    totalRewards: U128)

  datatype Request =
    | TotalDappCount
    | Dapp(id: Id)
    | AllDapps(start: Option<nat>, limit: Option<nat>)
    | ReferralCode(id: Id)

  datatype Response =
    | TotalDappCount(count: nat)
    | Dapp(info: DappInfo)
    | AllDapps(infos: seq<DappInfo>)
    | ReferralCode(code: Option<Code>)

  /**
   * `dapp_info`: the reads of a dApp's summary in their order. Only the
   * percent and the pot reads can fail; a deregistered dApp still answers,
   * with no name and so not active.
   */
  function DappInfoOf(l: Ledger, chain: Chain, id: Id): (r: Result<DappInfo, Error>)
    ensures r.Ok? <==> id in l.dapp.percent && id in l.dapp.rewardsPot
    ensures r.Err? ==> r.error == Api(Store(NotFound))
    ensures r.Ok? ==>
      && r.value.id == id
      && (r.value.active <==> l.dapp.DappExists(id) && chain.currentFee(id).Some?)
      && r.value.name == l.dapp.DappName(id)
      && r.value.percent == l.dapp.percent[id]
      && r.value.repoUrl == l.dapp.DappRepoUrl(id)
      && r.value.fee == chain.currentFee(id)
      && r.value.totalInvocations == l.referral.DappTotalInvocations(id)
      && r.value.discreteReferrers == l.referral.DappDiscreteReferrers(id)
      && r.value.totalContributions == Referral.Value(l.referral.DappContributions(id))
      // the rewards are those the dApp's own pot reports
      && r.value.totalRewards == Referral.Value(chain.dappTotalRewards(l.dapp.rewardsPot[id]))
  {
    var name := l.dapp.DappName(id);
    match l.dapp.Percent(id)
    case Err(e) => StoreErr(e)
    case Ok(percent) =>
      var repoUrl := l.dapp.DappRepoUrl(id);
      var fee := chain.currentFee(id);
      var invocations := l.referral.DappTotalInvocations(id);
      var discrete := l.referral.DappDiscreteReferrers(id);
      var contributions := Referral.Value(l.referral.DappContributions(id));
      match l.dapp.RewardsPot(id)
      case Err(e) => StoreErr(e)
      case Ok(pot) =>
        var rewards := Referral.Value(chain.dappTotalRewards(pot));
        Ok(DappInfo(id, name.Some? && fee.Some?, name, percent, repoUrl, fee,
                    invocations, discrete, contributions, rewards))
  }

  /** The summaries of `ids` in order, or the first lookup that fails. */
  function InfosOf(l: Ledger, chain: Chain, ids: seq<Id>): (r: Result<seq<DappInfo>, Error>)
    ensures r.Ok? <==> forall k :: 0 <= k < |ids| ==> DappInfoOf(l, chain, ids[k]).Ok?
    ensures r.Ok? ==> |r.value| == |ids| && forall k :: 0 <= k < |ids| ==> r.value[k] == DappInfoOf(l, chain, ids[k]).value
    ensures r.Err? ==> r.error == Api(Store(NotFound))
  {
    if |ids| == 0 then Ok([])
    else match DappInfoOf(l, chain, ids[0])
      case Err(e) => Err(e)
      case Ok(info) =>
        match InfosOf(l, chain, ids[1..])
        case Err(e) => Err(e)
        case Ok(rest) => Ok([info] + rest)
  }

  /** `all_dapps`: the page of ids `all_dapp_ids` selects, each folded into its summary. */
  method AllDappsOf(l: Ledger, chain: Chain, start: Option<nat>, limit: Option<nat>)
    returns (r: Result<seq<DappInfo>, Error>)
    ensures l.AllDappIds(start, limit).Err? ==> r == StoreErr(l.AllDappIds(start, limit).error)
    ensures l.AllDappIds(start, limit).Ok? ==> r == InfosOf(l, chain, l.AllDappIds(start, limit).value)
  {
    var page := l.AllDappIds(start, limit);
    if page.Err? {
      return StoreErr(page.error);
    }
    var ids := page.value;
    var infos: seq<DappInfo> := [];
    for i := 0 to |ids|
      invariant |infos| == i
      invariant forall k :: 0 <= k < i ==> DappInfoOf(l, chain, ids[k]).Ok? && infos[k] == DappInfoOf(l, chain, ids[k]).value
    {
      var info := DappInfoOf(l, chain, ids[i]);
      if info.Err? {
        return Err(info.error);
      }
      infos := infos + [info.value];
    }
    assert InfosOf(l, chain, ids).value == infos;
    return Ok(infos);
  }

  /** `handle`: each request is answered by the response of the same name. */
  method Handle(l: Ledger, chain: Chain, request: Request) returns (r: Result<Response, Error>)
    ensures request.TotalDappCount? ==> r == Ok(Response.TotalDappCount(l.TotalDappCount()))
    ensures request.Dapp? ==>
      && (r.Ok? <==> DappInfoOf(l, chain, request.id).Ok?)
      && (r.Ok? ==> r.value == Response.Dapp(DappInfoOf(l, chain, request.id).value))
    ensures request.AllDapps? ==> (r.Ok? ==> r.value.AllDapps?)
    ensures request.AllDapps? && l.AllDappIds(request.start, request.limit).Ok? ==>
      var infos := InfosOf(l, chain, l.AllDappIds(request.start, request.limit).value);
      && (r.Ok? <==> infos.Ok?)
      && (r.Ok? ==> r.value.infos == infos.value)
    ensures request.AllDapps? && l.AllDappIds(request.start, request.limit).Err? ==>
      r == StoreErr(l.AllDappIds(request.start, request.limit).error)
    ensures request.ReferralCode? ==> r == Ok(Response.ReferralCode(l.referral.ReferralCodeOf(request.id)))
    ensures r.Err? ==> request.Dapp? || request.AllDapps?
  {
    match request {
      case TotalDappCount =>
        r := Ok(Response.TotalDappCount(l.TotalDappCount()));
      case Dapp(id) =>
        var info := DappInfoOf(l, chain, id);
        r := if info.Err? then Err(info.error) else Ok(Response.Dapp(info.value));
      case AllDapps(start, limit) =>
        var infos := AllDappsOf(l, chain, start, limit);
        r := if infos.Err? then Err(infos.error) else Ok(Response.AllDapps(infos.value));
      case ReferralCode(id) =>
        r := Ok(Response.ReferralCode(l.referral.ReferralCodeOf(id)));
    }
  }
}
