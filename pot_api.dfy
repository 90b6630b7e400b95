/**
 * The rewards pot's own accounting on Archway: what it has collected so
 * far, how many of the chain's rewards records it has withdrawn, and the
 * messages it queues for the chain. The chain's records arrive as an input
 * sequence, oldest first.
 */
module PotApi {
  import opened Wrappers
  import opened Common
  import RewardsPot

  datatype Error = NotInitialized | DappFeeNotSet | ExpectedReplyData | TotalCollectedOverflow | TotalRewardsOverflow

  datatype Coin = Coin(denom: string, amount: U128)

  datatype RewardsRecord = RewardsRecord(rewards: seq<Coin>)

  /** What the pot reads from the chain: its rewards records and the staking denom. */
  datatype Chain = Chain(records: seq<RewardsRecord>, bondedDenom: string)

  /** The messages the pot queues in its response. */
  datatype Message =
    | WithdrawRewardsByLimit(limit: nat)
    | BankSend(toAddress: Id, amount: NonZeroU128, denom: string)

  /** The sum of a list of coins, taken from its end. */
  function CoinsTotal(cs: seq<Coin>): nat
  {
    if |cs| == 0 then 0 else CoinsTotal(cs[..|cs| - 1]) + cs[|cs| - 1].amount
  }

  /** The sum of every coin of every record. */
  function RecordsTotal(rs: seq<RewardsRecord>): nat
  {
    if |rs| == 0 then 0 else CoinsTotal(rs[0].rewards) + RecordsTotal(rs[1..])
  }

  lemma {:induction false} RecordsTotalSuffix(rs: seq<RewardsRecord>, lo: nat, j: nat)
    requires lo <= j <= |rs|
    ensures RecordsTotal(rs[j..]) <= RecordsTotal(rs[lo..])
    decreases j - lo
  {
    if lo < j {
      RecordsTotalSuffix(rs, lo + 1, j);
      assert rs[lo..][1..] == rs[lo + 1..];
    }
  }

  lemma {:induction false} CoinsTotalPrefix(cs: seq<Coin>, k: nat)
    requires k <= |cs|
    ensures CoinsTotal(cs[..k]) <= CoinsTotal(cs)
    decreases |cs| - k
  {
    if k < |cs| {
      CoinsTotalPrefix(cs[..|cs| - 1], k);
      assert cs[..|cs| - 1][..k] == cs[..k];
    } else {
      assert cs[..k] == cs;
    }
  }

  /** The coins already summed, from the newest record back to `j` and the first `k` coins of record `j`. */
  lemma SummedSoFar(rs: seq<RewardsRecord>, lo: nat, j: nat, k: nat)
    requires lo <= j < |rs| && k <= |rs[j].rewards|
    ensures RecordsTotal(rs[j + 1..]) + CoinsTotal(rs[j].rewards[..k]) <= RecordsTotal(rs[lo..])
  {
    CoinsTotalPrefix(rs[j].rewards, k);
    assert rs[j..][1..] == rs[j + 1..];
    RecordsTotalSuffix(rs, lo, j);
  }

  class Pot {
    var creator: Option<Id>
    var dapp: Option<Id>
    var rewardsCollected: U128
    var recordsCollected: nat
    var rewardsDenom: Option<string>
    var messages: seq<Message>

    /** A pot before `initialize`: nothing stored, every counter at its default of 0. */
    constructor ()
      ensures creator.None? && dapp.None? && rewardsDenom.None?
      ensures rewardsCollected == 0 && recordsCollected == 0 && messages == []
    {
      creator := None;
      dapp := None;
      rewardsCollected := 0;
      recordsCollected := 0;
      rewardsDenom := None;
      messages := [];
    }

    /** `initialize`: store the creator, which becomes the owner, and the dApp. */
    method Initialize(c: Id, d: Id)
      modifies this
      ensures creator == Some(c) && dapp == Some(d)
      ensures rewardsCollected == old(rewardsCollected) && recordsCollected == old(recordsCollected)
      ensures rewardsDenom == old(rewardsDenom) && messages == old(messages)
    {
      creator := Some(c);
      dapp := Some(d);
    }

    /** The records the pot has not withdrawn yet: a saturating difference. */
    function OutstandingRecords(chain: Chain): (n: nat)
      reads this
      ensures recordsCollected >= |chain.records| ==> n == 0
      ensures recordsCollected < |chain.records| ==> n + recordsCollected == |chain.records|
    {
      if |chain.records| <= recordsCollected then 0 else |chain.records| - recordsCollected
    }

    /** The newest `OutstandingRecords` records. */
    function Outstanding(chain: Chain): (rs: seq<RewardsRecord>)
      reads this
      ensures |rs| == OutstandingRecords(chain)
      ensures rs == chain.records[|chain.records| - OutstandingRecords(chain)..]
    {
      chain.records[|chain.records| - OutstandingRecords(chain)..]
    }

    /** `owner_id`: the stored creator. */
    function OwnerId(): (r: Result<Id, Error>)
      reads this
      ensures r.Ok? <==> creator.Some?
      ensures r.Ok? ==> r.value == creator.value
      ensures r.Err? ==> r.error == NotInitialized
    {
      match creator
      case None => Err(NotInitialized)
      case Some(c) => Ok(Id.From(c.IntoString()))
    }

    /** `dapp`: the stored dApp. */
    function Dapp(): (r: Result<Id, Error>)
      reads this
      ensures r.Ok? <==> dapp.Some?
      ensures r.Ok? ==> r.value == dapp.value
      ensures r.Err? ==> r.error == NotInitialized
    {
      match dapp
      case None => Err(NotInitialized)
      case Some(d) => Ok(d)
    }

    function HasUncollectedRewards(chain: Chain): (b: bool)
      reads this
      ensures b <==> recordsCollected < |chain.records|
    {
      OutstandingRecords(chain) > 0
    }

    /** What the pot core reads from this pot. */
    function View(chain: Chain): (v: RewardsPot.View<Error>)
      reads this
      ensures v.ownerId == OwnerId()
      ensures v.hasUncollectedRewards == Ok(HasUncollectedRewards(chain))
    {
      RewardsPot.View(OwnerId(), Ok(HasUncollectedRewards(chain)))
    }

    /**
     * `total_rewards`: what the pot has collected plus every coin of its
     * outstanding records, newest record first, with each addition checked.
     * The order does not matter: an addition fails exactly when the whole
     * sum exceeds `u128::MAX`.
     */
    method TotalRewards(chain: Chain) returns (r: Result<U128, Error>)
      ensures OutstandingRecords(chain) == 0 ==> r == Ok(rewardsCollected)
      ensures r.Ok? <==> rewardsCollected + RecordsTotal(Outstanding(chain)) <= U128_MAX
      ensures r.Ok? ==> r.value == rewardsCollected + RecordsTotal(Outstanding(chain))
      ensures r.Err? ==> r.error == TotalRewardsOverflow
    {
      var n := OutstandingRecords(chain);
      if n == 0 {
        return Ok(rewardsCollected);
      }
      var rs := chain.records;
      var lo := |rs| - n;
      var total: U128 := rewardsCollected;
      var j := |rs|;
      while j > lo
        invariant lo <= j <= |rs|
        invariant total == rewardsCollected + RecordsTotal(rs[j..])
        decreases j
      {
        j := j - 1;
        var coins := rs[j].rewards;
        var k := 0;
        while k < |coins|
          invariant 0 <= k <= |coins|
          invariant total == rewardsCollected + RecordsTotal(rs[j + 1..]) + CoinsTotal(coins[..k])
          decreases |coins| - k
        {
          if total + coins[k].amount > U128_MAX {
            assert coins[..k + 1][..k] == coins[..k];
            SummedSoFar(rs, lo, j, k + 1);
            return Err(TotalRewardsOverflow);
          }
          assert coins[..k + 1][..k] == coins[..k];
          total := total + coins[k].amount;
          k := k + 1;
        }
        assert coins[..k] == coins;
        assert rs[j..][1..] == rs[j + 1..];
      }
      return Ok(total);
    }

    /**
     * `handle_withdraw_rewards_response`: the first coin of a withdrawal is
     * added to what was collected, and every record the chain now holds
     * counts as collected. A response without coins changes nothing.
     */
    method HandleWithdrawRewardsResponse(chain: Chain, totalRewards: seq<Coin>) returns (r: Result<(), Error>)
      modifies this
      ensures |totalRewards| == 0 ==> r.Ok? && unchanged(this)
      ensures |totalRewards| > 0 && old(rewardsCollected) + totalRewards[0].amount > U128_MAX ==>
        r == Err(TotalCollectedOverflow) && unchanged(this)
      ensures |totalRewards| > 0 && old(rewardsCollected) + totalRewards[0].amount <= U128_MAX ==>
        && r.Ok?
        && rewardsCollected == old(rewardsCollected) + totalRewards[0].amount
        && recordsCollected == |chain.records|
        && creator == old(creator) && dapp == old(dapp)
        && rewardsDenom == old(rewardsDenom) && messages == old(messages)
    {
      if |totalRewards| == 0 {
        return Ok(());
      }
      var added := CheckedAdd(rewardsCollected, totalRewards[0].amount);
      if added.None? {
        return Err(TotalCollectedOverflow);
      }
      rewardsCollected := added.value;
      recordsCollected := |chain.records|;
      return Ok(());
    }

    /** The denom sends are made in: the cached one, else the chain's staking denom. */
    function Denom(chain: Chain): (d: string)
      reads this
      ensures rewardsDenom.Some? ==> d == rewardsDenom.value
      ensures rewardsDenom.None? ==> d == chain.bondedDenom
    {
      rewardsDenom.GetOr(chain.bondedDenom)
    }

    /** `withdraw_pending`: one withdrawal of all outstanding records, if there are any. */
    method WithdrawPending(chain: Chain)
      modifies this
      ensures OutstandingRecords(chain) == 0 ==> messages == old(messages)
      ensures OutstandingRecords(chain) > 0 ==>
        messages == old(messages) + [WithdrawRewardsByLimit(old(OutstandingRecords(chain)))]
      ensures creator == old(creator) && dapp == old(dapp) && rewardsDenom == old(rewardsDenom)
      ensures rewardsCollected == old(rewardsCollected) && recordsCollected == old(recordsCollected)
    {
      var n := OutstandingRecords(chain);
      if n == 0 {
        return;
      }
      messages := messages + [WithdrawRewardsByLimit(n)];
    }

    /** `send_rewards`: a bank send in the rewards denom, which is cached on first use. */
    method SendRewards(chain: Chain, receiver: Id, amount: NonZeroU128)
      modifies this
      ensures messages == old(messages) + [BankSend(receiver, amount, old(Denom(chain)))]
      ensures rewardsDenom == Some(old(Denom(chain)))
      ensures creator == old(creator) && dapp == old(dapp)
      ensures rewardsCollected == old(rewardsCollected) && recordsCollected == old(recordsCollected)
    {
      var denom := Denom(chain);
      rewardsDenom := Some(denom);
      messages := messages + [BankSend(receiver, amount, denom)];
    }

    /**
     * `handle_reply` over this pot: the commands are applied in order and the
     * queued messages are the response. Every send uses the same denom.
     */
    method HandleReply(chain: Chain, reply: RewardsPot.Reply) returns (response: seq<Message>)
      modifies this
      ensures response == messages
      ensures reply.Empty? ==> messages == old(messages)
      ensures reply.Commands? ==>
        messages == old(messages) + MessagesFor(reply.cmds, old(OutstandingRecords(chain)), old(Denom(chain)))
      ensures reply.Commands? && HasSend(reply.cmds) ==> rewardsDenom == Some(old(Denom(chain)))
      ensures reply.Empty? || !HasSend(reply.cmds) ==> rewardsDenom == old(rewardsDenom)
      ensures creator == old(creator) && dapp == old(dapp)
      ensures rewardsCollected == old(rewardsCollected) && recordsCollected == old(recordsCollected)
    {
      if reply.Commands? {
        var cmds := reply.cmds;
        ghost var n := OutstandingRecords(chain);
        ghost var denom := Denom(chain);
        ghost var before := messages;
        for i := 0 to |cmds|
          invariant messages == before + MessagesFor(cmds[..i], n, denom)
          invariant OutstandingRecords(chain) == n && Denom(chain) == denom
          invariant rewardsDenom == (if HasSend(cmds[..i]) then Some(denom) else old(rewardsDenom))
          invariant creator == old(creator) && dapp == old(dapp)
          invariant rewardsCollected == old(rewardsCollected) && recordsCollected == old(recordsCollected)
        {
          assert cmds[..i + 1][..i] == cmds[..i];
          match cmds[i] {
            case WithdrawPending => WithdrawPending(chain);
            case Send(recipient, amount) => SendRewards(chain, recipient, amount);
          }
        }
        assert cmds[..|cmds|] == cmds;
      }
      response := messages;
    }
  }

  /** The messages a list of pot commands queues, with `n` records outstanding and sends in `denom`. */
  function MessagesFor(cmds: seq<RewardsPot.Command>, n: nat, denom: string): (ms: seq<Message>)
  {
    if |cmds| == 0 then []
    else
      MessagesFor(cmds[..|cmds| - 1], n, denom) +
      match cmds[|cmds| - 1]
      case WithdrawPending => if n == 0 then [] else [WithdrawRewardsByLimit(n)]
      case Send(recipient, amount) => [BankSend(recipient, amount, denom)]
  }

  predicate HasSend(cmds: seq<RewardsPot.Command>)
  {
    exists k :: 0 <= k < |cmds| && cmds[k].Send?
  }
}
