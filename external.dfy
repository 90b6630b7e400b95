/**
 * Facts the hub reads from the chain instead of from its own storage:
 * its own address, the rewards admin of a contract, the admin of a rewards
 * pot, the flat fee currently set for a dApp and the total rewards a pot
 * reports. A fee or total of zero reads as absent (`NonZeroU128::new`).
 */
module External {
  import opened Wrappers
  import opened Common

  datatype Chain = Chain(
    selfId: Id,
    rewardsAdmin: Id -> Id,
    rewardsPotAdmin: Id -> Id,
    currentFee: Id -> Option<NonZeroU128>,
    dappTotalRewards: Id -> Option<NonZeroU128>)
}
