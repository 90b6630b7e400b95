/** The trusted messages the hub handles: who sent it and what kind of request it is. */
module Msg {
  import opened Wrappers
  import opened Common
  import opened ReferralCode
  import Dapp

  datatype Registration =
    | Referrer
    | Dapp(name: string, percent: NonZeroPercent, collector: Id)
    /** Re-entry from the rewards pot's instantiation reply. */
    | RewardsPot(dapp: Id, rewardsPot: Id)
    | DeregisterDapp(dapp: Id, rewardsAdmin: Id, rewardsRecipient: Id)

  datatype Collection =
    | Referrer(dapp: Id, code: Code)
    | Dapp(dapp: Id)

  datatype Configure =
    | TransferReferralCodeOwnership(code: Code, owner: Id)
    | DappMetadata(dapp: Id, metadata: Dapp.Metadata)
    | DappFee(dapp: Id, fee: NonZeroU128)

  datatype Kind =
    | Register(registration: Registration)
    | Referral(code: Code)
    | Collect(collection: Collection)
    | Config(configure: Configure)

  datatype Msg = Msg(sender: Id, kind: Kind)

  /** `From<Registration> for Kind` */
  function FromRegistration(r: Registration): (k: Kind)
    ensures k.Register? && k.registration == r
  {
    Register(r)
  }

  /** `From<Collection> for Kind` */
  function FromCollection(c: Collection): (k: Kind)
    ensures k.Collect? && k.collection == c
  {
    Collect(c)
  }

  /** `From<Configure> for Kind` */
  function FromConfigure(c: Configure): (k: Kind)
    ensures k.Config? && k.configure == c
  {
    Config(c)
  }
}
