# Referrals hub and rewards pot — a Dafny model

This project models the core of a referral-rewards system for dApps on a
CosmWasm chain (Archway). The model covers:

- **The hub.** It keeps a registry of dApps: each dApp's name, fee percentage, collector, repository URL and rewards pot.
- **Referrers.** Each referrer owns a numeric referral code.
- **Recording a referral.** Every time a dApp records a referral, the referrer is credited `percent` of the dApp's current fee.
- **Contributions.** The credit is also added to the dApp's total contributions.
- **Collection.**
  - A referrer collects what it has earned on a dApp and has not yet collected.
  - A dApp, or its collector, collects what its rewards pot reports minus the referrers' contributions, less what it has already collected.
- **Commands.** The hub answers with commands for the chain: create a pot, set a rewards recipient or admin, set a fee, withdraw pending rewards, redistribute.
- **The rewards pot.** A second contract. It withdraws the dApp's accumulated rewards and pays them out on the hub's behalf.

Structure of the model:

- **Storage.** The key-value store is modelled as three namespaces of maps in `Storage.Ledger`:
  - the dApp records (`DappState`);
  - the referral records (`ReferralState`);
  - the collection records (`CollectState`).
- **Mutable store.** The store the core mutates is a set of classes (`Storage.DappStore`, `ReferralStore`, `CollectStore`, `Store`). Each setter changes its namespace in place.
- **Operations.** Every operation of the core has two parts:
  - a pure step function (`…Step`). It returns the ledger after the writes the Rust code makes, in its order, together with the result. When the operation fails part-way, the writes it had already made are kept in that ledger.
  - an imperative method. It performs those writes on the store and is proved equal to the step function.
- **Rollback.** The chain discards the writes of a failing transaction. `Errors.Commit` models this, and so does `Hub.Transact`, which restores the snapshot.
- **Chain facts.** Everything the core asks of the chain is given as a `External.Chain` value:
  - its own address;
  - the rewards admin of a dApp;
  - the admin of a pot;
  - the current fee;
  - the rewards a pot reports;
  - the rewards records and the bonded denomination.

Proved on top of the operations:

- **An invariant over the whole store.** `Invariants.Valid` is proved to hold on every state reachable from the empty store by any sequence of hub messages (`Invariants.ReachableValid`). It states that:
  - the dApp index is consistent and gap-free;
  - codes are issued in increasing order;
  - code ownership is consistent in both directions;
  - invocation counters agree;
  - every earning belongs to a registered code;
  - no referrer has collected more than it earned.
- **Collection properties.**
  - Collection pays exactly the outstanding amount.
  - A second collection with nothing new yields `NothingToCollect`.
  - Under the invariant, referrer collection cannot underflow.
  - Deregistering a dApp does not stop anyone collecting.
- **The repository's test scenarios, replayed through `Hub.ExecStep`.**
  - The ten-message session: register, set pot, register a referrer, set the fee, configure, transfer, record, collect as the referrer, collect as the dApp, and deregister. It produces 750 and 583, and ends with the pot's withdraw and hand-over commands.
  - Collection after deregistration, producing 500 and 722.

Design choices where the code base disagrees with itself:

- **Register takes a name.** The hub passes the dApp's name to `register` (`crates/core/hub.rs:76`) and the storage stores it, so the model follows the hub. The `register` body in `crates/core/dapp.rs:123-145` takes no name. `crates/core/hub/dapp.rs` is not part of this model.
- **Command shape.** The `Command` enum follows `crates/core/hub/reply.rs:69-86`: two-field `SetRewardsRecipient(dapp, recipient)` / `SetRewardsAdmin(dapp, admin)`.
- **Collection.** There are two generations of collection:
  - `crates/core/collect.rs` returns a withdraw command followed by a redistribute command. It is modelled in module `Collect`.
  - `crates/core/hub/collect.rs` returns a single redistribute command. It is modelled in module `HubCollect`, which is the one `Hub.ExecStep` dispatches to, as `crates/core/hub.rs` does.
  - Both are thin wrappers over the shared logic in module `Collection`.
- **Unchecked subtractions.** Rust's `u128` subtractions in the collection code are unchecked. The model turns the case where the subtrahend is larger into the explicit error `Underflow`, which stands for the panic a debug build raises. `Underflow` is therefore an extra variant of the hub error that the source does not have.
  - On the referrer side, `Properties.ReferrerNeverUnderflows` proves that this case cannot occur under the invariant.
  - On the dApp side it can occur: the pot may report fewer rewards than the contributions already credited, or fewer than the dApp has already collected. Nothing in the hub rules this out, because the pot's figure is a fact supplied by the chain.

## Model

| member | source | states |
|---|---|---|
| Common.Id.From | crates/core/common.rs:23-30 | `Id::from(s)` holds exactly the string `s` |
| Common.Id.IntoString | crates/core/common.rs:12-15 | `into_string` is inverted by `Id::from` |
| Common.Id.AsStr | crates/core/common.rs:17-20 | `as_str` yields the same text as `into_string` |
| Common.IdConversions | crates/core/common.rs:12-30 | string → Id → string and Id → string → Id are both identities |
| Common.NonZero | crates/core/common.rs:67 | `NonZeroU128::new` is `Some` exactly when the value is non-zero, and then carries the value |
| Common.CheckedAdd | crates/cosmwasm/archway/api/rewards_pot.rs:197-200 | `u128::checked_add`: `Some(a+b)` exactly when the sum fits in 128 bits |
| Common.CheckedMul | crates/core/common.rs:64-68 | `checked_mul`: `Some(a*b)` exactly when the product fits in 128 bits |
| Common.CheckedAddNonZero | crates/core/referral.rs:216-221 | `NonZeroU128::checked_add`: `Some(a+b)` exactly when the sum fits |
| Common.NewPercent | crates/core/common.rs:49-55 | a percentage is accepted exactly when it lies in 1..=100, and keeps its value |
| Common.ToU8 | crates/core/common.rs:58-60 | `to_u8` is inverted by `new` |
| Common.PercentRoundTrip | crates/core/common.rs:49-60 | `new(p)` then `to_u8` gives back `p` for every accepted `p` |
| Common.PercentToNonZeroU128 | crates/core/common.rs:71-75 | the conversion to `NonZeroU128` keeps the percentage's value |
| Common.CheckedApplyTo | crates/core/common.rs:64-68 | `None` exactly on multiplication overflow; `Some(None)` exactly when `amount*p < 100` (truncates to zero); otherwise `floor(amount*p/100)` |
| Common.ShareAtMostAmount | crates/core/common.rs:64-68 | an applied percentage never exceeds the amount it is applied to |
| Common.HalfOfThousand | test/referrals_core/referral/record.rs:5-35 | 50% of 1000 is 500 |
| Common.HalfOfMaxOverflows | test/referrals_core/referral/record.rs:63-76 | applying 50% to `u128::MAX` overflows |
| Common.TruncatedShareIsAbsent | crates/core/hub/common.rs:25-29 | 1% of 99 truncates to zero and is `Some(None)`, not an error |
| ReferralCode.Code.Default | crates/core/referral.rs:5-6 | the default code is 0 |
| ReferralCode.Code.Next | crates/core/referral.rs:9-11 | the next code is one more than the current one |
| ReferralCode.Code.ToU64 | crates/core/referral.rs:13-16 | `to_u64` is inverted by `From<u64>` |
| ReferralCode.Code.FromU64 | crates/core/referral.rs:19-23 | `From<u64>` keeps the number |
| Msg.FromRegistration | crates/core/hub/msg.rs:71-75 | a registration converts to the `Register` kind carrying it |
| Msg.FromCollection | crates/core/hub/msg.rs:65-69 | a collection converts to the `Collect` kind carrying it |
| Msg.FromConfigure | crates/core/hub/msg.rs:59-63 | a configuration converts to the `Config` kind carrying it |
| Storage.Lookup | crates/storage/storage.rs:370-380 | `may_load` is `Some` exactly when the key is stored, with the stored value |
| Storage.Require | crates/storage/storage.rs:84-110 | a required read succeeds exactly when the key is stored, otherwise `NotFound` |
| Storage.Ledger.TotalDappCount | crates/storage/storage.rs:331-337 | the count is zero exactly when no dApp was ever indexed |
| Storage.AddDappNewId | crates/storage/storage.rs:117-131 | a first-time dApp gets the next index in both directions, the last index advances, the name is stored, nothing else changes |
| Storage.AddDappKnownId | crates/storage/storage.rs:117-131 | re-adding an indexed dApp only rewrites its name |
| Storage.RemoveDappKeepsRecords | crates/storage/storage.rs:133-137 | removal deletes only the name entry; percent, collector, pot and index survive; other dApps are unaffected |
| Storage.SetCodeOwnerBothWays | crates/storage/storage.rs:252-256 | the code maps to the owner and the owner to the code; other codes unaffected; a previous owner keeps its owner-to-code entry |
| Storage.IncrementInvocationsCounts | crates/storage/storage.rs:258-292 | the pair's counter and the dApp's total rise by one; discrete referrers rise by one exactly on the pair's first invocation |
| Storage.IncrementInvocationsLocal | crates/storage/storage.rs:258-292 | no other pair's or dApp's counters change, and no other namespace is touched |
| Storage.TotalDappCountAfterAdd | crates/storage/storage.rs:117-126 | adding a new dApp raises the total count by one; re-adding leaves it |
| Storage.IdsBetweenIndexed | crates/storage/storage.rs:359-367 | loading indexes `lo..=hi` succeeds exactly when each is stored, and yields them in index order |
| Storage.AllDappIdsPage | crates/storage/storage.rs:339-368 | empty registry gives `[]`; a start past the last index gives `IndexOutOfBounds`; otherwise the page is the ids at `start..=end` in order |
| Storage.AllDappIdsEverything | crates/storage/storage.rs:339-368 | with no start and no limit, every registered id is returned, in index order |
| Storage.DappStore.AddDapp | crates/storage/storage.rs:117-131 | the dApp namespace becomes the pure `AddDapp` of the old one |
| Storage.DappStore.RemoveDapp | crates/storage/storage.rs:133-137 | the namespace becomes the pure `RemoveDapp` of the old one |
| Storage.DappStore.SetPercent | crates/storage/storage.rs:139-143 | the percent is overwritten, nothing else |
| Storage.DappStore.SetCollector | crates/storage/storage.rs:145-149 | the collector is overwritten, nothing else |
| Storage.DappStore.SetRepoUrl | crates/storage/storage.rs:151-155 | the repository URL is overwritten, nothing else |
| Storage.DappStore.SetRewardsPot | crates/storage/storage.rs:157-161 | the rewards pot is overwritten, nothing else |
| Storage.ReferralStore.SetLatest | crates/storage/storage.rs:246-250 | the latest code is overwritten, nothing else |
| Storage.ReferralStore.SetCodeOwner | crates/storage/storage.rs:252-256 | both ownership directions are written, nothing else |
| Storage.ReferralStore.IncrementInvocations | crates/storage/storage.rs:258-292 | the three counters change as the pure `IncrementInvocations` says |
| Storage.ReferralStore.SetTotalEarnings | crates/storage/storage.rs:294-302 | the code's total earnings are overwritten, nothing else |
| Storage.ReferralStore.SetDappEarnings | crates/storage/storage.rs:304-313 | the pair's earnings are overwritten, nothing else |
| Storage.ReferralStore.SetDappContributions | crates/storage/storage.rs:315-323 | the dApp's contributions are overwritten, nothing else |
| Storage.CollectStore.SetReferrerTotalCollected | crates/storage/storage.rs:443-451 | the code's collected total is overwritten, nothing else |
| Storage.CollectStore.SetReferrerDappCollected | crates/storage/storage.rs:453-462 | the pair's collected amount is overwritten, nothing else |
| Storage.CollectStore.SetDappTotalCollected | crates/storage/storage.rs:464-472 | the dApp's collected total is overwritten, nothing else |
| Dapp.Authorize | crates/core/dapp.rs:203-205 | allowed exactly for the dApp itself or its stored collector; `Unauthorized` otherwise; a missing collector surfaces as `NotFound` |
| Dapp.Guard | crates/core/dapp.rs:199-205 | `DappNotRegistered` exactly for an unknown dApp; otherwise the authorisation result |
| Dapp.RegisterStep | crates/core/dapp.rs:123-145 | `AlreadyRegistered` iff the sender is a dApp; `InvalidRewardsAdmin` iff the hub is not its rewards admin; otherwise name, percent and collector stored and `CreateRewardsPot(sender)` returned; failures write nothing |
| Dapp.Register | crates/core/dapp.rs:123-145 | the store and result are those of `RegisterStep` |
| Dapp.SetRewardsPotStep | crates/core/dapp.rs:156-179 | unknown dApp, pot already set, and a pot not administered by the hub are refused in that order; otherwise the pot is stored and `SetRewardsRecipient(dapp, pot)` returned; a set pot is never overwritten |
| Dapp.SetRewardsPot | crates/core/dapp.rs:156-179 | the store and result are those of `SetRewardsPotStep` |
| Dapp.DeregisterStep | crates/core/dapp.rs:189-216 | refusals of `Guard` write nothing; otherwise the dApp is removed, and with a pot set the reply is withdraw, set recipient, set admin — without one, `NotFound` after the removal |
| Dapp.Deregister | crates/core/dapp.rs:189-216 | the store and result are those of `DeregisterStep` |
| Dapp.Configured | crates/core/dapp.rs:243-253 | each supplied field of the metadata is written; absent fields and all other records are unchanged |
| Dapp.ConfigureStep | crates/core/dapp.rs:226-256 | succeeds exactly when `Guard` does; then applies `Configured`; failures write nothing |
| Dapp.Configure | crates/core/dapp.rs:226-256 | the store and result are those of `ConfigureStep` |
| Dapp.SetFee | crates/core/dapp.rs:266-284 | succeeds exactly when `Guard` does, with `SetDappFee(dapp, amount)`, otherwise the guard's error |
| Referral.Accrued | crates/core/referral.rs:216-221 | an earnings total plus a share is `Some` exactly when it fits in 128 bits, and is then that sum |
| Referral.NextCode | crates/core/referral.rs:144 | the first code issued is 1; afterwards one more than the latest |
| Referral.RegisterStep | crates/core/referral.rs:136-151 | `AlreadyRegistered` iff the sender owns a code; otherwise the next code is owned by the sender in both directions and becomes the latest |
| Referral.Register | crates/core/referral.rs:136-151 | the store and result are those of `RegisterStep` |
| Referral.TransferOwnershipStep | crates/core/referral.rs:161-181 | unknown code and a sender that is not the owner are refused; otherwise the new owner owns the code; failures write nothing |
| Referral.TransferOwnership | crates/core/referral.rs:161-181 | the store and result are those of `TransferOwnershipStep` |
| Referral.Share | crates/core/referral.rs:206-214 | no current fee is `DappFeeNotSet`, a missing percent is `NotFound`, overflow is `Overflow`; otherwise the fee with the percentage applied |
| Referral.Accrue | crates/core/referral.rs:216-241 | the code's total earnings, the pair's earnings and the dApp's contributions each grow by the share; nothing else changes |
| Referral.AccrueStep | crates/core/referral.rs:216-243 | succeeds exactly when all three sums fit, then is `Accrue`; otherwise `Overflow` |
| Referral.RecordStep | crates/core/referral.rs:192-244 | unknown dApp / unknown code refused before any write; the invocation is counted before the fee is read, so a fee error leaves the counted ledger with that error; a share truncated to zero only counts; a non-zero share is accrued on the counted ledger, or fails with `Overflow` |
| Referral.Record | crates/core/referral.rs:192-244 | the store and result are those of `RecordStep` |
| Collection.Owed | crates/core/hub/collect.rs:112-119 | first collection owes everything; later ones owe the difference, `NothingToCollect` when none, `Underflow` when negative |
| Collection.TotalAfter | crates/core/hub/collect.rs:121-124 | a referrer's collected total grows by the owed amount, `None` on overflow |
| Collection.ReferrerStep | crates/core/hub/collect.rs:91-137 | unknown code, wrong owner, no earnings, nothing owed, overflow refused before any write; otherwise both collected records are written, then the pot is read and the owed amount is paid to the sender |
| Collection.Referrer | crates/core/hub/collect.rs:91-137 | the store and result are those of `ReferrerStep` |
| Collection.Remaining | crates/core/hub/collect.rs:157-166 | reported rewards minus contributions; `NothingToCollect` if either is absent or they are equal, `Underflow` when negative |
| Collection.DappStep | crates/core/hub/collect.rs:147-186 | unauthorised, no pot, nothing remaining or owed are refused without writes; otherwise the collected total becomes the remaining amount and the difference is paid from the dApp's pot |
| Collection.CollectDapp | crates/core/hub/collect.rs:147-186 | the store and result are those of `DappStep` |
| Collect.WithdrawThenRedistribute | crates/core/collect.rs:125-132 | the reply is a withdraw from the pot followed by a redistribution of the owed amount |
| Collect.ReferrerStep | crates/core/collect.rs:87-133 | same writes and errors as the shared referrer collection, the success reply being withdraw-then-redistribute |
| Collect.Referrer | crates/core/collect.rs:87-133 | the store and result are those of `Collect.ReferrerStep` |
| Collect.DappStep | crates/core/collect.rs:143-186 | same writes and errors as the shared dApp collection, the success reply being withdraw-then-redistribute |
| Collect.CollectDapp | crates/core/collect.rs:143-186 | the store and result are those of `Collect.DappStep` |
| HubCollect.ReferrerStep | crates/core/hub/collect.rs:91-137 | same writes and errors as the shared referrer collection, with a single redistribute command |
| HubCollect.Referrer | crates/core/hub/collect.rs:91-137 | the store and result are those of `HubCollect.ReferrerStep` |
| HubCollect.DappStep | crates/core/hub/collect.rs:147-186 | same writes and errors as the shared dApp collection, with a single redistribute command |
| HubCollect.CollectDapp | crates/core/hub/collect.rs:147-186 | the store and result are those of `HubCollect.DappStep` |
| Hub.MapReply | crates/core/hub.rs:69-108 | wrapping a result as a reply keeps the writes and the error |
| Hub.ExecStep | crates/core/hub.rs:58-109 | each message kind is routed to its own handler, whose ledger and error pass through unchanged; on success the handler's value becomes the kind's reply (a code, one command, the three deregistration commands, or empty); the namespaces each kind may write; a fee message writes nothing |
| Hub.Exec | crates/core/hub.rs:58-109 | the store and result are those of `ExecStep` |
| Hub.ExecRegister | crates/core/hub.rs:70-86 | a registration message updates the store and replies exactly as `ExecStep` says |
| Hub.ExecCollect | crates/core/hub.rs:90-95 | a collection message updates the store and replies exactly as `ExecStep` says |
| Hub.ExecConfig | crates/core/hub.rs:97-107 | a configuration message updates the store and replies exactly as `ExecStep` says |
| Hub.Transact | crates/core/hub.rs:58-109 | on error the store is exactly as before; on success it is `ExecStep`'s ledger |
| Reply.FromCode | crates/core/hub/reply.rs:148-152 | a code converts to the `ReferralCode` reply carrying it |
| Reply.FromCommand | crates/core/hub/reply.rs:154-158 | a command converts to the `Cmd` reply carrying it |
| Reply.FromCommands | crates/core/hub/reply.rs:160-168 | commands convert to a `MultiCmd` reply with the same commands in order |
| Reply.HandleApi.Call | crates/core/hub/reply.rs:11-66 | an API call the chain accepts is appended to the calls so far; a rejected one is the error |
| Reply.CallOf | crates/core/hub/reply.rs:105-123 | each command maps to an API call from which the command can be recovered |
| Reply.CallOfInjective | crates/core/hub/reply.rs:105-123 | distinct commands make distinct API calls |
| Reply.HandleCmd | crates/core/hub/reply.rs:105-123 | handling one command succeeds exactly when the API accepts its call, appending that one call; a refusal is reported as the refused call |
| Reply.Calls | crates/core/hub/reply.rs:130-146 | a command list makes one API call per command, in order |
| Reply.Handle | crates/core/hub/reply.rs:130-146 | an empty reply makes no call; a code or command one call; a multi-command reply all its calls in order, or stops at the first rejected one with that error |
| Reply.CallsAppend | crates/core/hub/reply.rs:130-146 | the calls for `cmds + [c]` are those for `cmds` followed by the call for `c` |
| Query.DappInfoOf | crates/core/hub/query.rs:100-130 | succeeds exactly when percent and pot are stored; reports name, percent, repo, fee, counters, contributions and the pot's rewards; active means registered with a fee |
| Query.InfosOf | crates/core/hub/query.rs:138-153 | all infos in id order, or `NotFound` as soon as one fails |
| Query.AllDappsOf | crates/core/hub/query.rs:138-153 | the page of ids from storage, then `InfosOf` of it; a storage error is passed on |
| Query.Handle | crates/core/hub/query.rs:160-181 | each request is answered from the corresponding read; only dApp queries can fail |
| RewardsPot.Authorize | crates/core/rewards_pot.rs:63-65 | allowed exactly for the pot's owner; `Unauthorized` otherwise; owner lookup errors pass through |
| RewardsPot.PendingWithdrawal | crates/core/rewards_pot.rs:67-73 | one withdraw command exactly when there are uncollected rewards, none otherwise |
| RewardsPot.WithdrawPendingCmds | crates/core/rewards_pot.rs:59-74 | after authorisation, at most one command and it is a withdraw |
| RewardsPot.DistributeCmds | crates/core/rewards_pot.rs:82-106 | after authorisation, an optional withdraw followed by exactly one send of the amount to the recipient |
| RewardsPot.Exec | crates/core/rewards_pot.rs:134-144 | each message yields the commands of its handler, or its error |
| PotApi.RecordsTotalSuffix | crates/cosmwasm/archway/api/rewards_pot.rs:102-134 | a later suffix of the records never sums to more than an earlier one |
| PotApi.CoinsTotalPrefix | crates/cosmwasm/archway/api/rewards_pot.rs:102-134 | a prefix of a record's coins never sums to more than all of them |
| PotApi.SummedSoFar | crates/cosmwasm/archway/api/rewards_pot.rs:102-134 | the running sum of the nested loop is bounded by the total of the outstanding records |
| PotApi.Pot.Initialize | crates/cosmwasm/archway/api/rewards_pot.rs:174-179 | creator and dApp are stored; counters, denomination and messages are unchanged |
| PotApi.Pot.OutstandingRecords | crates/cosmwasm/archway/api/rewards_pot.rs:87-93 | the records on chain not yet collected, zero when none |
| PotApi.Pot.Outstanding | crates/cosmwasm/archway/api/rewards_pot.rs:87-93 | the newest `OutstandingRecords` records on chain |
| PotApi.Pot.OwnerId | crates/cosmwasm/archway/api/rewards_pot.rs:282-287 | the creator, or `NotInitialized` |
| PotApi.Pot.Dapp | crates/cosmwasm/archway/api/rewards_pot.rs:142-148 | the dApp, or `NotInitialized` |
| PotApi.Pot.HasUncollectedRewards | crates/cosmwasm/archway/api/rewards_pot.rs:289-292 | true exactly when some record on chain is not yet collected |
| PotApi.Pot.View | crates/core/rewards_pot.rs:37-51 | the pot's owner and uncollected-rewards answer, as the pure core reads them |
| PotApi.Pot.TotalRewards | crates/cosmwasm/archway/api/rewards_pot.rs:102-134 | collected rewards plus the sum of all outstanding records' coins, or `TotalRewardsOverflow` exactly when that exceeds `u128::MAX` |
| PotApi.Pot.HandleWithdrawRewardsResponse | crates/cosmwasm/archway/api/rewards_pot.rs:187-209 | no coins changes nothing; otherwise the first coin is added to the collected total (overflow refused, no change) and every record counts as collected |
| PotApi.Pot.Denom | crates/cosmwasm/archway/api/api.rs:83-91 | the cached rewards denomination, or the chain's bonded one |
| PotApi.Pot.WithdrawPending | crates/cosmwasm/archway/api/rewards_pot.rs:251-264 | a withdraw-by-limit message for the outstanding records is queued only when there are some |
| PotApi.Pot.SendRewards | crates/cosmwasm/archway/api/rewards_pot.rs:266-275 | a bank send of the amount in the denomination is queued and the denomination cached |
| PotApi.Pot.HandleReply | crates/core/rewards_pot.rs:151-168 | the commands become messages in order; the response is the message list |
| Parse.Address | crates/cosmwasm/parse/parse-cw.rs:48 | an address is accepted exactly when valid, as an Id of the same text |
| Parse.Percent | crates/cosmwasm/parse/parse-cw.rs:47 | accepted exactly when 1..=100, else `InvalidPercent` |
| Parse.OptionalPercent | crates/cosmwasm/parse/parse-cw.rs:91-93 | absence is accepted; a present value as `Percent` |
| Parse.OptionalAddress | crates/cosmwasm/parse/parse-cw.rs:94-96 | absence is accepted; a present value as `Address` |
| Parse.ParseKind | crates/cosmwasm/parse/parse-cw.rs:33-106 | each execute message maps to its hub message kind; the first invalid field, in source order, is the error (for a dApp configuration: the dApp address, then the percent, then the new collector's address) |
| Parse.ParseExec | crates/cosmwasm/parse/parse-cw.rs:102-105 | the sender becomes the message's sender, the kind as `ParseKind` |
| Parse.ParseInitPotReply | crates/cosmwasm/parse/parse-cw.rs:113-130 | a pot's instantiate reply becomes a rewards-pot registration from the pot for the dApp in its data; errors for failed reply, no data, bad data |
| Invariants.EmptyLedgerValid | crates/storage/storage.rs:331-337 | the empty store satisfies the invariant |
| Invariants.AddNewDappIndexes | crates/storage/storage.rs:117-126 | indexing a new dApp keeps the index gap-free and two-way |
| Invariants.RegisterDappPreservesValid | crates/core/dapp.rs:123-145 | dApp registration preserves the invariant |
| Invariants.SetRewardsPotPreservesValid | crates/core/dapp.rs:156-179 | setting the pot preserves the invariant |
| Invariants.DeregisterPreservesValid | crates/core/dapp.rs:189-216 | deregistration preserves the invariant |
| Invariants.ConfigurePreservesValid | crates/core/dapp.rs:226-256 | configuration preserves the invariant |
| Invariants.NextCodeIsFresh | crates/core/referral.rs:144 | the next code is above every issued code, so it is unused |
| Invariants.CodesAfterRegister | crates/core/referral.rs:144-148 | issuing a fresh code keeps ownership consistent |
| Invariants.CodesAfterTransfer | crates/core/referral.rs:178 | transferring an issued code keeps ownership consistent |
| Invariants.EarningsWithMoreCodes | crates/core/referral.rs:136-151 | more issued codes never invalidate earnings records |
| Invariants.RegisterReferrerPreservesValid | crates/core/referral.rs:136-151 | referrer registration preserves the invariant |
| Invariants.TransferOwnershipPreservesValid | crates/core/referral.rs:161-181 | transfer preserves the invariant |
| Invariants.PairsAfterIncrement | crates/storage/storage.rs:258-292 | counting a pair adds it to its dApp's referred pairs only |
| Invariants.IncrementInvocationsPreservesCounts | crates/storage/storage.rs:258-292 | totals and discrete-referrer counts stay equal to what the pair counters imply |
| Invariants.AccrueEarnings | crates/core/referral.rs:216-241 | accrual to an issued code keeps each total at least its parts |
| Invariants.AccrueGrows | crates/core/referral.rs:216-241 | accrual never lowers any earnings or contributions |
| Invariants.CollectedAfterGrowth | crates/core/hub/collect.rs:112-128 | collected amounts stay within earnings as earnings grow |
| Invariants.CountedValid | crates/core/referral.rs:204 | counting an invocation preserves the invariant |
| Invariants.AccruedValid | crates/core/referral.rs:216-241 | accrual preserves the invariant |
| Invariants.AccruePreservesValid | crates/core/referral.rs:216-243 | the accrual step, failing or not, preserves the invariant |
| Invariants.RecordPreservesValid | crates/core/referral.rs:192-244 | recording a referral preserves the invariant |
| Invariants.ReferrerCollectPreservesValid | crates/core/hub/collect.rs:91-137 | referrer collection preserves the invariant |
| Invariants.DappCollectPreservesValid | crates/core/hub/collect.rs:147-186 | dApp collection preserves the invariant |
| Invariants.ExecPreservesValid | crates/core/hub.rs:58-109 | every hub message, committed or rolled back, preserves the invariant |
| Invariants.RunPreservesValid | crates/core/hub.rs:58-109 | any sequence of hub messages preserves the invariant |
| Invariants.ReachableValid | crates/core/hub.rs:58-109 | every store reachable from the empty one satisfies the invariant |
| Properties.RegisterIssuesFreshCode | crates/core/referral.rs:136-151 | a new referrer gets a code above, and distinct from, every issued code |
| Properties.TransferKeepsPreviousOwner | crates/core/referral.rs:161-181 | after a transfer the previous owner keeps its code entry and cannot register again |
| Properties.AccrualFitsWhenTotalsFit | crates/core/referral.rs:216-241 | under the invariant, accrual fits exactly when the code total and the dApp contributions fit |
| Properties.ReferrerNeverUnderflows | crates/core/hub/collect.rs:112-116 | under the invariant, the unchecked subtraction in referrer collection never underflows, directly or through the hub |
| Properties.CollectedWithinEarnings | crates/core/hub/collect.rs:112-116 | when nothing collected exceeds what was earned, referrer collection never reaches the unchecked subtraction's underflow |
| Properties.ReferrerPaidUpToEarnings | crates/core/hub/collect.rs:91-137 | a referrer is paid exactly earnings minus what it had collected, to itself, and the records advance accordingly |
| Properties.ReferrerCollectTwice | crates/core/hub/collect.rs:112-119 | an immediate second collection has nothing to collect |
| Properties.DappPaidUpToRemaining | crates/core/hub/collect.rs:147-186 | a dApp is paid rewards minus contributions minus what it had collected, from its pot |
| Properties.DappCollectTwice | crates/core/hub/collect.rs:168-175 | an immediate second collection has nothing to collect |
| Properties.CollectAfterDeregister | crates/core/dapp.rs:189-216 | removing a dApp changes neither kind of collection result |
| Scenarios.ReferrerCollectsFullThenDelta | test/referrals_core/collect/referrer.rs:6-110 | 5000 earned pays 5000; after earnings reach 7000 a second collection pays 2000 |
| Scenarios.DappCollectsTwice | tests/referrals_core_hub/collect/dapp.rs:9-98 | 11000 rewards less 5000 contributions pays 6000; at 22000 / 10000 a second collection pays 6000 more |
| Scenarios.SessionRegister | tests/referrals_core/exec.rs:129-139 | registering the dApp through the hub asks to create its pot |
| Scenarios.SessionSetPot | tests/referrals_core/exec.rs:141-150 | the pot's registration sets it as rewards recipient |
| Scenarios.SessionRegisterReferrer | tests/referrals_core/exec.rs:152-154 | the first referrer receives code 1 |
| Scenarios.SessionFee | tests/referrals_core/exec.rs:156-168 | the collector's fee message replies with `SetDappFee(dapp, 1000)` and writes nothing |
| Scenarios.SessionConfigure | tests/referrals_core/exec.rs:174-189 | the collector may set the percent to 75 |
| Scenarios.SessionTransfer | tests/referrals_core/exec.rs:193-204 | the owner transfers code 1 to a second referrer |
| Scenarios.SessionRecord | tests/referrals_core/exec.rs:208-218 | at a fee of 1000 and 75%, a referral accrues 750 everywhere |
| Scenarios.SessionCollectReferrer | tests/referrals_core/exec.rs:220-240 | the new owner collects 750 |
| Scenarios.SessionCollectDapp | tests/referrals_core/exec.rs:242-288 | with 1333 reported, the collector collects 583 |
| Scenarios.SessionDeregister | tests/referrals_core/exec.rs:290-308 | the collector's deregistration withdraws the pot's pending rewards and hands its recipient and admin to the collector; the dApp is gone |
| Scenarios.SessionThroughHub | tests/referrals_core/exec.rs:126-309 | the whole ten-message session from an empty store yields the test's replies, ending with the deregistration's three commands |
| Scenarios.CollectAfterDeregisterThroughHub | tests/referrals_core/exec.rs:26-122 | after deregistration, the referrer still collects 500 and the collector 722 |

## Left out

- KV storage failures other than a missing key (`Error::Storage`), serialization, and the store's key-length bound: the storage is modelled as total maps.
- Integer widths: codes, indexes and invocation counters are `u64` in the source and unbounded here, so a `u64` overflow of `Code::next` or the counters is not modelled. `u128` amounts and `u8` percentages are bounded and checked.
- `Collection.Owed`, `Collection.Remaining`: the source's unchecked `u128` subtraction is modelled as the error `Underflow` (the debug-build panic); a release build without overflow checks would wrap around instead, which is not modelled.
- The chain querier (self address, rewards admins, current fee, pot rewards, rewards records, bonded denomination) is the `External.Chain` value, not a query.
- Address validation is the `isValid` parameter of the parser; the decoding of the pot's instantiate-reply data is the `decode` parameter.
- The CosmWasm messages each API call of the hub produces: `Reply.HandleApi` records the calls and which of them the chain rejects, not the messages.
- `handle_cw_reply`, the pot's `admin()` query, the CosmWasm drivers, the contracts' entry points and the interface crates are not part of this model.
- `crates/core/hub/dapp.rs` is not part of this model; registration follows `crates/core/hub.rs` and `crates/core/dapp.rs`.
- The tests in `tests/referrals_core/exec.rs` run the two-command collection of `crates/core/collect.rs`; the scenarios replay them through the hub's single-command collection, so the replies differ in that one respect and the amounts agree.
- In `Scenarios.SessionThroughHub` the chain reports the current fee of 1000 from the start; the test sets it on its mock right after the `DappFee` message, which itself only emits a command, so every reply is the same.
- Concurrency does not arise: the chain executes messages one at a time, which the sequential `Invariants.Run` reflects.
