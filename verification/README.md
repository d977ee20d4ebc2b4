# Verified model of the AvN parachain's core

A Dafny model of the hardest state machines and algorithms of the AvN parachain, with
proofs about every run, every input or every reachable state.

- `Requests`, `RequestTheorems`, `RequestContents`, `RequestLimits`, `RequestOutcomes`,
  `Settlements`, `RequestEngine`: the Ethereum bridge's request engine, one active request and a bounded queue, with confirmations,
  corroborations, replay and settlement.
- `RangeSelection`, `EventVoting`, `EventLimits`, `EventOutcomes`, `ProcessedEvents`,
  `EventHandover`, `EventRedelivery`, `EventKinds`, `EventBridge`: choosing the first Ethereum range, voting on
  event partitions, delivering events and migrating records between two instances.
- `AppChains`, `AppChainTheorems`, `ChainRegistry`, `Rewards`, `RewardLedger`,
  `RewardOutcomes`, `RewardSweep`, `RewardPallet`: app chains and their rewards, from snapshot to payout, with the sweep.
- `Merkle`: the sorted-pair tree and its proofs. `BlockSearch`: the timestamp-to-block search.
- `Authors`, `AuthorOutcomes`, `AuthorRegistry`: the two-phase author registry. `LinkedAccounts`, `LinkRegistry`:
  voting weight. `EventDiscovery`: merging Ethereum logs.
- `Prelude`, `Sums`, `SortedNats`, `Quorum`: what they share.

Each state machine is a `State` value with one function per call and lemmas over `Run`; beside
it a class holds the storage items as fields, and its methods, written with the source's own
loops and early returns, are proved to compute those functions and to keep the invariant. The
`Outcomes` modules say of each call when it is accepted and what it then leaves, and what a
quorum of calls brings about over a run. A
call that fails or traps leaves the state as it was, as the runtime does. Hashes, signature
checks, the outcome of callbacks and transfers, and the iteration order of storage maps are
parameters, so every lemma holds for all of them.

Where a property fails for some inputs, the exact condition is proved:

- choosing a sender divides by zero exactly for a positive multiple of 256 validators, the
  registry's own maximum of 256 included; nothing is ever sent then, and a lower proof with a
  sendable request queued next can never be ended (`RotationTrapsIff`, `NothingIsEverSent`,
  `TrapsAt256`, `WedgedForever`, `WedgedFromGenesis`);
- a lower proof can be finished exactly with 2 to 151 validators (`LowerProofBlocked`,
  `LowerProofNeverEnds`, `LowerProofCompletes`);
- the corroboration lists have room in every reachable state exactly up to 151 validators, or
  when nothing is ever sent (`CorroborationFits`, `NothingIsEverSent`, `CorroborationListFills`);
- a send request can gather its confirmations exactly with up to 303 validators
  (`SendNeverConfirmed`, `SendBecomesConfirmed`);
- a request of four or five parameters is accepted exactly when it is queued, and then always
  fails (`WideRequestAcceptedIffQueued`, `WideRequestsFail`, `WideRequestRun`);
- event positions ascend exactly while the 16-bit and 32-bit counters have room; a run reaches
  the limit (`AdvanceAscendsIff`, `PositionApprovedTwice`);
- a delivered transaction is delivered again exactly when an approved partition names it while it
  is off the record, which only handing its record over can bring about; a run does so
  (`RedeliversIff`, `AtMostOnce`, `SourceDeliversTwice`). The instance it was handed to never
  delivers it (`RunApart`);
- the search answers with a block at or before the target exactly when the genesis block is; its
  midpoints are sound, and its loop ends for every target, exactly up to block 2^31
  (`AnswersServe`, `AllMidpointsShrinkIff`, `SearchEndsIff`);
- a migration batch makes no progress exactly when its first entries are all refused
  (`MigrateStallsIff`, `BothAcceptedStalls`);
- a failed registration is undone exactly when the account had no key on file, and a failed
  removal exactly when the session in between still has the author or no key names them; runs
  from genesis lose a key either way (`FailedRegistrationUndoneIff`, `FailedRejoinFromGenesis`,
  `FailedRemovalUndoneIff`, `FailedRemovalFromGenesis`).

## Model

| member | source | states |
|---|---|---|
| Quorum.QuorumIsAThird | pallets/avn/src/lib.rs:873-889 | the quorum is the least third, and quorum plus supermajority is all validators |
| Quorum.TwoMinoritiesLeaveOne | pallets/avn/src/lib.rs:873-885 | two sides both short of a quorum leave a validator who has not voted |
| Requests.BoundParams | pallets/eth-bridge/src/util.rs:30-48 | parameters are accepted exactly when there are few enough and every name and value fits, whatever their order |
| Requests.ProcessNextFifo | pallets/eth-bridge/src/request.rs:61-92 | freeing the slot, through any number of queued requests that fail set-up, keeps accepted == notified ++ active ++ queue |
| Requests.FinishActiveFifo | pallets/eth-bridge/src/tx.rs:10-64 | finishing the active request with one notice keeps the acceptance order |
| Requests.AcceptFifo | pallets/eth-bridge/src/request.rs:7-59 | a request is taken on at the end of the order, active or queued |
| Requests.CorroborateFifo | pallets/eth-bridge/src/lib.rs:517-574 | settlement and replay keep the acceptance order |
| Requests.StepFifo | pallets/eth-bridge/src/lib.rs:428-574 | every call keeps the acceptance order, and a non-empty queue implies an active request |
| Requests.CorroboratedPartitioned | pallets/eth-bridge/src/lib.rs:517-574 | a new corroboration keeps the outcome lists and the hash lists two splits of one duplicate-free set of non-senders |
| Requests.StepHealthy | pallets/eth-bridge/src/lib.rs:428-574 | every call keeps both splits, and neither outcome side of an undecided transaction has a quorum |
| Requests.StepInv | pallets/eth-bridge/src/lib.rs:428-574 | every call, including admin removal and a change of instance, keeps the whole invariant |
| Requests.RunInv | pallets/eth-bridge/src/lib.rs:428-574 | in every run: accepted == notified ++ active ++ queue with one terminal notice each, and every active transaction is healthy |
| Requests.GenesisInv | pallets/eth-bridge/src/lib.rs:346-360 | the initial state satisfies the invariant |
| RequestTheorems.SideCounts | pallets/eth-bridge/src/util.rs:6-29 | the list the code measures counts exactly the distinct non-senders on the side of the call, none of them on the other side |
| RequestTheorems.SomeoneHasNotCorroborated | pallets/eth-bridge/src/lib.rs:517-574 | with two or more validators an undecided transaction has a non-sender left to ask |
| RequestContents.NumeralOfDecimal | pallets/eth-bridge/src/tx.rs:82-124 | the decimal text a number is sent as reads back as that number |
| RequestContents.RotationGoesRound | pallets/avn/src/lib.rs:315-330 | short of 256 validators the next sender is the next validator, or the first after the last |
| RequestContents.EveryoneHasATurn | pallets/avn/src/lib.rs:315-330 | so in as many rotations as there are validators each is sender once |
| RequestContents.SetUpOutcome | pallets/eth-bridge/src/tx.rs:82-124 | setting up succeeds if and only if the parameters fit and hash and there is a sender; the slot then holds a fresh transaction whose hash is of the request, its expiry and its id, for the current instance |
| RequestContents.NextIsFirstThatCan | pallets/eth-bridge/src/request.rs:61-92 | moving on takes the first queued request that can be set up, fails exactly those before it, in order, and leaves those after it |
| RequestContents.StepContents | pallets/eth-bridge/src/lib.rs:428-574 | every call keeps the contents of the active request right |
| RequestContents.RunContents | pallets/eth-bridge/src/lib.rs:428-574 | in every run the active hash is of the very call to be sent, with expiry and id readable from its last two parameters; the sender is the validator whose turn it is; the confirmations are distinct validator signatures of that hash |
| RequestOutcomes.DecisionsAreBacked | pallets/eth-bridge/src/lib.rs:517-574 | every corroboration in every reachable state: each refusal with its error; short of a quorum of distinct non-senders it is recorded on the two lists it names; a quorum of failures with a quorum of disputed hashes replays the request if it can be set up again; any other quorum settles it that way, reports exactly the losing side, files the hash unless disputed and hands the slot on, unless the callback refuses |
| RequestOutcomes.EveryoneAnswersDecides | pallets/eth-bridge/src/lib.rs:517-574 | with 2 to 151 validators, among any corroborations that cover the non-senders still to be heard one decides the transaction |
| RequestOutcomes.QuorumSettles | pallets/eth-bridge/src/lib.rs:517-574 | corroborations that complete a quorum for one outcome settle the transaction that way, whatever was said before |
| RequestOutcomes.ConfirmationOutcome | pallets/eth-bridge/src/lib.rs:428-480 | every confirmation in every reachable state: each refusal with its error, else it is appended and nothing else changes, or it completes a lower proof, which is notified with exactly its confirmations |
| RequestOutcomes.SendConfirmationsGather | pallets/eth-bridge/src/lib.rs:428-480 | distinct valid confirmations of a send request by non-senders are all kept, in order, until one less than the quorum |
| RequestOutcomes.SendBecomesConfirmed | pallets/eth-bridge/src/util.rs:13-17 | and with one less than the quorum it has enough to be sent |
| RequestOutcomes.SendNeverConfirmed | pallets/eth-bridge/src/util.rs:13-17 | the quorum fits the list exactly up to 303 validators; past that no send request ever has enough |
| RequestOutcomes.SendersHashIsFiled | pallets/eth-bridge/src/lib.rs:482-515 | over any run that leaves the transaction active until a corroboration settles it, the hash its sender gave is the one put on file |
| RequestOutcomes.PublishOutcome | pallets/eth-bridge/src/request.rs:7-37 | publishing succeeds if and only if name, parameters and caller id fit and the slot or the queue can take the request; it is then taken on under the id returned |
| RequestOutcomes.LowerProofOutcome | pallets/eth-bridge/src/request.rs:39-58 | the same for a lower proof, which takes no id |
| RequestOutcomes.RemovalOutcome | pallets/eth-bridge/src/lib.rs:1355-1382 | removal fails the active request and hands the slot to the first queued one that can be set up |
| RequestOutcomes.InstanceOutcome | pallets/eth-bridge/src/lib.rs:726-778 | a new instance sets an active transaction up afresh for it or is refused whole; any other state only gets the instance |
| RequestTheorems.TxIdsAscend | pallets/eth-bridge/src/tx.rs:139-143 | transaction ids ascend in acceptance order in every run that neither wraps the counter nor resets it |
| RequestTheorems.StepHistory | pallets/eth-bridge/src/request.rs:7-59 | a call accepts at most one request, and only a published one consumes an id |
| RequestTheorems.LowerProofBlocked | pallets/eth-bridge/src/lib.rs:428-480 | with fewer than 2 or more than 151 validators nothing but removal by the administrator ever ends a lower proof, whatever else a run does |
| RequestTheorems.LowerProofStarts | pallets/eth-bridge/src/request.rs:39-58 | in every state of the invariant an idle bridge takes on any lower proof whose parameters hash |
| RequestTheorems.LowerProofNeverEnds | pallets/eth-bridge/src/lib.rs:428-480 | started on a new chain of such a size, a lower proof is never notified, in any run without a removal |
| RequestTheorems.ConfirmationsAccumulate | pallets/eth-bridge/src/lib.rs:428-480 | fewer than a supermajority of distinct valid confirmations are all kept, in order, and finish nothing |
| RequestTheorems.LowerProofCompletes | pallets/eth-bridge/src/lib.rs:428-480 | with 2 to 151 validators any supermajority of distinct valid confirmations finishes the proof with exactly those signatures |
| RequestLimits.CorroborationFits | pallets/eth-bridge/src/lib.rs:517-574 | up to 151 validators no reachable state turns a corroboration away for lack of room |
| RequestLimits.CorroborationListFills | pallets/eth-bridge/src/lib.rs:517-574 | for every set of 152 or more validators in which requests are sent at all, a concrete run reaches a state that does turn one away |
| RequestTheorems.StepNotices | pallets/eth-bridge/src/lib.rs:428-574 | a call tells the active request how it ended, if it ended, and any other request only that it failed |
| RequestLimits.WideRequestsFail | pallets/eth-bridge/src/types.rs:71-83 | no run ever makes a send request of more than three parameters active, and such a request is only ever failed |
| RequestLimits.WideRequestAcceptedIffQueued | pallets/eth-bridge/src/request.rs:7-37 | publishing a request of four or five parameters succeeds exactly when something else is active and the queue has room |
| RequestLimits.WideRequestRun | pallets/eth-bridge/src/request.rs:7-92 | a run from genesis queues such a request behind another and fails it when its turn comes |
| RequestLimits.RotationTrapsIff | pallets/avn/src/lib.rs:315-330 | the rotation divides by zero exactly for a positive multiple of 256 validators, so up to 256 exactly at 256; else it names a validator |
| RequestLimits.NothingIsEverSent | pallets/avn/src/lib.rs:315-330 | with such a number no run has an active send request, settles one or reports anybody, and every notified one failed |
| RequestLimits.TrapsAt256 | pallets/eth-bridge/src/tx.rs:82-124 | with any 256 validators publishing on a new chain traps and changes nothing, and no run from there sends anything |
| RequestLimits.RemovalTraps | pallets/eth-bridge/src/lib.rs:1355-1382 | with such a number and a sendable request queued next, even the removal by the administrator traps and changes nothing |
| RequestLimits.WedgedForever | pallets/eth-bridge/src/lib.rs:1355-1382 | then nothing in any run ever ends the active lower proof or notifies anybody |
| RequestLimits.WedgedFromGenesis | pallets/eth-bridge/src/request.rs:39-58 | a lower proof and a publication on a new chain get there |
| Settlements.SettlingCall | pallets/eth-bridge/src/tx.rs:10-64 | a corroboration that completes a settling quorum, with its callback accepted, notifies the request and files it under its id, leaving every other entry alone |
| Settlements.OtherCall | pallets/eth-bridge/src/lib.rs:428-574 | no call that does not settle touches the file of settled transactions |
| Settlements.ActiveIdIsNew | pallets/eth-bridge/src/tx.rs:139-143 | the active request shares its id with no notified one |
| Settlements.SettlementsAreOnFile | pallets/eth-bridge/src/tx.rs:48-58 | in every run without an id reset or wrap the file holds exactly the settled requests, each with the outcome its caller was notified of |
| RequestTheorems.MovesOn | pallets/eth-bridge/src/request.rs:61-92 | short of 256 validators moving on to the next request never traps |
| RequestEngine.Bridge.QueueRequest | pallets/eth-bridge/src/request.rs:142-156 | appends when there is room, else fails with the queue unchanged |
| RequestEngine.Bridge.DequeueRequest | pallets/eth-bridge/src/request.rs:158-173 | takes the front of the queue |
| RequestEngine.Bridge.SetUpActiveTx | pallets/eth-bridge/src/tx.rs:82-124 | the method refines the model function for every number of validators, errors and the trap leaving storage as it was |
| RequestEngine.Bridge.ProcessNextRequest | pallets/eth-bridge/src/request.rs:61-92 | the recursive method over storage refines the model function; a trap puts back what was written |
| RequestEngine.Bridge.AddNewRequest | pallets/eth-bridge/src/request.rs:7-59 | accepts into the slot or the queue as the model does |
| RequestEngine.Bridge.Publish | pallets/eth-bridge/src/lib.rs:1193-1209 | refines the model and keeps the invariant |
| RequestEngine.Bridge.GenerateLowerProof | pallets/eth-bridge/src/lib.rs:1211-1227 | refines the model and keeps the invariant |
| RequestEngine.Bridge.AddConfirmation | pallets/eth-bridge/src/lib.rs:428-480 | computes the state and result ConfirmationOutcome describes, every error case included, and keeps both invariants |
| RequestEngine.Bridge.AddEthTxHash | pallets/eth-bridge/src/lib.rs:482-515 | computes the model function that SendersHashIsFiled is about, every error case included, and keeps both invariants |
| RequestEngine.Bridge.CompleteTransaction | pallets/eth-bridge/src/tx.rs:10-64 | a refused callback or a trap changes nothing; otherwise the transaction is archived, notified once and the queue moves on |
| RequestEngine.Bridge.FinalizeState | pallets/eth-bridge/src/tx.rs:66-80 | replays or settles as the model does |
| RequestEngine.Bridge.AddCorroboration | pallets/eth-bridge/src/lib.rs:517-574 | computes the state and result DecisionsAreBacked describes, every error case included, and keeps both invariants |
| RequestEngine.Bridge.Corroborate | pallets/eth-bridge/src/lib.rs:517-574 | the call itself, early returns included, computes the same state and result from any state |
| RequestEngine.Bridge.RemoveActiveRequest | pallets/eth-bridge/src/lib.rs:1355-1382 | refines the model and keeps the invariant |
| RequestEngine.Bridge.SetInstance | pallets/eth-bridge/src/lib.rs:726-778 | refines the model and keeps the invariant |
| RangeSelection.AddBallotOk | pallets/eth-bridge/src/lib.rs:1413-1420 | a first ballot keeps ballots one per author and adds its author |
| RangeSelection.StartBlockIsAligned | primitives/avn-common/src/event_discovery.rs:279-286 | a start block is a multiple of the range length, not past the block it comes from |
| RangeSelection.CollectSubmittedBlocks | pallets/eth-bridge/src/lib.rs:643-710 | collects the submitted blocks sorted, whatever order the map yields, and counts the distinct voters |
| RangeSelection.SelectBlock | pallets/eth-bridge/src/lib.rs:643-710 | the threshold loop computes the selection |
| RangeSelection.SelectHasRank | pallets/eth-bridge/src/lib.rs:643-710 | reducing a threshold along the sorted blocks stops at the block of the matching rank |
| RangeSelection.RankIsUnique | pallets/eth-bridge/src/lib.rs:643-710 | a rank names at most one block |
| RangeSelection.SelectionIsOrderStatistic | pallets/eth-bridge/src/lib.rs:643-710 | the selected block has rank S - q and at least a quorum of distinct authors submitted it or a later one |
| RangeSelection.EntriesAtMostVoters | pallets/eth-bridge/src/lib.rs:643-710 | there are no more ballot entries than distinct voters |
| ProcessedEvents.ProcessEventOnce | pallets/eth-bridge/src/lib.rs:1026-1055 | an event is delivered exactly when its transaction was not on record, and is then on record |
| ProcessedEvents.BatchDelivery | pallets/eth-bridge/src/lib.rs:970-1023 | an approved batch delivers exactly the transactions its handled events name less those on record, each once |
| ProcessedEvents.BatchMoves | pallets/eth-bridge/src/lib.rs:1319-1353 | after any part of a batch, each entry is at the target, back at the source, or still pending |
| ProcessedEvents.MigrateMovesExactly | pallets/eth-bridge/src/lib.rs:1481-1525 | a batch moves exactly the first entries the target does not refuse, each as it was |
| ProcessedEvents.MigrateConserves | pallets/eth-bridge/src/lib.rs:1319-1353 | what source or target records and accepts is the same before and after a batch |
| ProcessedEvents.MigrateStallsIff | pallets/eth-bridge/src/lib.rs:1319-1353 | a batch changes nothing exactly when every one of its entries is refused |
| ProcessedEvents.BothAcceptedStalls | pallets/eth-bridge/src/lib.rs:1319-1353 | two instances that both accepted one transaction are such a case |
| ProcessedEvents.MigrationConserves | pallets/eth-bridge/src/lib.rs:1319-1353 | the same over any sequence of batches with returned entries |
| ProcessedEvents.MigrationDrains | pallets/eth-bridge/src/lib.rs:1481-1525 | k batches to a target that refuses none leave n - 64 k of n entries |
| EventVoting.AdvanceAscendsIff | pallets/eth-bridge/src/lib.rs:949-968 | the next position is later exactly when the 16-bit index or 32-bit block counter has room |
| EventVoting.WinnersApart | pallets/eth-bridge/src/lib.rs:582-621 | an approving quorum is disjoint from every vote it reports |
| EventVoting.ApprovePositions | pallets/eth-bridge/src/lib.rs:582-621 | approving keeps the approved positions strictly ascending while the counters have room |
| EventVoting.ApproveInv | pallets/eth-bridge/src/lib.rs:582-621 | approving keeps the whole invariant |
| EventVoting.ApprovalEffects | pallets/eth-bridge/src/lib.rs:970-1023 | the vote that reaches the quorum reports exactly the votes for other partitions and delivers exactly the new transactions |
| EventVoting.BallotsClear | pallets/eth-bridge/src/lib.rs:643-710 | the bounded clear empties the ballots |
| EventVoting.FirstRange | pallets/eth-bridge/src/lib.rs:643-710 | the ballot that completes a supermajority starts the range at the block of rank S - q and leaves no ballot |
| EventVoting.StepInv | pallets/eth-bridge/src/lib.rs:582-764 | every call keeps the invariant |
| EventVoting.RunInv | pallets/eth-bridge/src/lib.rs:582-764 | in every run: one vote per author at the active position, approvals backed by a quorum that is not reported, positions ascending, no transaction delivered twice unless its record was handed to another instance |
| EventVoting.AtMostOnce | pallets/eth-bridge/src/lib.rs:970-1055 | with nothing handed over, no run delivers a transaction twice, across partitions, ranges and instance changes |
| EventVoting.GenesisInv | pallets/eth-bridge/src/lib.rs:346-360 | the initial state satisfies the invariant |
| EventOutcomes.EventVoteOutcome | pallets/eth-bridge/src/lib.rs:582-621 | a vote is accepted if and only if a validator who has not voted casts it for the active position of a valid instance; short of a quorum it is added to its partition and nothing else changes; with it the partition is approved, the other votes reported and the position moved |
| EventOutcomes.ApproveDoes | pallets/eth-bridge/src/lib.rs:949-968 | the position after an approval is the next partition, or the range that starts right after the last block with the kinds now handled and the queued transactions |
| EventOutcomes.QuorumApproves | pallets/eth-bridge/src/lib.rs:582-621 | any validators that complete a quorum for one active partition approve it; the approval names exactly its voters and reports exactly the others |
| EventOutcomes.DeliversExactly | pallets/eth-bridge/src/lib.rs:970-1023 | an approval delivers a transaction if and only if an event of the partition names it, of a kind sought and from a block up to the last of the range, and it is not on record |
| EventOutcomes.DeliveriesAreEvents | pallets/eth-bridge/src/lib.rs:1026-1055 | everything delivered is an event of the batch as it was found, and is recorded under its kind as accepted |
| EventOutcomes.BlockVoteOutcome | pallets/eth-bridge/src/lib.rs:643-710 | a ballot is accepted if and only if a validator without one casts it before a range is active; short of a supermajority it is added to its block and nothing else changes; with it the first range starts with the queued transactions |
| EventOutcomes.SupermajorityStarts | pallets/eth-bridge/src/lib.rs:643-710 | whatever blocks they saw, validators that complete a supermajority start the first range |
| EventOutcomes.StartBlockIsExact | primitives/avn-common/src/event_discovery.rs:279-286 | the start block is the last multiple of the range length at least five ranges behind |
| EventOutcomes.RecordOutcome | pallets/eth-bridge/src/lib.rs:1449-1470 | an event of another pallet is recorded under its kind, a retired lift as a lift, if and only if its network is the valid one of the instance and its transaction was not accepted |
| EventLimits.VotesClimb | pallets/eth-bridge/src/lib.rs:949-968 | a vote for each partition in turn climbs to the last position the counter can name, and stays there |
| EventLimits.PositionApprovedTwice | pallets/eth-bridge/src/lib.rs:949-968 | a run from genesis approves position 65535 twice |
| EventHandover.HandOverIsMigration | pallets/eth-bridge/src/lib.rs:1319-1353 | the two-instance step does to the records what migrating the batch entry by entry does |
| EventHandover.HandOverKeeps | pallets/eth-bridge/src/lib.rs:1319-1353 | both instances keep their whole invariant over a migration |
| EventHandover.StepRemembers | pallets/eth-bridge/src/lib.rs:970-1055 | no call at an instance forgets a record or delivers what was on record |
| EventHandover.RunApart | pallets/eth-bridge/src/lib.rs:791-820 | however migration is interleaved with voting at both instances, the target never delivers a transaction handed over to it |
| EventHandover.DeliveredByBoth | pallets/eth-bridge/src/lib.rs:791-820 | a transaction both delivered was never handed over, and both have it on record as accepted |
| EventRedelivery.RedeliversIff | pallets/eth-bridge/src/lib.rs:970-1055 | an approving vote delivers a delivered transaction again if and only if its partition names it and it is off the record, and then it was handed over |
| EventRedelivery.HandedOverCanBeQueued | pallets/eth-bridge/src/lib.rs:746-764 | root can ask for a handed-over transaction again |
| EventRedelivery.SourceDeliversTwice | pallets/eth-bridge/src/lib.rs:791-820 | a run of two new instances in which the source delivers an event, migrates its record and delivers it again |
| EventBridge.Bridge.AuthorHasCastEventVote | pallets/eth-bridge/src/lib.rs:1404-1411 | true exactly when some vote set has the author |
| EventBridge.Bridge.DeliverEvents | pallets/eth-bridge/src/lib.rs:970-1013 | the delivery loop over storage refines the model |
| EventBridge.Bridge.DrainVotes | pallets/eth-bridge/src/lib.rs:1015-1023 | the vote map is emptied and all of it reported |
| EventBridge.Bridge.ProcessPartition | pallets/eth-bridge/src/lib.rs:970-1023 | delivers, empties the votes and reports all but the approved partition |
| EventBridge.Bridge.AdvancePartition | pallets/eth-bridge/src/lib.rs:949-968 | moves to the position and additional transactions the model gives |
| EventBridge.Bridge.SubmitEthereumEvents | pallets/eth-bridge/src/lib.rs:582-621 | computes the state and result EventVoteOutcome describes and keeps the invariant |
| EventBridge.Bridge.CastEventVote | pallets/eth-bridge/src/lib.rs:582-621 | the call itself, early returns included, computes the same state and result from any state |
| EventBridge.Bridge.AuthorHasSubmittedLatestBlock | pallets/eth-bridge/src/lib.rs:1413-1420 | true exactly when some ballot has the author |
| EventBridge.Bridge.TallyBallots | pallets/eth-bridge/src/lib.rs:643-710 | counting and starting the range refine the model |
| EventBridge.Bridge.SubmitLatestEthereumBlock | pallets/eth-bridge/src/lib.rs:643-710 | computes the state and result BlockVoteOutcome describes, every error case included, and keeps the invariant |
| EventBridge.Bridge.AddProcessedEvent | pallets/eth-bridge/src/lib.rs:1449-1470 | refines the model and keeps the invariant |
| EventBridge.Bridge.GetEventsToMigrate | pallets/eth-bridge/src/lib.rs:1481-1525 | takes exactly the first entries in iteration order out of the instance, or nothing |
| EventBridge.Bridge.MigrateEventsBatch | pallets/eth-bridge/src/lib.rs:1319-1353 | over two instances in storage, refines the model of returned and recorded entries and keeps the target valid |
| EventBridge.Bridge.MigrateOnIdle | pallets/eth-bridge/src/lib.rs:791-820 | one idle step refines the two-instance model, keeps both instances valid and what they know between them |
| AppChains.StepChainsOk | pallets/avn-anchor/src/lib.rs:586-752 | every call keeps rates within the active registered chains and the list within its bound |
| AppChains.RatesBounded | pallets/avn-anchor/src/lib.rs:586-752 | so there are never more rates than chains may register |
| AppChainTheorems.StepRegistryOk | pallets/avn-anchor/src/lib.rs:586-752 | every call keeps the registry invariant |
| AppChainTheorems.RunRegistryOk | pallets/avn-anchor/src/lib.rs:586-752 | in every run each registered chain is listed once, with one id, one handler, one registry entry and one token, none shared, and a rate only while registered |
| AppChainTheorems.IdsNeverReused | pallets/avn-anchor/src/lib.rs:781-787 | a chain registered later gets an id no chain and no handler ever had before |
| AppChainTheorems.RatesAreManaged | pallets/avn-anchor/src/lib.rs:928-942 | only setting and disabling change a rate, and only by root or the chain's handler |
| AppChainTheorems.DeregisterRetires | pallets/avn-anchor/src/lib.rs:717-752 | a deregistered chain leaves its asset and token in the registry without a chain |
| AppChainTheorems.RetiredForever | pallets/avn-anchor/src/lib.rs:712-752 | in no run can the asset or the token of a deregistered chain be registered again, nor a rate be set for the asset |
| AppChainTheorems.RegisterOutcome | pallets/avn-anchor/src/lib.rs:586-642 | a chain is registered if and only if handler, asset and token are new, the names fit and there is room; it gets the next id, and every other chain keeps what it had |
| AppChainTheorems.SetRateOutcome | pallets/avn-anchor/src/lib.rs:644-671 | a rate is accepted if and only if it is positive and set by root or the chain handler; it is stored exactly as given, in the token the chain registered |
| AppChainTheorems.DisableOutcome | pallets/avn-anchor/src/lib.rs:699-715 | a rate is disabled if and only if there is one and root or the handler asks; no other rate changes |
| AppChainTheorems.DeregisterOutcome | pallets/avn-anchor/src/lib.rs:717-752 | a chain is deregistered if and only if its handler asks once its rate is disabled; every other chain keeps what it had |
| AppChainTheorems.UpdateHandlerOutcome | pallets/avn-anchor/src/lib.rs:797-819 | a handler hands over exactly what it handled, if and only if the new one handles nothing |
| ChainRegistry.Registry.RegisterAppchain | pallets/avn-anchor/src/lib.rs:586-642 | refines the model, each error included, and keeps the registry invariant |
| ChainRegistry.Registry.SetAppchainPeriodReward | pallets/avn-anchor/src/lib.rs:644-671 | refines the model, each error included, and keeps the registry invariant |
| ChainRegistry.Registry.RewardManagerCheck | pallets/avn-anchor/src/lib.rs:928-942 | passes if and only if the asset is registered and the caller is root or its chain's handler; says which of the two failed |
| ChainRegistry.Registry.Enrol | pallets/avn-anchor/src/lib.rs:586-638 | the checks in order and the insertions, with the id given out; an error leaves storage as it was |
| ChainRegistry.Registry.DisableAppchain | pallets/avn-anchor/src/lib.rs:699-715 | refines the model, each error included, and keeps the registry invariant |
| ChainRegistry.Registry.DeregisterAppchain | pallets/avn-anchor/src/lib.rs:717-752 | refines the model, each error included, and keeps the registry invariant |
| ChainRegistry.Registry.UpdateChainHandler | pallets/avn-anchor/src/lib.rs:797-819 | refines the model, each error included, and keeps the registry invariant |
| RewardLedger.SettleInv | pallets/avn-anchor/src/reward.rs:138-183 | settling a record keeps the ledger invariant |
| RewardLedger.PayEachInv | pallets/avn-anchor/src/reward.rs:138-206 | so does a batch of attempts, whatever fails |
| RewardLedger.ReclaimInOneCall | pallets/avn-anchor/src/reward.rs:109-124 | a bounded snapshot is gone after one reclaim |
| RewardLedger.ReclaimIsIdle | pallets/avn-anchor/src/lib.rs:759-763 | in every reachable state a reclaim by hand has nothing to do |
| RewardLedger.ShareIsFloor | pallets/avn-anchor/src/reward.rs:127-136 | a share is the largest amount whose 10^18-fold does not exceed share times total |
| RewardLedger.SharesAddUp | pallets/avn-anchor/src/reward.rs:127-136 | rounding each share down never hands out more than rounding the sum down |
| RewardLedger.Conservation | pallets/avn-anchor/src/reward.rs:138-183 | each settled eligible line was paid n with n * 10^18 <= share * opened amount < (n + 1) * 10^18; what a chain paid for a period is the sum of these and at most its snapshot; nothing else was paid |
| RewardOutcomes.PayoutOutcome | pallets/avn-anchor/src/reward.rs:138-183 | an attempt is all or nothing: if some eligible chain that owes the record at least one unit cannot pay, nothing changes; else the record is gone and exactly the lines owed something are paid, each its share rounded down, to the owner in the token of the chain |
| RewardOutcomes.RecordOutcome | pallets/avn-anchor/src/reward.rs:41-68 | a share within the protocol is stored, with its index entry, if and only if it is not zero and some chain funded the period |
| RewardOutcomes.OpenOutcome | pallets/avn-anchor/src/reward.rs:26-39 | opening a period stores every rate of the moment as it is |
| RewardLedger.SettledIsFinal | pallets/avn-anchor/src/reward.rs:138-183 | no later call changes any line of a settled record |
| RewardLedger.StepInv | pallets/avn-anchor/src/reward.rs:26-267 | every call keeps the ledger invariant |
| RewardLedger.RunInv | pallets/avn-anchor/src/reward.rs:26-267 | in every run a snapshot is unchanged from opening until its period is completed and settled, and then gone |
| RewardLedger.GenesisInv | pallets/avn-anchor/src/reward.rs:26-39 | the initial state satisfies the invariant |
| RewardLedger.FirstShare | pallets/avn-anchor/src/reward.rs:26-68 | opening a first period with some rate and recording a first share reaches a state of the invariant with a record to be paid |
| RewardSweep.KeysAfterCursor | pallets/avn-anchor/src/reward.rs:214-267 | the iteration yields exactly the records after the cursor, each once, in storage order |
| RewardSweep.BatchSplits | pallets/avn-anchor/src/reward.rs:214-267 | a batch is the front of what is left, and the moved cursor splits the rest off |
| RewardSweep.NoStarvation | pallets/avn-anchor/src/reward.rs:214-267 | by the wrap every record of the pass was attempted exactly once or settled by a claim, whatever failed |
| RewardSweep.StepPassOk | pallets/avn-anchor/src/reward.rs:214-267 | every call keeps the pass accounted for |
| RewardSweep.RunPassOk | pallets/avn-anchor/src/reward.rs:214-267 | the same over every run |
| RewardSweep.SweepsUseUp | pallets/avn-anchor/src/reward.rs:214-267 | each sweep that does not wrap uses up its capacity of the records ahead |
| RewardSweep.WrapsInTime | pallets/avn-anchor/src/lib.rs:201-205 | with room for m payouts, n sweeps without a wrap over k records need n * m <= k |
| RewardSweep.FundedSweep | pallets/avn-anchor/src/reward.rs:214-267 | a sweep whose payouts succeed leaves nothing unpaid behind the cursor, and nothing at all if it wraps |
| RewardSweep.AllPaidAtWrap | pallets/avn-anchor/src/reward.rs:214-267 | if no payout of a pass fails everything is paid at its wrap, within k / m + 1 sweeps |
| RewardPallet.Pallet.CopyRates | pallets/avn-anchor/src/reward.rs:26-39 | adds exactly the non-zero rates |
| RewardPallet.Pallet.OnNewRewardPeriod | pallets/avn-anchor/src/reward.rs:26-39 | opens the period as the model does and keeps all invariants |
| RewardPallet.Pallet.OnRewardPaid | pallets/avn-anchor/src/reward.rs:41-68 | records the share as the model does and keeps all invariants |
| RewardPallet.Pallet.OnRewardPeriodCompleted | pallets/avn-anchor/src/reward.rs:74-82 | completes the period as the model does and keeps all invariants |
| RewardPallet.Pallet.DropEntries | pallets/avn-anchor/src/reward.rs:109-124 | a bounded clear removes no more than its limit and all when there are no more |
| RewardPallet.Pallet.TryReclaimPeriod | pallets/avn-anchor/src/reward.rs:109-124 | from any state: nothing before completion and settlement, then up to the maximum of entries, whichever, and the marker with the last |
| RewardPallet.Pallet.ReclaimPeriod | pallets/avn-anchor/src/lib.rs:759-763 | leaves every storage item as it was |
| RewardPallet.Pallet.PayChains | pallets/avn-anchor/src/reward.rs:138-166 | pays every due chain, or nothing at all; what is due and paid is told by amounts in PayoutOutcome |
| RewardPallet.Pallet.TryPayNodePeriod | pallets/avn-anchor/src/reward.rs:138-183 | computes the state PayoutOutcome describes, succeeding exactly when it settles, and keeps the ledger invariant |
| RewardPallet.Pallet.Claim | pallets/avn-anchor/src/lib.rs:673-684 | attempts the claimed number of distinct outstanding periods of the node and keeps all invariants |
| RewardPallet.Pallet.NextAfter | pallets/avn-anchor/src/reward.rs:214-267 | the least record after a position |
| RewardPallet.Pallet.CollectBatch | pallets/avn-anchor/src/reward.rs:214-246 | collects exactly the front of the records after the cursor |
| RewardPallet.Pallet.SweepOutstanding | pallets/avn-anchor/src/reward.rs:248-266 | moves the cursor by position, then attempts the batch |
| RewardPallet.Pallet.OnIdle | pallets/avn-anchor/src/lib.rs:201-205 | a sweep within the payout bound, keeping all invariants |
| RewardPallet.Pallet.ProcessOutstandingRewards | pallets/avn-anchor/src/lib.rs:686-693 | a sweep, or no change when there was nothing to attempt |
| RewardPallet.Pallet.ManageChains | pallets/avn-anchor/src/lib.rs:586-752 | chain management leaves every recorded reward alone |
| Merkle.LexLeIsByteOrder | client/extrinsic-utils/src/merkle_tree_utils.rs:68-82 | digests are compared by the first byte in which they differ |
| Merkle.PairIsSorted | client/extrinsic-utils/src/merkle_tree_utils.rs:68-82 | a pair is the lesser digest followed by the greater |
| Merkle.PairUpAt | client/extrinsic-utils/src/merkle_tree_utils.rs:52-66 | each node of a level is the hash of the two below it, or the last one without a partner |
| Merkle.PairSymmetric | client/extrinsic-utils/src/merkle_tree_utils.rs:68-82 | the order of two children is forgotten |
| Merkle.PairInjective | client/extrinsic-utils/src/merkle_tree_utils.rs:68-82 | and nothing else is |
| Merkle.ProcessNodesInPairs | client/extrinsic-utils/src/merkle_tree_utils.rs:52-66 | the pair loop computes one level |
| Merkle.ProcessLevel | client/extrinsic-utils/src/merkle_tree_utils.rs:40-48 | the level recursion computes the reduction |
| Merkle.GenerateTreeRoot | client/extrinsic-utils/src/merkle_tree_utils.rs:19-34 | fails exactly on no leaves, else gives the root |
| Merkle.ProcessNodesInPairsForPath | client/extrinsic-utils/src/merkle_tree_utils.rs:125-152 | the pair loop with its in-place branch computes one climb and the same level |
| Merkle.ProcessLevelForPath | client/extrinsic-utils/src/merkle_tree_utils.rs:109-123 | the level recursion climbs and reduces |
| Merkle.GenerateMerklePath | client/extrinsic-utils/src/merkle_tree_utils.rs:86-107 | fails exactly on an empty leaf or list, else its path folds a leaf of the list to the root |
| Merkle.Completeness | client/extrinsic-utils/src/merkle_tree_utils.rs:19-152 | for every hash function the path of any leaf folds to the root, duplicates, odd levels and collisions included |
| Merkle.RootIsTreeDigest | client/extrinsic-utils/src/merkle_tree_utils.rs:19-66 | the root is the digest of a tree holding exactly the given leaves |
| Merkle.TreeBinding | client/extrinsic-utils/src/merkle_tree_utils.rs:52-82 | two trees with one digest hold the same data or exhibit a collision |
| Merkle.Binding | client/extrinsic-utils/src/merkle_tree_utils.rs:19-82 | two leaf lists without a 64-byte leaf and with one root hold the same multiset of leaves, or the two runs exhibit a collision |
| Merkle.Soundness | client/extrinsic-utils/src/merkle_tree_utils.rs:19-152 | any path that folds a leaf to the root proves membership or exhibits a collision |
| BlockSearch.LinearScan | node/src/rpc/cross_chain_voting.rs:163-171 | the reference: the last block at or before the target |
| BlockSearch.CeilLog2IsLeast | node/src/rpc/cross_chain_voting.rs:144-154 | the cost bound is the least power of two that covers the range |
| BlockSearch.MidpointShrinksIff | node/src/rpc/cross_chain_voting.rs:144-147 | a midpoint shrinks its range exactly when the 32-bit sum does not wrap |
| BlockSearch.AllMidpointsShrinkIff | node/src/rpc/cross_chain_voting.rs:144-147 | every midpoint of a chain does exactly when its last number is at most 2^31 |
| BlockSearch.SearchEndsIff | node/src/rpc/cross_chain_voting.rs:144-154 | over a chain with increasing timestamps the loop ends for every target if and only if the last block number is at most 2^31 |
| BlockSearch.NeverCloses | node/src/rpc/cross_chain_voting.rs:144-154 | past that, for a target between the last two blocks, it never ends |
| BlockSearch.InterpolateNextGuess | node/src/rpc/cross_chain_voting.rs:66-92 | a guess, when there is one, is in bounds |
| BlockSearch.BinarySearchRange | node/src/rpc/cross_chain_voting.rs:134-155 | finds what the linear scan finds, within the logarithmic number of probes |
| BlockSearch.FindBlockAtOrBeforeTimestamp | node/src/rpc/cross_chain_voting.rs:163-242 | agrees with the linear scan for every sequence of guesses, within 9 + ceil(log2) probes |
| BlockSearch.Interpolate | node/src/rpc/cross_chain_voting.rs:208-241 | the refinement loop agrees with the linear scan within 7 + ceil(log2) probes |
| BlockSearch.BlockForTimestamp | node/src/rpc/cross_chain_voting.rs:274-302 | serves a block for every timestamp, each error case stated |
| BlockSearch.AnswersServe | node/src/rpc/cross_chain_voting.rs:163-242 | an answer is at or before the target exactly when the genesis block is |
| BlockSearch.ServedBlockIsUnique | node/src/rpc/cross_chain_voting.rs:163-242 | for strictly increasing timestamps it is the only block n with ts(n) <= target < ts(n+1) |
| Authors.GenesisAuthors | pallets/authors-manager/src/lib.rs:238-256 | genesis lists the given authors in order with nothing in flight |
| Authors.GenesisInv | pallets/authors-manager/src/lib.rs:238-256 | a duplicate-free genesis within bounds satisfies the invariant |
| Authors.PublishInv | pallets/authors-manager/src/lib.rs:522-640 | a published action is the only one in flight, under a new id and the only mapping |
| Authors.AddInv | pallets/authors-manager/src/lib.rs:459-580 | requesting a registration keeps the invariant |
| Authors.ResultInv | pallets/authors-manager/src/lib.rs:863-896 | every callback succeeds and keeps the invariant |
| Authors.SessionInv | pallets/authors-manager/src/lib.rs:781-825 | a new session keeps the invariant, in any iteration order |
| Authors.StepInv | pallets/authors-manager/src/lib.rs:238-896 | every call keeps the invariant |
| Authors.RunInv | pallets/authors-manager/src/lib.rs:238-896 | every run keeps Min <= authors <= Max without duplicates, one action in flight with one mapping, and no callback can fail |
| Authors.FailedRegistrationUndoneIff | pallets/authors-manager/src/lib.rs:643-673 | a failed registration is undone exactly when the account had no key on file |
| Authors.FailedRemovalUndone | pallets/authors-manager/src/lib.rs:643-673 | a failed removal with no session in between leaves all but the counter |
| Authors.FailedRegistration | pallets/authors-manager/src/lib.rs:643-673 | the whole state a failed registration leaves: the account key is gone, all else but the counter is as before |
| Authors.SessionReviewsFlight | pallets/authors-manager/src/lib.rs:786-825 | a session reviews the one action in flight, however often it is iterated, and nothing else |
| Authors.FailedRemovalUndoneIff | pallets/authors-manager/src/lib.rs:786-825 | the whole state a failed removal leaves with a session in between, undone exactly when the session has the author or no key names them |
| Authors.FailedRejoinLosesKey | pallets/authors-manager/src/lib.rs:643-673 | whoever joins, leaves and fails to rejoin loses the account key that leaving had kept |
| Authors.FailedRejoinFromGenesis | pallets/authors-manager/src/lib.rs:238-256 | that run exists from every genesis with room for one more |
| Authors.FailedRemovalFromGenesis | pallets/authors-manager/src/lib.rs:238-256 | from every genesis an author can end up listed with the one Ethereum key that named them gone and every other key kept |
| Authors.AddThenRemove | pallets/authors-manager/src/lib.rs:675-735 | adding and removing an author, both confirmed, gives back the list |
| AuthorOutcomes.AddOutcome | pallets/authors-manager/src/lib.rs:522-580 | a registration is accepted if and only if account and key are new and valid, there is room, session keys are set, nothing is in flight and the bridge takes it; what it then changes, the list excepted |
| AuthorOutcomes.RemoveOutcome | pallets/authors-manager/src/lib.rs:583-640 | a removal is accepted if and only if the author is listed with a valid key on file, enough remain, nothing is in flight and the bridge takes it |
| AuthorOutcomes.RotateOutcome | pallets/authors-manager/src/lib.rs:295-318 | a key is rotated if and only if the new one is free and the old one names the account; no other key changes |
| AuthorOutcomes.ResultOutcome | pallets/authors-manager/src/lib.rs:863-896 | a result is acted on if and only if it is for this pallet and its transaction is awaited; exactly the account is then added, removed or left, and nothing is awaited |
| Authors.Leaves | pallets/authors-manager/src/lib.rs:675-735 | a confirmed removal takes exactly the account off the list and its first Ethereum key out |
| AuthorRegistry.Registry.AnyActiveAction | pallets/authors-manager/src/lib.rs:510-520 | true exactly when some action is in flight |
| AuthorRegistry.Registry.ValidateRegistration | pallets/authors-manager/src/lib.rs:459-490 | rejects with the first failing check |
| AuthorRegistry.Registry.AddAuthor | pallets/authors-manager/src/lib.rs:522-580 | refines the model and keeps the invariant |
| AuthorRegistry.Registry.ValidateDeregistration | pallets/authors-manager/src/lib.rs:492-507 | rejects with the first failing check |
| AuthorRegistry.Registry.RemoveAuthor | pallets/authors-manager/src/lib.rs:583-640 | refines the model and keeps the invariant |
| AuthorRegistry.Registry.RotateAuthorEthereumKey | pallets/authors-manager/src/lib.rs:295-318 | refines the model and keeps the invariant |
| AuthorRegistry.Registry.RemoveEthereumKey | pallets/authors-manager/src/lib.rs:452-457 | drops exactly the first key naming the account |
| AuthorRegistry.Registry.ProcessResult | pallets/authors-manager/src/lib.rs:863-896 | refines the model, always succeeds and keeps the invariant |
| AuthorRegistry.Registry.RollbackFailedAction | pallets/authors-manager/src/lib.rs:643-673 | refines the model |
| AuthorRegistry.Registry.OnNewSession | pallets/authors-manager/src/lib.rs:786-825 | refines the model in any iteration order and keeps the invariant |
| LinkedAccounts.SwapRemoved | pallets/cross-chain-voting/src/lib.rs:205-209 | removing by swapping the last entry in keeps the rest, each once |
| LinkedAccounts.LinkInv | pallets/cross-chain-voting/src/lib.rs:146-189 | linking keeps the two maps each other's inverse |
| LinkedAccounts.UnlinkInv | pallets/cross-chain-voting/src/lib.rs:193-219 | so does unlinking |
| LinkedAccounts.RunInv | pallets/cross-chain-voting/src/lib.rs:146-219 | so does every run |
| LinkedAccounts.LinkOutcome | pallets/cross-chain-voting/src/lib.rs:146-189 | an account is linked if and only if it asks itself, the identity signed, it is linked to no other and, when new, the identity has room; it then ends the list of the identity and nothing else changes |
| LinkedAccounts.UnlinkOutcome | pallets/cross-chain-voting/src/lib.rs:193-219 | an account is unlinked if and only if it asks itself, from the identity it is linked to; nobody else is |
| LinkedAccounts.LinkThenUnlink | pallets/cross-chain-voting/src/lib.rs:146-219 | linking and unlinking an account changes nothing anyone can see |
| LinkedAccounts.WeightsAddUp | pallets/cross-chain-voting/src/lib.rs:244-256 | over any set of identities the weights add up to the balances of their accounts, each once |
| LinkedAccounts.WeightsWithinIssuance | pallets/cross-chain-voting/src/lib.rs:244-256 | so no set of identities outweighs everything there is |
| LinkedAccounts.WeightFits | pallets/cross-chain-voting/src/lib.rs:244-251 | the 128-bit fold is exact when all balances together fit |
| LinkRegistry.Links.LinkAccount | pallets/cross-chain-voting/src/lib.rs:146-189 | refines the model, every error case included, and keeps the invariant |
| LinkRegistry.Links.UnlinkAccount | pallets/cross-chain-voting/src/lib.rs:193-219 | refines the model, every error case included, and keeps the invariant |
| LinkRegistry.Links.GetTotalLinkedBalance | pallets/cross-chain-voting/src/lib.rs:244-251 | the fold is the exact weight modulo 2^128 |
| LinkRegistry.Links.GetTotalLinkedBalances | pallets/cross-chain-voting/src/lib.rs:254-256 | one total per identity, in order |
| EventDiscovery.MergeLogs | client/external-service/src/ethereum_events_handler.rs:312-323 | the loop over the logs merges as the model does, stopping at the first bad log |
| EventDiscovery.IdentifyEvents | client/external-service/src/ethereum_events_handler.rs:269-329 | the method computes the result IdentifyOutcome describes, for every answer of the node |
| EventDiscovery.MergeTakesFirst | client/external-service/src/ethereum_events_handler.rs:312-323 | a merge holds exactly the transactions of the logs, each as its first log parses |
| EventDiscovery.ParsedEvent | client/external-service/src/ethereum_events_handler.rs:372-407 | a log parses if and only if it has a topic, a transaction, a block and a known parser that accepts it; the event has those, and a transfer without a token gets the address of its log |
| EventDiscovery.MergesIffFirstLogsParse | client/external-service/src/ethereum_events_handler.rs:312-323 | a merge succeeds if and only if the first log of every transaction parses |
| EventDiscovery.IdentifiesFirstLogs | client/external-service/src/ethereum_events_handler.rs:269-329 | a transaction is found if and only if its first log, bridge logs before token logs, is of a wanted event, and as that log parses, whether or not the secondary query was made |
| EventDiscovery.IdentifyOutcome | client/external-service/src/ethereum_events_handler.rs:269-329 | for every answer: which failed query fails the call, when the rest succeeds, and exactly what it finds |
| EventDiscovery.SkippingIsSound | client/external-service/src/ethereum_events_handler.rs:292-310 | the events found are the wanted ones of the full merge, whether or not the secondary query was skipped |
| EventDiscovery.SkippingFailsLess | client/external-service/src/ethereum_events_handler.rs:292-310 | what fails with the query skipped fails alike with it made |

## Left out

- Off-chain workers, HTTP, the keystore, RPC plumbing, the node service, the command line and chain specs: input and output.
- ECDSA recovery, ABI and SCALE encoding and hashing: parameters of the models; nothing is assumed of them.
- Weights, benchmarking and event deposits: only the capacity they leave a sweep is kept, as a parameter.
- Storage-version migrations: they depend on framework decoding.
- The proxy, transaction-payment and offence-handling pallets, checkpoints and their fees: they would only add easy members.
- The voting trait of the shared AvN pallet: its recording and ending steps are implemented elsewhere.
- Callbacks that call back into the bridge: notification is taken not to re-enter it.
- Rotation and deregistration leave the two author key maps out of step, so nothing is claimed about them being inverse.
- Confirmations are kept apart by signature, not by author, so no claim is made that authors are distinct.
- Changes of the validator set during a run: it is fixed, at any size.
- Changes to the asset registry by other pallets: app-chain results are about the entries these calls make.
- Lowering the maximum number of registered chains during a run: the snapshot bound is proved for a fixed maximum.
- The node manager's protocol (each period opened once, each node recorded once per period, shares within 100%, nothing recorded after completion) is a precondition, stated by `Allowed`.
- The order of discovered events: a result is a map from transaction to event, as the source's hash map leaves the order open.
- Admin settings of the event machine are steps of `EventVoting.Step`, not methods of the class.
- RequestTheorems.TxIdsAscend: excludes the admin reset of the transaction id and runs long enough to wrap the 32-bit counter.
- Settlements.SettlementsAreOnFile: excludes the same, since a reused id overwrites its entry.
- EventOutcomes.StartBlockIsExact: covers range lengths of which five fit in 32 bits; past that the margin wraps, as in a release build.
- RequestOutcomes.SendersHashIsFiled: the hash given is not the zero hash, which stands for none.
- RewardSweep.WrapsInTime: covers sweeps whose effects are kept; a permissionless call that finds nothing fails and its cursor move is undone.
- A change of instance does not hash an active lower proof again, so its hash is of some instance, not always the current one.
- EventDiscovery.IdentifiesFirstLogs: takes the node to answer the secondary query with secondary signatures only; IdentifyOutcome makes no such assumption.
- EventDiscovery.SkippingIsSound: takes the node to answer the secondary query with secondary signatures only, and the full merge to succeed.
- LinkRegistry.Links.GetTotalLinkedBalance: addition wraps at 128 bits, as in a release build.
- BlockSearch.FindBlockAtOrBeforeTimestamp: needs non-decreasing timestamps and block numbers up to 2^31; the floating-point projection is an arbitrary function of the two probes.
