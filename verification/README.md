# Delivery pipeline of the TCE, verified

This project models how a Topos transmission control engine (TCE) turns certificates into
delivered, positioned certificates, and proves what that pipeline keeps over all runs.

| file | what it holds |
|---|---|
| `quorum.dfy` | threshold arithmetic and quorum facts |
| `double_echo.dfy` | the broadcast state of one certificate, as an object and as a function of the votes |
| `vote_order.dfy` | when the order of votes matters, and what progress is made whatever the order |
| `network.dfy`, `network_limits.dfy` | one broadcast across all validators, some of them faulty |
| `fullnode_store.dfy` | the delivered tables as a fast form of a log of deliveries; paged reads |
| `validator_store.dfy` | the pending and precedence pools in front of these tables |
| `task_manager.dfy` | the task manager and its tasks, as an object and as a step function |
| `history.dfy` | what a task is made of: its broadcast, the votes it took in order, the position it read |
| `node_runs.dfy` | what every run of a validator keeps, forks and stale positions included |
| `chains.dfy`, `fork_free_runs.dfy`, `agreement.dfy` | positions are depths, on every validator, for every subnet that behaves |
| `announcements.dfy` | what a validator tells its clients, and what its streams hold |
| `votes.dfy`, `vote_limits.dfy` | no vote is lost or invented between arrival and counting, and when they decide |
| `node_progress.dfy`, `cluster.dfy` | networks of whole validators: what one holds, all come to hold |
| `command_loop.dfy` | the command loop in front of the task manager, and what it drops |
| `timeliness.dfy`, `resubmission.dfy` | when a delivered certificate is taken up again, and which commands lead to it |
| `windows.dfy` | a waiting task whose predecessor is already delivered |
| `pending_runs.dfy`, `walks.dfy` | the pending pools over runs, the block number a sequencer resumes from, and when the pending walk ends |
| `sequencer.dfy`, `block_loops.dfy`, `subnets.dfy` | certification and block loops, when they stop, listen and catch up, and several sequencers together |
| `pipeline.dfy`, `restart.dfy` | from the blocks of all subnets to the positions on every validator, also after a restart |
| `stream_keys.dfy`, `locking.dfy` | byte order of the column keys, and the per-key mutexes |

Concurrency is modelled by actions. A run is any finite sequence of actions and an action that is
not possible changes nothing, so a statement about all sequences is a statement about every
interleaving of messages, task polls, completions and store writes. Objects that the source mutates
are classes; each method is proved against a function on values, and the run theorems are about
that function.

`dafny verify dfyconfig.toml` checks everything.

## Hypotheses

- Authenticity: a vote attributed to a non-faulty validator was sent by it (`Network.Genuine`,
  `Cluster.Genuine`). Echo and Ready sign the same payload, so this is not derived from signatures.
- Totality and validity count a validator's own votes like everybody else's: they must have arrived at
  it too. The code only publishes them to the gossip layer
  (crates/topos-tce/src/app_context/protocol.rs:42-86); whether a validator hears itself is up to that layer.
- Signing succeeds and no channel overflows.
- A store insertion is one step: nothing else runs between the position check and the write.
- Fork-free (`Chains.ForkFree`), of one subnet: ids name certificates, the subnet's certificates follow
  certificates of the subnet and no others do, and no two of them the same one. Other subnets may fork.
  Used only where a statement names it.
- A delivered certificate of that subnet is not taken up again (`ForkFreeRuns.Admissible`,
  `VoteRuns.NotAgain` for one certificate); others may be. The command loop does not enforce this by
  itself: `Timeliness.TimelyIffAdmissible` gives the exact condition seen from inside and
  `Resubmission.HarmlessIff` the exact condition on the commands.
- At most 2^64 - 1 certificates exist where positions could run out. Where the counter of pending ids
  matters it must not start again from zero (`PendingRuns.NoWrap`, `ValidatorStore.Unwrapped`), which
  `ShortUnwrapped`, `ShortRunNoWrap` and `OnceNoWrap` derive from other conditions.

## Where the code does less than expected

- The one-transition-per-message status is a function of the distinct senders exactly when the
  thresholds are separated; derived thresholds are, except for one or two validators
  (`SettledIffSeparated`, `DerivedThresholdsSeparated`).
- With two validators the order in which a task takes its votes matters: a buffered Echo that is
  overtaken delivers a certificate whose votes, in order of arrival, would leave it in ReadySent
  (`OrderFreeIff`, `Overtake`, `DerivedVotesDecideIff`).
- The thresholds come from n / 3, but totality needs at most (n - 1) / 3 faulty validators, and fails
  in some run as soon as there are more and two validators are left to disagree (`TotalityIff`).
- The filter of the command loop learns of a delivery too late: in every network that can deliver, a
  certificate commanded again after its whole chain can be taken up again after delivery, and only
  then (`HarmlessIff`, `FilterSufficesIff`).
- One vote of a stranger, or with a bad signature, ends the command loop of a validator for good
  (`OpenIff`, `ClosedStays`).
- A waiting task may have a delivered predecessor: exactly while the completion of that predecessor
  has not been handled (`TasksCoherent`, `WaitingBehindDelivered`).
- A certificate submitted twice stays in the pending pool after its delivery
  (`DeliveredStaysPooledIff`, `DuplicateSubmissionStays`).
- Certificates generated in one batch all name the same predecessor, so a batch is a chain exactly
  when it has at most one block (`BatchLinkedIff`). The block loops always append one.
- With pending certificates and nothing delivered, the resume block is one too high (`ResumeIsDepth`,
  `ResumeTooHigh`), and the restarted sequencer numbers its blocks wrongly (`RestartPositions`). A
  certificate that was submitted twice is counted twice (`ResumeCountsTwice`).
- A sequencer restarted at a validator that has not got all certificates of its subnet forks it as soon
  as it certifies a block (`RestartForkFreeIff`).
- The pending walk goes round forever if certificates that precede each other in a ring get pooled. The
  store alone does not prevent this (`WalksEndIffRingFree`); the task manager does, because nothing on a
  ring is ever delivered (`EveryWalkEnds`).
- The comparison before the source head is written has no effect, because the head is replaced in
  both cases; head agreement comes from in-order appends (`WriteHeadIds` under `InsertRefinesAppend`).

## Model

| member | source | states |
|---|---|---|
| Quorum.ThresholdsInRange | crates/topos-tce-transport/src/lib.rs:26-34 | For every network of at least one validator each threshold lies between 1 and n, and ready is at most delivery and at most echo. |
| Quorum.EchoQuorumsIntersect | crates/topos-tce-transport/src/lib.rs:26-34 | Any two sets of validators that reach the echo threshold share more than n / 3 validators. |
| Quorum.EchoIsLeast | crates/topos-tce-transport/src/lib.rs:26-34 | And the echo threshold is the least number of which any two sets do. |
| Quorum.DeliveryQuorumAmplifies | crates/topos-tce-transport/src/lib.rs:26-34 | A delivery quorum minus up to n / 3 faulty validators still reaches the ready threshold. |
| Quorum.DeliveryIsLeast | crates/topos-tce-transport/src/lib.rs:26-34 | And it is the least number of which every set keeps a ready quorum of non-faulty members, whoever the n / 3 faulty ones are. |
| Quorum.ReadyIsLeast | crates/topos-tce-transport/src/lib.rs:26-34 | The ready threshold is the least number of which every set has a non-faulty member. |
| Quorum.NonFaultySuffice | crates/topos-tce-transport/src/lib.rs:26-34 | The non-faulty validators alone meet all three thresholds if and only if at most (n - 1) / 3 are faulty. |
| DoubleEcho.BroadcastState.constructor | crates/topos-tce-broadcast/src/double_echo/broadcast_state.rs:38-78 | A new state has announced itself, gossiped if asked to, sent its Echo, and subscribes to all validators for both kinds of vote. |
| DoubleEcho.BroadcastState.ApplyEcho | crates/topos-tce-broadcast/src/double_echo/broadcast_state.rs:103-109 | The object after an Echo is the vote function of the old object; only a still subscribed sender has any effect. |
| DoubleEcho.BroadcastState.ApplyReady | crates/topos-tce-broadcast/src/double_echo/broadcast_state.rs:111-118 | The object after a Ready is the vote function of the old object; an accepted sender is recorded in the proof set. |
| DoubleEcho.BroadcastState.Update | crates/topos-tce-broadcast/src/double_echo/broadcast_state.rs:120-241 | At most one transition, Echo before Ready before delivery, with the event it emits and the status it reports. |
| DoubleEcho.ApplySound | crates/topos-tce-broadcast/src/double_echo/broadcast_state.rs:103-241 | Every vote keeps: proof set and open subscriptions partition the validators, no status without its threshold, one Echo in all and one Ready exactly when claimed. |
| DoubleEcho.SettledIffSeparated | crates/topos-tce-broadcast/src/double_echo/broadcast_state.rs:103-241 | Over all vote sequences (order, duplicates, unknown senders) the status equals a closed form of the two sets of distinct known senders, if and only if the thresholds are separated. |
| DoubleEcho.DerivedThresholdsSeparated | crates/topos-tce-transport/src/lib.rs:26-34 | The derived thresholds are separated exactly for no validators or at least three, so the closed form holds there and fails for one or two. |
| DoubleEcho.NeverPlainDelivered | crates/topos-tce-broadcast/src/double_echo/broadcast_state/status.rs:24-47 | With ready at most delivery no vote sequence rests in the delivered status that has not sent Ready. |
| DoubleEcho.ReportsChange | crates/topos-tce-broadcast/src/double_echo/broadcast_state.rs:103-201 | A vote reports a change exactly when it changes the status, and then the new status. |
| DoubleEcho.StatusAdvances | crates/topos-tce-broadcast/src/double_echo/broadcast_state.rs:103-201 | A vote never takes back Ready or delivery, makes at most one of the two steps, and has no effect if its sender was counted already. |
| DoubleEcho.EventsOf | crates/topos-tce-broadcast/src/double_echo/broadcast_state.rs:38-201 | After any votes the emitted events are the announcement, the gossip if asked for, exactly one Echo and one Ready exactly when it has been sent, in this order. |
| VoteOrder.OrderFreeIff | crates/topos-tce-broadcast/src/double_echo/broadcast_state.rs:103-241 | The same votes of the same known senders lead to the same status in every order if and only if Ready and delivery do not fall due with the same Ready, or one Echo makes Ready due. |
| VoteOrder.DerivedOrderFree | crates/topos-tce-transport/src/lib.rs:26-34 | The derived thresholds are free of order for every number of validators except two. |
| VoteOrder.ApplyPrompt | crates/topos-tce-broadcast/src/double_echo/broadcast_state.rs:120-201 | Every vote keeps, for any order: a due Ready has been sent, and delivery follows as soon as it is due together with an echo quorum or more Readies than the ready threshold. |
| Network.ExecInv | crates/topos-tce-broadcast/src/double_echo/broadcast_state.rs:103-241 | In every run with at most n / 3 faulty validators all states are sound, accepted non-faulty votes were sent, and a sent Ready goes back to an echo quorum seen by a non-faulty validator. |
| Network.ReadyComesFromBroadcast | crates/topos-tce-broadcast/src/double_echo/broadcast_state.rs:103-241 | If a non-faulty validator sent Ready, a non-faulty validator saw an echo quorum, so at least the echo threshold minus the faulty validators had been handed the certificate. |
| Network.ExecSettled | crates/topos-tce-broadcast/src/double_echo/broadcast_state.rs:120-201 | In every run of at least three validators, with any number of faulty ones, every state rests in the closed form of what it accepted. |
| Network.ExecPrompt | crates/topos-tce-broadcast/src/double_echo/broadcast_state.rs:120-201 | In every run of any number of validators, faulty ones included, every state is prompt. |
| Network.Totality | crates/topos-tce-broadcast/src/double_echo/broadcast_state.rs:111-241 | For any number of validators with at most (n - 1) / 3 faulty, one delivery leads to delivery at every non-faulty validator once all were handed the certificate and sent Readies arrived. |
| Network.Validity | crates/topos-tce-broadcast/src/double_echo/broadcast_state.rs:103-241 | For any number of validators with at most (n - 1) / 3 faulty, if all non-faulty ones were handed the certificate and all their votes arrived, all of them have delivered. |
| NetworkLimits.BreakTotality | crates/topos-tce-transport/src/lib.rs:26-34 | With more than (n - 1) / 3 faulty validators, up to all but two, there is a run in which one validator delivers, all Readies arrive and another has not delivered. |
| NetworkLimits.TotalityIff | crates/topos-tce-transport/src/lib.rs:26-34 | For every network and every set of faulty validators, totality holds in all runs if and only if at most (n - 1) / 3 are faulty or at most one is not. |
| FullNodeStore.PlaceIs | crates/topos-tce-storage/src/fullnode/mod.rs:142-191 | The index batch holds one entry per distinct target, at the first free position of its stream before the write, whatever the order or repetition of targets. |
| FullNodeStore.FullNodeStore.PlaceTargets | crates/topos-tce-storage/src/fullnode/mod.rs:150-184 | The loop over the targets fails exactly when some target stream has used up its positions, otherwise it collects the placement of all targets. |
| FullNodeStore.FullNodeStore.InsertCertificateDelivered | crates/topos-tce-storage/src/fullnode/mod.rs:60-204 | The object's tables after an insertion are those of the insertion function, and on an error they are unchanged. |
| FullNodeStore.LastPositionsAgree | crates/topos-tce-storage/src/fullnode/mod.rs:247-257 | For source and target streams the largest scanned position and the index entry are the same: one less than the stream's length, or absent. |
| FullNodeStore.WriteAppends | crates/topos-tce-storage/src/fullnode/mod.rs:84-193 | An in-order write makes all six tables represent the log with the delivery appended: streams, heads, target streams, lists and positions. |
| FullNodeStore.GapIsNoLog | crates/topos-tce-storage/src/fullnode/mod.rs:84-100 | A position beyond the end of the stream leaves tables that no log of deliveries explains. |
| FullNodeStore.MisfiledIsNoLog | crates/topos-tce-storage/src/fullnode/mod.rs:77-132 | A proof that names another subnet than the certificate files it in a stream whose head then lags behind, which no log of deliveries explains. |
| FullNodeStore.InsertRefinesAppend | crates/topos-tce-storage/src/fullnode/mod.rs:77-193 | For any delivery, insertion fails if and only if the position is taken or a target stream is full, and says which, the former first; a successful one is an append exactly when the position is the next one of the certificate's own source stream, and otherwise leaves tables no log explains. |
| FullNodeStore.InsertEffects | crates/topos-tce-storage/src/fullnode/mod.rs:77-204 | Any accepted delivery, in order or not, changes exactly its own entry, its places in its source and target streams, the head of its subnet, whatever that was, and the last positions and marks of its targets. |
| FullNodeStore.InsertReports | crates/topos-tce-storage/src/fullnode/mod.rs:134-204 | A successful insertion reports its own source position and, for every target and no other subnet, the length that target stream had. |
| FullNodeStore.ReadExact | crates/topos-tce-storage/src/fullnode/mod.rs:277-354 | A page has as many entries as the stream has from that position on, up to the limit, in order, each with its own position and the newest delivery of its certificate. |
| FullNodeStore.ReadNamesStored | crates/topos-tce-storage/src/fullnode/mod.rs:277-354 | On any tables, whatever is read is stored at its position and under its own id. |
| FullNodeStore.PagesJoin | crates/topos-tce-storage/src/fullnode/mod.rs:277-354 | A page followed by the adjacent page is the page of the joint size. |
| FullNodeStore.PagesCoverOnce | crates/topos-tce-storage/src/fullnode/mod.rs:277-354 | Successive pages of any size are together one read from position zero: no overlap, no omission. |
| FullNodeStore.PagesAreStream | crates/topos-tce-storage/src/fullnode/mod.rs:277-354 | A client that reads page after page gets one entry per position of the stream from its start, as many as there are positions or as fit into the pages. |
| ValidatorStore.ValidatorStore.InsertPendingCertificate | crates/topos-tce-storage/src/validator/mod.rs:147-182 | The pools after a submission are those of the submission function: refused when delivered, pooled under a fresh id, or filed under the predecessor. |
| ValidatorStore.ValidatorStore.InsertCertificateDelivered | crates/topos-tce-storage/src/validator/mod.rs:407-433 | The store after a delivery is that of the delivery function, including the failure of the promotion after the tables are written. |
| ValidatorStore.ValidatorStore.WalkPrecedence | crates/topos-tce-storage/src/validator/mod.rs:99-109 | Where the walk ends it counts the whole chain and stops at its last certificate. |
| ValidatorStore.ValidatorStore.GetPendingCertificatesForSubnets | crates/topos-tce-storage/src/validator/mod.rs:81-113 | Where the walks from the pooled certificates of the requested subnets end, every requested subnet, and no other, gets the tally of its pooled chains in the order of pending ids. |
| ValidatorStore.WalkEndsIff | crates/topos-tce-storage/src/validator/mod.rs:99-109 | The condition the walking methods ask for is exactly that the source's loop ends; otherwise it goes round in a cycle forever. |
| ValidatorStore.Zeros | crates/topos-tce-storage/src/validator/mod.rs:85-89 | The walk starts from an empty summary for every requested subnet and for no other. |
| ValidatorStore.TallyAddsUp | crates/topos-tce-storage/src/validator/mod.rs:91-111 | For any number of pooled entries of a subnet, duplicates and forks included, the lengths of their chains add up and the entry with the highest pending id names the last certificate. |
| ValidatorStore.PoolInvAlways | crates/topos-tce-storage/src/validator/mod.rs:147-182 | In every run of submissions and deliveries, until the id counter wraps, pending ids are fresh, pooled certificates have a delivered or no predecessor, and a waiting one is filed under its predecessor and pooled or delivered once that is delivered. |
| ValidatorStore.SubmissionAnswer | crates/topos-tce-storage/src/validator/mod.rs:147-182 | In every run a submission is refused exactly when delivered and then changes nothing; a returned pending id was free, and exactly the pool, the index and the counter follow; no id means that exactly an entry under the undelivered predecessor is made. |
| ValidatorStore.InsertPendingKeeps | crates/topos-tce-storage/src/validator/mod.rs:147-182 | Any submission keeps the pool invariant unless it would wrap the id counter. |
| ValidatorStore.DeliverKeeps | crates/topos-tce-storage/src/validator/mod.rs:407-433 | Any delivery keeps the pool invariant unless it would wrap the id counter: the promoted successor closes the gap the removal opens. |
| ValidatorStore.DeliverAnswers | crates/topos-tce-storage/src/validator/mod.rs:407-433 | A delivery answers the positions the certificate has taken in its source stream and in exactly its target streams, unless the position is taken, a target stream is full or the waiting successor exists already, each with its own error. |
| ValidatorStore.DeliverEffects | crates/topos-tce-storage/src/validator/mod.rs:411-430 | An accepted delivery takes out the pool entry that the index names, pools the waiting successor under the next pending id unless that is delivered, and leaves the rest of the pools as it was. |
| ValidatorStore.DeliverRemovesOnlyItself | crates/topos-tce-storage/src/validator/mod.rs:416-422 | Delivering a certificate never removes or changes another certificate's pool entry. |
| ValidatorStore.DeliveredStaysPooledIff | crates/topos-tce-storage/src/validator/mod.rs:416-422 | A delivered certificate is still pooled if and only if it was pooled under another id than the index remembers. |
| ValidatorStore.DuplicateSubmissionStays | crates/topos-tce-storage/src/validator/mod.rs:163-174 | Submitting a certificate twice and delivering it leaves it both delivered and pending. |
| TaskManager.Manager.constructor | crates/topos-tce-broadcast/src/task_manager_futures/mod.rs:58-90 | A new manager has no tasks and nothing buffered or waiting, on a store that may already hold deliveries. |
| TaskManager.Manager.HandleVote | crates/topos-tce-broadcast/src/task_manager_futures/mod.rs:99-108 | A vote goes to the sink of its task or to the end of the buffer, and nothing else changes. |
| TaskManager.Manager.HandleBroadcast | crates/topos-tce-broadcast/src/task_manager_futures/mod.rs:109-147 | A certificate with a task is ignored; otherwise it starts with its buffered votes or waits under its predecessor, replacing whoever waited there. |
| TaskManager.Manager.Start | crates/topos-tce-broadcast/src/task_manager_futures/mod.rs:188-203 | The task runs and takes exactly its own buffered votes out of the buffer, in order. |
| TaskManager.Manager.ForwardOne | crates/topos-tce-broadcast/src/task_manager_futures/mod.rs:197-203 | The spawned forwarder moves the oldest buffered vote to the end of the sink, where it may interleave with new votes. |
| TaskManager.Manager.BootTask | crates/topos-tce-broadcast/src/task_manager_futures/task.rs:79-95 | A started task takes the position after the subnet's head as its expected position, once; it panics exactly when that head is at the last position. |
| TaskManager.Manager.PollTask | crates/topos-tce-broadcast/src/task_manager_futures/task.rs:97-131 | The next vote is applied; exactly a change to delivered-with-ready writes to the store and finishes the task with that outcome, and a success is sent to the clients with its positions. |
| TaskManager.Manager.HandleCompletion | crates/topos-tce-broadcast/src/task_manager_futures/mod.rs:152-173 | A success frees the context and starts the waiting successor; a failure leaves context and successor as they are. |
| History.EveryTaskRemembers | crates/topos-tce-broadcast/src/task_manager_futures/mod.rs:97-203 | In every run a task is in the state that the broadcast it was made by leads to with the votes it took, in that order, and expects the position it read when it first started; taken and queued votes are those that came after it had a context, in order, merged with a first part of the earlier ones, in order. |
| History.GossipsAsAsked | crates/topos-tce-broadcast/src/task_manager_futures/mod.rs:109-147 | In every run every task, running or waiting, has emitted the announcement, the gossip exactly if its broadcast asked for it, one Echo, and one Ready exactly if its status says so. |
| NodeRuns.EveryRun | crates/topos-tce-broadcast/src/task_manager_futures/mod.rs:92-173 | In every run, forks and arbitrarily stale positions included: the tables are the gap-free log, deliveries follow their predecessors, and every proof names a delivery quorum of distinct known validators. |
| NodeRuns.WrittenInOrder | crates/topos-tce-broadcast/src/task_manager_futures/task.rs:83-131 | Whatever a task manages to write lands at the next position of its source stream. |
| NodeRuns.WrittenProven | crates/topos-tce-broadcast/src/double_echo/broadcast_state.rs:80-101 | What a task writes carries its own certificate id, a set of at least delivery-threshold known validators, and a delivered or no predecessor. |
| NodeRuns.StepNeverAhead | crates/topos-tce-broadcast/src/task_manager_futures/task.rs:83-95 | No action makes an expected position lie beyond the end of its stream. |
| Announcements.MessagesFollowLog | crates/topos-tce-broadcast/src/task_manager_futures/task.rs:59-110 | In every run each message to the clients is about another delivery of the log, in order, and names its place in the source stream and in exactly its target streams. |
| Announcements.ToldIsFound | crates/topos-tce-broadcast/src/task_manager_futures/task.rs:59-110 | In every run a client that was told positions finds the certificate there, in the source stream and in the stream to each target. |
| Chains.DepthUnique | crates/topos-core/src/types/stream.rs:8-15 | A certificate has at most one depth in the chain of predecessors. |
| Chains.LevelUnique | crates/topos-core/src/types/stream.rs:8-15 | In a subnet that does not fork at most one certificate has a given depth. |
| ForkFreeRuns.NextDepth | crates/topos-tce-broadcast/src/task_manager_futures/task.rs:83-95 | An undelivered certificate whose predecessor is delivered has the length of its stream as its depth. |
| ForkFreeRuns.PersistWrites | crates/topos-tce-broadcast/src/task_manager_futures/task.rs:59-71 | A task that reaches delivery does write, at its depth, however long ago it read the head. |
| ForkFreeRuns.PersistSucceeds | crates/topos-tce-broadcast/src/task_manager_futures/task.rs:102-130 | The store accepts the delivery and the promotion of the successor, so the task reports success. |
| ForkFreeRuns.LogFits | crates/topos-tce-broadcast/src/task_manager_futures/task.rs:83-95 | A source stream in which positions are depths is no longer than the number of certificates, so positions never run out. |
| ForkFreeRuns.PositionsSuffice | crates/topos-tce-broadcast/src/task_manager_futures/task.rs:83-95 | No task of a subnet that does not fork panics when it starts. |
| ForkFreeRuns.EveryForkFreeRun | crates/topos-tce-broadcast/src/task_manager_futures/mod.rs:109-173 | For every subnet that does not fork or come again, whatever other subnets do: its positions are depths, its booted tasks expect their depth, its tasks are running or waiting but not both, and none of them fails. |
| Announcements.EveryDeliveryIsSent | crates/topos-tce-broadcast/src/task_manager_futures/task.rs:102-130 | The clients are told of each delivery of such a subnet once, in the order of its stream. |
| Agreement.PositionIsDepth | crates/topos-tce-storage/src/fullnode/mod.rs:84-132 | The source position of a delivered certificate is its depth in the chain, in every run over a subnet that does not fork, whatever other subnets do. |
| Agreement.StoredByDepth | crates/topos-tce-storage/src/fullnode/mod.rs:84-132 | Conversely, a delivered certificate is found in its source stream at the position that is its depth. |
| Agreement.TasksCoherent | crates/topos-tce-broadcast/src/task_manager_futures/mod.rs:131-173 | Every certificate of such a subnet in `tasks` is exactly one of running and waiting, and a waiting one's predecessor is delivered if and only if its completion has not been handled. |
| Agreement.DeliveredOnce | crates/topos-tce-broadcast/src/task_manager_futures/task.rs:95-131 | No certificate of such a subnet is delivered twice. |
| Agreement.PageOfRun | crates/topos-tce-storage/src/fullnode/mod.rs:277-354 | In every run over such a subnet a page of its streams is, entry by entry, the run's own deliveries at these positions. |
| Agreement.BroadcastExpectsDepthIff | crates/topos-tce-broadcast/src/task_manager_futures/mod.rs:109-139 | A task started now expects its certificate's depth if and only if the certificate has not been delivered. |
| Agreement.TargetFiltersSource | crates/topos-tce-storage/src/fullnode/mod.rs:134-185 | A target stream is its source stream filtered to certificates with that target, each once, in order. |
| Agreement.SamePositionsEverywhere | crates/topos-tce-storage/src/fullnode/mod.rs:84-193 | Any two runs over such a subnet give its certificates the same position in the source stream and in every target stream. |
| Agreement.StreamsNeverDisagree | crates/topos-tce-storage/src/fullnode/mod.rs:84-132 | Where two runs over such a subnet both have an entry in its source stream, it is the same certificate. |
| VoteRuns.EveryVoteRun | crates/topos-tce-broadcast/src/task_manager_futures/mod.rs:97-173 | In every run, for any thresholds, nothing is counted or queued for a certificate that did not arrive for it, no certificate has two tasks, and a running task has finished exactly when it has delivered. |
| VoteRuns.NoVoteLost | crates/topos-tce-broadcast/src/task_manager_futures/mod.rs:97-203 | Unless that certificate itself is broadcast again after its delivery, each vote that arrived for it while it is live is buffered, being forwarded, in the sink or counted, whatever happens to others. |
| VoteRuns.VotesDecide | crates/topos-tce-broadcast/src/task_manager_futures/mod.rs:97-173 | With thresholds free of order and no broadcast of that certificate after its delivery, once the queues of its task are empty, or it has finished, its status is the one it would have if the certificate had come before all its votes. |
| VoteLimits.Overtake | crates/topos-tce-broadcast/src/task_manager_futures/mod.rs:188-203 | With thresholds that are not free of order there is a run in which a buffered Echo is overtaken and the task delivers although the order of arrival leads to ReadySent only. |
| VoteLimits.VotesDecideIff | crates/topos-tce-broadcast/src/task_manager_futures/mod.rs:97-203 | Votes decide, as above, for all tasks of all runs if and only if the thresholds are free of order. |
| VoteLimits.DerivedVotesDecideIff | crates/topos-tce-transport/src/lib.rs:26-34 | With derived thresholds they do if and only if there are not exactly two validators. |
| NodeProgress.DeliveredQuorum | crates/topos-tce-broadcast/src/double_echo/broadcast_state.rs:80-118 | In every run a held certificate had Readies of delivery-threshold known validators arrive for it. |
| NodeProgress.HandedStays | crates/topos-tce-broadcast/src/task_manager_futures/mod.rs:109-173 | In every run a certificate that was handed over has a task or is delivered. |
| NodeProgress.DeliveredOrStuck | crates/topos-tce-broadcast/src/task_manager_futures/mod.rs:92-173 | A validator that was handed a certificate, holds its predecessor and has handled that one's completion and the votes for this one, holds it too or runs a prompt task that has counted exactly the votes that arrived; it may be busy with others. |
| Cluster.ArrivedWasSent | crates/topos-tce-broadcast/src/task_manager_futures/mod.rs:97-108 | Across a network of whole validators a non-faulty vote that arrived anywhere was emitted by a task of its sender. |
| Cluster.DeliveredWasReady | crates/topos-tce-broadcast/src/double_echo/broadcast_state.rs:138-201 | A validator that holds a certificate has sent Ready for it, even when its task is long gone. |
| Cluster.EverybodyHolds | crates/topos-tce-broadcast/src/task_manager_futures/mod.rs:92-173 | With at most (n - 1) / 3 faulty validators, many certificates and subnets: if one non-faulty validator holds a certificate, all were handed its chain, and the Readies sent for it arrived and were handled wherever it is not held yet, then every non-faulty validator holds it, busy or not with others. |
| Cluster.EverybodyStores | crates/topos-tce-storage/src/fullnode/mod.rs:84-132 | And every one of them has it in its source stream at the position that is its depth. |
| Cluster.EverybodyDelivers | crates/topos-tce-broadcast/src/task_manager_futures/mod.rs:92-173 | Without any delivery to start from: once all were handed the chain and the votes sent for it arrived and were handled wherever it is not held yet, every non-faulty validator holds the certificate. |
| CommandLoop.DoubleEchoLoop.HandleBroadcast | crates/topos-tce-broadcast/src/double_echo/mod.rs:223-282 | A certificate not known to be delivered is passed on if there are validators at all; otherwise the application is told that it is delivered, or to die. |
| CommandLoop.DoubleEchoLoop.HandleVote | crates/topos-tce-broadcast/src/double_echo/mod.rs:299-333 | A vote for a certificate not known to be delivered is passed on. |
| CommandLoop.DoubleEchoLoop.Handle | crates/topos-tce-broadcast/src/double_echo/mod.rs:149-196 | A vote of a stranger or with a bad signature ends the loop; every other command has exactly the effects and notices of its handler. |
| CommandLoop.DoubleEchoLoop.HandleCompletion | crates/topos-tce-broadcast/src/double_echo/mod.rs:198-202 | The loop remembers the announced delivery while it is open. |
| CommandLoop.OpenIff | crates/topos-tce-broadcast/src/double_echo/mod.rs:156-186 | In every run the loop is open if and only if there are no validators or no vote so far came from a stranger or with a bad signature. |
| CommandLoop.ClosedStays | crates/topos-tce-broadcast/src/double_echo/mod.rs:141-186 | Once closed it stays closed: nothing is passed on or learned any more, and the channel to the task manager only drains. |
| CommandLoop.BroadcastOutcome | crates/topos-tce-broadcast/src/double_echo/mod.rs:223-282 | In every run a certificate that an open loop takes is answered or passed on, exactly one of the two: known to be delivered it is answered by that, without validators by the order to die, else it goes to the end of the channel. |
| CommandLoop.VoteOutcome | crates/topos-tce-broadcast/src/double_echo/mod.rs:156-186 | In every run a vote is passed on exactly if it is a validator's, verified and not for a certificate known to be delivered, and is never answered. |
| CommandLoop.DieIff | crates/topos-tce-broadcast/src/double_echo/mod.rs:244-253 | Over every run the application is told to die if and only if there are no validators and a certificate came in. |
| CommandLoop.AlreadyDeliveredIff | crates/topos-tce-broadcast/src/double_echo/mod.rs:235-243 | Over every run it is told that a certificate is delivered if and only if that came in while the loop knew, and then it is. |
| CommandLoop.LearnsInOrder | crates/topos-tce-broadcast/src/double_echo/mod.rs:198-202 | In every run the loop knows a first part of the announced deliveries, and the rest is in the channel in order. |
| CommandLoop.OnlyCommanded | crates/topos-tce-broadcast/src/double_echo/mod.rs:149-186 | In every run whatever the task manager is handed was commanded, and votes only if they are a validator's and verified. |
| CommandLoop.RunOfManager | crates/topos-tce-broadcast/src/double_echo/mod.rs:133-217 | Whatever the loop does, the task manager behind it performs a run of its own. |
| CommandLoop.DropsOnlyDelivered | crates/topos-tce-broadcast/src/double_echo/mod.rs:235-333 | In every run a command that does not end the loop is passed on unchanged unless its certificate is delivered. |
| CommandLoop.VoteArrives | crates/topos-tce-broadcast/src/double_echo/mod.rs:299-333 | In every run whose channel has drained a vote that an open loop took has arrived at the task manager, or its certificate is delivered. |
| CommandLoop.BroadcastArrives | crates/topos-tce-broadcast/src/double_echo/mod.rs:223-282 | And a certificate that an open loop took was handed over, or is delivered. |
| Timeliness.TimelyIffAdmissible | crates/topos-tce-broadcast/src/double_echo/mod.rs:235-243 | The task manager never takes up a delivered certificate of a subnet again if and only if none is handed to it after its task is gone while its delivery is announced or known; then every delivery of the subnet is known, announced or about to be. |
| Timeliness.OnlyTimely | crates/topos-tce-broadcast/src/double_echo/mod.rs:223-253 | The channel keeps the order of the commands, so that never happens, in any interleaving, unless some command repeats an earlier one whose whole chain was commanded before it. |
| Timeliness.OnceIsTimely | crates/topos-tce-broadcast/src/double_echo/mod.rs:223-253 | In particular not if every certificate of the subnet is submitted to the loop at most once, whatever other subnets do. |
| Resubmission.RepeatIsUntimely | crates/topos-tce-broadcast/src/double_echo/mod.rs:198-243 | For every sequence of commands with such a repetition, whatever else it holds, and every network that can reach its thresholds there is a schedule in which a certificate is taken up again after delivery. |
| Resubmission.UnreachableIsTimely | crates/topos-tce-broadcast/src/double_echo/mod.rs:235-243 | In a network that cannot reach its thresholds no submission does harm. |
| Resubmission.HarmlessIff | crates/topos-tce-broadcast/src/double_echo/mod.rs:198-253 | A sequence of commands is harmless in all schedules if and only if the network can deliver nothing or no command repeats an earlier one whose whole chain was commanded before it. |
| Resubmission.FilterSufficesIff | crates/topos-tce-broadcast/src/double_echo/mod.rs:235-243 | The filter keeps delivered certificates out for all submitters and schedules if and only if the network cannot deliver anything. |
| Windows.WaitingBehindDelivered | crates/topos-tce-broadcast/src/task_manager_futures/mod.rs:152-173 | A concrete admissible run in which a waiting task's predecessor is delivered. |
| PendingRuns.EveryPendingRun | crates/topos-tce-storage/src/validator/mod.rs:147-182 | In every run in which a subnet does not fork or submit anything twice, whatever others do, none of its certificates is pooled twice or after delivery, and none is pooled and waiting at once. |
| PendingRuns.ShortRunNoWrap | crates/topos-tce-storage/src/validator/mod.rs:163-174 | The counter of pending ids does not wrap in any run of fewer than 2^64 actions. |
| PendingRuns.OnceNoWrap | crates/topos-tce-storage/src/validator/mod.rs:163-174 | Nor in a run of any length if no subnet forks or submits anything twice: then each pending id counts one certificate. |
| PendingRuns.ChainClimbs | crates/topos-tce-storage/src/validator/mod.rs:99-109 | Along the walk each certificate is one deeper than the one before. |
| PendingRuns.TallyTellsChain | crates/topos-tce-storage/src/validator/mod.rs:81-113 | The tally counts the undelivered certificates chained after the head and names the deepest one that nothing waits for. |
| PendingRuns.ResumeIsDepth | crates/topos-tce-proxy/src/worker.rs:74-86 | In every such run the resume block is the depth of the resume certificate if and only if something of the subnet is delivered or nothing of it is pending; otherwise it is one too high. |
| PendingRuns.ResumeTooHigh | crates/topos-tce-proxy/src/worker.rs:74-86 | For every first certificate: submitted and not delivered, it is to be resumed from block one although its depth is zero. |
| PendingRuns.ResumeCountsTwice | crates/topos-tce-proxy/src/worker.rs:74-86 | For every first certificate: submitted twice and not delivered, it is counted twice and is to be resumed from block two. |
| Walks.EveryWalkEnds | crates/topos-tce-storage/src/validator/mod.rs:99-109 | In every run of a validator in which ids name certificates, with forks, repeated submissions and certificates taken up again, the walk from every pooled certificate ends. |
| Walks.WalksEndIffRingFree | crates/topos-tce-storage/src/validator/mod.rs:81-182 | On the store alone, for all submissions of known certificates in any order and number and all deliveries, the walks end if and only if no two or more certificates precede each other in a ring. |
| Walks.DepthsAreRingFree | crates/topos-tce-storage/src/validator/mod.rs:99-109 | There is no ring among certificates that all go back to a first one. |
| Sequencer.Certification.constructor | crates/topos-sequencer-subnet-runtime/src/certification.rs:33-48 | A new certification has the given head and start block and no blocks. |
| Sequencer.Certification.AppendBlocks | crates/topos-sequencer-subnet-runtime/src/certification.rs:138-144 | The history is the newest blocks of old and new ones together, up to its bound. |
| Sequencer.RecentKeepsNewest | crates/topos-sequencer-subnet-runtime/src/certification.rs:138-144 | At most 256 blocks are kept, and they are the newest. |
| Sequencer.Certification.GenerateCertificates | crates/topos-sequencer-subnet-runtime/src/certification.rs:50-132 | The object after generation is that of the generation function, including both failures, which change nothing. |
| Sequencer.GenerateIs | crates/topos-sequencer-subnet-runtime/src/certification.rs:50-132 | For any number of blocks: one certificate each, in order, naming the one head, the last one becoming the head; it fails exactly without a head and genesis, or if a new id is the last known one, and then changes nothing. |
| Sequencer.BatchLinkedIff | crates/topos-sequencer-subnet-runtime/src/certification.rs:57-98 | The certificates of one generation are a chain from the head if and only if there is at most one block. |
| Sequencer.BlockTask.constructor | crates/topos-sequencer-subnet-runtime/src/proxy.rs:108-154 | The task starts behind the head's block, the configured start block, or genesis; a start block of zero leaves it stopped without a head, and with one if overflow is checked. |
| Sequencer.BlockTask.ProcessNextBlock | crates/topos-sequencer-subnet-runtime/src/proxy.rs:306-353 | An available block is appended and certified and its certificates are emitted with its number, or the failure is reported. |
| Sequencer.BlockTask.OnEvent | crates/topos-sequencer-subnet-runtime/src/proxy.rs:171-254 | The task follows the two loops: it catches up with the announced height, then listens, retries an unavailable block and stops on other errors, a failed height query included. |
| Sequencer.ProcessOne | crates/topos-sequencer-subnet-runtime/src/proxy.rs:306-353 | In the loops generation never lacks a predecessor, and a processed block extends the one chain. |
| Sequencer.EveryRunOneChain | crates/topos-sequencer-subnet-runtime/src/proxy.rs:171-254 | Over all answers and retries blocks are certified once each in consecutive order, each certificate naming the one before it or the starting head. |
| Sequencer.CertifiedBlocks | crates/topos-sequencer-subnet-runtime/src/proxy.rs:108-145 | The i-th certified block has number i counted from behind the head, from the configured start block, or from zero. |
| Sequencer.NothingFromZero | crates/topos-sequencer-subnet-runtime/src/proxy.rs:111-114 | A configured start block of zero certifies nothing without a head, or at all if overflow is checked. |
| Sequencer.AvailableIsCertified | crates/topos-sequencer-subnet-runtime/src/proxy.rs:306-353 | In every run an available block that the loops are waiting for is certified at once, with the next number and its own targets, if and only if its id does not repeat the last known one; else the task stops. |
| BlockLoops.StoppedIff | crates/topos-sequencer-subnet-runtime/src/proxy.rs:171-254 | In every run the task has stopped if and only if it could not start or some answer ended it: a failed query or block, an unavailable block during synchronisation, or a repeated id. |
| BlockLoops.ListensIff | crates/topos-sequencer-subnet-runtime/src/proxy.rs:171-254 | In every run it listens if and only if it has not stopped and some query found it as high as the chain. |
| BlockLoops.RetriesChangeNothing | crates/topos-sequencer-subnet-runtime/src/proxy.rs:226-250 | While it listens, any number of unavailable answers changes nothing, and what comes then is handled as if it had come at once. |
| BlockLoops.CatchesUp | crates/topos-sequencer-subnet-runtime/src/proxy.rs:171-224 | A task that hears how far behind it is, gets the missing blocks and hears the same height again has certified exactly these blocks, in order, and listens. |
| Subnets.SequencersForkFree | crates/topos-sequencer-subnet-runtime/src/proxy.rs:171-254 | The certificates of any number of sequencers that start from nothing and mint different ids do not fork a subnet that only one of them serves. |
| Subnets.EmittedDepth | crates/topos-sequencer-subnet-runtime/src/certification.rs:57-126 | In any universe that knows them the certificates of a sequencer have consecutive depths, from zero or from behind its head. |
| Pipeline.BlockPosition | crates/topos-sequencer-subnet-runtime/src/proxy.rs:108-145 | On every validator, whatever other subnets send or fork, the i-th certified block of a subnet is at position i, which is its block number if and only if no start block was configured. |
| Pipeline.SubmittedBlockPosition | crates/topos-tce-broadcast/src/double_echo/mod.rs:223-253 | The same behind the command loop if the certificates of that subnet are submitted at most once, without a further hypothesis on the task manager. |
| Pipeline.EverySubnet | crates/topos-sequencer-subnet-runtime/src/proxy.rs:171-254 | Any number of sequencers together with a validator that is handed their certificates in any interleaving: for a subnet that one of them serves alone and whose certificates are submitted at most once each, the i-th block is at position i of its stream. |
| Restart.RestartNumbersIff | crates/topos-tce-proxy/src/worker.rs:74-86 | A sequencer restarted at the resume point of a validator numbers its certificates by their depth if and only if something of the subnet is delivered there, or nothing of it is pending and no start block is configured. |
| Restart.RestartForkFreeIff | crates/topos-tce-proxy/src/worker.rs:74-86 | The certificates after a restart fork the subnet if and only if one is certified and another already follows the resume point. |
| Restart.RestartKeepsForkFree | crates/topos-tce-storage/src/validator/mod.rs:81-113 | A restart at a validator that every certificate of the subnet has reached, delivered or pending, does not fork it. |
| Restart.RestartPositions | crates/topos-tce-proxy/src/worker.rs:74-86 | Wherever a block certified after such a restart is delivered, its number is its position if and only if something was delivered at the restart, or nothing was pending and no start block is configured. |
| StreamKeys.BigEndianLess | crates/topos-tce-storage/src/rocks/db_column.rs:291-300 | Bytewise order of fixed-width big-endian integers is numeric order. |
| StreamKeys.RoundTrip | crates/topos-tce-storage/src/rocks/db_column.rs:291-300 | Decoding an encoded position gives it back. |
| StreamKeys.SourceKeyTells | crates/topos-tce-storage/src/rocks/db_column.rs:291-300 | A source key is 40 bytes and tells its subnet and position. |
| StreamKeys.TargetKeyTells | crates/topos-tce-storage/src/rocks/db_column.rs:291-300 | A target key is 72 bytes and tells its target, source and position. |
| StreamKeys.SourceKeyOrder | crates/topos-tce-storage/src/rocks/db_column.rs:291-300 | Bytewise order of source keys is the order by subnet, then position. |
| StreamKeys.TargetKeyOrder | crates/topos-tce-storage/src/rocks/db_column.rs:291-300 | Bytewise order of target keys is the order by target, then source, then position. |
| StreamKeys.PrefixIsStream | crates/topos-tce-storage/src/rocks/constants.rs:10-11 | Keys share the 32-byte, or 64-byte, prefix if and only if they belong to the same stream. |
| StreamKeys.SourceScanAscends | crates/topos-tce-storage/src/rocks/db_column.rs:264-274 | Positions of a source stream listed in byte order are the ascending listing the store model scans, and the last is the largest. |
| StreamKeys.TargetScanAscends | crates/topos-tce-storage/src/rocks/db_column.rs:264-274 | The same for the stream of one source and one target. |
| Locking.LockGuards.constructor | crates/topos-tce-storage/src/fullnode/locking.rs:19-28 | All shards start without an entry. |
| Locking.LockGuards.Lookup | crates/topos-tce-storage/src/fullnode/locking.rs:37-41 | The read phase finds exactly the entry of the key in its shard. |
| Locking.LockGuards.EntryOrInsert | crates/topos-tce-storage/src/fullnode/locking.rs:46-53 | The write phase keeps an entry that somebody else has made and creates one otherwise. |
| Locking.LockGuards.GetLock | crates/topos-tce-storage/src/fullnode/locking.rs:30-57 | An uninterrupted call returns the key's entry, old or new. |
| Locking.CallReturns | crates/topos-tce-storage/src/fullnode/locking.rs:30-57 | After any interleaving a call that takes its two phases returns a mutex for the key it asked for. |
| Locking.EntriesInShard | crates/topos-tce-storage/src/fullnode/locking.rs:30-57 | In every interleaving each entry is in the one of 2048 shards that the hash of its key names. |
| Locking.ReadPhaseServes | crates/topos-tce-storage/src/fullnode/locking.rs:37-41 | A key that has an entry is served by the read phase alone, and nothing is created. |
| Locking.SameMutexIffSameKey | crates/topos-tce-storage/src/fullnode/locking.rs:30-57 | In every interleaving of read and write phases of any number of calls, whatever the hash, two calls get the same mutex if and only if they asked for the same key. |

## Left out

- BootTask: the runs go on after a step that panics in the source; for subnets that do not fork there is none (`PositionsSuffice`).
- EveryRun: runs start from an empty store, although the manager object takes any store; restarts are not covered.
- PollTask: a running task holds its broadcast state as a value in the manager's map, so object identity and aliasing of states are not captured; the state object itself is `BroadcastState`.
- Mutual exclusion of conflicting certificates: states are per certificate id and every broadcast certificate is echoed, so the code does not decide it.
- The synchronizer and `get_checkpoint_diff`: they bypass precedence.
- `get_target_source_subnet_list`: its column has no prefix extractor; only the table's contents are covered.
- `insert_pending_certificates` and the batch insertion of the validator store: they skip pool checks and promotions.
- The dummy head at position zero that the API substitutes when nothing is delivered; the worker's own arithmetic is covered.
- A crash between the two batch writes and the shutdown paths.
- Storage read errors.
- Order and repetition of a block's targets: they are a parameter of the block.
- Signatures, hashing and payload bytes: ids are opaque and minted by a parameter function.
- RocksDB and bincode beyond key order; `task_manager_channels` and the legacy storage.
- Networking, gRPC, GraphQL, metrics, configuration, wallets, clock, gatekeeper and spammer.
