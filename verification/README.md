# Verified model of the ResilientDB ordering core

This project models the parts of ResilientDB on which its safety rests and proves what they promise, over all
inputs, all runs and all reachable states. `dafny verify dfyconfig.toml` checks all of it.

What is modelled, and where:

- **PBFT within a view** (`Collector`, `CollectorSafety`, `CollectorHistory`, `CollectorVotes`, `CollectorPool`,
  `Executor`, `Pbft`, `PbftRing`, `PbftTable`, `Handlers`, `PbftSafety`, `PbftAgreement`, `PbftPrimary`, `PbftLog`,
  `PbftExecution`, `PbftSent`). The
  per-number collector, the ring of collectors, the in-order executor and the message handlers are classes whose
  methods are proved equal to functions on values. Those functions are the steps of a system of replicas, each with its
  ring (`PbftRing`): correct replicas run the handlers, may start a view change, resume the old view and fetch state;
  up to f faulty ones send anything under their own id; messages may be delivered in any order, any number of times or
  never. A run is the list of its actions; a theorem about `Run(cfg, actions)` is about every reachable state.
  The same system with an unbounded table of collectors (`PbftTable`) is what the ring refines in timely runs, those in
  which no message more than `capacity` numbers ahead of a replica's execution gets as far as its ring. Proved:
  agreement, log-prefix consistency, and exactly which votes are sent and which request is executed.
- **View changes** (`ViewChange`, `NewView`, `PbftViewChange`). The redo list, the acceptance of a NEW-VIEW, and which
  prepared and committed requests survive, for every timely run and every set of valid view-change messages a new
  primary may use.
- **Runs that fail** (`Script`, `PbftScenarios`, `PbftLost`). Runs of four replicas, step by step, for what does not
  hold.
- **Checkpoints** (`Checkpoint`, `CheckpointSafety`, `CheckpointVotes`). The hash chain, which votes
  and signatures a replica holds, agreement on stable checkpoints over every run, and soundness of state transfer.
- **The write-ahead log** (`WriteAheadLog`, `ReplaySelection`, `LogDirectory`). Byte format with crash prefixes, file
  names, which requests are replayed after any run of logging, finishing files and restarting, and what is read back
  when a file cut by a crash is written on.
- **The UTXO ledger** (`Utxo`), **geo ordering** (`GeoOrder`), **versioned storage** (`Storage`), the **duplicate window**
  (`DuplicateWindow`) and the **quorum arithmetic** (`Quorum`). `Selection` says what a loop that keeps some items of a
  list leaves.

Assumptions, each visible as a precondition: n = 3f + 1 with at most f faulty replicas where quorum intersection is
used (`Quorum.OverlapExact` shows it is exactly what is needed); `sender_id` is authentic; the hash does not collide on
the strings actually hashed for the lists compared; serialised messages parse back; clocks do not go backwards. The
commented-out comparison of a payload with its digest (platform/consensus/ordering/pbft/commitment.cpp lines 100-105 and
186-192) is why a payload is identified with its digest. Signature, user and duplicate checks appear as a boolean
that may come out either way.

Where a promise does not hold of the code as it is, the code is modelled as it is; a lemma gives a concrete input, and
another states exactly when the promise does hold:

- A message more than `capacity` numbers ahead of execution is taken by the ring and then forgotten
  (`CollectorPool.EarlyProposalTakenTwice`; exactly when a message is taken: `AnsweredExactly`). With a faulty primary
  this breaks agreement (`PbftScenarios.EarlyDisagreement`). Agreement holds in every run without such messages
  (`PbftAgreement.Agreement`), and in every run at all with a correct primary (`PbftPrimary.AgreementUnderPrimary`).
- A collector that settled on a digest without holding a proposal for it takes the next proposal unchecked, so logs can
  differ (`PbftScenarios.LogsDiffer`; exact condition at one collector `CollectorHistory.ExecutedDigest`, in a run
  `PbftExecution.ExecutedExactly`, between replicas `SameDigestExactly`).
- State transfer checks the digests of the fetched requests and not their numbers, by which they are executed, so that
  logs can differ even under a correct primary (`PbftScenarios.TransferDiverges`); they do not if fetched requests carry
  the numbers asked for (`PbftLog.ReplicatedLog`).
- A committed digest can be lost in a view change: if replicas sent their messages first and resumed the old view
  (`PbftLost.LaterCommitLost`), if state transfer lowered the prepared mark (`LoweredMarkLost`), or if execution has gone
  on so far that the slot is used again (`RecycledSlotLost`). If none of this holds of the committers it survives
  in every timely run, unless a faulty sender claims another digest (`PbftViewChange.CommittedSurvives`).
- A correct replica's own VIEW-CHANGE may be refused (`PbftLost.OwnMessageRefused`; exact condition
  `PbftViewChange.OwnMessageValid`).
- A later view-change entry replaces an earlier one for the same number (`NewView.LaterEntryWins`; exact condition
  `ViewChange.RedoCarries`).
- Entries at or below the sender's checkpoint are not checked and may have no proof, though the first proof is read
  (`NewView.UnprovedValid`; exact condition `ProvedExactly`). Members that read it require it where they read it.
- Receivers of a NEW-VIEW compare payloads and not digests, and the redo list is made from messages without payload
  (`NewView.ViewChangeManager.ChangedDigestAccepted`; all of the family `OtherDigestsAccepted`).
- The gap check refuses some correct NEW-VIEW messages (`NewView.ViewChangeManager.CheckpointsApartRefused`; exact
  condition `CorrectNewViewAccepted`). `new_view_is_sent_` is never reset, so a replica sends one NEW-VIEW in its life
  (`ProcessViewChange`).
- A log file finished at a checkpoint below its own first request is not replayed (`LogDirectory.LaggingLost`; exact
  condition `ReplayExact`). `SwitchFile` computes the minimum without assigning it; the model does the same.
- Records written behind a torn record are not read until they fill it (`WriteAheadLog.TornHidesAppended`; all cases
  `TornReads`; after a cut at a record boundary all is read back, `AppendAtBoundary`).
- A transaction may name one output twice (`Utxo.RepeatedInputDebitsTwice`; exact condition `BalancesKeptExactly`).
- The geo checklist works modulo 2^20 (`GeoOrder.WrappedRequestRefused`; exact condition `AdmissionExact`).
- The stores differ on top-0 queries of written keys, and on nothing else when every put fills a batch
  (`Storage.StoresAgree`); otherwise they also differ while writes sit in the batch (`Storage.UnwrittenDisagrees`;
  exact condition `AgreeExactly`).
- The executed number is cut to 32 bits when a number is issued, so from 2^32 executed requests on nothing above them is
  issued (`PbftRing.IssuedInWindow`).
- An erased and re-proposed hash can be forgotten inside its window (`DuplicateWindow.ForgottenEarly`; exact condition
  `RememberedExactly`).
- For n not of the form 3f + 1 quorums need not share a correct replica (`Quorum.OverlapAllFaulty`; `OverlapExact`).

## Model

| member | source | states |
|---|---|---|
| `Quorum.OverlapSize` | platform/config/resdb_config.cpp:116-119 | two replica sets of threshold size share at least f + 1 - ((n - 1) mod 3) members, for every n |
| `Quorum.SharedCorrect` | platform/config/resdb_config.cpp:116-119 | with n = 3f + 1, two quorums share a replica outside any f faulty ones |
| `Quorum.CheckpointVoterCorrect` | platform/config/resdb_config.cpp:126-134 | f + 1 voters always include one that is not faulty |
| `Quorum.OverlapAllFaulty` | platform/config/resdb_config.cpp:116-119 | for every other n there are two quorums that share only faulty replicas |
| `Quorum.OverlapExact` | platform/config/resdb_config.cpp:116-119 | any two quorums share a non-faulty replica if and only if n mod 3 = 1 |
| `Collector.TransactionCollector.AddRequest` | platform/consensus/ordering/pbft/transaction_collector.cpp:69-195 | the new state and the answer are exactly `Collect` of the old state, for every request in every state |
| `Collector.TransactionCollector.AddMainRequest` | platform/consensus/ordering/pbft/transaction_collector.cpp:98-121 | a proposal fills the set-once cell, is set aside, or (newer view, nothing prepared) displaces the old one |
| `Collector.TransactionCollector.AddPrepare` | platform/consensus/ordering/pbft/transaction_collector.cpp:122-187 | a prepare counts for its own digest only; at the threshold the collector settles on that digest |
| `Collector.TransactionCollector.BecomePrepared` | platform/consensus/ordering/pbft/transaction_collector.cpp:140-165 | settling swaps in a stored proposal for the digest and keeps only proofs for it |
| `Collector.TransactionCollector.AddCommit` | platform/consensus/ordering/pbft/transaction_collector.cpp:170-224 | a commit counts for its own digest only; at the threshold the main request, if any, is handed over once |
| `CollectorSafety.FreshInv` | platform/consensus/ordering/pbft/transaction_collector.h:31-77 | the collector invariant holds of a new collector |
| `CollectorSafety.KeptProofsCertify` | platform/consensus/ordering/pbft/transaction_collector.cpp:125-166 | the kept proofs come from exactly the quorum of senders that voted for the winning digest |
| `CollectorSafety.CollectKeeps` | platform/consensus/ordering/pbft/transaction_collector.cpp:69-224 | every request keeps the invariant: READY_COMMIT or later has a prepare quorum on one digest, READY_EXECUTE or later a commit quorum on one digest, kept proofs come from exactly the winning voters; status never moves back; a request is handed over at most once, and afterwards nothing changes |
| `CollectorSafety.CollectEffect` | platform/consensus/ordering/pbft/transaction_collector.cpp:69-224 | what a request can change: only its own digest gains a vote, only by its sender, none is lost, and a broadcast is due exactly when a threshold is crossed |
| `CollectorSafety.CollectStored` | platform/consensus/ordering/pbft/transaction_collector.cpp:98-224 | a collector never holds or hands over a proposal it was not given |
| `CollectorHistory.History` | platform/consensus/ordering/pbft/transaction_collector.cpp:69-224 | for every list of requests of one view, a prepared collector settled at one identifiable prepare, and its main request is read off the requests before and after it |
| `CollectorHistory.RunInv` | platform/consensus/ordering/pbft/transaction_collector.cpp:69-224 | the collector invariant holds after every list of requests |
| `CollectorHistory.KeptProofs` | platform/consensus/ordering/pbft/transaction_collector.cpp:125-166 | the proofs sent in a view change are exactly the received prepares for the winning digest up to the deciding one, at least a quorum of them, all for this number |
| `CollectorHistory.ExecutedDigest` | platform/consensus/ordering/pbft/transaction_collector.cpp:98-224 | where the digest was prepared and where the request was executed; the request is the earliest stored proposal for the digest, else the first one after, so it carries the digest if and only if one was stored in time or that first one carries it |
| `CollectorVotes.VotesExactly` | platform/consensus/ordering/pbft/transaction_collector.cpp:122-195 | with or without view change, in any views: for every digest the prepares (until a digest is prepared, or without view change until execution) and the commits (until execution) held are exactly the senders of all such requests so far, however early they came, the closing request included |
| `CollectorVotes.StatusExactly` | platform/consensus/ordering/pbft/transaction_collector.cpp:69-224 | the status follows from the requests: executed if and only if some commit decides, else prepared if and only if some prepare decides, else proposed or idle; a prepare decides when a proposal came before it and a quorum of senders has prepared its digest, a commit when a prepare decided before it and a quorum has committed its digest |
| `CollectorVotes.ExecutesExactly` | platform/consensus/ordering/pbft/transaction_collector.cpp:170-224 | a collector executes at request m if and only if m is the first commit that decides |
| `CollectorVotes.PreparesExactly` | platform/consensus/ordering/pbft/transaction_collector.cpp:122-187 | a collector becomes prepared at request k if and only if k is the first prepare that decides |
| `CollectorVotes.HistoryExactly` | platform/consensus/ordering/pbft/transaction_collector.cpp:122-224 | the two moments of `CollectorHistory` are the first deciding prepare and the first deciding commit |
| `CollectorVotes.AnswersExactly` | platform/consensus/ordering/pbft/transaction_collector.cpp:69-224 | every answer from the requests alone: the deciding prepare and the deciding commit are announced as state changes and nothing else after the first proposal is, only the latter returns 1 and hands the main request over, and whatever comes for another number or after execution is refused without effect |
| `CollectorVotes.LeadExactly` | platform/consensus/ordering/pbft/transaction_collector.cpp:98-121 | for requests of any views: until a digest is prepared (without view change, until execution) the main request is the first proposal of the greatest view; a first proposal of view 0 stays |
| `CollectorVotes.ProposalAnswers` | platform/consensus/ordering/pbft/transaction_collector.cpp:98-121 | the answer to every proposal after the first: passed on if and only if it takes that lead, else set aside in order; once a digest is prepared no view displaces the main request, and a proposal is taken if and only if there is none |
| `Executor.TransactionExecutor.OrderMessage` | platform/consensus/execution/transaction_executor.cpp:117-145 | one pass of the ordering thread is `Order` on the abstract state |
| `Executor.TransactionExecutor.GetNextData` | platform/consensus/execution/transaction_executor.cpp:105-115 | the buffer head leaves exactly when it is the next number; otherwise nothing changes |
| `Executor.InOrder` | platform/consensus/execution/transaction_executor.cpp:101-145 | for every arrival stream the delivered numbers are exactly 1..k, k the largest with 1..k all arrived; each delivered request is the first arrival for its number; nothing below the next number is buffered |
| `ViewChange.LatestIsLast` | platform/consensus/ordering/pbft/viewchange_manager.cpp:236-242 | the entry kept for a number is the last one in message order |
| `ViewChange.RedoMembers` | platform/consensus/ordering/pbft/viewchange_manager.cpp:256-288 | a request is in the redo list if and only if its number is in range and it is the answer for that number |
| `ViewChange.RedoInOrder` | platform/consensus/ordering/pbft/viewchange_manager.cpp:256-288 | without signing failures there is one request per number, in order |
| `ViewChange.RedoCarries` | platform/consensus/ordering/pbft/viewchange_manager.cpp:234-288 | the redo entry for a number above every stable checkpoint carries digest d if and only if the last entry for it carries d |
| `ViewChange.RedoFollowsLast` | platform/consensus/ordering/pbft/viewchange_manager.cpp:234-288 | read off the messages: the redo entry for a number above every stable checkpoint carries the digest of the first proof of the last entry for it in the last message that has one |
| `ViewChange.RedoWithoutEntry` | platform/consensus/ordering/pbft/viewchange_manager.cpp:234-288 | a number no message has an entry for gets no COMMIT in the redo list |
| `ViewChange.EntriesAscend` | platform/consensus/ordering/pbft/viewchange_manager.cpp:480-502 | a replica lists its prepared numbers in ascending order, each once, above its checkpoint and up to the prepared mark |
| `NewView.LaterEntryWins` | platform/consensus/ordering/pbft/viewchange_manager.cpp:236-242 | three valid messages, two with quorum proofs for different digests of one number: the redo list carries the second's |
| `ViewChange.RedoExact` | platform/consensus/ordering/pbft/viewchange_manager.cpp:234-288 | the redo list has one request for each number from min_s + 1 to the highest prepared, null exactly at the holes |
| `ViewChange.RedoNothingPrepared` | platform/consensus/ordering/pbft/viewchange_manager.cpp:234-288 | with nothing prepared the redo list is one null request for number 1 if some stable checkpoint is 0, and empty otherwise |
| `ViewChange.NullDigests` | platform/consensus/ordering/pbft/viewchange_manager.cpp:256-288 | null requests for different numbers have different digests |
| `NewView.ViewChangeManager.IsValidViewChangeMsg` | platform/consensus/ordering/pbft/viewchange_manager.cpp:165-206 | accepted if and only if the view is newer, the checkpoint proof passes, and each entry above the checkpoint has a quorum of verified proofs for its own number |
| `NewView.ViewChangeManager.AddRequest` | platform/consensus/ordering/pbft/viewchange_manager.cpp:208-214 | files one message per view and sender and counts the senders |
| `NewView.ViewChangeManager.GetPrepareMsg` | platform/consensus/ordering/pbft/viewchange_manager.cpp:234-288 | the three loops compute the redo list that RedoExact and RedoCarries describe |
| `NewView.ViewChangeManager.CollectPrepared` | platform/consensus/ordering/pbft/viewchange_manager.cpp:236-242 | the nested loops leave the last entry per number |
| `NewView.ViewChangeManager.ProcessViewChange` | platform/consensus/ordering/pbft/viewchange_manager.cpp:380-417 | an invalid message changes nothing; the replica whose turn it is answers, at most once ever, over the messages of at least a quorum of distinct senders |
| `NewView.ViewChangeManager.SendNewViewMsg` | platform/consensus/ordering/pbft/viewchange_manager.cpp:419-461 | the NEW-VIEW holds all messages of the view in sender order and their redo list; never sent twice |
| `NewView.ViewChangeManager.ProcessNewView` | platform/consensus/ordering/pbft/viewchange_manager.cpp:290-378 | refused without effect, or: the view strictly increases, the primary is the replica whose turn it is, no gap up to max_s, numbering resumes after max_s and the last redo entry, and the requests are split as Redistribute says |
| `NewView.ViewChangeManager.CheckNewView` | platform/consensus/ordering/pbft/viewchange_manager.cpp:299-347 | the checks decide acceptability exactly and yield the last number taken |
| `NewView.ViewChangeManager.Covers` | platform/consensus/ordering/pbft/viewchange_manager.cpp:339-345 | true if and only if every number of the range is present |
| `NewView.ViewChangeManager.Redistribute` | platform/consensus/ordering/pbft/viewchange_manager.cpp:353-374 | the PRE-PREPAREs go to this replica itself and exactly the hashes their collectors stored are released, the other requests are broadcast; together they are the list, each part at strictly increasing positions; the prepared mark becomes the greatest number broadcast if that is higher |
| `NewView.ViewChangeManager.CorrectNewViewAccepted` | platform/consensus/ordering/pbft/viewchange_manager.cpp:234-350 | a NEW-VIEW computed by a correct primary is accepted, payloads not depending on the sender, if and only if every null request was signed and the redo list reaches the highest stable checkpoint (or there is only one checkpoint) |
| `NewView.ViewChangeManager.CheckpointsApartRefused` | platform/consensus/ordering/pbft/viewchange_manager.cpp:299-350 | concrete correct NEW-VIEW, over three messages with checkpoints 5, 5 and 10 and nothing prepared, that is refused |
| `NewView.ViewChangeManager.OtherDigestsAccepted` | platform/consensus/ordering/pbft/viewchange_manager.cpp:327-338 | receivers compare payloads only, so an acceptable NEW-VIEW stays acceptable with any other digests in its requests |
| `NewView.ViewChangeManager.ChangedDigestAccepted` | platform/consensus/ordering/pbft/viewchange_manager.cpp:327-338 | concrete accepted NEW-VIEW whose COMMIT carries a digest nobody prepared |
| `NewView.ProvedExactly` | platform/consensus/ordering/pbft/viewchange_manager.cpp:165-242 | the entries of valid messages all have a first proof if and only if those at or below their sender's checkpoint do |
| `NewView.UnprovedValid` | platform/consensus/ordering/pbft/viewchange_manager.cpp:165-242 | concrete valid message with an entry that has no proof to read |
| `NewView.RedoBounds` | platform/consensus/ordering/pbft/viewchange_manager.cpp:249-288 | the last number of a non-empty redo list is the highest prepared, and none exceeds it |
| `NewView.LastNumber` | platform/consensus/ordering/pbft/viewchange_manager.cpp:327-350 | the next free number follows both max_s and the last redo entry |
| `Handlers.MessageManager.AssignNextSeq` | platform/consensus/ordering/pbft/message_manager.cpp:94-105 | a number is issued, and used up, exactly when the 64-bit gap to the 32-bit executed number is within the limit |
| `Handlers.MessageManager.AddConsensusMsg` | platform/consensus/ordering/pbft/message_manager.cpp:175-203 | refuses messages of other views or behind execution without effect; otherwise the collector object in the ring takes it, the request is handed over and STATE_CHANGED reported |
| `Handlers.MessageManager.OrderOne` | platform/consensus/execution/transaction_executor.cpp:117-145 | the ordering thread executes the next numbers and renews a ring slot for each |
| `Handlers.MessageManager.PreparedMessages` | platform/consensus/ordering/pbft/viewchange_manager.cpp:480-502 | the loop over the collectors lists the prepared numbers above the checkpoint with their proofs |
| `Handlers.Commitment.ProcessNewRequest` | platform/consensus/ordering/pbft/commitment.cpp:67-155 | the primary proposes under the next number; a refused request sends nothing; a misdirected one is forwarded to the primary before its signature is checked |
| `Handlers.Commitment.ProcessProposeMsg` | platform/consensus/ordering/pbft/commitment.cpp:159-235 | is the machine's delivery step for proposals; failure sends nothing |
| `Handlers.Commitment.ProcessPrepareMsg` | platform/consensus/ordering/pbft/commitment.cpp:238-277 | is the machine's delivery step for prepares; failure sends nothing |
| `Handlers.Commitment.ProcessCommitMsg` | platform/consensus/ordering/pbft/commitment.cpp:280-303 | is the machine's delivery step for commits; sends nothing |
| `Handlers.ConsensusManager.ConsensusCommit` | platform/consensus/ordering/pbft/consensus_manager_pbft.cpp:139-184 | during a view change the message is only queued; afterwards the queued messages and then this one are handled in order, each as one delivery step |
| `Handlers.RespondIsStep` | platform/consensus/ordering/pbft/consensus_manager_pbft.cpp:186-230 | handling a message is the delivery step of the machine over rings, for every state and message |
| `Handlers.RespondAllIsRun` | platform/consensus/ordering/pbft/consensus_manager_pbft.cpp:139-230 | handling several messages, as after a view change, is delivering them one after the other in the machine, for every run before them |
| `PbftRing.RingRefinesTable` | platform/consensus/ordering/pbft/lock_free_collector_pool.cpp:53-68 | in every run in which no early message reaches a correct replica's pool, the replicas with rings do step by step what replicas with an unbounded table of collectors do |
| `PbftRing.SmallNumbersTimely` | platform/consensus/ordering/pbft/lock_free_collector_pool.cpp:53-68 | a run that never mentions a number above the capacity is such a run |
| `PbftRing.IssuedInWindow` | platform/consensus/ordering/pbft/message_manager.cpp:94-105 | a number above the executed ones is issued if and only if it is within the limit and the executed number fits in 32 bits, and then it lies in the issuer's own ring window |
| `PbftSafety.CellStep` | platform/consensus/ordering/pbft/commitment.cpp:159-303 | one collector step with its broadcast keeps: votes were sent, at most one prepare per number per correct replica, a commit only for a digest it has a prepare quorum on (over the table, which timely runs refine) |
| `PbftSafety.StepKeepsCells` | platform/consensus/ordering/pbft/commitment.cpp:67-303 | every step of the system over the table, faulty ones included, keeps that for every correct replica and number |
| `PbftSafety.CellsAlwaysOk` | platform/consensus/ordering/pbft/commitment.cpp:67-303 | it holds in every reachable state of the system over the table |
| `PbftAgreement.OnePrepared` | platform/consensus/ordering/pbft/commitment.cpp:159-277 | in every timely run over rings prepare quorums for a number, at any two correct replicas and at any two moments, are for one digest |
| `PbftAgreement.Agreement` | platform/consensus/ordering/pbft/commitment.cpp:159-303 | agreement over every timely run over rings with n = 3f + 1 and f faulty, primary included: when two correct replicas execute a number, each at its own moment, one digest holds the commit quorum at both and no other digest has any quorum at either |
| `PbftScenarios.EarlyDisagreement` | platform/consensus/ordering/pbft/lock_free_collector_pool.cpp:53-68 | concrete run that is not timely: two correct replicas execute number 5 with commit quorums for different digests |
| `PbftPrimary.QuorumWasProposed` | platform/consensus/ordering/pbft/commitment.cpp:159-303 | in every run, timely or not, a quorum for a number at a correct replica is for a digest the primary proposed for it |
| `PbftPrimary.AgreementUnderPrimary` | platform/consensus/ordering/pbft/commitment.cpp:128-303 | with a correct primary agreement holds in every run, timely or not, for all quorums at any correct replicas and moments |
| `PbftLog.DeliveredWasProposed` | platform/consensus/ordering/pbft/commitment.cpp:146-303 | in every run whose fetched requests carry the numbers asked for, for any primary: the digest at position i of a correct replica's log was proposed for number i + 1, and a request it did not fetch is that proposal |
| `PbftLog.PrimaryAlwaysOnce` | platform/consensus/ordering/pbft/commitment.cpp:128-152 | in every run a correct primary proposes each number at most once |
| `PbftLog.ReplicatedLog` | platform/consensus/execution/transaction_executor.cpp:101-145 | with a correct primary, in every run whose fetched requests carry the numbers asked for, early messages, resumed views and state transfer included: the digest logs of two correct replicas are prefixes of one another, and what they did not fetch are the same requests |
| `PbftScenarios.TransferDiverges` | platform/consensus/ordering/pbft/checkpoint_manager.cpp:190-227 | concrete timely run with a correct primary: a replica fetches two requests numbered the other way round, which nothing checks, and its log differs from another correct one's |
| `PbftSent.SentExactly` | platform/consensus/ordering/pbft/commitment.cpp:159-303 | in every timely run a correct replica has sent a COMMIT for a digest if and only if, of the messages it took for that number, the first prepare that decides carries the digest, and a PREPARE if and only if the first proposal does |
| `PbftSent.CellIsRun` | platform/consensus/ordering/pbft/commitment.cpp:159-303 | in every timely run, with or without view change, each collector is what the messages taken for its number make of a fresh one |
| `PbftSent.MarkExactly` | platform/consensus/ordering/pbft/commitment.cpp:256-270 | in every run without state transfer to it a correct replica's prepared mark is the greatest number it has sent a COMMIT for, 0 if none |
| `PbftSent.SilentInViewChange` | platform/consensus/ordering/pbft/consensus_manager_pbft.cpp:139-184 | in every run a correct replica that has started a view change sends no ordering message until it resumes the view |
| `PbftSent.QueueExactly` | platform/consensus/ordering/pbft/message_manager.cpp:175-203 | in every run, early messages and state transfer included, the executor of a correct replica has got, in order, some first part of what its collectors handed over and what it fetched, and the rest waits in order |
| `PbftExecution.CellIsHistory` | platform/consensus/ordering/pbft/transaction_collector.cpp:69-224 | in every timely run a replica's collector is what the messages it took make of a fresh one |
| `PbftExecution.ExecutedExactly` | platform/consensus/ordering/pbft/transaction_collector.cpp:98-224 | for any primary, in every timely run: which request a correct replica executes, read off the messages it took: the earliest proposal before the settling prepare with its digest, else the first one after it |
| `PbftExecution.SameDigestExactly` | platform/consensus/ordering/pbft/transaction_collector.cpp:197-224 | for any primary, in every timely run: two correct replicas settle on one digest, both execute it if and only if each took a proposal for it in time, and otherwise execute one digest if and only if neither did and their first late proposals agree |
| `PbftScenarios.LogsDiffer` | platform/consensus/ordering/pbft/transaction_collector.cpp:98-121 | concrete timely run of four replicas with a faulty primary in which the logs of two correct replicas differ |
| `PbftViewChange.RecordSource` | platform/consensus/ordering/pbft/viewchange_manager.cpp:463-509 | every view-change message of a correct replica lists its collectors at the step it was sent |
| `PbftViewChange.EntryMembers` | platform/consensus/ordering/pbft/viewchange_manager.cpp:487-502 | the list has an entry if and only if the number is in range and the collector in its slot is prepared |
| `PbftViewChange.EntryPrepared` | platform/consensus/ordering/pbft/viewchange_manager.cpp:165-206 | a valid entry of a correct replica is for the digest that replica had prepared when it sent it |
| `PbftViewChange.MeetingReplica` | platform/consensus/ordering/pbft/viewchange_manager.cpp:380-417 | f + 1 preparers and 2f + 1 senders have a replica in common |
| `PbftViewChange.PreparedSurvives` | platform/consensus/ordering/pbft/viewchange_manager.cpp:234-288 | in every timely run, with replicas resuming the old view and fetching state: a digest that f + 1 correct replicas had prepared, at or below their marks, when they sent their messages is answered by the redo list with a COMMIT and nothing else, whichever quorum of valid messages is used, unless a faulty sender claims another digest for it |
| `PbftViewChange.CommitHeld` | platform/consensus/ordering/pbft/lock_free_collector_pool.cpp:53-68 | in every timely run a correct replica that has sent a commit and has not executed a whole capacity beyond its number still holds the prepared collector |
| `PbftViewChange.CommittedSurvives` | platform/consensus/ordering/pbft/viewchange_manager.cpp:380-461 | so is a digest with a commit quorum, if each correct replica behind the quorum whose message is used sent it after its commit, before it had executed a whole capacity beyond the number, and with its mark at or above the number |
| `PbftLost.LaterCommitLost` | platform/consensus/ordering/pbft/viewchange_manager.cpp:600-612 | concrete timely run: replicas execute number 1, send their messages, resume the old view when checkpoint 1 becomes committable, then commit number 2; the redo list of the valid messages has no COMMIT for it |
| `PbftLost.LoweredMarkLost` | platform/consensus/ordering/pbft/checkpoint_manager.cpp:211-227 | concrete timely run: a committer of number 2 fetches number 1, which lowers its mark, before any message is sent; no message lists number 2 |
| `PbftLost.RecycledSlotLost` | platform/consensus/ordering/pbft/lock_free_collector_pool.cpp:53-63 | concrete timely run: all correct replicas commit number 1 and execute four more before any message is sent; the slot is used again and no message lists number 1 |
| `PbftViewChange.OwnMessageValid` | platform/consensus/ordering/pbft/viewchange_manager.cpp:165-206 | in every run, the message a correct replica would send passes the validity check if and only if every prepared slot it covers still holds its own number's collector |
| `PbftLost.OwnMessageRefused` | platform/consensus/ordering/pbft/viewchange_manager.cpp:480-502 | concrete timely run after which a correct replica's own message is not valid |
| `CollectorPool.AdvanceExactly` | platform/consensus/ordering/pbft/lock_free_collector_pool.cpp:53-63 | a finished number whose collector is in place renews the one slot half a ring away, never one less than `capacity` numbers away from it; any other number renews nothing |
| `CollectorPool.AndMask` | platform/consensus/ordering/pbft/lock_free_collector_pool.cpp:65-68 | masking with 2^i - 1 is the remainder, for bitwise and defined bit by bit |
| `CollectorPool.XorTop` | platform/consensus/ordering/pbft/lock_free_collector_pool.cpp:53-63 | exclusive-or with 2^i moves an index to the other half of the ring |
| `CollectorPool.GetCapacity` | platform/consensus/ordering/pbft/lock_free_collector_pool.cpp:27-32 | the least power of two above the size |
| `CollectorPool.LockFreeCollectorPool.Index` | platform/consensus/ordering/pbft/lock_free_collector_pool.cpp:53-68 | the bit tricks compute the slot of a number and of the number one capacity ahead |
| `CollectorPool.LockFreeCollectorPool.Update` | platform/consensus/ordering/pbft/lock_free_collector_pool.cpp:53-63 | one slot gets a new collector object, exactly as in the specified ring; the objects stay distinct |
| `CollectorPool.LockFreeCollectorPool.UpdateTo` | platform/consensus/execution/transaction_executor.cpp:117-145 | the slots are renewed for every number handed to execution |
| `CollectorPool.LockFreeCollectorPool.AddRequest` | platform/consensus/ordering/pbft/lock_free_collector_pool.cpp:65-68 | a message reaches exactly the collector in its number's slot |
| `CollectorPool.OppositeSlot` | platform/consensus/ordering/pbft/lock_free_collector_pool.cpp:53-63 | the number one capacity ahead lies in the other half |
| `CollectorPool.RingIsTimelyMap` | platform/consensus/ordering/pbft/lock_free_collector_pool.cpp:27-68 | for every run of messages and executions the ring answers every timely message as an unbounded map of collectors does and holds that map's collectors for the whole window, whatever untimely messages arrive |
| `CollectorPool.AnsweredExactly` | platform/consensus/ordering/pbft/lock_free_collector_pool.cpp:53-68 | after every run a message is answered by its own number's collector if and only if the number is timely or early; every other message is refused without effect |
| `CollectorPool.EarlyProposalTakenTwice` | platform/consensus/ordering/pbft/lock_free_collector_pool.cpp:53-68 | concrete run: a message beyond the window is taken, forgotten, and a second proposal for its number taken as well |
| `Checkpoint.ExtendAppend` | platform/consensus/ordering/pbft/checkpoint_manager.cpp:64-66 | hashing on from the hash of one list gives the hash of the concatenation |
| `Checkpoint.ChainInjective` | platform/consensus/ordering/pbft/checkpoint_manager.cpp:64-66 | lists with equal running hashes are equal, of whatever lengths, if no two strings hashed for them collide |
| `Checkpoint.AddVotePaired` | platform/consensus/ordering/pbft/checkpoint_manager.cpp:132-150 | a vote keeps one signature for each distinct sender, under the same keys |
| `Checkpoint.RefreshedSound` | platform/consensus/ordering/pbft/checkpoint_manager.cpp:236-274 | the stable number never decreases and reaches every number with a quorum; a new stable checkpoint has one signature for each of a quorum of distinct senders; no vote above it is lost |
| `Checkpoint.CheckPointManager.ProcessCheckPoint` | platform/consensus/ordering/pbft/checkpoint_manager.cpp:106-152 | an unverified or off-mark checkpoint changes nothing; otherwise one vote |
| `Checkpoint.CheckPointManager.AddCommitted` | platform/consensus/ordering/pbft/checkpoint_manager.cpp:290-327 | the running hash stays the chain of all digests 1..last_seq_; announcements are the chain at every water mark |
| `Checkpoint.CheckPointManager.UpdateStable` | platform/consensus/ordering/pbft/checkpoint_manager.cpp:236-274 | the map-order loop and erasure produce the specified new stable checkpoint |
| `Checkpoint.CheckPointManager.CheckFetched` | platform/consensus/ordering/pbft/checkpoint_manager.cpp:176-231 | a fetched batch passes if and only if its payloads hash to its digests and these extend the local chain to the vouched hash |
| `CheckpointSafety.InvAlways` | platform/consensus/ordering/pbft/checkpoint_manager.cpp:106-327 | in every reachable state correct replicas announce only their own chain, and votes and stable checkpoints rest on announcements sent |
| `CheckpointVotes.VotesSince` | platform/consensus/ordering/pbft/checkpoint_manager.cpp:106-274 | in every run a correct replica holds, for every number and hash, exactly the senders whose verified votes reached it since a checkpoint covering that number last became stable, and the signatures of each one's first such vote in order of arrival |
| `CheckpointVotes.VotesExactly` | platform/consensus/ordering/pbft/checkpoint_manager.cpp:106-152 | for a number above the stable checkpoint these are all the votes of the run |
| `CheckpointVotes.QuorumBecomesStable` | platform/consensus/ordering/pbft/checkpoint_manager.cpp:106-274 | in every run, once the votes of a quorum for one number and hash have reached a correct replica, its next update makes that number or a higher one stable |
| `CheckpointVotes.StableSigned` | platform/consensus/ordering/pbft/checkpoint_manager.cpp:236-274 | in every run a stable checkpoint was made at an update, by votes of a quorum received before it, and carries exactly their signatures |
| `CheckpointSafety.StableAgree` | platform/consensus/ordering/pbft/checkpoint_manager.cpp:236-274 | in every run two correct replicas' stable checkpoints for one number, each at its own moment, have one hash, a quorum of signatures, and correct voters that all executed one list of digests |
| `CheckpointSafety.TransferSound` | platform/consensus/ordering/pbft/checkpoint_manager.cpp:176-231 | a batch that reaches a hash with f + 1 votes extends the log to exactly the list some correct replica executed |
| `Utxo.MarkAllAt` | executor/utxo/manager/tx_mempool.cpp:90-105 | after spending a list of inputs an output is spent if and only if it was before or is among them |
| `Utxo.ApplyAccounting` | executor/utxo/manager/transaction.cpp:54-71 | an accepted transaction changes each balance minus unspent outputs by exactly the repeated inputs and pre-spent outputs, and supply by outputs minus inputs |
| `Utxo.BalancesKeptExactly` | executor/utxo/manager/transaction.cpp:54-183 | balances stay the sums of unspent outputs if and only if, at every address, the outputs that arrive already spent are worth as much as the repeated inputs (for well-formed transactions: both nothing) |
| `Utxo.GenesisBalanced` | executor/utxo/manager/transaction.cpp:33-50 | after the genesis transactions every balance is the sum of unspent outputs |
| `Utxo.Conservation` | executor/utxo/manager/transaction.cpp:33-183 | over every sequence of submissions of well-formed transactions every balance is the sum of unspent outputs and total supply is the genesis supply minus the fees, to which each accepted transaction adds at least 1 |
| `Utxo.SpentStays` | executor/utxo/manager/transaction.cpp:54-71 | an output, once consumed, stays spent in every later state |
| `Utxo.ConsumedOnce` | executor/utxo/manager/transaction.cpp:82-133 | no output is consumed by two accepted transactions of a run |
| `Utxo.AcceptedExactly` | executor/utxo/manager/transaction.cpp:82-153 | a transaction is accepted if and only if its inputs are worth more than its outputs and it either has none and comes from "0000" or is signed and all its inputs are existing unspent outputs of its sender with one key, which signed address and nonce |
| `Utxo.NonceSplits` | executor/utxo/manager/transaction.cpp:91-106 | the nonce signed is the sum of the ids spent from |
| `Utxo.SpentWasSigned` | executor/utxo/manager/transaction.cpp:82-133 | over every run, an output created unspent is spent only by an accepted transaction of its owner that its own key signed |
| `Utxo.ValuesNonNegative` | executor/utxo/manager/transaction.cpp:135-153 | after well-formed transactions no output of negative value is in the pool, so the assertion in AddCoin (transaction.cpp line 165) cannot fail |
| `Utxo.RepeatedInputDebitsTwice` | executor/utxo/manager/transaction.cpp:82-183 | concrete transaction naming one output twice: accepted, and the wallet debited twice |
| `Utxo.TransactionManager.Submit` | executor/utxo/manager/transaction.cpp:54-71 | a refused transaction changes nothing; an accepted one gets the next id and the specified ledger (the outputs it spends are non-negative, as the source asserts) |
| `Utxo.TransactionManager.GetInput` | executor/utxo/manager/transaction.cpp:82-133 | decides exactly whether all inputs exist, are unspent and belong to the sender, and one key signed the sender and nonce for all of them (or the sender is "0000" without inputs) |
| `Utxo.TransactionManager.FindInputs` | executor/utxo/manager/transaction.cpp:90-104 | succeeds if and only if every input is spendable by the sender, with the nonce and the key |
| `Utxo.TransactionManager.VerifyUTXO` | executor/utxo/manager/transaction.cpp:135-153 | accepts if and only if the inputs are worth strictly more than the outputs |
| `Utxo.TransactionManager.SpendInputs` | executor/utxo/manager/transaction.cpp:160-173 | marks every input and debits its value |
| `WriteAheadLog.WordRoundTrip` | platform/consensus/recovery/recovery.cpp:286-290 | eight bytes, the least significant first, read back as the length |
| `WriteAheadLog.RecordLayout` | platform/consensus/recovery/recovery.cpp:264-290 | a record byte by byte: its length, then length and bytes of the request, then length and bytes of the signature |
| `WriteAheadLog.LabelsExact` | platform/consensus/recovery/recovery.cpp:276-279 | the range kept for the file name is the least and the greatest number logged |
| `WriteAheadLog.FrameFront` | platform/consensus/recovery/recovery.cpp:286-290 | the framed data at the front of any bytes reads back |
| `WriteAheadLog.PayloadRoundTrip` | platform/consensus/recovery/recovery.cpp:292-342 | parsing the two inner frames of a record gives the entry back |
| `WriteAheadLog.ReadCut` | platform/consensus/recovery/recovery.cpp:371-382 | a cut record yields nothing |
| `WriteAheadLog.ReadTruncated` | platform/consensus/recovery/recovery.cpp:488-510 | reading the first n bytes of the records yields exactly the entries complete within them |
| `WriteAheadLog.RoundTrip` | platform/consensus/recovery/recovery.cpp:264-382 | reading the file back yields the logged list |
| `WriteAheadLog.AppendAtBoundary` | platform/consensus/recovery/recovery.cpp:212-232 | a file cut at a record boundary and written on reads back as the kept entries and all new ones |
| `WriteAheadLog.TornReads` | platform/consensus/recovery/recovery.cpp:488-510 | a file cut anywhere inside a record and written on: exactly what is read back, by whether the new bytes complete the length word, fill the torn record, and parse |
| `WriteAheadLog.TornHidesAppended` | platform/consensus/recovery/recovery.cpp:212-232 | a file cut inside a record, behind its length word, and written on: none of the new records is read until they fill the torn one |
| `WriteAheadLog.CrashPrefix` | platform/consensus/recovery/recovery.cpp:466-510 | reading any truncation after the header record yields exactly the prefix of entries that are complete in it |
| `WriteAheadLog.Recovery.Flush` | platform/consensus/recovery/recovery.cpp:350-369 | the buffer becomes one framed record of the file and is emptied |
| `WriteAheadLog.Recovery.WriteLog` | platform/consensus/recovery/recovery.cpp:264-284 | the file stays the image of the header and all logged entries, and the label counters their least and greatest number |
| `WriteAheadLog.Recovery.ParseRawData` | platform/consensus/recovery/recovery.cpp:329-342 | the offset loop splits bytes into the frames they consist of |
| `WriteAheadLog.Recovery.ParseEntries` | platform/consensus/recovery/recovery.cpp:292-327 | the pairing loop yields the entries, or nothing when one does not parse |
| `WriteAheadLog.Recovery.ReadRequests` | platform/consensus/recovery/recovery.cpp:486-510 | the record loop with its early exits |
| `WriteAheadLog.Recovery.ReadLogsFromFile` | platform/consensus/recovery/recovery.cpp:453-510 | header, then records |
| `Decimal.IntRoundTrip` | platform/consensus/recovery/recovery.cpp:156-167 | a printed number, -1 included, parses back |
| `Decimal.DigitOrder` | platform/consensus/recovery/recovery.cpp:156-167 | printed numbers end with their units and have no leading zero |
| `ReplaySelection.NameRoundTrip` | platform/consensus/recovery/recovery.cpp:156-167 | parsing a generated file name gives back time, range and checkpoint for all values, whatever underscores the stem has |
| `ReplaySelection.SelectedExactly` | platform/consensus/recovery/recovery.cpp:385-434 | a file is read if and only if its range spans the last checkpoint or it is the latest open file; files come in (time, path) order |
| `ReplaySelection.SelectedByTime` | platform/consensus/recovery/recovery.cpp:385-434 | the files come by creation time and the open file read is the latest created |
| `ReplaySelection.SelectedOnce` | platform/consensus/recovery/recovery.cpp:385-434 | a finished file is read as often as it is listed, the open one once |
| `ReplaySelection.CheckpointNamed` | platform/consensus/recovery/recovery.cpp:385-402 | the checkpoint replayed from is 0 or named by a file, where none is greater |
| `ReplaySelection.ReplayMembers` | platform/consensus/recovery/recovery.cpp:436-528 | a request is replayed if and only if a read file holds it above the checkpoint |
| `ReplaySelection.ReplayedInOrder` | platform/consensus/recovery/recovery.cpp:436-528 | each request above the checkpoint in a read file is replayed once, and nothing else; the places they come from, file and then position in it, strictly increase |
| `ReplaySelection.GetRecoveryFiles` | platform/consensus/recovery/recovery.cpp:385-434 | the two directory loops and sorts produce that selection |
| `ReplaySelection.ReadLogs` | platform/consensus/recovery/recovery.cpp:436-451 | the loops over files and requests replay exactly the list ReplayedInOrder describes |
| `LogDirectory.RestartRange` | platform/consensus/recovery/recovery.cpp:192-210 | the range read back at a restart: its upper end is exact although its lower end may not be |
| `LogDirectory.RangeReadBack` | platform/consensus/recovery/recovery.cpp:192-210 | read back at a restart: the lower end is the first positive number in the file, the upper end the greatest, -1 if there is none |
| `LogDirectory.InvAlways` | platform/consensus/recovery/recovery.cpp:169-284 | over every run of logging, finishing and restarting, each file's upper label is the greatest number in it, and the file being written is the latest open one |
| `LogDirectory.ReplayExact` | platform/consensus/recovery/recovery.cpp:385-434 | for every such run the replay reads every file holding a request above the last checkpoint if and only if no finished file lies wholly above it by its name |
| `LogDirectory.ReplayComplete` | platform/consensus/recovery/recovery.cpp:385-528 | then a request is replayed if and only if it was logged above the last checkpoint, in file-time order |
| `LogDirectory.CaughtComplete` | platform/consensus/recovery/recovery.cpp:105-190 | it is so when every file is finished at a checkpoint no lower than the least number its label has |
| `LogDirectory.LaggingLost` | platform/consensus/recovery/recovery.cpp:385-434 | concrete run, checkpoint votes included: a file finished at a checkpoint below its first request is not replayed |
| `LogDirectory.FileSwitcher.FinishFile` | platform/consensus/recovery/recovery.cpp:169-190 | the file gets its range and checkpoint as name, and an open one follows; nothing happens if the storage flush fails |
| `LogDirectory.FileSwitcher.SwitchFile` | platform/consensus/recovery/recovery.cpp:192-210 | the loop reads the range back, keeping the first number as lower end |
| `GeoOrder.IndexOrder` | platform/consensus/execution/geo_global_executor.cpp:93-125 | the map order of (seq, region) is the order of turns |
| `GeoOrder.RoundRobin` | platform/consensus/execution/geo_global_executor.cpp:82-125 | over every run with regions 1..R the popped requests are exactly a prefix of (1,1), ..., (1,R), (2,1), ..., as long as the arrived turns allow, whatever the arrival order |
| `GeoOrder.SeenExactly` | platform/consensus/ordering/geo_pbft/geo_pbft_commitment.cpp:65-80 | a region is ticked in a slot if and only if an earlier admitted request had that region and a number in that slot |
| `GeoOrder.AdmissionExact` | platform/consensus/ordering/geo_pbft/geo_pbft_commitment.cpp:65-121 | a request is admitted if and only if its number is not below the floor and no earlier admitted request has its region and its number modulo 2^20 |
| `GeoOrder.WrappedRequestRefused` | platform/consensus/ordering/geo_pbft/geo_pbft_commitment.cpp:65-73 | concrete first request that is refused because a number 2^20 away was admitted |
| `GeoOrder.StaleBlocks` | platform/consensus/execution/geo_global_executor.cpp:93-112 | a key behind the turn at the map head blocks everything |
| `GeoOrder.GeoPBFTCommitment.AddNewReq` | platform/consensus/ordering/geo_pbft/geo_pbft_commitment.cpp:65-73 | decides admission and ticks only its slot |
| `GeoOrder.GeoGlobalExecutor.OrderRound` | platform/consensus/execution/geo_global_executor.cpp:82-125 | inserting and popping in the loop is the specified step |
| `GeoOrder.GeoGlobalExecutor.GetNextMap` | platform/consensus/execution/geo_global_executor.cpp:93-112 | pops the head exactly when it is its turn |
| `Storage.SearchExact` | chain/storage/leveldb.cpp:175-200 | the backward search finds the entry of the version, or none |
| `Storage.GetExact` | chain/storage/leveldb.cpp:175-200 | with versions 1..m both stores answer a version query the same: that version, or the newest |
| `Storage.RangeExact` | chain/storage/leveldb.cpp:246-267 | both stores answer a range query with exactly the versions in range, newest first |
| `Storage.TopExact` | chain/storage/leveldb.cpp:270-287 | both stores answer a top-n query alike if and only if n is not 0 or the history is empty |
| `Storage.TopContents` | chain/storage/leveldb.cpp:270-287 | the query yields the newest n versions, or all there are, newest first; a negative count is taken as a huge one; the in-memory store yields at least one |
| `Storage.WriteExact` | chain/storage/memory_db.cpp:72-84 | a write succeeds if and only if its version is the current one; versions stay 1..m |
| `Storage.StoresAgree` | chain/storage/leveldb.cpp:79-287 | over every sequence of operations, when every put fills a batch (limit <= 12 + size of the put), the two stores give equal answers except exactly for top-0 queries on a written key, and hold the same histories 1..m |
| `Storage.AgreeExactly` | chain/storage/leveldb.cpp:79-93 | for put sizes that grow with the history the stores agree over all sequences of operations if and only if every put fills a batch |
| `Storage.UnwrittenDisagrees` | chain/storage/leveldb.cpp:79-93 | with a batch limit large enough two writes of version 0 both succeed in one store and not in the other |
| `Storage.BatchWrites` | chain/storage/leveldb.cpp:79-93 | writing a batch of any size leaves each key it puts with the last of its puts |
| `Storage.BatchKeeps` | chain/storage/leveldb.cpp:79-93 | a key the batch does not put keeps what it had |
| `Storage.PutFlushed` | chain/storage/leveldb.cpp:79-93 | whatever is pending and whatever the limit, a put overrides its own key and no other, either in the batch or in the database with all that was pending |
| `Storage.LastWriteWins` | chain/storage/leveldb.cpp:79-173 | over every sequence of operations and for every limit: once the pending batch is written, a key holds what its last write that was not refused made of the history stored at that time |
| `Storage.UnwrittenAbsent` | chain/storage/leveldb.cpp:79-173 | a key no write of which succeeded is neither stored nor pending |
| `Storage.ResLevelDB.SetValue` | chain/storage/leveldb.cpp:79-93 | the batch grows and is written out once it reaches the limit; if the database refuses, -1 and the batch is kept |
| `Storage.ResLevelDB.SetValueWithVersion` | chain/storage/leveldb.cpp:147-173 | is the write step of the specified store; a refused write leaves the database as it was |
| `Storage.ResLevelDB.GetValueWithVersion` | chain/storage/leveldb.cpp:175-200 | the loop answers the version query |
| `Storage.ResLevelDB.GetHistory` | chain/storage/leveldb.cpp:246-267 | the loop answers the range query |
| `Storage.ResLevelDB.GetTopHistory` | chain/storage/leveldb.cpp:270-287 | the loop answers the top query |
| `Storage.MemoryDB.SetValueWithVersion` | chain/storage/memory_db.cpp:72-84 | is the write step of the specified store |
| `Storage.MemoryDB.GetValueWithVersion` | chain/storage/memory_db.cpp:86-106 | the do-while loop answers the version query |
| `Storage.MemoryDB.GetHistory` | chain/storage/memory_db.cpp:129-148 | the do-while loop answers the range query |
| `Storage.MemoryDB.GetTopHistory` | chain/storage/memory_db.cpp:150-167 | the do-while loop answers the top query |
| `DuplicateWindow.SweepExact` | platform/consensus/execution/duplicate_manager.cpp:105-124 | a sweep of a time-ordered queue removes exactly the entries older than the window |
| `DuplicateWindow.RunSound` | platform/consensus/execution/duplicate_manager.cpp:72-124 | over every run the proposed set is contained in the queue's hashes and the queue is in time order |
| `DuplicateWindow.ExactWithoutErase` | platform/consensus/execution/duplicate_manager.cpp:72-124 | without erases the proposed set is exactly the queue's hashes, none twice |
| `DuplicateWindow.RememberedExactly` | platform/consensus/execution/duplicate_manager.cpp:72-124 | a hash accepted and not touched again is still refused if and only if no sweep since found any queued stamp of it due |
| `DuplicateWindow.RefusedUntilWindow` | platform/consensus/execution/duplicate_manager.cpp:72-124 | a hash accepted at t for the first time is refused until a sweep at a time after t plus the window |
| `DuplicateWindow.RefusedExactly` | platform/consensus/execution/duplicate_manager.cpp:72-124 | without erases, a hash answered as new at t is refused later if and only if no sweep came at a time after t plus the window |
| `DuplicateWindow.WithdrawnAccepted` | platform/consensus/execution/duplicate_manager.cpp:72-97 | a hash never proposed, or not since it was erased, is answered as new |
| `DuplicateWindow.EachHashAlone` | platform/consensus/execution/duplicate_manager.cpp:72-124 | over every run, erases included, the answer is that of a timer for this hash alone: it depends on its own proposals and erases and on the sweeps, never on other hashes |
| `DuplicateWindow.ForgottenEarly` | platform/consensus/execution/duplicate_manager.cpp:94-124 | concrete run with an erase in which a hash is forgotten inside its window |
| `DuplicateWindow.DuplicateManager.CheckAndAddProposed` | platform/consensus/execution/duplicate_manager.cpp:72-80 | refuses a known hash without effect, otherwise records it with the time |
| `DuplicateWindow.DuplicateManager.UpdateRecentHash` | platform/consensus/execution/duplicate_manager.cpp:105-124 | the pop loop is the specified sweep |

## Left out

- Sockets, acceptors, the replica communicator and heartbeats: the network is the set of messages sent.
- Signatures, hash functions and protobuf: parameters with the assumptions named above.
- Threads, locks, timers and atomics: each handler is one atomic step. The compare-and-exchange on the status is a plain update.
- Liveness: nothing is said about requests being ordered eventually, nor about progress after a view change.
- Agreement across views: vote sets are not keyed by view, and the checks on view-change proofs are weaker than section 4.4 of the PBFT paper, so agreement is proved within a view.
- Checkpoint votes in the protocol machine: that f + 1 votes for a checkpoint include a correct replica that has executed so far, and that a fetched batch has its digests, are guards of the machine; `CheckpointSafety.TransferSound` proves them of the votes.
- Recovery-flagged messages, complaints and commit certificates (`need_qc_`): they bypass or decorate the handlers modelled.
- The out-of-order executor and the execution of transactions after ordering.
- 64-bit wrap-around of counters and `int64` overflow of coin values: integers are unbounded, except in `AssignNextSeq`, the redo start and the top-n query, where the wrap matters.
- Ring sizes of 2^30 and above, where the shift in `GetCapacity` overflows.
- Sender ids of 128 and above: vote sets are sets, not 128-bit bitsets.
- The order of `other_main_request_`: taken as arrival order; the source orders by address.
- `IsValidCheckpointProof`: it looks at the local checkpoint rather than its argument; it is the flag `checkpointOk`.
- `LogDirectory.ReplayComplete`: restarts happen at record boundaries; what a torn record does to later ones is `WriteAheadLog.TornHidesAppended`.
- Which open file `GetLastFile` resumes: the model resumes the file it was writing. The 32-bit truncation of the time there is not modelled, nor is `ftruncate` of unreadable files, nor a rename onto an existing name.
- The executed-hash half of `DuplicateManager`: the same mechanism as the proposed half.
- Smart contracts, PoE, statistics, command-line tools, Python bindings and configuration reading.
