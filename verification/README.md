# Verification of the replication protocols

This project models the protocol code of the Goxos replication framework in
Dafny and proves what that code is for. It covers five pieces.

**MultiPaxos** (`multipaxos/`, `paxos/`, `grp/`). `Acceptor.dfy`,
`Proposer.dfy` and `Learner.dfy` hold each event handler as a step on values;
the classes of `Acceptor.dfy`, `ProposerActor.dfy` and `LearnerActor.dfy` are
the handlers as they run, with slot maps, counters and queues updated in place,
and every method is proved to perform its step. `System.dfy` puts any number of
replicas together: the network is the set of all messages ever sent, so that
messages may be lost, delayed, reordered and repeated, and timer ticks, trust
messages, decided notifications and client values may come at any time.
`Invariants.dfy`, `Stability.dfy`, `Agreement.dfy`, `AcceptorSafety.dfy`,
`ProposerFacts.dfy`, `ProposerSafety.dfy`, `LearnerSafety.dfy` and `Safety.dfy`
build an inductive invariant of the whole cluster, and `Theorems.dfy` states
what follows for every run. `Progress.dfy` states what the handlers achieve when
messages do arrive, in terms of sets of senders rather than of counters;
`ProposerLaws.dfy` states what each turn of the proposer achieves and what
becomes of client values, and `AcceptorHistory.dfy` what an acceptor answers, in
terms of the messages it has received. `CatchUp.dfy` and `CatchUpSteps.dfy` treat
delivery and catch-up between learners, `HandOff.dfy` the hand-over of acceptor
state.

**Valid quorums for Live Replacement** (`lr/`, `multipaxos/vq.go`).
`Combinations.dfy` holds the in-place enumeration of r-combinations,
`ValidQuorum.dfy` the search for a conflict-free quorum that it drives, and
`LiveReplacement.dfy` the fast and slow paths of the learner and the proposer.
The search occurs three times in the source, over learns, promises and epoch
promises; only identity and epoch vector of a message matter to it, so it is
modelled once over such pairs (`Ballot`).

**Token ring** (`parallelpaxos/learner.go`): `TokenRing.dfy` and, for when a slot
is learned, `RingLearning.dfy`, with the modular arithmetic they need in
`Arithmetic.dfy`.

**BatchPaxos** (`batchpaxos/`): `Batcher.dfy` (request log), `BatchPoints.dfy`
(batch points), `BatchQuorum.dfy` (quorums and intersections),
`BatchAcceptor.dfy` (the replica), `BatchFacts.dfy` and `BatchSafety.dfy` (the
invariant of a system of replicas), `BatchTheorems.dfy` (agreement),
`BatchOrder.dfy` (exactly-once execution), `BatchReports.dfy` (what is reported to
the leader), `BatchCommits.dfy` (when it commits) and `BatchUpdate.dfy` (the update
protocol).

**Arithmetic and codec**: `Epochs.dfy` (Cantor pairing and the epoch
generators), `Codec.dfy` and `Wire.dfy` (the key-value messages and their
marshalling through a reused ten-byte buffer), `NodeMap.dfy` (members, epochs
and quorum size of a group).

Go maps are `map` values held in fields, and where the order of iteration over a
map can matter it is a parameter. A Go panic, or the end of the process by a
fatal log message, is an explicit outcome (`Panic`, `ok == false`), and the run
theorems show that it is not reached.

## Where the code differs from what it promises

Each of these is proved, with the exact condition under which the promise holds.

- A key-value response with an empty value is written with the whole scratch
  buffer behind the found flag: it is read back if and only if its value is not
  empty or its error is empty (`Codec.ResponseRoundTripIff`), and what follows
  it on the wire is read correctly if and only if its value is not empty
  (`Codec.ResponseFramedIff`).
- `handlePromLr` tests the set of replicas it has promises from, but nothing
  writes that set. As many promises as the quorum needs are reported as one on
  the fast path, and under one epoch vector they are a valid quorum if and only
  if no sender's promise was delivered twice (`LiveReplacement.PromiseFastPath`,
  `LiveReplacement.DuplicatePromiseCounts`).
- While the replica's own epoch vector changes, the messages that the fast paths
  count are a valid quorum if and only if they come from different positions and
  no counted sender had been replaced by the time a later message was counted
  (`LiveReplacement.FastPathValidIff`, `LiveReplacement.PromiseFastPathIff`);
  `LiveReplacement.FastPathIsValid` is the case of one vector throughout and
  `LiveReplacement.UnstableEpochsConflict` an instance that fails.
- The first token of the ring goes to the processor of the first learn that
  arrives: slots are delivered in order if and only if that processor owns
  slot 1 (`TokenRing.InOrderIffStartedAtSlotOne`); from any other processor there
  is a run out of order (`TokenRing.StartElsewhereDeliversOutOfOrder`).
- `TryBatchPoint` drops the clients that are absent from an intersection. A
  client's requests are handed out as 0, 1, 2, ... if and only if it is never
  dropped from a batch point and back in a later one
  (`BatchPoints.TilesIff`, `BatchPoints.DroppedClientRunsTwice`).
- Batch points are taken in the order in which quorums complete but executed in
  the order of batch numbers. Once all commits are executed, a client's requests
  have run as 0, 1, 2, ... if and only if it was not dropped and back and the
  commits with requests of this client were sent in batch order
  (`BatchOrder.TilesInBatchOrderIff`, `BatchOrder.ExactlyOnce`); four learns that
  lead a fresh leader elsewhere are in `BatchOrder.CrossingLearnsRunBackwards`.
- An update reply for a batch whose commit has not arrived would mark the batch
  as executed with nothing in it (`BatchTheorems.ReplyBeforeCommitSkips`); it
  does not happen, since replicas only ask after the commit
  (`BatchSafety.NextInv`).
- The 64-bit Cantor pairing is exact if and only if its product does not
  overflow (`Epochs.Pairing64ExactIff`). Up to there generators of different
  replicas never meet (`Epochs.GeneratorsDisjoint64`); beyond, two identities can
  share all their epochs (`Epochs.ReplicasShareBase`), and for the largest old
  epoch the loop never ends (`Epochs.LoopNeverEndsAtMaximum`).

## Model

| member | source | states |
|---|---|---|
| Theorems.LearnersAgree | multipaxos/learner.go:166-206 | agreement: in every run no two learners, at no two moments, hold different learned values for a slot, however the values were learned |
| Theorems.DeliveriesConsistent | multipaxos/learner.go:94-141 | state-machine consistency: what any two learners send on the decided channel, at any moments, is prefix-related |
| Theorems.DeliveriesOnlyExtend | multipaxos/learner.go:326-340 | a learner never takes back or changes what it has delivered |
| Theorems.DeliveredWasSubmitted | multipaxos/proposer.go:437-458 | only values that a client has submitted are delivered |
| Theorems.LearnerStream | multipaxos/learner.go:284-340 | in every reachable state exactly the slots from the first one up to next-1 are decided, one delivery per slot, and slot next is not left learned |
| Theorems.NeverPanics | multipaxos/learner.go:284-303 | no handler panics in any run; in particular the panic in learnVal and the index of the learns by PaxosID are safe |
| Theorems.OneValuePerRoundAndSlot | multipaxos/proposer.go:412-458 | all accepts of a run for one round and slot are the same message |
| Theorems.AcceptsAgreeWithChosen | multipaxos/proposer.go:240-276 | safe proposals: an accept carries the value of anything chosen in its slot at a lower round, whether chosen before or after the accept was sent |
| Theorems.ResendsRepeat | multipaxos/proposer.go:470-514 | a resend tick broadcasts no accept that was not broadcast before, even when it restarts phase one part-way and goes on |
| Theorems.AcceptorRounds | multipaxos/acceptor.go:133-170 | Rnd never falls, every VRnd is at most Rnd and every voted slot at most MaxSeen |
| Theorems.PromisesReport | multipaxos/acceptor.go:148-169 | a promise reports, from the prepared slot on, votes at least as high as any its sender ever casts below the promised round, and each of its entries is a vote that its sender has cast, or padding with slot 0 |
| Theorems.LearnsRepeatAccepts | multipaxos/acceptor.go:258-293 | every learn repeats the round, slot and value of a broadcast accept |
| Progress.LearnedExactlyOnQuorum | multipaxos/learner.go:166-206 | whatever learns came before, in whatever rounds, order and number: a learn hands out its value if and only if it is of the highest round so far and makes its distinct senders a quorum |
| Progress.PhaseOneExactlyOnQuorum | multipaxos/proposer.go:281-313 | a promise completes phase one if and only if it makes the distinct senders for the current round a quorum |
| Progress.AcceptIsLearned | multipaxos/acceptor.go:258-293 | an accept that a quorum of acceptors not in a higher round receives makes a learner learn its value |
| Progress.PrepareCompletesPhaseOne | multipaxos/acceptor.go:133-170 | a prepare of a round higher than a quorum of acceptors have seen completes phase one |
| Progress.SendsAllItCan | multipaxos/proposer.go:412-458 | sending stops only at the end of the window or for want of a value, and the queue loses exactly the values sent in new proposals, in order |
| Progress.ResendsWholeWindow | multipaxos/proposer.go:470-502 | as long as no accept was resent too often, a resend tick repeats every accept of the window in slot order and counts each once |
| ProposerLaws.EachTurn | multipaxos/proposer.go:112-187 | what every turn of the event loop achieves. A decided notification, a client value or the completion of phase one at a leader: one accept of the current round for each further slot, up to adu+alpha or until there is no value for the next one. Election or a phase-one timeout: one prepare of the next round, and no promises, counters or queue left. A resend tick: the whole window again. Any other turn sends nothing and changes no proposal; adu, leader, round and counters change only where named |
| ProposerLaws.QueueConserved | multipaxos/proposer.go:112-179 | no client value is lost, repeated or overtaken: over any series of turns between two clearings of the queue, what was queued and what the leader received are, in order, the values of its new proposals followed by what is still queued |
| ProposerLaws.CompletingFills | multipaxos/proposer.go:157-167 | on completion of phase one the slots from adu+1 on are proposed again in order, each with the value of the highest round among its own proposal and the votes reported for it, where there is one |
| ProposerLaws.RestartsAtFirst | multipaxos/proposer.go:470-497 | a resend tick that meets an accept sent too often: what is before it is repeated, one prepare of the next round is sent in its place, and all that is behind it is repeated with fresh counters |
| ProposerLaws.RunsSound | multipaxos/proposer.go:91-191 | in every run each proposer holds its own accept in every slot of its window, of the current round once phase one is complete, as the laws above assume |
| Agreement.ProposalsSafe | multipaxos/proposer.go:248-276 | from the invariant of a state: an accept agrees with everything chosen at a lower round, by induction over rounds |
| Agreement.ChosenUnique | multipaxos/learner.go:192-205 | at most one value is ever chosen in a slot |
| Invariants.QuorumsIntersect | grp/node.go:164 | any two quorums of acceptors share a member |
| Safety.RunInv | multipaxos/proposer.go:91-191 | the invariant of the cluster holds in every state of every run |
| Safety.NextInv | multipaxos/learner.go:84-142 | every action of every replica keeps the invariant of the cluster |
| Safety.ProposerStepInv | multipaxos/proposer.go:112-187 | each case of the proposer's event loop keeps the proposer's invariant and broadcasts only safe accepts |
| Safety.AcceptorActInv | multipaxos/acceptor.go:86-113 | answering a prepare or an accept keeps the invariant |
| Safety.LearnerStepInv | multipaxos/learner.go:94-141 | each case of the learner's event loop keeps the learner's invariant and does not panic |
| Safety.CatchUpKeepsVoting | multipaxos/learner.go:361-374 | catch-up requests and answers do not touch what voting relies on |
| Stability.MessagesStable | multipaxos/acceptor.go:148-169 | what promises and accepts justify stays justified while acceptors go on voting |
| AcceptorSafety.PromiseCovers | multipaxos/acceptor.go:148-169 | a new promise covers every vote of its sender from the prepared slot on |
| AcceptorSafety.PrepareActInv | multipaxos/acceptor.go:133-170 | a prepare keeps the acceptor's and the messages' invariants |
| AcceptorSafety.AcceptActInv | multipaxos/acceptor.go:258-293 | an accept keeps the acceptor's and the messages' invariants, and casts the vote it reports |
| ProposerSafety.MergedReady | multipaxos/proposer.go:240-276 | once a quorum of promises is merged, every slot of the window holds a value that is safe for the round, although older proposals of the proposer itself are kept |
| ProposerSafety.ReadyAcceptSafe | multipaxos/proposer.go:437-458 | an accept generated after phase one is justified by a quorum and no chosen value is contradicted |
| ProposerSafety.SendAcceptsInv | multipaxos/proposer.go:412-435 | sending accepts within the window keeps the invariant, with one value per round and slot |
| ProposerSafety.ResendsAreOld | multipaxos/proposer.go:470-497 | every accept that the resend loop broadcasts is already among the messages sent |
| ProposerSafety.CompletePhaseOneInv | multipaxos/proposer.go:240-246 | completing phase one keeps the proposer's invariant |
| ProposerSafety.StartPhaseOneInv | multipaxos/proposer.go:209-238 | starting phase one takes a fresh higher round and keeps the proposer's invariant |
| ProposerFacts.SendAcceptsEffect | multipaxos/proposer.go:412-458 | sending broadcasts one accept of the current round for each slot it passes and changes no other proposal |
| ProposerFacts.ResendFromEffect | multipaxos/proposer.go:470-497 | resending changes no proposal |
| ProposerFacts.MergePromisesEffect | multipaxos/proposer.go:240-276 | after merging, each slot holds its old proposal or a reported vote, of the highest round among them |
| LearnerSafety.HandleLrnInv | multipaxos/learner.go:166-206 | a value is handed out only when a quorum of distinct replicas has voted for it in one round |
| LearnerSafety.LearnValInv | multipaxos/learner.go:284-303 | marking a chosen value learned keeps the learner's invariant |
| LearnerSafety.AdvanceAllInv | multipaxos/learner.go:326-340 | delivery empties the learned slots in a row and leaves the next one unlearned |
| LearnerSafety.HandleCURespInv | multipaxos/learner.go:432-450 | adopting answers keeps the invariant, also when the answer holds values the sender itself adopted |
| LearnerSafety.HandleCUReqInv | multipaxos/learner.go:410-430 | every value in an answer is chosen in its slot |
| Learners.DeliveryShrinks | multipaxos/learner.go:326-340 | each delivery uses up a learned slot, so the delivery loops end |
| CatchUpSteps.LearnTurn | multipaxos/learner.go:98-116 | what a learn achieves: it only counts, or delivers its value and all that is due behind it, or, beyond a gap, sends exactly one request for exactly the undecided slots before its own, unless a catch-up is under way or the replica leads; and when it panics |
| CatchUpSteps.DeliversAll | multipaxos/learner.go:326-340 | delivery hands out the values of the slots from next on, in slot order, up to the first one that is not learned, marks exactly these decided, and changes nothing else |
| CatchUpSteps.RequestTurn | multipaxos/learner.go:117-121 | a request is answered by one message with the replica's values for exactly the requested slots that it has decided |
| CatchUpSteps.AnswerTurn | multipaxos/learner.go:122-130 | an answer is adopted, all that is then due is delivered, and the next gap may be asked for |
| CatchUpSteps.TrustTurn | multipaxos/learner.go:131-132 | a trust message only decides who may ask for missing slots |
| CatchUpSteps.GapIsClosed | multipaxos/learner.go:98-130 | through the messages of three turns: the request sent on a gap, the answer a peer sends to it, and its handling at any later moment leave all slots of the gap that the peer has decided learned; if these are all, everything up to the learn that showed the gap is delivered; and a new request may be sent |
| CatchUpSteps.RunsInStream | multipaxos/learner.go:84-142 | in every run each learner keeps slots under their numbers and has decided none from next on, as the turns above assume |
| Group.CompareTo | grp/node.go:64-78 | the comparison is -1, 0 or 1 exactly for below, equal and above in the order by position and epoch |
| Group.EpochSlicesEqual | grp/node.go:342-353 | true exactly for equal epoch vectors |
| Paxos.Compare | paxos/proprnd.go:24-31 | the comparison is -1, 0 or 1 exactly for lower, equal and higher rounds |
| Acceptors.AcceptorSlotMap.GetSlot | paxos/aslots.go:30-39 | the slot, created if missing, with MaxSeen raised to its number |
| Acceptors.MultiAcceptor.constructor | multipaxos/acceptor.go:40-74 | an empty slot map, with the given low slot |
| Acceptors.MultiAcceptor.CollectVotes | multipaxos/acceptor.go:156-163 | the collected list is that of the prepare step, padding included |
| Acceptors.MultiAcceptor.HandlePrep | multipaxos/acceptor.go:133-170 | the handler performs the prepare step: new state and promise, or nothing for a lower round |
| Acceptors.MultiAcceptor.HandleAcc | multipaxos/acceptor.go:258-293 | the handler performs the accept step: new state and learn, or nothing |
| Acceptors.MultiAcceptor.HandlePrepAr | multipaxos/acceptor.go:172-215 | as the plain handler, but a prepare from another epoch changes nothing and has no answer |
| Acceptors.MultiAcceptor.HandleAccAr | multipaxos/acceptor.go:295-334 | as the plain handler, but an accept from another epoch changes nothing and has no answer |
| Acceptors.MultiAcceptor.HandlePrepLr | multipaxos/acceptor.go:217-256 | as the plain handler, with the acceptor's epoch vector in the promise |
| Acceptors.MultiAcceptor.HandleAccLr | multipaxos/acceptor.go:336-372 | as the plain handler, with the acceptor's epoch vector in the learn |
| Acceptors.MultiAcceptor.SetState | multipaxos/acceptor.go:389-391 | the slot map is replaced and nothing else |
| Acceptors.MultiAcceptor.SetLowSlot | multipaxos/acceptor.go:417-419 | the low slot is set and nothing else |
| Acceptors.MultiAcceptor.HandleStateRequest | multipaxos/acceptor.go:408-413 | the answer is a copy of the slots above the mark, the acceptor keeps its own and takes the identity of the group manager |
| Acceptors.CopyAccSlotMapRange | paxos/utils.go:3-18 | the copy has the source's round and its slots above the mark |
| Acceptors.VotesInMember | multipaxos/acceptor.go:156-163 | the votes of a range are exactly those of its voted slots |
| AcceptorHistory.AcceptAnsweredIff | multipaxos/acceptor.go:258-293 | whatever messages came before, an accept is answered, with its slot, round and value, if and only if its slot is not below the low slot, its round is above zero, no message that counts was of a higher round, and none was an accept of this slot and round |
| AcceptorHistory.PrepareAnsweredIff | multipaxos/acceptor.go:133-170 | whatever messages came before, a prepare is answered if and only if its round is above that of every message that counts; the votes in the promise are exactly the last answered accepts of the slots from the prepared one on |
| AcceptorHistory.PromiseLayout | multipaxos/acceptor.go:148-163 | a promise is one empty entry with slot 0 for each slot by which the prepared slot lies beyond the highest slot seen, then the votes in the order of their slots |
| AcceptorHistory.OtherEpochsAreAbsent | multipaxos/acceptor.go:172-334 | with ARec reconfiguration an acceptor is at every moment the one that has received only the messages of its own epoch: it answers these alike, and no others |
| HandOff.CopyAlike | paxos/utils.go:3-18 | an acceptor on the copy is alike to one on the source above the mark |
| HandOff.PreparesAlike | multipaxos/acceptor.go:133-170 | alike acceptors answer a prepare above the mark with the same round and the same list of real votes, and stay alike |
| HandOff.AcceptsAlike | multipaxos/acceptor.go:258-293 | alike acceptors answer an accept above the mark with the same learn, and stay alike |
| HandOff.HandOffTransparent | multipaxos/acceptor.go:408-413 | state hand-off: over any series of prepares and accepts above the mark nobody can tell the copy from the source |
| HandOff.RunKeysSeen | paxos/aslots.go:30-39 | in every run each acceptor has raised MaxSeen to all slots it holds, which the copy relies on |
| HandOff.HandOffInRuns | paxos/utils.go:3-18 | state hand-off for any acceptor in any run, without further condition |
| ProposerActor.ProposerSlotMap.GetSlot | paxos/pslots.go:23-32 | the slot, created if missing, with MaxSeen raised to its number |
| ProposerActor.MultiProposer.constructor | multipaxos/proposer.go:58-88 | the initial state of a proposer |
| ProposerActor.MultiProposer.Handle | multipaxos/proposer.go:91-191 | one turn of the event loop performs the step of its event, and panics exactly where the step does |
| ProposerActor.MultiProposer.StartPhaseOne | multipaxos/proposer.go:209-217 | a new round, cleared promises and counters, and one prepare whose slot is adu |
| ProposerActor.MultiProposer.UpdateStatePrePhaseOne | multipaxos/proposer.go:219-226 | the round is raised, the window reset and the queue cleared on request |
| ProposerActor.MultiProposer.ResetPhaseOneData | multipaxos/proposer.go:228-238 | the promises of the last phase one are forgotten |
| ProposerActor.MultiProposer.ResetSentCountersInAlphaWindow | multipaxos/proposer.go:509-514 | the sent counters of the window are zero and nothing else changes |
| ProposerActor.MultiProposer.SetStateFromPromises | multipaxos/proposer.go:240-246 | the proposals are those of merging all stored promises |
| ProposerActor.MultiProposer.SetStateFromPromise | multipaxos/proposer.go:248-276 | votes with slot 0 are skipped, a proposal gives way only to a vote of a higher round |
| ProposerActor.MultiProposer.HandleProm | multipaxos/proposer.go:281-313 | a promise counts once per sender and only for the current round; true when it completes the quorum |
| ProposerActor.MultiProposer.SendAccept | multipaxos/proposer.go:412-435 | the loop performs the sending step: accepts while the window and the queue allow |
| ProposerActor.MultiProposer.GenAccept | multipaxos/proposer.go:437-458 | the slot's own value first, then the head of the queue, then nothing |
| ProposerActor.MultiProposer.AdvanceAdu | multipaxos/proposer.go:460-465 | adu grows by one |
| ProposerActor.MultiProposer.ResendAcceptsIfNecessary | multipaxos/proposer.go:470-478 | the loop performs the resending step over the whole window, also past a restart of phase one |
| ProposerActor.MultiProposer.ResendAccept | multipaxos/proposer.go:480-497 | one accept is resent and counted, or phase one restarted once it was sent too often |
| ProposerActor.MultiProposer.IncrementSentCountFor | multipaxos/proposer.go:499-502 | one counter grows by one |
| ProposerActor.MultiProposer.HasReachedResendThreshold | multipaxos/proposer.go:504-507 | true when the accept was sent too often |
| LearnerActor.LearnerSlotMap.GetSlot | paxos/lslots.go:31-41 | the slot, created if missing, with MaxSeen raised to its number |
| LearnerActor.MultiLearner.constructor | multipaxos/learner.go:46-81 | the initial state of a learner |
| LearnerActor.MultiLearner.Handle | multipaxos/learner.go:84-142 | one turn of the event loop performs the step of its event, and panics exactly where the step does |
| LearnerActor.MultiLearner.HandleLrn | multipaxos/learner.go:166-206 | a learn is counted once per sender and round, a higher round starts the count again |
| LearnerActor.MultiLearner.LearnVal | multipaxos/learner.go:284-303 | the value is stored and the verdict says whether to advance or to catch up |
| LearnerActor.MultiLearner.DeliverAll | multipaxos/learner.go:103-106 | the loop delivers all learned slots in a row and ends |
| LearnerActor.MultiLearner.GetUndecSlots | multipaxos/learner.go:379-408 | the loop gives the undecided ranges of the scan |
| LearnerActor.MultiLearner.RequestCatchUp | multipaxos/learner.go:361-374 | one request to the leader, none while one is under way or when this replica is the leader |
| LearnerActor.MultiLearner.HandleCUReq | multipaxos/learner.go:410-430 | the answer holds the decided slots of the requested ranges |
| LearnerActor.MultiLearner.HandleCUResp | multipaxos/learner.go:432-450 | slots not learned yet take the values of the answer |
| CatchUp.RangesExact | multipaxos/learner.go:379-408 | the ranges are ordered, disjoint and maximal, and their union is exactly the undecided slots |
| CatchUp.AnswerExact | multipaxos/learner.go:410-430 | an answer holds the responder's values for exactly the requested slots that it has decided |
| CatchUp.AdoptedSlot | multipaxos/learner.go:432-450 | a learned slot keeps its value, another takes the one of the answer |
| CatchUp.CatchUpCompletes | multipaxos/learner.go:361-450 | asking a peer that has decided all undecided slots leaves all of them learned, with the peer's value where there was none, and changes no other slot |
| Combinations.CombosCount | lr/comb_iterator.go:17 | there are as many combinations as the binomial coefficient says |
| Combinations.CombosIncreasing | lr/comb_iterator.go:36-49 | every listed combination is an increasing r-sequence over 0..n-1 |
| Combinations.CombosComplete | lr/comb_iterator.go:36-49 | every increasing r-sequence is listed |
| Combinations.CombosSorted | lr/comb_iterator.go:36-49 | the list is in strict lexicographic order, so nothing is listed twice |
| Combinations.CombosStep | lr/comb_iterator.go:36-49 | each listed combination is followed by its successor, the last one by none |
| Combinations.SuccAt | lr/comb_iterator.go:36-49 | the successor raises the last position that can be raised and restarts the run behind it |
| Combinations.CombinationIterator.constructor | lr/comb_iterator.go:12-20 | the iterator stands at the first combination |
| Combinations.CombinationIterator.Next | lr/comb_iterator.go:26-30 | after k calls S() is the k-th combination, until none is left |
| Combinations.CombinationIterator.UpdateS | lr/comb_iterator.go:36-49 | the array is replaced in place by its lexicographic successor |
| ValidQuorum.VerdictMeaning | multipaxos/vq.go:25-43 | the pair loops pass exactly the conflict-free combinations, and panic exactly if they read past the end of an epoch vector before a conflict shows |
| ValidQuorum.CheckCombination | multipaxos/vq.go:25-35 | true exactly when the chosen messages are pairwise conflict-free; the panic is exactly that of the loops |
| ValidQuorum.ExtractValidQuorum | multipaxos/vq.go:8-23 | the lexicographically first conflict-free quorumSize-subset, or none exactly when there is none, unless a combination before it panics, which is told exactly; nothing is asked of the messages |
| ValidQuorum.WellFormedNeverPanics | multipaxos/vq.go:37-43 | with an entry for every sender in every epoch vector the search does not panic |
| ValidQuorum.QuorumListed | lr/vq.go:3-18 | every conflict-free subset is met by the enumeration |
| ValidQuorum.ValidQuorumsIntersect | multipaxos/vq.go:37-43 | two valid quorums of n/2+1 messages over n positions, even from different message sets, share a PaxosID |
| LiveReplacement.LearnerLr.HandleLrnLr | multipaxos/learner.go:208-282 | a value is learned from a bare count while all epoch vectors are the replica's own, from a valid quorum otherwise; the slot after each learn and the panics are given exactly |
| LiveReplacement.CollectAllTally | multipaxos/learner.go:234-257 | over any series of learns: the slot's round is the highest of them, and the learns it holds are of that round, exactly one of each replica that sent one |
| LiveReplacement.LearnedLrExactlyOnQuorum | multipaxos/learner.go:208-282 | whatever learns came before: the votes reach the quorum, as the handler tests, if and only if the learn is of the highest round and completes a quorum of distinct senders of it; the slow path is taken if and only if some epoch vector differed, and searches one learn of each of these senders |
| LiveReplacement.AnswersKnowTheirSender | multipaxos/acceptor.go:336-372 | every answer carries its sender's own epoch at its own position, if the acceptor's epoch vector does |
| LiveReplacement.FastPathValidIff | multipaxos/learner.go:265-268 | while epochs only rise: the learns counted without a check pass the check if and only if no counted sender had been replaced by the time a later learn was counted; for a count equal to the quorum this is whether a valid quorum exists |
| LiveReplacement.FastPathIsValid | multipaxos/learner.go:265-268 | with one epoch vector throughout, the learns counted without a check form a set that the check accepts |
| LiveReplacement.UnstableEpochsConflict | multipaxos/learner.go:221-232 | an instance: one of two counted senders is replaced in between, and the two are no valid quorum |
| LiveReplacement.ProposerLr.HandlePromLr | multipaxos/proposer.go:319-407 | a quorum by count or by search, keeping only the promises of the first valid quorum on the slow path, with its panics |
| LiveReplacement.StoresCurrentRound | multipaxos/proposer.go:324-345 | the promises stored since phase one started are exactly those received for its round, in order |
| LiveReplacement.PhaseOneLrExactly | multipaxos/proposer.go:319-407 | whatever promises came before: one is reported as a quorum if and only if it is for the current round, the promises for this round are then as many as the quorum needs and, once an epoch vector differed, hold a valid quorum |
| LiveReplacement.PromiseFastPathIff | multipaxos/proposer.go:319-407 | while epochs only rise: promises stored without a check that reach the quorum are a valid one if and only if positions differ and no sender was replaced before a later promise |
| LiveReplacement.PromiseFastPath | multipaxos/proposer.go:319-407 | as many promises as the quorum needs are reported as a quorum on the fast path, and they are a valid one if and only if their senders are distinct |
| LiveReplacement.DuplicatePromiseCounts | multipaxos/proposer.go:331 | one promise delivered twice is reported as a quorum of two |
| TokenRing.LearnerProcessor.constructor | parallelpaxos/learner.go:169-190 | processor i starts with slot i, processor 0 with slot n, without the token |
| TokenRing.LearnerProcessor.ReceiveNextToDecideToken | parallelpaxos/learner.go:48-60 | the token is kept, or the learned next slot delivered and the token passed on |
| TokenRing.LearnerProcessor.HandleLearn | parallelpaxos/learner.go:80-129 | a learn is counted; the holder delivers its next slot once learned and passes the token on |
| RingLearning.RingLearnsExactlyOnQuorum | parallelpaxos/learner.go:80-129 | in every run, for every slot and whatever learns came: the slot is learned if and only if some learn was of the highest round so far and made its distinct senders a quorum, and then with the value of the first such learn |
| RingLearning.DeliveriesHaveQuorum | parallelpaxos/learner.go:109-125 | whatever the ring delivers was learned from a quorum of distinct senders of one round |
| RingLearning.DeliveredByQuorumOfVotes | parallelpaxos/learner.go:109-125 | if the learns of one slot and round agree, a quorum of distinct senders has sent the delivered value in one round |
| TokenRing.OneToken | parallelpaxos/learner.go:48-129 | there is never more than one token, on its way or in a processor's hands |
| TokenRing.NoIdleHolder | parallelpaxos/learner.go:48-129 | no processor rests with the token while its next slot is learned |
| TokenRing.InOrderIffStartedAtSlotOne | parallelpaxos/learner.go:198-228 | the slots 1, 2, 3, ... are delivered exactly once and in order if and only if the first token went to the processor that owns slot 1 |
| TokenRing.RefinesSequentialLearner | parallelpaxos/learner.go:80-129 | the deliveries are those of one sequential learner over the union of the slots |
| TokenRing.NextInv | parallelpaxos/learner.go:62-78 | every token and learn step keeps the invariant of the ring |
| TokenRing.NoPanicInGroup | parallelpaxos/learner.go:80-129 | no processor panics in a run whose learns come from the group in rounds above zero |
| TokenRing.PanicsIff | parallelpaxos/learner.go:80-129 | a processor panics exactly on a learn that it would count but has no place for |
| TokenRing.StartElsewhereDeliversOutOfOrder | parallelpaxos/learner.go:198-228 | for every processor that does not own slot 1 there is a run that starts at it and delivers out of order |
| Batching.SortedKeysRange | batchpaxos/util.go:9-17 | the one increasing list of the clients, whatever the iteration order |
| Batching.SortedIsUnique | batchpaxos/util.go:15 | a set of clients has only one increasing list, so all replicas execute in the same order |
| Batching.Batcher.GetLog | batchpaxos/batcher.go:47-57 | the client's log, created if missing |
| Batching.Batcher.LogRequest | batchpaxos/batcher.go:61-71 | the request is stored under its client and number and the highest number raised |
| Batching.Batcher.GetIncompleteRanges | batchpaxos/batcher.go:91-107 | exactly the ranges in which a request is missing; looking clients up creates their logs |
| Batching.Batcher.GetCurrentBatchPoint | batchpaxos/batcher.go:111-119 | the highest number of every client |
| Batching.Batcher.ForEach | batchpaxos/batcher.go:123-134 | the callback sees the clients in order and the numbers of each range in order |
| Batching.Batcher.GetBatch | batchpaxos/batcher.go:138-188 | a batch exactly when it is the first one or the log has grown since the last |
| Batching.Batcher.GetClientCommands | batchpaxos/batcher.go:192-206 | the commands of every range, counted on 32 bits |
| Batching.Batcher.SetClientCommands | batchpaxos/batcher.go:210-216 | all commands are logged, client by client in any order |
| BatchPoints.MakeRangeMap1 | batchpaxos/batchpoint.go:18-24 | every client from 0 |
| BatchPoints.MakeRangeMap2 | batchpaxos/batchpoint.go:28-39 | from behind the earlier point, or from 0 for a new client |
| BatchPoints.BatchPointer.TryBatchPoint | batchpaxos/batchpoint.go:43-71 | a new point exactly when some client is new or has grown |
| BatchPoints.TilesUnlessBack | batchpaxos/batchpoint.go:28-71 | the numbers handed out for a client are 0, 1, 2, ... up to the last point unless it comes back after being dropped |
| BatchPoints.TilesIff | batchpaxos/batchpoint.go:52-67 | for all series of intersections: a client's numbers tile if and only if it never comes back after being dropped; otherwise one is handed out twice |
| BatchPoints.DroppedClientRunsTwice | batchpaxos/batchpoint.go:54-65 | three intersections after which a client's first requests run twice |
| BatchPoints.HandedOutExactly | batchpaxos/batchpoint.go:28-71 | for all series of intersections: the numbers handed out for a client are exactly those up to the highest that some intersection has for it |
| BatchPoints.TriedCovers | batchpaxos/batchpoint.go:43-71 | after each try the last point covers the intersection, and what is handed out is exactly what the point before lacked |
| BatchQuorum.BatchQuorumChecker.AddLearn | batchpaxos/quorum.go:43-46 | the learn is appended to its batch |
| BatchQuorum.BatchQuorumChecker.LearnQuorumExists | batchpaxos/quorum.go:50-66 | true once per batch, when learns of enough distinct replicas are there |
| BatchQuorum.BatchQuorumChecker.Intersect | batchpaxos/quorum.go:70-90 | the clients common to all learns with their lowest numbers |
| BatchQuorum.FindMin | batchpaxos/quorum.go:92-106 | the lowest number of a client |
| BatchQuorum.IntersectionIsGreatest | batchpaxos/quorum.go:70-106 | the intersection is the greatest batch point that no learn falls short of |
| BatchAcceptors.BatchAcceptor.constructor | batchpaxos/batchacceptor.go:48-74 | the initial state, with a majority as quorum |
| BatchAcceptors.BatchAcceptor.Handle | batchpaxos/batchacceptor.go:77-110 | one turn of the event loop performs the step of its event, and ends the process exactly where the step does |
| BatchAcceptors.BatchAcceptor.OnBatchTimeout | batchpaxos/batchacceptor.go:146-171 | a due batch is sent to the leader |
| BatchAcceptors.BatchAcceptor.OnValue | batchpaxos/batchacceptor.go:87-92 | a value without an application request ends the process, another is handled by its first request |
| BatchAcceptors.BatchAcceptor.OnRequest | batchpaxos/batchacceptor.go:175-217 | the request is logged, and every batchMaxReq requests a due batch is sent |
| BatchAcceptors.BatchAcceptor.OnUpdateRequestMsg | batchpaxos/batchacceptor.go:222-243 | a reply with the commands if and only if none is missing |
| BatchAcceptors.BatchAcceptor.OnUpdateReplyMsg | batchpaxos/batchacceptor.go:246-268 | the commands are logged and the batch executed, or the process ends if some are still missing |
| BatchAcceptors.BatchAcceptor.OnLearnMsg | batchpaxos/batchacceptor.go:273-305 | a completed quorum tries a batch point and broadcasts one commit |
| BatchAcceptors.BatchAcceptor.OnCommitMsg | batchpaxos/batchacceptor.go:310-335 | a complete batch is executed, for an incomplete one exactly the missing ranges are asked for |
| BatchAcceptors.BatchAcceptor.Advance | batchpaxos/batchacceptor.go:357-382 | the loop executes the batches that are due in order of their numbers, and ends |
| BatchReports.DueIffNew | batchpaxos/batcher.go:138-188 | there is a batch to send if and only if the last report lacks a client or a higher number of the log |
| BatchReports.TimeoutReports | batchpaxos/batchacceptor.go:146-171 | after a timeout every logged request has been reported, by a learn to the leader exactly if something was new |
| BatchReports.EachTurnReports | batchpaxos/batchacceptor.go:175-217 | a request is logged and nothing else; every batchMaxReq-th one leaves nothing unreported; other messages report nothing and forget nothing |
| BatchReports.AlwaysBookkept | batchpaxos/batchacceptor.go:146-217 | in every run each batch that a replica has made has been sent, and names only requests that it holds |
| BatchCommits.CommitsExactlyOnQuorum | batchpaxos/batchacceptor.go:273-305 | after any series of events the next one sends a commit if and only if it is a learn that completes the distinct senders of its batch to a quorum; the commit is that of all learns of the batch |
| BatchUpdate.AlwaysAsked | batchpaxos/batchacceptor.go:310-335 | in every run: a replica with a non-empty commit on record for a batch that is not marked has broadcast an update request for exactly the ranges in which it lacked a request when it handled that commit |
| BatchUpdate.AnswersExactly | batchpaxos/batchacceptor.go:222-243 | an update request is answered, to its sender and with all of the requests, if and only if none of them is missing |
| BatchUpdate.AnswerMarks | batchpaxos/batchacceptor.go:246-268 | whenever the answer is handled, the batch is marked and the process goes on |
| BatchUpdate.AskedIsAnswered | batchpaxos/batchacceptor.go:222-243 | any replica with the requested ranges answers a request that was broadcast, so that the answer may be handled by the replica that asked |
| BatchUpdate.UpdateBringsUpToDate | batchpaxos/batchacceptor.go:222-335 | in every run: a committed batch that a replica cannot mark for want of requests is marked by two messages, through any replica that has the requests of the batch |
| BatchSafety.NextInv | batchpaxos/batchacceptor.go:77-110 | every event of every replica keeps the invariant of the system; in particular no update reply ends the process |
| BatchSafety.ReplyCompletes | batchpaxos/batchacceptor.go:259-267 | an update reply brings the replica up to date |
| BatchSafety.RunInv | batchpaxos/batchacceptor.go:357-382 | the invariant holds in every state of every run whose commits follow one table |
| BatchTheorems.ReplicasAgree | batchpaxos/batchacceptor.go:310-382 | for the same commits and request contents, in any order of arrival and any use of the update protocol, what two replicas execute is prefix-related |
| BatchTheorems.ExecutesTheTable | batchpaxos/batchacceptor.go:357-382 | a replica executes exactly the committed batches below its counter, never a missing request, and never ends the process |
| BatchTheorems.NoBatchLeftDue | batchpaxos/batchacceptor.go:357-382 | in every reachable state no replica rests with a batch that it could execute |
| BatchTheorems.OneLeaderGivesTable | batchpaxos/batchacceptor.go:283-304 | if one replica sends all commits, every batch has at most one |
| BatchTheorems.ReplicasAgreeUnderOneLeader | batchpaxos/batchacceptor.go:273-382 | with one leader replicas agree without any further condition |
| BatchOrder.TilesInBatchOrderIff | batchpaxos/batchacceptor.go:357-382 | once all commits of a leader are executed, a client's requests have run as 0, 1, 2, ... if and only if it was never dropped from a batch point and back, and the commits with its requests were sent in batch order |
| BatchOrder.ExactlyOnce | batchpaxos/batchacceptor.go:357-382 | in every run under one leader: under this guard every replica has at every moment executed each client's requests once and in order, and of a replica that has executed all commits this holds only under the guard |
| BatchOrder.CrossingLearnsReverse | batchpaxos/batchacceptor.go:273-305 | four learns that make a fresh leader commit batch 1 before batch 0 |
| BatchOrder.CrossingLearnsRunBackwards | batchpaxos/batchacceptor.go:283-304 | the client's requests then run from x+1 to y and only then from 0 to x |
| BatchTheorems.ReplyBeforeCommitSkips | batchpaxos/batchacceptor.go:246-265 | an update reply before the commit would mark the batch executed with nothing in it |
| Epochs.CantorInjective | lr/epochgen.go:18-20 | the pairing gives different numbers to different pairs |
| Epochs.PairingIsCantor | lr/epochgen.go:18-20 | the formula numbers the pairs along the diagonals |
| Epochs.Pairing64ExactIff | lr/epochgen.go:18-20 | 64-bit arithmetic gives the exact number if and only if the product does not overflow |
| Epochs.ReplicasShareBase | lr/epochgen.go:7 | two identities of replicas that share their base on 64 bits, and with it all epochs |
| Epochs.EpochGenerator.constructor | lr/epochgen.go:5-7 | a generator with nothing issued, with the 64-bit base of any identity |
| Epochs.EpochGenerator.Next | lr/epochgen.go:8-15 | in 64-bit arithmetic, if the loop ends: the first epoch above the old one from the counter on |
| Epochs.LoopEndsIfFits | lr/epochgen.go:10-13 | the loop ends if an epoch above the old one can be computed without overflow |
| Epochs.LoopNeverEndsAtMaximum | lr/epochgen.go:10-13 | for the largest old epoch the loop never ends |
| Epochs.EpochsRise | lr/epochgen.go:10-13 | up to the overflow the epochs of a generator rise |
| Epochs.NeverRepeats | lr/epochgen.go:5-16 | one generator never returns an epoch twice, up to the overflow |
| Epochs.GeneratorsDisjoint | ringreplacer/epochgen.go:5-16 | on unbounded integers generators of replicas that differ never give a common epoch |
| Epochs.GeneratorsDisjoint64 | ringreplacer/epochgen.go:5-16 | on 64 bits neither, as long as neither the bases nor the two epochs overflow |
| Epochs.ReturnedDisjoint | lr/epochgen.go:5-16 | what two generators of different identities have returned differs, under the same bounds |
| Codec.VarintRoundTrip | kvs/common/reqresp_marsh.go:54-57 | a 64-bit length is read back and takes at most ten bytes |
| Codec.VarintFormat | kvs/common/reqresp_marsh.go:54-57 | a length is written in base 128, lowest digit first, doubled, with the high bit in all bytes but the last |
| Codec.RequestRoundTrip | kvs/common/reqresp_marsh.go:48-112 | Unmarshal after Marshal gives back every request and stops right behind it |
| Codec.StreamRoundTrip | kvs/common/reqresp_marsh.go:48-112 | any series of requests on one wire is read back |
| Codec.RequestFormat | kvs/common/reqresp_marsh.go:48-74 | the bytes of a request in their order: command, key, value, with lengths before them |
| Codec.ResponseFormat | kvs/common/reqresp_marsh.go:147-175 | the bytes of a response in their order: command, value, found flag, error, with the nine stray bytes of an empty value |
| Codec.ResponseRoundTripIff | kvs/common/reqresp_marsh.go:147-217 | a response is given back if and only if its value is not empty or its error is empty |
| Codec.ResponseFramedIff | kvs/common/reqresp_marsh.go:163-164 | what follows a response on the wire is read correctly if and only if its value is not empty |
| Codec.ErrorWithoutValueIsLost | kvs/common/reqresp_marsh.go:163-164 | a response with an error and no value loses its error |
| Wire.PutVarint | kvs/common/reqresp_marsh.go:55-56 | the encoding fills the front of the scratch buffer and leaves the rest |
| Wire.WriteSlice | kvs/common/reqresp_marsh.go:153-162 | length and bytes are written; bs keeps all ten bytes exactly when the slice is empty |
| Wire.ReadVarint | kvs/common/reqresp_marsh.go:190-193 | byte by byte, the value or the failure of the format |
| Wire.ReadSlice | kvs/common/reqresp_marsh.go:190-200 | the slice, an error on a short input, a panic on a negative length |
| Wire.MapRequest.Marshal | kvs/common/reqresp_marsh.go:48-74 | the bytes written are the encoding of the fields |
| Wire.MapRequest.Unmarshal | kvs/common/reqresp_marsh.go:76-112 | the fields and the input left are those of decoding, with the same errors |
| Wire.MapResponse.Marshal | kvs/common/reqresp_marsh.go:147-175 | the bytes written are the encoding of the fields, nine stray bytes included |
| Wire.MapResponse.Unmarshal | kvs/common/reqresp_marsh.go:177-217 | the fields and the input left are those of decoding, with the same errors |
| Nodes.QuorumsMeet | grp/node.go:164 | two sets of acceptors of quorum size share one |
| Nodes.NodeMap.constructor | grp/node.go:144-169 | counts, quorum, epochs and lists of the members; consistent if and only if no two members share a position |
| Nodes.NodeMap.Memoize | grp/node.go:196-227 | the lists hold all members, proposers, acceptors and learners, each once |
| Nodes.NodeMap.LookupNodeWithPaxosID | grp/node.go:271-279 | a member at the position if there is one |
| Nodes.NodeMap.Add | grp/node.go:296-314 | exactly which members are accepted, which rule another breaks, and that the map and its lists stay consistent |
| Nodes.NodeMap.Replace | grp/node.go:316-328 | the member at a position is exchanged and the map and its lists stay consistent |

## Left out

- Network, gob and protobuf encoding, connections, logging, configuration and process start-up.
- Destinations of MultiPaxos messages: any replica may handle any message, so that to whom a promise or a catch-up message is addressed does not matter.
- Timers and failure detection: ticks and trust messages are arbitrary events.
- Membership change, process restart and loss of state; `SetNextSlot`, `SetOwner` and the group-manager holds.
- The handlers for reconfiguration are modelled per call; the cluster runs on the plain ones.
- The catch-up, advance and learn-value functions ending in `Lr`: they repeat the plain ones on the other slot type.
- Merging of epoch promises in `lr/` and of state in `arec/`: the Live Replacement model stops at the validity of quorums, and no agreement across a change of members is claimed.
- The proposer and acceptor of `parallelpaxos/`, the broadcast protocols `reliablebc/` and `authenticatedbc/`, the server and the clients.
- Go slot pointers: a slot is a value in its map, and every update is written back at once, so aliasing of slots outside the map is not captured.
- Slot numbers, rounds, adu and batch numbers are unbounded; the original counts them on 32 or 64 bits.
- Sequence number 2^32-1 of a client, for which the loops over a range in batchpaxos/batcher.go do not end.
- Execution time records of BatchPaxos, which only its logging reads.
- Combinations.CombinationIterator.constructor: the binomial coefficient is unbounded here, while the original cuts the big integer to 64 bits.
- Combinations.CombinationIterator.Next: requires r >= 1, since the original indexes position r-1 and panics on empty combinations.
- BatchTheorems.ReplicasAgree: conflicting commits of several leaders for one batch are excluded by the common table, as nothing in the source prevents them.
- Wire.ReadSlice: lengths for which the allocation itself fails are not told apart from lengths longer than the input.
- Acceptors.CopyAccSlotMapRange: the original copies slot pointers, so that a slot in the copy and in the source is one object that later votes change in both; here the copy has its own slots.
- Acceptors.MultiAcceptor.HandleStateRequest: the same sharing of slots is not modelled.
- Epochs.EpochGenerator.Next: requires that the loop ends, since the original hangs otherwise; `Epochs.LoopEndsIfFits` and `Epochs.LoopNeverEndsAtMaximum` say when it does and does not.
- Nodes.NodeMap.constructor: requires positions below the number of members, since the original panics on others.
