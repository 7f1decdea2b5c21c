# A Viewstamped Replication server, modelled and verified

This project models a key-value store replicated with Viewstamped Replication Revisited:
n replicas keep a log each, a primary orders client requests, backups acknowledge them, a
view change elects the next primary and recovery brings back a replica that has fallen
behind. It proves what that protocol is for, first of all that replicas never disagree on
what they have executed, and it goes down to the bytes that carry the messages.

The model has four layers.

1. **The protocol.** `Types`, `Execution` and `Handlers` give each handler of a replica as a
   guard and a function from a state and a message to a new state and what is sent.
   `Cluster` puts n replicas on a network that loses and reorders messages and delivers
   each at most once, with client requests, heartbeats, view changes and recoveries as
   steps that may happen at any time. `History`, `Invariant`, `Preservation` and `Steps`
   hold the inductive invariant; `Safety` draws the theorems from it. `Progress` has what
   holds for any cluster size and however recoveries end. `ThreeReplicas` shows that three
   replicas need no condition on recovery; `Fallback` shows, for every odd size above three,
   a run in which recovery breaks agreement. `Replays`, `ClusterReplay`, `RecoveredState` and
   `RequestOrder` relate the maps and logs of the replicas to the sequential meaning of the
   operations; `KeyValue` says what that meaning is, in bytes of keys, values and answers, and
   `ClientView` and `RecoveredReplies` what the clients of a running cluster see of it. `Laws`
   says field by field what handling each message comes to, `Snapshots` that messages report
   the state their sender was in, and `Pending` when a replica leaves a committed operation
   unexecuted.
2. **One replica.** `Replica` is the object: its methods update its state in place, with the
   loops that the server has, and each is proved to do exactly its pure step. `Queue` has
   the properties of the queue loop, and `QueueSteps` shows that working through a queue is
   taking steps of the cluster.
3. **The framer.** `Framer` cuts the byte stream of a connection into messages.
4. **The codecs.** `LittleEndian`, `LogCodec`, `Payloads` and `VsrMessage` are the binary
   forms; `Transfer` joins them to the protocol: what a replica sends is what its peer
   handles, as long as it fits in a frame.

Agreement and the properties beside it are proved for every run of an odd-sized cluster in
which no completed recovery falls back within its own view (`Safety.SafeRun`). Every run
without recovery is such a run (`ClusterReplay.WithoutRecoveryIsSafe`), and so is every run
of three replicas, recoveries included (`ThreeReplicas.EveryRunIsSafe`). The condition is
needed: for every odd size of five or more, `Fallback.RecoveryBreaksAgreement` builds a run
at whose end two replicas have executed different operations, so that every run of an odd
cluster agrees exactly when it has at most three replicas (`Fallback.AgreesExactlyUpToThree`).
By `Fallback.DisagreementNeedsFallback` disagreement never comes from anything else. The
condition is the test a recovering replica could make before it adopts a state: the state
is of a later view, or its log is at least as long.

That a replica has executed everything it has logged and knows to be committed is not true at
every moment: when a heartbeat overtakes a prepare, the backup appends the operation with no
news of commits and does not execute it until its commit number rises again
(`Pending.HeartbeatOvertakesPrepare`). `Pending.EverBehindExactly` says when it is true: exactly
as long as no operation is appended that the replica's commit number had already passed.

Every lemma turns automatic induction off, so that each proof is the one written down.
`dafny verify dfyconfig.toml` checks the project.

## Model

| member | source | states |
|---|---|---|
| Safety.Agreement | src/server/replica.cpp:286-537 | Two replicas, at any two moments of a run with any number of view changes, hold the same operation at every number both have executed |
| ThreeReplicas.AgreementOfThree | src/server/server_main.cpp:13-35 | The same without conditions for the shipped cluster of three, over every run with any view changes and recoveries |
| ThreeReplicas.EveryRunIsSafe | src/server/replica.cpp:567-629 | With one or three replicas no completed recovery ever falls back, so every run is safe |
| ThreeReplicas.RecoveryGoesForward | src/server/replica.cpp:585-606 | Of three replicas, one that recovers hears from both others, one of which is at least as far as it was |
| ClusterReplay.WithoutRecoveryIsSafe | src/server/replica.cpp:286-537 | Every run of an odd cluster without a recovery step meets the hypothesis of the safety theorems |
| Fallback.AgreesExactlyUpToThree | src/server/replica.cpp:585-606 | An odd cluster agrees in every run, recoveries included, if and only if it has at most three replicas |
| Fallback.RecoveryBreaksAgreement | src/server/replica.cpp:585-606 | Agreement fails in every odd cluster of five or more: a run in which a recovering replica adopts a state behind what it acknowledged, and two replicas execute different first operations |
| Fallback.DisagreementNeedsFallback | src/server/replica.cpp:585-606 | In any odd cluster, disagreement comes only after a recovery that adopted a shorter log of its own view |
| Safety.LeaderCompleteness | src/server/replica.cpp:417-474 | An operation that f+1 replicas held in one view is, unchanged, in every log of every later view |
| History.ChosenPersists | src/server/replica.cpp:417-474 | By induction over views and intersection of quorums, what a quorum held in one view is in the starting log of every later view |
| Quorums.QuorumsMeet | src/server/replica_state.hpp:50-53 | Two sets of f+1 replicas out of 2f+1 have a member in common |
| Safety.ExecutedPrefixStable | src/server/replica.cpp:453-522 | No step but the completion of a recovery lowers what a replica has executed or changes any executed entry, even when the whole log is replaced or the commit number lowered |
| Safety.OneLogPerView | src/server/replica.cpp:249-301 | Replicas whose logs are of the same view have the same operation at every number both hold, at any two moments |
| Safety.PrimaryIsLongest | src/server/replica.cpp:249-273 | No replica's log of a view is longer than that of the view's primary |
| Safety.ExtendsStartView | src/server/replica.cpp:460-511 | Every log of a view extends the log that the view's StartView carries |
| Safety.CommitSoundness | src/server/replica.cpp:777-807 | Every operation at or below a replica's commit or execution number was held, in one view no later than the replica's, by f+1 different replicas |
| Safety.SameEntryHeld | src/server/replica.cpp:322-345 | Those replicas held exactly the entry that the replica has under that number |
| Safety.MessageCommitSoundness | src/server/replica.cpp:356-364 | The same for every commit number carried by a message in flight |
| Safety.AcksAreOfThisView | src/server/serialization.cpp:8-22 | An acknowledgement on record was given in the very view of the log that records it; none survives a change of view |
| Safety.DoViewChangeIssuedOnce | src/server/replica.cpp:378-403 | A replica issues at most one DoViewChange for a view although it clears the set it counts |
| Safety.CollectedAreDistinct | src/server/replica.cpp:422-428 | The DoViewChange messages collected for a view are of that view and from different replicas, though nothing removes duplicates |
| Snapshots.MessagesAreSnapshots | src/server/replica.cpp:383-394 | In every run of any cluster, recoveries included, every message in flight between replicas reports a state that its sender was in: view, op, commit number, log, last normal view and nonce of a Prepare, PrepareOk, Commit, StartViewChange, DoViewChange, StartView, recovery request or recovery response are the sender's own |
| Snapshots.ResponsesAnswerRequests | src/server/replica.cpp:539-565 | Every recovery response in flight answers a request delivered to its sender, by the replica it goes to, under that request's nonce |
| Snapshots.HandlerReports | src/server/replica.cpp:229-565 | Whatever a handler sends to other replicas reports the state the handler leaves |
| Pending.EverBehindExactly | src/server/replica.cpp:316-362 | In every run of any cluster, recoveries included, a replica is at some moment behind with an operation it has and knows to be committed if and only if some step appends an operation its commit number had already passed, without news of commits |
| Pending.ExecutesWhatIsCommitted | src/server/replica.cpp:316-362 | A replica whose commit number has never run ahead of its log has, at every moment, executed up to the commit number or to the end of its log |
| Pending.HeartbeatOvertakesPrepare | src/server/replica.cpp:316-362 | A run of three in which a heartbeat overtakes a prepare and the backup is left with an unexecuted operation it knows to be committed |
| Pending.BehindExactly | src/server/replica.cpp:229-629 | For every message: after handling it the replica is behind if and only if the message does not let it execute and it was behind before or the appended operation was already known to be committed |
| Pending.BackupsLearn | src/server/replica.cpp:286-364 | After a Prepare or Commit the commit number is the higher of the two, and if that is news everything logged and committed has been executed |
| Progress.ActivatedOnce | src/server/replica.cpp:453-456 | A replica ends the change into a view at most once |
| Progress.ViewsNeverDecrease | src/server/replica.cpp:95-104 | Over every run, recoveries included and for any cluster size, no replica's view goes back, and a view once normal is not changed into again |
| Progress.StepAdvances | src/server/replica_state.hpp:67-76 | View change and recovery are entered only from the normal status, a view change moves to the next view, and in it the last normal view is behind |
| Progress.StatusInRun | src/server/replica.cpp:583-611 | At every moment of every run the last normal view is below the view during a view change, and every stored recovery response is of a view at least the replica's own |
| Progress.ExecutedGrows | src/server/replica.cpp:631-689 | Only completing a recovery lowers the execution counter |
| Progress.LogsAreNumbered | src/server/replica.cpp:249-301 | Every log of every replica and every log in flight has exactly the operations 1 to op, at every moment of every run |
| ClusterReplay.ReplicatedStateIsReplay | src/server/replica.cpp:631-689 | If no request is submitted twice and nobody recovers, every replica's map is the replay of its executed operations from the empty map, and the skip test drops none; `KeyValue.LastWriteWins` says what the replay holds |
| ClusterReplay.RepliesAreSequential | src/server/replica.cpp:670-683 | Under the same hypothesis every reply sent on execution carries the sequential result of its operation, and every operation that a primary connected to its client executes is answered |
| ClientView.ReplicasHoldLastWrites | src/server/replica.cpp:656-659 | At every moment of such a run every key of every replica's map has the value of the last executed SET of it, and there are no other keys |
| ClientView.RecoveredHoldLastWrites | src/server/replica.cpp:603-689 | With recoveries, in every safe run, each key that an executed operation sets has the value of the last to set it, and there are no other keys once the replica has caught up |
| ClientView.ThreeHoldLastWrites | src/server/server_main.cpp:13-35 | The same for every run of three replicas |
| ClientView.RepliesAreRight | src/server/replica.cpp:656-683 | In every run without recoveries and resubmissions a SET is answered "SET key=value", a GET with the value of the last SET of its key before it in the log or "NOT_FOUND", anything else with nothing; everything a connected primary executes is answered, and nothing else is |
| RecoveredReplies.NewRepliesAreRight | src/server/replica.cpp:603-689 | With recoveries, in every safe run without resubmissions, every reply sent on execution answers an executed operation, and rightly unless the replica had executed that far before and the operation is a GET of a key that nothing before it sets |
| RecoveredReplies.RepliesOfThreeAreRight | src/server/server_main.cpp:13-35 | The same for every run of three replicas |
| ClientView.RepetitionsAreAnswered | src/server/replica.cpp:236-247 | At any moment of such a run a repetition of a request that the client table has as executed is answered with the answer of its execution and changes nothing |
| KeyValue.FirstWordExactly | src/server/replica.cpp:652-661 | Reading a word skips blanks and takes the longest run of other bytes, and there is no other reading |
| KeyValue.ApplyExactly | src/server/replica.cpp:656-662 | An operation's effect, and only it: byte 1 stores the second word under the first and answers "SET key=value", byte 3 leaves the map and answers the key's value or "NOT_FOUND", any other byte leaves the map and answers nothing |
| KeyValue.ExecuteOneExactly | src/server/replica.cpp:643-687 | One turn of the loop: skipped if the client is marked executed for the request, otherwise the map, the client's entry, the counter and the reply are as the operation means them |
| KeyValue.SetStores | src/server/replica.cpp:656-659 | Executing SET with payload key, space, value leaves the value under the key, every other key alone, and answers "SET key=value" |
| KeyValue.GetAnswers | src/server/replica.cpp:660-662 | Executing GET leaves the map and answers the key's value or "NOT_FOUND" |
| KeyValue.LastWriteWins | src/server/replica.cpp:633-688 | Replaying the first k operations of any log leaves each key with the value of the last of them to set it, and no other key |
| KeyValue.SequentialIsRight | src/server/replica.cpp:656-662 | The sequential result of an operation of any log is the right answer to it, in terms of the writes before it |
| KeyValue.RightIsUnique | src/server/replica.cpp:656-662 | There is one right answer |
| KeyValue.RightOverExactly | src/server/replica.cpp:603-624 | Executing a log over a map that was not cleared gives an operation its right answer if and only if it is not a GET of a key that nothing before it sets and the map already holds with another value than "NOT_FOUND" |
| KeyValue.RepeatedAfterExecution | src/server/replica.cpp:236-247 | A request repeated after its execution gets the same answer again |
| Replays.NeverSkipped | src/server/replica.cpp:646-648 | With distinct requests in the log the next operation is never taken for one already executed |
| Replays.ExecuteFaithful | src/server/replica.cpp:631-689 | Execution keeps the map equal to the replay of the executed prefix over whatever map it began with |
| RecoveredState.RecoveredStateIsReplay | src/server/replica.cpp:603-689 | In every safe run without resubmissions, recoveries included, every key that a replica's executed operations write has its sequential value at every moment, and the whole map is the sequential replay whenever the replica has executed as much as it ever had |
| RecoveredState.StateOfThreeIsReplay | src/server/server_main.cpp:13-35 | The same for every run of three replicas |
| Replays.RecoveryReplayExact | src/server/replica.cpp:603-624 | Re-executing a recovered log from its first operation over the uncleared map gives the map of a replay from empty if and only if the operations that the response's commit number and log allow write every key the map already had |
| Replays.RecoveryReplay | src/server/replica.cpp:603-624 | That is so when the recovered log extends what was executed and the recovered commit number covers it |
| Replays.RecoveryFallsShort | src/server/replica.cpp:593-607 | A recovered commit number below what was executed leaves a map that is not the replay of what counts as executed |
| Replays.ReplayOverMap | src/server/replica.cpp:633-688 | Replaying operations over a map is the same as replaying them from empty exactly when they write all its keys |
| Replays.ReplayOverPrefix | src/server/replica.cpp:633-688 | Replaying operations over the map of a prefix of them is the same as replaying them from empty |
| RequestOrder.AppendedAtMostOnce | src/server/replica.cpp:229-261 | At a primary staying in its view whose client table covers its ordered log and whose unexecuted operations are each their client's last, any repetition and reordering of requests keeps each client's logged request numbers strictly increasing, if the client waits for its logged requests before it numbers a new one |
| RequestOrder.OutOfOrderExactly | src/server/replica.cpp:232-257 | A request leaves the log in order if and only if the table does not take it for new or the client has logged nothing as high |
| RequestOrder.UncoveredExactly | src/server/replica.cpp:644-668 | Executing an operation keeps the client table above the log if and only if it is skipped or is its client's last logged one |
| RequestOrder.RepeatedAtNewPrimary | src/server/replica.cpp:453-456 | A new primary logs a repetition of a request in its adopted log again exactly when its own table, which it does not rebuild, does not know it |
| RequestOrder.PipelinedRequestLoggedTwice | src/server/replica.cpp:665-668 | A run without the discipline in which execution lowers the client's number and a repeated request is logged again |
| Types.PrimaryFunctionsAgree | src/server/replica_state.hpp:59-84 | The two ways of computing a view's primary agree in all views exactly when the cluster size is odd |
| Laws.NewPrimary | src/server/replica.cpp:417-474 | With f+1 DoViewChange messages the new primary takes the log of the latest normal view, the longest of those and the first of equals, and the highest of its own and all collected commit numbers; StartView announces exactly these, and execution follows |
| Laws.NotYetPrimary | src/server/replica.cpp:422-424 | Short of f+1 DoViewChange messages the message is only kept |
| Laws.JoinsView | src/server/replica.cpp:491-537 | On StartView a replica takes the announced view, numbers and log, raises its client table to that log, executes, and acknowledges the operations above the announced commit number, once each and in order, to the view's primary |
| Laws.DamagedStartView | src/server/replica.cpp:499-503 | A StartView whose payload does not decode is ignored |
| Laws.NoteLogExactly | src/server/replica.cpp:514-520 | Every client of an adopted log has the highest of its requests, is marked not executed if that raised its number, and keeps its result; other entries stay |
| Laws.Recovers | src/server/replica.cpp:567-629 | Responses that do not decode or have another nonce do nothing; at the quorum the replica takes view, numbers and log of the response of the highest view, the longest of those and the first of equals, builds its table from that log alone and executes from the first operation |
| Laws.AnswersRecovery | src/server/replica.cpp:539-565 | A recovery request of any view is answered by a normal replica with its view, op, commit number and log under the request's nonce |
| Laws.AdmittedExactly | src/server/replica.cpp:94-204 | Which messages are discarded and which are handled, by view, status and role, for every state and message |
| Laws.StuckExactly | src/server/replica.cpp:738-775 | When a message that waits makes a normal replica join the next view change or recover |
| Laws.NewRequest | src/server/replica.cpp:249-274 | A new request becomes the next operation, acknowledged by the primary alone, and is announced with the primary's commit number |
| Laws.RepeatedRequest | src/server/replica.cpp:232-247 | An older request does nothing, the client's last is answered with the result on record |
| Laws.RequestZero | src/server/replica.cpp:231-247 | Request number 0 of an unknown client is taken for a repeated one and answered with nothing |
| Laws.Prepares | src/server/replica.cpp:286-320 | A backup appends the operation, acknowledges it, takes a higher commit number and then executes |
| Laws.CountsAcknowledgement | src/server/replica.cpp:329-345 | An acknowledgement is recorded, the commit number moves over all that f+1 replicas have acknowledged, and execution follows |
| Laws.LearnsCommit | src/server/replica.cpp:356-364 | A higher commit number is taken and followed by execution, any other ignored |
| Laws.Heartbeats | src/server/replica.cpp:691-701 | A normal primary's heartbeat carries its view and commit number to all others |
| Laws.AnswersPing | src/server/replica.cpp:208-219 | A ping is answered where it came from, with the replica's view |
| Laws.Votes | src/server/replica.cpp:371-407 | At f+1 votes the replica's whole state is reported to the new primary; with fewer the vote is counted |
| Laws.LeavesView | src/server/replica.cpp:703-712 | The next view is entered with the replica's own vote and announced |
| Laws.BeginsRecovery | src/server/replica.cpp:714-736 | A replica that is not recovering asks all others under the new nonce and forgets older responses |
| Execution.Execute | src/server/replica.cpp:631-689 | Execution moves only its own state, over operations committed and present, stops only when there is none left, and sends only replies of the present view |
| Handlers.AdvanceCommit | src/server/replica.cpp:783-802 | The commit number passes exactly the operations that f+1 replicas have acknowledged and stops at the first that is missing or short |
| Handlers.OksInOrder | src/server/replica.cpp:524-536 | Exactly the logged operations above the new primary's commit number are acknowledged to it, once each and in order |
| Queue.QueueIsFifo | src/server/replica.cpp:87-168 | What the loop took, in order, and what it left make up the queue; only the start of a recovery takes more than the front |
| Queue.EndsSettled | src/server/replica.cpp:151-166 | If the loop ends normal with messages left, the front one is not stale, not processable and calls for no action |
| Queue.FrontWaits | src/server/replica.cpp:87-168 | Whatever the status at the end, the front of what is left cannot be processed, except that a loop which did nothing but leave its view over the front message leaves that message there |
| Queue.QueueExplained | src/server/replica.cpp:87-168 | Every event of the loop is admitted by its guard where it happens, and the events account for the final state and for all that was sent |
| Queue.QueueAdvances | src/server/replica.cpp:87-168 | Processing a queue never takes a replica to an earlier view and keeps the status invariant |
| Queue.RecoveryComesLast | src/server/replica.cpp:155-159 | A recovery is begun at most once while a queue is processed, nothing follows it, and it empties the queue |
| QueueSteps.QueueIsSteps | src/server/replica.cpp:87-168 | Processing a queue of messages from peers and of client requests, pings and pongs is a sequence of cluster steps of this replica alone, to the state the loop reaches, trading what it took for what it sent |
| Replica.Replica.constructor | src/server/replica_state.hpp:34-57 | A replica starts normal in view 0 with everything empty |
| Replica.Replica.ExecuteNext | src/server/replica.cpp:643-687 | One turn of the execution loop is the pure execution step, which `KeyValue.ExecuteOneExactly` spells out |
| Replica.Replica.ApplyEntry | src/server/replica.cpp:651-662 | The map and the result after one entry are what the operation means |
| Replica.Replica.ExecuteCommittedOps | src/server/replica.cpp:631-689 | The execution loop is `Execution.Execute`, and ends |
| Replica.Replica.AdvancePrimaryCommitNumber | src/server/replica.cpp:777-807 | The commit loop is `Handlers.AdvanceCommit` followed by execution, and ends |
| Replica.Replica.HandleRequest | src/server/replica.cpp:229-275 | Old requests ignored, the current one answered from the table, a new one appended and prepared: exactly the cluster's step |
| Replica.Replica.HandlePrepare | src/server/replica.cpp:286-320 | The backup appends, acknowledges, then takes a higher commit number and executes: exactly the cluster's step, which `Laws.Prepares` spells out |
| Replica.Replica.HandlePrepareOk | src/server/replica.cpp:329-345 | The acknowledgement is recorded and the commit number advanced: exactly the cluster's step |
| Replica.Replica.HandleCommit | src/server/replica.cpp:356-364 | A higher commit number is taken, even above op, and what it allows is executed: exactly the cluster's step, which `Laws.LearnsCommit` spells out |
| Replica.Replica.SendCommitMessageIfNeeded | src/server/replica.cpp:691-701 | Only a normal primary broadcasts its commit number |
| Replica.Replica.EnterNewView | src/server/replica_state.hpp:67-76 | The last normal view is kept from the normal status only, and the received sets restart with this replica's own vote |
| Replica.Replica.InitiateViewChange | src/server/replica.cpp:703-712 | The next view is entered and announced: exactly the cluster's step |
| Replica.Replica.CheckPrimaryLiveness | src/server/replica.cpp:63-76 | Only a normal backup whose timer has run out starts a view change |
| Replica.Replica.HandleStartViewChange | src/server/replica.cpp:371-407 | At a quorum the set is cleared and the DoViewChange sent, or handled here by the new primary: exactly the cluster's step |
| Replica.Replica.SelectLog | src/server/replica.cpp:430-451 | The loop over the collected messages finds the log of the latest normal view, the longest of those and the first of equals, and the highest of its own and all collected commit numbers |
| Replica.Replica.HandleDoViewChange | src/server/replica.cpp:417-474 | At a quorum the best log and the highest commit number are adopted, announced and executed: exactly the cluster's step, which `Laws.NewPrimary` spells out |
| Replica.Replica.NoteEntries | src/server/replica.cpp:514-520 | The loop over the adopted log raises the client table's request numbers in order of the log |
| Replica.Replica.AcknowledgeAbove | src/server/replica.cpp:524-536 | The loop acknowledges the logged operations above the announced commit number |
| Replica.Replica.HandleStartView | src/server/replica.cpp:491-537 | The announced state is adopted, executed and acknowledged, or ignored if it does not decode: exactly the cluster's step |
| Replica.Replica.InitiateRecovery | src/server/replica.cpp:714-736 | A recovery is begun with a fresh nonce unless one is under way: exactly the cluster's step |
| Replica.Replica.HandleRecoveryRequest | src/server/replica.cpp:539-565 | A request that decodes is answered with the whole state, the commit number included, under its nonce, as `Laws.AnswersRecovery` spells out |
| Replica.Replica.SelectResponse | src/server/replica.cpp:588-597 | The loop finds the response of the highest view, the longest of those and the first of equals |
| Replica.Replica.HandleRecoveryResponse | src/server/replica.cpp:567-629 | Responses under other nonces are ignored; at a quorum the best is adopted and executed from the start: exactly the cluster's step |
| Replica.Replica.DrainQueue | src/server/replica.cpp:92-149 | The inner loop discards stale and handles processable messages from the front until one must wait, and ends |
| Replica.Replica.React | src/server/replica.cpp:151-166 | The message that waits starts a recovery, which clears the queue, or a view change, or nothing |
| Replica.Replica.Receive | src/server/replica.cpp:35-45 | An arriving message goes to the end of the queue, which is then processed |
| Replica.Replica.ProcessMessageQueue | src/server/replica.cpp:87-168 | The outer loop ends for every queue and state and does what `Queue.ProcessQueue` says |
| Framer.ChunkingDoesNotMatter | src/server/protocol_handler.cpp:32-84 | For every stream and every split into chunks the messages delivered, the open or closed outcome and the bytes left are those of one chunk |
| Framer.PumpSettles | src/server/protocol_handler.cpp:42-64 | What the loop leaves in a buffer is never a whole message, which is what independence of chunking asks of it |
| Framer.FramesDelivered | src/server/protocol_handler.cpp:40-83 | The frames of any messages of at most 65536 bytes, however cut, deliver exactly those messages in order and leave nothing |
| Framer.NothingLostOrInvented | src/server/protocol_handler.cpp:61-83 | While the connection is open the bytes received are exactly the frames of the messages delivered and then the buffer |
| Framer.DeliveredIffShort | src/server/protocol_handler.cpp:52-59 | A frame is delivered if it is at most 65536 bytes long and otherwise closes the connection |
| Framer.Inspect | src/server/protocol_handler.cpp:42-79 | The checks on the front of the buffer, in order, give exactly wait, reject or deliver |
| Framer.FrontExactly | src/server/protocol_handler.cpp:42-79 | In bytes: a size field outside 1 to 65536 or a frame with a wrong checksum closes, fewer bytes than announced wait, an intact frame is delivered |
| Framer.DamagedFrameCloses | src/server/protocol_handler.cpp:70-79 | A damaged frame closes the connection, whatever follows it, after every message before it has been delivered |
| Framer.ProtocolHandler.HandleRawData | src/server/protocol_handler.cpp:32-84 | The loop appends, delivers and erases as `Framer.Feed` says, touches no other connection's buffer, ignores a closed socket, closes on a protocol error, and never leaves a whole message in a buffer |
| Framer.ProtocolHandler.OnDisconnect | src/server/protocol_handler.cpp:26-30 | A disconnected socket's buffer alone is dropped |
| LittleEndian.ReadWritten | src/server/serialization.hpp:11-23 | Reading an integer back from its bytes, with anything behind, gives it and leaves the rest |
| LittleEndian.BytesOfValue | src/server/serialization.hpp:17-23 | Any bytes are those of the integer they are read as |
| LittleEndian.ByteAt | src/server/serialization.hpp:11-15 | Byte i of an integer counts multiples of 256 to the i |
| LogCodec.RoundTrip | src/server/serialization.cpp:3-56 | Reading an encoded log with any tail gives the log with every acknowledgement set emptied and leaves the cursor at the tail |
| LogCodec.TruncationRejected | src/server/serialization.cpp:25-56 | Every strict prefix of an encoded log is rejected |
| LogCodec.ReadConsumes | src/server/serialization.cpp:25-56 | A successful read of any bytes consumes at least 8 + 41 times the declared number of entries |
| LogCodec.EncodingIsInjective | src/server/serialization.cpp:3-23 | Two logs have the same encoding exactly when they differ in acknowledgements alone |
| LogCodec.EncodedSize | src/server/serialization.cpp:3-23 | An encoded log takes 8 bytes and 41 plus the payload for each entry |
| LogCodec.EntryLayout | src/server/serialization.cpp:9-21 | Key, view, operation, client, request, payload length and payload are at bytes 0, 8, 12, 13, 29, 33 and 41 of an entry |
| LogCodec.WriteLog | src/server/serialization.cpp:3-23 | The writing loop appends exactly the encoding |
| LogCodec.TakeLog | src/server/serialization.cpp:25-56 | The reading loop, from any bytes, gives the reader's verdict, the entries read so far and the cursor |
| Payloads.DoViewChangeRoundTrip | src/server/view_change_messages.cpp:7-21 | A DoViewChange payload arrives with its last normal view and its log without acknowledgements |
| Payloads.StartViewRoundTrip | src/server/view_change_messages.cpp:23-34 | A StartView payload arrives with its log without acknowledgements |
| Payloads.RecoveryRequestRoundTrip | src/server/recovery_messages.cpp:4-15 | A recovery request arrives with its nonce |
| Payloads.RecoveryResponseRoundTrip | src/server/recovery_messages.cpp:17-29 | A recovery response arrives with its nonce and its log without acknowledgements |
| Payloads.CutDoViewChangeRejected | src/server/view_change_messages.cpp:15-21 | A DoViewChange payload that has lost any of its end does not decode |
| Payloads.CutRecoveryResponseRejected | src/server/recovery_messages.cpp:24-29 | A recovery response payload that has lost any of its end does not decode |
| Payloads.SerializeDoViewChange | src/server/view_change_messages.cpp:7-12 | The buffer is the last normal view in four bytes and then the log |
| Payloads.DeserializeDoViewChange | src/server/view_change_messages.cpp:15-21 | The moving cursor reads what the payload decodes to, and its failures |
| Payloads.SerializeRecoveryResponse | src/server/recovery_messages.cpp:17-22 | The buffer is the nonce and then the log |
| Payloads.DeserializeRecoveryResponse | src/server/recovery_messages.cpp:24-29 | The moving cursor reads what the payload decodes to, and its failures |
| VsrMessage.HeaderRoundTrip | src/common/vsr_message.hpp:34-52 | The packed 128-byte header gives back every field |
| VsrMessage.HeaderBytes | src/common/vsr_message.hpp:34-52 | Any 128 bytes are the header they are read as |
| VsrMessage.HeaderLayout | src/common/vsr_message.hpp:34-52 | The offset of every field of the header |
| VsrMessage.MessageRoundTrip | src/common/vsr_message.cpp:48-109 | For every hash, what is deserialized is what was serialized with only size and checksums replaced, and serializing it again gives the same bytes |
| VsrMessage.AcceptedIffSent | src/common/vsr_message.cpp:79-109 | Bytes deserialize to a message exactly when they are its serialization and it carries its own size and checksums; `VsrMessage.AcceptedExactly` says which those are |
| VsrMessage.AcceptedExactly | src/common/vsr_message.cpp:79-109 | Bytes are accepted if and only if their size field is their number, their first field the hash of the header with that field zeroed and their second the hash of the payload, or zero without one |
| VsrMessage.AcceptedBody | src/common/vsr_message.cpp:25-31 | An accepted message carries the hash of its payload |
| VsrMessage.SentIsIntact | src/common/vsr_message.cpp:48-67 | What is serialized has the right size and both hashes, and the payload unchanged behind the header |
| VsrMessage.ChangedPayload | src/common/vsr_message.cpp:25-31 | A payload changed on the way is accepted if and only if it is as long and has the same hash |
| VsrMessage.ChangedHeader | src/common/vsr_message.cpp:34-45 | A header changed on the way, its checksum apart, is rejected if its hash has changed |
| VsrMessage.Serialize | src/common/vsr_message.cpp:48-67 | The buffer has the right size and the hashes of its payload and of its zeroed header, with the payload unchanged behind the header: exactly the encoding |
| VsrMessage.Deserialize | src/common/vsr_message.cpp:79-109 | Into a fresh message, it succeeds exactly when the size field, the hash of the zeroed header and the hash of the payload are right |
| Transfer.WireRoundTrip | src/server/protocol_handler.cpp:66-72 | Every message whose fields fit their widths reaches the handlers as the message that was sent |
| Transfer.FrameLayout | src/common/vsr_message.hpp:11-52 | The offset of each field a replica fills in, and the number of each command, in the bytes that are sent |
| Transfer.ArrivesIffShort | src/server/protocol_handler.cpp:50-59 | A message arrives unchanged exactly when its frame is at most 65536 bytes; a longer one closes the connection |
| Transfer.LogMessagesFit | src/server/replica.cpp:383-394 | The messages that carry a log carry the encoding of the state's log, and fit the fields of the wire |
| Transfer.DoViewChangeTransfer | src/server/view_change_messages.cpp:7-12 | A DoViewChange arrives exactly when 128 + 4 + 8 and 41 plus the payload of each entry come to at most 65536; never with more than 1595 entries |
| Transfer.StartViewTransfer | src/server/view_change_messages.cpp:23-27 | A StartView arrives exactly when 128 + 8 and 41 plus the payload of each entry come to at most 65536; never with more than 1595 entries |
| Transfer.RecoveryResponseTransfer | src/server/recovery_messages.cpp:17-22 | A recovery response arrives exactly when 128 + 16 + 8 and 41 plus the payload of each entry come to at most 65536; never with more than 1594 entries |
| Transfer.BoundsAreExact | src/server/serialization.cpp:3-23 | With empty payloads logs of 1595, 1595 and 1594 entries still pass |

## Left out

- Sockets, the kernel ring, reconnection and handshakes: the network is a multiset of packets from which any may be lost.
- Restart of a process with lost memory, which comes up normal in view 0: replicas in the model never lose their state.
- RecoveredReplies.NewRepliesAreRight: does not promise the right answer to a GET of a key that nothing before it sets when a recovered replica executes it again, because re-execution goes over the uncleared map; `KeyValue.RightOverExactly` has the exact condition.
- Even cluster sizes in the safety theorems: with them quorums of f+1 need not meet, and the two primary functions differ.
- Wrap-around of view, op, commit and request numbers in the protocol layer, and truncation of a replica number to a byte: counters are unbounded there, and the codecs carry the field widths.
- Liveness and timing: heartbeats, timeouts and progress behind a blocked queue head; timers are steps that may fire at any time.
- BLAKE3: the hash is any function from bytes to 128 bits, and no collision resistance is claimed.
- Clock-based nonces: a recovery takes a nonce that no earlier recovery took.
- The overflow of `ptr + payload_size` for absurd payload lengths: the reader compares unbounded numbers.
- The value of a DoViewChange's last normal view when its payload is shorter than four bytes, which the code leaves uninitialised: it is read as 0.
- The client program, the server's start-up and logging.
- Replica.Replica.HandleDoViewChange: works on the decoded bodies of the collected messages instead of decoding each payload again; the codec theorems say that this is what decoding gives.
- Replica.Replica.constructor: the replica's state is one record-valued field that methods update in place, not a second object.
- Fallback.DisagreementNeedsFallback: a recovery that falls back does not always lead to disagreement, so the condition is necessary for disagreement and not sufficient.
- RequestOrder.AppendedAtMostOnce: starts from an orderly client table, which a new primary need not have; `RequestOrder.RepeatedAtNewPrimary` says exactly when that matters.
- Messages of the kinds that replicas exchange, sent by something that is not a replica: clients in the model send requests, pings and pongs.
