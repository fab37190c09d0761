# Verification of the distributed-systems labs

This project models four programs of the repository in Dafny and proves what they are for.

- **Raft** (`Lab2_Raft/Part2C/raft.go`). `RaftHandlers.dfy` says what one critical section of a peer computes;
  `RaftServer.dfy` writes the peer as a class, loop for loop, and proves that each method computes exactly that.
  `RaftCluster.dfy` composes the steps into runs of n servers over a network that is a growing set of messages (so
  messages are lost, delayed, repeated and reordered at will), with crashes that keep only what was persisted.
  `RaftInvariant.dfy` to `RaftSafety.dfy` prove the safety theorems of the Raft paper (extended version, sections 5.2
  to 5.4) over all runs, and `RaftCommit.dfy` that the counters are not only sound but exact. `RaftLaws.dfy` says what each
  handler does in terms of fields and messages alone: when it grants, accepts and counts, whom it calls and what it tells
  them. `RaftElectable.dfy` and `RaftProgress.dfy` prove that every reachable state of two servers or more can still
  elect a leader, and then commit any command and deliver it at every server.
- **The accelerated nextIndex backup** (`Backup.dfy`): the conflict report, `getNextIndex` and the `retry` loop stop
  where a one-by-one search stops, and the number of rejections is bounded by the terms in the follower's log.
- **The compacted log** (`Lab3_KV_Raft/PartB/raft/raft.go`): `TrimmedLog.dfy` proves the handlers on a trimmed log a
  refinement of the untrimmed ones, and says exactly when installing a snapshot is right; `TrimmedServer.dfy` is the peer as a
  class. The apply loop is proved under interference from snapshots. `TrimmedRuns.dfy` follows a peer that compacts its
  log and restarts from snapshots along any run of the cluster, proves that it stands for a full peer all the time, and
  so that its apply loop delivers what every server delivers.
- **The key/value service** (`Lab3_KV_Raft`): `KvStore.dfy` is the replicated state machine with duplicate
  suppression and snapshots, `KvServer.dfy` has the server and the clerk as classes, `KvSystem.dfy` runs any number of
  both over one committed log, `KvLinear.dfy` proves the runs linearizable and what a Get returns, and `KvProgress.dfy` that
  each call that is under way can still return. `KvSnapshots.dfy` adds snapshots and says
  under which guard the service stays linearizable. `RaftKv.dfy` puts clerks and servers on top of a Raft cluster and
  proves the whole service linearizable.
- **MapReduce** (`Lab1_MapReduce`): `MapReduce.dfy` is the data flow, `MapReduceTasks.dfy` the tasks as loops over a
  shared directory and the sequential run. `MapReduceSchedule.dfy` is schedule() with its goroutines and workers,
  `MapReduceExecution.dfy` the execution of a task one file operation at a time, and `MapReduceRuns.dfy` the distributed
  run, in which calls fail, workers stop in the middle of a file, and executions go on after their call was given up.
  `MapReduceSound.dfy` says what files can hold in any run, `MapReduceStrays.dfy` and `MapReduceMergeStrays.dfy` exactly
  when such executions do harm, `MapReduceCompletes.dfy` which jobs can complete, and `MapReduceExamples.dfy` shows runs
  that go wrong.

`dafny verify dfyconfig.toml` checks everything.

## How steps are modelled

A step of a Raft peer is one atomic action. The Go code releases its lock in a few places where the model does not:
it checks the term of a reply and then, after taking the lock again, acts on it (`Lab2_Raft/Part2C/raft.go:689-694`
then 700-777, and 1093-1098 then 1102-1150), checks role and term and then builds a request (612-625), bumps the term
and then builds the vote requests (1029, 1056-1064), checks the role and then appends in `Start` (806-812), and chooses
`index` and then reads `commitIndex` (811-826). The theorems are about the atomic reading. A goroutine that a step launches is a step of its own, which may come at any time later: so
the heartbeats launched on winning an election (1152) and on a commit (769) are `BroadcastHeartbeat`, not part of
`HandleVoteReply` and `CountReplica`, and the apply loop is a step per entry in runs. In `TrimmedServer.dfy` the broadcast
of `Start` (`Lab3_KV_Raft/PartB/raft/raft.go:1080`) and the message that `InstallSnapshot` sends on applyCh (277-281) are
not modelled. Local variables of the goroutines
that outlive a step (the vote count, the replica count, arguments of calls that have not returned) are kept in the
peer's `ballot` and `broadcasts`. A call returns at most once. The history variables of `RaftCluster.dfy` are only
recorded, never read by a step.

## Results that a reader of the code may not expect

- `InstallSnapshot` keeps the local tail without comparing terms at the cut. `InstallIsRightIff` states exactly when the
  result is right, `InstallAdoptsPrefixIff` exactly when the follower then has the leader's log through the cut, and
  `InstallCanKeepStaleTail` gives a follower for which it is not right.
- `InstallSnapshot` sets the vote to the leader, also in the term in which the follower has voted for someone else
  (`Lab3_KV_Raft/PartB/raft/raft.go:245-247`). `InstallKeepsVoteIff` states exactly when it stays with its vote; so with
  installs one vote per server and term does not hold in Part B as it does in Part 2C.
- `encodeSnapshot` saves the data but not the operation numbers. `SnapshotReplayIff` states exactly when a server that
  reads a snapshot makes the choices of a full replay, `SnapshotDataIff` exactly when every log with the same calls gives
  the same data, and `RetryAcrossCutAppliesTwice` is a log on which a retried append is applied twice. In whole runs,
  `SnapshotsLinearizable` needs that no server changes its data by a retry that it has forgotten, and reads no snapshot
  older than what it has applied; `StaysRightIff` and `ReadRightIff` say that nothing less will do, and
  `SnapshotsLoseLinearizability` is a run of one server and two clients whose history has no sequential order.
- `schedule` reads `mapFiles[i]` in the reduce phase too. `PanicsIffTooManyReducers` states exactly for which jobs some run
  panics.
- `schedule` gives a task out again when a call fails, but the first execution may still be running, and `os.Create` empties
  its file. `DistributedIsGroupReduce` needs that an execution changes no file after its task was given out again;
  `LateExecutionLosesOutput` is a run in which one does, after the map phase, and the output is lost.
  `InputsRightIff` and `OutputRightIff` state, for the end of either phase of any run, exactly which files and which
  leftover executions are harmless.
- A Raft cluster elects a leader in some run, and from every state that it can get into, exactly when it has two servers
  or more (`LeaderPossibleIff`, `LeaderAlwaysPossibleIff`): votes are counted on replies only.
- A follower would lower its commit index for an append request that commits more than it vouches for (`Lab2_Raft/Part2C/raft.go:294-299`,
  `AcceptedAppendChanges`); no request of any run is like that (`InFlightCommitBound`).
- Comments in the repository describe `matchIndex` as increasing monotonically; no commit depends on it and the model
  proves nothing about it.
- The comment of `Clerk.Get` promises "" for a missing key; the code retries, and the model follows the code.

## Model

| member | source | states |
|---|---|---|
| RaftServer.Raft.constructor | Lab2_Raft/Part2C/raft.go:1180-1234 | a new peer is a follower of term 0 with the placeholder log, except for the term, vote and log that were persisted |
| RaftServer.Raft.RequestVote | Lab2_Raft/Part2C/raft.go:414-485 | the in-place handler computes the vote step that the election theorems are about, and its answer |
| RaftServer.Raft.HasAllEntries | Lab2_Raft/Part2C/raft.go:264-275 | the scan answers whether the log has every entry of the request, judged by terms |
| RaftServer.Raft.Accept | Lab2_Raft/Part2C/raft.go:252-330 | all-or-nothing overwrite, capped commit index, leader noted, persisted |
| RaftServer.Raft.FirstOfTerm | Lab2_Raft/Part2C/raft.go:356-369 | the scan ends at the first index of the run of the conflicting term |
| RaftServer.Raft.FindConflict | Lab2_Raft/Part2C/raft.go:344-373 | a short log reports its length and term 0, a conflict its term and that term's first index |
| RaftServer.Raft.AppendEntries | Lab2_Raft/Part2C/raft.go:219-381 | the in-place handler computes the append step and its reply, on all inputs |
| RaftServer.Raft.StartElection | Lab2_Raft/Part2C/raft.go:1023-1067 | new term, vote for itself, persisted; the request carries the last index and term |
| RaftServer.Raft.InitLeaderState | Lab2_Raft/Part2C/raft.go:1144-1148 | the loop sets every nextIndex to the end of the log and every matchIndex to 0 |
| RaftServer.Raft.HandleVoteReply | Lab2_Raft/Part2C/raft.go:1093-1150 | a reply of another term is dropped, a newer term steps down, a vote is counted, a majority makes a candidate leader |
| RaftServer.Raft.Start | Lab2_Raft/Part2C/raft.go:800-831 | a leader appends one entry of its term at the index it returns, persists and broadcasts; others return -1 |
| RaftServer.Raft.BroadcastHeartbeat | Lab2_Raft/Part2C/raft.go:988-1006 | only a leader broadcasts, up to its last index |
| RaftServer.Raft.SendAppend | Lab2_Raft/Part2C/raft.go:610-666 | the request is the slice of the log from nextIndex to the broadcast's index, or nothing when no longer leading |
| RaftServer.Raft.GetNextIndex | Lab2_Raft/Part2C/raft.go:522-569 | the two scans compute the last index of the conflicting term, or the fallback |
| RaftServer.Raft.BackOff | Lab2_Raft/Part2C/raft.go:723-736 | a rejection changes only nextIndex of that peer, and its call is retried |
| RaftServer.Raft.CountReplica | Lab2_Raft/Part2C/raft.go:738-777 | progress is noted, the reply counted once, and a majority commits an entry of the current term only |
| RaftServer.Raft.HandleAppendReply | Lab2_Raft/Part2C/raft.go:689-777 | the reply is dropped, counted, retried, or makes the leader step down |
| RaftServer.Raft.ApplyEntries | Lab2_Raft/Part2C/raft.go:837-866 | the loop is as many single applications as there are committed entries left |
| RaftServer.ApplicationsDeliver | Lab2_Raft/Part2C/raft.go:852-861 | these deliver the committed entries in index order, each once, from lastApplied + 1 on |
| RaftHistory.QuorumsIntersect | Lab2_Raft/Part2C/raft.go:1048 | two sets of len/2+1 servers have a member in common |
| RaftHistory.UpToDateHolds | Lab2_Raft/Part2C/raft.go:445-480 | a log that passes the up-to-date check against a log with an entry has the entry, or a later leader lacked it |
| RaftHistory.LeaderCompleteness | Lab2_Raft/Part2C/raft.go:445-480 | an entry committed by the current-term rule is in the log of the leader of every later term |
| RaftHistory.CommitsAgree | Lab2_Raft/Part2C/raft.go:754-766 | any two committed prefixes agree where both are defined |
| RaftReplication.OverwriteIsPaperMerge | Lab2_Raft/Part2C/raft.go:264-287 | all-or-nothing overwrite equals the paper's delete from the first conflict and append the rest |
| RaftReplication.MergedCommit | Lab2_Raft/Part2C/raft.go:264-303 | accepting an append keeps the follower's commit index backed by a committed entry that its log stores |
| RaftReplication.MajorityCommits | Lab2_Raft/Part2C/raft.go:754-766 | a majority count for an entry of the leader's term is a commitment in the sense of the paper |
| RaftSafety.StepInBoundsAndKeeps | Lab2_Raft/Part2C/raft.go:219-866 | each kind of step, from any state of the invariant, stays within its slices and keeps the invariant |
| RaftSafety.NoIndexPanics | Lab2_Raft/Part2C/raft.go:522-569 | no step of any run reads its log or nextIndex out of range |
| RaftSafety.AlwaysPersisted | Lab2_Raft/Part2C/raft.go:143-196 | between steps the disk equals the term, vote and log in memory |
| RaftSafety.OneVotePerTerm | Lab2_Raft/Part2C/raft.go:414-485 | over all its incarnations a server grants its vote to one candidate per term |
| RaftSafety.ElectionSafety | Lab2_Raft/Part2C/raft.go:1023-1142 | at any two moments of a run, two leaders of one term are the same server |
| RaftSafety.LeaderAppendOnly | Lab2_Raft/Part2C/raft.go:809-812 | while its term lasts a leader's log only grows |
| RaftSafety.LogMatching | Lab2_Raft/Part2C/raft.go:252-287 | two logs at any two moments with the same term at an index are equal through it |
| RaftSafety.TermsNeverDecrease | Lab2_Raft/Part2C/raft.go:809-812 | terms never decrease along a log |
| RaftSafety.LogMatchesMessage | Lab2_Raft/Part2C/raft.go:634-668 | the same for a log and any append request ever sent |
| RaftSafety.AcceptedIsPaperMerge | Lab2_Raft/Part2C/raft.go:264-287 | in every run an accepted append gives the log that section 5.3 asks for |
| RaftSafety.InFlightCommitBound | Lab2_Raft/Part2C/raft.go:639-668 | every append request has LeaderCommit <= PrevLogIndex + number of entries |
| RaftSafety.LeadersAreComplete | Lab2_Raft/Part2C/raft.go:754-766 | a leader of a later term has everything that any server knew to be committed in an earlier one |
| RaftSafety.StateMachineSafety | Lab2_Raft/Part2C/raft.go:837-866 | deliveries of one index by any servers and incarnations are equal, and each incarnation delivers 1, 2, 3, .. |
| RaftSafety.DeliveredFromLog | Lab2_Raft/Part2C/raft.go:852-861 | what was delivered is, and stays, the server's log up to lastApplied |
| RaftSafety.CommittedPrefixForever | Lab2_Raft/Part2C/raft.go:264-303 | a committed prefix of a server's log never changes again, across restarts |
| RaftSafety.CommitIndexMonotone | Lab2_Raft/Part2C/raft.go:294-303 | between any two moments of one incarnation the commit index and lastApplied do not decrease, deliveries are kept, and the commit index never passes the end of the log |
| RaftSafety.ReplicationCountIsSound | Lab2_Raft/Part2C/raft.go:738-771 | nReplica distinct servers held the leader's log through index in its term, whatever was retried, reordered or sent empty |
| RaftCommit.MajorityIsCommitted | Lab2_Raft/Part2C/raft.go:744-775 | conversely a leader whose broadcast was counted by a majority has committed its index, if the entry is of its term |
| RaftCommit.MajorityIsElected | Lab2_Raft/Part2C/raft.go:1123-1148 | a majority of counted votes never leaves a candidate a candidate |
| RaftCommit.AcceptedLearnsCommit | Lab2_Raft/Part2C/raft.go:294-299 | an accepted append raises the commit index to the leader's, uncapped, and within the log |
| RaftElectable.LeaderPossibleIff | Lab2_Raft/Part2C/raft.go:1050-1150 | some run of n servers elects a leader exactly when n >= 2 |
| RaftElectable.CanElect | Lab2_Raft/Part2C/raft.go:1023-1150 | from every reachable state of two servers or more, one with the greatest last (term, index) can become the leader |
| RaftElectable.LeaderAlwaysPossibleIff | Lab2_Raft/Part2C/raft.go:1050-1150 | from a reachable state of n servers some continuation has a leader exactly when n >= 2 |
| RaftLaws.VoteGrantedIff | Lab2_Raft/Part2C/raft.go:420-480 | a vote is granted exactly when the request is not old, the vote of its term is free or already the candidate's, and the voter's last (term, index) is at most the candidate's |
| RaftLaws.VoteRequestChanges | Lab2_Raft/Part2C/raft.go:420-480 | the vote goes to the candidate, a newer term frees it, the reply has the term, what changed is saved, and nothing else changes |
| RaftLaws.StandsForElection | Lab2_Raft/Part2C/raft.go:1023-1067 | a candidate asks all others in a new term, in which it votes for itself, showing its own last entry |
| RaftLaws.VoteCounted | Lab2_Raft/Part2C/raft.go:1121-1150 | a granted vote counts one; with n/2 + 1 a candidate leads, every nextIndex at the end of its log and every matchIndex 0 |
| RaftLaws.NewerTermStepsDown | Lab2_Raft/Part2C/raft.go:1102-1119 | a refused vote that shows a newer term makes the peer a follower of that term with no vote |
| RaftLaws.NewerTermEndsLeadership | Lab2_Raft/Part2C/raft.go:701-720 | so does a rejected append |
| RaftLaws.StaleReplyIgnored | Lab2_Raft/Part2C/raft.go:689-694 | a reply to a request of another term changes nothing |
| RaftLaws.AppendAcceptedIff | Lab2_Raft/Part2C/raft.go:225-252 | an append is accepted exactly when it is not old and the log has its previous entry |
| RaftLaws.AcceptedAppendChanges | Lab2_Raft/Part2C/raft.go:252-330 | then the sender is noted as the leader, the log has every entry of the request by term and keeps what was before it, and all is saved |
| RaftLaws.RejectedAppendChanges | Lab2_Raft/Part2C/raft.go:225-250 | a rejected append changes nothing but the term, the vote that belongs to it and the role |
| RaftLaws.HeartbeatCallsAll | Lab2_Raft/Part2C/raft.go:988-1006 | a leader's heartbeat leaves a call to each other server to be made, up to its last index and with its commit index |
| RaftLaws.StartCallsAll | Lab2_Raft/Part2C/raft.go:806-828 | so does Start, after appending the command as one entry of the leader's term |
| RaftLaws.RequestShows | Lab2_Raft/Part2C/raft.go:634-668 | a request shows the entry before nextIndex, all entries from there through the broadcast's index, and the captured commit index |
| RaftLaws.SuccessCounted | Lab2_Raft/Part2C/raft.go:738-771 | a success of the current term raises the count by one and the peer's nextIndex past the index, and commits exactly when it completes a majority for an entry of the term |
| RaftLaws.ConflictRetried | Lab2_Raft/Part2C/raft.go:723-736 | a conflict changes nextIndex of that peer only, and its call is made again |
| RaftLaws.NextIsApplied | Lab2_Raft/Part2C/raft.go:852-861 | a turn of the apply loop delivers the next committed entry, if there is one |
| RaftLaws.RestartKeepsSaved | Lab2_Raft/Part2C/raft.go:1180-1234 | a peer that starts again is a follower with its saved term, vote and log that has applied nothing |
| RaftLaws.CommitIsTold | Lab2_Raft/Part2C/raft.go:1003 | whatever is sent for a broadcast carries the commit index that the leader had when it launched it, and a follower that accepts it, in any state of the run, then has at least that |
| RaftLaws.GreatestIsGranted | Lab2_Raft/Part2C/raft.go:463-464 | in every reachable state, among any servers one whose last (term, index) is greatest is granted the vote of each of the others in a term that is new to them |
| RaftLaws.SameLeaderNoted | Lab2_Raft/Part2C/raft.go:324 | servers that accept appends of one term, at any two moments, note the same leader |
| RaftProgress.IsReached | Lab2_Raft/Part2C/raft.go:610-771 | a leader's calls to a peer, from any reachable state, can go on until the peer has accepted, counts, and knows the commit index of the broadcast |
| RaftProgress.CanDeliver | Lab2_Raft/Part2C/raft.go:800-866 | after every run of two servers or more any command can be delivered by all of them, at one index |
| Backup.ReachablePair | Lab2_Raft/Part2C/raft.go:252-287 | the logs of any two servers of a reachable state meet the assumptions of the backup theorems |
| Backup.ZeroTermMeansShort | Lab2_Raft/Part2C/raft.go:344-346 | a rejection carries ConflictTerm 0 exactly when the follower's log is too short |
| Backup.RejectionMakesProgress | Lab2_Raft/Part2C/raft.go:534-568 | a rejection strictly decreases nextIndex, keeps it at least 1, skips no agreeing index, and a second conflict has a smaller term |
| Backup.SlowFindsLastAgreement | Lab2_Raft/Part2C/raft.go:522-569 | one-by-one decrement finds the last agreeing index |
| Backup.RejectionsBoundedByTerms | Lab2_Raft/Part2C/raft.go:344-373 | with a long enough log there is at most one rejection per distinct term of the follower up to the starting index |
| Backup.RejectionBound | Lab2_Raft/Part2C/raft.go:723-736 | the rejections number at most 1 + the distinct non-zero terms of the follower's log |
| Backup.Retry | Lab2_Raft/Part2C/raft.go:610-736 | the retry loop stops exactly where the one-by-one search does, at an agreeing index above which nothing agrees, within that bound |
| TrimmedServer.TrimmedRaft.constructor | Lab3_KV_Raft/PartB/raft/raft.go:1412-1467 | Make followed by readSnapshot at start-up |
| TrimmedServer.TrimmedRaft.RequestVote | Lab3_KV_Raft/PartB/raft/raft.go:505-572 | the handler over a trimmed log computes the trimmed vote step and its reply |
| TrimmedServer.TrimmedRaft.HasAllEntries | Lab3_KV_Raft/PartB/raft/raft.go:777-788 | the scan through subSnapshotIndex answers whether the trimmed log has every entry |
| TrimmedServer.TrimmedRaft.Accept | Lab3_KV_Raft/PartB/raft/raft.go:771-814 | overwrite in the trimmed log and commit capped by its own last index |
| TrimmedServer.TrimmedRaft.FirstOfTerm | Lab3_KV_Raft/PartB/raft/raft.go:827-837 | the scan for the first index of the term stops at the cut |
| TrimmedServer.TrimmedRaft.AppendEntries | Lab3_KV_Raft/PartB/raft/raft.go:736-845 | the handler computes the trimmed append step and its reply, with the two early returns |
| TrimmedServer.TrimmedRaft.Start | Lab3_KV_Raft/PartB/raft/raft.go:1055-1085 | the returned index is absolute |
| TrimmedServer.TrimmedRaft.TakeSnapshot | Lab3_KV_Raft/PartB/raft/raft.go:134-172 | the log is cut at the index, state and snapshot are saved together |
| TrimmedServer.TrimmedRaft.InstallSnapshot | Lab3_KV_Raft/PartB/raft/raft.go:235-273 | the installed state; the reply has the term from before the call |
| TrimmedLog.RequestVoteRefines | Lab3_KV_Raft/PartB/raft/raft.go:505-572 | a trimmed peer decides votes as the full peer it stands for, and stands for it afterwards |
| TrimmedLog.AppendEntriesRefines | Lab3_KV_Raft/PartB/raft/raft.go:736-845 | at or above the cut an append has the same decision, absolute log and commit index as on the full log |
| TrimmedLog.AnswerRefines | Lab3_KV_Raft/PartB/raft/raft.go:752-845 | the reply is the full peer's with the first index clamped below at the cut |
| TrimmedLog.RunStartRefines | Lab3_KV_Raft/PartB/raft/raft.go:831-837 | the trimmed scan finds the full log's run start, clamped at the cut |
| TrimmedLog.CommitRulesAgreeIff | Lab3_KV_Raft/PartB/raft/raft.go:800-801 | exactly when the two min formulas agree |
| TrimmedLog.StartRefines | Lab3_KV_Raft/PartB/raft/raft.go:1064-1067 | Start appends at the same absolute index as on the full log |
| TrimmedLog.TakeSnapshotKeepsView | Lab3_KV_Raft/PartB/raft/raft.go:134-150 | a snapshot leaves every retained absolute index, lastApplied and commitIndex unchanged; the recorded term is right iff the caller's is |
| TrimmedLog.InstallKeepsView | Lab3_KV_Raft/PartB/raft/raft.go:251-262 | installing within the log keeps every retained index and never lowers lastApplied or commitIndex |
| TrimmedLog.InstallIsRightIff | Lab3_KV_Raft/PartB/raft/raft.go:249-257 | it does what section 7 of the paper asks exactly when the log is too short or has the included term at the cut |
| TrimmedLog.InstallCanKeepStaleTail | Lab3_KV_Raft/PartB/raft/raft.go:251-252 | a follower that keeps a stale tail |
| TrimmedLog.InstallAdoptsPrefixIff | Lab3_KV_Raft/PartB/raft/raft.go:249-262 | the installed follower stands for a full peer, which has the leader's log through the cut exactly under that condition |
| TrimmedLog.InstallKeepsVoteIff | Lab3_KV_Raft/PartB/raft/raft.go:245-247 | a follower that had voted in the term grants no second candidate a vote after an install exactly when its vote was for that leader |
| TrimmedLog.InstallThenRestart | Lab3_KV_Raft/PartB/raft/raft.go:245-272 | after an install, by any peer, a restart has the installed term, the vote, the cut log and the snapshot's data, and starts applying at the cut |
| TrimmedLog.InstallChanges | Lab3_KV_Raft/PartB/raft/raft.go:241-262 | an install that is old or not above the cut changes nothing, else both indices rise to the cut |
| TrimmedLog.SnapshotThenRestart | Lab3_KV_Raft/PartB/raft/raft.go:134-172 | after a snapshot of its own a restart has the same term and vote, the log from the index on and the data, and starts applying there |
| TrimmedLog.TrimmedVoteGrantedIff | Lab3_KV_Raft/PartB/raft/raft.go:505-572 | a trimmed peer grants its vote on the same condition, with its absolute last index |
| TrimmedLog.TrimmedAppendAcceptedIff | Lab3_KV_Raft/PartB/raft/raft.go:736-815 | it accepts an append exactly when that is not old, not below the cut, and it has the previous entry |
| TrimmedLog.TrimmedAsksFor | Lab3_KV_Raft/PartB/raft/raft.go:752-768 | below its cut it makes the leader go on just above the cut, and past its end just after its last entry |
| TrimmedLog.ApplyPass | Lab3_KV_Raft/PartB/raft/raft.go:1105-1130 | while snapshots move the cut, the apply loop reads only real slots and delivers entries of the committed log at strictly increasing indices, one a turn; it omits an index only if one of its own turns, before any later delivery, found it at or below the cut, and a skip lands at LastIncludedIndex + 1 |
| TrimmedRuns.RequestInRunRefines | Lab3_KV_Raft/PartB/raft/raft.go:736-845 | in every run of the cluster an append request at or above the cut is handled as on the full log |
| TrimmedRuns.ShadowStands | Lab3_KV_Raft/PartB/raft/raft.go:134-172 | along any run, with snapshots taken at any time and restarts from them, a trimmed peer keeps the term, vote, role and absolute log of a full peer, and its commit index and lastApplied above what the snapshot held |
| TrimmedRuns.CutMovesForward | Lab3_KV_Raft/PartB/raft/raft.go:137-148 | the cut of such a peer never moves back, across restarts |
| TrimmedRuns.ShadowInBounds | Lab3_KV_Raft/PartB/raft/raft.go:329-337 | no step of such a peer looks at a negative slot or past its log, if its append requests are stale or at or above the cut |
| TrimmedRuns.RelyHolds | Lab3_KV_Raft/PartB/raft/raft.go:1094-1108 | so in every run each turn of its apply loop finds the committed log above the cut, and cuts that move forward only |
| TrimmedRuns.CommittedIsDelivered | Lab3_KV_Raft/PartB/raft/raft.go:1121-1129 | what a server knows to be committed at an index in one state is what every server delivers there in any other |
| TrimmedRuns.ApplyInRun | Lab3_KV_Raft/PartB/raft/raft.go:1094-1130 | a pass of the apply loop of such a peer, its turns in any later states of the run, delivers at each index exactly what every server delivers there in any state |
| KvStore.OpIndexIsMaximum | Lab3_KV_Raft/PartA/server.go:179-195 | opIndex holds the largest number of the client that was replayed |
| KvStore.AppliedMeans | Lab3_KV_Raft/PartA/server.go:179-195 | a new Put makes its key read its value, a new Append the old value followed by its value, a Get changes nothing, other keys stay, and an old entry is ignored |
| KvStore.KeyReads | Lab3_KV_Raft/PartA/server.go:173-196 | after m entries a key reads as its last Put followed by the Appends after it, in log order, each call once, or as all its Appends if it was never put |
| KvStore.EffectIffAboveEarlier | Lab3_KV_Raft/PartA/server.go:179-195 | an entry takes effect exactly when its number is above all earlier ones of its client |
| KvStore.ExactlyOnceIff | Lab3_KV_Raft/PartA/server.go:173-196 | duplicate suppression applies exactly the first occurrences iff each client's numbers first appear in increasing order |
| KvStore.ExactlyOnce | Lab3_KV_Raft/PartA/server.go:173-196 | for such logs folding Apply is executing each call once |
| KvStore.RetriesAreInvisible | Lab3_KV_Raft/PartA/server.go:173-196 | and removing the retries changes neither data nor opIndex |
| KvStore.SnapshotReplayIff | Lab3_KV_Raft/PartB/kvraft/server.go:188-229 | reading a snapshot, at start-up or later, makes the choices of the full replay iff each client's first tail number that the server does not know is new |
| KvStore.SnapshotThenTail | Lab3_KV_Raft/PartB/kvraft/server.go:203-231 | then snapshot plus tail gives the data of the whole log, at every cut |
| KvStore.SnapshotDataIff | Lab3_KV_Raft/PartB/kvraft/server.go:308-344 | every log with the same clients and numbers gives the data of the full replay exactly under that condition |
| KvStore.RetryAcrossCutAppliesTwice | Lab3_KV_Raft/PartB/kvraft/server.go:339-344 | a retried append that straddles the cut is applied twice |
| KvServer.NotifiedMeans | Lab3_KV_Raft/PartA/server.go:198-205 | a waiter is answered true only if its own call was applied at its index, and others are not answered |
| KvServer.NotifiedEach | Lab3_KV_Raft/PartA/server.go:198-205 | and every waiter at the index is answered, true exactly if the operation applied there has its client and number |
| KvServer.KVServer.Apply | Lab3_KV_Raft/PartA/server.go:173-206 | the method updates data, opIndex and channels as the fold that the theorems are about |
| KvServer.KVServer.Register | Lab3_KV_Raft/PartA/server.go:79-82 | execOp adds its waiter behind those at the same index |
| KvServer.KVServer.Finish | Lab3_KV_Raft/PartA/server.go:96-99 | execOp removes all waiters of its index and no others |
| KvServer.KVServer.ReplyToGet | Lab3_KV_Raft/PartA/server.go:111-131 | a Get that was applied answers the value that its key has now, or that there is none; else why not |
| KvServer.KVServer.ReplyToPutAppend | Lab3_KV_Raft/PartA/server.go:149-163 | a PutAppend that was applied answers OK, else why not |
| KvServer.Clerk.Call | Lab3_KV_Raft/PartA/client.go:44-108 | one number per call; the call ends at the first OK with its value; attempt k goes to the server as many places on as replies before it sent the clerk on |
| KvServer.SendingMeans | Lab3_KV_Raft/PartA/client.go:58-71 | a server that does not lead, a missing key and a failed call send the clerk on; OK and a timeout at the leader do not |
| KvServer.TriesEveryServer | Lab3_KV_Raft/PartA/client.go:61-62 | after as many servers in a row that do not lead as there are, the clerk has tried each and is where it began |
| KvSystem.StepKeeps | Lab3_KV_Raft/PartA/server.go:68-206 | every step of clerks and servers keeps the invariant that OK replies are backed by the committed log |
| KvLinear.LogInOrder | Lab3_KV_Raft/PartA/client.go:86-107 | in every run each client's numbers first appear in the log in increasing order |
| KvLinear.EffectsOnce | Lab3_KV_Raft/PartA/server.go:147-196 | in every run each server's data is each committed call of its prefix executed once |
| KvLinear.GetReadsFreshPrefix | Lab3_KV_Raft/PartA/server.go:104-131 | an OK Get returns the value of a committed prefix longer than the whole log was at its invocation |
| KvLinear.GetReturnsWrites | Lab3_KV_Raft/PartA/server.go:104-131 | an OK Get returns the last Put of its key in that prefix followed by the Appends after it in log order, each call once, or all the Appends if there is no Put |
| KvLinear.LinearizationIsLegal | Lab3_KV_Raft/PartA/server.go:104-206 | the constructed order is a legal sequential history with the state of the replicated fold |
| KvLinear.LinearizationSortedOnce | Lab3_KV_Raft/PartA/server.go:173-206 | it contains each call at most once, ordered by committed prefix |
| KvLinear.RealTime | Lab3_KV_Raft/PartA/client.go:44-108 | a call that returned before another was invoked is earlier in it |
| KvLinear.Linearizable | Lab3_KV_Raft/PartA/server.go:68-206 | the history of calls of every reachable state is linearizable |
| KvProgress.CanReturn | Lab3_KV_Raft/PartA/server.go:68-206 | from every reachable state each call that is under way can return OK; a Get of a key that is missing waits for some client to put it |
| KvSnapshots.ApplyRightIff | Lab3_KV_Raft/PartB/kvraft/server.go:188-229 | a server with the data of the full replay keeps it when it applies an entry exactly when the entry is no retry, or it recognises the retry, or executing it again changes nothing |
| KvSnapshots.ReadRightIff | Lab3_KV_Raft/PartB/kvraft/server.go:308-337 | reading a snapshot leaves a server right exactly when it is not older than what was applied, or has all keys and no newer number is known |
| KvSnapshots.StaysRightIff | Lab3_KV_Raft/PartB/kvraft/server.go:188-231 | so from any state of the invariant a step that reads no snapshot leaves all servers right exactly when the guard on applications allows it |
| KvSnapshots.SnapStepKeeps | Lab3_KV_Raft/PartB/kvraft/server.go:185-258 | every guarded step, with snapshots taken, saved, read and restarted from, keeps the invariant that OK replies are backed by the committed log |
| KvSnapshots.SnapshotsLinearizable | Lab3_KV_Raft/PartB/kvraft/server.go:60-231 | under the guard every run of the service with snapshots is linearizable, and each server's data is each call that it has applied executed once |
| KvSnapshots.SnapshotsGetReturns | Lab3_KV_Raft/PartB/kvraft/server.go:113-141 | and an OK Get returns the last Put of its key and the Appends after it |
| KvSnapshots.SnapshotsLoseLinearizability | Lab3_KV_Raft/PartB/kvraft/server.go:339-344 | a run in which a server forgets a retry at a restart, and whose history no sequential order explains |
| RaftKv.NextAgrees | Lab3_KV_Raft/PartA/server.go:173-178 | what a peer delivers is the operation recorded for that index, if any server got that far, or the next one |
| RaftKv.StepKeeps | Lab3_KV_Raft/PartA/server.go:68-206 | every step of clerks, servers and peers together keeps the invariants of both layers |
| RaftKv.OnlyOperationsDelivered | Lab3_KV_Raft/PartA/server.go:176-178 | every delivered entry is an operation that a clerk invoked, so the type assertion cannot fail |
| RaftKv.ServiceExactlyOnce | Lab3_KV_Raft/PartA/server.go:173-206 | each server's data is each call that its peer has delivered executed once |
| RaftKv.ServiceLinearizable | Lab3_KV_Raft/PartA/server.go:68-206 | the service on top of a Raft cluster is linearizable in every run |
| RaftKv.ServiceGetReturns | Lab3_KV_Raft/PartA/server.go:104-131 | in it an OK Get returns the last Put of its key in a delivered prefix and the Appends after it in log order |
| MapReduce.NamesDistinct | Lab1_MapReduce/common.go:34-43 | the file names of one job never coincide |
| MapReduce.ValuesOfBucket | Lab1_MapReduce/common_map.go:76-97 | partitioning keeps all values of a key, in order, in the key's partition and nowhere else |
| MapReduce.ValuesInOrder | Lab1_MapReduce/common_reduce.go:61-74 | the value of a pair comes after those of the pairs with its key before it |
| MapReduce.ValuesCount | Lab1_MapReduce/common_reduce.go:61-74 | a key has as many values as pairs |
| MapReduce.BeforeIsLexicographic | Lab1_MapReduce/master_splitmerge.go:35-39 | the order of the output is lexicographic: at the first difference one key ends or has the smaller character |
| MapReduce.PutMeans | Lab1_MapReduce/master_splitmerge.go:22-33 | the merged map gives a key the value of its last pair |
| MapReduce.ItoaIsDecimal | Lab1_MapReduce/common.go:34-43 | the numbers in file names are decimal |
| MapReduce.InputValues | Lab1_MapReduce/common_reduce.go:50-75 | a reduce task reads all values of its keys in map-task then emission order |
| MapReduce.SortedUnique | Lab1_MapReduce/master_splitmerge.go:35-39 | there is one sorted order of the keys, whatever order the map gave them in |
| MapReduce.UnionMeans | Lab1_MapReduce/master_splitmerge.go:16-34 | the merged map pairs exactly the emitted keys with the reduction of all their values |
| MapReduce.GroupReduceUnique | Lab1_MapReduce/master_splitmerge.go:35-49 | the specification of a job's output determines it |
| MapReduce.MergeIsGroupReduce | Lab1_MapReduce/master_splitmerge.go:16-49 | partition, group and merge give the sorted distinct keys, each with its reduced values |
| MapReduceTasks.WriteBucket | Lab1_MapReduce/common_map.go:77-96 | the inner loop writes exactly the pairs of one partition, in order |
| MapReduceTasks.DoMap | Lab1_MapReduce/common_map.go:52-98 | a map task writes its nReduce files and touches no others; partition r has the values, in order, of the emitted keys with hash % nReduce == r |
| MapReduceTasks.ReadFile | Lab1_MapReduce/common_reduce.go:61-74 | decoding a file extends the groups by its pairs, in order |
| MapReduceTasks.WriteReduced | Lab1_MapReduce/common_reduce.go:76-90 | every group is reduced once, in any order |
| MapReduceTasks.DoReduce | Lab1_MapReduce/common_reduce.go:42-91 | a reduce task fails exactly when an input is missing, and else writes one entry per key read |
| MapReduceTasks.Collect | Lab1_MapReduce/master_splitmerge.go:16-34 | the loops build the union of the reduce outputs, or fail when one is missing |
| MapReduceTasks.Merge | Lab1_MapReduce/master_splitmerge.go:14-50 | the output lists the whole union in key order |
| MapReduceTasks.RunSequential | Lab1_MapReduce/master.go:63-83 | a sequential job misses no file and outputs the group-and-reduce of everything emitted |
| MapReduceSchedule.BuildArgs | Lab1_MapReduce/schedule.go:18-43 | the loop computes the arguments of the phase's tasks, or panics at a read out of range |
| MapReduceSchedule.ArgsBuiltIff | Lab1_MapReduce/schedule.go:40-43 | it panics exactly in a reduce phase with more tasks than map files; else there is one task per index |
| MapReduceSchedule.MoveKeeps | Lab1_MapReduce/schedule.go:45-58 | every move of the goroutines keeps the wait count and the conservation of workers |
| MapReduceSchedule.MoveDrops | Lab1_MapReduce/schedule.go:46-58 | the worker of a failed call is dropped and the task waits again, that of a successful one is offered again |
| MapReduceSchedule.ReExecutionKeepsUnion | Lab1_MapReduce/common_reduce.go:77-90 | one more whole execution of any task, on its own, leaves what merge collects unchanged |
| MapReduceExecution.ContentsOf | Lab1_MapReduce/common_reduce.go:60-74 | decoding a file gives back the pairs that were written to it in order |
| MapReduceExecution.ProgressAdvances | Lab1_MapReduce/common_map.go:77-97 | every file operation of the only execution that writes a task's files keeps them a right prefix, wherever it then stops |
| MapReduceRuns.OnePlacePerWorker | Lab1_MapReduce/schedule.go:46-56 | in every run a worker that was offered is idle, in one call or on its way back, or dropped: one place only |
| MapReduceRuns.FailedIsNotCalled | Lab1_MapReduce/schedule.go:46-58 | in every run a worker whose call failed gets no other task of the phase |
| MapReduceRuns.ReturnsIffAllSucceeded | Lab1_MapReduce/schedule.go:52-60 | in every run the wait group is zero exactly when every task's call has succeeded, and then each task was executed to its end |
| MapReduceRuns.StepQuiet | Lab1_MapReduce/schedule.go:45-60 | each kind of step keeps the invariant of runs without stale writes: partial executions, crashes, retries, merging |
| MapReduceRuns.OutputsInPlace | Lab1_MapReduce/master.go:147-150 | when schedule() returns in such a run, all files of the phase are right |
| MapReduceRuns.DistributedIsGroupReduce | Lab1_MapReduce/master.go:137-150 | every such run that completes outputs the group-and-reduce of everything emitted, and no task ever misses an input |
| MapReduceRuns.RunsAgree | Lab1_MapReduce/master.go:110-124 | so any two such runs of a job that complete have the same output |
| MapReduceSound.RunFiles | Lab1_MapReduce/common_map.go:77-97 | in any run, however executions overlap, every pair of an intermediate file is at its right place, and an execution that ended has created its files |
| MapReduceSound.PartIsShorter | Lab1_MapReduce/common_reduce.go:51-75 | so what a reduce task reads is never too long, and too short whenever one of its files is not right |
| MapReduceStrays.InputsRightIff | Lab1_MapReduce/common_map.go:77-97 | at the end of the map phase of any run: every continuation gives every reduce task the right input exactly when the intermediate files are right and no map execution is left that has yet to create a file that should not be empty |
| MapReduceStrays.InputsRightIffSafe | Lab1_MapReduce/common_map.go:77-97 | without stale writes up to there, exactly when no such execution is left |
| MapReduceStrays.DamageIsRead | Lab1_MapReduce/common_reduce.go:51-75 | such an execution is read by a reduce task in some continuation |
| MapReduceMergeStrays.RunSane | Lab1_MapReduce/common_reduce.go:42-91 | while reduce tasks find right files, every pair of an output is right for its key, at a position below the number of keys, whatever executions overlap |
| MapReduceMergeStrays.SafeMapsStayRight | Lab1_MapReduce/common_map.go:77-97 | once the condition of the map phase holds, reduce tasks find right files to the end of the run |
| MapReduceMergeStrays.OutputRightIff | Lab1_MapReduce/common_reduce.go:76-90 | at the end of the reduce phase of any run in which reduce tasks found right files: every continuation that completes has the right output exactly when the outputs are right and no reduce execution is left that can still change its file |
| MapReduceMergeStrays.OutputRightIffSafe | Lab1_MapReduce/common_reduce.go:76-90 | without stale writes up to there, exactly when no such execution is left |
| MapReduceCompletes.MapPhaseCompletes | Lab1_MapReduce/schedule.go:45-60 | every job has a run that reaches the end of its map phase |
| MapReduceCompletes.CompletesIffEnoughFiles | Lab1_MapReduce/master.go:110-150 | a job has a run without stale writes that completes with the right output exactly when it has no more reduce tasks than map files |
| MapReduceExamples.PanicsIffTooManyReducers | Lab1_MapReduce/schedule.go:40-43 | a job has a run in which schedule() panics exactly when it has more reduce tasks than map files |
| MapReduceExamples.LateExecutionLosesOutput | Lab1_MapReduce/common_map.go:80 | a run in which a given-up map execution creates its file again after the map phase, and the completed output is wrong |

## Left out

- Interleavings inside a step: see "How steps are modelled" above.
- Liveness: timers, tickers, condition variables, `eventLoop`, `Kill` and random timeouts are steps that may fire at any
  time. `CanDeliver`, `CanReturn` and `CompletesIffEnoughFiles` say what can always still happen; what must happen is not
  claimed, nor is anything about blocked channels, except termination of the backup loop.
- `labrpc`, `labgob`, JSON and the file system: messages and files are values. A handler may answer the same request
  several times and the caller may see any of the answers, once.
- Integer widths: terms, indices and numbers are unbounded; `nReduce` is taken to be below 2^32, where the conversions
  to `uint32` change nothing. `ihash` is an arbitrary function.
- `Lab2_Raft/Part2A` and `Part2B`: drafts of Part2C.
- `LogEntry.Index` of Part B and `leaderCond`/`nonLeaderCond`: written or signalled, but no modelled decision reads them.
- `matchIndex` is modelled but nothing is claimed about its growth; no commit depends on it.
- Part B's leader side (`getNextIndex`, sending requests and `sendInstallSnapshot`): its index can fall below the cut
  (`Lab3_KV_Raft/PartB/raft/raft.go:1010-1011`), so the backup theorems are about Part 2C only.
- ShadowStands: the trimmed peer lives in a run of full peers. It installs no snapshot, and handles no current append
  request below its cut, which the source refuses and a full peer may accept; a whole cluster of trimmed peers is not
  refined, and by `InstallKeepsVoteIff` one with installs could not keep one vote per term. The counters of its goroutines
  are those of the full peer.
- RestartRestoresView: at start-up nothing else runs; `readSnapshot` later writes the peer's fields without the peer's
  lock (`Lab3_KV_Raft/PartB/kvraft/server.go:331-334`), and of that only `KvSnapshots.dfy` models the effect on what is
  applied next.
- The size policy of `isTakeSnapshot` (`portion := 2 / 3` is integer zero): a snapshot may be taken at any index.
- Linearizable: it is about Part A, without snapshots, where a restarted server replays the log from the start; its log is
  a parameter that only grows. ServiceLinearizable takes the log from the Raft cluster, SnapshotsLinearizable adds
  snapshots over the parameter.
- SnapshotsLinearizable: any snapshot that was ever taken may be saved or read by any server at any time, which is more than
  the peers do. Decoding a map is taken to put its entries into the map that is there, as the encoding package documents.
- ServiceLinearizable: operations are stored in log entries through any encoding that decodes to the same operation.
  Clerks have distinct identifiers and one call outstanding each; a Get of a missing key is retried and so has no reply to
  constrain.
- HandleVoteReply: the heartbeat that the winner launches is a separate step.
- CountReplica: so is the heartbeat that follows a commit.
- ApplyEntries: the method runs a whole pass; in runs each entry is a step of its own.
- TrimmedRaft.Start: without the broadcast that it launches.
- TrimmedRaft.InstallSnapshot: without the message that it sends on applyCh.
- Clerk.Call: the unbounded loop is given the list of replies that it will receive; a list without OK stands for a call
  that has not returned yet.
- RunSequential: it is stated for nReduce >= 1. The output is the sequence of pairs; the line format is not modelled.
- SortStrings: it stands for the library's sort, specified by its result, on distinct keys.
- DistributedIsGroupReduce: a file operation on one pair is one atomic step, so a pair is never read half-written; worker
  names are distinct. Which stale writes in the middle of a phase happen to be harmless is characterised by what they leave
  at its end (`InputsRightIff`, `OutputRightIff`), not one by one.
- OutputRightIff: a position in a file counts pairs, where the file counts bytes. For map executions this makes no
  difference, since they all write the same pairs in the same order. Executions of one reduce task may write different
  keys first: then a stale write can also land inside a pair, which the model shows as replacing a pair or as no change.
  Runs without stale writes exclude this, a stale execution that still writes having all that it wrote before at the start
  of the file, and the remaining writes that `SafeToMerge` allows are at the same byte too.
- ReExecutionKeepsUnion: it is about one whole execution that nothing else overlaps; overlapping ones are the subject of
  MapReduceRuns.dfy and after.
- `worker.go`'s RPC plumbing, `common_rpc.go`, `ii.go`, `config.go` files and tests.
