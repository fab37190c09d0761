/**
  * What each atomic step of a peer computes, as functions on `Node` values.
  * The class in RaftServer.dfy is proved to do exactly this; RaftCluster.dfy composes these steps into runs.
  */
module RaftHandlers {
  import opened RaftTypes

  function Persisted(nd: Node): Node {
    nd.(disk := Persistent(nd.currentTerm, nd.voteFor, nd.log))
  }

  /** A higher term was seen: adopt it, forget the vote, become a follower, persist. */
  function SteppedDown(nd: Node, term: nat): Node {
    Persisted(nd.(currentTerm := term, voteFor := -1, role := Follower))
  }

  function CaughtUp(nd: Node, term: nat): Node {
    if nd.currentTerm < term then SteppedDown(nd, term) else nd
  }

  /** Section 5.4.1: a log ending in (lastTerm, lastIndex) is at least as up-to-date as `log`. */
  predicate UpToDate(lastTerm: nat, lastIndex: nat, log: seq<Entry>)
    requires |log| > 0
  {
    LastTerm(log) < lastTerm || (LastTerm(log) == lastTerm && |log| - 1 <= lastIndex)
  }

  // RequestVote -----------------------------------------------------------------------------------

  predicate GrantsVote(nd: Node, args: RequestVoteArgs)
    requires |nd.log| > 0
  {
    && nd.currentTerm <= args.term
    && var nd1 := CaughtUp(nd, args.term);
    && (nd1.voteFor == -1 || nd1.voteFor == args.candidateId)
    && UpToDate(args.lastLogTerm, args.lastLogIndex, nd1.log)
  }

  function AfterRequestVote(nd: Node, args: RequestVoteArgs): Node
    requires |nd.log| > 0
  {
    var nd1 := CaughtUp(nd, args.term);
    if GrantsVote(nd, args) then Persisted(nd1.(voteFor := args.candidateId, role := Follower)) else nd1
  }

  function RequestVoteAnswer(nd: Node, args: RequestVoteArgs): RequestVoteReply
    requires |nd.log| > 0
  {
    RequestVoteReply(CaughtUp(nd, args.term).currentTerm, GrantsVote(nd, args))
  }

  // AppendEntries ---------------------------------------------------------------------------------

  predicate Consistent(log: seq<Entry>, args: AppendEntriesArgs) {
    |log| > args.prevLogIndex && log[args.prevLogIndex].term == args.prevLogTerm
  }

  predicate Accepts(nd: Node, args: AppendEntriesArgs) {
    nd.currentTerm <= args.term && Consistent(nd.log, args)
  }

  predicate HasTermAt(log: seq<Entry>, index: nat, term: nat) {
    index < |log| && log[index].term == term
  }

  /** The log has all of `entries` from index `next` on, judged by their terms. */
  predicate HasAllAt(log: seq<Entry>, next: nat, entries: seq<Entry>) {
    forall j :: 0 <= j < |entries| ==> HasTermAt(log, next + j, entries[j].term)
  }

  predicate HasAll(log: seq<Entry>, args: AppendEntriesArgs) {
    HasAllAt(log, args.prevLogIndex + 1, args.entries)
  }

  /** All or nothing: keep the log when it has everything, else overwrite from prevLogIndex + 1 on. */
  function MergedLog(log: seq<Entry>, args: AppendEntriesArgs): seq<Entry>
    requires Consistent(log, args)
  {
    if HasAll(log, args) then log else log[..args.prevLogIndex + 1] + args.entries
  }

  function AdvancedCommit(commitIndex: nat, args: AppendEntriesArgs): nat {
    if args.leaderCommit > commitIndex then
      if args.leaderCommit > args.LastIndex() then args.LastIndex() else args.leaderCommit
    else commitIndex
  }

  function AfterAppendEntries(nd: Node, args: AppendEntriesArgs): Node {
    var nd1 := CaughtUp(nd, args.term);
    if Accepts(nd, args) then
      Persisted(nd1.(role := Follower, log := MergedLog(nd1.log, args),
                     commitIndex := AdvancedCommit(nd1.commitIndex, args), leaderId := args.leaderId))
    else nd1
  }

  /** The first index of the run of equal terms that ends at `index`. */
  function RunStart(log: seq<Entry>, index: nat): (first: nat)
    requires index < |log|
    ensures first <= index
    ensures forall j :: first <= j <= index ==> log[j].term == log[index].term
    ensures first > 0 ==> log[first - 1].term != log[index].term
  {
    if index > 0 && log[index - 1].term == log[index].term then RunStart(log, index - 1) else index
  }

  /** A short log reports its length and no term; a conflicting one its term there and that term's first index. */
  function Conflict(log: seq<Entry>, prevLogIndex: nat): (nat, nat) {
    if |log| <= prevLogIndex then (0, |log|)
    else (log[prevLogIndex].term, RunStart(log, prevLogIndex))
  }

  function AppendEntriesAnswer(nd: Node, args: AppendEntriesArgs): AppendEntriesReply {
    if args.term < nd.currentTerm then AppendEntriesReply(nd.currentTerm, 0, 0, false)
    else if Consistent(nd.log, args) then AppendEntriesReply(args.term, 0, 0, true)
    else
      var (term, first) := Conflict(nd.log, args.prevLogIndex);
      AppendEntriesReply(args.term, term, first, false)
  }

  // Elections -------------------------------------------------------------------------------------

  function AfterStartElection(nd: Node, me: nat, n: nat): Node {
    Persisted(nd.(role := Candidate, currentTerm := nd.currentTerm + 1, voteFor := me,
                  ballot := Ballot(nd.currentTerm + 1, 1, Others(n, me))))
  }

  function VoteRequest(nd: Node, me: nat): RequestVoteArgs
    requires |nd.log| > 0
  {
    RequestVoteArgs(nd.currentTerm, me, |nd.log| - 1, LastTerm(nd.log))
  }

  /** The vote goes on the tally of its own election, even if the role has changed since. */
  function CountedVote(nd: Node, from: nat): Node {
    nd.(ballot := nd.ballot.(votes := nd.ballot.votes + 1, awaiting := nd.ballot.awaiting - {from}))
  }

  predicate WinsWith(nd: Node, from: nat, n: nat) {
    nd.role == Candidate && CountedVote(nd, from).ballot.votes >= Majority(n)
  }

  function AsLeader(nd: Node, me: nat, n: nat): Node {
    nd.(role := Leader, leaderId := me, nextIndex := seq(n, _ => |nd.log|), matchIndex := seq(n, _ => 0))
  }

  function AfterVoteReply(nd: Node, me: nat, n: nat, from: nat, args: RequestVoteArgs, reply: RequestVoteReply): Node {
    if nd.currentTerm != args.term then nd
    else if !reply.voteGranted then
      var nd1 := nd.(ballot := nd.ballot.(awaiting := nd.ballot.awaiting - {from}));
      if nd.currentTerm < reply.term then SteppedDown(nd1, reply.term) else nd1
    else if WinsWith(nd, from, n) then AsLeader(CountedVote(nd, from), me, n)
    else CountedVote(nd, from)
  }

  // Replication -----------------------------------------------------------------------------------

  function NewBroadcast(nd: Node, me: nat, n: nat): Broadcast
    requires |nd.log| > 0
  {
    Broadcast(nd.currentTerm, |nd.log| - 1, nd.commitIndex, 1, false, Others(n, me), map[])
  }

  /** Start(): a leader appends the command, persists and launches a broadcast up to the new index. */
  function AfterStart(nd: Node, me: nat, n: nat, command: Command): Node {
    if nd.role != Leader then nd
    else
      var nd1 := Persisted(nd.(log := nd.log + [Entry(command, nd.currentTerm)]));
      nd1.(broadcasts := nd1.broadcasts + [NewBroadcast(nd1, me, n)])
  }

  function AfterHeartbeat(nd: Node, me: nat, n: nat): Node
    requires |nd.log| > 0
  {
    if nd.role != Leader then nd else nd.(broadcasts := nd.broadcasts + [NewBroadcast(nd, me, n)])
  }

  predicate StillLeads(nd: Node, b: nat)
    requires b < |nd.broadcasts|
  {
    nd.role == Leader && nd.currentTerm == nd.broadcasts[b].term
  }

  /** What a leader sends to `peer`: everything from nextIndex up to the broadcast's index, maybe nothing. */
  function AppendRequest(nd: Node, me: nat, b: Broadcast, peer: nat): AppendEntriesArgs
    requires peer < |nd.nextIndex| && 1 <= nd.nextIndex[peer] <= |nd.log| && b.index < |nd.log|
  {
    var next := nd.nextIndex[peer];
    AppendEntriesArgs(b.term, me, next - 1, nd.log[next - 1].term,
                      if next < b.index + 1 then nd.log[next..b.index + 1] else [], b.leaderCommit)
  }

  function AfterSend(nd: Node, me: nat, b: nat, peer: nat): Node
    requires b < |nd.broadcasts|
    requires StillLeads(nd, b) ==>
      peer < |nd.nextIndex| && 1 <= nd.nextIndex[peer] <= |nd.log| && nd.broadcasts[b].index < |nd.log|
  {
    var bc := nd.broadcasts[b];
    var inflight := if StillLeads(nd, b) then bc.inflight[peer := AppendRequest(nd, me, bc, peer)] else bc.inflight;
    nd.(broadcasts := nd.broadcasts[b := bc.(todo := bc.todo - {peer}, inflight := inflight)])
  }

  /** The last index at or below `from` whose term is `term`, or 0: the backward scan of getNextIndex. */
  function LastAtOrBelow(log: seq<Entry>, term: nat, from: nat): (i: nat)
    requires from < |log|
    ensures i <= from
    ensures i > 0 ==> log[i].term == term
    ensures forall j :: i < j <= from ==> log[j].term != term
  {
    if from == 0 || log[from].term == term then from else LastAtOrBelow(log, term, from - 1)
  }

  /** The end of the run of `term` that starts at `from`, looking no further than `limit`: the forward scan. */
  function RunEnd(log: seq<Entry>, term: nat, from: nat, limit: nat): (i: nat)
    requires from < limit <= |log|
    ensures from <= i < limit
    ensures forall j :: from < j <= i ==> log[j].term == term
    ensures i + 1 < limit ==> log[i + 1].term != term
    decreases limit - from
  {
    if from + 1 < limit && log[from + 1].term == term then RunEnd(log, term, from + 1, limit) else from
  }

  /** The log positions that getNextIndex reads exist. */
  predicate BackupInBounds(log: seq<Entry>, reply: AppendEntriesReply, nextIndex: nat) {
    reply.conflictTerm != 0 ==> reply.conflictFirstIndex < nextIndex <= |log|
  }

  function NextIndexAfter(log: seq<Entry>, reply: AppendEntriesReply, nextIndex: nat): nat
    requires BackupInBounds(log, reply, nextIndex)
  {
    if reply.conflictTerm == 0 then reply.conflictFirstIndex
    else if log[reply.conflictFirstIndex].term >= reply.conflictTerm then
      var found := LastAtOrBelow(log, reply.conflictTerm, reply.conflictFirstIndex);
      if found != 0 then RunEnd(log, reply.conflictTerm, found, nextIndex) + 1 else reply.conflictFirstIndex
    else reply.conflictFirstIndex
  }

  /** The reply of `peer` moves its call off the broadcast; a rejected call goes back to be retried. */
  function Returned(bc: Broadcast, peer: nat, retry: bool): Broadcast {
    bc.(inflight := bc.inflight - {peer}, todo := if retry then bc.todo + {peer} else bc.todo)
  }

  /** An accepted append: note the progress of the peer, count it, commit once a majority has the index. */
  function AfterAccepted(nd: Node, n: nat, b: nat, peer: nat): Node
    requires b < |nd.broadcasts| && nd.broadcasts[b].index < |nd.log|
    requires peer < |nd.nextIndex| == |nd.matchIndex|
  {
    var bc := nd.broadcasts[b];
    var nd1 := if nd.nextIndex[peer] < bc.index + 1
               then nd.(nextIndex := nd.nextIndex[peer := bc.index + 1], matchIndex := nd.matchIndex[peer := bc.index])
               else nd;
    var agrees := !bc.agreed && nd.role == Leader && bc.replicas + 1 >= Majority(n);
    var bc1 := Returned(bc, peer, false).(replicas := bc.replicas + 1, agreed := bc.agreed || agrees);
    var commits := agrees && nd.commitIndex < bc.index && nd.log[bc.index].term == nd.currentTerm;
    nd1.(broadcasts := nd.broadcasts[b := bc1], commitIndex := if commits then bc.index else nd.commitIndex)
  }

  predicate AppendReplyInBounds(nd: Node, b: nat, peer: nat, args: AppendEntriesArgs, reply: AppendEntriesReply) {
    && b < |nd.broadcasts|
    && peer < |nd.nextIndex| == |nd.matchIndex|
    && (nd.currentTerm == args.term ==>
          if reply.success then nd.broadcasts[b].index < |nd.log|
          else reply.term <= args.term ==> BackupInBounds(nd.log, reply, args.prevLogIndex + 1))
  }

  function AfterAppendReply(nd: Node, n: nat, b: nat, peer: nat, args: AppendEntriesArgs, reply: AppendEntriesReply): Node
    requires AppendReplyInBounds(nd, b, peer, args, reply)
  {
    var bc := nd.broadcasts[b];
    if nd.currentTerm != args.term then nd.(broadcasts := nd.broadcasts[b := Returned(bc, peer, false)])
    else if reply.success then AfterAccepted(nd, n, b, peer)
    else if args.term < reply.term then
      SteppedDown(nd.(broadcasts := nd.broadcasts[b := Returned(bc, peer, false)]), reply.term)
    else
      nd.(nextIndex := nd.nextIndex[peer := NextIndexAfter(nd.log, reply, args.prevLogIndex + 1)],
          broadcasts := nd.broadcasts[b := Returned(bc, peer, true)])
  }

  // Applying and restarting -----------------------------------------------------------------------

  /** One turn of the apply loop: deliver the entry after lastApplied, if it is committed. */
  function AfterApply(nd: Node): Node
    requires nd.commitIndex < |nd.log|
  {
    if nd.lastApplied >= nd.commitIndex then nd
    else
      var i := nd.lastApplied + 1;
      nd.(lastApplied := i, applied := nd.applied + [ApplyMsg(nd.log[i].command, i)])
  }

  const BLANK_DISK := Persistent(0, -1, [PLACEHOLDER])

  /** Make(): everything but the persisted triple starts afresh. */
  function Booted(disk: Persistent, n: nat): Node {
    Node(disk.currentTerm, disk.voteFor, disk.log, disk, Follower, -1, 0, 0,
         seq(n, _ => 0), seq(n, _ => 0), Ballot(0, 0, {}), [], [])
  }
}
