/**
  * What each step of a peer promises, read off the peer's fields and the messages alone: when it says yes, what it
  * counts, whom it calls and what it tells them. The safety theorems only bound what a peer may do; these laws and
  * RaftProgress.dfy say what it does.
  */
module RaftLaws {
  import opened RaftTypes
  import opened RaftHandlers
  import opened RaftCluster
  import opened RaftInvariant
  import opened RaftSafety

  /** (term, index) comes before or equals (term', index') in lexicographic order. */
  predicate AtMost(term: nat, index: nat, term': nat, index': nat) {
    term < term' || (term == term' && index <= index')
  }

  /** The persister holds what is in memory. */
  predicate Stored(nd: Node) {
    nd.disk.currentTerm == nd.currentTerm && nd.disk.voteFor == nd.voteFor && nd.disk.log == nd.log
  }

  // Voting -------------------------------------------------------------------------------------------

  /**
    * A vote is granted exactly when the request is not old, the vote of its term is free or already the candidate's,
    * and the voter's last (term, index) is at most the candidate's.
    */
  lemma VoteGrantedIff(nd: Node, args: RequestVoteArgs)
    requires |nd.log| > 0
    ensures var last := |nd.log| - 1;
            RequestVoteAnswer(nd, args).voteGranted <==>
            && nd.currentTerm <= args.term
            && (nd.currentTerm < args.term || nd.voteFor == -1 || nd.voteFor == args.candidateId)
            && AtMost(nd.log[last].term, last, args.lastLogTerm, args.lastLogIndex)
  {
  }

  /** The vote goes to the candidate, a newer term frees it and makes the peer a follower, and nothing else changes. */
  lemma VoteRequestChanges(nd: Node, args: RequestVoteArgs)
    requires |nd.log| > 0
    ensures var nd' := AfterRequestVote(nd, args); var reply := RequestVoteAnswer(nd, args);
            && nd'.currentTerm == reply.term == Max(nd.currentTerm, args.term)
            && nd'.voteFor == (if reply.voteGranted then args.candidateId
                               else if nd.currentTerm < args.term then -1 else nd.voteFor)
            && nd'.role == (if reply.voteGranted || nd.currentTerm < args.term then Follower else nd.role)
            && (Stored(nd) ==> Stored(nd'))
            && nd' == nd.(currentTerm := nd'.currentTerm, voteFor := nd'.voteFor, role := nd'.role, disk := nd'.disk)
  {
  }

  /** A candidate asks all others for a vote in a new term, in which it votes for itself, showing its own last entry. */
  lemma StandsForElection(nd: Node, me: nat, n: nat)
    requires |nd.log| > 0 && me < n
    ensures var nd' := AfterStartElection(nd, me, n); var request := VoteRequest(nd', me); var last := |nd.log| - 1;
            && nd'.currentTerm == nd.currentTerm + 1 && nd'.voteFor == me && nd'.role == Candidate && Stored(nd')
            && nd'.log == nd.log && nd'.commitIndex == nd.commitIndex
            && nd'.ballot.term == nd'.currentTerm && nd'.ballot.votes == 1
            && (forall p: nat :: p in nd'.ballot.awaiting <==> p < n && p != me)
            && request.term == nd'.currentTerm && request.candidateId == me
            && request.lastLogIndex == last && request.lastLogTerm == nd.log[last].term
  {
  }

  /** A granted vote of the current term counts one; with len/2 + 1 a candidate leads, and knows nothing of its peers. */
  lemma VoteCounted(nd: Node, me: nat, n: nat, from: nat, args: RequestVoteArgs, reply: RequestVoteReply)
    requires nd.currentTerm == args.term && reply.voteGranted
    ensures var nd' := AfterVoteReply(nd, me, n, from, args, reply);
            && nd'.ballot == nd.ballot.(votes := nd.ballot.votes + 1, awaiting := nd.ballot.awaiting - {from})
            && nd'.currentTerm == nd.currentTerm && nd'.voteFor == nd.voteFor && nd'.log == nd.log
            && (if nd.role == Candidate && nd.ballot.votes + 1 >= n / 2 + 1 then
                  && nd'.role == Leader && nd'.leaderId == me && |nd'.nextIndex| == |nd'.matchIndex| == n
                  && forall p :: 0 <= p < n ==> nd'.nextIndex[p] == |nd.log| && nd'.matchIndex[p] == 0
                else nd' == nd.(ballot := nd'.ballot))
  {
  }

  // Newer and older terms ----------------------------------------------------------------------------

  predicate FollowerOf(nd: Node, nd': Node, term: nat) {
    && nd'.currentTerm == term && nd'.role == Follower && nd'.voteFor == -1 && Stored(nd')
    && nd'.log == nd.log && nd'.commitIndex == nd.commitIndex && nd'.lastApplied == nd.lastApplied
  }

  /** A refusal that shows a newer term makes the peer a follower of that term that has not voted. */
  lemma NewerTermStepsDown(nd: Node, me: nat, n: nat, from: nat, args: RequestVoteArgs, reply: RequestVoteReply)
    requires nd.currentTerm == args.term && !reply.voteGranted && nd.currentTerm < reply.term
    ensures FollowerOf(nd, AfterVoteReply(nd, me, n, from, args, reply), reply.term)
  {
  }

  /** So does a rejected append. */
  lemma NewerTermEndsLeadership(nd: Node, n: nat, b: nat, peer: nat, args: AppendEntriesArgs, reply: AppendEntriesReply)
    requires AppendReplyInBounds(nd, b, peer, args, reply)
    requires nd.currentTerm == args.term && !reply.success && args.term < reply.term
    ensures FollowerOf(nd, AfterAppendReply(nd, n, b, peer, args, reply), reply.term)
  {
  }

  /** A reply to a request of another term changes nothing but the goroutines that waited for it. */
  lemma StaleReplyIgnored(nd: Node, me: nat, n: nat, from: nat, vote: RequestVoteArgs, voteReply: RequestVoteReply,
                          b: nat, args: AppendEntriesArgs, reply: AppendEntriesReply)
    requires AppendReplyInBounds(nd, b, from, args, reply)
    ensures nd.currentTerm != vote.term ==> AfterVoteReply(nd, me, n, from, vote, voteReply) == nd
    ensures nd.currentTerm != args.term ==>
              var nd' := AfterAppendReply(nd, n, b, from, args, reply);
              && nd' == nd.(broadcasts := nd'.broadcasts) && |nd'.broadcasts| == |nd.broadcasts|
              && nd'.broadcasts[b].todo == nd.broadcasts[b].todo && from !in nd'.broadcasts[b].inflight
  {
  }

  // Appending ----------------------------------------------------------------------------------------

  /** An append is accepted exactly when it is not old and the log has its previous entry. */
  lemma AppendAcceptedIff(nd: Node, args: AppendEntriesArgs)
    ensures var reply := AppendEntriesAnswer(nd, args);
            && reply.term == Max(nd.currentTerm, args.term)
            && (reply.success <==>
                && nd.currentTerm <= args.term
                && args.prevLogIndex < |nd.log| && nd.log[args.prevLogIndex].term == args.prevLogTerm)
  {
  }

  /** Then the sender is the leader, the log has every entry of it by term, and what was before it is kept. */
  lemma AcceptedAppendChanges(nd: Node, args: AppendEntriesArgs)
    requires |nd.log| > 0 && AppendEntriesAnswer(nd, args).success
    ensures var nd' := AfterAppendEntries(nd, args); var next := args.prevLogIndex + 1;
            && nd'.currentTerm == args.term && nd'.role == Follower && nd'.leaderId == args.leaderId && Stored(nd')
            && nd'.voteFor == (if nd.currentTerm < args.term then -1 else nd.voteFor)
            && next + |args.entries| <= |nd'.log| && nd'.log[..next] == nd.log[..next]
            && (forall j :: 0 <= j < |args.entries| ==> nd'.log[next + j].term == args.entries[j].term)
            && (nd'.log != nd.log ==> nd'.log[next..] == args.entries)
            && nd'.commitIndex == (if args.leaderCommit <= nd.commitIndex then nd.commitIndex
                                   else if args.leaderCommit <= args.LastIndex() then args.leaderCommit
                                   else args.LastIndex())
            && nd'.lastApplied == nd.lastApplied && nd'.applied == nd.applied
  {
    hide HasAll, MergedLog;
    MergeShows(nd.log, args);
  }

  lemma MergeShows(log: seq<Entry>, args: AppendEntriesArgs)
    requires args.prevLogIndex < |log| && log[args.prevLogIndex].term == args.prevLogTerm
    ensures var log', next := MergedLog(log, args), args.prevLogIndex + 1;
            && next + |args.entries| <= |log'| && log'[..next] == log[..next]
            && (forall j :: 0 <= j < |args.entries| ==> log'[next + j].term == args.entries[j].term)
            && (log' != log ==> log'[next..] == args.entries)
  {
    var next := args.prevLogIndex + 1;
    if HasAll(log, args) {
      forall j | 0 <= j < |args.entries| ensures next + j < |log| && log[next + j].term == args.entries[j].term {
        assert HasTermAt(log, next + j, args.entries[j].term);
      }
      assert args.entries != [] ==> HasTermAt(log, next + (|args.entries| - 1), args.entries[|args.entries| - 1].term);
    }
  }

  /** A rejected append changes at most the term, the vote that belongs to it, and the role. */
  lemma RejectedAppendChanges(nd: Node, args: AppendEntriesArgs)
    requires !AppendEntriesAnswer(nd, args).success
    ensures var nd' := AfterAppendEntries(nd, args);
            if nd.currentTerm < args.term then FollowerOf(nd, nd', args.term) else nd' == nd
  {
  }

  // Calling ------------------------------------------------------------------------------------------

  /** A call to every other server is still to be made, with all that the leader has and knows to be committed. */
  ghost predicate CallsAll(nd: Node, me: nat, n: nat, bc: Broadcast) {
    && (forall p: nat :: p in bc.todo <==> p < n && p != me)
    && bc.inflight == map[] && bc.replicas == 1 && !bc.agreed
    && bc.term == nd.currentTerm && bc.index + 1 == |nd.log| && bc.leaderCommit == nd.commitIndex
  }

  /** A leader's heartbeat starts such a broadcast, and changes nothing else. */
  lemma HeartbeatCallsAll(nd: Node, me: nat, n: nat)
    requires |nd.log| > 0
    ensures var nd' := AfterHeartbeat(nd, me, n);
            if nd.role != Leader then nd' == nd
            else
              && |nd'.broadcasts| == |nd.broadcasts| + 1 && nd'.broadcasts[..|nd.broadcasts|] == nd.broadcasts
              && CallsAll(nd, me, n, nd'.broadcasts[|nd.broadcasts|]) && nd' == nd.(broadcasts := nd'.broadcasts)
  {
  }

  /** So does Start, after appending the command as one entry of the leader's term. */
  lemma StartCallsAll(nd: Node, me: nat, n: nat, command: Command)
    ensures var nd' := AfterStart(nd, me, n, command);
            if nd.role != Leader then nd' == nd
            else
              && nd'.log == nd.log + [Entry(command, nd.currentTerm)] && Stored(nd')
              && |nd'.broadcasts| == |nd.broadcasts| + 1 && nd'.broadcasts[..|nd.broadcasts|] == nd.broadcasts
              && CallsAll(nd', me, n, nd'.broadcasts[|nd.broadcasts|])
              && nd' == nd.(log := nd'.log, disk := nd'.disk, broadcasts := nd'.broadcasts)
  {
  }

  /** The request has the entry before nextIndex and all entries from there through the broadcast's index. */
  lemma RequestShows(nd: Node, me: nat, bc: Broadcast, peer: nat)
    requires peer < |nd.nextIndex| && 1 <= nd.nextIndex[peer] <= |nd.log| && bc.index < |nd.log|
    ensures var args := AppendRequest(nd, me, bc, peer); var prev := nd.nextIndex[peer] - 1;
            && args.term == bc.term && args.leaderId == me && args.leaderCommit == bc.leaderCommit
            && args.prevLogIndex == prev && args.prevLogTerm == nd.log[prev].term
            && args.LastIndex() == Max(prev, bc.index)
            && forall j :: 0 <= j < |args.entries| ==> args.entries[j] == nd.log[prev + 1 + j]
  {
  }

  // Counting -----------------------------------------------------------------------------------------

  /** Only the caller's own place in the broadcast changes. */
  predicate OnlyBroadcast(nd: Node, nd': Node, b: nat) {
    && b < |nd.broadcasts| == |nd'.broadcasts|
    && forall x :: 0 <= x < |nd.broadcasts| && x != b ==> nd'.broadcasts[x] == nd.broadcasts[x]
  }

  /**
    * A success of the current term raises the count of its broadcast by one, and the peer's nextIndex past the
    * broadcast's index; the leader commits that index exactly when this completes a majority for an entry of its term.
    */
  lemma SuccessCounted(nd: Node, n: nat, b: nat, peer: nat, args: AppendEntriesArgs, reply: AppendEntriesReply)
    requires AppendReplyInBounds(nd, b, peer, args, reply) && nd.currentTerm == args.term && reply.success
    ensures var nd' := AfterAppendReply(nd, n, b, peer, args, reply);
            OnlyBroadcast(nd, nd', b) &&
            var bc, bc' := nd.broadcasts[b], nd'.broadcasts[b];
            var completes := !bc.agreed && nd.role == Leader && bc.replicas + 1 >= n / 2 + 1;
            && bc'.replicas == bc.replicas + 1 && bc'.todo == bc.todo && bc'.inflight == bc.inflight - {peer}
            && (bc'.agreed <==> bc.agreed || completes)
            && bc'.term == bc.term && bc'.index == bc.index && bc'.leaderCommit == bc.leaderCommit
            && nd'.nextIndex == nd.nextIndex[peer := Max(nd.nextIndex[peer], bc.index + 1)]
            && nd'.matchIndex == (if nd.nextIndex[peer] <= bc.index then nd.matchIndex[peer := bc.index] else nd.matchIndex)
            && nd'.commitIndex == (if completes && nd.log[bc.index].term == nd.currentTerm
                                   then Max(nd.commitIndex, bc.index) else nd.commitIndex)
            && nd' == nd.(broadcasts := nd'.broadcasts, nextIndex := nd'.nextIndex, matchIndex := nd'.matchIndex,
                          commitIndex := nd'.commitIndex)
  {
  }

  /** A conflict changes nextIndex of that peer only, and the call is made again. */
  lemma ConflictRetried(nd: Node, n: nat, b: nat, peer: nat, args: AppendEntriesArgs, reply: AppendEntriesReply)
    requires AppendReplyInBounds(nd, b, peer, args, reply)
    requires nd.currentTerm == args.term && !reply.success && reply.term <= args.term
    ensures var nd' := AfterAppendReply(nd, n, b, peer, args, reply);
            OnlyBroadcast(nd, nd', b) &&
            var bc, bc' := nd.broadcasts[b], nd'.broadcasts[b];
            && bc' == bc.(todo := bc.todo + {peer}, inflight := bc.inflight - {peer})
            && |nd'.nextIndex| == |nd.nextIndex| && (forall p :: 0 <= p < |nd.nextIndex| && p != peer ==> nd'.nextIndex[p] == nd.nextIndex[p])
            && nd' == nd.(broadcasts := nd'.broadcasts, nextIndex := nd'.nextIndex)
  {
  }

  // Applying and restarting --------------------------------------------------------------------------

  /** A turn of the apply loop delivers the next committed entry, if there is one, and nothing else changes. */
  lemma NextIsApplied(nd: Node)
    requires nd.commitIndex < |nd.log|
    ensures var nd' := AfterApply(nd); var i := nd.lastApplied + 1;
            if i <= nd.commitIndex then
              nd' == nd.(lastApplied := i, applied := nd.applied + [ApplyMsg(nd.log[i].command, i)])
            else nd' == nd
  {
  }

  /** A peer that starts again is a follower that knows its saved term, vote and log, and nothing of what is committed. */
  lemma RestartKeepsSaved(disk: Persistent, n: nat)
    ensures var nd := Booted(disk, n);
            && nd.currentTerm == disk.currentTerm && nd.voteFor == disk.voteFor && nd.log == disk.log && nd.disk == disk
            && nd.role == Follower && nd.commitIndex == 0 && nd.lastApplied == 0 && nd.applied == []
            && nd.ballot.awaiting == {} && nd.broadcasts == [] && |nd.nextIndex| == |nd.matchIndex| == n
  {
  }

  // Over runs ----------------------------------------------------------------------------------------

  /** The step launches a broadcast. */
  predicate Launches(c: Cluster, s: Step, i: nat)
    requires i < |c.nodes|
  {
    s.i == i && (s.Heartbeat? || s.ClientCommand?) && c.nodes[i].role == Leader
  }

  /** Broadcast x is still the one that was launched, and all its calls carry the commit index `commit`. */
  ghost predicate Carries(nd: Node, x: nat, term: nat, index: nat, commit: nat) {
    && x < |nd.broadcasts|
    && var bc := nd.broadcasts[x];
    && bc.term == term && bc.index == index && bc.leaderCommit == commit
    && forall p :: p in bc.inflight ==> bc.inflight[p].leaderCommit == commit
  }

  lemma LaunchCarries(c: Cluster, s: Step, i: nat)
    requires WellFormed(c) && Enabled(c, s) && InBounds(c, s) && i < c.n && Launches(c, s, i)
    ensures var nd, nd' := c.nodes[i], Do(c, s).nodes[i];
            |nd'.log| > 0 && Carries(nd', |nd.broadcasts|, nd.currentTerm, |nd'.log| - 1, nd.commitIndex)
  {
    hide Recorded, Sent, Enabled, InBounds;
    var nd := c.nodes[i];
    if s.Heartbeat? {
      HeartbeatCallsAll(nd, i, c.n);
    } else {
      StartCallsAll(nd, i, c.n, s.command);
    }
  }

  lemma StepCarries(c: Cluster, s: Step, i: nat, x: nat, term: nat, index: nat, commit: nat)
    requires WellFormed(c) && Enabled(c, s) && InBounds(c, s) && i < c.n && s != Restart(i)
    requires Carries(c.nodes[i], x, term, index, commit)
    ensures Carries(Do(c, s).nodes[i], x, term, index, commit)
  {
    hide Recorded, Sent, NextIndexAfter, BackupInBounds, UpToDate, Consistent, MergedLog, AdvancedCommit;
    if s.i == i && s.HandleAppendReply? {
      ReplyCarries(c.nodes[i], c.n, s.b, s.peer, s.args, s.reply, x, term, index, commit);
    }
  }

  lemma ReplyCarries(nd: Node, n: nat, b: nat, peer: nat, args: AppendEntriesArgs, reply: AppendEntriesReply,
                     x: nat, term: nat, index: nat, commit: nat)
    requires AppendReplyInBounds(nd, b, peer, args, reply) && Carries(nd, x, term, index, commit)
    ensures Carries(AfterAppendReply(nd, n, b, peer, args, reply), x, term, index, commit)
  {
    hide NextIndexAfter, BackupInBounds;
  }

  lemma {:induction false} LaunchedCarries(n: nat, run: seq<Cluster>, steps: seq<Step>, a: nat, b: nat, i: nat)
    requires IsRun(n, run) && StepsOf(run, steps) && a < b < |run| && i < n && |run[a].nodes| == n
    requires Launches(run[a], steps[a], i) && forall k :: a < k < b ==> steps[k] != Restart(i)
    ensures |run[a + 1].nodes| == n && |run[b].nodes| == n
    ensures var nd := run[a].nodes[i];
            Carries(run[b].nodes[i], |nd.broadcasts|, nd.currentTerm, |run[a + 1].nodes[i].log| - 1, nd.commitIndex)
    decreases b
  {
    hide Carries, Enabled, InBounds, Do, Inv, IsRun, Launches;
    RunInv(n, run, a);
    RunInv(n, run, a + 1);
    RunInv(n, run, b);
    SameSize(run[a]);
    SameSize(run[a + 1]);
    SameSize(run[b]);
    if b == a + 1 {
      LaunchCarries(run[a], steps[a], i);
    } else {
      LaunchedCarries(n, run, steps, a, b - 1, i);
      var nd := run[a].nodes[i];
      assert run[b] == run[b - 1 + 1];
      StepCarries(run[b - 1], steps[b - 1], i, |nd.broadcasts|, nd.currentTerm, |run[a + 1].nodes[i].log| - 1, nd.commitIndex);
    }
  }

  lemma SameSize(c: Cluster)
    requires Inv(c)
    ensures |c.nodes| == c.n && WellFormed(c)
  {
  }

  /**
    * Whatever is sent for a broadcast, however late and however often, tells a follower the commit index that the
    * leader had when it launched it, and a follower that accepts it, in any state, then has at least that.
    */
  lemma CommitIsTold(n: nat, run: seq<Cluster>, steps: seq<Step>, a: nat, b: nat, i: nat, p: nat, m: Message, c: nat)
    requires IsRun(n, run) && StepsOf(run, steps) && a < b < |steps| && i < n && |run[a].nodes| == n
    requires Launches(run[a], steps[a], i) && forall k :: a < k < b ==> steps[k] != Restart(i)
    requires steps[b] == SendAppend(i, |run[a].nodes[i].broadcasts|, p) && m in Sent(run[b], steps[b])
    requires c < |run| && p < n
    ensures m.AppendRequested? && m.dst == p && m.args.leaderCommit == run[a].nodes[i].commitIndex
    ensures |run[c].nodes| == n
    ensures m in run[c].net && AppendEntriesAnswer(run[c].nodes[p], m.args).success ==>
              AfterAppendEntries(run[c].nodes[p], m.args).commitIndex >= run[a].nodes[i].commitIndex
  {
    hide Carries, Enabled, Do, Inv, IsRun, Launches, AfterAppendEntries, AppendEntriesAnswer;
    LaunchedCarries(n, run, steps, a, b, i);
    SentCarries(run[b], steps[b], i, |run[a].nodes[i].broadcasts|, p, m, run[a].nodes[i].currentTerm,
                |run[a + 1].nodes[i].log| - 1, run[a].nodes[i].commitIndex);
    RunInv(n, run, c);
    SameSize(run[c]);
    if m in run[c].net && AppendEntriesAnswer(run[c].nodes[p], m.args).success {
      InFlightCommitBound(n, run, c, m.args, p);
      NodeLogIsNonempty(run[c], p);
      AcceptedAppendChanges(run[c].nodes[p], m.args);
    }
  }

  lemma NodeLogIsNonempty(c: Cluster, p: nat)
    requires Inv(c) && p < c.n
    ensures |c.nodes| == c.n && |c.nodes[p].log| > 0
  {
  }

  lemma SentCarries(c: Cluster, s: Step, i: nat, x: nat, p: nat, m: Message, term: nat, index: nat, commit: nat)
    requires WellFormed(c) && Enabled(c, s) && InBounds(c, s) && s == SendAppend(i, x, p) && m in Sent(c, s)
    requires Carries(c.nodes[i], x, term, index, commit)
    ensures m.AppendRequested? && m.dst == p && m.args.leaderCommit == commit
  {
    RequestShows(c.nodes[i], i, c.nodes[i].broadcasts[x], p);
  }

  // Who can be elected -------------------------------------------------------------------------------

  /** The last entry of p's log is at most that of i's. */
  predicate NotAhead(c: Cluster, p: nat, i: nat)
    requires p < |c.nodes| && i < |c.nodes| && |c.nodes[p].log| > 0 && |c.nodes[i].log| > 0
  {
    var x, y := c.nodes[p].log, c.nodes[i].log;
    AtMost(x[|x| - 1].term, |x| - 1, y[|y| - 1].term, |y| - 1)
  }

  lemma {:induction false} GreatestExists(c: Cluster, s: set<nat>) returns (i: nat)
    requires WellFormed(c) && s != {} && forall p :: p in s ==> p < c.n
    ensures i in s && forall p :: p in s ==> NotAhead(c, p, i)
    decreases |s|
  {
    i :| i in s;
    if s != {i} {
      var first := i;
      var j := GreatestExists(c, s - {first});
      if NotAhead(c, first, j) {
        i := j;
      }
      forall p | p in s ensures NotAhead(c, p, i) {
        assert p != first ==> p in s - {first} && NotAhead(c, p, j);
      }
    }
  }

  /** Asked for a vote in the term by server i, with the log that i has now, server p says yes. */
  ghost predicate WouldGrant(c: Cluster, p: nat, i: nat, term: nat)
    requires p < |c.nodes| && i < |c.nodes| && |c.nodes[p].log| > 0 && |c.nodes[i].log| > 0
  {
    var last := |c.nodes[i].log| - 1;
    RequestVoteAnswer(c.nodes[p], RequestVoteArgs(term, i, last, c.nodes[i].log[last].term)).voteGranted
  }

  /**
    * In every reachable state, among any servers, one whose last (term, index) is greatest is granted the vote of each
    * of the others in any term that is new to them.
    */
  lemma GreatestIsGranted(n: nat, run: seq<Cluster>, b: nat, s: set<nat>) returns (i: nat)
    requires IsRun(n, run) && b < |run| && s != {} && forall p :: p in s ==> p < n
    ensures WellFormed(run[b]) && run[b].n == n && i in s
    ensures forall p, term: nat :: p in s && run[b].nodes[p].currentTerm < term ==> WouldGrant(run[b], p, i, term)
  {
    hide Inv, IsRun, RequestVoteAnswer;
    RunInv(n, run, b);
    SameSize(run[b]);
    i := GreatestExists(run[b], s);
    forall p, term: nat | p in s && run[b].nodes[p].currentTerm < term ensures WouldGrant(run[b], p, i, term) {
      var last := |run[b].nodes[i].log| - 1;
      VoteGrantedIff(run[b].nodes[p], RequestVoteArgs(term, i, last, run[b].nodes[i].log[last].term));
    }
  }

  // Who leads ----------------------------------------------------------------------------------------

  /** Servers that accept appends of one term, at any two moments, note the same leader. */
  lemma SameLeaderNoted(n: nat, run: seq<Cluster>, a: nat, p: nat, x: AppendEntriesArgs, b: nat, q: nat, y: AppendEntriesArgs)
    requires IsRun(n, run) && a <= b < |run| && p < n && q < n && x.term == y.term
    requires AppendRequested(x, p) in run[a].net && AppendRequested(y, q) in run[b].net
    ensures |run[a].nodes| == n && |run[b].nodes| == n
    ensures AppendEntriesAnswer(run[a].nodes[p], x).success && AppendEntriesAnswer(run[b].nodes[q], y).success ==>
              AfterAppendEntries(run[a].nodes[p], x).leaderId == AfterAppendEntries(run[b].nodes[q], y).leaderId
  {
    hide Inv, IsRun, AfterAppendEntries, AppendEntriesAnswer;
    RunInv(n, run, a);
    RunInv(n, run, b);
    SameSize(run[a]);
    SameSize(run[b]);
    RunGrows(n, run, a, b);
    MessageFits(n, run, a, x, p);
    MessageFits(n, run, b, y, q);
    assert LeaderGrows(run[a].hist, run[b].hist, x.term);
    if AppendEntriesAnswer(run[a].nodes[p], x).success && AppendEntriesAnswer(run[b].nodes[q], y).success {
      NodeLogIsNonempty(run[a], p);
      NodeLogIsNonempty(run[b], q);
      AcceptedAppendChanges(run[a].nodes[p], x);
      AcceptedAppendChanges(run[b].nodes[q], y);
    }
  }
}
