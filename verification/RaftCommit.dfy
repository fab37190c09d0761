/**
  * The other half of the counting rules: a majority of votes is never missed, and a leader whose broadcast has been
  * counted by a majority has committed its index, if the entry there is of its own term. Together with
  * ReplicationCountIsSound, the count is exact.
  */
module RaftCommit {
  import opened RaftTypes
  import opened RaftHandlers
  import opened RaftCluster
  import opened RaftInvariant
  import opened RaftSafety

  ghost predicate TallyInv(n: nat, nd: Node, bc: Broadcast) {
    bc.term == nd.currentTerm ==>
      && nd.role == Leader && bc.index < |nd.log|
      && (bc.replicas >= Majority(n) ==> bc.agreed)
      && (bc.agreed ==> nd.commitIndex >= bc.index || nd.log[bc.index].term != nd.currentTerm)
  }

  /** A peer that is no follower voted for itself, and a lone peer gets no votes, so it never leads. */
  ghost predicate LeadInv(n: nat, i: nat, nd: Node) {
    && nd.ballot.awaiting <= Others(n, i)
    && (nd.role != Follower ==> nd.voteFor == i)
    && (nd.role == Leader ==> n >= 2)
    && (nd.role == Candidate && n >= 2 ==> nd.ballot.votes < Majority(n))
  }

  ghost predicate CountInv(n: nat, i: nat, nd: Node) {
    LeadInv(n, i, nd) && forall bc :: bc in nd.broadcasts ==> TallyInv(n, nd, bc)
  }

  /** What the main invariant says of the terms of broadcasts. */
  predicate OldBroadcasts(nd: Node) {
    forall bc :: bc in nd.broadcasts ==> bc.term <= nd.currentTerm
  }

  lemma BroadcastTerms(n: nat, h: History, i: nat, nd: Node)
    requires NodeInv(n, h, i, nd)
    ensures OldBroadcasts(nd) && |nd.log| > 0
  {
    forall bc | bc in nd.broadcasts ensures bc.term <= nd.currentTerm {
      assert BroadcastInv(n, h, i, nd, bc);
    }
  }

  lemma SteppedDownCounts(n: nat, i: nat, nd: Node, term: nat)
    requires LeadInv(n, i, nd) && OldBroadcasts(nd) && nd.currentTerm < term
    ensures CountInv(n, i, SteppedDown(nd, term))
  {
  }

  lemma ElectionCounts(n: nat, i: nat, nd: Node)
    requires CountInv(n, i, nd) && OldBroadcasts(nd)
    ensures CountInv(n, i, AfterStartElection(nd, i, n))
  {
  }

  /** A leader or candidate refuses its vote to others in its term. */
  lemma VoteRequestCounts(n: nat, i: nat, nd: Node, args: RequestVoteArgs)
    requires CountInv(n, i, nd) && OldBroadcasts(nd) && |nd.log| > 0 && args.candidateId != i
    ensures CountInv(n, i, AfterRequestVote(nd, args))
  {
    if nd.currentTerm < args.term {
      SteppedDownCounts(n, i, nd, args.term);
    }
    assert nd.currentTerm == args.term && nd.role != Follower ==> !GrantsVote(nd, args);
  }

  lemma VoteReplyCounts(n: nat, i: nat, nd: Node, from: nat, args: RequestVoteArgs, reply: RequestVoteReply)
    requires CountInv(n, i, nd) && OldBroadcasts(nd) && i < n && from in nd.ballot.awaiting
    ensures CountInv(n, i, AfterVoteReply(nd, i, n, from, args, reply))
  {
    assert from in Others(n, i);
    var returned := nd.(ballot := nd.ballot.(awaiting := nd.ballot.awaiting - {from}));
    if nd.currentTerm < reply.term {
      SteppedDownCounts(n, i, returned, reply.term);
    }
  }

  /** A leader gets no append request of its own term. */
  lemma AppendRequestCounts(n: nat, i: nat, nd: Node, args: AppendEntriesArgs)
    requires CountInv(n, i, nd) && OldBroadcasts(nd)
    requires nd.role == Leader ==> args.term != nd.currentTerm
    ensures CountInv(n, i, AfterAppendEntries(nd, args))
  {
    hide Consistent, MergedLog;
    if nd.currentTerm < args.term {
      SteppedDownCounts(n, i, nd, args.term);
    }
  }

  /** Which calls a broadcast still has out does not matter. */
  lemma SameTally(n: nat, i: nat, nd: Node, b: nat, bc': Broadcast)
    requires CountInv(n, i, nd) && b < |nd.broadcasts|
    requires bc' == nd.broadcasts[b].(todo := bc'.todo, inflight := bc'.inflight)
    ensures CountInv(n, i, nd.(broadcasts := nd.broadcasts[b := bc']))
  {
    var nd' := nd.(broadcasts := nd.broadcasts[b := bc']);
    forall bc | bc in nd'.broadcasts ensures TallyInv(n, nd', bc) {
      var x :| 0 <= x < |nd'.broadcasts| && nd'.broadcasts[x] == bc;
      assert TallyInv(n, nd, nd.broadcasts[x]);
    }
  }

  lemma SendCounts(n: nat, i: nat, nd: Node, b: nat, peer: nat)
    requires CountInv(n, i, nd) && b < |nd.broadcasts|
    requires StillLeads(nd, b) ==>
      peer < |nd.nextIndex| && 1 <= nd.nextIndex[peer] <= |nd.log| && nd.broadcasts[b].index < |nd.log|
    ensures CountInv(n, i, AfterSend(nd, i, b, peer))
  {
    SameTally(n, i, nd, b, AfterSend(nd, i, b, peer).broadcasts[b]);
  }

  lemma NewBroadcastCounts(n: nat, i: nat, nd: Node)
    requires CountInv(n, i, nd) && |nd.log| > 0 && nd.role == Leader
    ensures CountInv(n, i, nd.(broadcasts := nd.broadcasts + [NewBroadcast(nd, i, n)]))
  {
    assert TallyInv(n, nd, NewBroadcast(nd, i, n));
  }

  lemma StartCounts(n: nat, i: nat, nd: Node, command: Command)
    requires CountInv(n, i, nd)
    ensures CountInv(n, i, AfterStart(nd, i, n, command))
  {
    if nd.role == Leader {
      var nd1 := Persisted(nd.(log := nd.log + [Entry(command, nd.currentTerm)]));
      forall bc | bc in nd1.broadcasts ensures TallyInv(n, nd1, bc) {
        assert TallyInv(n, nd, bc);
      }
      NewBroadcastCounts(n, i, nd1);
    }
  }

  lemma AcceptedCounts(n: nat, i: nat, nd: Node, b: nat, peer: nat)
    requires CountInv(n, i, nd) && b < |nd.broadcasts| && nd.broadcasts[b].index < |nd.log|
    requires peer < |nd.nextIndex| == |nd.matchIndex|
    ensures CountInv(n, i, AfterAccepted(nd, n, b, peer))
  {
    var nd' := AfterAccepted(nd, n, b, peer);
    assert TallyInv(n, nd, nd.broadcasts[b]);
    forall bc | bc in nd'.broadcasts ensures TallyInv(n, nd', bc) {
      var x :| 0 <= x < |nd'.broadcasts| && nd'.broadcasts[x] == bc;
      if x != b {
        assert TallyInv(n, nd, nd.broadcasts[x]);
      }
    }
  }

  lemma ReturnedCounts(n: nat, i: nat, nd: Node, b: nat, peer: nat, retry: bool)
    requires CountInv(n, i, nd) && b < |nd.broadcasts|
    ensures CountInv(n, i, nd.(broadcasts := nd.broadcasts[b := Returned(nd.broadcasts[b], peer, retry)]))
  {
    SameTally(n, i, nd, b, Returned(nd.broadcasts[b], peer, retry));
  }

  lemma AppendReplyCounts(n: nat, i: nat, nd: Node, b: nat, peer: nat, args: AppendEntriesArgs, reply: AppendEntriesReply)
    requires CountInv(n, i, nd) && OldBroadcasts(nd) && AppendReplyInBounds(nd, b, peer, args, reply)
    ensures CountInv(n, i, AfterAppendReply(nd, n, b, peer, args, reply))
  {
    hide NextIndexAfter, BackupInBounds, AfterAccepted;
    if nd.currentTerm == args.term && reply.success {
      AcceptedCounts(n, i, nd, b, peer);
    } else {
      ReturnedCounts(n, i, nd, b, peer, false);
      ReturnedCounts(n, i, nd, b, peer, true);
      if nd.currentTerm == args.term < reply.term {
        SteppedDownCounts(n, i, nd.(broadcasts := nd.broadcasts[b := Returned(nd.broadcasts[b], peer, false)]), reply.term);
      }
    }
  }

  lemma ApplyCounts(n: nat, i: nat, nd: Node)
    requires CountInv(n, i, nd) && nd.commitIndex < |nd.log|
    ensures CountInv(n, i, AfterApply(nd))
  {
  }

  /** Facts about the message that a step consumes. */
  lemma ForOthers(c: Cluster, s: Step)
    requires Inv(c) && Enabled(c, s)
    ensures s.HandleVoteRequest? ==> s.voteArgs.candidateId != s.i
    ensures s.HandleAppendRequest? && c.nodes[s.i].role == Leader ==> s.args.term != c.nodes[s.i].currentTerm
  {
    hide HistInv, LogInv, RecordsInv, AcksInv, AppliedInv;
    assert NodeInv(c.n, c.hist, s.i, c.nodes[s.i]);
    if s.HandleVoteRequest? {
      assert MsgInv(c.n, c.hist, VoteRequested(s.voteArgs, s.i));
    } else if s.HandleAppendRequest? {
      assert MsgInv(c.n, c.hist, AppendRequested(s.args, s.i));
    }
  }

  lemma StepCounts(c: Cluster, s: Step)
    requires Inv(c) && Enabled(c, s) && InBounds(c, s) && CountInv(c.n, s.i, c.nodes[s.i])
    ensures CountInv(c.n, s.i, After(c, s))
  {
    hide Inv, CountInv, AppendReplyInBounds, AfterRequestVote, AfterVoteReply, AfterAppendEntries, AfterAppendReply,
         AfterStart, AfterStartElection, AfterApply;
    NodeOf(c, s.i);
    var n, i, nd := c.n, s.i, c.nodes[s.i];
    BroadcastTerms(n, c.hist, i, nd);
    ForOthers(c, s);
    match s
    case Timeout(_) => ElectionCounts(n, i, nd);
    case HandleVoteRequest(_, args) => VoteRequestCounts(n, i, nd, args);
    case HandleVoteReply(_, from, args, reply) =>
      AwaitingIsOther(n, i, nd);
      VoteReplyCounts(n, i, nd, from, args, reply);
    case HandleAppendRequest(_, args) => AppendRequestCounts(n, i, nd, args);
    case HandleAppendReply(_, b, peer, args, reply) => AppendReplyCounts(n, i, nd, b, peer, args, reply);
    case SendAppend(_, b, peer) => SendCounts(n, i, nd, b, peer);
    case ClientCommand(_, command) => StartCounts(n, i, nd, command);
    case Heartbeat(_) =>
      if nd.role == Leader {
        NewBroadcastCounts(n, i, nd);
      }
    case Apply(_) => ApplyCounts(n, i, nd);
    case Restart(_) => BootedCounts(n, i, nd.disk);
  }

  lemma NodeOf(c: Cluster, i: nat)
    requires Inv(c) && i < c.n
    ensures |c.nodes| == c.n && NodeInv(c.n, c.hist, i, c.nodes[i])
  {
  }

  lemma AwaitingIsOther(n: nat, i: nat, nd: Node)
    requires CountInv(n, i, nd)
    ensures nd.ballot.awaiting <= Others(n, i)
  {
  }

  lemma BootedCounts(n: nat, i: nat, disk: Persistent)
    ensures CountInv(n, i, Booted(disk, n))
  {
  }

  lemma {:induction false} RunCounts(n: nat, run: seq<Cluster>, b: nat, i: nat)
    requires IsRun(n, run) && b < |run| && i < n
    ensures |run[b].nodes| == n && CountInv(n, i, run[b].nodes[i])
    decreases b
  {
    hide Inv, Enabled, InBounds, After, Recorded, Sent, CountInv;
    if b == 0 {
      BootedCounts(n, i, BLANK_DISK);
    } else {
      RunCounts(n, run, b - 1, i);
      var s := StepOfRun(n, run, b - 1);
      if s.i == i {
        StepCounts(run[b - 1], s);
      }
    }
  }

  /** A majority count is never missed: the index is committed as soon as its broadcast has one. */
  lemma MajorityIsCommitted(n: nat, run: seq<Cluster>, b: nat, i: nat, bc: Broadcast)
    requires IsRun(n, run) && b < |run| && i < n && |run[b].nodes| == n && bc in run[b].nodes[i].broadcasts
    ensures var nd := run[b].nodes[i];
            bc.term == nd.currentTerm && bc.replicas >= Majority(n) ==>
              && nd.role == Leader && bc.index < |nd.log|
              && (nd.log[bc.index].term == nd.currentTerm ==> nd.commitIndex >= bc.index)
  {
    RunCounts(n, run, b, i);
    assert TallyInv(n, run[b].nodes[i], bc);
  }

  /** Nor is a majority of votes: a candidate that has counted one is a candidate no more. */
  lemma MajorityIsElected(n: nat, run: seq<Cluster>, b: nat, i: nat)
    requires IsRun(n, run) && b < |run| && i < n && n >= 2
    ensures |run[b].nodes| == n
    ensures var nd := run[b].nodes[i]; nd.role == Candidate ==> nd.voteFor == i && nd.ballot.votes < Majority(n)
  {
    RunCounts(n, run, b, i);
  }

  /** A follower that accepts an append learns all that the leader knew to be committed: the cap never bites. */
  lemma AcceptedLearnsCommit(n: nat, run: seq<Cluster>, b: nat, i: nat, args: AppendEntriesArgs)
    requires IsRun(n, run) && b < |run| && i < n && AppendRequested(args, i) in run[b].net
    ensures |run[b].nodes| == n
    ensures var nd := run[b].nodes[i]; var nd' := AfterAppendEntries(nd, args);
            Accepts(nd, args) ==> nd'.commitIndex == Max(nd.commitIndex, args.leaderCommit) && args.leaderCommit < |nd'.log|
  {
    hide Inv, IsRun, AfterAppendEntries, Accepts;
    InFlightCommitBound(n, run, b, args, i);
    RunInv(n, run, b);
    NodeOf(run[b], i);
    if Accepts(run[b].nodes[i], args) {
      LearnsCommit(run[b].nodes[i], args);
    }
  }

  lemma LearnsCommit(nd: Node, args: AppendEntriesArgs)
    requires Accepts(nd, args) && args.leaderCommit <= args.LastIndex()
    ensures var nd' := AfterAppendEntries(nd, args);
            nd'.commitIndex == Max(nd.commitIndex, args.leaderCommit) && args.leaderCommit < |nd'.log|
  {
    MergeReaches(nd.log, args);
  }

  lemma MergeReaches(log: seq<Entry>, args: AppendEntriesArgs)
    requires Consistent(log, args)
    ensures |MergedLog(log, args)| > args.LastIndex()
  {
    if HasAll(log, args) && args.entries != [] {
      var last := |args.entries| - 1;
      assert HasTermAt(log, args.prevLogIndex + 1 + last, args.entries[last].term);
    }
  }
}
