/** Election steps keep the invariant: standing, voting, counting a vote, becoming leader. */
module RaftElection {
  import opened RaftTypes
  import opened RaftHandlers
  import opened RaftCluster
  import opened RaftInvariant
  import opened RaftHistory

  /** The records that h' has and h has not satisfy their invariants, and nothing acknowledged is back-dated. */
  ghost predicate NewRecordsInv(n: nat, h: History, h': History) {
    && (forall s, t :: (s, t) in h'.candidacies && (s, t) !in h.candidacies ==> CandidacyInv(n, h', s, t))
    && (forall v, t :: (v, t) in h'.votes && (v, t) !in h.votes ==>
          VoteInv(n, h', v, t) && forall t0, k :: VoteAckInv(h', v, t, t0, k))
    && (forall t :: t in h'.leaders && (t in h.leaders ==> h'.leaders[t] != h.leaders[t]) ==> LeaderInv(n, h', t))
    && (forall s, t :: (s, t) in h'.acks && ((s, t) in h.acks ==> h'.acks[(s, t)] != h.acks[(s, t)]) ==>
          AckInv(n, h', s, t) && forall u :: (s, u) in h'.votes ==> u <= t)
    && (forall m :: m in h'.delivered && m !in h.delivered ==> DeliveryInv(n, h', m))
  }

  lemma OldCandidacyVoteDelivery(n: nat, h: History, h': History)
    requires HistInv(n, h) && Grows(h, h')
    ensures forall s, t :: (s, t) in h.candidacies ==> CandidacyInv(n, h', s, t)
    ensures forall v, t :: (v, t) in h.votes ==> VoteInv(n, h', v, t)
    ensures forall m :: m in h.delivered ==> DeliveryInv(n, h', m)
  {
    forall s, t | (s, t) in h.candidacies ensures CandidacyInv(n, h', s, t) {
      assert CandidacyInv(n, h, s, t);
      ProperLogGrows(h, h', h.candidacies[(s, t)]);
    }
    forall v, t | (v, t) in h.votes ensures VoteInv(n, h', v, t) {
      assert VoteInv(n, h, v, t);
    }
    forall m | m in h.delivered ensures DeliveryInv(n, h', m) {
      assert DeliveryInv(n, h, m);
      var t: nat, k: nat :|
        Committed(n, h, t, k) && 1 <= m.index <= k && h.leaders[t].log[m.index].command == m.command;
      CommittedGrows(n, h, h', t, k);
      assert h'.leaders[t].log[m.index] == h.leaders[t].log[m.index];
    }
  }

  lemma OldLeader(n: nat, h: History, h': History, t: nat)
    requires HistInv(n, h) && Grows(h, h') && t in h.leaders && h'.leaders[t] == h.leaders[t]
    ensures LeaderInv(n, h', t)
  {
    assert LeaderInv(n, h, t);
    ProperLogGrows(h, h', h.leaders[t].log);
  }

  lemma OldVoteAck(n: nat, h: History, h': History, v: nat, u: nat, t: nat, k: nat)
    requires HistInv(n, h) && Grows(h, h') && NewRecordsInv(n, h, h')
    ensures VoteAckInv(h', v, u, t, k)
  {
    if t < u && Counts(h', v, u) && Acked(h', v, t, k) && (v, u) in h.votes {
      assert (v, t) in h.acks && h'.acks[(v, t)] == h.acks[(v, t)];
      if u in h.leaders {
        assert LeaderGrows(h, h', u);
      }
      assert Counts(h, v, u) && Acked(h, v, t, k) && VoteAckInv(h, v, u, t, k);
      assert AckInv(n, h, v, t);
      KeptGrows(h, h', h.votes[(v, u)].log, t, k, u - 1, u - 1);
    }
  }

  lemma HistKept(n: nat, h: History, h': History)
    requires HistInv(n, h) && Grows(h, h') && NewRecordsInv(n, h, h')
    ensures HistInv(n, h')
  {
    OldCandidacyVoteDelivery(n, h, h');
    forall t | t in h'.leaders ensures LeaderInv(n, h', t) {
      if t in h.leaders && h'.leaders[t] == h.leaders[t] {
        OldLeader(n, h, h', t);
      }
    }
    forall s, t | (s, t) in h'.acks ensures AckInv(n, h', s, t) {
      if (s, t) in h.acks && h'.acks[(s, t)] == h.acks[(s, t)] {
        assert AckInv(n, h, s, t);
        assert LeaderGrows(h, h', t);
      }
    }
    forall v, u, t, k ensures VoteAckInv(h', v, u, t, k) {
      OldVoteAck(n, h, h', v, u, t, k);
    }
  }

  /** The obligations of one step: only server i's records grow, and the new state and messages fit them. */
  ghost predicate StepKeeps(c: Cluster, s: Step)
    requires WellFormed(c) && Enabled(c, s) && InBounds(c, s)
  {
    var h' := Recorded(c, s);
    && Grows(c.hist, h') && ChangedBy(c.hist, h', s.i) && HistInv(c.n, h')
    && NodeInv(c.n, h', s.i, After(c, s))
    && forall m :: m in Sent(c, s) ==> MsgInv(c.n, h', m)
  }

  // Parts of a peer's invariant that most steps keep for the same reasons ------------------------------

  /** With the same log and no new acknowledgement, what was kept is kept. */
  lemma SameLogAcks(n: nat, h: History, h': History, i: nat, nd: Node, nd': Node)
    requires HistInv(n, h) && Grows(h, h') && AcksInv(h, i, nd)
    requires forall t :: (i, t) in h'.acks ==> (i, t) in h.acks && h'.acks[(i, t)] == h.acks[(i, t)]
    requires nd'.log == nd.log && nd.currentTerm <= nd'.currentTerm
    ensures AcksInv(h', i, nd')
  {
    forall t, k | Acked(h', i, t, k) ensures Kept(h', nd'.log, t, k, nd'.currentTerm) {
      assert Acked(h, i, t, k) && AckInv(n, h, i, t);
      KeptGrows(h, h', nd.log, t, k, nd.currentTerm, nd'.currentTerm);
    }
  }

  /** Broadcasts of earlier terms are harmless. */
  lemma StaleBroadcasts(n: nat, h: History, h': History, i: nat, nd: Node, nd': Node)
    requires forall b :: b in nd.broadcasts ==> BroadcastInv(n, h, i, nd, b)
    requires nd'.broadcasts == nd.broadcasts && nd.currentTerm < nd'.currentTerm
    ensures forall b :: b in nd'.broadcasts ==> BroadcastInv(n, h', i, nd', b)
  {
    forall b | b in nd'.broadcasts ensures BroadcastInv(n, h', i, nd', b) {
      assert BroadcastInv(n, h, i, nd, b);
    }
  }

  /** Nothing was committed or applied by this step. */
  lemma SameApplied(n: nat, h: History, h': History, nd: Node, nd': Node)
    requires Grows(h, h') && AppliedInv(n, h, nd) && nd.currentTerm <= nd'.currentTerm
    requires nd'.log == nd.log && nd'.commitIndex == nd.commitIndex
    requires nd'.lastApplied == nd.lastApplied && nd'.applied == nd.applied
    ensures AppliedInv(n, h', nd')
  {
    CommitStoredGrows(n, h, h', nd.currentTerm, nd'.currentTerm, nd.log, nd.commitIndex);
  }

  /** Stepping down to a higher term keeps a peer's invariant. */
  lemma SteppedDownKeeps(n: nat, h: History, i: nat, nd: Node, term: nat)
    requires HistInv(n, h) && NodeInv(n, h, i, nd) && nd.currentTerm < term
    ensures NodeInv(n, h, i, SteppedDown(nd, term))
  {
    hide HistInv, AcksInv, AppliedInv, ProperLog, BroadcastInv, Grows;
    var nd' := SteppedDown(nd, term);
    SameHistory(h, i);
    SameLogAcks(n, h, h, i, nd, nd');
    StaleBroadcasts(n, h, h, i, nd, nd');
    SameApplied(n, h, h, nd, nd');
  }

  lemma CaughtUpKeeps(n: nat, h: History, i: nat, nd: Node, term: nat)
    requires HistInv(n, h) && NodeInv(n, h, i, nd)
    ensures NodeInv(n, h, i, CaughtUp(nd, term))
  {
    if nd.currentTerm < term {
      SteppedDownKeeps(n, h, i, nd, term);
    }
  }

  // Standing for election ----------------------------------------------------------------------------

  lemma StoodGrows(h: History, i: nat, u: nat, log: seq<Entry>)
    requires (i, u) !in h.candidacies && (i, u) !in h.votes
    ensures Grows(h, Stood(h, i, u, log)) && ChangedBy(h, Stood(h, i, u, log), i)
  {
  }

  lemma StoodKeeps(n: nat, h: History, i: nat, nd: Node)
    requires i < n && HistInv(n, h) && NodeInv(n, h, i, nd)
    ensures var h' := Stood(h, i, nd.currentTerm + 1, nd.log);
            Grows(h, h') && ChangedBy(h, h', i) && HistInv(n, h')
  {
    var u := nd.currentTerm + 1;
    var h' := Stood(h, i, u, nd.log);
    StoodGrows(h, i, u, nd.log);
    ProperLogGrows(h, h', nd.log);
    assert CandidacyInv(n, h', i, u) && VoteInv(n, h', i, u);
    forall t: nat, k: nat ensures VoteAckInv(h', i, u, t, k) {
      if t < u && Acked(h', i, t, k) {
        assert Acked(h, i, t, k) && AckInv(n, h, i, t);
        KeptGrows(h, h', nd.log, t, k, nd.currentTerm, u - 1);
      }
    }
    HistKept(n, h, h');
  }

  lemma StoodRole(n: nat, h: History, i: nat, nd: Node)
    requires i < n && NodeInv(n, h, i, nd)
    ensures var h' := Stood(h, i, nd.currentTerm + 1, nd.log);
            var nd' := AfterStartElection(nd, i, n);
            RoleInv(n, h', i, nd') && RecordsInv(h', i, nd')
  {
    var h', nd' := Stood(h, i, nd.currentTerm + 1, nd.log), AfterStartElection(nd, i, n);
    assert i in Granted(n, h', i, nd'.ballot);
    SubsetSize({i}, Granted(n, h', i, nd'.ballot));
  }

  lemma StoodNode(n: nat, h: History, h': History, i: nat, nd: Node, nd': Node)
    requires i < n && HistInv(n, h) && NodeInv(n, h, i, nd)
    requires h' == Stood(h, i, nd.currentTerm + 1, nd.log) && nd' == AfterStartElection(nd, i, n)
    ensures NodeInv(n, h', i, nd')
  {
    hide HistInv, AcksInv, AppliedInv, RoleInv, ProperLog, BroadcastInv, Grows, ChangedBy;
    assert (i, nd.currentTerm + 1) !in h.candidacies && (i, nd.currentTerm + 1) !in h.votes;
    StoodGrows(h, i, nd.currentTerm + 1, nd.log);
    StoodRole(n, h, i, nd);
    ProperLogGrows(h, h', nd.log);
    SameLogAcks(n, h, h', i, nd, nd');
    StaleBroadcasts(n, h, h', i, nd, nd');
    SameApplied(n, h, h', nd, nd');
  }

  lemma VoteRequestFits(n: nat, h: History, i: nat, nd: Node, p: nat)
    requires |nd.log| > 0 && p in Others(n, i)
    ensures MsgInv(n, Stood(h, i, nd.currentTerm + 1, nd.log),
                   VoteRequested(VoteRequest(AfterStartElection(nd, i, n), i), p))
  {
  }

  lemma TimeoutKeeps(c: Cluster, i: nat)
    requires Inv(c) && i < c.n
    ensures StepKeeps(c, Timeout(i))
  {
    hide HistInv, NodeInv, MsgInv, Grows, ChangedBy, AfterStartElection, Stood, VoteRequest;
    var nd := c.nodes[i];
    assert NodeInv(c.n, c.hist, i, nd);
    StoodKeeps(c.n, c.hist, i, nd);
    StoodNode(c.n, c.hist, Recorded(c, Timeout(i)), i, nd, After(c, Timeout(i)));
    forall m | m in Sent(c, Timeout(i)) ensures MsgInv(c.n, Recorded(c, Timeout(i)), m) {
      VoteRequestFits(c.n, c.hist, i, nd, m.dst);
    }
  }

  // Voting -------------------------------------------------------------------------------------------

  /** A first vote of this term: the electors of a leader, had there been one, voted before. */
  lemma VotedAck(n: nat, h: History, h': History, i: nat, nd: Node, u: nat, t: nat, k: nat)
    requires HistInv(n, h) && AcksInv(h, i, nd) && nd.currentTerm <= u
    requires (i, u) !in h.votes && Grows(h, h') && h'.leaders == h.leaders && h'.acks == h.acks
    requires (i, u) in h'.votes && h'.votes[(i, u)].log == nd.log
    ensures VoteAckInv(h', i, u, t, k)
  {
    if t < u && Counts(h', i, u) && Acked(h', i, t, k) {
      assert u in h.leaders ==> LeaderInv(n, h, u);
      assert u !in h.leaders;
      assert Acked(h, i, t, k) && AckInv(n, h, i, t);
      KeptGrows(h, h', nd.log, t, k, nd.currentTerm, u);
      OverruledBefore(h', nd.log, t, k, u);
    }
  }

  lemma VotedKeeps(n: nat, h: History, h': History, i: nat, nd: Node, args: RequestVoteArgs)
    requires i < n && HistInv(n, h) && NodeInv(n, h, i, nd)
    requires MsgInv(n, h, VoteRequested(args, i)) && GrantsVote(nd, args)
    requires h' == Voted(h, i, args.term, Vote(args.candidateId, nd.log))
    ensures Grows(h, h') && ChangedBy(h, h', i) && HistInv(n, h')
  {
    hide AcksInv, AppliedInv, BroadcastInv, RoleInv, VoteAckInv, HistInv, RecordsInv;
    SameHistory(h, i);
    if (i, args.term) !in h.votes {
      assert VoteInv(n, h', i, args.term);
      forall t: nat, k: nat ensures VoteAckInv(h', i, args.term, t, k) {
        VotedAck(n, h, h', i, nd, args.term, t, k);
      }
      HistKept(n, h, h');
    }
  }

  /** While term u has no leader, what is kept up to u is kept up to u - 1. */
  lemma OverruledBefore(h: History, log: seq<Entry>, t: nat, k: nat, u: nat)
    requires Kept(h, log, t, k, u) && u !in h.leaders
    ensures Kept(h, log, t, k, u - 1)
  {
  }

  lemma VotedNode(n: nat, h: History, h': History, i: nat, nd: Node, nd': Node, args: RequestVoteArgs)
    requires HistInv(n, h) && Grows(h, h') && ChangedBy(h, h', i) && NodeInv(n, h, i, nd)
    requires nd.currentTerm == args.term && (nd.voteFor == -1 || nd.voteFor == args.candidateId)
    requires h' == Voted(h, i, args.term, Vote(args.candidateId, nd.log))
    requires nd' == Persisted(nd.(voteFor := args.candidateId, role := Follower))
    ensures NodeInv(n, h', i, nd')
  {
    hide HistInv, AcksInv, AppliedInv, ProperLog, BroadcastInv, Grows, ChangedBy;
    ProperLogGrows(h, h', nd.log);
    SameLogAcks(n, h, h', i, nd, nd');
    SameApplied(n, h, h', nd, nd');
    forall b | b in nd'.broadcasts ensures BroadcastInv(n, h', i, nd', b) {
      BroadcastGrows(n, h, h', i, nd, b);
      SameBroadcast(n, h', i, nd, nd', b);
    }
  }

  lemma SameBroadcast(n: nat, h: History, i: nat, nd: Node, nd': Node, b: Broadcast)
    requires BroadcastInv(n, h, i, nd, b)
    requires nd'.currentTerm == nd.currentTerm && |nd'.log| >= |nd.log|
    ensures BroadcastInv(n, h, i, nd', b)
  {
  }

  lemma VoteRequestKeeps(c: Cluster, i: nat, args: RequestVoteArgs)
    requires Inv(c) && Enabled(c, HandleVoteRequest(i, args))
    ensures StepKeeps(c, HandleVoteRequest(i, args))
  {
    hide HistInv, NodeInv, Grows, ChangedBy, Voted;
    var n, h, nd := c.n, c.hist, c.nodes[i];
    var s := HandleVoteRequest(i, args);
    var nd1 := CaughtUp(nd, args.term);
    assert NodeInv(n, h, i, nd) && MsgInv(n, h, VoteRequested(args, i));
    CaughtUpKeeps(n, h, i, nd, args.term);
    if GrantsVote(nd, args) {
      VotedKeeps(n, h, Recorded(c, s), i, nd, args);
      VotedNode(n, h, Recorded(c, s), i, nd1, After(c, s), args);
      VotedIsRecorded(n, h, i, nd1, args);
    } else {
      SameHistory(h, i);
    }
  }

  lemma VotedIsRecorded(n: nat, h: History, i: nat, nd: Node, args: RequestVoteArgs)
    requires NodeInv(n, h, i, nd) && nd.currentTerm == args.term
    requires nd.voteFor == -1 || nd.voteFor == args.candidateId
    ensures var h' := Voted(h, i, args.term, Vote(args.candidateId, nd.log));
            (i, args.term) in h'.votes && h'.votes[(i, args.term)].candidate == args.candidateId
  {
  }

  lemma SameHistory(h: History, i: nat)
    ensures Grows(h, h) && ChangedBy(h, h, i)
  {
  }

  // Counting votes and winning -----------------------------------------------------------------------

  lemma BallotKeeps(n: nat, h: History, i: nat, nd: Node, nd': Node, from: nat)
    requires NodeInv(n, h, i, nd)
    requires nd' == nd.(ballot := nd.ballot.(awaiting := nd.ballot.awaiting - {from}))
    ensures NodeInv(n, h, i, nd')
  {
    hide AcksInv, AppliedInv, BroadcastInv, ProperLog, RecordsInv;
    SubsetSize(Granted(n, h, i, nd.ballot), Granted(n, h, i, nd'.ballot));
    SameHistory(h, i);
    SameLogAcksHere(h, i, nd, nd');
    SameApplied(n, h, h, nd, nd');
    forall b | b in nd'.broadcasts ensures BroadcastInv(n, h, i, nd', b) {
      SameBroadcast(n, h, i, nd, nd', b);
    }
    SameRecords(h, i, nd, nd');
  }

  lemma SameRecords(h: History, i: nat, nd: Node, nd': Node)
    requires RecordsInv(h, i, nd) && nd'.currentTerm == nd.currentTerm && nd'.voteFor == nd.voteFor
    ensures RecordsInv(h, i, nd')
  {
  }

  lemma SameLogAcksHere(h: History, i: nat, nd: Node, nd': Node)
    requires AcksInv(h, i, nd) && nd'.log == nd.log && nd'.currentTerm == nd.currentTerm
    ensures AcksInv(h, i, nd')
  {
    forall t, k | Acked(h, i, t, k) ensures Kept(h, nd'.log, t, k, nd'.currentTerm) {
      assert Kept(h, nd.log, t, k, nd.currentTerm);
    }
  }

  /** The reply of a peer that was awaited adds exactly that peer to the counted votes. */
  lemma CountedVoteKeeps(n: nat, h: History, i: nat, nd: Node, nd': Node, from: nat)
    requires NodeInv(n, h, i, nd) && nd' == CountedVote(nd, from)
    requires from < n && from in nd.ballot.awaiting
    requires (from, nd.ballot.term) in h.votes && h.votes[(from, nd.ballot.term)].candidate == i
    ensures NodeInv(n, h, i, nd')
  {
    hide AcksInv, AppliedInv, BroadcastInv, ProperLog, RecordsInv;
    assert Granted(n, h, i, nd'.ballot) == Granted(n, h, i, nd.ballot) + {from};
    SameHistory(h, i);
    SameLogAcksHere(h, i, nd, nd');
    SameApplied(n, h, h, nd, nd');
    forall b | b in nd'.broadcasts ensures BroadcastInv(n, h, i, nd', b) {
      SameBroadcast(n, h, i, nd, nd', b);
    }
    SameRecords(h, i, nd, nd');
  }

  /** Election Safety at the moment of winning: the term has no leader yet. */
  lemma FirstWinner(n: nat, h: History, i: nat, nd: Node)
    requires HistInv(n, h) && RoleInv(n, h, i, nd)
    requires nd.role == Candidate && nd.ballot.votes >= Majority(n)
    ensures nd.currentTerm !in h.leaders
  {
    if nd.currentTerm in h.leaders {
      assert LeaderInv(n, h, nd.currentTerm);
      QuorumsIntersect(n, Granted(n, h, i, nd.ballot), h.leaders[nd.currentTerm].electors);
      assert false;
    }
  }

  lemma ElectedGrows(h: History, i: nat, u: nat, log: seq<Entry>, electors: set<nat>)
    requires u !in h.leaders && |log| > 0
    ensures Grows(h, Elected(h, i, u, log, electors)) && ChangedBy(h, Elected(h, i, u, log, electors), i)
  {
  }

  lemma ElectedKeeps(n: nat, h: History, h': History, i: nat, nd: Node)
    requires i < n && HistInv(n, h) && NodeInv(n, h, i, nd)
    requires nd.role == Candidate && nd.ballot.votes >= Majority(n)
    requires h' == Elected(h, i, nd.currentTerm, nd.log, Granted(n, h, i, nd.ballot))
    ensures nd.currentTerm !in h.leaders
    ensures Grows(h, h') && ChangedBy(h, h', i) && HistInv(n, h')
  {
    hide AcksInv, AppliedInv, BroadcastInv, VoteAckInv, HistInv;
    var u := nd.currentTerm;
    FirstWinner(n, h, i, nd);
    ElectedGrows(h, i, u, nd.log, Granted(n, h, i, nd.ballot));
    ProperLogGrows(h, h', nd.log);
    assert LeaderInv(n, h', u);
    AckOfMissingLeader(n, h, i, u);
    assert AckInv(n, h', i, u);
    HistKept(n, h, h');
  }

  lemma AckOfMissingLeader(n: nat, h: History, i: nat, u: nat)
    requires HistInv(n, h) && u !in h.leaders
    ensures (i, u) !in h.acks
  {
    assert (i, u) in h.acks ==> AckInv(n, h, i, u);
  }

  lemma ElectedAcks(n: nat, h: History, h': History, i: nat, nd: Node, nd': Node)
    requires HistInv(n, h) && AcksInv(h, i, nd) && Grows(h, h')
    requires |nd.log| > 0 && LastTerm(nd.log) < nd.currentTerm && Sorted(nd.log)
    requires nd.currentTerm !in h.leaders && nd'.log == nd.log && nd'.currentTerm == nd.currentTerm
    requires h' == Elected(h, i, nd.currentTerm, nd.log, Granted(n, h, i, nd.ballot))
    ensures AcksInv(h', i, nd')
  {
    hide Grows, HistInv;
    forall t, k | Acked(h', i, t, k) ensures Kept(h', nd'.log, t, k, nd'.currentTerm) {
      if t == nd.currentTerm {
        assert !Holds(nd.log, t, k);
      } else {
        assert Acked(h, i, t, k);
        AckedInBounds(n, h, i, t, k);
        KeptGrows(h, h', nd.log, t, k, nd.currentTerm, nd.currentTerm);
      }
    }
  }

  lemma AckedInBounds(n: nat, h: History, i: nat, t: nat, k: nat)
    requires HistInv(n, h) && Acked(h, i, t, k)
    ensures t in h.leaders && k < |h.leaders[t].log|
  {
    assert AckInv(n, h, i, t);
  }

  lemma ElectedNode(n: nat, h: History, h': History, i: nat, nd: Node, nd': Node)
    requires HistInv(n, h) && Grows(h, h') && ChangedBy(h, h', i) && NodeInv(n, h, i, nd)
    requires nd.role == Candidate && nd.currentTerm !in h.leaders && nd' == AsLeader(nd, i, n)
    requires i < n && CandidacyInv(n, h, i, nd.currentTerm)
    requires h' == Elected(h, i, nd.currentTerm, nd.log, Granted(n, h, i, nd.ballot))
    ensures NodeInv(n, h', i, nd')
  {
    hide HistInv, AcksInv, AppliedInv, ProperLog, BroadcastInv, Grows, ChangedBy;
    ProperLogGrows(h, h', nd.log);
    ElectedAcks(n, h, h', i, nd, nd') by {
      ProperIsSorted(h, nd.log);
    }
    SameApplied(n, h, h', nd, nd');
    forall b | b in nd'.broadcasts ensures BroadcastInv(n, h', i, nd', b) {
      BroadcastGrows(n, h, h', i, nd, b);
      SameBroadcast(n, h', i, nd, nd', b);
    }
  }

  lemma ProperIsSorted(h: History, log: seq<Entry>)
    requires ProperLog(h, log)
    ensures |log| > 0 && Sorted(log)
  {
  }

  lemma VoteReplyKeeps(c: Cluster, i: nat, from: nat, args: RequestVoteArgs, reply: RequestVoteReply)
    requires Inv(c) && Enabled(c, HandleVoteReply(i, from, args, reply))
    ensures StepKeeps(c, HandleVoteReply(i, from, args, reply))
  {
    hide HistInv, NodeInv, Grows, ChangedBy, Elected, VoteInv;
    var n, h, nd := c.n, c.hist, c.nodes[i];
    var s := HandleVoteReply(i, from, args, reply);
    var h', nd' := Recorded(c, s), After(c, s);
    assert NodeInv(n, h, i, nd) && MsgInv(n, h, VoteAnswered(args, from, reply));
    SameHistory(h, i);
    if nd.currentTerm == args.term && reply.voteGranted {
      VoterExists(n, h, from, args.term);
      CountedVoteKeeps(n, h, i, nd, CountedVote(nd, from), from);
      if WinsWith(nd, from, n) {
        ElectedKeeps(n, h, h', i, CountedVote(nd, from));
        CandidateRecorded(n, h, i, nd);
        ElectedNode(n, h, h', i, CountedVote(nd, from), nd');
      }
    } else if nd.currentTerm == args.term {
      var nd1 := nd.(ballot := nd.ballot.(awaiting := nd.ballot.awaiting - {from}));
      BallotKeeps(n, h, i, nd, nd1, from);
      if nd.currentTerm < reply.term {
        SteppedDownKeeps(n, h, i, nd1, reply.term);
      }
    }
  }

  lemma VoterExists(n: nat, h: History, v: nat, t: nat)
    requires HistInv(n, h) && (v, t) in h.votes
    ensures v < n
  {
    assert VoteInv(n, h, v, t);
  }

  lemma CandidateRecorded(n: nat, h: History, i: nat, nd: Node)
    requires HistInv(n, h) && NodeInv(n, h, i, nd) && nd.role == Candidate
    ensures (i, nd.currentTerm) in h.candidacies && CandidacyInv(n, h, i, nd.currentTerm)
  {
  }
}
