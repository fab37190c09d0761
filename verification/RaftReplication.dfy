/** Replication steps keep the invariant: accepting entries, appending, sending, counting, committing, applying. */
module RaftReplication {
  import opened RaftTypes
  import opened RaftHandlers
  import opened RaftCluster
  import opened RaftInvariant
  import opened RaftHistory
  import opened RaftElection

  // Merging a leader's entries into a log -------------------------------------------------------------

  /** A merge reproduces the leader's log up to the end of the message and never cuts into what agrees with it. */
  lemma MergedLogAgrees(n: nat, h: History, log: seq<Entry>, a: AppendEntriesArgs)
    requires HistInv(n, h) && ProperLog(h, log) && ArgsInv(n, h, a) && Consistent(log, a)
    ensures var merged := MergedLog(log, a);
            var leader := h.leaders[a.term].log;
            && a.LastIndex() < |merged|
            && merged[..a.LastIndex() + 1] == leader[..a.LastIndex() + 1]
            && (merged == log || merged == leader[..a.LastIndex() + 1])
            && ProperLog(h, merged)
  {
    hide HistInv, ProperLog;
    var leader := h.leaders[a.term].log;
    var p, e := a.prevLogIndex, a.LastIndex();
    LeaderIsProper(n, h, a.term);
    ProperLogsMatch(h, log, leader, p);
    if HasAll(log, a) {
      if |a.entries| > 0 {
        var last := a.entries[|a.entries| - 1];
        assert last == leader[e] && last.term == log[e].term;
      }
      ProperLogsMatch(h, log, leader, e);
    } else {
      assert log[..p + 1] + a.entries == leader[..e + 1];
      ProperPrefix(h, leader, e + 1);
    }
  }

  lemma LeaderIsProper(n: nat, h: History, t: nat)
    requires HistInv(n, h) && t in h.leaders
    ensures ProperLog(h, h.leaders[t].log)
  {
    assert LeaderInv(n, h, t);
  }

  lemma ProperPrefix(h: History, log: seq<Entry>, m: nat)
    requires ProperLog(h, log) && 0 < m <= |log|
    ensures ProperLog(h, log[..m])
  {
    forall k | 1 <= k < m ensures FromLeader(h, log[..m], k) {
      assert FromLeader(h, log, k);
      assert log[..m][..k + 1] == log[..k + 1];
    }
  }

  /** A log that agrees with `leader` through m still does after merging a slice of `leader`. */
  lemma SliceKeepsAgreement(log: seq<Entry>, a: AppendEntriesArgs, leader: seq<Entry>, m: nat)
    requires Consistent(log, a) && a.LastIndex() < |leader|
    requires a.entries == leader[a.prevLogIndex + 1..a.LastIndex() + 1]
    requires m < |log| && log[..m + 1] <= leader
    ensures m < |MergedLog(log, a)| && MergedLog(log, a)[..m + 1] == log[..m + 1]
  {
    var next := a.prevLogIndex + 1;
    AgreesBelow(log, leader, m);
    if m >= a.LastIndex() {
      forall j | 0 <= j < |a.entries| ensures HasTermAt(log, next + j, a.entries[j].term) {
        assert a.entries[j] == leader[next + j] == log[next + j];
      }
    } else if !HasAll(log, a) {
      var merged := log[..next] + a.entries;
      forall j | 0 <= j <= m ensures merged[j] == log[j] {
        assert j >= next ==> merged[j] == a.entries[j - next] == leader[j];
      }
    }
  }

  lemma AgreesBelow(log: seq<Entry>, leader: seq<Entry>, m: nat)
    requires m < |log| && log[..m + 1] <= leader
    ensures forall j :: 0 <= j <= m ==> j < |leader| && log[j] == leader[j]
  {
    assert forall j :: 0 <= j <= m ==> log[j] == log[..m + 1][j];
  }

  lemma MergeKeepsAgreement(n: nat, h: History, log: seq<Entry>, a: AppendEntriesArgs, m: nat)
    requires ArgsInv(n, h, a) && Consistent(log, a)
    requires m < |log| && log[..m + 1] <= h.leaders[a.term].log
    ensures m < |MergedLog(log, a)| && MergedLog(log, a)[..m + 1] == log[..m + 1]
  {
    hide CommitKnown, MergedLog, Consistent;
    SliceKeepsAgreement(log, a, h.leaders[a.term].log, m);
  }

  /** Section 5.3 as the paper words it: cut at the first conflict, append what is missing. */
  function PaperMerge(log: seq<Entry>, next: nat, entries: seq<Entry>): seq<Entry>
    requires next <= |log|
    decreases |entries|
  {
    if entries == [] then log
    else if next < |log| && log[next].term == entries[0].term then PaperMerge(log, next + 1, entries[1..])
    else log[..next] + entries
  }

  lemma HasAllTail(log: seq<Entry>, next: nat, entries: seq<Entry>)
    requires entries != []
    ensures HasAllAt(log, next, entries) <==>
            next < |log| && log[next].term == entries[0].term && HasAllAt(log, next + 1, entries[1..])
  {
    var rest := entries[1..];
    if HasAllAt(log, next, entries) {
      var j := 0;
      assert entries[j] in entries && next + j < |log| && log[next + j].term == entries[j].term;
      forall j | 0 <= j < |rest| ensures next + 1 + j < |log| && log[next + 1 + j].term == rest[j].term {
        assert rest[j] == entries[j + 1];
      }
    }
    if next < |log| && log[next].term == entries[0].term && HasAllAt(log, next + 1, rest) {
      forall j | 0 <= j < |entries| ensures next + j < |log| && log[next + j].term == entries[j].term {
        assert j > 0 ==> rest[j - 1] == entries[j];
      }
    }
  }

  /** The all-or-nothing overwrite gives the paper's log whenever equal terms mean equal entries. */
  lemma {:induction false} OverwriteIsPaperMerge(log: seq<Entry>, next: nat, entries: seq<Entry>)
    requires next <= |log|
    requires forall j :: 0 <= j < |entries| && next + j < |log| && log[next + j].term == entries[j].term ==>
               log[next + j] == entries[j]
    ensures PaperMerge(log, next, entries) == if HasAllAt(log, next, entries) then log else log[..next] + entries
    decreases |entries|
  {
    if entries != [] {
      HasAllTail(log, next, entries);
      if next < |log| && log[next].term == entries[0].term {
        var rest := entries[1..];
        forall j | 0 <= j < |rest| && next + 1 + j < |log| && log[next + 1 + j].term == rest[j].term
          ensures log[next + 1 + j] == rest[j]
        {
          assert rest[j] == entries[j + 1];
        }
        OverwriteIsPaperMerge(log, next + 1, rest);
        assert log[..next + 1] + rest == log[..next] + entries;
      }
    }
  }

  // Accepting an append request ----------------------------------------------------------------------

  lemma AckedKeeps(n: nat, h: History, h': History, i: nat, nd: Node, a: AppendEntriesArgs)
    requires i < n && HistInv(n, h) && RecordsInv(h, i, nd) && ArgsInv(n, h, a) && nd.currentTerm <= a.term
    requires h' == Acknowledged(h, i, a.term, a.LastIndex())
    ensures Grows(h, h') && ChangedBy(h, h', i) && HistInv(n, h')
  {
    hide HistInv, VoteAckInv;
    AckOfLeader(n, h, i, a.term);
    AcknowledgedGrows(h, i, a.term, a.LastIndex());
    HistKept(n, h, h');
  }

  lemma AcknowledgedGrows(h: History, i: nat, t: nat, k: nat)
    ensures Grows(h, Acknowledged(h, i, t, k)) && ChangedBy(h, Acknowledged(h, i, t, k), i)
  {
  }

  lemma AckOfLeader(n: nat, h: History, i: nat, t: nat)
    requires HistInv(n, h)
    ensures (i, t) in h.acks ==> t in h.leaders && h.acks[(i, t)] < |h.leaders[t].log|
  {
    assert (i, t) in h.acks ==> AckInv(n, h, i, t);
  }

  /** What was kept survives the merge, or the sending leader overrules it. */
  lemma MergedHolds(n: nat, h: History, log: seq<Entry>, a: AppendEntriesArgs, t: nat, k: nat)
    requires HistInv(n, h) && ProperLog(h, log) && ArgsInv(n, h, a) && Consistent(log, a)
    requires Holds(log, t, k) && Holds(h.leaders[a.term].log, t, k)
    ensures Holds(MergedLog(log, a), t, k)
  {
    assert LeaderInv(n, h, a.term);
    ProperLogsMatch(h, log, h.leaders[a.term].log, k);
    MergeKeepsAgreement(n, h, log, a, k);
    assert MergedLog(log, a)[k] == MergedLog(log, a)[..k + 1][k] == log[..k + 1][k];
  }

  lemma MergedAcks(n: nat, h: History, h': History, i: nat, nd: Node, nd': Node, a: AppendEntriesArgs)
    requires HistInv(n, h) && AcksInv(h, i, nd) && RecordsInv(h, i, nd) && ProperLog(h, nd.log)
    requires ArgsInv(n, h, a) && Consistent(nd.log, a) && nd.currentTerm <= a.term
    requires h' == Acknowledged(h, i, a.term, a.LastIndex())
    requires nd'.log == MergedLog(nd.log, a) && nd'.currentTerm == a.term
    ensures AcksInv(h', i, nd')
  {
    hide HistInv, ProperLog, MergedLog, Consistent;
    var leader := h.leaders[a.term].log;
    forall t: nat, k: nat | Acked(h', i, t, k) ensures Kept(h', nd'.log, t, k, a.term) {
      if t in h.leaders && Holds(h.leaders[t].log, t, k) {
        if Acked(h, i, t, k) {
          assert Kept(h, nd.log, t, k, nd.currentTerm);
          if Holds(nd.log, t, k) {
            if Holds(leader, t, k) {
              MergedHolds(n, h, nd.log, a, t, k);
            } else {
              assert Overruled(h', t, k, a.term);
            }
          } else {
            assert Overruled(h, t, k, nd.currentTerm);
            SameLeadersOverrule(h, h', t, k, nd.currentTerm, a.term);
          }
        } else {
          MergedLogAgrees(n, h, nd.log, a);
          assert nd'.log[k] == nd'.log[..a.LastIndex() + 1][k] == leader[..a.LastIndex() + 1][k];
        }
      }
    }
  }

  lemma SameLeadersOverrule(h: History, h': History, t: nat, k: nat, upto: nat, upto': nat)
    requires Overruled(h, t, k, upto) && h'.leaders == h.leaders && upto <= upto'
    ensures Overruled(h', t, k, upto')
  {
  }

  lemma MergedCommit(n: nat, h: History, nd: Node, a: AppendEntriesArgs)
    requires HistInv(n, h) && ProperLog(h, nd.log) && ArgsInv(n, h, a) && Consistent(nd.log, a)
    requires CommitStored(n, h, nd.currentTerm, nd.log, nd.commitIndex) && nd.currentTerm <= a.term
    ensures CommitStored(n, h, a.term, MergedLog(nd.log, a), AdvancedCommit(nd.commitIndex, a))
    ensures nd.commitIndex <= AdvancedCommit(nd.commitIndex, a)
    ensures nd.commitIndex < |MergedLog(nd.log, a)|
    ensures MergedLog(nd.log, a)[..nd.commitIndex + 1] == nd.log[..nd.commitIndex + 1]
  {
    hide HistInv, ProperLog, MergedLog, Consistent, Replicators;
    var leader := h.leaders[a.term].log;
    var merged := MergedLog(nd.log, a);
    MergedLogAgrees(n, h, nd.log, a);
    CommitWithLeader(n, h, nd, a.term);
    MergeKeepsAgreement(n, h, nd.log, a, nd.commitIndex);
    if a.leaderCommit > nd.commitIndex {
      var lc := a.leaderCommit;
      var t: nat, k: nat :| t <= a.term && Committed(n, h, t, k) && lc <= k;
      CommittedPrefix(n, h, t, k, a.term);
      assert merged[..lc + 1] == merged[..a.LastIndex() + 1][..lc + 1];
      assert leader[..lc + 1] == leader[..a.LastIndex() + 1][..lc + 1] == leader[..k + 1][..lc + 1];
      assert merged[..lc + 1] <= h.leaders[t].log;
    } else if nd.commitIndex > 0 {
      var t: nat, k: nat :| t <= nd.currentTerm && Committed(n, h, t, k) && nd.commitIndex <= k &&
                            nd.log[..nd.commitIndex + 1] <= h.leaders[t].log;
    }
  }

  /** The leader of this or a later term has everything that a peer has committed. */
  lemma CommitWithLeader(n: nat, h: History, nd: Node, u: nat)
    requires HistInv(n, h) && ProperLog(h, nd.log)
    requires CommitStored(n, h, nd.currentTerm, nd.log, nd.commitIndex)
    requires u in h.leaders && nd.currentTerm <= u
    ensures nd.log[..nd.commitIndex + 1] <= h.leaders[u].log
  {
    hide HistInv, Replicators, FromLeader, Sorted;
    var ci := nd.commitIndex;
    LeaderIsProper(n, h, u);
    if ci == 0 {
      assert nd.log[..1] == [PLACEHOLDER] == h.leaders[u].log[..1];
    } else {
      var t: nat, k: nat :| t <= nd.currentTerm && Committed(n, h, t, k) && ci <= k && nd.log[..ci + 1] <= h.leaders[t].log;
      CommittedPrefix(n, h, t, k, u);
      assert nd.log[..ci + 1] == h.leaders[t].log[..k + 1][..ci + 1];
    }
  }

  /** A peer that is not the leader of term u runs no broadcast of term u. */
  lemma FollowerBroadcasts(n: nat, h: History, h': History, i: nat, nd: Node, nd': Node, u: nat)
    requires forall b :: b in nd.broadcasts ==> BroadcastInv(n, h, i, nd, b)
    requires nd'.broadcasts == nd.broadcasts && nd.currentTerm <= u == nd'.currentTerm && !Leads(h, i, u)
    ensures forall b :: b in nd'.broadcasts ==> BroadcastInv(n, h', i, nd', b)
  {
    forall b | b in nd'.broadcasts ensures BroadcastInv(n, h', i, nd', b) {
      assert BroadcastInv(n, h, i, nd, b);
    }
  }

  lemma MergedNode(n: nat, h: History, h': History, i: nat, nd: Node, nd': Node, a: AppendEntriesArgs)
    requires HistInv(n, h) && Grows(h, h') && NodeInv(n, h, i, nd) && ArgsInv(n, h, a)
    requires Consistent(nd.log, a) && nd.currentTerm == a.term && !Leads(h, i, a.term)
    requires h' == Acknowledged(h, i, a.term, a.LastIndex())
    requires nd' == AfterAppendEntries(nd, a)
    ensures NodeInv(n, h', i, nd')
  {
    hide HistInv, AcksInv, ProperLog, BroadcastInv, Grows, CommitStored, MergedLog;
    MergedLogAgrees(n, h, nd.log, a);
    MergedTerms(n, h, nd, a);
    ProperLogGrows(h, h', nd'.log);
    MergedAcks(n, h, h', i, nd, nd', a);
    MergedCommit(n, h, nd, a);
    CommitStoredGrows(n, h, h', a.term, a.term, nd'.log, nd'.commitIndex);
    FollowerBroadcasts(n, h, h', i, nd, nd', a.term);
  }

  lemma MergedTerms(n: nat, h: History, nd: Node, a: AppendEntriesArgs)
    requires HistInv(n, h) && ProperLog(h, nd.log) && ArgsInv(n, h, a) && Consistent(nd.log, a)
    requires LastTerm(nd.log) <= a.term
    ensures |MergedLog(nd.log, a)| > 0 && LastTerm(MergedLog(nd.log, a)) <= a.term
  {
    MergedLogAgrees(n, h, nd.log, a);
    LeaderTerms(n, h, a.term);
  }

  lemma LeaderTerms(n: nat, h: History, t: nat)
    requires HistInv(n, h) && t in h.leaders
    ensures ProperLog(h, h.leaders[t].log) && t > 0
    ensures forall k :: 0 <= k < |h.leaders[t].log| ==> h.leaders[t].log[k].term <= t
  {
    assert LeaderInv(n, h, t);
    var start := h.candidacies[(h.leaders[t].server, t)];
    assert CandidacyInv(n, h, h.leaders[t].server, t);
    forall k | 0 <= k < |h.leaders[t].log| ensures h.leaders[t].log[k].term <= t {
      if k < |start| {
        assert h.leaders[t].log[k] == start[k] && start[k].term <= start[|start| - 1].term;
      }
    }
  }

  /** A rejection points at an index that the sender can fall back to: at least 1, at most prevLogIndex. */
  lemma RejectionInBounds(n: nat, h: History, nd: Node, a: AppendEntriesArgs)
    requires HistInv(n, h) && ProperLog(h, nd.log) && ArgsInv(n, h, a) && !Consistent(nd.log, a)
    ensures 1 <= Conflict(nd.log, a.prevLogIndex).1 <= a.prevLogIndex
  {
    LeaderTerms(n, h, a.term);
    if |nd.log| > a.prevLogIndex {
      var p := a.prevLogIndex;
      assert p > 0;
      assert FromLeader(h, nd.log, p);
      LeaderTerms(n, h, nd.log[p].term);
    }
  }

  lemma AppendRequestKeeps(c: Cluster, i: nat, a: AppendEntriesArgs)
    requires Inv(c) && Enabled(c, HandleAppendRequest(i, a))
    ensures StepKeeps(c, HandleAppendRequest(i, a))
  {
    hide HistInv, NodeInv, Grows, ChangedBy, Acknowledged, ArgsInv, Consistent, ProperLog;
    var n, h, nd := c.n, c.hist, c.nodes[i];
    var s := HandleAppendRequest(i, a);
    var h', nd', nd1 := Recorded(c, s), After(c, s), CaughtUp(nd, a.term);
    assert NodeInv(n, h, i, nd) && MsgInv(n, h, AppendRequested(a, i));
    CaughtUpKeeps(n, h, i, nd, a.term);
    SameHistory(h, i);
    NodeParts(n, h, i, nd);
    if Accepts(nd, a) {
      AckedKeeps(n, h, h', i, nd, a);
      NotLeader(n, h, a, i);
      MergedNode(n, h, h', i, nd1, nd', a);
      ArgsGrow(n, h, h', a);
      AcknowledgedIsAcked(h, i, a.term, a.LastIndex());
    } else if nd.currentTerm <= a.term {
      RejectionInBounds(n, h, nd, a);
    }
  }

  lemma NodeParts(n: nat, h: History, i: nat, nd: Node)
    requires NodeInv(n, h, i, nd)
    ensures ProperLog(h, nd.log) && RecordsInv(h, i, nd)
  {
  }

  lemma NotLeader(n: nat, h: History, a: AppendEntriesArgs, i: nat)
    requires ArgsInv(n, h, a) && i != a.leaderId
    ensures !Leads(h, i, a.term)
  {
  }

  lemma AcknowledgedIsAcked(h: History, i: nat, t: nat, k: nat)
    ensures Acked(Acknowledged(h, i, t, k), i, t, k)
  {
  }

  // A leader's own log -------------------------------------------------------------------------------

  lemma ExtendedGrows(h: History, i: nat, t: nat, log: seq<Entry>, entry: Entry)
    requires Leads(h, i, t) && h.leaders[t].log == log && entry.term == t
    ensures var h' := Extended(h, i, t, log + [entry]);
            && Grows(h, h') && ChangedBy(h, h', i)
            && Leads(h', i, t) && h'.leaders[t].log == log + [entry] && Acked(h', i, t, |log|)
  {
    assert LeaderGrows(h, Extended(h, i, t, log + [entry]), t);
  }

  lemma ExtendedIsProper(n: nat, h: History, h': History, t: nat, log: seq<Entry>, entry: Entry)
    requires HistInv(n, h) && Grows(h, h')
    requires t in h.leaders && h.leaders[t].log == log && entry.term == t
    requires t in h'.leaders && h'.leaders[t].log == log + [entry]
    ensures ProperLog(h', log + [entry])
  {
    hide HistInv, Grows;
    LeaderTerms(n, h, t);
    ProperLogGrows(h, h', log);
    forall k | 1 <= k < |log| + 1 ensures FromLeader(h', log + [entry], k) {
      if k < |log| {
        assert FromLeader(h', log, k);
        assert (log + [entry])[..k + 1] == log[..k + 1];
      }
    }
  }

  lemma ExtendedLeader(n: nat, h: History, h': History, i: nat, t: nat, log: seq<Entry>, entry: Entry)
    requires HistInv(n, h) && Leads(h, i, t) && h.leaders[t].log == log && entry.term == t
    requires Grows(h, h') && h' == Extended(h, i, t, log + [entry]) && ProperLog(h', log + [entry])
    ensures LeaderInv(n, h', t) && (i, t) in h'.acks && AckInv(n, h', i, t)
  {
    hide ProperLog;
    assert LeaderInv(n, h, t);
    AckOfLeader(n, h, i, t);
    CandidacyServer(n, h, i, t);
  }

  lemma CandidacyServer(n: nat, h: History, i: nat, t: nat)
    requires HistInv(n, h) && (i, t) in h.candidacies
    ensures i < n
  {
    assert CandidacyInv(n, h, i, t);
  }

  lemma ExtendedKeeps(n: nat, h: History, h': History, i: nat, nd: Node, entry: Entry)
    requires HistInv(n, h) && RecordsInv(h, i, nd)
    requires Leads(h, i, nd.currentTerm) && h.leaders[nd.currentTerm].log == nd.log && entry.term == nd.currentTerm
    requires h' == Extended(h, i, nd.currentTerm, nd.log + [entry])
    ensures Grows(h, h') && ChangedBy(h, h', i) && HistInv(n, h') && ProperLog(h', nd.log + [entry])
  {
    hide HistInv, VoteAckInv, LeaderInv;
    ExtendedGrows(h, i, nd.currentTerm, nd.log, entry);
    ExtendedIsProper(n, h, h', nd.currentTerm, nd.log, entry);
    ExtendedLeader(n, h, h', i, nd.currentTerm, nd.log, entry);
    HistKept(n, h, h');
  }

  lemma LongerLogAcks(n: nat, h: History, h': History, i: nat, nd: Node, nd': Node)
    requires HistInv(n, h) && AcksInv(h, i, nd) && Grows(h, h') && nd'.currentTerm == nd.currentTerm
    requires nd.log <= nd'.log
    requires Leads(h', i, nd.currentTerm) && nd'.log == h'.leaders[nd.currentTerm].log
    requires forall t, k :: Acked(h', i, t, k) && t != nd.currentTerm ==> Acked(h, i, t, k)
    ensures AcksInv(h', i, nd')
  {
    hide HistInv, Grows;
    forall t, k | Acked(h', i, t, k) ensures Kept(h', nd'.log, t, k, nd'.currentTerm) {
      if t != nd.currentTerm {
        AckedInBounds(n, h, i, t, k);
        KeptGrows(h, h', nd.log, t, k, nd.currentTerm, nd.currentTerm);
        LongerKeeps(h', nd.log, nd'.log, t, k, nd.currentTerm);
      }
    }
  }

  lemma LongerKeeps(h: History, log: seq<Entry>, log': seq<Entry>, t: nat, k: nat, upto: nat)
    requires Kept(h, log, t, k, upto) && log <= log'
    ensures Kept(h, log', t, k, upto)
  {
  }

  /** A fresh broadcast counts the leader itself. */
  lemma NewBroadcastFits(n: nat, h: History, i: nat, nd: Node)
    requires i < n && |nd.log| > 0 && Leads(h, i, nd.currentTerm) && Acked(h, i, nd.currentTerm, |nd.log| - 1)
    requires CommitStored(n, h, nd.currentTerm, nd.log, nd.commitIndex)
    ensures BroadcastInv(n, h, i, nd, NewBroadcast(nd, i, n))
  {
    hide Committed;
    var b := NewBroadcast(nd, i, n);
    assert i in Counted(n, h, b);
    SubsetSize({i}, Counted(n, h, b));
    if nd.commitIndex > 0 {
      var t: nat, k: nat :| t <= nd.currentTerm && Committed(n, h, t, k) && nd.commitIndex <= k;
    }
  }

  lemma LongerLogCommit(n: nat, h: History, term: nat, log: seq<Entry>, log': seq<Entry>, index: nat)
    requires CommitStored(n, h, term, log, index) && log <= log'
    ensures CommitStored(n, h, term, log', index)
  {
    hide Committed;
    assert log'[..index + 1] == log[..index + 1];
  }

  /** Everything about a leader after Start except its list of broadcasts. */
  lemma ExtendedNode(n: nat, h: History, h': History, i: nat, nd: Node, nd': Node, entry: Entry)
    requires HistInv(n, h) && Grows(h, h') && ChangedBy(h, h', i) && NodeInv(n, h, i, nd) && nd.role == Leader
    requires entry.term == nd.currentTerm && h' == Extended(h, i, nd.currentTerm, nd.log + [entry])
    requires nd' == Persisted(nd.(log := nd.log + [entry])) && ProperLog(h', nd'.log)
    ensures NodeInv(n, h', i, nd')
  {
    hide HistInv, AcksInv, ProperLog, BroadcastInv, Grows, ChangedBy, CommitStored;
    ExtendedGrows(h, i, nd.currentTerm, nd.log, entry);
    LongerLogAcks(n, h, h', i, nd, nd');
    CommitStoredGrows(n, h, h', nd.currentTerm, nd.currentTerm, nd.log, nd.commitIndex);
    LongerLogCommit(n, h', nd.currentTerm, nd.log, nd'.log, nd.commitIndex);
    forall b | b in nd'.broadcasts ensures BroadcastInv(n, h', i, nd', b) {
      BroadcastGrows(n, h, h', i, nd, b);
      SameBroadcast(n, h', i, nd, nd', b);
    }
  }

  /** Only the list of broadcasts changed, and the new ones fit. */
  lemma BroadcastsChanged(n: nat, h: History, i: nat, nd: Node, nd': Node)
    requires NodeInv(n, h, i, nd) && nd' == nd.(broadcasts := nd'.broadcasts)
    requires forall b :: b in nd'.broadcasts ==> BroadcastInv(n, h, i, nd, b)
    ensures NodeInv(n, h, i, nd')
  {
    hide ProperLog, CommitStored, Acked;
    SameLogAcksHere(h, i, nd, nd');
    forall b | b in nd'.broadcasts ensures BroadcastInv(n, h, i, nd', b) {
      SameBroadcast(n, h, i, nd, nd', b);
    }
    SameRecords(h, i, nd, nd');
  }

  lemma LeaderParts(n: nat, h: History, i: nat, nd: Node)
    requires NodeInv(n, h, i, nd)
    ensures |nd.log| > 0 && CommitStored(n, h, nd.currentTerm, nd.log, nd.commitIndex)
    ensures nd.role == Leader ==>
      Leads(h, i, nd.currentTerm) && h.leaders[nd.currentTerm].log == nd.log && Acked(h, i, nd.currentTerm, |nd.log| - 1)
  {
  }

  lemma BroadcastAdded(n: nat, h: History, i: nat, nd: Node)
    requires i < n && NodeInv(n, h, i, nd) && nd.role == Leader
    ensures |nd.log| > 0
    ensures NodeInv(n, h, i, nd.(broadcasts := nd.broadcasts + [NewBroadcast(nd, i, n)]))
  {
    LeaderParts(n, h, i, nd);
    hide RecordsInv, RoleInv, LogInv, AcksInv, AppliedInv, BroadcastInv, CommitStored, Acked;
    NewBroadcastFits(n, h, i, nd);
    BroadcastsChanged(n, h, i, nd, nd.(broadcasts := nd.broadcasts + [NewBroadcast(nd, i, n)]));
  }

  lemma ClientCommandKeeps(c: Cluster, i: nat, command: Command)
    requires Inv(c) && i < c.n
    ensures StepKeeps(c, ClientCommand(i, command))
  {
    hide HistInv, NodeInv, Grows, ChangedBy, Extended, RecordsInv, ProperLog, CommitStored;
    var n, h, nd := c.n, c.hist, c.nodes[i];
    var s := ClientCommand(i, command);
    var h', nd' := Recorded(c, s), After(c, s);
    assert NodeInv(n, h, i, nd);
    SameHistory(h, i);
    if nd.role == Leader {
      var entry := Entry(command, nd.currentTerm);
      var nd1 := Persisted(nd.(log := nd.log + [entry]));
      NodeParts(n, h, i, nd);
      LeaderParts(n, h, i, nd);
      ExtendedKeeps(n, h, h', i, nd, entry);
      ExtendedNode(n, h, h', i, nd, nd1, entry);
      BroadcastAdded(n, h', i, nd1);
    }
  }

  lemma HeartbeatKeeps(c: Cluster, i: nat)
    requires Inv(c) && i < c.n
    ensures StepKeeps(c, Heartbeat(i))
  {
    hide HistInv, NodeInv, Grows, ChangedBy;
    assert NodeInv(c.n, c.hist, i, c.nodes[i]);
    SameHistory(c.hist, i);
    if c.nodes[i].role == Leader {
      BroadcastAdded(c.n, c.hist, i, c.nodes[i]);
    }
  }

  // Sending ------------------------------------------------------------------------------------------

  /** The in-flight commit bound: what is sent is a slice of the leader's log and commits nothing beyond it. */
  lemma AppendRequestFits(n: nat, h: History, i: nat, nd: Node, b: Broadcast, peer: nat)
    requires i < n && NodeInv(n, h, i, nd) && b in nd.broadcasts && peer in b.todo
    requires nd.role == Leader && nd.currentTerm == b.term
    ensures peer < n && 1 <= nd.nextIndex[peer] <= |nd.log| && b.index < |nd.log|
    ensures var a := AppendRequest(nd, i, b, peer);
            ArgsInv(n, h, a) && a.leaderId == i != peer && a.term == b.term && b.index <= a.LastIndex()
  {
    hide AcksInv, ProperLog, RecordsInv, AppliedInv, Counted, Acked;
    assert BroadcastInv(n, h, i, nd, b);
    assert peer in Others(n, i);
    var a, next := AppendRequest(nd, i, b, peer), nd.nextIndex[peer];
    assert |a.entries| == if next < b.index + 1 then b.index + 1 - next else 0;
  }

  lemma SentBroadcastFits(n: nat, h: History, i: nat, nd: Node, b: Broadcast, b': Broadcast, peer: nat)
    requires BroadcastInv(n, h, i, nd, b) && peer in b.todo
    requires b'.inflight == b.inflight ||
             exists a :: b'.inflight == b.inflight[peer := a] && a.term == b.term && b.index <= a.LastIndex()
    requires b' == b.(todo := b.todo - {peer}, inflight := b'.inflight)
    ensures BroadcastInv(n, h, i, nd, b')
  {
    hide CommitKnown, Acked, Leads;
    if b.term == nd.currentTerm {
      SubsetSize(Counted(n, h, b), Counted(n, h, b'));
    }
  }

  lemma SendKeeps(c: Cluster, i: nat, b: nat, peer: nat)
    requires Inv(c) && Enabled(c, SendAppend(i, b, peer))
    ensures InBounds(c, SendAppend(i, b, peer)) && StepKeeps(c, SendAppend(i, b, peer))
  {
    hide HistInv, NodeInv, Grows, ChangedBy, ArgsInv, BroadcastInv, AppendRequest;
    var n, h, nd := c.n, c.hist, c.nodes[i];
    assert NodeInv(n, h, i, nd);
    SameHistory(h, i);
    var bc := nd.broadcasts[b];
    AllBroadcasts(n, h, i, nd);
    if StillLeads(nd, b) {
      AppendRequestFits(n, h, i, nd, bc, peer);
    }
    var nd' := After(c, SendAppend(i, b, peer));
    var bc' := nd'.broadcasts[b];
    assert bc' == bc.(todo := bc.todo - {peer}, inflight := bc'.inflight);
    SentBroadcastFits(n, h, i, nd, bc, bc', peer);
    BroadcastsChanged(n, h, i, nd, nd');
  }

  lemma AllBroadcasts(n: nat, h: History, i: nat, nd: Node)
    requires NodeInv(n, h, i, nd)
    ensures forall b :: b in nd.broadcasts ==> BroadcastInv(n, h, i, nd, b)
  {
  }

  // Counting replies and committing ------------------------------------------------------------------

  lemma ReturnedFits(n: nat, h: History, i: nat, nd: Node, b: Broadcast, peer: nat, retry: bool)
    requires BroadcastInv(n, h, i, nd, b) && peer in b.inflight
    ensures BroadcastInv(n, h, i, nd, Returned(b, peer, retry))
  {
    hide CommitKnown, Acked, Leads;
    SubsetSize(Counted(n, h, b), Counted(n, h, Returned(b, peer, retry)));
  }

  /** A counted reply stands for one more server that stored the index in this term. */
  lemma CountedFits(n: nat, h: History, i: nat, nd: Node, b: Broadcast, b': Broadcast, peer: nat)
    requires BroadcastInv(n, h, i, nd, b) && peer in b.inflight && Acked(h, peer, b.term, b.index)
    requires b' == Returned(b, peer, false).(replicas := b.replicas + 1, agreed := b'.agreed)
    ensures BroadcastInv(n, h, i, nd, b')
  {
    hide CommitKnown, Leads;
    assert peer in Others(n, i);
    assert Counted(n, h, b') == Counted(n, h, b) + {peer};
  }

  /** So a majority count is a commit by the paper's rule. */
  lemma MajorityCommits(n: nat, h: History, i: nat, nd: Node, b: Broadcast)
    requires BroadcastInv(n, h, i, nd, b) && b.term == nd.currentTerm
    requires Leads(h, i, nd.currentTerm) && h.leaders[nd.currentTerm].log == nd.log
    requires b.replicas >= Majority(n) && nd.log[b.index].term == nd.currentTerm
    ensures CommitStored(n, h, nd.currentTerm, nd.log, b.index)
  {
    SubsetSize(Counted(n, h, b), Replicators(n, h, b.term, b.index));
    assert Committed(n, h, nd.currentTerm, b.index);
    assert nd.log[..b.index + 1] <= h.leaders[nd.currentTerm].log;
  }

  /** Index bookkeeping and a commit that is backed keep a leader's invariant. */
  lemma ProgressKeeps(n: nat, h: History, i: nat, nd: Node, nd': Node)
    requires NodeInv(n, h, i, nd)
    requires nd' == nd.(nextIndex := nd'.nextIndex, matchIndex := nd'.matchIndex, commitIndex := nd'.commitIndex)
    requires |nd'.nextIndex| == n && |nd'.matchIndex| == n
    requires forall p :: 0 <= p < n && nd'.nextIndex[p] != nd.nextIndex[p] ==> 1 <= nd'.nextIndex[p] <= |nd.log|
    requires nd.commitIndex <= nd'.commitIndex && CommitStored(n, h, nd.currentTerm, nd.log, nd'.commitIndex)
    ensures NodeInv(n, h, i, nd')
  {
    hide AcksInv, ProperLog, CommitStored, BroadcastInv, Granted, RecordsInv;
    SameLogAcksHere(h, i, nd, nd');
    SameRecords(h, i, nd, nd');
    forall b | b in nd'.broadcasts ensures BroadcastInv(n, h, i, nd', b) {
      SameBroadcast(n, h, i, nd, nd', b);
    }
  }

  lemma AcceptedKeeps(n: nat, h: History, i: nat, nd: Node, b: nat, peer: nat, a: AppendEntriesArgs)
    requires NodeInv(n, h, i, nd) && b < |nd.broadcasts|
    requires var bc := nd.broadcasts[b]; peer in bc.inflight && bc.inflight[peer] == a && a.term == nd.currentTerm
    requires Acked(h, peer, a.term, a.LastIndex())
    ensures nd.broadcasts[b].index < |nd.log| && peer < n
    ensures NodeInv(n, h, i, AfterAccepted(nd, n, b, peer))
  {
    hide AcksInv, ProperLog, RecordsInv, CommitStored, Acked, Counted;
    var bc := nd.broadcasts[b];
    assert BroadcastInv(n, h, i, nd, bc) && peer in Others(n, i);
    AckedBelow(h, peer, bc.term, bc.index, a.LastIndex());
    var nd' := AfterAccepted(nd, n, b, peer);
    var bc' := nd'.broadcasts[b];
    CountedFits(n, h, i, nd, bc, bc', peer);
    var nd1 := nd.(broadcasts := nd.broadcasts[b := bc']);
    BroadcastsChanged(n, h, i, nd, nd1);
    SameBroadcast(n, h, i, nd, nd1, bc');
    if nd'.commitIndex != nd.commitIndex {
      MajorityCommits(n, h, i, nd1, bc');
    }
    ProgressKeeps(n, h, i, nd1, nd');
  }

  lemma AckedBelow(h: History, s: nat, t: nat, k: nat, m: nat)
    requires Acked(h, s, t, m) && k <= m
    ensures Acked(h, s, t, k)
  {
  }

  /** The index to retry from lies in the leader's log. */
  lemma BackedOffInBounds(log: seq<Entry>, reply: AppendEntriesReply, nextIndex: nat)
    requires 1 <= reply.conflictFirstIndex < nextIndex <= |log|
    ensures 1 <= NextIndexAfter(log, reply, nextIndex) <= nextIndex
  {
  }

  lemma RejectedKeeps(n: nat, h: History, i: nat, nd: Node, b: nat, peer: nat, a: AppendEntriesArgs, reply: AppendEntriesReply)
    requires NodeInv(n, h, i, nd) && b < |nd.broadcasts|
    requires var bc := nd.broadcasts[b]; peer in bc.inflight && bc.inflight[peer] == a && a.term == nd.currentTerm
    requires ArgsInv(n, h, a) && !reply.success && reply.term <= a.term
    requires 1 <= reply.conflictFirstIndex <= a.prevLogIndex
    ensures AppendReplyInBounds(nd, b, peer, a, reply)
    ensures NodeInv(n, h, i, AfterAppendReply(nd, n, b, peer, a, reply))
  {
    hide AcksInv, ProperLog, RecordsInv, CommitStored, Acked, Counted;
    var bc := nd.broadcasts[b];
    assert BroadcastInv(n, h, i, nd, bc) && peer in Others(n, i);
    BackedOffInBounds(nd.log, reply, a.prevLogIndex + 1);
    ReturnedFits(n, h, i, nd, bc, peer, true);
    var nd1 := nd.(broadcasts := nd.broadcasts[b := Returned(bc, peer, true)]);
    BroadcastsChanged(n, h, i, nd, nd1);
    ProgressKeeps(n, h, i, nd1, AfterAppendReply(nd, n, b, peer, a, reply));
  }

  lemma DroppedReplyKeeps(n: nat, h: History, i: nat, nd: Node, b: nat, peer: nat)
    requires NodeInv(n, h, i, nd) && b < |nd.broadcasts| && peer in nd.broadcasts[b].inflight
    ensures peer < n
    ensures NodeInv(n, h, i, nd.(broadcasts := nd.broadcasts[b := Returned(nd.broadcasts[b], peer, false)]))
  {
    hide AcksInv, ProperLog, RecordsInv, AppliedInv, RoleInv, Acked, Counted;
    var bc := nd.broadcasts[b];
    assert BroadcastInv(n, h, i, nd, bc) && peer in Others(n, i);
    ReturnedFits(n, h, i, nd, bc, peer, false);
    BroadcastsChanged(n, h, i, nd, nd.(broadcasts := nd.broadcasts[b := Returned(bc, peer, false)]));
  }

  lemma AppendReplyKeeps(c: Cluster, i: nat, b: nat, peer: nat, a: AppendEntriesArgs, reply: AppendEntriesReply)
    requires Inv(c) && Enabled(c, HandleAppendReply(i, b, peer, a, reply))
    ensures InBounds(c, HandleAppendReply(i, b, peer, a, reply))
    ensures StepKeeps(c, HandleAppendReply(i, b, peer, a, reply))
  {
    hide HistInv, NodeInv, Grows, ChangedBy, ArgsInv, Acked, BackupInBounds, AfterAccepted;
    var n, h, nd := c.n, c.hist, c.nodes[i];
    assert NodeInv(n, h, i, nd) && MsgInv(n, h, AppendAnswered(a, peer, reply));
    SameHistory(h, i);
    DroppedReplyKeeps(n, h, i, nd, b, peer);
    if nd.currentTerm == a.term {
      if reply.success {
        AcceptedKeeps(n, h, i, nd, b, peer, a);
      } else if a.term < reply.term {
        SteppedDownKeeps(n, h, i, nd.(broadcasts := nd.broadcasts[b := Returned(nd.broadcasts[b], peer, false)]), reply.term);
      } else {
        RejectedKeeps(n, h, i, nd, b, peer, a, reply);
      }
    }
  }

  // Applying and restarting --------------------------------------------------------------------------

  lemma DeliveredGrows(h: History, i: nat, ms: set<ApplyMsg>)
    ensures Grows(h, h.(delivered := h.delivered + ms)) && ChangedBy(h, h.(delivered := h.delivered + ms), i)
  {
  }

  lemma AppliedIsCommitted(n: nat, h: History, nd: Node, k: nat)
    requires CommitStored(n, h, nd.currentTerm, nd.log, nd.commitIndex) && 1 <= k <= nd.commitIndex
    ensures DeliveryInv(n, h, ApplyMsg(nd.log[k].command, k))
  {
    hide Replicators;
    var t: nat, j: nat :| t <= nd.currentTerm && Committed(n, h, t, j) && nd.commitIndex <= j &&
                          nd.log[..nd.commitIndex + 1] <= h.leaders[t].log;
    assert h.leaders[t].log[k] == nd.log[..nd.commitIndex + 1][k] == nd.log[k];
    var m := ApplyMsg(nd.log[k].command, k);
    assert Committed(n, h, t, j) && 1 <= m.index <= j && h.leaders[t].log[m.index].command == m.command;
  }

  lemma ApplyHistory(n: nat, h: History, h': History, i: nat, nd: Node, nd': Node)
    requires HistInv(n, h) && NodeInv(n, h, i, nd)
    requires nd.lastApplied < nd.commitIndex < |nd.log| && nd' == AfterApply(nd)
    requires h' == h.(delivered := h.delivered + set m | m in nd'.applied)
    ensures Grows(h, h') && ChangedBy(h, h', i) && HistInv(n, h')
  {
    hide HistInv, VoteAckInv, DeliveryInv, RoleInv, AcksInv, BroadcastInv, LogInv, RecordsInv, CommitStored;
    DeliveredGrows(h, i, set m | m in nd'.applied);
    AppliedIsCommitted(n, h, nd, nd'.lastApplied);
    SameDelivery(n, h, h', ApplyMsg(nd.log[nd'.lastApplied].command, nd'.lastApplied));
    HistKept(n, h, h');
  }

  lemma SameDelivery(n: nat, h: History, h': History, m: ApplyMsg)
    requires DeliveryInv(n, h, m) && h'.leaders == h.leaders && h'.acks == h.acks
    ensures DeliveryInv(n, h', m)
  {
    var t: nat, k: nat :| Committed(n, h, t, k) && 1 <= m.index <= k && h.leaders[t].log[m.index].command == m.command;
    assert Replicators(n, h', t, k) == Replicators(n, h, t, k);
    assert Committed(n, h', t, k);
  }

  lemma ApplyNode(n: nat, h: History, h': History, i: nat, nd: Node, nd': Node)
    requires HistInv(n, h) && Grows(h, h') && NodeInv(n, h, i, nd)
    requires nd.lastApplied < nd.commitIndex < |nd.log| && nd' == AfterApply(nd)
    requires h' == h.(delivered := h.delivered + set m | m in nd'.applied)
    ensures NodeInv(n, h', i, nd')
  {
    hide HistInv, AcksInv, ProperLog, BroadcastInv, Grows, CommitStored;
    ProperLogGrows(h, h', nd.log);
    SameLogAcks(n, h, h', i, nd, nd');
    CommitStoredGrows(n, h, h', nd.currentTerm, nd.currentTerm, nd.log, nd.commitIndex);
    forall b | b in nd'.broadcasts ensures BroadcastInv(n, h', i, nd', b) {
      BroadcastGrows(n, h, h', i, nd, b);
      SameBroadcast(n, h', i, nd, nd', b);
    }
  }

  lemma ApplyKeeps(c: Cluster, i: nat)
    requires Inv(c) && i < c.n
    ensures InBounds(c, Apply(i)) && StepKeeps(c, Apply(i))
  {
    hide HistInv, NodeInv, Grows, ChangedBy, CommitStored;
    var n, h, nd := c.n, c.hist, c.nodes[i];
    assert NodeInv(n, h, i, nd);
    AppliedParts(n, h, i, nd);
    var h', nd' := Recorded(c, Apply(i)), After(c, Apply(i));
    if nd.lastApplied < nd.commitIndex {
      ApplyHistory(n, h, h', i, nd, nd');
      ApplyNode(n, h, h', i, nd, nd');
    } else {
      assert h' == h;
      SameHistory(h, i);
    }
  }

  lemma AppliedParts(n: nat, h: History, i: nat, nd: Node)
    requires NodeInv(n, h, i, nd)
    ensures nd.commitIndex < |nd.log| && forall m :: m in nd.applied ==> m in h.delivered
  {
  }

  /** A restarted peer is its persisted triple again: nothing it had promised is lost. */
  lemma RestartedNode(n: nat, h: History, i: nat, nd: Node)
    requires NodeInv(n, h, i, nd)
    ensures NodeInv(n, h, i, Booted(nd.disk, n))
  {
    hide ProperLog, AcksInv, BroadcastInv;
    var nd' := Booted(nd.disk, n);
    SameLogAcksHere(h, i, nd, nd');
    SameRecords(h, i, nd, nd');
  }

  lemma RestartKeeps(c: Cluster, i: nat)
    requires Inv(c) && i < c.n
    ensures StepKeeps(c, Restart(i))
  {
    hide HistInv, NodeInv, Grows, ChangedBy;
    assert NodeInv(c.n, c.hist, i, c.nodes[i]);
    SameHistory(c.hist, i);
    RestartedNode(c.n, c.hist, i, c.nodes[i]);
  }
}
