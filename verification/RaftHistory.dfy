/** What the invariant of the history implies by itself: Log Matching, Leader Completeness, and its growth. */
module RaftHistory {
  import opened RaftTypes
  import opened RaftHandlers
  import opened RaftCluster
  import opened RaftInvariant

  // Quorums ------------------------------------------------------------------------------------------

  lemma SubsetSize<T>(a: set<T>, b: set<T>)
    requires a <= b
    ensures |a| <= |b|
    ensures |a| == |b| ==> a == b
  {
    assert b == a + (b - a);
    assert |b| == |a| + |b - a|;
  }

  lemma QuorumsIntersect(n: nat, a: set<nat>, b: set<nat>)
    requires a <= Servers(n) && b <= Servers(n)
    requires |a| >= Majority(n) && |b| >= Majority(n)
    ensures exists v :: v in a && v in b
  {
    SubsetSize(a + b, Servers(n));
    assert |a + b| == |a| + |b| - |a * b|;
    var v :| v in a * b;
  }

  // Log Matching -------------------------------------------------------------------------------------

  /** Two proper logs with the same term at the same index agree up to and including it. */
  lemma ProperLogsMatch(h: History, a: seq<Entry>, b: seq<Entry>, k: nat)
    requires ProperLog(h, a) && ProperLog(h, b)
    requires k < |a| && k < |b| && a[k].term == b[k].term
    ensures a[..k + 1] == b[..k + 1]
  {
    if k > 0 {
      assert FromLeader(h, a, k) && FromLeader(h, b, k);
      var l := h.leaders[a[k].term].log;
      assert a[..k + 1] == l[..k + 1] == b[..k + 1];
    }
  }

  // Leader Completeness ------------------------------------------------------------------------------

  /** A log at least as up-to-date as one that holds a committed entry, and written below term u, holds it too. */
  lemma UpToDateHolds(n: nat, h: History, t: nat, k: nat, u: nat, voted: seq<Entry>, log: seq<Entry>)
    requires HistInv(n, h) && Committed(n, h, t, k)
    requires Holds(voted, t, k) && Sorted(voted)
    requires ProperLog(h, log) && LastTerm(log) < u && UpToDate(LastTerm(log), |log| - 1, voted)
    requires forall w :: t < w < u && w in h.leaders ==> Holds(h.leaders[w].log, t, k)
    ensures Holds(log, t, k)
  {
    var last := |log| - 1;
    var tl := LastTerm(log);
    // A leader's term is above those of its starting log, so t > 0 and `log` has more than the placeholder.
    assert LeaderInv(n, h, t) && CandidacyInv(n, h, h.leaders[t].server, t);
    assert 0 < t <= voted[|voted| - 1].term <= tl;
    assert FromLeader(h, log, last);
    var l := h.leaders[tl].log;
    assert log[..last + 1] == log;
    assert Holds(l, t, k);
    // l is sorted and holds t at k, so the last entry of log, of term tl >= t, cannot come before k.
    assert LeaderInv(n, h, tl);
    assert last <= k ==> l[last].term <= l[k].term;
  }

  /** Section 5.4.3: the leaders of all later terms hold a committed entry. */
  lemma {:induction false} LeaderCompleteness(n: nat, h: History, t: nat, k: nat, u: nat)
    requires HistInv(n, h) && Committed(n, h, t, k) && u in h.leaders && t <= u
    ensures Holds(h.leaders[u].log, t, k)
    decreases u
  {
    if t < u {
      forall w | t < w < u && w in h.leaders ensures Holds(h.leaders[w].log, t, k) {
        LeaderCompleteness(n, h, t, k, w);
      }
      assert LeaderInv(n, h, u);
      QuorumsIntersect(n, Replicators(n, h, t, k), h.leaders[u].electors);
      var v :| v in Replicators(n, h, t, k) && v in h.leaders[u].electors;
      assert VoteInv(n, h, v, u);
      assert VoteAckInv(h, v, u, t, k);
      var voted := h.votes[(v, u)].log;
      assert Holds(voted, t, k);
      var c := h.leaders[u].server;
      assert CandidacyInv(n, h, c, u);
      UpToDateHolds(n, h, t, k, u, voted, h.candidacies[(c, u)]);
    }
  }

  /** So the leader of a later term has the committing leader's log up to the committed entry. */
  lemma CommittedPrefix(n: nat, h: History, t: nat, k: nat, u: nat)
    requires HistInv(n, h) && Committed(n, h, t, k) && u in h.leaders && t <= u
    ensures k < |h.leaders[u].log| && h.leaders[u].log[..k + 1] == h.leaders[t].log[..k + 1]
  {
    LeaderCompleteness(n, h, t, k, u);
    assert LeaderInv(n, h, u) && LeaderInv(n, h, t);
    ProperLogsMatch(h, h.leaders[u].log, h.leaders[t].log, k);
  }

  /** Two commit decisions never disagree on an index. */
  lemma CommitsAgree(n: nat, h: History, t: nat, k: nat, u: nat, j: nat, i: nat)
    requires HistInv(n, h) && Committed(n, h, t, k) && Committed(n, h, u, j)
    requires i <= k && i <= j
    ensures h.leaders[t].log[i] == h.leaders[u].log[i]
  {
    if t <= u {
      CommittedPrefix(n, h, t, k, u);
      assert h.leaders[u].log[..k + 1][i] == h.leaders[t].log[..k + 1][i];
    } else {
      CommittedPrefix(n, h, u, j, t);
      assert h.leaders[u].log[..j + 1][i] == h.leaders[t].log[..j + 1][i];
    }
  }

  // Growth -------------------------------------------------------------------------------------------

  lemma ProperLogGrows(h: History, h': History, log: seq<Entry>)
    requires Grows(h, h') && ProperLog(h, log)
    ensures ProperLog(h', log)
  {
    forall k | 1 <= k < |log| ensures FromLeader(h', log, k) {
      assert FromLeader(h, log, k);
      assert LeaderGrows(h, h', log[k].term);
    }
  }

  lemma CommittedGrows(n: nat, h: History, h': History, t: nat, k: nat)
    requires Grows(h, h') && Committed(n, h, t, k)
    ensures Committed(n, h', t, k)
    ensures h.leaders[t].log <= h'.leaders[t].log
  {
    assert LeaderGrows(h, h', t);
    SubsetSize(Replicators(n, h, t, k), Replicators(n, h', t, k));
  }

  lemma CommitKnownGrows(n: nat, h: History, h': History, term: nat, term': nat, index: nat)
    requires Grows(h, h') && CommitKnown(n, h, term, index) && term <= term'
    ensures CommitKnown(n, h', term', index)
  {
    if index != 0 {
      var t: nat, k: nat :| t <= term && Committed(n, h, t, k) && index <= k;
      CommittedGrows(n, h, h', t, k);
    }
  }

  lemma CommitStoredGrows(n: nat, h: History, h': History, term: nat, term': nat, log: seq<Entry>, index: nat)
    requires Grows(h, h') && CommitStored(n, h, term, log, index) && term <= term'
    ensures CommitStored(n, h', term', log, index)
  {
    if index != 0 {
      var t: nat, k: nat :| t <= term && Committed(n, h, t, k) && index <= k && log[..index + 1] <= h.leaders[t].log;
      CommittedGrows(n, h, h', t, k);
    }
  }

  lemma OverruledGrows(h: History, h': History, t: nat, k: nat, upto: int, upto': int)
    requires Grows(h, h') && Overruled(h, t, k, upto) && upto <= upto'
    ensures Overruled(h', t, k, upto')
  {
    var u :| t < u <= upto && u in h.leaders && !Holds(h.leaders[u].log, t, k);
    assert LeaderGrows(h, h', u);
    assert !Holds(h'.leaders[u].log, t, k);
  }

  lemma KeptGrows(h: History, h': History, log: seq<Entry>, t: nat, k: nat, upto: int, upto': int)
    requires Grows(h, h') && Kept(h, log, t, k, upto) && upto <= upto'
    requires t in h.leaders && k < |h.leaders[t].log|
    ensures Kept(h', log, t, k, upto')
  {
    assert LeaderGrows(h, h', t);
    if Overruled(h, t, k, upto) {
      OverruledGrows(h, h', t, k, upto, upto');
    }
  }

  lemma ArgsGrow(n: nat, h: History, h': History, a: AppendEntriesArgs)
    requires Grows(h, h') && ArgsInv(n, h, a)
    ensures ArgsInv(n, h', a)
  {
    assert LeaderGrows(h, h', a.term);
    CommitKnownGrows(n, h, h', a.term, a.term, a.leaderCommit);
  }

  lemma MsgGrows(n: nat, h: History, h': History, m: Message)
    requires Grows(h, h') && MsgInv(n, h, m)
    ensures MsgInv(n, h', m)
  {
    match m
    case AppendRequested(a, dst) => ArgsGrow(n, h, h', a);
    case AppendAnswered(a, from, r) => ArgsGrow(n, h, h', a);
    case _ =>
  }

  lemma BroadcastGrows(n: nat, h: History, h': History, i: nat, nd: Node, b: Broadcast)
    requires Grows(h, h') && BroadcastInv(n, h, i, nd, b)
    ensures BroadcastInv(n, h', i, nd, b)
  {
    if b.term == nd.currentTerm {
      assert LeaderGrows(h, h', b.term);
      CommitKnownGrows(n, h, h', b.term, b.term, b.leaderCommit);
      SubsetSize(Counted(n, h, b), Counted(n, h', b));
    }
  }

  lemma RecordsGrow(h: History, h': History, i: nat, nd: Node, j: nat)
    requires Grows(h, h') && ChangedBy(h, h', j) && i != j && RecordsInv(h, i, nd)
    ensures RecordsInv(h', i, nd)
  {
    forall t | t in h'.leaders && h'.leaders[t].server == i ensures t <= nd.currentTerm {
      assert t in h.leaders;
    }
  }

  lemma RoleGrows(n: nat, h: History, h': History, i: nat, nd: Node, j: nat)
    requires Grows(h, h') && ChangedBy(h, h', j) && i != j && RoleInv(n, h, i, nd)
    ensures RoleInv(n, h', i, nd)
  {
    SubsetSize(Granted(n, h, i, nd.ballot), Granted(n, h', i, nd.ballot));
    if nd.currentTerm in h.leaders {
      assert LeaderGrows(h, h', nd.currentTerm);
    }
  }

  lemma AcksGrow(n: nat, h: History, h': History, i: nat, nd: Node, j: nat)
    requires HistInv(n, h) && Grows(h, h') && ChangedBy(h, h', j) && i != j && AcksInv(h, i, nd)
    ensures AcksInv(h', i, nd)
  {
    forall t, k | Acked(h', i, t, k) ensures Kept(h', nd.log, t, k, nd.currentTerm) {
      assert Acked(h, i, t, k) && AckInv(n, h, i, t);
      KeptGrows(h, h', nd.log, t, k, nd.currentTerm, nd.currentTerm);
    }
  }

  /** What another server does leaves a peer's invariant alone. */
  lemma NodeGrows(n: nat, h: History, h': History, i: nat, nd: Node, j: nat)
    requires HistInv(n, h) && Grows(h, h') && ChangedBy(h, h', j) && i != j
    requires NodeInv(n, h, i, nd)
    ensures NodeInv(n, h', i, nd)
  {
    ProperLogGrows(h, h', nd.log);
    RecordsGrow(h, h', i, nd, j);
    RoleGrows(n, h, h', i, nd, j);
    AcksGrow(n, h, h', i, nd, j);
    forall b | b in nd.broadcasts ensures BroadcastInv(n, h', i, nd, b) {
      BroadcastGrows(n, h, h', i, nd, b);
    }
    CommitStoredGrows(n, h, h', nd.currentTerm, nd.currentTerm, nd.log, nd.commitIndex);
  }
}
