/**
  * The inductive invariant of the cluster. It has three layers: what holds of the history alone, what ties one
  * peer to the history, and what ties one message to it. The centre is `ProperLog`: an entry of term t at index k
  * comes with exactly the first k entries of the log of the leader of t.
  */
module RaftInvariant {
  import opened RaftTypes
  import opened RaftHandlers
  import opened RaftCluster

  /** `log` has an entry of `term` at index `k`. */
  predicate Holds(log: seq<Entry>, term: nat, k: nat) {
    k < |log| && log[k].term == term
  }

  predicate Sorted(log: seq<Entry>) {
    forall j, k :: 0 <= j <= k < |log| ==> log[j].term <= log[k].term
  }

  ghost predicate FromLeader(h: History, log: seq<Entry>, k: nat)
    requires k < |log|
  {
    log[k].term in h.leaders && log[..k + 1] <= h.leaders[log[k].term].log
  }

  ghost predicate ProperLog(h: History, log: seq<Entry>) {
    && |log| > 0 && log[0] == PLACEHOLDER && Sorted(log)
    && forall k :: 1 <= k < |log| ==> FromLeader(h, log, k)
  }

  predicate Acked(h: History, s: nat, t: nat, k: nat) {
    (s, t) in h.acks && k <= h.acks[(s, t)]
  }

  function Replicators(n: nat, h: History, t: nat, k: nat): set<nat> {
    set s | s in Servers(n) && Acked(h, s, t, k)
  }

  /** The commit rule: an entry of the leader's own term, stored by a majority during that term. */
  predicate Committed(n: nat, h: History, t: nat, k: nat) {
    && t in h.leaders && Holds(h.leaders[t].log, t, k)
    && |Replicators(n, h, t, k)| >= Majority(n)
  }

  /** Some leader of a term in (t, upto] lacks the entry of term t at k. */
  ghost predicate Overruled(h: History, t: nat, k: nat, upto: int) {
    exists u :: t < u <= upto && u in h.leaders && !Holds(h.leaders[u].log, t, k)
  }

  /** `log` still has the acknowledged entry of the leader of t at k, or that entry was overruled by `upto`. */
  ghost predicate Kept(h: History, log: seq<Entry>, t: nat, k: nat, upto: int) {
    t in h.leaders && Holds(h.leaders[t].log, t, k) ==> Holds(log, t, k) || Overruled(h, t, k, upto)
  }

  ghost predicate CommitKnown(n: nat, h: History, term: nat, index: nat) {
    index == 0 || exists t: nat, k: nat :: t <= term && Committed(n, h, t, k) && index <= k
  }

  ghost predicate CommitStored(n: nat, h: History, term: nat, log: seq<Entry>, index: nat) {
    && index < |log|
    && (index == 0 ||
        exists t: nat, k: nat :: t <= term && Committed(n, h, t, k) && index <= k && log[..index + 1] <= h.leaders[t].log)
  }

  // The history --------------------------------------------------------------------------------------

  ghost predicate CandidacyInv(n: nat, h: History, s: nat, t: nat)
    requires (s, t) in h.candidacies
  {
    s < n && ProperLog(h, h.candidacies[(s, t)]) && LastTerm(h.candidacies[(s, t)]) < t
  }

  ghost predicate VoteInv(n: nat, h: History, v: nat, t: nat)
    requires (v, t) in h.votes
  {
    var vote := h.votes[(v, t)];
    && v < n && |vote.log| > 0 && Sorted(vote.log)
    && (vote.candidate, t) in h.candidacies
    && var log := h.candidacies[(vote.candidate, t)];
    && |log| > 0 && UpToDate(LastTerm(log), |log| - 1, vote.log)
  }

  ghost predicate LeaderInv(n: nat, h: History, t: nat)
    requires t in h.leaders
  {
    var l := h.leaders[t];
    && (l.server, t) in h.candidacies
    && ProperLog(h, l.log)
    && h.candidacies[(l.server, t)] <= l.log
    && (forall k :: |h.candidacies[(l.server, t)]| <= k < |l.log| ==> l.log[k].term == t)
    && |l.electors| >= Majority(n)
    && (forall v :: v in l.electors ==>
          v < n && (v, t) in h.votes && h.votes[(v, t)].candidate == l.server)
  }

  ghost predicate AckInv(n: nat, h: History, s: nat, t: nat)
    requires (s, t) in h.acks
  {
    s < n && t in h.leaders && h.acks[(s, t)] < |h.leaders[t].log|
  }

  /** The vote of v in term u can still elect, or has elected, the leader of u. */
  predicate Counts(h: History, v: nat, u: nat) {
    (v, u) in h.votes && (u in h.leaders ==> v in h.leaders[u].electors)
  }

  /** What v had acknowledged was in its log when it voted later, unless overruled in between. */
  ghost predicate VoteAckInv(h: History, v: nat, u: nat, t: nat, k: nat) {
    t < u && Counts(h, v, u) && Acked(h, v, t, k) ==> Kept(h, h.votes[(v, u)].log, t, k, u - 1)
  }

  ghost predicate DeliveryInv(n: nat, h: History, m: ApplyMsg) {
    exists t: nat, k: nat ::
      Committed(n, h, t, k) && 1 <= m.index <= k && h.leaders[t].log[m.index].command == m.command
  }

  ghost predicate HistInv(n: nat, h: History) {
    && (forall s, t :: (s, t) in h.candidacies ==> CandidacyInv(n, h, s, t))
    && (forall v, t :: (v, t) in h.votes ==> VoteInv(n, h, v, t))
    && (forall t :: t in h.leaders ==> LeaderInv(n, h, t))
    && (forall s, t :: (s, t) in h.acks ==> AckInv(n, h, s, t))
    && (forall v, u, t, k :: VoteAckInv(h, v, u, t, k))
    && (forall m :: m in h.delivered ==> DeliveryInv(n, h, m))
  }

  // A peer -------------------------------------------------------------------------------------------

  /** Everything recorded about server i is of a term it has reached, and its vote is the recorded one. */
  ghost predicate RecordsInv(h: History, i: nat, nd: Node) {
    && (forall t :: (i, t) in h.candidacies ==> t <= nd.currentTerm)
    && (forall t :: (i, t) in h.votes ==> t <= nd.currentTerm)
    && (forall t :: (i, t) in h.acks ==> t <= nd.currentTerm)
    && (forall t :: t in h.leaders && h.leaders[t].server == i ==> t <= nd.currentTerm)
    && (if (i, nd.currentTerm) in h.votes then nd.voteFor == h.votes[(i, nd.currentTerm)].candidate
        else nd.voteFor == -1)
  }

  ghost predicate LogInv(h: History, nd: Node) {
    && ProperLog(h, nd.log)
    && LastTerm(nd.log) <= nd.currentTerm
    && nd.disk == Persistent(nd.currentTerm, nd.voteFor, nd.log)
  }

  ghost predicate Leads(h: History, i: nat, t: nat) {
    t in h.leaders && h.leaders[t].server == i
  }

  ghost predicate RoleInv(n: nat, h: History, i: nat, nd: Node) {
    && (Leads(h, i, nd.currentTerm) ==> nd.log == h.leaders[nd.currentTerm].log)
    && (nd.role == Leader ==>
          && Leads(h, i, nd.currentTerm)
          && |nd.log| > 0 && Acked(h, i, nd.currentTerm, |nd.log| - 1)
          && forall p :: 0 <= p < |nd.nextIndex| ==> 1 <= nd.nextIndex[p] <= |nd.log|)
    && (nd.role == Candidate ==>
          && (i, nd.currentTerm) in h.candidacies && h.candidacies[(i, nd.currentTerm)] == nd.log
          && !Leads(h, i, nd.currentTerm)
          && nd.ballot.term == nd.currentTerm
          && nd.ballot.votes <= |Granted(n, h, i, nd.ballot)|)
  }

  ghost predicate AcksInv(h: History, i: nat, nd: Node) {
    forall t, k :: Acked(h, i, t, k) ==> Kept(h, nd.log, t, k, nd.currentTerm)
  }

  /** The servers that a broadcast has counted: those done with that stored its index in its term. */
  function Counted(n: nat, h: History, b: Broadcast): set<nat> {
    set p | p in Servers(n) && p !in b.todo && p !in b.inflight && Acked(h, p, b.term, b.index)
  }

  ghost predicate BroadcastInv(n: nat, h: History, i: nat, nd: Node, b: Broadcast) {
    && b.term <= nd.currentTerm
    && b.todo !! b.inflight.Keys && b.todo + b.inflight.Keys <= Others(n, i)
    && (forall p :: p in b.inflight ==> b.inflight[p].term == b.term)
    && (b.term == nd.currentTerm ==>
          && Leads(h, i, b.term)
          && b.leaderCommit <= b.index < |nd.log|
          && CommitKnown(n, h, b.term, b.leaderCommit)
          && (forall p :: p in b.inflight ==> b.index <= b.inflight[p].LastIndex())
          && b.replicas <= |Counted(n, h, b)|)
  }

  ghost predicate AppliedInv(n: nat, h: History, nd: Node) {
    && nd.lastApplied <= nd.commitIndex
    && CommitStored(n, h, nd.currentTerm, nd.log, nd.commitIndex)
    && |nd.applied| == nd.lastApplied
    && forall k :: 0 <= k < |nd.applied| ==> nd.applied[k].index == k + 1 && nd.applied[k] in h.delivered
  }

  ghost predicate NodeInv(n: nat, h: History, i: nat, nd: Node) {
    && |nd.nextIndex| == n && |nd.matchIndex| == n
    && LogInv(h, nd)
    && RecordsInv(h, i, nd)
    && RoleInv(n, h, i, nd)
    && AcksInv(h, i, nd)
    && (forall b :: b in nd.broadcasts ==> BroadcastInv(n, h, i, nd, b))
    && AppliedInv(n, h, nd)
  }

  // A message ----------------------------------------------------------------------------------------

  /** An append request is a slice of the log of the leader of its term, and commits nothing beyond itself. */
  ghost predicate ArgsInv(n: nat, h: History, a: AppendEntriesArgs) {
    && Leads(h, a.leaderId, a.term)
    && var log := h.leaders[a.term].log;
    && a.LastIndex() < |log|
    && a.prevLogTerm == log[a.prevLogIndex].term
    && a.entries == log[a.prevLogIndex + 1..a.LastIndex() + 1]
    && a.leaderCommit <= a.LastIndex()
    && CommitKnown(n, h, a.term, a.leaderCommit)
  }

  ghost predicate MsgInv(n: nat, h: History, m: Message) {
    match m
    case VoteRequested(a, dst) =>
      && dst != a.candidateId
      && (a.candidateId, a.term) in h.candidacies
      && var log := h.candidacies[(a.candidateId, a.term)];
      && |log| > 0 && a.lastLogIndex == |log| - 1 && a.lastLogTerm == LastTerm(log)
    case VoteAnswered(a, from, r) =>
      r.voteGranted ==> (from, a.term) in h.votes && h.votes[(from, a.term)].candidate == a.candidateId
    case AppendRequested(a, dst) =>
      ArgsInv(n, h, a) && dst != a.leaderId
    case AppendAnswered(a, from, r) =>
      && ArgsInv(n, h, a)
      && (r.success ==> Acked(h, from, a.term, a.LastIndex()))
      && (!r.success && r.term <= a.term ==> 1 <= r.conflictFirstIndex <= a.prevLogIndex)
  }

  ghost predicate Inv(c: Cluster) {
    && WellFormed(c)
    && HistInv(c.n, c.hist)
    && (forall i :: 0 <= i < c.n ==> NodeInv(c.n, c.hist, i, c.nodes[i]))
    && (forall m :: m in c.net ==> MsgInv(c.n, c.hist, m))
  }

  // How histories grow -------------------------------------------------------------------------------

  ghost predicate Grows(h: History, h': History) {
    && (forall k :: k in h.candidacies ==> k in h'.candidacies && h'.candidacies[k] == h.candidacies[k])
    && (forall k :: k in h.votes ==> k in h'.votes && h'.votes[k] == h.votes[k])
    && (forall t :: t in h.leaders ==> LeaderGrows(h, h', t))
    && (forall k :: k in h.acks ==> k in h'.acks && h.acks[k] <= h'.acks[k])
    && h.delivered <= h'.delivered
  }

  ghost predicate LeaderGrows(h: History, h': History, t: nat)
    requires t in h.leaders
  {
    && t in h'.leaders
    && h'.leaders[t].server == h.leaders[t].server
    && h'.leaders[t].electors == h.leaders[t].electors
    && h.leaders[t].log <= h'.leaders[t].log
    && forall k :: |h.leaders[t].log| <= k < |h'.leaders[t].log| ==> h'.leaders[t].log[k].term == t
  }

  /** Only records about server j are new. */
  ghost predicate ChangedBy(h: History, h': History, j: nat) {
    && (forall s, t :: s != j && (s, t) in h'.candidacies ==> (s, t) in h.candidacies)
    && (forall s, t :: s != j && (s, t) in h'.votes ==> (s, t) in h.votes)
    && (forall s, t :: s != j && (s, t) in h'.acks ==> (s, t) in h.acks && h'.acks[(s, t)] == h.acks[(s, t)])
    && (forall t :: t in h'.leaders && h'.leaders[t].server != j ==>
          t in h.leaders && h'.leaders[t] == h.leaders[t])
  }
}
