/** The theorems about every run of the cluster, crashes and restarts included. */
module RaftSafety {
  import opened RaftTypes
  import opened RaftHandlers
  import opened RaftCluster
  import opened RaftInvariant
  import opened RaftHistory
  import opened RaftElection
  import opened RaftReplication

  // The invariant holds in every reachable state ------------------------------------------------------

  lemma InitialInv(n: nat)
    ensures Inv(Initial(n))
  {
  }

  /** No enabled step indexes a slice out of bounds, and every step keeps the invariant. */
  lemma StepInBoundsAndKeeps(c: Cluster, s: Step)
    requires Inv(c) && Enabled(c, s)
    ensures InBounds(c, s) && StepKeeps(c, s)
  {
    hide HistInv, NodeInv, MsgInv, StepKeeps, AppendReplyInBounds;
    match s
    case Timeout(i) => TimeoutKeeps(c, i);
    case HandleVoteRequest(i, args) => VoteRequestKeeps(c, i, args);
    case HandleVoteReply(i, from, args, reply) => VoteReplyKeeps(c, i, from, args, reply);
    case HandleAppendRequest(i, args) => AppendRequestKeeps(c, i, args);
    case HandleAppendReply(i, b, peer, args, reply) => AppendReplyKeeps(c, i, b, peer, args, reply);
    case SendAppend(i, b, peer) => SendKeeps(c, i, b, peer);
    case ClientCommand(i, command) => ClientCommandKeeps(c, i, command);
    case Heartbeat(i) => HeartbeatKeeps(c, i);
    case Apply(i) => ApplyKeeps(c, i);
    case Restart(i) => RestartKeeps(c, i);
  }

  lemma StepInv(c: Cluster, s: Step)
    requires Inv(c) && Enabled(c, s) && InBounds(c, s)
    ensures Inv(Do(c, s)) && Grows(c.hist, Do(c, s).hist)
  {
    hide HistInv, NodeInv, MsgInv, Grows, ChangedBy, After, Sent, Recorded, InBounds, Enabled;
    StepInBoundsAndKeeps(c, s);
    var c' := Do(c, s);
    forall i | 0 <= i < c'.n ensures NodeInv(c'.n, c'.hist, i, c'.nodes[i]) {
      if i != s.i {
        NodeGrows(c.n, c.hist, c'.hist, i, c.nodes[i], s.i);
      }
    }
    NodesWellFormed(c');
    forall m | m in c'.net ensures MsgInv(c'.n, c'.hist, m) {
      if m in c.net {
        MsgGrows(c.n, c.hist, c'.hist, m);
      }
    }
  }

  lemma NodesWellFormed(c: Cluster)
    requires |c.nodes| == c.n
    requires forall i :: 0 <= i < c.n ==> NodeInv(c.n, c.hist, i, c.nodes[i])
    ensures WellFormed(c)
  {
    forall i | 0 <= i < c.n
      ensures |c.nodes[i].log| > 0 && |c.nodes[i].nextIndex| == c.n && |c.nodes[i].matchIndex| == c.n
    {
      assert NodeInv(c.n, c.hist, i, c.nodes[i]);
    }
  }

  lemma {:induction false} RunInv(n: nat, run: seq<Cluster>, b: nat)
    requires IsRun(n, run) && b < |run|
    ensures Inv(run[b]) && run[b].n == n
  {
    hide Inv, Enabled, InBounds;
    if b == 0 {
      InitialInv(n);
    } else {
      RunInv(n, run, b - 1);
      assert Next(run[b - 1], run[b - 1 + 1]);
      var s :| Enabled(run[b - 1], s) && InBounds(run[b - 1], s) && run[b] == Do(run[b - 1], s);
      StepInv(run[b - 1], s);
    }
  }

  /** The step from state b to state b + 1 of a run. */
  lemma StepOfRun(n: nat, run: seq<Cluster>, b: nat) returns (s: Step)
    requires IsRun(n, run) && b + 1 < |run|
    ensures run[b].n == run[b + 1].n == n && Inv(run[b]) && Inv(run[b + 1])
    ensures Enabled(run[b], s) && InBounds(run[b], s) && run[b + 1] == Do(run[b], s)
    ensures Grows(run[b].hist, run[b + 1].hist)
  {
    hide Inv, Enabled, InBounds, Grows, Do;
    RunInv(n, run, b);
    RunInv(n, run, b + 1);
    assert Next(run[b], run[b + 1]);
    s :| Enabled(run[b], s) && InBounds(run[b], s) && run[b + 1] == Do(run[b], s);
    StepInv(run[b], s);
  }

  lemma GrowsTransitive(h: History, h1: History, h2: History)
    requires Grows(h, h1) && Grows(h1, h2)
    ensures Grows(h, h2)
  {
    forall t | t in h.leaders ensures LeaderGrows(h, h2, t) {
      assert LeaderGrows(h, h1, t) && LeaderGrows(h1, h2, t);
    }
  }

  lemma {:induction false} RunGrows(n: nat, run: seq<Cluster>, a: nat, b: nat)
    requires IsRun(n, run) && a <= b < |run|
    ensures Grows(run[a].hist, run[b].hist)
    decreases b - a
  {
    hide Inv, Enabled, InBounds, Grows, Do;
    if a == b {
      SameHistory(run[a].hist, 0);
    } else {
      RunGrows(n, run, a, b - 1);
      var s := StepOfRun(n, run, b - 1);
      GrowsTransitive(run[a].hist, run[b - 1].hist, run[b].hist);
    }
  }

  /** Every enabled step of every reachable state reads its slices within bounds: the Go code does not panic. */
  lemma NoIndexPanics(n: nat, run: seq<Cluster>, b: nat, s: Step)
    requires IsRun(n, run) && b < |run| && WellFormed(run[b]) && Enabled(run[b], s)
    ensures InBounds(run[b], s)
  {
    RunInv(n, run, b);
    StepInBoundsAndKeeps(run[b], s);
  }

  // Durability ---------------------------------------------------------------------------------------

  /** Between steps the disk holds exactly the term, vote and log in memory: they were saved before any reply. */
  lemma AlwaysPersisted(n: nat, run: seq<Cluster>, b: nat, i: nat)
    requires IsRun(n, run) && b < |run| && i < n
    ensures |run[b].nodes| == n
    ensures var nd := run[b].nodes[i]; nd.disk == Persistent(nd.currentTerm, nd.voteFor, nd.log)
  {
    RunInv(n, run, b);
    assert NodeInv(n, run[b].hist, i, run[b].nodes[i]);
  }

  // Election Safety ----------------------------------------------------------------------------------

  /** A server grants its vote to one candidate per term, over all its incarnations. */
  lemma OneVotePerTerm(n: nat, run: seq<Cluster>, b: nat, v: nat, x: RequestVoteArgs, y: RequestVoteArgs,
                       rx: RequestVoteReply, ry: RequestVoteReply)
    requires IsRun(n, run) && b < |run|
    requires VoteAnswered(x, v, rx) in run[b].net && rx.voteGranted
    requires VoteAnswered(y, v, ry) in run[b].net && ry.voteGranted
    requires x.term == y.term
    ensures x.candidateId == y.candidateId
  {
    RunInv(n, run, b);
    assert MsgInv(n, run[b].hist, VoteAnswered(x, v, rx));
    assert MsgInv(n, run[b].hist, VoteAnswered(y, v, ry));
  }

  lemma LeaderRecorded(n: nat, run: seq<Cluster>, a: nat, i: nat, b: nat)
    requires IsRun(n, run) && a <= b < |run| && i < n
    ensures |run[a].nodes| == n
    ensures var nd := run[a].nodes[i];
            nd.role == Leader ==>
              && Leads(run[b].hist, i, nd.currentTerm)
              && nd.log <= run[b].hist.leaders[nd.currentTerm].log
              && forall k :: |nd.log| <= k < |run[b].hist.leaders[nd.currentTerm].log| ==>
                   run[b].hist.leaders[nd.currentTerm].log[k].term == nd.currentTerm
  {
    RunInv(n, run, a);
    RunGrows(n, run, a, b);
    var nd := run[a].nodes[i];
    assert NodeInv(n, run[a].hist, i, nd);
    if nd.role == Leader {
      assert LeaderGrows(run[a].hist, run[b].hist, nd.currentTerm);
    }
  }

  /** At most one server is ever leader of a term: at any two moments of a run, across crashes. */
  lemma ElectionSafety(n: nat, run: seq<Cluster>, a: nat, i: nat, b: nat, j: nat)
    requires IsRun(n, run) && a < |run| && b < |run| && i < n && j < n
    ensures |run[a].nodes| == n && |run[b].nodes| == n
    ensures var x := run[a].nodes[i]; var y := run[b].nodes[j];
            x.role == Leader && y.role == Leader && x.currentTerm == y.currentTerm ==> i == j
  {
    var last := if a <= b then b else a;
    LeaderRecorded(n, run, a, i, last);
    LeaderRecorded(n, run, b, j, last);
  }

  /** A leader only appends to its log for as long as its term lasts. */
  lemma LeaderAppendOnly(n: nat, run: seq<Cluster>, a: nat, b: nat, i: nat)
    requires IsRun(n, run) && a <= b < |run| && i < n
    ensures |run[a].nodes| == n && |run[b].nodes| == n
    ensures var x := run[a].nodes[i]; var y := run[b].nodes[i];
            x.role == Leader && y.role == Leader && x.currentTerm == y.currentTerm ==> x.log <= y.log
  {
    LeaderRecorded(n, run, a, i, b);
    RunInv(n, run, b);
    assert NodeInv(n, run[b].hist, i, run[b].nodes[i]);
  }

  // Log Matching -------------------------------------------------------------------------------------

  lemma NodeLogIsProper(n: nat, run: seq<Cluster>, a: nat, i: nat, b: nat)
    requires IsRun(n, run) && a <= b < |run| && i < n
    ensures |run[a].nodes| == n && ProperLog(run[b].hist, run[a].nodes[i].log)
  {
    hide ProperLog, Grows;
    RunInv(n, run, a);
    RunGrows(n, run, a, b);
    assert NodeInv(n, run[a].hist, i, run[a].nodes[i]);
    ProperLogGrows(run[a].hist, run[b].hist, run[a].nodes[i].log);
  }

  /** Logs of any two servers at any two moments that have the same term at an index agree through that index. */
  lemma LogMatching(n: nat, run: seq<Cluster>, a: nat, i: nat, b: nat, j: nat, k: nat)
    requires IsRun(n, run) && a < |run| && b < |run| && i < n && j < n
    ensures |run[a].nodes| == n && |run[b].nodes| == n
    ensures var x := run[a].nodes[i].log; var y := run[b].nodes[j].log;
            k < |x| && k < |y| && x[k].term == y[k].term ==> x[..k + 1] == y[..k + 1]
  {
    hide ProperLog;
    var last := if a <= b then b else a;
    NodeLogIsProper(n, run, a, i, last);
    NodeLogIsProper(n, run, b, j, last);
    var x, y := run[a].nodes[i].log, run[b].nodes[j].log;
    if k < |x| && k < |y| && x[k].term == y[k].term {
      ProperLogsMatch(run[last].hist, x, y, k);
    }
  }

  /** Terms never decrease along a log. */
  lemma TermsNeverDecrease(n: nat, run: seq<Cluster>, a: nat, i: nat)
    requires IsRun(n, run) && a < |run| && i < n
    ensures |run[a].nodes| == n && Sorted(run[a].nodes[i].log)
  {
    NodeLogIsProper(n, run, a, i, a);
  }

  lemma MessageFits(n: nat, run: seq<Cluster>, b: nat, args: AppendEntriesArgs, dst: nat)
    requires IsRun(n, run) && b < |run| && AppendRequested(args, dst) in run[b].net
    ensures HistInv(n, run[b].hist) && ArgsInv(n, run[b].hist, args)
  {
    RunInv(n, run, b);
    assert MsgInv(n, run[b].hist, AppendRequested(args, dst));
  }

  /** A log that has a term in common with an append request, however old, agrees with it up to there. */
  lemma LogMatchesMessage(n: nat, run: seq<Cluster>, b: nat, i: nat, args: AppendEntriesArgs, dst: nat, j: nat)
    requires IsRun(n, run) && b < |run| && i < n && AppendRequested(args, dst) in run[b].net
    requires j < |args.entries|
    ensures |run[b].nodes| == n
    ensures var log := run[b].nodes[i].log; var k := args.prevLogIndex + 1 + j;
            k < |log| && log[k].term == args.entries[j].term ==>
              log[args.prevLogIndex].term == args.prevLogTerm &&
              log[args.prevLogIndex + 1..k + 1] == args.entries[..j + 1]
  {
    hide HistInv, ProperLog;
    NodeLogIsProper(n, run, b, i, b);
    MessageFits(n, run, b, args, dst);
    var h, log := run[b].hist, run[b].nodes[i].log;
    var leader, k := h.leaders[args.term].log, args.prevLogIndex + 1 + j;
    LeaderIsProper(n, h, args.term);
    if k < |log| && log[k].term == args.entries[j].term {
      ProperLogsMatch(h, log, leader, k);
      assert forall x :: 0 <= x <= k ==> log[x] == log[..k + 1][x] == leader[..k + 1][x] == leader[x];
    }
  }

  lemma EntriesMatch(n: nat, h: History, log: seq<Entry>, args: AppendEntriesArgs, j: nat)
    requires HistInv(n, h) && ProperLog(h, log) && ArgsInv(n, h, args)
    requires j < |args.entries| && args.prevLogIndex + 1 + j < |log|
    requires log[args.prevLogIndex + 1 + j].term == args.entries[j].term
    ensures log[args.prevLogIndex + 1 + j] == args.entries[j]
  {
    hide HistInv, ProperLog;
    var leader, k := h.leaders[args.term].log, args.prevLogIndex + 1 + j;
    LeaderIsProper(n, h, args.term);
    assert args.entries[j] == leader[k];
    ProperLogsMatch(h, log, leader, k);
    assert log[k] == log[..k + 1][k] == leader[..k + 1][k];
  }

  /** What the receiver's log becomes is what section 5.3 prescribes. */
  lemma AcceptedIsPaperMerge(n: nat, run: seq<Cluster>, b: nat, i: nat, args: AppendEntriesArgs)
    requires IsRun(n, run) && b < |run| && i < n && AppendRequested(args, i) in run[b].net
    ensures |run[b].nodes| == n
    ensures var log := run[b].nodes[i].log;
            Consistent(log, args) ==> MergedLog(log, args) == PaperMerge(log, args.prevLogIndex + 1, args.entries)
  {
    hide HistInv, ProperLog, IsRun, ArgsInv;
    NodeLogIsProper(n, run, b, i, b);
    MessageFits(n, run, b, args, i);
    var log, next := run[b].nodes[i].log, args.prevLogIndex + 1;
    if Consistent(log, args) {
      forall j | 0 <= j < |args.entries| && next + j < |log| && log[next + j].term == args.entries[j].term
        ensures log[next + j] == args.entries[j]
      {
        EntriesMatch(n, run[b].hist, log, args, j);
      }
      OverwriteIsPaperMerge(log, next, args.entries);
    }
  }

  /** Every append request ever sent commits nothing beyond the entries that it vouches for. */
  lemma InFlightCommitBound(n: nat, run: seq<Cluster>, b: nat, args: AppendEntriesArgs, dst: nat)
    requires IsRun(n, run) && b < |run| && AppendRequested(args, dst) in run[b].net
    ensures args.leaderCommit <= args.LastIndex()
  {
    MessageFits(n, run, b, args, dst);
  }

  // Leader Completeness ------------------------------------------------------------------------------

  /** A peer's committed prefix, as the history at any later moment justifies it. */
  lemma NodeCommit(n: nat, run: seq<Cluster>, a: nat, i: nat, b: nat)
    requires IsRun(n, run) && a <= b < |run| && i < n
    ensures |run[a].nodes| == n && HistInv(n, run[b].hist)
    ensures var nd := run[a].nodes[i];
            ProperLog(run[b].hist, nd.log) && CommitStored(n, run[b].hist, nd.currentTerm, nd.log, nd.commitIndex)
  {
    hide ProperLog, Grows, CommitStored;
    RunInv(n, run, a);
    RunInv(n, run, b);
    RunGrows(n, run, a, b);
    var nd := run[a].nodes[i];
    assert NodeInv(n, run[a].hist, i, nd);
    ProperLogGrows(run[a].hist, run[b].hist, nd.log);
    CommitStoredGrows(n, run[a].hist, run[b].hist, nd.currentTerm, nd.currentTerm, nd.log, nd.commitIndex);
  }

  /** The entries of a later leader's log are its own or were there when it was elected. */
  lemma LeaderHoldsCommitted(n: nat, h: History, nd: Node, leader: seq<Entry>, u: nat)
    requires HistInv(n, h) && ProperLog(h, nd.log)
    requires CommitStored(n, h, nd.currentTerm, nd.log, nd.commitIndex)
    requires u in h.leaders && leader <= h.leaders[u].log && nd.currentTerm < u && |leader| > 0
    requires forall k :: |leader| <= k < |h.leaders[u].log| ==> h.leaders[u].log[k].term == u
    ensures nd.log[..nd.commitIndex + 1] <= leader
  {
    hide HistInv, ProperLog, Replicators;
    CommitWithLeader(n, h, nd, u);
    if nd.commitIndex > 0 {
      var t: nat, k: nat :| t <= nd.currentTerm && Committed(n, h, t, k) && nd.commitIndex <= k;
      LeaderCompleteness(n, h, t, k, u);
      assert k < |leader|;
    }
  }

  /**
    * Section 5.4.3: what any server has committed in its term is in the log of the leader of every later term, at
    * whatever moments of the run the two are observed.
    */
  lemma LeadersAreComplete(n: nat, run: seq<Cluster>, a: nat, i: nat, b: nat, j: nat)
    requires IsRun(n, run) && a < |run| && b < |run| && i < n && j < n
    ensures |run[a].nodes| == n && |run[b].nodes| == n
    ensures var x := run[a].nodes[i]; var y := run[b].nodes[j];
            y.role == Leader && x.currentTerm < y.currentTerm ==>
              x.commitIndex < |x.log| && x.log[..x.commitIndex + 1] <= y.log
  {
    hide HistInv, ProperLog;
    var last := if a <= b then b else a;
    NodeCommit(n, run, a, i, last);
    NodeCommit(n, run, b, j, b);
    LeaderRecorded(n, run, b, j, last);
    var x, y := run[a].nodes[i], run[b].nodes[j];
    if y.role == Leader && x.currentTerm < y.currentTerm {
      assert |y.log| > 0;
      LeaderHoldsCommitted(n, run[last].hist, x, y.log, y.currentTerm);
    }
  }

  // State Machine Safety -----------------------------------------------------------------------------

  lemma DeliveriesAgree(n: nat, h: History, x: ApplyMsg, y: ApplyMsg)
    requires HistInv(n, h) && DeliveryInv(n, h, x) && DeliveryInv(n, h, y) && x.index == y.index
    ensures x == y
  {
    hide Replicators, HistInv;
    var t: nat, k: nat :| Committed(n, h, t, k) && 1 <= x.index <= k && h.leaders[t].log[x.index].command == x.command;
    var u: nat, j: nat :| Committed(n, h, u, j) && 1 <= y.index <= j && h.leaders[u].log[y.index].command == y.command;
    CommitsAgree(n, h, t, k, u, j, x.index);
  }

  /**
    * Any two commands ever delivered at the same index, by any servers at any moments (so by any incarnations),
    * are equal; and each incarnation delivers the indices 1, 2, 3, .. without a gap.
    */
  lemma StateMachineSafety(n: nat, run: seq<Cluster>, a: nat, i: nat, b: nat, j: nat, k: nat)
    requires IsRun(n, run) && a < |run| && b < |run| && i < n && j < n
    ensures |run[a].nodes| == n && |run[b].nodes| == n
    ensures var x := run[a].nodes[i].applied; var y := run[b].nodes[j].applied;
            && (k < |x| ==> x[k].index == k + 1)
            && (k < |x| && k < |y| ==> x[k] == y[k])
  {
    hide HistInv, DeliveryInv, NodeInv, MsgInv;
    var last := if a <= b then b else a;
    RunInv(n, run, a);
    RunInv(n, run, b);
    RunInv(n, run, last);
    RunGrows(n, run, a, last);
    RunGrows(n, run, b, last);
    AllDeliveries(n, run[last].hist);
    AppliedAreDelivered(n, run[a].hist, i, run[a].nodes[i]);
    AppliedAreDelivered(n, run[b].hist, j, run[b].nodes[j]);
    var x, y := run[a].nodes[i].applied, run[b].nodes[j].applied;
    if k < |x| && k < |y| {
      DeliveriesAgree(n, run[last].hist, x[k], y[k]);
    }
  }

  lemma AppliedAreDelivered(n: nat, h: History, i: nat, nd: Node)
    requires NodeInv(n, h, i, nd)
    ensures |nd.applied| == nd.lastApplied <= nd.commitIndex
    ensures forall k :: 0 <= k < |nd.applied| ==> nd.applied[k].index == k + 1 && nd.applied[k] in h.delivered
  {
  }

  /** And what was delivered is the log's entry there, which the server still holds. */
  lemma DeliveredFromLog(n: nat, run: seq<Cluster>, b: nat, i: nat, k: nat)
    requires IsRun(n, run) && b < |run| && i < n
    ensures |run[b].nodes| == n
    ensures var nd := run[b].nodes[i];
            k < |nd.applied| ==> k + 1 <= nd.commitIndex < |nd.log| && nd.applied[k].command == nd.log[k + 1].command
  {
    hide HistInv, DeliveryInv, NodeInv, MsgInv, CommitStored;
    RunInv(n, run, b);
    var h, nd := run[b].hist, run[b].nodes[i];
    AppliedParts(n, h, i, nd);
    NodeIsDurable(n, h, i, nd);
    CommitInLog(n, h, nd.currentTerm, nd.log, nd.commitIndex);
    if k < |nd.applied| {
      AppliedAreDelivered(n, h, i, nd);
      AllDeliveries(n, h);
      AppliedIsCommitted(n, h, nd, k + 1);
      DeliveriesAgree(n, h, nd.applied[k], ApplyMsg(nd.log[k + 1].command, k + 1));
    }
  }

  lemma AllDeliveries(n: nat, h: History)
    requires HistInv(n, h)
    ensures forall m :: m in h.delivered ==> DeliveryInv(n, h, m)
  {
  }

  // Committed prefixes are never rewritten -----------------------------------------------------------

  lemma SamePrefixCommit(n: nat, h: History, h': History, term: nat, term': nat, log: seq<Entry>, log': seq<Entry>, k: nat)
    requires CommitStored(n, h, term, log, k) && Grows(h, h') && term <= term'
    requires k < |log'| && log'[..k + 1] == log[..k + 1]
    ensures CommitStored(n, h', term', log', k)
  {
    CommitStoredGrows(n, h, h', term, term', log, k);
  }

  lemma AcceptKeepsPrefix(n: nat, h: History, nd: Node, a: AppendEntriesArgs, k: nat)
    requires HistInv(n, h) && ProperLog(h, nd.log) && ArgsInv(n, h, a) && Accepts(nd, a)
    requires CommitStored(n, h, nd.currentTerm, nd.log, nd.commitIndex)
    requires CommitStored(n, h, nd.currentTerm, nd.log, k)
    ensures var nd' := AfterAppendEntries(nd, a);
            && k < |nd.log| && k < |nd'.log| && nd'.log[..k + 1] == nd.log[..k + 1]
            && nd.commitIndex <= nd'.commitIndex
  {
    hide HistInv, ProperLog, ArgsInv, Committed, MergedLog;
    MergedCommit(n, h, nd, a);
    MergedCommit(n, h, nd.(commitIndex := k), a);
  }

  /** nd' is not behind nd, and agrees with it through index k. */
  ghost predicate KeepsPrefix(nd: Node, nd': Node, k: nat) {
    && nd.currentTerm <= nd'.currentTerm
    && k < |nd.log| && k < |nd'.log| && nd'.log[..k + 1] == nd.log[..k + 1]
    && nd.commitIndex <= nd'.commitIndex && nd.applied <= nd'.applied
  }

  lemma AppendRequestKeepsPrefix(c: Cluster, i: nat, args: AppendEntriesArgs, k: nat)
    requires Inv(c) && Enabled(c, HandleAppendRequest(i, args))
    requires var nd := c.nodes[i]; CommitStored(c.n, c.hist, nd.currentTerm, nd.log, k)
    ensures KeepsPrefix(c.nodes[i], AfterAppendEntries(c.nodes[i], args), k)
  {
    hide HistInv, CommitStored, ArgsInv, MsgInv, NodeInv, AfterAppendEntries, Accepts, ProperLog;
    var nd := c.nodes[i];
    assert NodeInv(c.n, c.hist, i, nd);
    CommitInLog(c.n, c.hist, nd.currentTerm, nd.log, k);
    NodeIsDurable(c.n, c.hist, i, nd);
    MessageArgs(c, args, i);
    if Accepts(nd, args) {
      AcceptKeepsPrefix(c.n, c.hist, nd, args, k);
    }
    TermAfterAppendEntries(nd, args);
  }

  lemma AppendReplyKeepsPrefix(nd: Node, n: nat, b: nat, peer: nat, args: AppendEntriesArgs, reply: AppendEntriesReply,
                               k: nat)
    requires AppendReplyInBounds(nd, b, peer, args, reply) && k < |nd.log|
    ensures KeepsPrefix(nd, AfterAppendReply(nd, n, b, peer, args, reply), k)
  {
    hide NextIndexAfter, BackupInBounds;
  }

  lemma CommandKeepsPrefix(nd: Node, i: nat, n: nat, command: Command, k: nat)
    requires k < |nd.log|
    ensures KeepsPrefix(nd, AfterStart(nd, i, n, command), k)
  {
  }

  lemma VoteStepsKeepPrefix(nd: Node, i: nat, n: nat, args: RequestVoteArgs, from: nat, reply: RequestVoteReply, k: nat)
    requires k < |nd.log|
    ensures KeepsPrefix(nd, AfterRequestVote(nd, args), k)
    ensures KeepsPrefix(nd, AfterVoteReply(nd, i, n, from, args, reply), k)
  {
  }

  lemma QuietStepsKeepPrefix(nd: Node, i: nat, n: nat, k: nat)
    requires k < |nd.log| && nd.commitIndex < |nd.log|
    ensures KeepsPrefix(nd, AfterStartElection(nd, i, n), k)
    ensures KeepsPrefix(nd, AfterHeartbeat(nd, i, n), k) && KeepsPrefix(nd, AfterApply(nd), k)
  {
  }

  /** What a step does to a peer's term, log and commit index: it keeps every committed prefix. */
  lemma StepKeepsPrefix(c: Cluster, s: Step, k: nat)
    requires Inv(c) && Enabled(c, s) && InBounds(c, s)
    requires var nd := c.nodes[s.i]; CommitStored(c.n, c.hist, nd.currentTerm, nd.log, k)
    ensures var nd := c.nodes[s.i]; var nd' := After(c, s);
            && nd.currentTerm <= nd'.currentTerm
            && k < |nd.log| && k < |nd'.log| && nd'.log[..k + 1] == nd.log[..k + 1]
            && (!s.Restart? ==> nd.commitIndex <= nd'.commitIndex && nd.applied <= nd'.applied)
  {
    hide HistInv, CommitStored, NodeInv, MsgInv, AppendReplyInBounds, AfterRequestVote, AfterVoteReply, AfterAppendEntries,
         AfterAppendReply, AfterStart, AfterStartElection, AfterHeartbeat, AfterApply;
    var nd := c.nodes[s.i];
    assert NodeInv(c.n, c.hist, s.i, nd);
    CommitInLog(c.n, c.hist, nd.currentTerm, nd.log, k);
    CommitInRange(c.n, c.hist, s.i, nd);
    match s
    case HandleVoteRequest(i, args) => VoteStepsKeepPrefix(nd, i, c.n, args, 0, RequestVoteReply(0, false), k);
    case HandleVoteReply(i, from, args, reply) => VoteStepsKeepPrefix(nd, i, c.n, args, from, reply, k);
    case HandleAppendRequest(i, args) => AppendRequestKeepsPrefix(c, i, args, k);
    case HandleAppendReply(i, b, peer, args, reply) => AppendReplyKeepsPrefix(nd, c.n, b, peer, args, reply, k);
    case ClientCommand(i, command) => CommandKeepsPrefix(nd, i, c.n, command, k);
    case Restart(i) => NodeIsDurable(c.n, c.hist, i, nd);
    case _ => QuietStepsKeepPrefix(nd, s.i, c.n, k);
  }

  lemma CommitInRange(n: nat, h: History, i: nat, nd: Node)
    requires NodeInv(n, h, i, nd)
    ensures nd.commitIndex < |nd.log|
  {
  }

  lemma TermAfterAppendEntries(nd: Node, a: AppendEntriesArgs)
    ensures var nd' := AfterAppendEntries(nd, a);
            && nd.currentTerm <= nd'.currentTerm && nd'.applied == nd.applied
            && (!Accepts(nd, a) ==> nd'.log == nd.log && nd'.commitIndex == nd.commitIndex)
  {
  }

  lemma NodeIsDurable(n: nat, h: History, i: nat, nd: Node)
    requires NodeInv(n, h, i, nd)
    ensures nd.disk == Persistent(nd.currentTerm, nd.voteFor, nd.log)
    ensures ProperLog(h, nd.log) && CommitStored(n, h, nd.currentTerm, nd.log, nd.commitIndex)
  {
  }

  lemma MessageArgs(c: Cluster, a: AppendEntriesArgs, dst: nat)
    requires Inv(c) && AppendRequested(a, dst) in c.net
    ensures ArgsInv(c.n, c.hist, a)
  {
    assert MsgInv(c.n, c.hist, AppendRequested(a, dst));
  }

  lemma CommitInLog(n: nat, h: History, term: nat, log: seq<Entry>, k: nat)
    requires CommitStored(n, h, term, log, k)
    ensures k < |log|
  {
  }

  /**
    * Once a server has committed up to an index, its log never changes up to there: not by later leaders, and not
    * by a restart, which forgets the commit index but not the log.
    */
  lemma {:induction false} CommittedPrefixForever(n: nat, run: seq<Cluster>, a: nat, b: nat, i: nat)
    requires IsRun(n, run) && a <= b < |run| && i < n
    ensures |run[a].nodes| == n && |run[b].nodes| == n
    ensures var x := run[a].nodes[i]; var y := run[b].nodes[i];
            && x.commitIndex < |x.log| && x.log[..x.commitIndex + 1] <= y.log
            && CommitStored(n, run[b].hist, y.currentTerm, y.log, x.commitIndex)
    decreases b - a
  {
    hide IsRun, HistInv, CommitStored, Enabled, InBounds, After, Recorded, Sent, NodeInv, MsgInv, Grows;
    NodeCommit(n, run, a, i, a);
    var k := run[a].nodes[i].commitIndex;
    CommitInLog(n, run[a].hist, run[a].nodes[i].currentTerm, run[a].nodes[i].log, k);
    if a < b {
      CommittedPrefixForever(n, run, a, b - 1, i);
      var s := StepOfRun(n, run, b - 1);
      var x, y := run[b - 1].nodes[i], run[b].nodes[i];
      if s.i == i {
        StepKeepsPrefix(run[b - 1], s, k);
      }
      assert y.log[..k + 1] == x.log[..k + 1];
      SamePrefixCommit(n, run[b - 1].hist, run[b].hist, x.currentTerm, y.currentTerm, x.log, y.log, k);
    }
  }

  /** The steps that a run took. */
  ghost predicate StepsOf(run: seq<Cluster>, steps: seq<Step>) {
    && |run| == |steps| + 1
    && forall k :: 0 <= k < |steps| ==>
         && WellFormed(run[k]) && Enabled(run[k], steps[k]) && InBounds(run[k], steps[k])
         && run[k + 1] == Do(run[k], steps[k])
  }

  lemma CommitIndexStep(n: nat, run: seq<Cluster>, b: nat, s: Step, i: nat)
    requires IsRun(n, run) && b + 1 < |run| && i < n && s != Restart(i)
    requires WellFormed(run[b]) && Enabled(run[b], s) && InBounds(run[b], s) && run[b + 1] == Do(run[b], s)
    ensures |run[b].nodes| == n && |run[b + 1].nodes| == n
    ensures var x := run[b].nodes[i]; var y := run[b + 1].nodes[i];
            x.commitIndex <= y.commitIndex && x.applied <= y.applied
  {
    hide HistInv, CommitStored, Enabled, InBounds, After, Recorded, MsgInv, NodeInv;
    RunInv(n, run, b);
    RunInv(n, run, b + 1);
    if s.i == i {
      NodeCommit(n, run, b, i, b);
      StepKeepsPrefix(run[b], s, run[b].nodes[i].commitIndex);
    }
  }

  /**
    * Between any two moments of one incarnation the commit index does not decrease and what was delivered stays
    * delivered; the commit index never passes the end of the log, and lastApplied never passes the commit index.
    */
  lemma {:induction false} CommitIndexMonotone(n: nat, run: seq<Cluster>, steps: seq<Step>, a: nat, b: nat, i: nat)
    requires IsRun(n, run) && StepsOf(run, steps) && a <= b < |run| && i < n
    requires forall k :: a <= k < b ==> steps[k] != Restart(i)
    ensures |run[a].nodes| == n && |run[b].nodes| == n
    ensures var x := run[a].nodes[i]; var y := run[b].nodes[i];
            && x.commitIndex <= y.commitIndex && x.lastApplied <= y.lastApplied && x.applied <= y.applied
            && y.lastApplied <= y.commitIndex < |y.log|
    decreases b - a
  {
    hide IsRun, HistInv, CommitStored, Enabled, InBounds, Do, MsgInv, NodeInv;
    NodeCommit(n, run, b, i, b);
    RunInv(n, run, a);
    RunInv(n, run, b);
    var x, y := run[a].nodes[i], run[b].nodes[i];
    AppliedAreDelivered(n, run[a].hist, i, x);
    AppliedAreDelivered(n, run[b].hist, i, y);
    CommitInLog(n, run[b].hist, y.currentTerm, y.log, y.commitIndex);
    if a < b {
      CommitIndexMonotone(n, run, steps, a, b - 1, i);
      assert run[b] == run[b - 1 + 1];
      CommitIndexStep(n, run, b - 1, steps[b - 1], i);
    }
  }

  // Replication counts -------------------------------------------------------------------------------

  /** Server p, in term t, holds the log of the leader of t up to and including index k. */
  ghost predicate Stores(h: History, nd: Node, t: nat, k: nat) {
    && nd.currentTerm == t && t in h.leaders
    && k < |nd.log| && k < |h.leaders[t].log| && nd.log[..k + 1] == h.leaders[t].log[..k + 1]
  }

  lemma StoresGrows(h: History, h': History, nd: Node, t: nat, k: nat)
    requires Stores(h, nd, t, k) && Grows(h, h')
    ensures Stores(h', nd, t, k)
  {
    assert LeaderGrows(h, h', t);
  }

  lemma AcceptedStores(n: nat, h: History, i: nat, nd: Node, a: AppendEntriesArgs)
    requires HistInv(n, h) && ProperLog(h, nd.log) && ArgsInv(n, h, a) && Accepts(nd, a)
    ensures Stores(Acknowledged(h, i, a.term, a.LastIndex()), AfterAppendEntries(nd, a), a.term, a.LastIndex())
  {
    hide HistInv, ProperLog, MergedLog, CommitKnown;
    MergedLogAgrees(n, h, nd.log, a);
  }

  lemma LeaderStores(n: nat, h: History, i: nat, t: nat, nd: Node, k: nat)
    requires t == nd.currentTerm && Leads(h, i, t) && h.leaders[t].log == nd.log && k == |nd.log| - 1
    ensures Stores(h, nd, t, k)
  {
  }

  /** An acknowledgement is recorded only in a state where it is true. */
  lemma NewAckIsTrue(c: Cluster, s: Step, p: nat, t: nat)
    requires Inv(c) && Enabled(c, s) && InBounds(c, s)
    requires (p, t) in Recorded(c, s).acks
    requires (p, t) in c.hist.acks ==> Recorded(c, s).acks[(p, t)] != c.hist.acks[(p, t)]
    ensures s.i == p && Stores(Recorded(c, s), After(c, s), t, Recorded(c, s).acks[(p, t)])
  {
    hide HistInv, NodeInv, MsgInv, ArgsInv, Stores, AppendReplyInBounds, AfterAppendReply, AfterAppendEntries,
         AfterRequestVote, AfterSend, AfterHeartbeat, AfterApply, AfterStartElection, Accepts, GrantsVote;
    var n, h, nd := c.n, c.hist, c.nodes[s.i];
    assert NodeInv(n, h, s.i, nd);
    NodeIsDurable(n, h, s.i, nd);
    LeaderParts(n, h, s.i, nd);
    AckOfLeader(n, h, s.i, t);
    if s.HandleAppendRequest? {
      MessageArgs(c, s.args, s.i);
      AcceptedStores(n, h, s.i, nd, s.args);
    } else if s.HandleVoteReply? || s.ClientCommand? {
      LeaderStores(n, Recorded(c, s), s.i, t, After(c, s), Recorded(c, s).acks[(p, t)]);
    }
  }

  lemma {:induction false} AckWasTrue(n: nat, run: seq<Cluster>, b: nat, p: nat, t: nat)
    requires IsRun(n, run) && b < |run| && p < n && (p, t) in run[b].hist.acks
    ensures exists a :: 0 <= a <= b && |run[a].nodes| == n &&
                        Stores(run[b].hist, run[a].nodes[p], t, run[b].hist.acks[(p, t)])
    decreases b
  {
    hide HistInv, Enabled, InBounds, After, Recorded, NodeInv, MsgInv, Grows, Stores;
    assert b > 0;
    var s := StepOfRun(n, run, b - 1);
    var h, h' := run[b - 1].hist, run[b].hist;
    if (p, t) in h.acks && h'.acks[(p, t)] == h.acks[(p, t)] {
      AckWasTrue(n, run, b - 1, p, t);
      var a :| 0 <= a <= b - 1 && |run[a].nodes| == n && Stores(h, run[a].nodes[p], t, h.acks[(p, t)]);
      StoresGrows(h, h', run[a].nodes[p], t, h.acks[(p, t)]);
    } else {
      NewAckIsTrue(run[b - 1], s, p, t);
      assert Stores(h', run[b].nodes[p], t, h'.acks[(p, t)]);
    }
  }

  /** Server p held the leader's log through `index`, in the leader's term, at some moment up to b. */
  ghost predicate Replicated(run: seq<Cluster>, b: nat, p: nat, leader: Node, index: nat) {
    exists a :: 0 <= a <= b < |run| && p < |run[a].nodes| &&
      var nd := run[a].nodes[p];
      nd.currentTerm == leader.currentTerm && index < |nd.log| && index < |leader.log| &&
      nd.log[..index + 1] == leader.log[..index + 1]
  }

  lemma AckIsReplicated(n: nat, run: seq<Cluster>, b: nat, p: nat, leader: Node, index: nat)
    requires IsRun(n, run) && b < |run| && p < n && Acked(run[b].hist, p, leader.currentTerm, index)
    requires leader.currentTerm in run[b].hist.leaders && leader.log == run[b].hist.leaders[leader.currentTerm].log
    ensures Replicated(run, b, p, leader, index)
  {
    hide IsRun;
    var h, t := run[b].hist, leader.currentTerm;
    AckWasTrue(n, run, b, p, t);
    var m := h.acks[(p, t)];
    var a :| 0 <= a <= b && |run[a].nodes| == n && Stores(h, run[a].nodes[p], t, m);
    var log := run[a].nodes[p].log;
    assert log[..index + 1] == log[..m + 1][..index + 1] == leader.log[..m + 1][..index + 1];
  }

  /**
    * A counted reply is a stored entry: the counter of any broadcast of the current term is backed by that many
    * distinct servers, whatever was retried, reordered, or sent empty.
    */
  lemma ReplicationCountIsSound(n: nat, run: seq<Cluster>, b: nat, i: nat, bc: Broadcast) returns (servers: set<nat>)
    requires IsRun(n, run) && b < |run| && i < n && |run[b].nodes| == n
    requires bc in run[b].nodes[i].broadcasts && bc.term == run[b].nodes[i].currentTerm
    ensures servers <= Servers(n) && bc.replicas <= |servers|
    ensures forall p :: p in servers ==> Replicated(run, b, p, run[b].nodes[i], bc.index)
  {
    hide HistInv, LogInv, AcksInv, RecordsInv, MsgInv, IsRun, AppliedInv, Replicated;
    RunInv(n, run, b);
    var h, nd := run[b].hist, run[b].nodes[i];
    assert NodeInv(n, h, i, nd);
    assert BroadcastInv(n, h, i, nd, bc) && nd.log == h.leaders[bc.term].log;
    servers := Counted(n, h, bc);
    forall p | p in servers ensures Replicated(run, b, p, nd, bc.index) {
      AckIsReplicated(n, run, b, p, nd, bc.index);
    }
  }
}
