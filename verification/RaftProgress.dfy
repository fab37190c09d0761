/**
  * From every reachable state of two servers or more, whatever was lost, delayed or crashed, any command can still be
  * committed and delivered by every server. A leader is elected, starts the command, calls each peer until it accepts,
  * commits, and tells them.
  */
module RaftProgress {
  import opened RaftTypes
  import opened RaftHandlers
  import opened RaftCluster
  import opened RaftInvariant
  import opened RaftSafety
  import opened RaftCommit
  import opened RaftLaws
  import opened RaftElectable
  import opened Backup

  // One call -----------------------------------------------------------------------------------------

  /** Leader i calls server p in broadcast x, which has everything that the leader has. */
  ghost predicate Calls(n: nat, c: Cluster, i: nat, x: nat, p: nat) {
    && Led(n, c, i) && p < n && p != i && x < |c.nodes[i].broadcasts|
    && var bc := c.nodes[i].broadcasts[x];
    bc.term == c.nodes[i].currentTerm && bc.index + 1 == |c.nodes[i].log| && p in bc.todo
  }

  /** What a call leaves alone: the other servers, the leader's log and its other calls in this broadcast. */
  ghost predicate Undisturbed(n: nat, c: Cluster, c': Cluster, i: nat, x: nat, p: nat) {
    && Led(n, c, i) && Led(n, c', i) && p < n && p != i
    && x < |c.nodes[i].broadcasts| && x < |c'.nodes[i].broadcasts|
    && (forall r :: 0 <= r < n && r != i && r != p ==> c'.nodes[r] == c.nodes[r])
    && var nd, nd' := c.nodes[i], c'.nodes[i];
    && nd'.currentTerm == nd.currentTerm && nd'.log == nd.log && nd.commitIndex <= nd'.commitIndex
    && var bc, bc' := nd.broadcasts[x], nd'.broadcasts[x];
    && bc'.term == bc.term && bc'.index == bc.index && bc'.leaderCommit == bc.leaderCommit
    && bc'.todo - {p} == bc.todo - {p}
  }

  /** The peer is sent a request, which waits for its reply. */
  lemma IsCalled(n: nat, base: seq<Cluster>, c: Cluster, i: nat, x: nat, p: nat) returns (c': Cluster, args: AppendEntriesArgs)
    requires Reaches(n, base, c) && Calls(n, c, i, x, p)
    ensures Reaches(n, base, c') && Undisturbed(n, c, c', i, x, p) && c'.nodes[p] == c.nodes[p]
    ensures var nd := c'.nodes[i]; var bc := nd.broadcasts[x];
            && nd.nextIndex == c.nodes[i].nextIndex && p < |nd.nextIndex| && 1 <= nd.nextIndex[p] <= |nd.log|
            && p !in bc.todo && p in bc.inflight && bc.inflight[p] == args && bc.replicas == c.nodes[i].broadcasts[x].replicas
            && AppendRequested(args, p) in c'.net
            && args.term == bc.term && args.leaderCommit == bc.leaderCommit && args.prevLogIndex + 1 == nd.nextIndex[p]
            && args.prevLogTerm == nd.log[args.prevLogIndex].term
  {
    hide Reaches, Recorded, AppendRequest, NextIndexAfter, MergedLog;
    var s := SendAppend(i, x, p);
    Goes(n, base, c, s);
    OneChanges(c, s);
    RequestShows(c.nodes[i], i, c.nodes[i].broadcasts[x], p);
    c', args := Do(c, s), AppendRequest(c.nodes[i], i, c.nodes[i].broadcasts[x], p);
  }

  /** The peer handles it. */
  lemma Handles(n: nat, base: seq<Cluster>, c: Cluster, i: nat, p: nat, args: AppendEntriesArgs)
    returns (c': Cluster, reply: AppendEntriesReply)
    requires Reaches(n, base, c) && Led(n, c, i) && p < n && p != i
    requires AppendRequested(args, p) in c.net && args.term == c.nodes[i].currentTerm
    ensures Reaches(n, base, c') && Led(n, c', i) && c'.nodes == c.nodes[p := c'.nodes[p]]
    ensures reply == AppendEntriesAnswer(c.nodes[p], args) && reply.term == args.term
    ensures AppendAnswered(args, p, reply) in c'.net
    ensures reply.success <==>
              args.prevLogIndex < |c.nodes[p].log| && c.nodes[p].log[args.prevLogIndex].term == args.prevLogTerm
    ensures if reply.success then args.leaderCommit <= c'.nodes[p].commitIndex else c'.nodes[p].log == c.nodes[p].log
  {
    hide Reaches, Recorded, AppendEntriesAnswer, AfterAppendEntries;
    var s := HandleAppendRequest(p, args);
    Goes(n, base, c, s);
    OneChanges(c, s);
    BoundedCommit(n, base, c, args, p);
    AppendAcceptedIff(c.nodes[p], args);
    c', reply := Do(c, s), AppendEntriesAnswer(c.nodes[p], args);
    if reply.success {
      AcceptedAppendChanges(c.nodes[p], args);
    } else {
      RejectedAppendChanges(c.nodes[p], args);
    }
  }

  lemma BoundedCommit(n: nat, base: seq<Cluster>, c: Cluster, args: AppendEntriesArgs, p: nat)
    requires Reaches(n, base, c) && AppendRequested(args, p) in c.net
    ensures args.leaderCommit <= args.LastIndex()
  {
    hide IsRun;
    var run :| |run| > 0 && base <= run && IsRun(n, run) && run[|run| - 1] == c;
    InFlightCommitBound(n, run, |run| - 1, args, p);
  }

  lemma LogsPair(n: nat, base: seq<Cluster>, c: Cluster, i: nat, p: nat)
    requires Reaches(n, base, c) && i < n && p < n
    ensures |c.nodes| == n && Pair(c.nodes[i].log, c.nodes[p].log)
  {
    hide IsRun, Pair;
    var run :| |run| > 0 && base <= run && IsRun(n, run) && run[|run| - 1] == c;
    ReachablePair(n, run, |run| - 1, i, p);
  }

  /** A conflict report moves nextIndex back. */
  lemma MovesBack(leader: seq<Entry>, nd: Node, args: AppendEntriesArgs)
    requires Pair(leader, nd.log) && args.prevLogIndex < |leader| && args.prevLogTerm == leader[args.prevLogIndex].term
    requires nd.currentTerm <= args.term && !AppendEntriesAnswer(nd, args).success
    ensures var reply := AppendEntriesAnswer(nd, args); var next := args.prevLogIndex + 1;
            BackupInBounds(leader, reply, next) && 1 <= NextIndexAfter(leader, reply, next) < next
  {
    var prev := args.prevLogIndex;
    assert !Agree(leader, nd.log, prev);
    ConflictInBounds(nd.log, prev);
    RejectionMakesProgress(leader, nd.log, prev);
    assert NextPrev(leader, nd.log, prev) == NextIndexAfter(leader, Rejection(nd.log, prev), prev + 1) - 1;
    var reply := AppendEntriesAnswer(nd, args);
    assert (reply.conflictTerm, reply.conflictFirstIndex) == Conflict(nd.log, prev);
    SameBackup(leader, reply, Rejection(nd.log, prev), prev + 1);
  }

  lemma SameBackup(log: seq<Entry>, x: AppendEntriesReply, y: AppendEntriesReply, next: nat)
    requires x.conflictTerm == y.conflictTerm && x.conflictFirstIndex == y.conflictFirstIndex
    requires BackupInBounds(log, y, next)
    ensures BackupInBounds(log, x, next) && NextIndexAfter(log, x, next) == NextIndexAfter(log, y, next)
  {
  }

  /** The reply of a call that was accepted is counted. */
  lemma IsCounted(n: nat, base: seq<Cluster>, c: Cluster, i: nat, x: nat, p: nat, args: AppendEntriesArgs, reply: AppendEntriesReply)
    returns (c': Cluster)
    requires Reaches(n, base, c) && Led(n, c, i) && p < n && p != i && x < |c.nodes[i].broadcasts|
    requires var bc := c.nodes[i].broadcasts[x]; p in bc.inflight && bc.inflight[p] == args
    requires AppendAnswered(args, p, reply) in c.net && reply.success && args.term == c.nodes[i].currentTerm
    ensures Reaches(n, base, c') && Undisturbed(n, c, c', i, x, p) && c'.nodes[p] == c.nodes[p]
    ensures var bc, bc' := c.nodes[i].broadcasts[x], c'.nodes[i].broadcasts[x];
            bc'.replicas == bc.replicas + 1 && bc'.todo == bc.todo
  {
    hide Reaches, Recorded, AfterAppendReply, BackupInBounds;
    var s := HandleAppendReply(i, x, p, args, reply);
    Goes(n, base, c, s);
    OneChanges(c, s);
    SuccessCounted(c.nodes[i], n, x, p, args, reply);
    c' := Do(c, s);
  }

  /** The reply of a call that was not makes it be called again, from an earlier index. */
  lemma IsRetried(n: nat, base: seq<Cluster>, c: Cluster, i: nat, x: nat, p: nat, args: AppendEntriesArgs, reply: AppendEntriesReply)
    returns (c': Cluster)
    requires Reaches(n, base, c) && Led(n, c, i) && p < n && p != i && x < |c.nodes[i].broadcasts|
    requires var bc := c.nodes[i].broadcasts[x]; p in bc.inflight && bc.inflight[p] == args
    requires AppendAnswered(args, p, reply) in c.net && !reply.success && args.term == reply.term == c.nodes[i].currentTerm
    requires BackupInBounds(c.nodes[i].log, reply, args.prevLogIndex + 1)
    ensures Reaches(n, base, c') && Undisturbed(n, c, c', i, x, p) && c'.nodes[p] == c.nodes[p]
    ensures var nd, nd' := c.nodes[i], c'.nodes[i];
            && nd'.broadcasts[x].replicas == nd.broadcasts[x].replicas && p in nd'.broadcasts[x].todo
            && p < |nd'.nextIndex| && nd'.nextIndex[p] == NextIndexAfter(nd.log, reply, args.prevLogIndex + 1)
  {
    hide Reaches, Recorded, AfterAppendReply, BackupInBounds, NextIndexAfter;
    var s := HandleAppendReply(i, x, p, args, reply);
    Goes(n, base, c, s);
    OneChanges(c, s);
    ConflictRetried(c.nodes[i], n, x, p, args, reply);
    c' := Do(c, s);
    RetriesAt(c.nodes[i], n, x, p, args, reply);
  }

  lemma RetriesAt(nd: Node, n: nat, b: nat, peer: nat, args: AppendEntriesArgs, reply: AppendEntriesReply)
    requires AppendReplyInBounds(nd, b, peer, args, reply)
    requires nd.currentTerm == args.term && !reply.success && reply.term <= args.term
    ensures var nd' := AfterAppendReply(nd, n, b, peer, args, reply);
            peer < |nd'.nextIndex| && nd'.nextIndex[peer] == NextIndexAfter(nd.log, reply, args.prevLogIndex + 1)
  {
    hide NextIndexAfter;
  }

  /** The calls of one peer, until it accepts: then it has been told the commit index, and counts. */
  lemma {:induction false} IsReached(n: nat, base: seq<Cluster>, c: Cluster, i: nat, x: nat, p: nat) returns (c': Cluster)
    requires Reaches(n, base, c) && Calls(n, c, i, x, p) && p < |c.nodes[i].nextIndex|
    ensures Reaches(n, base, c') && Undisturbed(n, c, c', i, x, p)
    ensures var bc, bc' := c.nodes[i].broadcasts[x], c'.nodes[i].broadcasts[x];
            bc'.replicas == bc.replicas + 1 && bc.leaderCommit <= c'.nodes[p].commitIndex
    decreases c.nodes[i].nextIndex[p]
  {
    hide Reaches, Pair, BackupInBounds, NextIndexAfter, AppendEntriesAnswer;
    var c1, args := IsCalled(n, base, c, i, x, p);
    LogsPair(n, base, c1, i, p);
    var c2, reply := Handles(n, base, c1, i, p, args);
    if reply.success {
      c' := IsCounted(n, base, c2, i, x, p, args, reply);
    } else {
      MovesBack(c1.nodes[i].log, c1.nodes[p], args);
      var c3 := IsRetried(n, base, c2, i, x, p, args, reply);
      c' := IsReached(n, base, c3, i, x, p);
    }
  }

  // One broadcast ------------------------------------------------------------------------------------

  /** Broadcast x of leader i has reached the servers below q, and the others are still to be called. */
  ghost predicate Spreading(n: nat, c: Cluster, i: nat, x: nat, q: nat, log: seq<Entry>, commit: nat) {
    && Led(n, c, i) && x < |c.nodes[i].broadcasts|
    && var nd := c.nodes[i]; var bc := nd.broadcasts[x];
    && nd.log == log && commit <= nd.commitIndex
    && bc.term == nd.currentTerm && bc.index + 1 == |log| && bc.leaderCommit == commit && bc.replicas == 1 + Asked(i, q)
    && (forall p: nat :: q <= p < n && p != i ==> p in bc.todo)
    && (forall p: nat :: p < q && p < n && p != i ==> commit <= c.nodes[p].commitIndex)
  }

  lemma SpreadsOne(n: nat, base: seq<Cluster>, c: Cluster, i: nat, x: nat, q: nat, log: seq<Entry>, commit: nat)
    returns (c': Cluster)
    requires Reaches(n, base, c) && Spreading(n, c, i, x, q, log, commit) && q < n
    ensures Reaches(n, base, c') && Spreading(n, c', i, x, q + 1, log, commit)
    ensures c'.nodes[i].currentTerm == c.nodes[i].currentTerm
  {
    hide Reaches;
    if q == i {
      c' := c;
    } else {
      c' := IsReached(n, base, c, i, x, q);
      forall p: nat | q < p < n && p != i ensures p in c'.nodes[i].broadcasts[x].todo {
        assert p in c.nodes[i].broadcasts[x].todo - {q};
      }
    }
  }

  lemma {:induction false} SpreadsAll(n: nat, base: seq<Cluster>, c: Cluster, i: nat, x: nat, q: nat, log: seq<Entry>, commit: nat)
    returns (c': Cluster)
    requires Reaches(n, base, c) && Spreading(n, c, i, x, q, log, commit) && q <= n
    ensures Reaches(n, base, c') && Spreading(n, c', i, x, n, log, commit)
    ensures c'.nodes[i].currentTerm == c.nodes[i].currentTerm
    decreases n - q
  {
    hide Reaches;
    if q == n {
      c' := c;
    } else {
      c' := SpreadsOne(n, base, c, i, x, q, log, commit);
      c' := SpreadsAll(n, base, c', i, x, q + 1, log, commit);
    }
  }

  /** A leader launches a broadcast and it reaches everyone. */
  lemma Spreads(n: nat, base: seq<Cluster>, c: Cluster, i: nat, s: Step) returns (c': Cluster, x: nat)
    requires Reaches(n, base, c) && Led(n, c, i) && s.i == i && (s.Heartbeat? || s.ClientCommand?)
    ensures Reaches(n, base, c') && |c.nodes[i].log| > 0
    ensures var nd := c.nodes[i];
            var log := if s.Heartbeat? then nd.log else nd.log + [Entry(s.command, nd.currentTerm)];
            Spreading(n, c', i, x, n, log, nd.commitIndex) && c'.nodes[i].currentTerm == nd.currentTerm
  {
    hide Reaches, Recorded, AfterHeartbeat, AfterStart;
    Goes(n, base, c, s);
    OneChanges(c, s);
    var nd := c.nodes[i];
    if s.Heartbeat? {
      HeartbeatCallsAll(nd, i, n);
    } else {
      StartCallsAll(nd, i, n, s.command);
    }
    var c1 := Do(c, s);
    x := |nd.broadcasts|;
    c' := SpreadsAll(n, base, c1, i, x, 0, c1.nodes[i].log, nd.commitIndex);
  }

  /** What has reached everyone is committed, if its last entry is of the leader's term. */
  lemma SpreadIsCommitted(n: nat, base: seq<Cluster>, c: Cluster, i: nat, x: nat, log: seq<Entry>, commit: nat)
    requires Reaches(n, base, c) && Spreading(n, c, i, x, n, log, commit)
    requires |log| > 0 && log[|log| - 1].term == c.nodes[i].currentTerm
    ensures c.nodes[i].commitIndex + 1 >= |log|
  {
    hide IsRun;
    var run :| |run| > 0 && base <= run && IsRun(n, run) && run[|run| - 1] == c;
    MajorityIsCommitted(n, run, |run| - 1, i, c.nodes[i].broadcasts[x]);
  }

  // Delivery -----------------------------------------------------------------------------------------

  lemma InStep(n: nat, base: seq<Cluster>, c: Cluster, j: nat)
    requires Reaches(n, base, c) && j < n
    ensures |c.nodes| == n && |c.nodes[j].applied| == c.nodes[j].lastApplied <= c.nodes[j].commitIndex
  {
    hide Inv, NodeInv;
    ReachedInv(n, base, c);
    NodeOf(c, j);
    AppliedAreDelivered(n, c.hist, j, c.nodes[j]);
  }

  /** Server j applies what it knows to be committed. */
  lemma {:induction false} AppliesUpTo(n: nat, base: seq<Cluster>, c: Cluster, j: nat, k: nat) returns (c': Cluster)
    requires Reaches(n, base, c) && WellFormed(c) && c.n == n && j < n && k <= c.nodes[j].commitIndex
    ensures Reaches(n, base, c') && WellFormed(c') && c'.n == n
    ensures c'.nodes == c.nodes[j := c'.nodes[j]] && c'.nodes[j].log == c.nodes[j].log && k <= |c'.nodes[j].applied|
    decreases k - |c.nodes[j].applied|
  {
    hide Reaches, Recorded, Sent;
    InStep(n, base, c, j);
    if k <= |c.nodes[j].applied| {
      c' := c;
    } else {
      Goes(n, base, c, Apply(j));
      OneChanges(c, Apply(j));
      c' := AppliesUpTo(n, base, Do(c, Apply(j)), j, k);
    }
  }

  ghost predicate HaveApplied(n: nat, c: Cluster, q: nat, k: nat) {
    && WellFormed(c) && c.n == n
    && (forall j :: 0 <= j < n && j < q ==> k <= |c.nodes[j].applied|)
    && forall j :: q <= j < n ==> k <= c.nodes[j].commitIndex
  }

  lemma {:induction false} AllApply(n: nat, base: seq<Cluster>, c: Cluster, q: nat, k: nat) returns (c': Cluster)
    requires Reaches(n, base, c) && q <= n && HaveApplied(n, c, q, k)
    ensures Reaches(n, base, c') && HaveApplied(n, c', n, k)
    ensures forall j :: 0 <= j < n ==> c'.nodes[j].log == c.nodes[j].log
    decreases n - q
  {
    hide Reaches;
    if q == n {
      c' := c;
    } else {
      c' := AppliesUpTo(n, base, c, q, k);
      c' := AllApply(n, base, c', q + 1, k);
    }
  }

  /** Every server has delivered the command as number k. */
  ghost predicate DeliveredAt(n: nat, c: Cluster, k: nat, command: Command) {
    && |c.nodes| == n && k >= 1
    && forall j :: 0 <= j < n ==> k <= |c.nodes[j].applied| && c.nodes[j].applied[k - 1] == ApplyMsg(command, k)
  }

  lemma AppliedIsDelivered(n: nat, base: seq<Cluster>, c: Cluster, i: nat, k: nat, command: Command)
    requires Reaches(n, base, c) && HaveApplied(n, c, n, k) && i < n && k >= 1
    requires k < |c.nodes[i].log| && c.nodes[i].log[k].command == command
    ensures DeliveredAt(n, c, k, command)
  {
    hide IsRun;
    var run :| |run| > 0 && base <= run && IsRun(n, run) && run[|run| - 1] == c;
    var b := |run| - 1;
    DeliveredFromLog(n, run, b, i, k - 1);
    forall j | 0 <= j < n ensures k <= |c.nodes[j].applied| && c.nodes[j].applied[k - 1] == ApplyMsg(command, k) {
      StateMachineSafety(n, run, b, i, b, j, k - 1);
    }
  }

  /** After every run of two servers or more, any command can be delivered, by all of them at the same index. */
  lemma CanDeliver(n: nat, base: seq<Cluster>, command: Command) returns (c: Cluster, k: nat)
    requires IsRun(n, base) && n >= 2
    ensures Reaches(n, base, c) && DeliveredAt(n, c, k, command)
  {
    hide Reaches, IsRun, DeliveredAt;
    var i, c0 := CanElect(n, base);
    k := |c0.nodes[i].log|;
    var c1, x := Spreads(n, base, c0, i, ClientCommand(i, command));
    var log := c0.nodes[i].log + [Entry(command, c0.nodes[i].currentTerm)];
    SpreadIsCommitted(n, base, c1, i, x, log, c0.nodes[i].commitIndex);
    var c2, y := Spreads(n, base, c1, i, Heartbeat(i));
    c := AllApply(n, base, c2, 0, k);
    AppliedIsDelivered(n, base, c, i, k, command);
  }
}
