/**
  * The whole key/value service: clerks and servers on top of a Raft cluster. What a server applies is what its own
  * peer delivers; the committed log of KvSystem is only recorded, as what has been delivered so far anywhere.
  */
module RaftKv {
  import opened RaftTypes
  import opened RaftHandlers
  import R = RaftCluster
  import I = RaftInvariant
  import RaftSafety
  import opened KvStore
  import opened KvServer
  import K = KvSystem
  import KvLinear

  /** How operations become log entries and back. */
  datatype Codec = Codec(encode: Op -> string, decode: string -> Op)

  ghost predicate RoundTrips(codec: Codec) {
    forall op :: codec.decode(codec.encode(op)) == op
  }

  function CommandOf(codec: Codec, op: Op): Command {
    Command(codec.encode(op))
  }

  const NOTHING := Op(Get, "", "", 0, 0)

  function OpOf(codec: Codec, command: Command): Op {
    match command
    case Command(payload) => codec.decode(payload)
    case NoCommand => NOTHING
  }

  /** `kv.log`, and the lengths of it in `kv`, are history. */
  datatype Service = Service(raft: R.Cluster, kv: K.System)

  datatype Step =
    | Clients(kvStep: K.Step)                   // clerks, and handlers that wait, answer or give up
    | Submit(i: nat, op: Op)                    // a handler passes an attempt at a call to its peer's Start
    | Consensus(raftStep: R.Step)               // a step of a peer that neither starts, delivers nor restarts
    | Deliver(i: nat)                           // a peer delivers an entry, and its server applies it
    | Crash(i: nat)

  predicate OfClients(step: K.Step) {
    step.Invoke? || step.Accept? || step.Answer? || step.GiveUp? || step.Finish?
  }

  predicate OfConsensus(step: R.Step) {
    !step.ClientCommand? && !step.Apply? && !step.Restart?
  }

  predicate RaftEnabled(c: R.Cluster, step: R.Step) {
    R.WellFormed(c) && R.Enabled(c, step) && R.InBounds(c, step)
  }

  predicate Enabled(codec: Codec, w: Service, step: Step) {
    match step
    case Clients(k) => OfClients(k) && K.Enabled(w.kv, k)
    case Submit(i, op) => K.WasInvoked(w.kv, op) && RaftEnabled(w.raft, R.ClientCommand(i, CommandOf(codec, op)))
    case Consensus(s) => OfConsensus(s) && RaftEnabled(w.raft, s)
    case Deliver(i) =>
      && i < |w.kv.servers| && RaftEnabled(w.raft, R.Apply(i))
      && w.raft.nodes[i].lastApplied < w.raft.nodes[i].commitIndex
    case Crash(i) => i < |w.kv.servers| && RaftEnabled(w.raft, R.Restart(i))
  }

  /** What the peer delivers next. */
  function NextMsg(nd: Node): ApplyMsg
    requires nd.lastApplied < nd.commitIndex < |nd.log|
  {
    ApplyMsg(nd.log[nd.lastApplied + 1].command, nd.lastApplied + 1)
  }

  function Served(v: K.Server, index: nat, op: Op): K.Server {
    v.(kv := KvServer.AfterApply(v.kv, index, op), applied := index)
  }

  /** Server i applies the message; it is recorded if no server had got that far. */
  function Delivered(codec: Codec, kv: K.System, i: nat, m: ApplyMsg): K.System
    requires i < |kv.servers|
  {
    var op := OpOf(codec, m.command);
    var first := m.index == |kv.log| + 1;
    kv.(log := if first then kv.log + [op] else kv.log, now := kv.now + if first then 2 else 1,
        servers := kv.servers[i := Served(kv.servers[i], m.index, op)])
  }

  function Do(codec: Codec, w: Service, step: Step): Service
    requires Enabled(codec, w, step)
  {
    match step
    case Clients(k) => w.(kv := K.Do(w.kv, k))
    case Submit(i, op) => w.(raft := R.Do(w.raft, R.ClientCommand(i, CommandOf(codec, op))))
    case Consensus(s) => w.(raft := R.Do(w.raft, s))
    case Deliver(i) =>
      Service(R.Do(w.raft, R.Apply(i)), Delivered(codec, w.kv, i, NextMsg(w.raft.nodes[i])))
    case Crash(i) => Service(R.Do(w.raft, R.Restart(i)), K.Do(w.kv, K.Crash(i)))
  }

  function Initial(n: nat): Service {
    Service(R.Initial(n), K.Initial(n))
  }

  ghost predicate Next(codec: Codec, w: Service, w': Service) {
    exists step :: Enabled(codec, w, step) && w' == Do(codec, w, step)
  }

  ghost predicate IsRun(codec: Codec, n: nat, run: seq<Service>) {
    && |run| > 0 && run[0] == Initial(n)
    && forall k :: 0 <= k < |run| - 1 ==> Next(codec, run[k], run[k + 1])
  }

  // Every entry is some invoked operation ------------------------------------------------------------

  ghost predicate Known(codec: Codec, kv: K.System, command: Command) {
    exists op :: K.WasInvoked(kv, op) && command == CommandOf(codec, op)
  }

  ghost predicate KnownEntries(codec: Codec, kv: K.System, entries: seq<Entry>, from: nat) {
    forall k :: from <= k < |entries| ==> Known(codec, kv, entries[k].command)
  }

  ghost predicate KnownNet(codec: Codec, kv: K.System, net: set<R.Message>) {
    forall m :: m in net && m.AppendRequested? ==> KnownEntries(codec, kv, m.args.entries, 0)
  }

  ghost predicate KnownCluster(codec: Codec, kv: K.System, c: R.Cluster) {
    && (forall i :: 0 <= i < |c.nodes| ==> KnownEntries(codec, kv, c.nodes[i].log, 1))
    && KnownNet(codec, kv, c.net)
  }

  lemma MergedKnown(codec: Codec, kv: K.System, nd: Node, args: AppendEntriesArgs)
    requires KnownEntries(codec, kv, nd.log, 1) && KnownEntries(codec, kv, args.entries, 0)
    ensures KnownEntries(codec, kv, AfterAppendEntries(nd, args).log, 1)
  {
    hide Known, HasAll;
    if Accepts(nd, args) {
      var cut := nd.log[..args.prevLogIndex + 1] + args.entries;
      forall k | 1 <= k < |cut| ensures Known(codec, kv, cut[k].command) {
        if k >= args.prevLogIndex + 1 {
          assert cut[k] == args.entries[k - (args.prevLogIndex + 1)];
        }
      }
    }
  }

  lemma SameLogAfterReply(nd: Node, n: nat, b: nat, peer: nat, args: AppendEntriesArgs, reply: AppendEntriesReply)
    requires AppendReplyInBounds(nd, b, peer, args, reply)
    ensures AfterAppendReply(nd, n, b, peer, args, reply).log == nd.log
  {
    hide NextIndexAfter, BackupInBounds;
  }

  lemma SameLogAfterVote(nd: Node, i: nat, n: nat, from: nat, args: RequestVoteArgs, reply: RequestVoteReply)
    requires |nd.log| > 0
    ensures AfterRequestVote(nd, args).log == nd.log && AfterVoteReply(nd, i, n, from, args, reply).log == nd.log
    ensures AfterStartElection(nd, i, n).log == nd.log && AfterHeartbeat(nd, i, n).log == nd.log
  {
  }

  lemma NodeKnown(codec: Codec, kv: K.System, c: R.Cluster, s: R.Step)
    requires I.Inv(c) && RaftEnabled(c, s) && KnownCluster(codec, kv, c)
    requires s.ClientCommand? ==> Known(codec, kv, s.command)
    ensures KnownEntries(codec, kv, R.After(c, s).log, 1)
  {
    hide I.HistInv, I.MsgInv, I.NodeInv, Known, AfterAppendEntries, AfterAppendReply, AfterRequestVote, AfterVoteReply,
         AfterStartElection, AfterHeartbeat, AppendReplyInBounds;
    var nd := c.nodes[s.i];
    assert KnownEntries(codec, kv, nd.log, 1);
    match s
    case Timeout(i) => SameLogAfterVote(nd, i, c.n, 0, RequestVoteArgs(0, 0, 0, 0), RequestVoteReply(0, false));
    case HandleVoteRequest(i, args) => SameLogAfterVote(nd, i, c.n, 0, args, RequestVoteReply(0, false));
    case HandleVoteReply(i, from, args, reply) => SameLogAfterVote(nd, i, c.n, from, args, reply);
    case HandleAppendRequest(i, args) =>
      assert R.AppendRequested(args, i) in c.net;
      MergedKnown(codec, kv, nd, args);
    case HandleAppendReply(i, b, peer, args, reply) => SameLogAfterReply(nd, c.n, b, peer, args, reply);
    case Heartbeat(i) => SameLogAfterVote(nd, i, c.n, 0, RequestVoteArgs(0, 0, 0, 0), RequestVoteReply(0, false));
    case Restart(i) => Durable(c, i);
    case _ =>
  }

  lemma Durable(c: R.Cluster, i: nat)
    requires I.Inv(c) && i < c.n
    ensures c.nodes[i].disk.log == c.nodes[i].log
  {
    assert I.NodeInv(c.n, c.hist, i, c.nodes[i]);
    RaftSafety.NodeIsDurable(c.n, c.hist, i, c.nodes[i]);
  }

  lemma SentKnown(codec: Codec, kv: K.System, c: R.Cluster, s: R.Step)
    requires RaftEnabled(c, s) && KnownCluster(codec, kv, c)
    ensures KnownNet(codec, kv, R.Sent(c, s))
  {
    hide Known;
    if s.SendAppend? && StillLeads(c.nodes[s.i], s.b) {
      var nd := c.nodes[s.i];
      assert KnownEntries(codec, kv, nd.log, 1);
      var args := AppendRequest(nd, s.i, nd.broadcasts[s.b], s.peer);
      assert forall k :: 0 <= k < |args.entries| ==> args.entries[k] == nd.log[nd.nextIndex[s.peer] + k];
    }
  }

  lemma RaftStepKnown(codec: Codec, kv: K.System, c: R.Cluster, s: R.Step)
    requires I.Inv(c) && RaftEnabled(c, s) && KnownCluster(codec, kv, c)
    requires s.ClientCommand? ==> Known(codec, kv, s.command)
    ensures KnownCluster(codec, kv, R.Do(c, s))
  {
    hide I.Inv, Known, KnownEntries, R.Enabled, R.InBounds, R.After, R.Sent, R.Recorded;
    NodeKnown(codec, kv, c, s);
    SentKnown(codec, kv, c, s);
  }

  lemma KnownGrows(codec: Codec, kv: K.System, kv': K.System, c: R.Cluster)
    requires KnownCluster(codec, kv, c) && forall op :: K.WasInvoked(kv, op) ==> K.WasInvoked(kv', op)
    ensures KnownCluster(codec, kv', c)
  {
    hide K.WasInvoked;
    forall command | Known(codec, kv, command) ensures Known(codec, kv', command) {
      var op :| K.WasInvoked(kv, op) && command == CommandOf(codec, op);
    }
  }

  // The invariant ------------------------------------------------------------------------------------

  /** The recorded log is what has been delivered. */
  ghost predicate Recorded(codec: Codec, log: seq<Op>, delivered: set<ApplyMsg>) {
    && (forall k :: 0 <= k < |log| ==> ApplyMsg(CommandOf(codec, log[k]), k + 1) in delivered)
    && (forall m :: m in delivered ==> 1 <= m.index <= |log|)
  }

  /** A server has applied what its peer has delivered. */
  ghost predicate InStep(kv: K.System, nodes: seq<Node>) {
    |kv.servers| == |nodes| && forall i :: 0 <= i < |nodes| ==> kv.servers[i].applied == nodes[i].lastApplied
  }

  ghost predicate Inv(codec: Codec, w: Service) {
    && I.Inv(w.raft) && K.Inv(w.kv) && InStep(w.kv, w.raft.nodes)
    && Recorded(codec, w.kv.log, w.raft.hist.delivered) && KnownCluster(codec, w.kv, w.raft)
  }

  lemma SameProgress(c: R.Cluster, s: R.Step)
    requires RaftEnabled(c, s) && (OfConsensus(s) || s.ClientCommand?)
    ensures R.After(c, s).lastApplied == c.nodes[s.i].lastApplied && R.Recorded(c, s).delivered == c.hist.delivered
  {
    hide NextIndexAfter, BackupInBounds, HasAll, R.Granted;
  }

  lemma RaftStepKeeps(codec: Codec, w: Service, s: R.Step)
    requires Inv(codec, w) && RaftEnabled(w.raft, s) && (OfConsensus(s) || s.ClientCommand?)
    requires s.ClientCommand? ==> Known(codec, w.kv, s.command)
    ensures Inv(codec, w.(raft := R.Do(w.raft, s)))
  {
    hide I.Inv, K.Inv, Recorded, KnownCluster, R.Enabled, R.InBounds, R.After, R.Sent, R.Recorded, Known;
    RaftSafety.StepInv(w.raft, s);
    RaftStepKnown(codec, w.kv, w.raft, s);
    SameProgress(w.raft, s);
  }

  lemma ClientsGrow(kv: K.System, k: K.Step)
    requires K.Inv(kv) && OfClients(k) && K.Enabled(kv, k)
    ensures var kv' := K.Do(kv, k);
            && kv'.log == kv.log && |kv'.servers| == |kv.servers|
            && (forall i :: 0 <= i < |kv.servers| ==> kv'.servers[i].applied == kv.servers[i].applied)
            && (forall op :: K.WasInvoked(kv, op) ==> K.WasInvoked(kv', op))
  {
    hide K.ServersInv, K.LogInv, K.RepliesInv, K.ReturnsInv, K.OrderInv, K.TimeInv, AfterRegister, AfterFinish, K.Answers;
    if k.Invoke? {
      var next := K.Call(k.client, K.Count(kv, k.client) + 1);
      assert K.CallInv(kv, next);
    }
  }

  lemma ClientsKeep(codec: Codec, w: Service, k: K.Step)
    requires Inv(codec, w) && OfClients(k) && K.Enabled(w.kv, k)
    ensures Inv(codec, w.(kv := K.Do(w.kv, k)))
  {
    hide I.Inv, K.Inv, Recorded, KnownCluster, K.Enabled, K.Do, K.WasInvoked;
    K.StepKeeps(w.kv, k);
    ClientsGrow(w.kv, k);
    KnownGrows(codec, w.kv, K.Do(w.kv, k), w.raft);
  }

  lemma RestartProgress(c: R.Cluster, i: nat)
    requires RaftEnabled(c, R.Restart(i))
    ensures R.After(c, R.Restart(i)).lastApplied == 0 && R.Recorded(c, R.Restart(i)).delivered == c.hist.delivered
  {
  }

  lemma CrashGrows(kv: K.System, i: nat)
    requires i < |kv.servers|
    ensures var kv' := K.Do(kv, K.Crash(i));
            && kv'.log == kv.log && kv'.servers == kv.servers[i := K.FRESH] && K.FRESH.applied == 0
            && (forall op :: K.WasInvoked(kv, op) ==> K.WasInvoked(kv', op))
  {
  }

  lemma CrashKeeps(codec: Codec, w: Service, i: nat)
    requires Inv(codec, w) && Enabled(codec, w, Crash(i))
    ensures Inv(codec, Do(codec, w, Crash(i)))
  {
    hide I.Inv, K.Inv, Recorded, KnownCluster, R.Enabled, R.InBounds, R.After, R.Sent, R.Recorded, K.WasInvoked, K.Do;
    RaftSafety.StepInv(w.raft, R.Restart(i));
    RaftStepKnown(codec, w.kv, w.raft, R.Restart(i));
    RestartProgress(w.raft, i);
    K.StepKeeps(w.kv, K.Crash(i));
    CrashGrows(w.kv, i);
    KnownGrows(codec, w.kv, K.Do(w.kv, K.Crash(i)), R.Do(w.raft, R.Restart(i)));
  }

  // Delivering ---------------------------------------------------------------------------------------

  /** The entry is an operation that a clerk invoked: the type assertion in Apply cannot fail. */
  lemma NextIsKnown(codec: Codec, w: Service, i: nat)
    requires RoundTrips(codec) && Inv(codec, w) && Enabled(codec, w, Deliver(i))
    ensures var m := NextMsg(w.raft.nodes[i]); var op := OpOf(codec, m.command);
            K.WasInvoked(w.kv, op) && m.command == CommandOf(codec, op)
  {
    hide I.Inv, K.Inv, Recorded, KnownNet, K.WasInvoked;
    var nd := w.raft.nodes[i];
    assert Known(codec, w.kv, nd.log[nd.lastApplied + 1].command);
    var op :| K.WasInvoked(w.kv, op) && nd.log[nd.lastApplied + 1].command == CommandOf(codec, op);
  }

  lemma DeliveredHistory(c: R.Cluster, i: nat)
    requires I.Inv(c) && RaftEnabled(c, R.Apply(i)) && c.nodes[i].lastApplied < c.nodes[i].commitIndex
    ensures R.Do(c, R.Apply(i)).hist.delivered == c.hist.delivered + {NextMsg(c.nodes[i])}
    ensures R.After(c, R.Apply(i)).lastApplied == c.nodes[i].lastApplied + 1
  {
    hide I.HistInv, I.MsgInv;
    assert I.NodeInv(c.n, c.hist, i, c.nodes[i]);
    RaftSafety.AppliedAreDelivered(c.n, c.hist, i, c.nodes[i]);
    var nd, nd' := c.nodes[i], R.After(c, R.Apply(i));
    assert nd'.applied == nd.applied + [NextMsg(nd)];
  }

  /** State Machine Safety at work: what is recorded at this index already, if anything, is this operation. */
  lemma NextAgrees(codec: Codec, w: Service, i: nat)
    requires RoundTrips(codec) && Inv(codec, w) && Enabled(codec, w, Deliver(i))
    ensures var m := NextMsg(w.raft.nodes[i]); var op := OpOf(codec, m.command);
            && 1 <= m.index <= |w.kv.log| + 1 && m.index == w.kv.servers[i].applied + 1
            && (m.index <= |w.kv.log| ==> w.kv.log[m.index - 1] == op)
  {
    hide I.HistInv, I.NodeInv, I.MsgInv, R.Do, K.LogInv, K.RepliesInv, K.ReturnsInv, K.ClerkInv, K.OrderInv, K.TimeInv,
         KnownCluster, I.DeliveryInv;
    var m := NextMsg(w.raft.nodes[i]);
    var c' := R.Do(w.raft, R.Apply(i));
    DeliveredHistory(w.raft, i);
    RaftSafety.StepInv(w.raft, R.Apply(i));
    assert K.ServerInv(w.kv, w.kv.servers[i]);
    if m.index <= |w.kv.log| {
      var known := ApplyMsg(CommandOf(codec, w.kv.log[m.index - 1]), m.index - 1 + 1);
      assert known in c'.hist.delivered && m in c'.hist.delivered;
      RaftSafety.AllDeliveries(c'.n, c'.hist);
      RaftSafety.DeliveriesAgree(c'.n, c'.hist, known, m);
    }
  }

  /** So what server i does is a step, or two, over one committed log. */
  lemma DeliveredIsApplyNext(codec: Codec, kv: K.System, i: nat, m: ApplyMsg)
    requires i < |kv.servers| && 1 <= m.index <= |kv.log| + 1 && m.index == kv.servers[i].applied + 1
    requires K.WasInvoked(kv, OpOf(codec, m.command))
    requires m.index <= |kv.log| ==> kv.log[m.index - 1] == OpOf(codec, m.command)
    ensures var kv' := Delivered(codec, kv, i, m);
            if m.index <= |kv.log| then kv' == K.Do(kv, K.ApplyNext(i))
            else
              var committed := K.Do(kv, K.Commit(OpOf(codec, m.command)));
              K.Enabled(committed, K.ApplyNext(i)) && kv' == K.Do(committed, K.ApplyNext(i))
  {
    hide KvServer.AfterApply;
  }

  lemma DeliveredKeepsKv(codec: Codec, kv: K.System, i: nat, m: ApplyMsg)
    requires K.Inv(kv) && i < |kv.servers| && 1 <= m.index <= |kv.log| + 1 && m.index == kv.servers[i].applied + 1
    requires K.WasInvoked(kv, OpOf(codec, m.command))
    requires m.index <= |kv.log| ==> kv.log[m.index - 1] == OpOf(codec, m.command)
    ensures K.Inv(Delivered(codec, kv, i, m))
  {
    hide K.Inv, K.Do, Delivered;
    DeliveredIsApplyNext(codec, kv, i, m);
    if m.index <= |kv.log| {
      K.StepKeeps(kv, K.ApplyNext(i));
    } else {
      var commit := K.Commit(OpOf(codec, m.command));
      K.StepKeeps(kv, commit);
      K.StepKeeps(K.Do(kv, commit), K.ApplyNext(i));
    }
  }

  lemma DeliverKeeps(codec: Codec, w: Service, i: nat)
    requires RoundTrips(codec) && Inv(codec, w) && Enabled(codec, w, Deliver(i))
    ensures Inv(codec, Do(codec, w, Deliver(i)))
  {
    hide I.Inv, K.Inv, KnownCluster, R.Enabled, R.After, R.Sent, R.Recorded, KvServer.AfterApply, RoundTrips;
    var m := NextMsg(w.raft.nodes[i]);
    NextIsKnown(codec, w, i);
    NextAgrees(codec, w, i);
    DeliveredHistory(w.raft, i);
    RaftSafety.StepInv(w.raft, R.Apply(i));
    RaftStepKnown(codec, w.kv, w.raft, R.Apply(i));
    DeliveredKeepsKv(codec, w.kv, i, m);
    KnownGrows(codec, w.kv, Delivered(codec, w.kv, i, m), R.Do(w.raft, R.Apply(i)));
  }

  lemma StepKeeps(codec: Codec, w: Service, step: Step)
    requires RoundTrips(codec) && Inv(codec, w) && Enabled(codec, w, step)
    ensures Inv(codec, Do(codec, w, step))
  {
    hide Inv, RoundTrips, K.Enabled, R.Enabled, R.InBounds, R.Do, K.Do;
    match step
    case Clients(k) => ClientsKeep(codec, w, k);
    case Submit(i, op) => RaftStepKeeps(codec, w, R.ClientCommand(i, CommandOf(codec, op)));
    case Consensus(s) => RaftStepKeeps(codec, w, s);
    case Deliver(i) => DeliverKeeps(codec, w, i);
    case Crash(i) => CrashKeeps(codec, w, i);
  }

  lemma InitialInv(codec: Codec, n: nat)
    ensures Inv(codec, Initial(n))
  {
    RaftSafety.InitialInv(n);
    K.InitialInv(n);
  }

  lemma {:induction false} RunInv(codec: Codec, n: nat, run: seq<Service>, b: nat)
    requires RoundTrips(codec) && IsRun(codec, n, run) && b < |run|
    ensures Inv(codec, run[b])
  {
    hide Inv, Enabled, RoundTrips;
    if b == 0 {
      InitialInv(codec, n);
    } else {
      RunInv(codec, n, run, b - 1);
      assert Next(codec, run[b - 1], run[b - 1 + 1]);
      var step :| Enabled(codec, run[b - 1], step) && run[b] == Do(codec, run[b - 1], step);
      StepKeeps(codec, run[b - 1], step);
    }
  }

  // Results ------------------------------------------------------------------------------------------

  /**
    * The service as a whole is linearizable: clerks, servers and Raft peers together, with messages lost, delayed and
    * reordered, and servers crashing and restarting.
    */
  lemma ServiceLinearizable(codec: Codec, n: nat, run: seq<Service>, b: nat)
    requires RoundTrips(codec) && IsRun(codec, n, run) && b < |run|
    ensures KvLinear.IsLinearization(run[b].kv, KvLinear.Linearization(run[b].kv, |run[b].kv.log|))
  {
    hide I.Inv, K.Inv, IsRun, KvLinear.IsLinearization, KvLinear.Linearization, KnownCluster;
    RunInv(codec, n, run, b);
    KvLinear.StateLinearizable(run[b].kv);
  }

  /** An OK Get returns the last Put of its key that it can see, and the Appends after it in log order, each call once. */
  lemma ServiceGetReturns(codec: Codec, n: nat, run: seq<Service>, b: nat, c: K.Call)
    requires RoundTrips(codec) && IsRun(codec, n, run) && b < |run| && c in run[b].kv.returned && c in run[b].kv.invoked
    ensures var kv := run[b].kv; var op, r := kv.invoked[c].op, kv.returned[c];
            op.kind == Get ==> r.at <= |kv.log| && KvLinear.ReturnsWrites(kv.log, r.at, op.key, r.value)
  {
    hide I.Inv, K.Inv, IsRun, KvLinear.ReturnsWrites, KnownCluster;
    RunInv(codec, n, run, b);
    if run[b].kv.invoked[c].op.kind == Get {
      KvLinear.StateGetReturns(run[b].kv, c);
    }
  }

  /** Every server's data is each call delivered to it so far executed once, whatever was retried. */
  lemma ServiceExactlyOnce(codec: Codec, n: nat, run: seq<Service>, b: nat, i: nat)
    requires RoundTrips(codec) && IsRun(codec, n, run) && b < |run| && i < |run[b].kv.servers|
    ensures i < |run[b].raft.nodes|
    ensures var v := run[b].kv.servers[i]; var log := run[b].kv.log;
            && v.applied == run[b].raft.nodes[i].lastApplied <= |log|
            && v.kv.store.data == Effects(map[], Firsts(log[..v.applied]))
  {
    hide I.Inv, IsRun, KnownCluster, InOrder, K.LogInv, K.RepliesInv, K.ReturnsInv, K.ClerkInv, K.OrderInv, K.TimeInv;
    RunInv(codec, n, run, b);
    var kv := run[b].kv;
    assert K.ServerInv(kv, kv.servers[i]);
    KvLinear.LogInOrder(kv);
    PrefixInOrder(kv.log, kv.servers[i].applied);
    ExactlyOnce(kv.log[..kv.servers[i].applied]);
  }

  /** No server ever applies an entry that is not an operation, so the type assertion in Apply never panics. */
  lemma OnlyOperationsDelivered(codec: Codec, n: nat, run: seq<Service>, b: nat, i: nat)
    requires RoundTrips(codec) && IsRun(codec, n, run) && b < |run| && Enabled(codec, run[b], Deliver(i))
    ensures var op := OpOf(codec, NextMsg(run[b].raft.nodes[i]).command);
            K.WasInvoked(run[b].kv, op) && NextMsg(run[b].raft.nodes[i]).command == CommandOf(codec, op)
  {
    hide Inv;
    RunInv(codec, n, run, b);
    NextIsKnown(codec, run[b], i);
  }
}
