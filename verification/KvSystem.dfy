/**
  * Clerks and servers over one append-only committed log, as a transition system. Raft's safety theorems justify the
  * single log: servers only ever apply prefixes of it. Replies can be lost, delayed, or answer an older attempt.
  */
module KvSystem {
  import opened KvStore
  import opened KvServer

  /** The identity of a call: its client and number. */
  datatype Call = Call(client: int, number: int)

  function CallOf(op: Op): Call {
    Call(op.client, op.number)
  }

  /** An RPC handler waiting in execOp for the entry at `index`. */
  datatype Handler = Handler(op: Op, index: nat)

  datatype Server = Server(kv: KV, applied: nat, handlers: map<nat, Handler>, nextId: nat)

  const FRESH := Server(BLANK, 0, map[], 0)

  /** An OK reply. `at` records how much of the log the server had applied when it answered. */
  datatype OkReply = OkReply(op: Op, value: string, at: nat)

  /** What an observer sees of a call, with clock times; `committed` and `at` also record lengths of the log. */
  datatype Invocation = Invocation(op: Op, time: nat, committed: nat)

  datatype Return = Return(value: string, time: nat, at: nat)

  datatype System = System(
    log: seq<Op>, servers: seq<Server>, replies: set<OkReply>,
    opCount: map<int, nat>, busy: set<int>,
    now: nat, invoked: map<Call, Invocation>, returned: map<Call, Return>, order: seq<Call>)

  function Count(s: System, client: int): nat {
    if client in s.opCount then s.opCount[client] else 0
  }

  predicate WasInvoked(s: System, op: Op) {
    CallOf(op) in s.invoked && s.invoked[CallOf(op)].op == op
  }

  datatype Step =
    | Invoke(client: int, kind: Kind, key: string, value: string)  // the clerk starts a call
    | Commit(op: Op)                                              // an attempt at the call enters the committed log
    | Accept(i: nat, op: Op, index: nat)                          // a server's Start returns index; wait there
    | ApplyNext(i: nat)                                           // a server applies the next committed entry
    | Answer(i: nat, id: nat)                                     // a waiting handler got true and replies OK
    | GiveUp(i: nat, id: nat)                                     // it got false, or timed out
    | Finish(reply: OkReply)                                        // the clerk receives OK
    | Crash(i: nat)

  predicate Enabled(s: System, step: Step) {
    match step
    case Invoke(client, _, _, _) => client !in s.busy
    case Commit(op) => WasInvoked(s, op)
    case Accept(i, op, index) => i < |s.servers| && WasInvoked(s, op)
    case ApplyNext(i) => i < |s.servers| && s.servers[i].applied < |s.log|
    case Answer(i, id) =>
      && i < |s.servers| && id in s.servers[i].handlers
      && id in s.servers[i].kv.answers && s.servers[i].kv.answers[id]
    case GiveUp(i, id) => i < |s.servers| && id in s.servers[i].handlers
    case Finish(reply) => reply in s.replies && reply.op.client in s.busy && reply.op.number == Count(s, reply.op.client)
    case Crash(i) => i < |s.servers|
  }

  function Accepted(v: Server, op: Op, index: nat): Server {
    v.(kv := AfterRegister(v.kv, index, Pending(v.nextId, op)),
       handlers := v.handlers[v.nextId := Handler(op, index)], nextId := v.nextId + 1)
  }

  function AppliedNext(v: Server, log: seq<Op>): Server
    requires v.applied < |log|
  {
    v.(kv := AfterApply(v.kv, v.applied + 1, log[v.applied]), applied := v.applied + 1)
  }

  function Ended(v: Server, id: nat): Server
    requires id in v.handlers
  {
    v.(kv := AfterFinish(v.kv, v.handlers[id].index), handlers := v.handlers - {id})
  }

  /** PutAppend answers OK; Get re-reads kv.data now and answers OK only if the key is there. */
  function Answers(v: Server, id: nat): set<OkReply>
    requires id in v.handlers
  {
    var op := v.handlers[id].op;
    if op.kind != Get then {OkReply(op, "", v.applied)}
    else if op.key in v.kv.store.data then {OkReply(op, v.kv.store.data[op.key], v.applied)}
    else {}
  }

  function Do(s: System, step: Step): System
    requires Enabled(s, step)
  {
    var t := s.(now := s.now + 1);
    match step
    case Invoke(client, kind, key, value) =>
      var op := Op(kind, key, value, client, Count(s, client) + 1);
      t.(opCount := s.opCount[client := op.number], busy := s.busy + {client},
         invoked := s.invoked[CallOf(op) := Invocation(op, s.now, |s.log|)])
    case Commit(op) => t.(log := s.log + [op])
    case Accept(i, op, index) => t.(servers := s.servers[i := Accepted(s.servers[i], op, index)])
    case ApplyNext(i) => t.(servers := s.servers[i := AppliedNext(s.servers[i], s.log)])
    case Answer(i, id) =>
      t.(servers := s.servers[i := Ended(s.servers[i], id)], replies := s.replies + Answers(s.servers[i], id))
    case GiveUp(i, id) => t.(servers := s.servers[i := Ended(s.servers[i], id)])
    case Finish(reply) =>
      t.(busy := s.busy - {reply.op.client}, order := s.order + [CallOf(reply.op)],
         returned := s.returned[CallOf(reply.op) := Return(reply.value, s.now, reply.at)])
    case Crash(i) => t.(servers := s.servers[i := FRESH])
  }

  function Initial(n: nat): System {
    System([], seq(n, _ => FRESH), {}, map[], {}, 0, map[], map[], [])
  }

  ghost predicate Next(s: System, s': System) {
    exists step :: Enabled(s, step) && s' == Do(s, step)
  }

  ghost predicate IsRun(n: nat, run: seq<System>) {
    && |run| > 0 && run[0] == Initial(n)
    && forall k :: 0 <= k < |run| - 1 ==> Next(run[k], run[k + 1])
  }

  // The invariant ------------------------------------------------------------------------------------

  /** The log backs an OK reply: it has the operation before `at`, and at `at` it gives the value read. */
  ghost predicate Backed(log: seq<Op>, op: Op, value: string, at: nat) {
    && at <= |log|
    && (exists j :: 0 <= j < at && log[j] == op)
    && (op.kind == Get ==>
          var data := Replay(EMPTY, log[..at]).data; op.key in data && data[op.key] == value)
  }

  /** A waiter's true answer means that its own operation was applied at its index. */
  ghost predicate ServerInv(s: System, v: Server) {
    && v.applied <= |s.log| && v.kv.store == Replay(EMPTY, s.log[..v.applied])
    && (forall id :: id in v.handlers ==> id < v.nextId && WasInvoked(s, v.handlers[id].op))
    && (forall index, x :: index in v.kv.pending && 0 <= x < |v.kv.pending[index]| ==>
          var p := v.kv.pending[index][x];
          p.id < v.nextId && (p.id in v.handlers ==> v.handlers[p.id] == Handler(p.op, index)))
    && (forall id :: id in v.kv.answers ==>
          id < v.nextId &&
          (v.kv.answers[id] && id in v.handlers ==>
             var h := v.handlers[id]; 1 <= h.index <= v.applied && s.log[h.index - 1] == h.op))
  }

  ghost predicate CallInv(s: System, c: Call) {
    && (c in s.invoked <==> 1 <= c.number <= Count(s, c.client))
    && (c in s.invoked ==> CallOf(s.invoked[c].op) == c && s.invoked[c].time < s.now)
    && (c in s.returned ==> c in s.invoked && s.invoked[c].time < s.returned[c].time < s.now)
    && (c in s.invoked && c !in s.returned <==> c.client in s.busy && c.number == Count(s, c.client))
  }

  /** Calls of one client follow each other in real time. */
  ghost predicate Sequential(s: System, b: Call, c: Call) {
    b in s.invoked && c in s.invoked && b.client == c.client && b.number < c.number ==>
      b in s.returned && s.returned[b].time < s.invoked[c].time
  }

  /** A clerk's calls are numbered 1, 2, 3, .. and each starts after the one before has returned. */
  ghost predicate ClerkInv(s: System) {
    && (forall c :: CallInv(s, c))
    && (forall b, c :: Sequential(s, b, c))
  }

  ghost predicate OrderInv(s: System) {
    && (forall x, y :: 0 <= x < y < |s.order| ==> s.order[x] != s.order[y])
    && (forall c :: c in s.returned <==> c in s.order)
  }

  /** Nothing is in the log before its invocation, and lengths of the log respect real time. */
  ghost predicate TimeInv(s: System) {
    && (forall c :: c in s.invoked ==>
          s.invoked[c].committed <= |s.log| &&
          forall j :: 0 <= j < s.invoked[c].committed ==> CallOf(s.log[j]) != c)
    && (forall b, c :: b in s.returned && c in s.invoked && s.returned[b].time < s.invoked[c].time ==>
          s.returned[b].at <= s.invoked[c].committed)
  }

  ghost predicate ServersInv(s: System) {
    forall i :: 0 <= i < |s.servers| ==> ServerInv(s, s.servers[i])
  }

  ghost predicate LogInv(s: System) {
    forall j :: 0 <= j < |s.log| ==> WasInvoked(s, s.log[j])
  }

  ghost predicate RepliesInv(s: System) {
    forall r :: r in s.replies ==> WasInvoked(s, r.op) && Backed(s.log, r.op, r.value, r.at)
  }

  ghost predicate ReturnsInv(s: System) {
    forall c :: c in s.returned ==>
      c in s.invoked && Backed(s.log, s.invoked[c].op, s.returned[c].value, s.returned[c].at)
  }

  ghost predicate Inv(s: System) {
    ServersInv(s) && LogInv(s) && RepliesInv(s) && ReturnsInv(s) && ClerkInv(s) && OrderInv(s) && TimeInv(s)
  }

  // Every step keeps it ------------------------------------------------------------------------------

  lemma BackedGrows(log: seq<Op>, log': seq<Op>, op: Op, value: string, at: nat)
    requires Backed(log, op, value, at) && log <= log'
    ensures Backed(log', op, value, at)
  {
    assert log'[..at] == log[..at];
    var j :| 0 <= j < at && log[j] == op;
    assert log'[j] == op;
  }

  ghost predicate Grows(s: System, s': System) {
    s.log <= s'.log && forall c :: c in s.invoked ==> c in s'.invoked && s'.invoked[c] == s.invoked[c]
  }

  /** What a server relies on grows only. */
  lemma ServerGrows(s: System, s': System, v: Server)
    requires ServerInv(s, v) && Grows(s, s')
    ensures ServerInv(s', v)
  {
    assert s'.log[..v.applied] == s.log[..v.applied];
  }

  /** So do old replies and returns. */
  lemma AnswersGrow(s: System, s': System)
    requires RepliesInv(s) && ReturnsInv(s) && Grows(s, s')
    ensures forall r :: r in s.replies ==> WasInvoked(s', r.op) && Backed(s'.log, r.op, r.value, r.at)
    ensures forall c :: c in s.returned ==>
              c in s'.invoked && Backed(s'.log, s'.invoked[c].op, s.returned[c].value, s.returned[c].at)
  {
    hide Backed;
    forall r | r in s.replies ensures Backed(s'.log, r.op, r.value, r.at) {
      BackedGrows(s.log, s'.log, r.op, r.value, r.at);
    }
    forall c | c in s.returned
      ensures c in s'.invoked && Backed(s'.log, s'.invoked[c].op, s.returned[c].value, s.returned[c].at)
    {
      BackedGrows(s.log, s'.log, s.invoked[c].op, s.returned[c].value, s.returned[c].at);
    }
  }

  /** Only the clock moved for the clerks. */
  lemma ClerksUnchanged(s: System, s': System)
    requires ClerkInv(s) && OrderInv(s)
    requires s'.opCount == s.opCount && s'.busy == s.busy && s'.invoked == s.invoked && s'.returned == s.returned
    requires s'.order == s.order && s'.now >= s.now
    ensures ClerkInv(s') && OrderInv(s')
  {
    forall c ensures CallInv(s', c) {
      assert CallInv(s, c);
    }
    forall b, c ensures Sequential(s', b, c) {
      assert Sequential(s, b, c);
    }
  }

  lemma AcceptedKeeps(s: System, v: Server, op: Op, index: nat)
    requires ServerInv(s, v) && WasInvoked(s, op)
    ensures ServerInv(s, Accepted(v, op, index))
  {
    var v' := Accepted(v, op, index);
    hide Replay;
    forall i, x | i in v'.kv.pending && 0 <= x < |v'.kv.pending[i]|
      ensures var p := v'.kv.pending[i][x];
              p.id < v'.nextId && (p.id in v'.handlers ==> v'.handlers[p.id] == Handler(p.op, i))
    {
      if i != index || x < |PendingAt(v.kv, index)| {
        assert i in v.kv.pending && v'.kv.pending[i][x] == v.kv.pending[i][x];
      }
    }
  }

  lemma EndedKeeps(s: System, v: Server, id: nat)
    requires ServerInv(s, v) && id in v.handlers
    ensures ServerInv(s, Ended(v, id))
  {
    var v' := Ended(v, id);
    forall i, x | i in v'.kv.pending && 0 <= x < |v'.kv.pending[i]|
      ensures var p := v'.kv.pending[i][x];
              p.id < v'.nextId && (p.id in v'.handlers ==> v'.handlers[p.id] == Handler(p.op, i))
    {
      assert i in v.kv.pending && v'.kv.pending[i][x] == v.kv.pending[i][x];
    }
  }

  lemma AppliedNextKeeps(s: System, v: Server)
    requires ServerInv(s, v) && v.applied < |s.log| && WasInvoked(s, s.log[v.applied])
    ensures ServerInv(s, AppliedNext(v, s.log))
  {
    hide Replay, Applied, Notified;
    var v', op, index := AppliedNext(v, s.log), s.log[v.applied], v.applied + 1;
    var waiters := PendingAt(v.kv, index);
    assert s.log[..v.applied + 1] == s.log[..v.applied] + [op];
    ReplaySnoc(EMPTY, s.log[..v.applied], op);
    forall id | id in v'.kv.answers
      ensures id < v'.nextId
      ensures v'.kv.answers[id] && id in v'.handlers ==>
                var h := v'.handlers[id]; 1 <= h.index <= v'.applied && s.log[h.index - 1] == h.op
    {
      NotifiedMeans(v.kv.answers, waiters, op, id);
      if x :| 0 <= x < |waiters| && waiters[x].id == id {
        assert index in v.kv.pending && v.kv.pending[index][x] == waiters[x];
      }
      if v'.kv.answers[id] && id in v'.handlers && !(id in v.kv.answers && v.kv.answers[id]) {
        var x :| 0 <= x < |waiters| && waiters[x].id == id && SameCall(waiters[x].op, op);
        assert index in v.kv.pending && v.kv.pending[index][x] == waiters[x];
        assert WasInvoked(s, v.handlers[id].op) && WasInvoked(s, op);
      }
    }
  }

  lemma AnswersBacked(s: System, v: Server, id: nat)
    requires ServerInv(s, v) && id in v.handlers && id in v.kv.answers && v.kv.answers[id]
    ensures forall r :: r in Answers(v, id) ==> WasInvoked(s, r.op) && Backed(s.log, r.op, r.value, r.at)
  {
    var h := v.handlers[id];
    assert s.log[h.index - 1] == h.op;
  }

  lemma FreshServer(s: System)
    ensures ServerInv(s, FRESH)
  {
    assert s.log[..0] == [];
  }

  /** The server that a step of server i leaves behind. */
  lemma ServerAfterStep(s: System, step: Step)
    requires ServersInv(s) && LogInv(s) && Enabled(s, step)
    requires step.Accept? || step.ApplyNext? || step.Answer? || step.GiveUp? || step.Crash?
    ensures ServerInv(s, Do(s, step).servers[step.i])
  {
    hide Accepted, AppliedNext, Ended, AfterRegister, AfterApply, AfterFinish;
    var v := s.servers[step.i];
    assert ServerInv(s, v);
    match step
    case Accept(_, op, index) => AcceptedKeeps(s, v, op, index);
    case ApplyNext(_) => AppliedNextKeeps(s, v);
    case Answer(_, id) => EndedKeeps(s, v, id);
    case GiveUp(_, id) => EndedKeeps(s, v, id);
    case Crash(_) => FreshServer(s);
  }

  lemma NewReplies(s: System, step: Step)
    requires ServersInv(s) && Enabled(s, step) && !step.Commit?
    ensures forall r :: r in Do(s, step).replies && r !in s.replies ==>
              WasInvoked(s, r.op) && Backed(s.log, r.op, r.value, r.at)
  {
    if step.Answer? {
      AnswersBacked(s, s.servers[step.i], step.id);
    }
  }

  lemma ServerStepShape(s: System, step: Step)
    requires Enabled(s, step)
    requires step.Accept? || step.ApplyNext? || step.Answer? || step.GiveUp? || step.Crash?
    ensures step.i < |s.servers| == |Do(s, step).servers|
    ensures var s' := Do(s, step);
            s' == s.(now := s.now + 1, servers := s.servers[step.i := s'.servers[step.i]], replies := s'.replies)
  {
    hide Accepted, AppliedNext, Ended, Answers;
  }

  lemma ServerStepKeeps(s: System, step: Step)
    requires Inv(s) && Enabled(s, step)
    requires step.Accept? || step.ApplyNext? || step.Answer? || step.GiveUp? || step.Crash?
    ensures Inv(Do(s, step))
  {
    hide ServerInv, Backed, Answers, ClerkInv, OrderInv, Do;
    var s' := Do(s, step);
    ServerAfterStep(s, step);
    ServerStepShape(s, step);
    forall i | 0 <= i < |s'.servers| ensures ServerInv(s', s'.servers[i]) {
      ServerGrows(s, s', s'.servers[i]);
    }
    NewReplies(s, step);
    AnswersGrow(s, s');
    ClerksUnchanged(s, s');
  }

  lemma CommitKeeps(s: System, op: Op)
    requires Inv(s) && WasInvoked(s, op)
    ensures Inv(Do(s, Commit(op)))
  {
    hide ServerInv, Backed, ClerkInv, OrderInv;
    var s' := Do(s, Commit(op));
    forall i | 0 <= i < |s'.servers| ensures ServerInv(s', s'.servers[i]) {
      ServerGrows(s, s', s.servers[i]);
    }
    AnswersGrow(s, s');
    ClerksUnchanged(s, s');
  }

  lemma ReturnsInLog(s: System)
    requires ReturnsInv(s)
    ensures forall c :: c in s.returned ==> s.returned[c].at <= |s.log|
  {
    forall c | c in s.returned ensures s.returned[c].at <= |s.log| {
      assert Backed(s.log, s.invoked[c].op, s.returned[c].value, s.returned[c].at);
    }
  }

  lemma InvokeClerks(s: System, s': System, step: Step)
    requires ClerkInv(s) && Enabled(s, step) && step.Invoke? && s' == Do(s, step)
    ensures ClerkInv(s') && Call(step.client, Count(s, step.client) + 1) !in s.invoked
  {
    var k := step.client;
    var next := Call(k, Count(s, k) + 1);
    assert CallInv(s, next) && next !in s.invoked;
    forall c ensures CallInv(s', c) {
      assert CallInv(s, c);
    }
    forall b, c ensures Sequential(s', b, c) {
      assert Sequential(s, b, c) && CallInv(s, b) && CallInv(s', b) && CallInv(s', c);
    }
  }

  lemma InvokeTimes(s: System, s': System, step: Step)
    requires TimeInv(s) && ClerkInv(s) && ReturnsInv(s) && LogInv(s) && step.Invoke? && Enabled(s, step)
    requires s' == Do(s, step) && Call(step.client, Count(s, step.client) + 1) !in s.invoked
    ensures TimeInv(s')
  {
    hide Backed;
    ReturnsInLog(s);
    assert forall j :: 0 <= j < |s.log| ==> WasInvoked(s, s.log[j]);
  }

  lemma InvokeKeeps(s: System, step: Step)
    requires Inv(s) && Enabled(s, step) && step.Invoke?
    ensures Inv(Do(s, step))
  {
    hide ServerInv, Backed, ClerkInv, OrderInv, TimeInv;
    var s' := Do(s, step);
    InvokeClerks(s, s', step);
    InvokeTimes(s, s', step);
    forall i | 0 <= i < |s'.servers| ensures ServerInv(s', s'.servers[i]) {
      ServerGrows(s, s', s.servers[i]);
    }
    AnswersGrow(s, s');
    SameOrder(s, s');
  }

  lemma SameOrder(s: System, s': System)
    requires OrderInv(s) && s'.order == s.order && s'.returned == s.returned
    ensures OrderInv(s')
  {
  }

  lemma FinishClerks(s: System, s': System, reply: OkReply)
    requires ClerkInv(s) && Enabled(s, Finish(reply)) && s' == Do(s, Finish(reply))
    requires WasInvoked(s, reply.op)
    ensures CallOf(reply.op) !in s.returned && ClerkInv(s')
  {
    var r := CallOf(reply.op);
    assert CallInv(s, r) && r !in s.returned;
    forall c ensures CallInv(s', c) {
      assert CallInv(s, c);
    }
    forall b, c ensures Sequential(s', b, c) {
      assert Sequential(s, b, c) && CallInv(s, b) && CallInv(s, c);
    }
  }

  lemma FinishTimes(s: System, s': System, reply: OkReply)
    requires ClerkInv(s) && OrderInv(s) && TimeInv(s) && s'.now == s.now + 1 && s'.log == s.log
    requires CallOf(reply.op) !in s.returned && s'.invoked == s.invoked
    requires s'.returned == s.returned[CallOf(reply.op) := Return(reply.value, s.now, reply.at)]
    requires s'.order == s.order + [CallOf(reply.op)]
    ensures OrderInv(s') && TimeInv(s')
  {
    assert CallOf(reply.op) !in s.order;
    forall b | b in s'.invoked ensures s'.invoked[b].time < s.now {
      assert CallInv(s, b);
    }
  }

  lemma FinishKeeps(s: System, reply: OkReply)
    requires Inv(s) && Enabled(s, Finish(reply))
    ensures Inv(Do(s, Finish(reply)))
  {
    hide ServerInv, Backed, ClerkInv, OrderInv, TimeInv;
    var s' := Do(s, Finish(reply));
    assert WasInvoked(s, reply.op);
    FinishClerks(s, s', reply);
    FinishTimes(s, s', reply);
    forall i | 0 <= i < |s'.servers| ensures ServerInv(s', s'.servers[i]) {
      ServerGrows(s, s', s.servers[i]);
    }
    AnswersGrow(s, s');
  }

  lemma StepKeeps(s: System, step: Step)
    requires Inv(s) && Enabled(s, step)
    ensures Inv(Do(s, step))
  {
    hide Inv;
    match step
    case Invoke(_, _, _, _) => InvokeKeeps(s, step);
    case Commit(op) => CommitKeeps(s, op);
    case Finish(reply) => FinishKeeps(s, reply);
    case _ => ServerStepKeeps(s, step);
  }

  lemma InitialInv(n: nat)
    ensures Inv(Initial(n))
  {
    FreshServer(Initial(n));
  }

  lemma {:induction false} RunInv(n: nat, run: seq<System>, b: nat)
    requires IsRun(n, run) && b < |run|
    ensures Inv(run[b])
  {
    hide Inv, Enabled;
    if b == 0 {
      InitialInv(n);
    } else {
      RunInv(n, run, b - 1);
      assert Next(run[b - 1], run[b - 1 + 1]);
      var step :| Enabled(run[b - 1], step) && run[b] == Do(run[b - 1], step);
      StepKeeps(run[b - 1], step);
    }
  }
}
