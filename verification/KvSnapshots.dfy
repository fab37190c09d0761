/**
  * The service with snapshots. A snapshot has the data but not the operation numbers, so a server that restarts from
  * one, or reads one that its peer installed, may not recognise a retry. The service is linearizable as long as no
  * server applies a retry that it has forgotten and changes its data by that, and no snapshot is read late.
  */
module KvSnapshots {
  import opened KvStore
  import opened KvServer
  import opened KvSystem
  import opened KvLinear

  /** encodeSnapshot's data, and the index of the last entry in it. */
  datatype Snapshot = Snapshot(data: map<string, string>, index: nat)

  /** A persister without a snapshot: nothing is read. */
  const NONE := Snapshot(map[], 0)

  /** `saved` is what the persisters hold, `taken` every snapshot that was ever taken. */
  datatype Service = Service(sys: System, saved: seq<Snapshot>, taken: set<Snapshot>)

  datatype SnapStep =
    | Plain(step: Step)                          // a step of the service without snapshots, but no crash
    | Take(i: nat)                               // a server encodes its data
    | Save(i: nat, snap: Snapshot)               // a persister gets its own snapshot, or one that its peer installs
    | Read(i: nat, snap: Snapshot)               // a server reads a snapshot that its peer has installed
    | Restart(i: nat)

  predicate SnapEnabled(w: Service, step: SnapStep) {
    match step
    case Plain(k) => !k.Crash? && Enabled(w.sys, k)
    case Take(i) => i < |w.sys.servers|
    case Save(i, snap) => i < |w.saved| && snap in w.taken
    case Read(i, snap) => i < |w.sys.servers| && snap in w.taken
    case Restart(i) => i < |w.sys.servers| && i < |w.saved|
  }

  /** Decoding puts the snapshot's entries into the map that is there; the peer goes on from the snapshot's index. */
  function AfterReading(v: Server, snap: Snapshot): Server {
    v.(applied := snap.index, kv := v.kv.(store := Store(v.kv.store.data + snap.data, v.kv.store.opIndex)))
  }

  function SnapDo(w: Service, step: SnapStep): Service
    requires SnapEnabled(w, step)
  {
    var t := w.sys;
    match step
    case Plain(k) => w.(sys := Do(t, k))
    case Take(i) => w.(taken := w.taken + {Snapshot(t.servers[i].kv.store.data, t.servers[i].applied)})
    case Save(i, snap) => w.(saved := w.saved[i := snap])
    case Read(i, snap) => w.(sys := t.(servers := t.servers[i := AfterReading(t.servers[i], snap)]))
    case Restart(i) => w.(sys := t.(servers := t.servers[i := AfterReading(FRESH, w.saved[i])]))
  }

  function SnapInitial(n: nat): Service {
    Service(KvSystem.Initial(n), seq(n, _ => NONE), {})
  }

  // What a server should hold ------------------------------------------------------------------------

  /** The same data, and no number that `full` does not know. */
  ghost predicate Agrees(store: Store, full: Store) {
    store.data == full.data && forall c :: LastNumber(store, c) <= LastNumber(full, c)
  }

  /** What the full replay of the entries that it has applied gives. */
  ghost predicate Right(log: seq<Op>, v: Server) {
    v.applied <= |log| && Agrees(v.kv.store, Replay(EMPTY, log[..v.applied]))
  }

  ghost predicate SnapshotRight(log: seq<Op>, snap: Snapshot) {
    snap.index <= |log| && snap.data == Replay(EMPTY, log[..snap.index]).data
  }

  /** The server as if it had never forgotten a number. */
  function Rebuilt(log: seq<Op>, v: Server): Server
    requires v.applied <= |log|
  {
    v.(kv := v.kv.(store := Replay(EMPTY, log[..v.applied])))
  }

  ghost predicate AllInLog(s: System) {
    forall i :: 0 <= i < |s.servers| ==> s.servers[i].applied <= |s.log|
  }

  ghost function Full(s: System): System
    requires AllInLog(s)
  {
    s.(servers := seq(|s.servers|, i requires 0 <= i < |s.servers| => Rebuilt(s.log, s.servers[i])))
  }

  ghost predicate AllRight(s: System) {
    forall i :: 0 <= i < |s.servers| ==> Right(s.log, s.servers[i])
  }

  ghost predicate SnapshotsRight(w: Service) {
    && (forall snap :: snap in w.taken ==> SnapshotRight(w.sys.log, snap))
    && (forall i :: 0 <= i < |w.saved| ==> SnapshotRight(w.sys.log, w.saved[i]))
  }

  ghost predicate SnapInv(w: Service) {
    && |w.saved| == |w.sys.servers| && AllInLog(w.sys) && AllRight(w.sys) && SnapshotsRight(w)
    && Inv(Full(w.sys))
  }

  // One entry and one snapshot -----------------------------------------------------------------------

  lemma AppliedAgreesIff(store: Store, full: Store, op: Op)
    requires Agrees(store, full)
    ensures Agrees(Applied(store, op), Applied(full, op)) <==>
            !Duplicate(full, op) || Duplicate(store, op) || Effect(store.data, op) == store.data
  {
    hide Effect;
    var store', full' := Applied(store, op), Applied(full, op);
    assert LastNumber(store, op.client) <= LastNumber(full, op.client);
    forall c ensures LastNumber(store', c) <= LastNumber(full', c) {
      assert LastNumber(store, c) <= LastNumber(full, c);
    }
  }

  /**
    * Applying the next entry keeps the data right exactly when it is no retry, or the server recognises the retry, or
    * executing it again changes nothing.
    */
  lemma ApplyRightIff(log: seq<Op>, v: Server)
    requires InOrder(log) && Right(log, v) && v.applied < |log|
    ensures var op, store := log[v.applied], v.kv.store;
            Right(log, AppliedNext(v, log)) <==>
            First(log, v.applied) || Duplicate(store, op) || Effect(store.data, op) == store.data
  {
    hide InOrder, First, Replay, Applied, Duplicate, Effect, Agrees;
    var m, op := v.applied, log[v.applied];
    PrefixInOrder(log, m + 1);
    LastTakesEffect(log[..m + 1]);
    FirstInPrefix(log, m + 1, m);
    assert log[..m + 1] == log[..m] + [op] && log[..m + 1][..m] == log[..m];
    ReplaySnoc(EMPTY, log[..m], op);
    AppliedAgreesIff(v.kv.store, Replay(EMPTY, log[..m]), op);
  }

  /** A longer prefix has every key and every number of a shorter one. */
  lemma {:induction false} ReplayGrows(ops: seq<Op>, m: nat)
    requires m <= |ops|
    ensures Replay(EMPTY, ops[..m]).data.Keys <= Replay(EMPTY, ops).data.Keys
    ensures forall c :: LastNumber(Replay(EMPTY, ops[..m]), c) <= LastNumber(Replay(EMPTY, ops), c)
    decreases |ops|
  {
    if m < |ops| {
      ReplayGrows(ops[..|ops| - 1], m);
      assert ops[..|ops| - 1][..m] == ops[..m];
    } else {
      assert ops[..m] == ops;
    }
  }

  /**
    * Reading a snapshot leaves a server right exactly when the snapshot is not older than what the server has applied,
    * or else has all its keys while the server knows no number from after the snapshot.
    */
  lemma ReadRightIff(log: seq<Op>, v: Server, snap: Snapshot)
    requires Right(log, v) && SnapshotRight(log, snap)
    ensures Right(log, AfterReading(v, snap)) <==>
            || snap.index >= v.applied
            || (v.kv.store.data.Keys <= snap.data.Keys &&
                forall c :: LastNumber(v.kv.store, c) <= LastNumber(Replay(EMPTY, log[..snap.index]), c))
  {
    hide Replay;
    var data := v.kv.store.data;
    if snap.index >= v.applied {
      ReplayGrows(log[..snap.index], v.applied);
      assert log[..snap.index][..v.applied] == log[..v.applied];
    }
    MergeIsSecondIff(data, snap.data);
    if snap.index >= v.applied {
      forall c ensures LastNumber(v.kv.store, c) <= LastNumber(Replay(EMPTY, log[..snap.index]), c) {
        assert LastNumber(v.kv.store, c) <= LastNumber(Replay(EMPTY, log[..v.applied]), c);
      }
    }
    assert forall c :: LastNumber(AfterReading(v, snap).kv.store, c) == LastNumber(v.kv.store, c);
  }

  lemma MergeIsSecondIff(a: map<string, string>, b: map<string, string>)
    ensures a + b == b <==> a.Keys <= b.Keys
  {
    if a.Keys <= b.Keys {
      assert a + b == b;
    } else {
      assert (a + b).Keys == a.Keys + b.Keys;
    }
  }

  lemma RestartRight(log: seq<Op>, snap: Snapshot)
    requires SnapshotRight(log, snap)
    ensures Right(log, AfterReading(FRESH, snap))
  {
    hide Replay;
    assert log[..0] == [];
    ReplayGrows(log[..snap.index], 0);
    assert log[..snap.index][..0] == [];
    EmptyReplay();
    assert map[] + snap.data == snap.data;
  }

  lemma EmptyReplay()
    ensures Replay(EMPTY, []) == EMPTY
  {
  }

  // Steps --------------------------------------------------------------------------------------------

  /** The guard on the two steps that can go wrong. */
  ghost predicate Careful(w: Service, step: SnapStep)
    requires SnapEnabled(w, step)
  {
    match step
    case Plain(k) =>
      k.ApplyNext? ==>
        var v := w.sys.servers[k.i];
        var op, store := w.sys.log[v.applied], v.kv.store;
        First(w.sys.log, v.applied) || Duplicate(store, op) || Effect(store.data, op) == store.data
    case Read(i, snap) => snap.index >= w.sys.servers[i].applied
    case _ => true
  }

  lemma RightGrows(log: seq<Op>, op: Op, v: Server)
    requires Right(log, v)
    ensures Right(log + [op], v) && Rebuilt(log + [op], v) == Rebuilt(log, v)
  {
    hide Replay;
    assert (log + [op])[..v.applied] == log[..v.applied];
  }

  lemma SnapshotsGrow(w: Service, op: Op)
    requires SnapshotsRight(w)
    ensures SnapshotsRight(w.(sys := w.sys.(log := w.sys.log + [op])))
  {
    hide Replay;
    assert forall snap: Snapshot :: SnapshotRight(w.sys.log, snap) ==>
             (w.sys.log + [op])[..snap.index] == w.sys.log[..snap.index];
  }

  /** One server has a new value. */
  lemma FullUpdated(s: System, i: nat, v: Server)
    requires AllInLog(s) && i < |s.servers| && v.applied <= |s.log|
    ensures AllInLog(s.(servers := s.servers[i := v]))
    ensures Full(s.(servers := s.servers[i := v])) == Full(s).(servers := Full(s).servers[i := Rebuilt(s.log, v)])
  {
    hide Replay;
  }

  lemma ApplyRebuilt(log: seq<Op>, v: Server)
    requires v.applied < |log|
    ensures Rebuilt(log, AppliedNext(v, log)) == AppliedNext(Rebuilt(log, v), log)
  {
    hide Replay, Applied;
    var m := v.applied;
    assert log[..m + 1] == log[..m] + [log[m]];
    ReplaySnoc(EMPTY, log[..m], log[m]);
  }

  predicate OfServer(k: Step) {
    k.Accept? || k.ApplyNext? || k.Answer? || k.GiveUp?
  }

  function ServerAfter(log: seq<Op>, v: Server, k: Step): Server
    requires OfServer(k) && (k.ApplyNext? ==> v.applied < |log|) && (k.Answer? || k.GiveUp? ==> k.id in v.handlers)
  {
    match k
    case Accept(_, op, index) => Accepted(v, op, index)
    case ApplyNext(_) => AppliedNext(v, log)
    case Answer(_, id) => Ended(v, id)
    case GiveUp(_, id) => Ended(v, id)
  }

  lemma RebuiltStep(log: seq<Op>, v: Server, k: Step)
    requires OfServer(k) && v.applied <= |log|
    requires (k.ApplyNext? ==> v.applied < |log|) && (k.Answer? || k.GiveUp? ==> k.id in v.handlers)
    ensures ServerAfter(log, v, k).applied <= |log|
    ensures Rebuilt(log, ServerAfter(log, v, k)) == ServerAfter(log, Rebuilt(log, v), k)
  {
    hide Replay, Applied, Notified;
    if k.ApplyNext? {
      ApplyRebuilt(log, v);
    }
  }

  lemma ServerStep(s: System, k: Step)
    requires Enabled(s, k) && OfServer(k)
    ensures k.i < |s.servers| && (k.ApplyNext? ==> s.servers[k.i].applied < |s.log|)
    ensures k.Answer? || k.GiveUp? ==> k.id in s.servers[k.i].handlers
    ensures var v := s.servers[k.i];
            Do(s, k) == s.(now := s.now + 1, servers := s.servers[k.i := ServerAfter(s.log, v, k)],
                           replies := s.replies + if k.Answer? then Answers(v, k.id) else {})
  {
    hide Accepted, AppliedNext, Ended, Answers;
  }

  /** A step of one server, seen by the servers that forget nothing. */
  lemma FullServerStep(s: System, k: Step)
    requires AllInLog(s) && AllRight(s) && Enabled(s, k) && OfServer(k)
    ensures Enabled(Full(s), k)
    ensures AllInLog(Do(s, k)) && Full(Do(s, k)) == Do(Full(s), k)
  {
    hide Replay, ServerAfter, Do;
    var v, full := s.servers[k.i], Full(s);
    assert Right(s.log, v) && full.servers[k.i] == Rebuilt(s.log, v);
    ServerStep(s, k);
    ServerStep(full, k);
    RebuiltStep(s.log, v, k);
    FullUpdated(s, k.i, ServerAfter(s.log, v, k));
  }

  lemma ServerStepRight(s: System, k: Step)
    requires AllRight(s) && InOrder(s.log) && Enabled(s, k) && OfServer(k)
    requires k.ApplyNext? ==>
               var v := s.servers[k.i]; var op, store := s.log[v.applied], v.kv.store;
               First(s.log, v.applied) || Duplicate(store, op) || Effect(store.data, op) == store.data
    ensures AllRight(Do(s, k))
  {
    hide InOrder, Replay, Applied, Notified, First, Duplicate, Effect, Answers, Agrees;
    ServerStep(s, k);
    var v := s.servers[k.i];
    assert Right(s.log, v);
    if k.ApplyNext? {
      ApplyRightIff(s.log, v);
    }
    assert Right(s.log, ServerAfter(s.log, v, k));
  }

  /** The other steps leave the servers alone. */
  lemma ClerkStep(s: System, k: Step)
    requires AllInLog(s) && AllRight(s) && Enabled(s, k) && !OfServer(k) && !k.Crash?
    ensures Enabled(Full(s), k)
    ensures AllInLog(Do(s, k)) && AllRight(Do(s, k)) && Full(Do(s, k)) == Do(Full(s), k)
  {
    hide Right;
    assert forall i :: 0 <= i < |s.servers| ==> Right(s.log, s.servers[i]);
    if k.Commit? {
      forall i | 0 <= i < |s.servers|
        ensures Right(s.log + [k.op], s.servers[i]) && Rebuilt(s.log + [k.op], s.servers[i]) == Rebuilt(s.log, s.servers[i])
      {
        RightGrows(s.log, k.op, s.servers[i]);
      }
    }
  }

  lemma FullLogInOrder(s: System)
    requires AllInLog(s) && Inv(Full(s))
    ensures InOrder(s.log)
  {
    hide Inv, InOrder;
    LogInOrder(Full(s));
  }

  lemma PlainKeeps(w: Service, k: Step)
    requires SnapInv(w) && SnapEnabled(w, Plain(k)) && Careful(w, Plain(k))
    ensures SnapInv(SnapDo(w, Plain(k)))
  {
    hide Inv, InOrder, AllInLog, AllRight, SnapshotRight, Do, Full, Enabled;
    FullLogInOrder(w.sys);
    if OfServer(k) {
      FullServerStep(w.sys, k);
      PlainServer(w.sys, k);
      ServerStepRight(w.sys, k);
    } else {
      ClerkStep(w.sys, k);
    }
    StepKeeps(Full(w.sys), k);
    PlainShape(w, k);
    if k.Commit? {
      SnapshotsGrow(w, k.op);
    }
  }

  lemma PlainServer(s: System, k: Step)
    requires Enabled(s, k) && OfServer(k)
    ensures k.i < |s.servers| && (k.ApplyNext? ==> s.servers[k.i].applied < |s.log|)
  {
  }

  lemma PlainShape(w: Service, k: Step)
    requires Enabled(w.sys, k)
    ensures |Do(w.sys, k).servers| == |w.sys.servers|
    ensures Do(w.sys, k).log == if k.Commit? then w.sys.log + [k.op] else w.sys.log
  {
    hide Accepted, AppliedNext, Ended, Answers;
  }

  /** A server that has applied more of the log, or has started again, keeps what the service relies on. */
  lemma ServerReplacedKeeps(s: System, i: nat, v: Server)
    requires Inv(s) && i < |s.servers| && ServerInv(s, v)
    ensures Inv(s.(servers := s.servers[i := v]))
  {
    hide ServerInv, Backed, ClerkInv, OrderInv;
    var s' := s.(servers := s.servers[i := v]);
    forall j | 0 <= j < |s'.servers| ensures ServerInv(s', s'.servers[j]) {
      ServerGrows(s, s', s'.servers[j]);
    }
    AnswersGrow(s, s');
    ClerksUnchanged(s, s');
  }

  lemma ReadKeeps(w: Service, i: nat, v: Server)
    requires SnapInv(w) && i < |w.sys.servers| && Right(w.sys.log, v)
    requires ServerInv(Full(w.sys), Rebuilt(w.sys.log, v))
    ensures SnapInv(w.(sys := w.sys.(servers := w.sys.servers[i := v])))
  {
    hide Inv, ServerInv, SnapshotRight, Agrees, Replay;
    FullUpdated(w.sys, i, v);
    ServerReplacedKeeps(Full(w.sys), i, Rebuilt(w.sys.log, v));
  }

  lemma JumpKeeps(s: System, v: Server, snap: Snapshot)
    requires v.applied <= snap.index <= |s.log| && ServerInv(s, Rebuilt(s.log, v))
    ensures ServerInv(s, Rebuilt(s.log, AfterReading(v, snap)))
  {
    hide Replay;
  }

  lemma StartsKeeps(s: System, snap: Snapshot)
    requires snap.index <= |s.log|
    ensures ServerInv(s, Rebuilt(s.log, AfterReading(FRESH, snap)))
  {
    hide Replay;
  }

  lemma FullServerInv(s: System, i: nat)
    requires AllInLog(s) && Inv(Full(s)) && i < |s.servers|
    ensures ServerInv(Full(s), Rebuilt(s.log, s.servers[i]))
  {
    hide ServerInv;
    assert Full(s).servers[i] == Rebuilt(s.log, s.servers[i]);
  }

  lemma SnapStepKeeps(w: Service, step: SnapStep)
    requires SnapInv(w) && SnapEnabled(w, step) && Careful(w, step)
    ensures SnapInv(SnapDo(w, step))
  {
    hide Inv, ServerInv, Agrees, Replay, Do, Enabled, AfterReading;
    var s := w.sys;
    match step
    case Plain(k) => PlainKeeps(w, k);
    case Take(i) => assert Right(s.log, s.servers[i]); TakenRight(s.log, s.servers[i]);
    case Save(i, snap) =>
    case Read(i, snap) =>
      assert Right(s.log, s.servers[i]) && SnapshotRight(s.log, snap);
      ReadRightIff(s.log, s.servers[i], snap);
      FullServerInv(s, i);
      JumpKeeps(Full(s), s.servers[i], snap);
      ReadKeeps(w, i, AfterReading(s.servers[i], snap));
    case Restart(i) =>
      assert SnapshotRight(s.log, w.saved[i]);
      RestartRight(s.log, w.saved[i]);
      StartsKeeps(Full(s), w.saved[i]);
      ReadKeeps(w, i, AfterReading(FRESH, w.saved[i]));
  }

  lemma TakenRight(log: seq<Op>, v: Server)
    requires Right(log, v)
    ensures SnapshotRight(log, Snapshot(v.kv.store.data, v.applied))
  {
  }

  // Runs ---------------------------------------------------------------------------------------------

  ghost predicate SnapNext(w: Service, w': Service) {
    exists step :: SnapEnabled(w, step) && w' == SnapDo(w, step)
  }

  ghost predicate CarefulNext(w: Service, w': Service) {
    exists step :: SnapEnabled(w, step) && Careful(w, step) && w' == SnapDo(w, step)
  }

  ghost predicate IsSnapRun(n: nat, run: seq<Service>) {
    && |run| > 0 && run[0] == SnapInitial(n)
    && forall k :: 0 <= k < |run| - 1 ==> SnapNext(run[k], run[k + 1])
  }

  ghost predicate IsCarefulRun(n: nat, run: seq<Service>) {
    && |run| > 0 && run[0] == SnapInitial(n)
    && forall k :: 0 <= k < |run| - 1 ==> CarefulNext(run[k], run[k + 1])
  }

  lemma InitialSnapInv(n: nat)
    ensures SnapInv(SnapInitial(n))
  {
    hide Inv;
    var s := KvSystem.Initial(n);
    assert s.log[..0] == [];
    assert Full(s) == s;
    InitialInv(n);
  }

  lemma {:induction false} CarefulRunInv(n: nat, run: seq<Service>, b: nat)
    requires IsCarefulRun(n, run) && b < |run|
    ensures SnapInv(run[b])
    decreases b
  {
    hide SnapInv, SnapEnabled, Careful, SnapDo;
    if b == 0 {
      InitialSnapInv(n);
    } else {
      CarefulRunInv(n, run, b - 1);
      assert CarefulNext(run[b - 1], run[b - 1 + 1]);
      var step :| SnapEnabled(run[b - 1], step) && Careful(run[b - 1], step) && run[b] == SnapDo(run[b - 1], step);
      SnapStepKeeps(run[b - 1], step);
    }
  }

  /** What clients can see does not depend on the servers. */
  lemma {:induction false} SameGets(s: System, t: System, order: seq<Call>, m: nat)
    requires t == s.(servers := t.servers)
    ensures GetsAt(s, order, m) == GetsAt(t, order, m)
    decreases |order|
  {
    if order != [] {
      SameGets(s, t, order[..|order| - 1], m);
    }
  }

  lemma {:induction false} SameLinearization(s: System, t: System, m: nat)
    requires t == s.(servers := t.servers) && m <= |s.log|
    ensures Linearization(s, m) == Linearization(t, m)
    decreases m
  {
    hide GetsAt, MutationAt;
    SameGets(s, t, s.order, m);
    if m > 0 {
      SameLinearization(s, t, m - 1);
    }
  }

  lemma SameHistory(s: System, t: System, items: seq<Item>)
    requires t == s.(servers := t.servers) && IsLinearization(t, items)
    ensures IsLinearization(s, items)
  {
    hide Legal, Includes;
    assert forall x :: 0 <= x < |items| ==> WasInvoked(t, items[x].op);
  }

  /**
    * In every reachable state of the service with snapshots, the history of calls is linearizable and every server has
    * the data of executing each call that it has applied once: for runs in which no server changes its data by a retry
    * that it has forgotten, and reads no snapshot that is older than what it has applied.
    */
  lemma SnapshotsLinearizable(n: nat, run: seq<Service>, b: nat)
    requires IsCarefulRun(n, run) && b < |run|
    ensures IsLinearization(run[b].sys, Linearization(run[b].sys, |run[b].sys.log|))
    ensures forall i :: 0 <= i < |run[b].sys.servers| ==> HasEffectsOnce(run[b].sys.log, run[b].sys.servers[i])
  {
    hide IsCarefulRun, Inv, IsLinearization, Linearization, InOrder, Agrees;
    CarefulRunInv(n, run, b);
    var s := run[b].sys;
    StateLinearizable(Full(s));
    SameLinearization(s, Full(s), |s.log|);
    SameHistory(s, Full(s), Linearization(s, |s.log|));
    LogInOrder(Full(s));
    forall i | 0 <= i < |s.servers| ensures HasEffectsOnce(s.log, s.servers[i]) {
      RightIsEffects(s.log, s.servers[i]);
    }
  }

  /** And an OK Get returns the last Put of its key that it can see, and the Appends after it in log order. */
  lemma SnapshotsGetReturns(n: nat, run: seq<Service>, b: nat, c: Call)
    requires IsCarefulRun(n, run) && b < |run| && c in run[b].sys.returned && c in run[b].sys.invoked
    ensures var s := run[b].sys; var op, r := s.invoked[c].op, s.returned[c];
            op.kind == Get ==> r.at <= |s.log| && ReturnsWrites(s.log, r.at, op.key, r.value)
  {
    hide IsCarefulRun, Inv, ReturnsWrites, Agrees;
    CarefulRunInv(n, run, b);
    if run[b].sys.invoked[c].op.kind == Get {
      StateGetReturns(Full(run[b].sys), c);
    }
  }

  ghost predicate HasEffectsOnce(log: seq<Op>, v: Server) {
    v.applied <= |log| && v.kv.store.data == Effects(map[], Firsts(log[..v.applied]))
  }

  lemma RightIsEffects(log: seq<Op>, v: Server)
    requires InOrder(log) && Right(log, v)
    ensures HasEffectsOnce(log, v)
  {
    hide InOrder;
    PrefixInOrder(log, v.applied);
    ExactlyOnce(log[..v.applied]);
  }

  /** From a good state, every server is still right after a step exactly when the guard allows an application. */
  lemma StaysRightIff(w: Service, k: Step)
    requires SnapInv(w) && SnapEnabled(w, Plain(k))
    ensures AllRight(SnapDo(w, Plain(k)).sys) <==> Careful(w, Plain(k))
  {
    hide Inv, InOrder, Agrees, Replay, First, Duplicate, Effect, Applied, Notified, Answers;
    FullLogInOrder(w.sys);
    if k.ApplyNext? {
      var v := w.sys.servers[k.i];
      assert Right(w.sys.log, v);
      ApplyRightIff(w.sys.log, v);
      assert SnapDo(w, Plain(k)).sys.servers[k.i] == AppliedNext(v, w.sys.log);
      if Careful(w, Plain(k)) {
        ServerStepRight(w.sys, k);
      }
    } else if OfServer(k) {
      ServerStepRight(w.sys, k);
    } else {
      ClerkStep(w.sys, k);
    }
  }

  // A run that is not careful ------------------------------------------------------------------------

  const APPEND := Op(Append, "k", "x", 1, 1)
  const GET := Op(Get, "k", "", 2, 1)

  ghost predicate Reached(n: nat, w: Service) {
    exists run :: IsSnapRun(n, run) && run[|run| - 1] == w
  }

  lemma ReachedNext(n: nat, w: Service, step: SnapStep)
    requires Reached(n, w) && SnapEnabled(w, step)
    ensures Reached(n, SnapDo(w, step))
  {
    hide SnapEnabled, SnapDo, SnapInitial;
    var run :| IsSnapRun(n, run) && run[|run| - 1] == w;
    var longer := run + [SnapDo(w, step)];
    forall k | 0 <= k < |longer| - 1 ensures SnapNext(longer[k], longer[k + 1]) {
      if k < |run| - 1 {
        assert longer[k] == run[k] && longer[k + 1] == run[k + 1];
      }
    }
    assert IsSnapRun(n, longer) && longer[|longer| - 1] == SnapDo(w, step);
  }

  lemma ReachedInitially(n: nat)
    ensures Reached(n, SnapInitial(n))
  {
    assert IsSnapRun(n, [SnapInitial(n)]);
  }

  function Holding(x: string, opIndex: map<int, int>): Store {
    Store(map["k" := x], opIndex)
  }

  lemma AppendApplied(log: seq<Op>, m: nat)
    requires m < |log| && log[m] == APPEND
    ensures AppliedNext(Server(BLANK, m, map[], 0), log) ==
            Server(KV(Holding("x", map[1 := 1]), map[], map[]), m + 1, map[], 0)
    ensures AppliedNext(Server(KV(Holding("x", map[]), map[], map[]), m, map[], 0), log) ==
            Server(KV(Holding("xx", map[1 := 1]), map[], map[]), m + 1, map[], 0)
  {
    assert "" + "x" == "x" && "x" + "x" == "xx";
    assert map["k" := "x"]["k" := "xx"] == map["k" := "xx"];
    assert Notified(map[], [], APPEND) == map[];
  }

  /** One server, and the Append's call under way. */
  function Alone(log: seq<Op>, store: Store, applied: nat, now: nat): System {
    System(log, [Server(KV(store, map[], map[]), applied, map[], 0)], {}, map[1 := 1], {1}, now,
           map[CallOf(APPEND) := Invocation(APPEND, 0, 0)], map[], [])
  }

  const SAVED := Snapshot(map["k" := "x"], 1)

  lemma AppliedOnce() returns (w: Service)
    ensures Reached(1, w) && w == Service(Alone([APPEND], Holding("x", map[1 := 1]), 1, 3), [NONE], {})
  {
    hide Reached;
    ReachedInitially(1);
    var w0 := SnapInitial(1);
    var invoke := Plain(Invoke(1, Append, "k", "x"));
    ReachedNext(1, w0, invoke);
    var w1 := SnapDo(w0, invoke);
    assert w1 == Service(Alone([], EMPTY, 0, 1), [NONE], {});
    ReachedNext(1, w1, Plain(Commit(APPEND)));
    var w2 := SnapDo(w1, Plain(Commit(APPEND)));
    assert w2 == Service(Alone([APPEND], EMPTY, 0, 2), [NONE], {});
    AppendApplied([APPEND], 0);
    w := AppliesOne(w2, [NONE], {}, EMPTY, 0, Holding("x", map[1 := 1]));
  }

  lemma AppliesOne(w: Service, saved: seq<Snapshot>, taken: set<Snapshot>, store: Store, m: nat, store': Store)
    returns (w': Service)
    requires m < |w.sys.log|
    requires Reached(1, w) && w == Service(Alone(w.sys.log, store, m, w.sys.now), saved, taken)
    requires AppliedNext(Server(KV(store, map[], map[]), m, map[], 0), w.sys.log) ==
             Server(KV(store', map[], map[]), m + 1, map[], 0)
    ensures Reached(1, w') && w' == Service(Alone(w.sys.log, store', m + 1, w.sys.now + 1), saved, taken)
  {
    hide Reached, AppliedNext;
    ReachedNext(1, w, Plain(ApplyNext(0)));
    w' := SnapDo(w, Plain(ApplyNext(0)));
  }

  /** The server takes a snapshot and restarts from it. */
  lemma Restarted(w: Service) returns (w': Service)
    requires Reached(1, w) && w == Service(Alone([APPEND], Holding("x", map[1 := 1]), 1, 3), [NONE], {})
    ensures Reached(1, w') && w' == Service(Alone([APPEND], Holding("x", map[]), 1, 3), [SAVED], {SAVED})
  {
    hide Reached;
    ReachedNext(1, w, Take(0));
    var w1 := SnapDo(w, Take(0));
    assert w1.taken == {SAVED};
    ReachedNext(1, w1, Save(0, SAVED));
    var w2 := SnapDo(w1, Save(0, SAVED));
    assert w2 == Service(w.sys, [SAVED], {SAVED});
    ReachedNext(1, w2, Restart(0));
    w' := SnapDo(w2, Restart(0));
    assert map[] + SAVED.data == SAVED.data;
  }

  /** The clerk's second attempt is applied again. */
  lemma Retried(w: Service) returns (w': Service)
    requires Reached(1, w) && w == Service(Alone([APPEND], Holding("x", map[]), 1, 3), [SAVED], {SAVED})
    ensures Reached(1, w')
    ensures w' == Service(Alone([APPEND, APPEND], Holding("xx", map[1 := 1]), 2, 5), [SAVED], {SAVED})
  {
    hide Reached;
    ReachedNext(1, w, Plain(Commit(APPEND)));
    var w1 := SnapDo(w, Plain(Commit(APPEND)));
    AppendApplied([APPEND, APPEND], 1);
    w' := AppliesOne(w1, [SAVED], {SAVED}, Holding("x", map[]), 1, Holding("xx", map[1 := 1]));
  }

  /** Both calls under way. */
  function Both(log: seq<Op>, v: Server, replies: set<OkReply>, now: nat): System {
    System(log, [v], replies, map[1 := 1, 2 := 1], {1, 2}, now,
           map[CallOf(APPEND) := Invocation(APPEND, 0, 0), CallOf(GET) := Invocation(GET, 5, 2)], map[], [])
  }

  function Waiting(applied: nat, answers: map<nat, bool>, opIndex: map<int, int>): Server {
    Server(KV(Holding("xx", opIndex), map[3 := [Pending(0, GET)]], answers), applied, map[0 := Handler(GET, 3)], 1)
  }

  const LOG := [APPEND, APPEND, GET]

  lemma GetAccepted(v: Server)
    requires v == Server(KV(Holding("xx", map[1 := 1]), map[], map[]), 2, map[], 0)
    ensures Accepted(v, GET, 3) == Waiting(2, map[], map[1 := 1])
  {
    assert PendingAt(v.kv, 3) == [];
    assert [] + [Pending(0, GET)] == [Pending(0, GET)];
  }

  lemma GetWaits(w: Service) returns (w': Service)
    requires Reached(1, w)
    requires w == Service(Alone([APPEND, APPEND], Holding("xx", map[1 := 1]), 2, 5), [SAVED], {SAVED})
    ensures Reached(1, w')
    ensures w' == Service(Both(LOG, Waiting(2, map[], map[1 := 1]), {}, 8), [SAVED], {SAVED})
  {
    hide Reached, Accepted;
    var invoke := Plain(Invoke(2, Get, "k", ""));
    ReachedNext(1, w, invoke);
    var w1 := SnapDo(w, invoke);
    var v := w.sys.servers[0];
    assert w1.sys == Both([APPEND, APPEND], v, {}, 6);
    ReachedNext(1, w1, Plain(Accept(0, GET, 3)));
    var w2 := SnapDo(w1, Plain(Accept(0, GET, 3)));
    GetAccepted(v);
    ReachedNext(1, w2, Plain(Commit(GET)));
    w' := SnapDo(w2, Plain(Commit(GET)));
  }

  lemma GetApplied()
    ensures AppliedNext(Waiting(2, map[], map[1 := 1]), LOG) == Waiting(3, map[0 := true], map[1 := 1, 2 := 1])
  {
    var waiters := [Pending(0, GET)];
    assert waiters[..0] == [];
    assert Notified(map[], waiters, GET) == map[0 := true];
    assert map[1 := 1][2 := 1] == map[1 := 1, 2 := 1];
  }

  /** The Get returns what the data are now. */
  lemma GetReturns(w: Service) returns (w': Service)
    requires Reached(1, w)
    requires w == Service(Both(LOG, Waiting(2, map[], map[1 := 1]), {}, 8), [SAVED], {SAVED})
    ensures Reached(1, w') && w'.sys.invoked == w.sys.invoked
    ensures CallOf(GET) in w'.sys.returned && w'.sys.returned[CallOf(GET)].value == "xx"
  {
    hide Reached, AppliedNext, Ended;
    ReachedNext(1, w, Plain(ApplyNext(0)));
    var w1 := SnapDo(w, Plain(ApplyNext(0)));
    GetApplied();
    var v := Waiting(3, map[0 := true], map[1 := 1, 2 := 1]);
    assert w1.sys == Both(LOG, v, {}, 9);
    ReachedNext(1, w1, Plain(Answer(0, 0)));
    var w2 := SnapDo(w1, Plain(Answer(0, 0)));
    var reply := OkReply(GET, "xx", 3);
    assert Answers(v, 0) == {reply};
    assert w2.sys == Both(LOG, Ended(v, 0), {reply}, 10);
    ReachedNext(1, w2, Plain(Finish(reply)));
    w' := SnapDo(w2, Plain(Finish(reply)));
  }

  /** With one Append of x and one Get no sequential order gives xx. */
  lemma NoOrderExplains(s: System, items: seq<Item>)
    requires s.invoked.Keys == {CallOf(APPEND), CallOf(GET)}
    requires s.invoked[CallOf(APPEND)].op == APPEND && s.invoked[CallOf(GET)].op == GET
    requires CallOf(GET) in s.returned && s.returned[CallOf(GET)].value == "xx"
    ensures !IsLinearization(s, items)
  {
    hide Legal, LegalNext, Effects, Ops;
    if IsLinearization(s, items) {
      assert Includes(items, GET, "xx");
      var x :| 0 <= x < |items| && items[x].op == GET && items[x].value == "xx";
      forall y | 0 <= y < x ensures items[y].op == APPEND {
        assert WasInvoked(s, items[y].op) && !SameCall(items[y].op, items[x].op);
      }
      assert x > 1 ==> !SameCall(items[0].op, items[1].op);
      DataBefore(items, x);
      LegalPrefix(items, x);
      NotExplained(Effects(map[], Ops(items[..x])), items[x]);
    }
  }

  lemma NotExplained(data: map<string, string>, it: Item)
    requires data == map[] || data == map["k" := "x"]
    requires it.op == GET && it.value == "xx"
    ensures !LegalNext(data, it)
  {
    assert |"x"| != |"xx"|;
  }

  lemma DataBefore(items: seq<Item>, x: nat)
    requires x <= 1 && x < |items| && (x == 1 ==> items[0].op == APPEND)
    ensures Effects(map[], Ops(items[..x])) == if x == 0 then map[] else map["k" := "x"]
  {
    assert "" + "x" == "x";
    assert Effects(map[], [APPEND][..0]) == map[];
    assert x == 1 ==> Ops(items[..1]) == [APPEND];
  }

  lemma {:induction false} LegalPrefix(items: seq<Item>, x: nat)
    requires Legal(items) && x < |items|
    ensures LegalNext(Effects(map[], Ops(items[..x])), items[x])
    decreases |items|
  {
    hide Effects, Ops, LegalNext;
    var front := items[..|items| - 1];
    if x < |front| {
      LegalPrefix(front, x);
      assert front[..x] == items[..x];
    }
  }

  /** The guard is needed: with one server and one retry the service with snapshots is not linearizable. */
  lemma SnapshotsLoseLinearizability() returns (run: seq<Service>, s: System)
    ensures IsSnapRun(1, run) && run[|run| - 1].sys == s && forall items :: !IsLinearization(s, items)
  {
    hide IsLinearization, SnapDo, SnapNext, SnapInitial;
    var w := AppliedOnce();
    w := Restarted(w);
    w := Retried(w);
    w := GetWaits(w);
    w := GetReturns(w);
    run :| IsSnapRun(1, run) && run[|run| - 1] == w;
    s := w.sys;
    forall items ensures !IsLinearization(s, items) {
      NoOrderExplains(s, items);
    }
  }
}
