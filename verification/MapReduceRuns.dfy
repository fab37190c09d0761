/**
  * The distributed run of a job as a transition system: workers register, schedule() hands out tasks over its channel,
  * calls fail or succeed, executions advance one file operation at a time, stop anywhere, and may go on after their
  * call was given up.
  */
module MapReduceRuns {
  import opened MapReduce
  import opened MapReduceSchedule
  import opened MapReduceExecution

  datatype Stage =
    | InPhase(s: Schedule)
    | Panicked
    | Fatal
    | Merging(i: nat, pos: nat, kvs: map<string, string>)   // merge() reading the output of reduce task i
    | Completed(out: seq<KeyValue>)

  /** `execs` has every execution that was ever started. */
  datatype Master = Master(workers: seq<string>, stage: Stage, disk: Disk, execs: seq<Exec>)

  datatype Step =
    | Register(w: string)
    | Act(move: Move)
    | Advance(id: nat, key: string)
    | Stop(id: nat)                      // the worker stops in the middle of an execution
    | Die(id: nat)                       // a reduce task finds an input missing
    | NextPhase
    | StartMerge
    | ReadMerged
    | EndMerge(out: seq<KeyValue>)

  function FileNames(job: Job): seq<string> {
    seq(|job.inputs|, i requires 0 <= i < |job.inputs| => job.inputs[i].name)
  }

  predicate PhaseOver(m: Master, phase: Phase) {
    m.stage.InPhase? && m.stage.s.phase == phase && m.stage.s.pending == 0
  }

  ghost predicate Enabled(job: Job, m: Master, step: Step)
    requires job.nReduce >= 1
  {
    match step
    case Register(w) => w !in m.workers
    case Act(move) =>
      && m.stage.InPhase? && CanMove(m.workers, m.stage.s, move)
      && (move.Succeed? ==>
            var e := m.stage.s.routines[move.t].exec;
            e < |m.execs| && m.execs[e].pc.Ended?)
    case Advance(id, key) =>
      id < |m.execs| && WellPlaced(job, m.execs[id]) && CanAdvance(job, m.execs[id], m.disk, key)
    case Stop(id) => id < |m.execs| && Live(m.execs[id])
    case Die(id) =>
      && id < |m.execs| && m.execs[id].pc.Reading? && m.execs[id].pc.i < |job.inputs|
      && Intermediate(m.execs[id].pc.i, m.execs[id].task.number) !in m.disk
    case NextPhase => PhaseOver(m, MapPhase)
    case StartMerge => PhaseOver(m, ReducePhase)
    case ReadMerged => m.stage.Merging? && m.stage.i < job.nReduce
    case EndMerge(out) => m.stage.Merging? && m.stage.i == job.nReduce && Lists(out, m.stage.kvs)
  }

  function StartedBy(s: Schedule, move: Move): seq<Exec> {
    if move.Take? || move.TakeReturned? then [Started(Task(s.phase, move.t))] else []
  }

  function AfterRead(m: Master): Stage
    requires m.stage.Merging?
  {
    var i, pos, kvs := m.stage.i, m.stage.pos, m.stage.kvs;
    if Merged(i) !in m.disk then Fatal
    else
      var file := m.disk[Merged(i)];
      if pos in file then Merging(i, pos + 1, kvs[file[pos].key := file[pos].value]) else Merging(i + 1, 0, kvs)
  }

  ghost function Do(job: Job, m: Master, step: Step): Master
    requires job.nReduce >= 1 && Enabled(job, m, step)
  {
    match step
    case Register(w) => m.(workers := m.workers + [w])
    case Act(move) =>
      m.(stage := InPhase(Moved(m.workers, m.stage.s, move, |m.execs|)), execs := m.execs + StartedBy(m.stage.s, move))
    case Advance(id, key) =>
      var e := m.execs[id];
      m.(disk := NextDisk(job, e, m.disk, key), execs := m.execs[id := e.(pc := NextPc(job, e, m.disk, key))])
    case Stop(id) => m.(execs := m.execs[id := m.execs[id].(pc := Stopped)])
    case Die(_) => m.(stage := Fatal)
    case NextPhase =>
      m.(stage := match PhaseArgs(FileNames(job), job.nReduce, ReducePhase)
                  case Some(_) => InPhase(NewSchedule(job, ReducePhase))
                  case None => Panicked)
    case StartMerge => m.(stage := Merging(0, 0, map[]))
    case ReadMerged => m.(stage := AfterRead(m))
    case EndMerge(out) => m.(stage := Completed(out))
  }

  function Initial(job: Job): Master {
    Master([], InPhase(NewSchedule(job, MapPhase)), map[], [])
  }

  ghost predicate Next(job: Job, m: Master, m': Master)
    requires job.nReduce >= 1
  {
    exists step :: Enabled(job, m, step) && m' == Do(job, m, step)
  }

  ghost predicate IsRun(job: Job, run: seq<Master>) {
    && job.nReduce >= 1 && |run| > 0 && run[0] == Initial(job)
    && forall k :: 0 <= k < |run| - 1 ==> Next(job, run[k], run[k + 1])
  }

  // Runs without stale writes ------------------------------------------------------------------------

  /** No later execution of the same task was started. */
  predicate Newest(execs: seq<Exec>, id: nat): (newest: bool)
    ensures newest ==> id < |execs|
  {
    id < |execs| && forall j :: id < j < |execs| ==> execs[j].task != execs[id].task
  }

  /** A reduce execution about to write finds what it wrote before at the start of the file. */
  ghost predicate InPlace(e: Exec, disk: Disk) {
    e.pc.Writing? && e.pc.open && !AllWritten(e.pc.read, e.pc.out) ==>
      var file := FileAt(disk, Merged(e.task.number));
      forall x :: 0 <= x < |e.pc.out| ==> x in file && file[x] == e.pc.out[x]
  }

  /** An execution whose task was given out again changes no file any more: what it writes is there already. */
  ghost predicate Quiet(job: Job, m: Master, step: Step)
    requires job.nReduce >= 1 && Enabled(job, m, step)
  {
    step.Advance? ==>
      || Newest(m.execs, step.id)
      || (NextDisk(job, m.execs[step.id], m.disk, step.key) == m.disk && InPlace(m.execs[step.id], m.disk))
  }

  ghost predicate NextQuiet(job: Job, m: Master, m': Master)
    requires job.nReduce >= 1
  {
    exists step :: Enabled(job, m, step) && Quiet(job, m, step) && m' == Do(job, m, step)
  }

  ghost predicate IsQuietRun(job: Job, run: seq<Master>) {
    && job.nReduce >= 1 && |run| > 0 && run[0] == Initial(job)
    && forall k :: 0 <= k < |run| - 1 ==> NextQuiet(job, run[k], run[k + 1])
  }

  lemma QuietRunIsRun(job: Job, run: seq<Master>)
    requires IsQuietRun(job, run)
    ensures IsRun(job, run)
  {
    forall k | 0 <= k < |run| - 1 ensures Next(job, run[k], run[k + 1]) {
      assert NextQuiet(job, run[k], run[k + 1]);
    }
  }

  // What every run keeps -----------------------------------------------------------------------------

  ghost predicate HasEnded(execs: seq<Exec>, task: Task) {
    exists id :: 0 <= id < |execs| && execs[id] == Exec(task, Ended)
  }

  /** A call started an execution of its task, and a task is done only after one has ended. */
  ghost predicate RoutineInv(execs: seq<Exec>, task: Task, r: Routine) {
    && (r.Calling? ==> r.exec < |execs| && execs[r.exec].task == task)
    && (Done(r) ==> HasEnded(execs, task))
  }

  ghost predicate BaseInv(job: Job, m: Master)
    requires job.nReduce >= 1
  {
    && Distinct(m.workers)
    && (forall id :: 0 <= id < |m.execs| ==> WellPlaced(job, m.execs[id]))
    && (m.stage.InPhase? ==>
          && SchedInv(job, m.workers, m.stage.s)
          && forall t :: 0 <= t < |m.stage.s.routines| ==>
               RoutineInv(m.execs, Task(m.stage.s.phase, t), m.stage.s.routines[t]))
  }

  /** Executions keep their tasks, and the ended ones stay ended. */
  ghost predicate Later(execs: seq<Exec>, execs': seq<Exec>) {
    && |execs| <= |execs'|
    && forall id :: 0 <= id < |execs| ==>
         execs'[id].task == execs[id].task && (execs[id].pc.Ended? ==> execs'[id].pc.Ended?)
  }

  lemma RoutineLater(execs: seq<Exec>, execs': seq<Exec>, task: Task, r: Routine)
    requires RoutineInv(execs, task, r) && Later(execs, execs')
    ensures RoutineInv(execs', task, r)
  {
    if Done(r) {
      var id :| 0 <= id < |execs| && execs[id] == Exec(task, Ended);
      assert execs'[id] == Exec(task, Ended);
    }
  }

  lemma ActBase(job: Job, m: Master, move: Move)
    requires job.nReduce >= 1 && BaseInv(job, m) && Enabled(job, m, Act(move))
    ensures BaseInv(job, Do(job, m, Act(move)))
  {
    hide Conserved;
    var s, m' := m.stage.s, Do(job, m, Act(move));
    MoveKeeps(job, m.workers, s, move, |m.execs|);
    assert Later(m.execs, m'.execs);
    if move.Take? || move.TakeReturned? {
      StartedProgress(job, m.disk, Task(s.phase, move.t));
    }
    forall t | 0 <= t < |s.routines| ensures RoutineInv(m'.execs, Task(s.phase, t), m'.stage.s.routines[t]) {
      RoutineLater(m.execs, m'.execs, Task(s.phase, t), s.routines[t]);
      if move.Succeed? && t == move.t {
        assert m.execs[s.routines[t].exec] == Exec(Task(s.phase, t), Ended);
      } else if move.TakeReturned? && t == move.u {
        assert Done(s.routines[t]);
      }
    }
  }

  lemma ExecBase(job: Job, m: Master, m': Master)
    requires job.nReduce >= 1 && BaseInv(job, m) && m'.workers == m.workers && m'.stage == m.stage
    requires Later(m.execs, m'.execs) && forall id :: 0 <= id < |m'.execs| ==> WellPlaced(job, m'.execs[id])
    ensures BaseInv(job, m')
  {
    hide SchedInv, RoutineInv;
    if m.stage.InPhase? {
      var s := m.stage.s;
      forall t | 0 <= t < |s.routines| ensures RoutineInv(m'.execs, Task(s.phase, t), s.routines[t]) {
        RoutineLater(m.execs, m'.execs, Task(s.phase, t), s.routines[t]);
      }
    }
  }

  lemma NewPhaseBase(job: Job, m: Master, phase: Phase)
    requires job.nReduce >= 1 && BaseInv(job, m)
    ensures BaseInv(job, m.(stage := InPhase(NewSchedule(job, phase))))
  {
    NewScheduleInv(job, m.workers, phase);
  }

  lemma StepBase(job: Job, m: Master, step: Step)
    requires job.nReduce >= 1 && BaseInv(job, m) && Enabled(job, m, step)
    ensures BaseInv(job, Do(job, m, step))
  {
    hide SchedInv, RoutineInv, WellPlaced, CanAdvance, Moved, CanMove;
    match step
    case Register(w) =>
      if m.stage.InPhase? {
        RegisterKeeps(job, m.workers, m.stage.s, w);
      }
    case Act(move) => ActBase(job, m, move);
    case Advance(id, key) =>
      StaysWellPlaced(job, m.execs[id], m.disk, key);
      EndedCannotAdvance(job, m, id, key);
      ExecBase(job, m, Do(job, m, step));
    case Stop(id) =>
      StoppedIsPlaced(job, m.execs[id]);
      ExecBase(job, m, Do(job, m, step));
    case NextPhase => NewPhaseBase(job, m, ReducePhase);
    case _ =>
  }

  lemma StoppedIsPlaced(job: Job, e: Exec)
    requires job.nReduce >= 1 && WellPlaced(job, e)
    ensures WellPlaced(job, e.(pc := Stopped))
  {
  }

  lemma EndedCannotAdvance(job: Job, m: Master, id: nat, key: string)
    requires job.nReduce >= 1 && Enabled(job, m, Advance(id, key))
    ensures Live(m.execs[id])
  {
  }

  lemma InitialBase(job: Job)
    requires job.nReduce >= 1
    ensures BaseInv(job, Initial(job))
  {
    NewScheduleInv(job, [], MapPhase);
  }

  lemma {:induction false} RunBase(job: Job, run: seq<Master>, b: nat)
    requires IsRun(job, run) && b < |run|
    ensures BaseInv(job, run[b])
  {
    hide BaseInv, Enabled;
    if b == 0 {
      InitialBase(job);
    } else {
      RunBase(job, run, b - 1);
      assert Next(job, run[b - 1], run[b - 1 + 1]);
      var step :| Enabled(job, run[b - 1], step) && run[b] == Do(job, run[b - 1], step);
      StepBase(job, run[b - 1], step);
    }
  }

  /** A worker that was offered is idle, or with one goroutine, or dropped: never in two places, never lost. */
  lemma OnePlacePerWorker(job: Job, run: seq<Master>, b: nat, w: string)
    requires IsRun(job, run) && b < |run| && run[b].stage.InPhase?
    ensures var s := run[b].stage.s;
            && s.forwarded <= |run[b].workers|
            && (w in run[b].workers[..s.forwarded] <==> w in s.offered || w in s.dropped || Held(s, w))
            && !(w in s.offered && w in s.dropped)
            && !(Held(s, w) && (w in s.offered || w in s.dropped))
            && (forall t, u :: 0 <= t < u < |s.routines| ==> !(Holds(s.routines[t], w) && Holds(s.routines[u], w)))
  {
    RunBase(job, run, b);
    var s := run[b].stage.s;
    assert Conserved(run[b].workers, s);
  }

  lemma StepDrops(job: Job, m: Master, step: Step)
    requires job.nReduce >= 1 && Enabled(job, m, step) && m.stage.InPhase?
    ensures var m' := Do(job, m, step);
            m'.stage.InPhase? && m'.stage.s.phase == m.stage.s.phase && step != NextPhase ==>
              m.stage.s.dropped <= m'.stage.s.dropped
  {
    hide WellPlaced, CanAdvance, NextDisk, NextPc;
    if step.Act? {
      MoveDrops(m.workers, m.stage.s, step.move, |m.execs|);
    }
  }

  /** Along the states of one phase. */
  ghost predicate SamePhase(run: seq<Master>, phase: Phase, a: nat, b: nat) {
    a <= b < |run| && forall k :: a <= k <= b ==> run[k].stage.InPhase? && run[k].stage.s.phase == phase
  }

  lemma {:induction false} DroppedStays(job: Job, run: seq<Master>, phase: Phase, a: nat, b: nat)
    requires IsRun(job, run) && SamePhase(run, phase, a, b)
    ensures run[a].stage.InPhase? && run[b].stage.InPhase? && run[a].stage.s.dropped <= run[b].stage.s.dropped
    decreases b
  {
    hide Enabled;
    if a < b {
      DroppedStays(job, run, phase, a, b - 1);
      assert Next(job, run[b - 1], run[b - 1 + 1]);
      var step :| Enabled(job, run[b - 1], step) && run[b] == Do(job, run[b - 1], step);
      InPhaseStep(job, run[b - 1], step);
      StepDrops(job, run[b - 1], step);
    }
  }

  lemma InPhaseStep(job: Job, m: Master, step: Step)
    requires job.nReduce >= 1 && Enabled(job, m, step) && m.stage.InPhase?
    ensures Do(job, m, step).stage.InPhase? && Do(job, m, step).stage.s.phase == m.stage.s.phase ==> step != NextPhase
  {
  }

  /** A worker whose call failed gets no other task of the phase. */
  lemma FailedIsNotCalled(job: Job, run: seq<Master>, phase: Phase, a: nat, t: nat, b: nat)
    requires IsRun(job, run) && SamePhase(run, phase, a, b) && a < b && run[a].stage.InPhase?
    requires Enabled(job, run[a], Act(Fail(t))) && run[a + 1] == Do(job, run[a], Act(Fail(t)))
    ensures run[b].stage.InPhase? && !Held(run[b].stage.s, run[a].stage.s.routines[t].worker)
  {
    var w := run[a].stage.s.routines[t].worker;
    MoveDrops(run[a].workers, run[a].stage.s, Fail(t), |run[a].execs|);
    DroppedStays(job, run, phase, a + 1, b);
    RunBase(job, run, b);
    assert Conserved(run[b].workers, run[b].stage.s);
  }

  /** The wait group is zero exactly when every task's call has succeeded, and each has then been executed to its end. */
  lemma ReturnsIffAllSucceeded(job: Job, run: seq<Master>, b: nat)
    requires IsRun(job, run) && b < |run| && run[b].stage.InPhase?
    ensures var s := run[b].stage.s;
            && s.pending >= 0
            && (s.pending == 0 <==> forall t :: 0 <= t < |s.routines| ==> Done(s.routines[t]))
            && (s.pending == 0 ==>
                  forall t :: 0 <= t < TaskCount(job, s.phase) ==> HasEnded(run[b].execs, Task(s.phase, t)))
  {
    hide Conserved;
    RunBase(job, run, b);
    var s := run[b].stage.s;
    PendingZeroIff(s.routines);
    if s.pending == 0 {
      forall t | 0 <= t < |s.routines| ensures Done(s.routines[t]) && HasEnded(run[b].execs, Task(s.phase, t)) {
        assert RoutineInv(run[b].execs, Task(s.phase, t), s.routines[t]);
      }
    }
  }

  // What runs without stale writes keep --------------------------------------------------------------

  /** The newest execution of the task has ended. */
  ghost predicate Settled(execs: seq<Exec>, task: Task) {
    exists id: nat :: Newest(execs, id) && execs[id] == Exec(task, Ended)
  }

  ghost predicate AllSettled(job: Job, execs: seq<Exec>, phase: Phase) {
    forall t :: 0 <= t < TaskCount(job, phase) ==> Settled(execs, Task(phase, t))
  }

  predicate InMapPhase(m: Master) {
    m.stage.InPhase? && m.stage.s.phase == MapPhase
  }

  ghost predicate RoutineQuiet(execs: seq<Exec>, task: Task, r: Routine) {
    && (r.Calling? ==> Newest(execs, r.exec) && execs[r.exec].task == task)
    && (Done(r) ==> Settled(execs, task))
  }

  /** merge() has collected what the outputs in `files` hold up to where it is. */
  ghost predicate Collected(files: Files, nReduce: nat, i: nat, pos: nat, kvs: map<string, string>) {
    && AllMerged(files, nReduce)
    && (if i == nReduce then pos == 0 && kvs == Union(files, i)
        else i < nReduce && pos <= |files[Merged(i)]| && kvs == Put(Union(files, i), files[Merged(i)][..pos]))
  }

  ghost predicate MergeProgress(job: Job, disk: Disk, i: nat, pos: nat, kvs: map<string, string>)
    requires job.nReduce >= 1
  {
    var files := ViewOf(disk);
    MapsDone(files, job) && ReducesDone(files, job) && Collected(files, job.nReduce, i, pos, kvs)
  }

  /** Every file as a decoder sees it. */
  function ViewOf(disk: Disk): Files {
    map f | f in disk :: Contents(disk[f])
  }

  ghost predicate StageQuiet(job: Job, m: Master)
    requires job.nReduce >= 1
  {
    match m.stage
    case InPhase(s) =>
      && (forall t :: 0 <= t < |s.routines| ==> RoutineQuiet(m.execs, Task(s.phase, t), s.routines[t]))
      && (s.phase == ReducePhase ==> job.nReduce <= |job.inputs|)
    case Panicked => job.nReduce > |job.inputs|
    case Fatal => false
    case Merging(i, pos, kvs) =>
      && AllSettled(job, m.execs, ReducePhase) && MergeProgress(job, m.disk, i, pos, kvs)
      && job.nReduce <= |job.inputs|
    case Completed(out) =>
      && IsGroupReduce(out, AllEmitted(job, |job.inputs|), job.reduceF)
      && job.nReduce <= |job.inputs|
  }

  ghost predicate ExecsQuiet(job: Job, m: Master)
    requires job.nReduce >= 1
  {
    && (forall id: nat :: Newest(m.execs, id) ==> Progress(job, m.disk, m.execs[id]))
    && (if InMapPhase(m) then forall id :: 0 <= id < |m.execs| ==> m.execs[id].task.phase == MapPhase
        else AllSettled(job, m.execs, MapPhase))
  }

  ghost predicate QuietInv(job: Job, m: Master)
    requires job.nReduce >= 1
  {
    StageQuiet(job, m) && ExecsQuiet(job, m)
  }

  lemma SettledProgress(job: Job, m: Master, task: Task)
    requires job.nReduce >= 1 && ExecsQuiet(job, m) && Settled(m.execs, task)
    ensures Progress(job, m.disk, Exec(task, Ended))
  {
  }

  /** Outside the map phase all intermediate files are right. */
  lemma MapsAreWhole(job: Job, m: Master)
    requires job.nReduce >= 1 && ExecsQuiet(job, m) && AllSettled(job, m.execs, MapPhase)
    ensures MapsWhole(job, m.disk)
  {
    hide ExecsQuiet, Settled, Whole;
    forall k, r | 0 <= k < |job.inputs| && 0 <= r < job.nReduce ensures Whole(job, m.disk, k, r) {
      SettledProgress(job, m, Task(MapPhase, k));
    }
  }

  lemma {:induction false} ReadAllRight(job: Job, disk: Disk, r: nat, n: nat)
    requires job.nReduce >= 1 && MapsWhole(job, disk) && r < job.nReduce && n <= |job.inputs|
    ensures Ready(ViewOf(disk), n, r) && ReadAll(ViewOf(disk), n, r) == RightInput(job, r, n)
    decreases n
  {
    hide Bucket, Contents;
    if n > 0 {
      ReadAllRight(job, disk, r, n - 1);
      assert Whole(job, disk, n - 1, r);
      ContentsOf(Bucket(job, Emitted(job, n - 1), r));
    }
  }

  lemma ViewMapsDone(job: Job, disk: Disk)
    requires job.nReduce >= 1 && MapsWhole(job, disk)
    ensures MapsDone(ViewOf(disk), job)
  {
    hide Bucket, Contents;
    var files := ViewOf(disk);
    forall m, r | 0 <= m < |job.inputs| && 0 <= r < job.nReduce
      ensures Intermediate(m, r) in files && files[Intermediate(m, r)] == Bucket(job, Emitted(job, m), r)
    {
      assert Whole(job, disk, m, r);
      ContentsOf(Bucket(job, Emitted(job, m), r));
    }
  }

  lemma ViewReduceDone(job: Job, m: Master, r: nat)
    requires job.nReduce >= 1 && ExecsQuiet(job, m) && MapsWhole(job, m.disk)
    requires r < job.nReduce && Settled(m.execs, Task(ReducePhase, r))
    ensures ReduceDone(ViewOf(m.disk), job, r)
  {
    hide ExecsQuiet, Settled, MapsWhole, Contents, IsReduced;
    SettledProgress(job, m, Task(ReducePhase, r));
    ReadAllRight(job, m.disk, r, |job.inputs|);
    var out :| Has(m.disk, Merged(r), out) && IsReduced(out, RightInput(job, r, |job.inputs|), job.reduceF);
    ContentsOf(out);
  }

  /** When all tasks are settled, what merge starts from is right. */
  lemma MergeStarts(job: Job, m: Master)
    requires job.nReduce >= 1 && ExecsQuiet(job, m)
    requires AllSettled(job, m.execs, MapPhase) && AllSettled(job, m.execs, ReducePhase)
    ensures MergeProgress(job, m.disk, 0, 0, map[])
  {
    hide ExecsQuiet, MapsWhole, MapsDone, Settled;
    MapsAreWhole(job, m);
    ViewMapsDone(job, m.disk);
    var files := ViewOf(m.disk);
    forall r | 0 <= r < job.nReduce ensures ReduceDone(files, job, r) {
      assert Settled(m.execs, Task(ReducePhase, r));
      ViewReduceDone(job, m, r);
    }
    AllReducesMerged(files, job);
    assert files[Merged(0)][..0] == [];
  }

  lemma PutSnoc(kvs: map<string, string>, pairs: seq<KeyValue>, kv: KeyValue)
    ensures Put(kvs, pairs + [kv]) == Put(kvs, pairs)[kv.key := kv.value]
  {
    assert (pairs + [kv])[..|pairs + [kv]| - 1] == pairs;
  }

  lemma PutNothing(kvs: map<string, string>)
    ensures Put(kvs, []) == kvs
  {
  }

  /** One pair of an output, or its end. */
  lemma CollectsNext(m: Master, files: Files, nReduce: nat)
    requires m.stage.Merging? && m.stage.i < nReduce
    requires Collected(files, nReduce, m.stage.i, m.stage.pos, m.stage.kvs)
    requires Decodes(m.disk, Merged(m.stage.i), files[Merged(m.stage.i)])
    ensures var next := AfterRead(m); next.Merging? && Collected(files, nReduce, next.i, next.pos, next.kvs)
  {
    hide Put, Contents;
    var i, pos, pairs := m.stage.i, m.stage.pos, files[Merged(m.stage.i)];
    ContentsAt(m.disk[Merged(i)]);
    if pos < |pairs| {
      PutSnoc(Union(files, i), pairs[..pos], pairs[pos]);
      assert pairs[..pos + 1] == pairs[..pos] + [pairs[pos]];
    } else {
      assert pairs[..pos] == pairs;
      PutNothing(Union(files, i + 1));
      assert i + 1 < nReduce ==> files[Merged(i + 1)][..0] == [];
    }
  }

  lemma MergeReads(job: Job, m: Master)
    requires job.nReduce >= 1 && QuietInv(job, m) && Enabled(job, m, ReadMerged)
    ensures var next := AfterRead(m); next.Merging? && MergeProgress(job, m.disk, next.i, next.pos, next.kvs)
  {
    hide ExecsQuiet, MapsDone, ReducesDone, Contents, AllSettled, Collected, IsGroupReduce;
    CollectedIsMerged(ViewOf(m.disk), job.nReduce, m.stage.i, m.stage.pos, m.stage.kvs);
    CollectsNext(m, ViewOf(m.disk), job.nReduce);
  }

  lemma CollectedIsMerged(files: Files, nReduce: nat, i: nat, pos: nat, kvs: map<string, string>)
    requires Collected(files, nReduce, i, pos, kvs)
    ensures AllMerged(files, nReduce)
  {
  }

  // Steps --------------------------------------------------------------------------------------------

  lemma NewestAppended(execs: seq<Exec>, e: Exec, id: nat)
    ensures Newest(execs + [e], id) <==> id == |execs| || (Newest(execs, id) && execs[id].task != e.task)
  {
    var execs' := execs + [e];
    if Newest(execs', id) && id < |execs| {
      assert execs'[|execs|].task != execs'[id].task;
      forall j | id < j < |execs| ensures execs[j].task != execs[id].task {
        assert execs'[j].task != execs'[id].task;
      }
    }
  }

  lemma SettledAppended(execs: seq<Exec>, e: Exec, task: Task)
    requires Settled(execs, task) && task != e.task
    ensures Settled(execs + [e], task)
  {
    var id: nat :| Newest(execs, id) && execs[id] == Exec(task, Ended);
    NewestAppended(execs, e, id);
    assert (execs + [e])[id] == Exec(task, Ended);
  }

  lemma AppendedExecs(job: Job, m: Master, m': Master, e: Exec)
    requires job.nReduce >= 1 && ExecsQuiet(job, m) && Progress(job, m.disk, e)
    requires m'.execs == m.execs + [e] && m'.disk == m.disk && InMapPhase(m) == InMapPhase(m')
    requires e.task.phase == MapPhase <==> InMapPhase(m)
    ensures ExecsQuiet(job, m')
  {
    hide Progress, Settled, Newest;
    forall id: nat | Newest(m'.execs, id) ensures Progress(job, m'.disk, m'.execs[id]) {
      NewestAppended(m.execs, e, id);
    }
    if !InMapPhase(m) {
      forall t | 0 <= t < |job.inputs| ensures Settled(m'.execs, Task(MapPhase, t)) {
        SettledAppended(m.execs, e, Task(MapPhase, t));
      }
    }
  }

  lemma AppendedRoutine(execs: seq<Exec>, e: Exec, task: Task, r: Routine)
    requires RoutineQuiet(execs, task, r) && task != e.task
    ensures RoutineQuiet(execs + [e], task, r)
  {
    if r.Calling? {
      NewestAppended(execs, e, r.exec);
    }
    if Done(r) {
      SettledAppended(execs, e, task);
    }
  }

  lemma TakeQuiet(job: Job, m: Master, move: Move)
    requires job.nReduce >= 1 && BaseInv(job, m) && QuietInv(job, m) && Enabled(job, m, Act(move))
    requires move.Take? || move.TakeReturned?
    ensures QuietInv(job, Do(job, m, Act(move)))
  {
    hide Progress, WellPlaced, Conserved, Settled, RoutineQuiet, Newest;
    var s, m' := m.stage.s, Do(job, m, Act(move));
    var e := Started(Task(s.phase, move.t));
    StartedProgress(job, m.disk, e.task);
    AppendedExecs(job, m, m', e);
    forall t | 0 <= t < |s.routines| ensures RoutineQuiet(m'.execs, Task(s.phase, t), m'.stage.s.routines[t]) {
      if t == move.t {
        FreshCall(m.execs, e, m'.stage.s.routines[t]);
      } else {
        AppendedRoutine(m.execs, e, Task(s.phase, t), s.routines[t]);
        StillDone(m'.execs, Task(s.phase, t), s.routines[t], m'.stage.s.routines[t]);
      }
    }
  }

  lemma FreshCall(execs: seq<Exec>, e: Exec, r: Routine)
    requires r.Calling? && r.exec == |execs|
    ensures RoutineQuiet(execs + [e], e.task, r)
  {
  }

  lemma StillDone(execs: seq<Exec>, task: Task, r: Routine, r': Routine)
    requires RoutineQuiet(execs, task, r) && (r' == r || (Done(r) && Done(r')) || !(Done(r') || r'.Calling?))
    ensures RoutineQuiet(execs, task, r')
  {
  }

  lemma OtherMoveQuiet(job: Job, m: Master, move: Move)
    requires job.nReduce >= 1 && BaseInv(job, m) && QuietInv(job, m) && Enabled(job, m, Act(move))
    requires !move.Take? && !move.TakeReturned?
    ensures QuietInv(job, Do(job, m, Act(move)))
  {
    hide Progress, WellPlaced, Conserved;
    var s, m' := m.stage.s, Do(job, m, Act(move));
    assert m'.execs == m.execs;
    forall t | 0 <= t < |s.routines| ensures RoutineQuiet(m'.execs, Task(s.phase, t), m'.stage.s.routines[t]) {
      var r := s.routines[t];
      assert RoutineQuiet(m.execs, Task(s.phase, t), r);
      if move.Succeed? && t == move.t {
        assert m.execs[r.exec] == Exec(Task(s.phase, t), Ended);
      }
    }
  }

  /** Replacing an execution by a later point of itself leaves every task's newest one where it is. */
  lemma NewestUpdated(execs: seq<Exec>, id: nat, e: Exec, j: nat)
    requires id < |execs| && e.task == execs[id].task
    ensures Newest(execs[id := e], j) <==> Newest(execs, j)
  {
    var execs' := execs[id := e];
    assert forall k :: 0 <= k < |execs| ==> execs'[k].task == execs[k].task;
  }

  lemma SettledUpdated(execs: seq<Exec>, id: nat, e: Exec, task: Task)
    requires id < |execs| && e.task == execs[id].task && Live(execs[id]) && Settled(execs, task)
    ensures Settled(execs[id := e], task)
  {
    var j: nat :| Newest(execs, j) && execs[j] == Exec(task, Ended);
    NewestUpdated(execs, id, e, j);
    assert execs[id := e][j] == Exec(task, Ended);
  }

  /** One execution moved, and with it only files that are its own. */
  lemma UpdatedQuiet(job: Job, m: Master, m': Master, id: nat, e: Exec)
    requires job.nReduce >= 1 && QuietInv(job, m) && id < |m.execs| && e.task == m.execs[id].task && Live(m.execs[id])
    requires m' == m.(execs := m.execs[id := e], disk := m'.disk)
    requires m.stage.Merging? ==> m'.disk == m.disk
    requires forall j: nat :: Newest(m.execs, j) ==> Progress(job, m'.disk, if j == id then e else m.execs[j])
    ensures QuietInv(job, m')
  {
    hide Progress, Settled, Newest, MergeProgress;
    forall j: nat | Newest(m'.execs, j) ensures Progress(job, m'.disk, m'.execs[j]) {
      NewestUpdated(m.execs, id, e, j);
    }
    forall task | Settled(m.execs, task) ensures Settled(m'.execs, task) {
      SettledUpdated(m.execs, id, e, task);
    }
    if m.stage.InPhase? {
      var s := m.stage.s;
      forall t | 0 <= t < |s.routines| ensures RoutineQuiet(m'.execs, Task(s.phase, t), s.routines[t]) {
        assert RoutineQuiet(m.execs, Task(s.phase, t), s.routines[t]);
        if s.routines[t].Calling? {
          NewestUpdated(m.execs, id, e, s.routines[t].exec);
        }
      }
    }
  }

  lemma NewestUnique(execs: seq<Exec>, i: nat, j: nat)
    requires Newest(execs, i) && Newest(execs, j) && execs[i].task == execs[j].task
    ensures i == j
  {
  }

  /** A settled task's newest execution has ended. */
  lemma NewestOfSettled(execs: seq<Exec>, id: nat)
    requires Newest(execs, id) && Settled(execs, execs[id].task)
    ensures execs[id].pc.Ended?
  {
    var j: nat :| Newest(execs, j) && execs[j] == Exec(execs[id].task, Ended);
    NewestUnique(execs, id, j);
  }

  /** A reduce execution exists only when the intermediate files are right. */
  lemma InputsInPlace(job: Job, m: Master, id: nat)
    requires job.nReduce >= 1 && ExecsQuiet(job, m) && id < |m.execs|
    ensures m.execs[id].task.phase == ReducePhase ==> MapsWhole(job, m.disk)
  {
    hide Progress, MapsWhole, Newest;
    if m.execs[id].task.phase == ReducePhase {
      MapsAreWhole(job, m);
    }
  }

  lemma NotMerging(job: Job, m: Master, id: nat)
    requires job.nReduce >= 1 && QuietInv(job, m) && Newest(m.execs, id) && Live(m.execs[id])
    requires TaskExists(job, m.execs[id].task)
    ensures !m.stage.Merging?
  {
    hide Progress, Settled, Newest, MergeProgress;
    var task := m.execs[id].task;
    assert Task(task.phase, task.number) == task;
    if Settled(m.execs, task) {
      NewestOfSettled(m.execs, id);
    }
  }

  /** An operation of one newest execution does not touch the files of another. */
  lemma OthersKeep(job: Job, m: Master, id: nat, key: string, j: nat)
    requires job.nReduce >= 1 && Enabled(job, m, Advance(id, key)) && Newest(m.execs, j) && j != id
    requires Progress(job, m.disk, m.execs[j]) && Quiet(job, m, Advance(id, key))
    ensures Progress(job, NextDisk(job, m.execs[id], m.disk, key), m.execs[j])
  {
    hide Progress, NextDisk, CanAdvance, WellPlaced;
    var disk' := NextDisk(job, m.execs[id], m.disk, key);
    if Newest(m.execs, id) {
      assert m.execs[j].task != m.execs[id].task;
      forall f | Owns(m.execs[j].task, f) ensures (f in disk' <==> f in m.disk) && (f in m.disk ==> disk'[f] == m.disk[f]) {
        WritesOwnFiles(job, m.execs[id], m.disk, key, f);
      }
      ProgressFrame(job, m.disk, disk', m.execs[j]);
    }
  }

  lemma PlacedTask(job: Job, m: Master, id: nat)
    requires job.nReduce >= 1 && BaseInv(job, m) && id < |m.execs|
    ensures WellPlaced(job, m.execs[id]) && TaskExists(job, m.execs[id].task)
  {
  }

  lemma ProgressOf(job: Job, m: Master, id: nat)
    requires job.nReduce >= 1 && QuietInv(job, m) && Newest(m.execs, id)
    ensures Progress(job, m.disk, m.execs[id])
  {
  }

  lemma AdvanceQuiet(job: Job, m: Master, id: nat, key: string)
    requires job.nReduce >= 1 && BaseInv(job, m) && QuietInv(job, m)
    requires Enabled(job, m, Advance(id, key)) && Quiet(job, m, Advance(id, key))
    ensures QuietInv(job, Do(job, m, Advance(id, key)))
  {
    hide Progress, BaseInv, Newest, NextDisk, NextPc, CanAdvance, WellPlaced, StageQuiet, MapsWhole;
    var e, m' := m.execs[id], Do(job, m, Advance(id, key));
    var e' := m'.execs[id];
    EndedCannotAdvance(job, m, id, key);
    PlacedTask(job, m, id);
    if Newest(m.execs, id) {
      InputsInPlace(job, m, id);
      ProgressOf(job, m, id);
      ProgressAdvances(job, m.disk, e, key);
      NotMerging(job, m, id);
    }
    forall j: nat | Newest(m.execs, j) ensures Progress(job, m'.disk, if j == id then e' else m.execs[j]) {
      if j != id {
        OthersKeep(job, m, id, key, j);
      }
    }
    UpdatedQuiet(job, m, m', id, e');
  }

  lemma StopQuiet(job: Job, m: Master, id: nat)
    requires job.nReduce >= 1 && BaseInv(job, m) && QuietInv(job, m) && Enabled(job, m, Stop(id))
    ensures QuietInv(job, Do(job, m, Stop(id)))
  {
    hide BaseInv, Newest, StageQuiet, QuietInv;
    PlacedTask(job, m, id);
    var e := m.execs[id].(pc := Stopped);
    forall j: nat | Newest(m.execs, j) ensures Progress(job, m.disk, if j == id then e else m.execs[j]) {
      ProgressOf(job, m, j);
    }
    UpdatedQuiet(job, m, Do(job, m, Stop(id)), id, e);
  }

  /** No reduce task ever misses an input. */
  lemma NeverDies(job: Job, m: Master, id: nat)
    requires job.nReduce >= 1 && BaseInv(job, m) && QuietInv(job, m)
    ensures !Enabled(job, m, Die(id))
  {
    hide Progress, StageQuiet, ExecsQuiet, RoutineInv, SchedInv;
    if id < |m.execs| && m.execs[id].pc.Reading? && m.execs[id].pc.i < |job.inputs| {
      PlacedTask(job, m, id);
      InputsInPlace(job, m, id);
      assert Whole(job, m.disk, m.execs[id].pc.i, m.execs[id].task.number);
    }
  }

  /** pending == 0 means that every task of the phase is settled. */
  lemma PhaseSettled(job: Job, m: Master, phase: Phase)
    requires job.nReduce >= 1 && BaseInv(job, m) && StageQuiet(job, m) && PhaseOver(m, phase)
    ensures AllSettled(job, m.execs, phase)
  {
    hide Conserved, Settled, Newest, WellPlaced;
    var s := m.stage.s;
    PendingZeroIff(s.routines);
    forall t | 0 <= t < |s.routines| ensures Settled(m.execs, Task(phase, t)) {
      assert RoutineQuiet(m.execs, Task(phase, t), s.routines[t]);
    }
  }

  lemma NextPhaseQuiet(job: Job, m: Master)
    requires job.nReduce >= 1 && BaseInv(job, m) && QuietInv(job, m) && Enabled(job, m, NextPhase)
    ensures QuietInv(job, Do(job, m, NextPhase))
  {
    hide BaseInv, Progress, Settled, Newest;
    PhaseSettled(job, m, MapPhase);
    ArgsBuiltIff(FileNames(job), job.nReduce, ReducePhase);
  }

  lemma StartMergeQuiet(job: Job, m: Master)
    requires job.nReduce >= 1 && BaseInv(job, m) && QuietInv(job, m) && Enabled(job, m, StartMerge)
    ensures QuietInv(job, Do(job, m, StartMerge))
  {
    hide BaseInv, Progress, Settled, Newest, MergeProgress;
    PhaseSettled(job, m, ReducePhase);
    MergeStarts(job, m);
  }

  lemma EndMergeQuiet(job: Job, m: Master, out: seq<KeyValue>)
    requires job.nReduce >= 1 && QuietInv(job, m) && Enabled(job, m, EndMerge(out))
    ensures QuietInv(job, Do(job, m, EndMerge(out)))
  {
    hide Progress, Settled, Newest, Lists, MapsDone, ReducesDone, IsGroupReduce, Contents, Union;
    MergeIsGroupReduce(ViewOf(m.disk), job, out);
  }

  lemma StepQuiet(job: Job, m: Master, step: Step)
    requires job.nReduce >= 1 && BaseInv(job, m) && QuietInv(job, m) && Enabled(job, m, step) && Quiet(job, m, step)
    ensures QuietInv(job, Do(job, m, step))
  {
    hide BaseInv, Progress, Settled, Newest, RoutineQuiet, MergeProgress, CanAdvance, WellPlaced, CanMove, Moved,
         NextDisk, NextPc, IsGroupReduce;
    match step
    case Register(w) =>
    case Act(move) =>
      if move.Take? || move.TakeReturned? {
        TakeQuiet(job, m, move);
      } else {
        OtherMoveQuiet(job, m, move);
      }
    case Advance(id, key) => AdvanceQuiet(job, m, id, key);
    case Stop(id) => StopQuiet(job, m, id);
    case Die(id) => NeverDies(job, m, id);
    case NextPhase => NextPhaseQuiet(job, m);
    case StartMerge => StartMergeQuiet(job, m);
    case ReadMerged => MergeReads(job, m);
    case EndMerge(out) => EndMergeQuiet(job, m, out);
  }

  lemma InitialQuiet(job: Job)
    requires job.nReduce >= 1
    ensures QuietInv(job, Initial(job))
  {
  }

  lemma {:induction false} RunQuiet(job: Job, run: seq<Master>, b: nat)
    requires IsQuietRun(job, run) && b < |run|
    ensures BaseInv(job, run[b]) && QuietInv(job, run[b])
    decreases b
  {
    hide BaseInv, QuietInv, Enabled, Quiet, Do;
    QuietRunIsRun(job, run);
    RunBase(job, run, b);
    if b == 0 {
      InitialQuiet(job);
    } else {
      RunQuiet(job, run, b - 1);
      assert NextQuiet(job, run[b - 1], run[b - 1 + 1]);
      var step :| Enabled(job, run[b - 1], step) && Quiet(job, run[b - 1], step) && run[b] == Do(job, run[b - 1], step);
      StepQuiet(job, run[b - 1], step);
    }
  }

  // Results ------------------------------------------------------------------------------------------

  /**
    * Every run without stale writes that completes gives the sequential group-and-reduce, whatever calls failed,
    * wherever workers stopped, and however late given-up executions went on reading; no task ever misses an input.
    */
  lemma DistributedIsGroupReduce(job: Job, run: seq<Master>, b: nat)
    requires IsQuietRun(job, run) && b < |run|
    ensures run[b].stage != Fatal
    ensures run[b].stage.Completed? ==> IsGroupReduce(run[b].stage.out, AllEmitted(job, |job.inputs|), job.reduceF)
  {
    RunQuiet(job, run, b);
  }

  /** So all such completed runs agree. */
  lemma RunsAgree(job: Job, run: seq<Master>, b: nat, run': seq<Master>, b': nat)
    requires IsQuietRun(job, run) && b < |run| && run[b].stage.Completed?
    requires IsQuietRun(job, run') && b' < |run'| && run'[b'].stage.Completed?
    ensures run[b].stage.out == run'[b'].stage.out
  {
    DistributedIsGroupReduce(job, run, b);
    DistributedIsGroupReduce(job, run', b');
    GroupReduceUnique(run[b].stage.out, run'[b'].stage.out, AllEmitted(job, |job.inputs|), job.reduceF);
  }

  /** When schedule() returns in such a run, every output of the phase is in place. */
  lemma OutputsInPlace(job: Job, run: seq<Master>, b: nat)
    requires IsQuietRun(job, run) && b < |run|
    ensures PhaseOver(run[b], MapPhase) ==> MapsDone(ViewOf(run[b].disk), job)
    ensures PhaseOver(run[b], ReducePhase) ==>
              MapsDone(ViewOf(run[b].disk), job) && ReducesDone(ViewOf(run[b].disk), job)
  {
    hide BaseInv, Progress, Settled, Newest, MapsWhole, MapsDone, ReducesDone;
    RunQuiet(job, run, b);
    var m := run[b];
    if PhaseOver(m, MapPhase) {
      PhaseSettled(job, m, MapPhase);
      MapsAreWhole(job, m);
      ViewMapsDone(job, m.disk);
    }
    if PhaseOver(m, ReducePhase) {
      PhaseSettled(job, m, ReducePhase);
      MergeStarts(job, m);
      MergeStartsFrom(job, m.disk);
    }
  }

  lemma MergeStartsFrom(job: Job, disk: Disk)
    requires job.nReduce >= 1 && MergeProgress(job, disk, 0, 0, map[])
    ensures MapsDone(ViewOf(disk), job) && ReducesDone(ViewOf(disk), job)
  {
  }
}
