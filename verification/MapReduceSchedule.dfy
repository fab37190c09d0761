/**
  * schedule() and its goroutines: the arguments of a phase's tasks, who has which worker, and what the wait group
  * counts. What the workers do with the files is in MapReduceExecution.dfy.
  */
module MapReduceSchedule {
  import opened MapReduce
  import opened MapReduceTasks

  datatype Option<T> = None | Some(value: T)

  datatype Phase = MapPhase | ReducePhase

  datatype Task = Task(phase: Phase, number: nat)

  function TaskCount(job: Job, phase: Phase): nat {
    match phase
    case MapPhase => |job.inputs|
    case ReducePhase => job.nReduce
  }

  datatype TaskArgs = TaskArgs(file: string, task: Task, otherTasks: nat)

  /** The arguments of tasks 0 .. n - 1, or None when mapFiles[i] is out of range for one of them. */
  function ArgsUpTo(mapFiles: seq<string>, phase: Phase, otherTasks: nat, n: nat): Option<seq<TaskArgs>> {
    if n == 0 then Some([])
    else
      match ArgsUpTo(mapFiles, phase, otherTasks, n - 1)
      case None => None
      case Some(args) =>
        if n - 1 < |mapFiles| then Some(args + [TaskArgs(mapFiles[n - 1], Task(phase, n - 1), otherTasks)]) else None
  }

  function PhaseArgs(mapFiles: seq<string>, nReduce: nat, phase: Phase): Option<seq<TaskArgs>> {
    match phase
    case MapPhase => ArgsUpTo(mapFiles, phase, nReduce, |mapFiles|)
    case ReducePhase => ArgsUpTo(mapFiles, phase, |mapFiles|, nReduce)
  }

  /** The loop of schedule() that builds the arguments; it panics (None) when it reads past the end of mapFiles. */
  method BuildArgs(mapFiles: seq<string>, nReduce: nat, phase: Phase) returns (args: Option<seq<TaskArgs>>)
    ensures args == PhaseArgs(mapFiles, nReduce, phase)
  {
    var ntasks, otherTasks := |mapFiles|, nReduce;
    if phase == ReducePhase {
      ntasks, otherTasks := nReduce, |mapFiles|;
    }
    var built := [];
    for i := 0 to ntasks
      invariant ArgsUpTo(mapFiles, phase, otherTasks, i) == Some(built)
    {
      if i >= |mapFiles| {
        OnceOutOfRange(mapFiles, phase, otherTasks, i + 1, ntasks);
        return None;
      }
      built := built + [TaskArgs(mapFiles[i], Task(phase, i), otherTasks)];
    }
    return Some(built);
  }

  lemma {:induction false} OnceOutOfRange(mapFiles: seq<string>, phase: Phase, otherTasks: nat, i: nat, n: nat)
    requires i <= n && ArgsUpTo(mapFiles, phase, otherTasks, i) == None
    ensures ArgsUpTo(mapFiles, phase, otherTasks, n) == None
    decreases n
  {
    if i < n {
      OnceOutOfRange(mapFiles, phase, otherTasks, i, n - 1);
    }
  }

  lemma {:induction false} ArgsUpToMeans(mapFiles: seq<string>, phase: Phase, otherTasks: nat, n: nat)
    ensures var args := ArgsUpTo(mapFiles, phase, otherTasks, n);
            && (args.Some? <==> n <= |mapFiles|)
            && (args.Some? ==> |args.value| == n)
            && (args.Some? ==> forall i :: 0 <= i < n ==>
                  args.value[i] == TaskArgs(mapFiles[i], Task(phase, i), otherTasks))
    decreases n
  {
    if n > 0 {
      ArgsUpToMeans(mapFiles, phase, otherTasks, n - 1);
    }
  }

  /** The loop panics exactly in a reduce phase with more tasks than files; else there is one task per index. */
  lemma ArgsBuiltIff(mapFiles: seq<string>, nReduce: nat, phase: Phase)
    ensures var args := PhaseArgs(mapFiles, nReduce, phase);
            && (args.Some? <==> phase == MapPhase || nReduce <= |mapFiles|)
            && (args.Some? ==> |args.value| == if phase == MapPhase then |mapFiles| else nReduce)
            && (args.Some? ==> forall i :: 0 <= i < |args.value| ==>
                  i < |mapFiles| &&
                  args.value[i] == TaskArgs(mapFiles[i], Task(phase, i), if phase == MapPhase then nReduce else |mapFiles|))
  {
    ArgsUpToMeans(mapFiles, phase, nReduce, |mapFiles|);
    ArgsUpToMeans(mapFiles, phase, |mapFiles|, nReduce);
  }

  // The state ----------------------------------------------------------------------------------------

  /**
    * The goroutine of one task: waiting for a worker; in a call, which started execution `exec` of the task; done,
    * but blocked sending the worker back; finished.
    */
  datatype Routine = Waiting | Calling(worker: string, exec: nat) | Returning(worker: string) | Finished

  /** One schedule(): `pending` is its WaitGroup, `offered` the workers that forwardRegistrations holds out. */
  datatype Schedule = Schedule(
    phase: Phase, routines: seq<Routine>, pending: int, forwarded: nat, offered: set<string>, dropped: set<string>)

  function NewSchedule(job: Job, phase: Phase): Schedule {
    Schedule(phase, seq(TaskCount(job, phase), _ => Waiting), TaskCount(job, phase), 0, {}, {})
  }

  predicate Holds(r: Routine, w: string) {
    (r.Calling? || r.Returning?) && r.worker == w
  }

  predicate Busy(r: Routine) {
    r.Waiting? || r.Calling?
  }

  predicate Done(r: Routine) {
    r.Returning? || r.Finished?
  }

  /** What schedule() and its goroutines do. */
  datatype Move =
    | Forward
    | Take(t: nat, w: string)              // a waiting goroutine receives an offered worker
    | TakeReturned(t: nat, u: nat)         // or one that another goroutine sends back
    | Succeed(t: nat)
    | Fail(t: nat)

  predicate CanMove(workers: seq<string>, s: Schedule, move: Move) {
    match move
    case Forward => s.forwarded < |workers|
    case Take(t, w) => t < |s.routines| && s.routines[t].Waiting? && w in s.offered
    case TakeReturned(t, u) =>
      t < |s.routines| && u < |s.routines| && s.routines[t].Waiting? && s.routines[u].Returning?
    case Succeed(t) => t < |s.routines| && s.routines[t].Calling?
    case Fail(t) => t < |s.routines| && s.routines[t].Calling?
  }

  /** A call that is made now starts execution `exec`. */
  function Moved(workers: seq<string>, s: Schedule, move: Move, exec: nat): Schedule
    requires CanMove(workers, s, move)
  {
    match move
    case Forward => s.(forwarded := s.forwarded + 1, offered := s.offered + {workers[s.forwarded]})
    case Take(t, w) => s.(offered := s.offered - {w}, routines := s.routines[t := Calling(w, exec)])
    case TakeReturned(t, u) => s.(routines := s.routines[u := Finished][t := Calling(s.routines[u].worker, exec)])
    case Succeed(t) => s.(routines := s.routines[t := Returning(s.routines[t].worker)], pending := s.pending - 1)
    case Fail(t) => s.(routines := s.routines[t := Waiting], dropped := s.dropped + {s.routines[t].worker})
  }

  // Workers are conserved ----------------------------------------------------------------------------

  /** A goroutine has the worker. */
  predicate Held(s: Schedule, w: string) {
    exists t :: 0 <= t < |s.routines| && Holds(s.routines[t], w)
  }

  /** Each worker that was offered is in exactly one place. */
  ghost predicate Conserved(workers: seq<string>, s: Schedule) {
    && s.forwarded <= |workers|
    && (forall w :: w in s.offered || w in s.dropped || Held(s, w) <==> w in workers[..s.forwarded])
    && s.offered !! s.dropped
    && (forall w :: Held(s, w) ==> w !in s.offered && w !in s.dropped)
    && (forall t, u, w :: 0 <= t < u < |s.routines| ==> !(Holds(s.routines[t], w) && Holds(s.routines[u], w)))
  }

  ghost predicate Distinct(workers: seq<string>) {
    forall i, j :: 0 <= i < j < |workers| ==> workers[i] != workers[j]
  }

  function Pending(routines: seq<Routine>): nat {
    if routines == [] then 0
    else Pending(routines[..|routines| - 1]) + if Busy(routines[|routines| - 1]) then 1 else 0
  }

  lemma {:induction false} PendingUpdate(routines: seq<Routine>, t: nat, r: Routine)
    requires t < |routines|
    ensures Pending(routines[t := r]) ==
            Pending(routines) - (if Busy(routines[t]) then 1 else 0) + (if Busy(r) then 1 else 0)
    decreases |routines|
  {
    var front := routines[..|routines| - 1];
    if t < |front| {
      assert routines[t := r][..|routines| - 1] == front[t := r];
      PendingUpdate(front, t, r);
    } else {
      assert routines[t := r][..|routines| - 1] == front;
    }
  }

  lemma {:induction false} PendingZeroIff(routines: seq<Routine>)
    ensures Pending(routines) == 0 <==> forall t :: 0 <= t < |routines| ==> !Busy(routines[t])
    decreases |routines|
  {
    if routines != [] {
      var front := routines[..|routines| - 1];
      PendingZeroIff(front);
      assert forall t :: 0 <= t < |front| ==> front[t] == routines[t];
    }
  }

  lemma {:induction false} PendingAll(n: nat)
    ensures Pending(seq(n, _ => Waiting)) == n
  {
    if n > 0 {
      assert seq(n, _ => Waiting)[..n - 1] == seq(n - 1, _ => Waiting);
      PendingAll(n - 1);
    }
  }

  ghost predicate SchedInv(job: Job, workers: seq<string>, s: Schedule) {
    && |s.routines| == TaskCount(job, s.phase) && s.pending == Pending(s.routines)
    && Conserved(workers, s)
  }

  lemma NewScheduleInv(job: Job, workers: seq<string>, phase: Phase)
    ensures SchedInv(job, workers, NewSchedule(job, phase))
  {
    PendingAll(TaskCount(job, phase));
  }

  /** Who holds what after goroutine t changes. */
  lemma HeldUpdate(s: Schedule, t: nat, r: Routine, s': Schedule)
    requires t < |s.routines| && s'.routines == s.routines[t := r]
    requires forall a, b, w :: 0 <= a < b < |s.routines| ==> !(Holds(s.routines[a], w) && Holds(s.routines[b], w))
    ensures forall w :: Held(s', w) <==> Holds(r, w) || (Held(s, w) && !Holds(s.routines[t], w))
  {
    assert s'.routines[t] == r;
    forall w | Held(s, w) && !Holds(s.routines[t], w) ensures Held(s', w) {
      var u :| 0 <= u < |s.routines| && Holds(s.routines[u], w);
      assert Holds(s'.routines[u], w);
    }
    forall w | Held(s', w) ensures Holds(r, w) || (Held(s, w) && !Holds(s.routines[t], w)) {
      var u :| 0 <= u < |s'.routines| && Holds(s'.routines[u], w);
      assert u != t ==> Holds(s.routines[u], w);
    }
  }

  lemma Members(workers: seq<string>, k: nat)
    requires k < |workers| && Distinct(workers)
    ensures workers[k] !in workers[..k]
    ensures forall w :: w in workers[..k + 1] <==> w in workers[..k] || w == workers[k]
  {
    assert workers[..k + 1] == workers[..k] + [workers[k]];
  }

  /** Goroutine t changes hands of at most one worker w. */
  lemma OneHolder(s: Schedule, t: nat, r: Routine, s': Schedule)
    requires t < |s.routines| && s'.routines == s.routines[t := r]
    requires forall a, b, w :: 0 <= a < b < |s.routines| ==> !(Holds(s.routines[a], w) && Holds(s.routines[b], w))
    requires forall w :: Holds(r, w) && !Holds(s.routines[t], w) ==> !Held(s, w)
    ensures forall a, b, w :: 0 <= a < b < |s'.routines| ==> !(Holds(s'.routines[a], w) && Holds(s'.routines[b], w))
  {
    forall a, b, w | 0 <= a < b < |s'.routines| ensures !(Holds(s'.routines[a], w) && Holds(s'.routines[b], w)) {
      if a == t {
        assert Holds(s.routines[b], w) ==> Held(s, w);
      } else if b == t {
        assert Holds(s.routines[a], w) ==> Held(s, w);
      } else {
        assert !(Holds(s.routines[a], w) && Holds(s.routines[b], w));
      }
    }
  }

  /** A move of one goroutine: its new state, and what it took from the offered or gave to the dropped. */
  lemma RoutineMove(job: Job, workers: seq<string>, s: Schedule, move: Move, exec: nat)
    requires SchedInv(job, workers, s) && CanMove(workers, s, move) && !move.Forward? && !move.TakeReturned?
    ensures SchedInv(job, workers, Moved(workers, s, move, exec))
  {
    var s' := Moved(workers, s, move, exec);
    var r := s'.routines[move.t];
    PendingUpdate(s.routines, move.t, r);
    forall w | Holds(s.routines[move.t], w) ensures Held(s, w) {
    }
    HeldUpdate(s, move.t, r, s');
    OneHolder(s, move.t, r, s');
  }

  lemma ForwardMove(job: Job, workers: seq<string>, s: Schedule, exec: nat)
    requires SchedInv(job, workers, s) && CanMove(workers, s, Forward) && Distinct(workers)
    ensures SchedInv(job, workers, Moved(workers, s, Forward, exec))
  {
    Members(workers, s.forwarded);
    var s' := Moved(workers, s, Forward, exec);
    assert forall w :: Held(s', w) <==> Held(s, w) by {
      assert s'.routines == s.routines;
    }
  }

  lemma TakeReturnedMove(job: Job, workers: seq<string>, s: Schedule, t: nat, u: nat, exec: nat)
    requires SchedInv(job, workers, s) && CanMove(workers, s, TakeReturned(t, u))
    ensures SchedInv(job, workers, Moved(workers, s, TakeReturned(t, u), exec))
  {
    var w := s.routines[u].worker;
    assert Holds(s.routines[u], w);
    var freed := s.(routines := s.routines[u := Finished]);
    var s' := Moved(workers, s, TakeReturned(t, u), exec);
    PendingUpdate(s.routines, u, Finished);
    PendingUpdate(freed.routines, t, Calling(w, exec));
    HeldUpdate(s, u, Finished, freed);
    OneHolder(s, u, Finished, freed);
    HeldUpdate(freed, t, Calling(w, exec), s');
    OneHolder(freed, t, Calling(w, exec), s');
  }

  lemma MoveKeeps(job: Job, workers: seq<string>, s: Schedule, move: Move, exec: nat)
    requires SchedInv(job, workers, s) && CanMove(workers, s, move) && Distinct(workers)
    ensures SchedInv(job, workers, Moved(workers, s, move, exec))
  {
    match move
    case Forward => ForwardMove(job, workers, s, exec);
    case TakeReturned(t, u) => TakeReturnedMove(job, workers, s, t, u, exec);
    case _ => RoutineMove(job, workers, s, move, exec);
  }

  lemma RegisterKeeps(job: Job, workers: seq<string>, s: Schedule, w: string)
    requires SchedInv(job, workers, s)
    ensures SchedInv(job, workers + [w], s)
  {
    assert (workers + [w])[..s.forwarded] == workers[..s.forwarded];
  }

  /** The worker of a failed call is dropped, that of a successful one waits to be taken, and the dropped stay dropped. */
  lemma MoveDrops(workers: seq<string>, s: Schedule, move: Move, exec: nat)
    requires CanMove(workers, s, move)
    ensures var s' := Moved(workers, s, move, exec);
            && s.dropped <= s'.dropped
            && (move.Fail? ==> s.routines[move.t].worker in s'.dropped && s'.routines[move.t].Waiting?)
            && (move.Succeed? ==> s'.dropped == s.dropped && s'.routines[move.t] == Returning(s.routines[move.t].worker))
  {
  }

  // Whole executions ---------------------------------------------------------------------------------

  /** What one whole execution of a task does, when nothing else touches the files meanwhile. */
  ghost predicate Executes(job: Job, files: Files, files': Files, task: Task)
    requires job.nReduce >= 1
  {
    match task.phase
    case MapPhase => task.number < |job.inputs| && MapTaskWrites(files, files', job, task.number)
    case ReducePhase => ReduceTaskWrites(files, files', job, task.number)
  }

  /** Map task k has written its files. */
  ghost predicate MapDone(files: Files, job: Job, k: nat)
    requires job.nReduce >= 1
  {
    forall r :: 0 <= r < job.nReduce ==>
      Intermediate(k, r) in files && k < |job.inputs| && files[Intermediate(k, r)] == Bucket(job, Emitted(job, k), r)
  }

  ghost predicate TaskDone(files: Files, job: Job, task: Task)
    requires job.nReduce >= 1
  {
    match task.phase
    case MapPhase => MapDone(files, job, task.number)
    case ReducePhase => ReduceDone(files, job, task.number)
  }

  /** The task exists, and a reduce task exists only once all map tasks are done. */
  ghost predicate Valid(files: Files, job: Job, task: Task)
    requires job.nReduce >= 1
  {
    task.number < TaskCount(job, task.phase) && (task.phase == ReducePhase ==> MapsDone(files, job))
  }

  lemma MapsDoneIff(files: Files, job: Job)
    requires job.nReduce >= 1
    ensures MapsDone(files, job) <==> forall k :: 0 <= k < |job.inputs| ==> MapDone(files, job, k)
  {
    hide Bucket, Emitted;
    if forall k :: 0 <= k < |job.inputs| ==> MapDone(files, job, k) {
      forall m, r | 0 <= m < |job.inputs| && 0 <= r < job.nReduce
        ensures Intermediate(m, r) in files && files[Intermediate(m, r)] == Bucket(job, Emitted(job, m), r)
      {
        assert MapDone(files, job, m);
      }
    }
  }

  /** Executing a map task, for the first time or again, finishes it and undoes nothing. */
  lemma MapExecution(job: Job, files: Files, files': Files, m: nat)
    requires job.nReduce >= 1 && m < |job.inputs| && MapTaskWrites(files, files', job, m)
    ensures MapDone(files', job, m)
    ensures forall k :: 0 <= k < |job.inputs| && MapDone(files, job, k) ==> MapDone(files', job, k)
    ensures MapsDone(files, job) ==>
              forall r :: 0 <= r < job.nReduce && ReduceDone(files, job, r) ==> ReduceDone(files', job, r)
  {
    hide Bucket, Emitted, IsReduced, MapTaskWrites;
    forall k, r | 0 <= k < |job.inputs| && 0 <= r < job.nReduce && (k == m || MapDone(files, job, k))
      ensures Intermediate(k, r) in files' && files'[Intermediate(k, r)] == Bucket(job, Emitted(job, k), r)
    {
      if k == m {
        OwnFile(job, files, files', m, r);
      } else {
        MapTaskKeepsOthers(files, files', job, m, k, r);
      }
    }
    if MapsDone(files, job) {
      forall r | 0 <= r < job.nReduce && ReduceDone(files, job, r) ensures ReduceDone(files', job, r) {
        ReduceDoneKept(job, files, files', m, r);
      }
    }
  }

  lemma OwnFile(job: Job, files: Files, files': Files, m: nat, r: nat)
    requires job.nReduce >= 1 && m < |job.inputs| && r < job.nReduce && MapTaskWrites(files, files', job, m)
    ensures Intermediate(m, r) in files' && files'[Intermediate(m, r)] == Bucket(job, Emitted(job, m), r)
  {
  }

  lemma ReduceDoneKept(job: Job, files: Files, files': Files, m: nat, r: nat)
    requires job.nReduce >= 1 && m < |job.inputs| && r < job.nReduce && MapTaskWrites(files, files', job, m)
    requires MapsDone(files, job) && ReduceDone(files, job, r)
    ensures ReduceDone(files', job, r)
  {
    hide Bucket, Emitted, IsReduced;
    forall k | 0 <= k < |job.inputs|
      ensures Intermediate(k, r) in files' && files'[Intermediate(k, r)] == files[Intermediate(k, r)]
    {
      MapTaskKeepsOthers(files, files', job, m, k, r);
    }
    ReadAllSame(files, files', |job.inputs|, r);
    assert Merged(r) in files' && files'[Merged(r)] == files[Merged(r)];
  }

  /** Executing any valid task finishes it and undoes nothing. */
  lemma ExecutionKeeps(job: Job, files: Files, files': Files, task: Task)
    requires job.nReduce >= 1 && Valid(files, job, task) && Executes(job, files, files', task)
    ensures TaskDone(files', job, task)
    ensures forall k :: 0 <= k < |job.inputs| && MapDone(files, job, k) ==> MapDone(files', job, k)
    ensures MapsDone(files, job) ==> MapsDone(files', job)
    ensures MapsDone(files, job) ==>
              forall r :: 0 <= r < job.nReduce && ReduceDone(files, job, r) ==> ReduceDone(files', job, r)
  {
    hide MapTaskWrites, ReduceTaskWrites, MapDone, MapsDone, ReduceDone;
    MapsDoneIff(files, job);
    MapsDoneIff(files', job);
    match task.phase
    case MapPhase => MapExecution(job, files, files', task.number);
    case ReducePhase => ReduceTaskDone(files, files', job, task.number);
  }

  /** Executing any task again, when all are done, leaves what merge reads the same as a map. */
  lemma ReExecutionKeepsUnion(job: Job, files: Files, files': Files, task: Task)
    requires job.nReduce >= 1 && MapsDone(files, job) && ReducesDone(files, job)
    requires task.number < TaskCount(job, task.phase) && Executes(job, files, files', task)
    ensures MapsDone(files', job) && ReducesDone(files', job)
    ensures AllMerged(files, job.nReduce) && AllMerged(files', job.nReduce)
    ensures Union(files', job.nReduce) == Union(files, job.nReduce)
  {
    hide MapsDone, Executes, Union;
    ExecutionKeeps(job, files, files', task);
    AllReducesMerged(files, job);
    AllReducesMerged(files', job);
    forall key
      ensures key in Union(files, job.nReduce) <==> key in Union(files', job.nReduce)
      ensures key in Union(files, job.nReduce) ==> Union(files, job.nReduce)[key] == Union(files', job.nReduce)[key]
    {
      UnionMeans(files, job, job.nReduce, key);
      UnionMeans(files', job, job.nReduce, key);
    }
  }
}
