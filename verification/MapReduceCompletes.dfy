/**
  * Which jobs can complete: a run in which workers register and execute all tasks, without stale writes and to the
  * right output, exists exactly for jobs with no more reduce tasks than map files.
  */
module MapReduceCompletes {
  import opened MapReduce
  import opened MapReduceSchedule
  import opened MapReduceExecution
  import opened MapReduceRuns
  import opened MapReduceSound
  import opened MapReduceStrays
  import opened MapReduceMergeStrays

  function Longest(workers: seq<string>): (n: nat)
    ensures forall k :: 0 <= k < |workers| ==> |workers[k]| <= n
  {
    if workers == [] then 0
    else
      var front, last := Longest(workers[..|workers| - 1]), workers[|workers| - 1];
      assert forall k :: 0 <= k < |workers| - 1 ==> workers[k] == workers[..|workers| - 1][k];
      if front < |last| then |last| else front
  }

  function FreshName(workers: seq<string>): (w: string)
    ensures w !in workers
  {
    seq(Longest(workers) + 1, _ => 'w')
  }

  // One execution ------------------------------------------------------------------------------------

  /** The last execution that was started is the newest of its task. */
  lemma LastIsNewest(execs: seq<Exec>)
    requires |execs| > 0
    ensures Newest(execs, |execs| - 1)
  {
  }

  /** m' differs from m in the last execution, which has come to pc, and in files that have only been added to. */
  ghost predicate LastAt(m: Master, m': Master, pc: Pc) {
    && |m.execs| > 0 && m'.workers == m.workers && m'.stage == m.stage && m.disk.Keys <= m'.disk.Keys
    && m'.execs == m.execs[|m.execs| - 1 := Exec(m.execs[|m.execs| - 1].task, pc)]
  }

  lemma Advances(job: Job, m: Master, key: string) returns (m': Master)
    requires job.nReduce >= 1 && |m.execs| > 0 && Enabled(job, m, Advance(|m.execs| - 1, key))
    ensures QuietlyLeads(job, m, m')
    ensures var e := m.execs[|m.execs| - 1];
            && LastAt(m, m', NextPc(job, e, m.disk, key)) && m'.disk == NextDisk(job, e, m.disk, key)
            && WellPlaced(job, m'.execs[|m.execs| - 1])
  {
    hide QuietlyLeads, NextPc, Newest, CanAdvance;
    var id := |m.execs| - 1;
    LastIsNewest(m.execs);
    QuietlyHere(job, m);
    QuietlyOn(job, m, m, Advance(id, key));
    StaysWellPlaced(job, m.execs[id], m.disk, key);
    m' := Do(job, m, Advance(id, key));
  }

  lemma {:induction false} MapRunsToEnd(job: Job, m: Master) returns (m': Master)
    requires job.nReduce >= 1 && |m.execs| > 0
    requires WellPlaced(job, m.execs[|m.execs| - 1]) && m.execs[|m.execs| - 1].pc.Mapping?
    ensures QuietlyLeads(job, m, m') && LastAt(m, m', Ended)
    decreases var e := m.execs[|m.execs| - 1]; job.nReduce - e.pc.r,
              var e := m.execs[|m.execs| - 1];
              if e.pc.open then |Bucket(job, Emitted(job, e.task.number), e.pc.r)| - e.pc.written
              else 1 + if e.pc.r < job.nReduce then |Bucket(job, Emitted(job, e.task.number), e.pc.r)| else 0
  {
    hide Bucket, QuietlyLeads, NextDisk;
    var e := m.execs[|m.execs| - 1];
    var m1 := Advances(job, m, "");
    if e.pc.r == job.nReduce {
      m' := m1;
    } else {
      m' := MapRunsToEnd(job, m1);
      QuietlyFrom(job, m, m1, m');
    }
  }

  /** A reduce execution that has read and created its file writes every key. */
  lemma {:induction false} WritesToEnd(job: Job, m: Master) returns (m': Master)
    requires job.nReduce >= 1 && |m.execs| > 0 && WellPlaced(job, m.execs[|m.execs| - 1])
    requires var pc := m.execs[|m.execs| - 1].pc; pc.Writing? && pc.open && PartlyReduced(job, pc.read, pc.out)
    ensures QuietlyLeads(job, m, m') && LastAt(m, m', Ended)
    decreases |KeySet(m.execs[|m.execs| - 1].pc.read)| - |m.execs[|m.execs| - 1].pc.out|
  {
    hide QuietlyLeads, PartlyReduced, KeySet, NextDisk;
    var e := m.execs[|m.execs| - 1];
    var read, out := e.pc.read, e.pc.out;
    if AllWritten(read, out) {
      m' := Advances(job, m, "");
    } else {
      var x :| 0 <= x < |read| && !HasKey(out, read[x].key);
      var key := read[x].key;
      RoomForOne(job, read, out, key);
      PartlyReducedSnoc(job, read, out, key);
      var m1 := Advances(job, m, key);
      m' := WritesToEnd(job, m1);
      QuietlyFrom(job, m, m1, m');
    }
  }

  lemma ReduceRunsToEnd(job: Job, m: Master) returns (m': Master)
    requires job.nReduce >= 1 && |m.execs| > 0 && AllThere(job, m.disk)
    requires m.execs[|m.execs| - 1].task.number < job.nReduce
    requires m.execs[|m.execs| - 1] == Started(Task(ReducePhase, m.execs[|m.execs| - 1].task.number))
    ensures QuietlyLeads(job, m, m') && LastAt(m, m', Ended)
  {
    hide QuietlyLeads, AllThere, ReadOf, ViewOf, NextDisk;
    var id := |m.execs| - 1;
    var r := m.execs[id].task.number;
    ReadyView(m.disk, job, |job.inputs|, r);
    StartedReads(job, ViewOf(m.disk), r);
    var m1 := ReadsToEnd(job, m, id);
    var read := ReadAll(ViewOf(m.disk), |job.inputs|, r);
    NothingReduced(job, read);
    var m2 := Advances(job, m1, "");
    QuietlyFrom(job, m, m1, m2);
    m' := WritesToEnd(job, m2);
    QuietlyFrom(job, m, m2, m');
  }

  // One phase ----------------------------------------------------------------------------------------

  /** Tasks before t are done, the others wait, and every registered worker has been offered. */
  ghost predicate DoneUpTo(job: Job, m: Master, phase: Phase, t: nat) {
    && m.stage.InPhase? && m.stage.s.phase == phase
    && m.stage.s.forwarded == |m.workers| && |m.stage.s.routines| == TaskCount(job, phase)
    && (phase == ReducePhase ==> AllThere(job, m.disk))
    && (forall k :: 0 <= k < TaskCount(job, phase) ==>
          if k < t then Done(m.stage.s.routines[k]) else m.stage.s.routines[k].Waiting?)
  }

  lemma StillThere(job: Job, disk: Disk, disk': Disk)
    requires AllThere(job, disk) && disk.Keys <= disk'.Keys
    ensures AllThere(job, disk')
  {
    assert forall f :: f in disk ==> f in disk';
  }

  /** A new worker registers, and goroutine t takes it and makes its call. */
  lemma TaskStarts(job: Job, m: Master, phase: Phase, t: nat) returns (m': Master, w: string)
    requires job.nReduce >= 1 && DoneUpTo(job, m, phase, t) && t < TaskCount(job, phase)
    ensures QuietlyLeads(job, m, m') && m'.stage.InPhase? && m'.stage.s.phase == phase && m'.disk == m.disk
    ensures m'.execs == m.execs + [Started(Task(phase, t))] && m'.stage.s.forwarded == |m'.workers|
    ensures m'.stage.s.routines == m.stage.s.routines[t := Calling(w, |m.execs|)]
  {
    hide QuietlyLeads, AllThere;
    w := FreshName(m.workers);
    QuietlyHere(job, m);
    QuietlyOn(job, m, m, Register(w));
    var m1 := Do(job, m, Register(w));
    QuietlyOn(job, m, m1, Act(Forward));
    var m2 := Do(job, m1, Act(Forward));
    QuietlyOn(job, m, m2, Act(Take(t, w)));
    m' := Do(job, m2, Act(Take(t, w)));
  }

  lemma TaskRuns(job: Job, m: Master, phase: Phase, t: nat) returns (m': Master)
    requires job.nReduce >= 1 && DoneUpTo(job, m, phase, t) && t < TaskCount(job, phase)
    ensures QuietlyLeads(job, m, m') && DoneUpTo(job, m', phase, t + 1)
  {
    hide QuietlyLeads, AllThere;
    var m1, w := TaskStarts(job, m, phase, t);
    var id := |m.execs|;
    StartedProgress(job, m1.disk, Task(phase, t));
    var m2;
    if phase == MapPhase {
      m2 := MapRunsToEnd(job, m1);
    } else {
      m2 := ReduceRunsToEnd(job, m1);
      StillThere(job, m1.disk, m2.disk);
    }
    QuietlyFrom(job, m, m1, m2);
    QuietlyOn(job, m, m2, Act(Succeed(t)));
    m' := Do(job, m2, Act(Succeed(t)));
  }

  lemma {:induction false} TasksRun(job: Job, m: Master, phase: Phase, t: nat) returns (m': Master)
    requires job.nReduce >= 1 && DoneUpTo(job, m, phase, t) && t <= TaskCount(job, phase)
    ensures QuietlyLeads(job, m, m') && DoneUpTo(job, m', phase, TaskCount(job, phase))
    decreases TaskCount(job, phase) - t
  {
    hide QuietlyLeads, DoneUpTo;
    if t == TaskCount(job, phase) {
      m' := m;
      QuietlyHere(job, m);
    } else {
      var m1 := TaskRuns(job, m, phase, t);
      m' := TasksRun(job, m1, phase, t + 1);
      QuietlyFrom(job, m, m1, m');
    }
  }

  lemma PathIsRun(job: Job, m: Master) returns (run: seq<Master>)
    requires job.nReduce >= 1 && QuietlyLeads(job, Initial(job), m)
    ensures |run| > 0 && IsQuietRun(job, run) && run[|run| - 1] == m
    ensures BaseInv(job, m) && FilesInv(job, m)
  {
    run :| IsQuietPath(job, run) && run[0] == Initial(job) && run[|run| - 1] == m;
    QuietRunIsRun(job, run);
    RunFiles(job, run, |run| - 1);
  }

  lemma NothingDone(job: Job)
    ensures DoneUpTo(job, Initial(job), MapPhase, 0)
  {
  }

  /** Of a state where all tasks are done the phase is over. */
  lemma AllDoneIsOver(job: Job, m: Master, phase: Phase)
    requires job.nReduce >= 1 && BaseInv(job, m) && DoneUpTo(job, m, phase, TaskCount(job, phase))
    ensures PhaseOver(m, phase)
  {
    hide Conserved, RoutineInv, WellPlaced;
    PendingZeroIff(m.stage.s.routines);
  }

  /** The state where all map tasks are done is reachable, and there the map phase is over. */
  lemma MapPhaseCompletes(job: Job) returns (m: Master)
    requires job.nReduce >= 1
    ensures QuietlyLeads(job, Initial(job), m) && PhaseOver(m, MapPhase)
  {
    hide QuietlyLeads, DoneUpTo;
    NothingDone(job);
    m := TasksRun(job, Initial(job), MapPhase, 0);
    var run := PathIsRun(job, m);
    AllDoneIsOver(job, m, MapPhase);
  }

  // The whole job ------------------------------------------------------------------------------------

  lemma ReducePhaseStarts(job: Job, m: Master) returns (m': Master)
    requires job.nReduce >= 1 && BaseInv(job, m) && FilesInv(job, m) && PhaseOver(m, MapPhase) && job.nReduce <= |job.inputs|
    ensures QuietlyLeads(job, m, m') && m'.stage == InPhase(NewSchedule(job, ReducePhase)) && AllThere(job, m'.disk)
  {
    hide BaseInv, FilesInv, QuietlyLeads, AllThere;
    MapsThere(job, m);
    QuietlyHere(job, m);
    ArgsBuiltIff(FileNames(job), job.nReduce, ReducePhase);
    QuietlyOn(job, m, m, NextPhase);
    m' := Do(job, m, NextPhase);
  }

  /** Workers that registered before are offered again. */
  lemma {:induction false} AllForwarded(job: Job, m: Master) returns (m': Master)
    requires job.nReduce >= 1 && m.stage.InPhase? && m.stage.s.forwarded <= |m.workers|
    ensures QuietlyLeads(job, m, m') && m'.stage.InPhase? && m'.stage.s.forwarded == |m'.workers|
    ensures m'.disk == m.disk && m'.stage.s.phase == m.stage.s.phase && m'.stage.s.routines == m.stage.s.routines
    decreases |m.workers| - m.stage.s.forwarded
  {
    hide QuietlyLeads;
    QuietlyHere(job, m);
    if m.stage.s.forwarded == |m.workers| {
      m' := m;
    } else {
      QuietlyOn(job, m, m, Act(Forward));
      var m1 := Do(job, m, Act(Forward));
      m' := AllForwarded(job, m1);
      QuietlyFrom(job, m, m1, m');
    }
  }

  lemma JobCompletes(job: Job) returns (m: Master)
    requires 1 <= job.nReduce <= |job.inputs|
    ensures QuietlyLeads(job, Initial(job), m) && m.stage.Completed?
  {
    hide QuietlyLeads, BaseInv, FilesInv, AllThere, ViewOf, Lists, Union;
    var start := Initial(job);
    var m1 := MapPhaseCompletes(job);
    var run := PathIsRun(job, m1);
    var m2 := ReducePhaseStarts(job, m1);
    QuietlyFrom(job, start, m1, m2);
    var m3 := AllForwarded(job, m2);
    QuietlyFrom(job, start, m2, m3);
    var m4 := TasksRun(job, m3, ReducePhase, 0);
    QuietlyFrom(job, start, m3, m4);
    run := PathIsRun(job, m4);
    AllDoneIsOver(job, m4, ReducePhase);
    OutputsThere(job, m4);
    m := Completes(job, m4);
    QuietlyFrom(job, start, m4, m);
  }

  /** A run reaches a phase of reduce tasks, or what follows it, only if there are no more of them than map files. */
  lemma {:induction false} StageMeans(job: Job, run: seq<Master>, b: nat)
    requires IsRun(job, run) && b < |run|
    ensures run[b].stage.Panicked? ==> job.nReduce > |job.inputs|
    ensures run[b].stage.InPhase? && run[b].stage.s.phase == ReducePhase ==> job.nReduce <= |job.inputs|
    ensures run[b].stage.Merging? || run[b].stage.Completed? ==> job.nReduce <= |job.inputs|
  {
    hide WellPlaced, CanAdvance, NextDisk, NextPc, Lists;
    if b > 0 {
      StageMeans(job, run, b - 1);
      assert Next(job, run[b - 1], run[b - 1 + 1]);
      ArgsBuiltIff(FileNames(job), job.nReduce, ReducePhase);
    }
  }

  /** The run ends with the group-and-reduce of everything emitted. */
  ghost predicate EndsRight(job: Job, run: seq<Master>) {
    |run| > 0 && run[|run| - 1].stage.Completed? &&
    IsGroupReduce(run[|run| - 1].stage.out, AllEmitted(job, |job.inputs|), job.reduceF)
  }

  /** A job has a run without stale writes that completes with the right output exactly if it has enough map files. */
  lemma CompletesIffEnoughFiles(job: Job)
    requires job.nReduce >= 1
    ensures (exists run :: IsQuietRun(job, run) && EndsRight(job, run)) <==> job.nReduce <= |job.inputs|
  {
    hide QuietlyLeads, IsGroupReduce, IsQuietRun, IsRun, BaseInv, FilesInv;
    if run :| IsQuietRun(job, run) && EndsRight(job, run) {
      QuietRunIsRun(job, run);
      StageMeans(job, run, |run| - 1);
    }
    if job.nReduce <= |job.inputs| {
      var m := JobCompletes(job);
      var run := PathIsRun(job, m);
      DistributedIsGroupReduce(job, run, |run| - 1);
      assert EndsRight(job, run);
    }
  }
}
