/**
  * What the intermediate files can hold in any run, however many executions of a map task write at once: every pair is
  * where it belongs, though some may be missing.
  */
module MapReduceSound {
  import opened MapReduce
  import opened MapReduceSchedule
  import opened MapReduceExecution
  import opened MapReduceRuns

  /** The file has some of the pairs, each at its place. */
  ghost predicate Part(file: File, pairs: seq<KeyValue>) {
    forall x: nat :: x in file ==> x < |pairs| && file[x] == pairs[x]
  }

  ghost predicate MapsPart(job: Job, disk: Disk)
    requires job.nReduce >= 1
  {
    forall m, r :: 0 <= m < |job.inputs| && 0 <= r < job.nReduce && Intermediate(m, r) in disk ==>
      Part(disk[Intermediate(m, r)], Bucket(job, Emitted(job, m), r))
  }

  /** The files that the execution has created are there. */
  ghost predicate HasCreated(job: Job, disk: Disk, e: Exec) {
    match e.pc
    case Mapping(_, _, _) => forall p :: 0 <= p < NextCreated(e.pc) ==> Intermediate(e.task.number, p) in disk
    case Writing(open, _, _) => open ==> Merged(e.task.number) in disk
    case Ended =>
      if e.task.phase == MapPhase then forall p :: 0 <= p < job.nReduce ==> Intermediate(e.task.number, p) in disk
      else Merged(e.task.number) in disk
    case _ => true
  }

  ghost predicate FilesInv(job: Job, m: Master)
    requires job.nReduce >= 1
  {
    && MapsPart(job, m.disk)
    && (forall id :: 0 <= id < |m.execs| ==> HasCreated(job, m.disk, m.execs[id]))
    && (InMapPhase(m) ==> forall id :: 0 <= id < |m.execs| ==> m.execs[id].task.phase == MapPhase)
  }

  lemma WritesPart(job: Job, disk: Disk, e: Exec, key: string)
    requires job.nReduce >= 1 && WellPlaced(job, e) && CanAdvance(job, e, disk, key) && MapsPart(job, disk)
    ensures MapsPart(job, NextDisk(job, e, disk, key))
  {
    hide Bucket, AllWritten, Reduced;
    var disk' := NextDisk(job, e, disk, key);
    forall m, r | 0 <= m < |job.inputs| && 0 <= r < job.nReduce && Intermediate(m, r) in disk'
      ensures Part(disk'[Intermediate(m, r)], Bucket(job, Emitted(job, m), r))
    {
      assert Intermediate(m, r) in disk ==> Part(disk[Intermediate(m, r)], Bucket(job, Emitted(job, m), r));
    }
  }

  lemma Creates(job: Job, disk: Disk, e: Exec, key: string)
    requires job.nReduce >= 1 && WellPlaced(job, e) && CanAdvance(job, e, disk, key) && HasCreated(job, disk, e)
    ensures disk.Keys <= NextDisk(job, e, disk, key).Keys
    ensures HasCreated(job, NextDisk(job, e, disk, key), e.(pc := NextPc(job, e, disk, key)))
  {
    hide Bucket, AllWritten, Reduced;
  }

  lemma StillCreated(job: Job, disk: Disk, disk': Disk, e: Exec)
    requires HasCreated(job, disk, e) && disk.Keys <= disk'.Keys
    ensures HasCreated(job, disk', e)
  {
  }

  lemma StepFiles(job: Job, m: Master, step: Step)
    requires job.nReduce >= 1 && BaseInv(job, m) && FilesInv(job, m) && Enabled(job, m, step)
    ensures FilesInv(job, Do(job, m, step))
  {
    hide MapsPart, HasCreated, SchedInv, RoutineInv, WellPlaced, CanAdvance, NextDisk, NextPc, CanMove;
    match step
    case Act(move) =>
      if move.Take? || move.TakeReturned? {
        NothingCreated(job, m.disk, Task(m.stage.s.phase, move.t));
      }
      MovedPhase(m, move);
    case Advance(id, key) =>
      var disk' := NextDisk(job, m.execs[id], m.disk, key);
      WritesPart(job, m.disk, m.execs[id], key);
      Creates(job, m.disk, m.execs[id], key);
      forall j | 0 <= j < |m.execs| ensures HasCreated(job, disk', m.execs[j]) || j == id {
        StillCreated(job, m.disk, disk', m.execs[j]);
      }
    case Stop(id) => StoppedCreates(job, m.disk, m.execs[id]);
    case _ =>
  }

  lemma MovedPhase(m: Master, move: Move)
    requires m.stage.InPhase? && CanMove(m.workers, m.stage.s, move)
    ensures Moved(m.workers, m.stage.s, move, |m.execs|).phase == m.stage.s.phase
  {
  }

  lemma NothingCreated(job: Job, disk: Disk, task: Task)
    ensures HasCreated(job, disk, Started(task))
  {
  }

  lemma StoppedCreates(job: Job, disk: Disk, e: Exec)
    ensures HasCreated(job, disk, e.(pc := Stopped))
  {
  }

  lemma InitialFiles(job: Job)
    requires job.nReduce >= 1
    ensures FilesInv(job, Initial(job))
  {
  }

  lemma {:induction false} RunFiles(job: Job, run: seq<Master>, b: nat)
    requires IsRun(job, run) && b < |run|
    ensures BaseInv(job, run[b]) && FilesInv(job, run[b])
    decreases b
  {
    hide BaseInv, FilesInv, Enabled, Do;
    RunBase(job, run, b);
    if b == 0 {
      InitialFiles(job);
    } else {
      RunFiles(job, run, b - 1);
      assert Next(job, run[b - 1], run[b - 1 + 1]);
      var step :| Enabled(job, run[b - 1], step) && run[b] == Do(job, run[b - 1], step);
      StepFiles(job, run[b - 1], step);
    }
  }

  // What the files of a phase that is over amount to -------------------------------------------------

  /** At the end of the phase every task has an execution that ended. */
  lemma PhaseEnded(job: Job, m: Master, phase: Phase, t: nat) returns (id: nat)
    requires job.nReduce >= 1 && BaseInv(job, m) && PhaseOver(m, phase) && t < TaskCount(job, phase)
    ensures id < |m.execs| && m.execs[id] == Exec(Task(phase, t), Ended)
  {
    hide Conserved, WellPlaced;
    var s := m.stage.s;
    PendingZeroIff(s.routines);
    assert RoutineInv(m.execs, Task(phase, t), s.routines[t]);
    id :| 0 <= id < |m.execs| && m.execs[id] == Exec(Task(phase, t), Ended);
  }

  ghost predicate AllThere(job: Job, disk: Disk) {
    forall m, r :: 0 <= m < |job.inputs| && 0 <= r < job.nReduce ==> Intermediate(m, r) in disk
  }

  lemma MapsThere(job: Job, m: Master)
    requires job.nReduce >= 1 && BaseInv(job, m) && FilesInv(job, m) && PhaseOver(m, MapPhase)
    ensures AllThere(job, m.disk)
  {
    hide BaseInv, MapsPart;
    forall k, r | 0 <= k < |job.inputs| && 0 <= r < job.nReduce ensures Intermediate(k, r) in m.disk {
      var id := PhaseEnded(job, m, MapPhase, k);
      assert HasCreated(job, m.disk, m.execs[id]);
    }
  }

  lemma OutputsThere(job: Job, m: Master)
    requires job.nReduce >= 1 && BaseInv(job, m) && FilesInv(job, m) && PhaseOver(m, ReducePhase)
    ensures AllMerged(ViewOf(m.disk), job.nReduce)
  {
    hide BaseInv, MapsPart, Contents;
    forall r | 0 <= r < job.nReduce ensures Merged(r) in m.disk {
      var id := PhaseEnded(job, m, ReducePhase, r);
      assert HasCreated(job, m.disk, m.execs[id]);
    }
  }

  /** A decoder gets all pairs only from the right file. */
  lemma PartContents(file: File, pairs: seq<KeyValue>)
    requires Part(file, pairs)
    ensures |Contents(file)| <= |pairs|
    ensures |Contents(file)| == |pairs| ==> file == FileOf(pairs)
  {
    hide Contents;
    ContentsAt(file);
    FileOfAt(pairs);
    var n := |Contents(file)|;
    assert n > 0 ==> n - 1 in file;
  }

  lemma ReadyView(disk: Disk, job: Job, n: nat, r: nat)
    requires AllThere(job, disk) && n <= |job.inputs| && r < job.nReduce
    ensures Ready(ViewOf(disk), n, r)
  {
    hide Contents;
  }

  /** What a reduce task finds is never too long, and too short when one of its files is not right. */
  lemma {:induction false} PartIsShorter(job: Job, disk: Disk, r: nat, n: nat)
    requires job.nReduce >= 1 && MapsPart(job, disk) && AllThere(job, disk) && r < job.nReduce && n <= |job.inputs|
    ensures Ready(ViewOf(disk), n, r) && |ReadAll(ViewOf(disk), n, r)| <= |RightInput(job, r, n)|
    ensures forall m :: 0 <= m < n && !Whole(job, disk, m, r) ==> |ReadAll(ViewOf(disk), n, r)| < |RightInput(job, r, n)|
    decreases n
  {
    hide Bucket, Contents, Part;
    ReadyView(disk, job, n, r);
    if n > 0 {
      PartIsShorter(job, disk, r, n - 1);
      PartContents(disk[Intermediate(n - 1, r)], Bucket(job, Emitted(job, n - 1), r));
    }
  }
}
