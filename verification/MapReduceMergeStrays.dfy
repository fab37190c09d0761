/**
  * The same question at the end of the reduce phase: whatever is left running, every continuation that completes has
  * the right output exactly when the outputs are right and no execution of a reduce task is left that can still change
  * its file.
  */
module MapReduceMergeStrays {
  import opened MapReduce
  import opened MapReduceSchedule
  import opened MapReduceExecution
  import opened MapReduceRuns
  import opened MapReduceSound
  import opened MapReduceStrays

  // Keys ---------------------------------------------------------------------------------------------

  function KeySet(pairs: seq<KeyValue>): set<string> {
    set x | 0 <= x < |pairs| :: pairs[x].key
  }

  lemma KeySetHas(pairs: seq<KeyValue>, key: string)
    ensures key in KeySet(pairs) <==> HasKey(pairs, key)
  {
  }

  /** As many keys as pairs exactly when all keys are different. */
  lemma {:induction false} KeySetSize(pairs: seq<KeyValue>)
    ensures |KeySet(pairs)| <= |pairs|
    ensures |KeySet(pairs)| == |pairs| <==> forall x, y :: 0 <= x < y < |pairs| ==> pairs[x].key != pairs[y].key
    decreases |pairs|
  {
    if pairs != [] {
      var front, last := pairs[..|pairs| - 1], pairs[|pairs| - 1];
      KeySetSize(front);
      assert forall x :: 0 <= x < |front| ==> front[x] == pairs[x];
      assert KeySet(pairs) == KeySet(front) + {last.key};
    }
  }

  ghost predicate KeysFrom(out: seq<KeyValue>, read: seq<KeyValue>) {
    forall key :: HasKey(out, key) ==> HasKey(read, key)
  }

  predicate Unwritten(read: seq<KeyValue>, out: seq<KeyValue>, key: string) {
    HasKey(read, key) && !HasKey(out, key)
  }

  // Executions that read right files -----------------------------------------------------------------

  /** An execution of a reduce task, newest or not, has read right so far and has reduced what it read. */
  ghost predicate Sane(job: Job, e: Exec)
    requires job.nReduce >= 1
  {
    && WellPlaced(job, e)
    && (e.pc.Reading? ==> ReadRight(job, e.task.number, e.pc.i, e.pc.pos, e.pc.read))
    && (e.pc.Writing? ==>
          && e.pc.read == RightInput(job, e.task.number, |job.inputs|) && PartlyReduced(job, e.pc.read, e.pc.out)
          && (!e.pc.open ==> e.pc.out == []))
  }

  lemma AdvanceSane(job: Job, disk: Disk, e: Exec, key: string)
    requires job.nReduce >= 1 && Sane(job, e) && CanAdvance(job, e, disk, key)
    requires e.task.phase == ReducePhase ==> MapsWhole(job, disk)
    ensures Sane(job, e.(pc := NextPc(job, e, disk, key)))
  {
    hide Bucket, ReadRight, RightInput, PartlyReduced, AllWritten, Reduced;
    StaysWellPlaced(job, e, disk, key);
    if e.pc.Reading? {
      assert e.pc.i < |job.inputs| ==> Whole(job, disk, e.pc.i, e.task.number);
      ReadAdvances(job, disk, e, key);
      NothingReduced(job, RightInput(job, e.task.number, |job.inputs|));
    } else if e.pc.Writing? {
      NothingReduced(job, e.pc.read);
      if e.pc.open && !AllWritten(e.pc.read, e.pc.out) {
        PartlyReducedSnoc(job, e.pc.read, e.pc.out, key);
      }
    }
  }

  ghost predicate AllSane(job: Job, m: Master)
    requires job.nReduce >= 1
  {
    forall id :: 0 <= id < |m.execs| ==> Sane(job, m.execs[id])
  }

  lemma StartedSane(job: Job, task: Task)
    requires job.nReduce >= 1 && TaskExists(job, task)
    ensures Sane(job, Started(task))
  {
    StartedProgress(job, map[], task);
  }

  lemma StoppedSane(job: Job, e: Exec)
    requires job.nReduce >= 1 && Sane(job, e)
    ensures Sane(job, e.(pc := Stopped))
  {
  }

  /** Every pair of a reduce output is the right one for its key, and there is room for one pair per key. */
  ghost predicate OutputPart(job: Job, read: seq<KeyValue>, file: File) {
    forall x: nat :: x in file ==>
      x < |KeySet(read)| && HasKey(read, file[x].key) && file[x] == Reduced(job, read, file[x].key)
  }

  ghost predicate OutputsPart(job: Job, disk: Disk)
    requires job.nReduce >= 1
  {
    forall r :: 0 <= r < job.nReduce && Merged(r) in disk ==>
      OutputPart(job, RightInput(job, r, |job.inputs|), disk[Merged(r)])
  }

  /** A key is left to write, so the position of the next write is inside the complete output. */
  lemma RoomForOne(job: Job, read: seq<KeyValue>, out: seq<KeyValue>, key: string)
    requires PartlyReduced(job, read, out) && Unwritten(read, out, key)
    ensures |out| < |KeySet(read)|
  {
    KeySetSize(out);
    KeySetHas(read, key);
    KeySetHas(out, key);
    forall k | k in KeySet(out) ensures k in KeySet(read) {
      KeySetHas(read, k);
    }
    SubsetSize(KeySet(out), KeySet(read));
  }

  lemma AdvanceOutputs(job: Job, disk: Disk, e: Exec, key: string)
    requires job.nReduce >= 1 && Sane(job, e) && CanAdvance(job, e, disk, key) && OutputsPart(job, disk)
    ensures OutputsPart(job, NextDisk(job, e, disk, key))
  {
    hide RightInput, Bucket, PartlyReduced, AllWritten, KeySet, ReadRight, Reduced, HasKey;
    var disk' := NextDisk(job, e, disk, key);
    var f := Merged(e.task.number);
    if e.pc.Writing? && e.pc.open && !AllWritten(e.pc.read, e.pc.out) {
      RoomForOne(job, e.pc.read, e.pc.out, key);
      ReducedKey(job, e.pc.read, key);
      assert f in disk ==> OutputPart(job, e.pc.read, disk[f]);
      assert OutputPart(job, e.pc.read, disk'[f]);
    }
    forall r | 0 <= r < job.nReduce && Merged(r) in disk'
      ensures OutputPart(job, RightInput(job, r, |job.inputs|), disk'[Merged(r)])
    {
      if Merged(r) != f || disk' == disk {
        assert OutputPart(job, RightInput(job, r, |job.inputs|), disk[Merged(r)]);
      }
    }
  }

  lemma ReducedKey(job: Job, read: seq<KeyValue>, key: string)
    ensures Reduced(job, read, key).key == key
  {
  }

  ghost predicate SaneInv(job: Job, m: Master)
    requires job.nReduce >= 1
  {
    AllSane(job, m) && OutputsPart(job, m.disk)
  }

  /** The intermediate files are right whenever a reduce task may read them. */
  ghost predicate InputsStayRight(job: Job, run: seq<Master>, b: nat)
    requires job.nReduce >= 1 && b < |run|
  {
    forall k :: 0 <= k <= b && !InMapPhase(run[k]) ==> MapsWhole(job, run[k].disk)
  }

  lemma StepSane(job: Job, m: Master, step: Step)
    requires job.nReduce >= 1 && BaseInv(job, m) && FilesInv(job, m) && SaneInv(job, m) && Enabled(job, m, step)
    requires !InMapPhase(m) ==> MapsWhole(job, m.disk)
    ensures SaneInv(job, Do(job, m, step))
  {
    hide Sane, SchedInv, RoutineInv, MapsWhole, MapsPart, HasCreated, OutputsPart, CanAdvance, WellPlaced, NextDisk,
         NextPc, Moved;
    match step
    case Act(move) =>
      if move.Take? || move.TakeReturned? {
        TakenExists(job, m, move);
        StartedSane(job, Task(m.stage.s.phase, move.t));
      }
    case Advance(id, key) =>
      AdvanceSane(job, m.disk, m.execs[id], key);
      AdvanceOutputs(job, m.disk, m.execs[id], key);
    case Stop(id) => StoppedSane(job, m.execs[id]);
    case _ =>
  }

  lemma TakenExists(job: Job, m: Master, move: Move)
    requires job.nReduce >= 1 && BaseInv(job, m) && Enabled(job, m, Act(move)) && (move.Take? || move.TakeReturned?)
    ensures TaskExists(job, Task(m.stage.s.phase, move.t))
  {
    hide Conserved;
  }

  lemma {:induction false} RunSane(job: Job, run: seq<Master>, b: nat)
    requires IsRun(job, run) && b < |run| && InputsStayRight(job, run, b)
    ensures SaneInv(job, run[b])
    decreases b
  {
    hide BaseInv, FilesInv, SaneInv, MapsWhole, Enabled, Do;
    if b == 0 {
      InitialSane(job);
    } else {
      RunSane(job, run, b - 1);
      RunFiles(job, run, b - 1);
      assert Next(job, run[b - 1], run[b - 1 + 1]);
      var step :| Enabled(job, run[b - 1], step) && run[b] == Do(job, run[b - 1], step);
      StepSane(job, run[b - 1], step);
    }
  }

  lemma InitialSane(job: Job)
    requires job.nReduce >= 1
    ensures SaneInv(job, Initial(job))
  {
  }

  // The outputs --------------------------------------------------------------------------------------

  ghost predicate OutputRight(job: Job, disk: Disk, r: nat)
    requires job.nReduce >= 1
  {
    exists out :: Has(disk, Merged(r), out) && IsReduced(out, RightInput(job, r, |job.inputs|), job.reduceF)
  }

  ghost predicate OutputsRight(job: Job, disk: Disk)
    requires job.nReduce >= 1
  {
    forall r :: 0 <= r < job.nReduce ==> OutputRight(job, disk, r)
  }

  /** `files` has the right intermediate files, and for every reduce task a right output, which is on the disk. */
  ghost predicate OutputsKept(job: Job, files: Files, disk: Disk)
    requires job.nReduce >= 1
  {
    && MapsDone(files, job) && ReducesDone(files, job)
    && forall r :: 0 <= r < job.nReduce ==>
         && Merged(r) in files && Has(disk, Merged(r), files[Merged(r)])
         && IsReduced(files[Merged(r)], RightInput(job, r, |job.inputs|), job.reduceF)
  }

  lemma RightIsKept(job: Job, disk: Disk)
    requires job.nReduce >= 1 && MapsWhole(job, disk) && OutputsRight(job, disk)
    ensures OutputsKept(job, ViewOf(disk), disk)
  {
    hide MapsWhole, MapsDone, Contents, IsReduced;
    var files := ViewOf(disk);
    ViewMapsDone(job, disk);
    forall r | 0 <= r < job.nReduce
      ensures Merged(r) in files && Has(disk, Merged(r), files[Merged(r)]) && ReduceDone(files, job, r)
      ensures IsReduced(files[Merged(r)], RightInput(job, r, |job.inputs|), job.reduceF)
    {
      assert OutputRight(job, disk, r);
      var out :| Has(disk, Merged(r), out) && IsReduced(out, RightInput(job, r, |job.inputs|), job.reduceF);
      ContentsOf(out);
      ReadAllRight(job, disk, r, |job.inputs|);
    }
  }

  /** In a run without stale writes the files of a phase that is over are right. */
  lemma QuietOutputsRight(job: Job, m: Master)
    requires job.nReduce >= 1 && BaseInv(job, m) && QuietInv(job, m) && PhaseOver(m, ReducePhase)
    ensures OutputsRight(job, m.disk)
  {
    hide BaseInv, Progress, Settled, Newest;
    PhaseSettled(job, m, ReducePhase);
    forall r | 0 <= r < job.nReduce ensures OutputRight(job, m.disk, r) {
      SettledOutput(job, m, r);
    }
  }

  lemma SettledOutput(job: Job, m: Master, r: nat)
    requires job.nReduce >= 1 && ExecsQuiet(job, m) && Settled(m.execs, Task(ReducePhase, r))
    ensures OutputRight(job, m.disk, r)
  {
    hide ExecsQuiet, Settled, IsReduced;
    SettledProgress(job, m, Task(ReducePhase, r));
  }

  /** The operations that an execution of a reduce task has left can change the file, which holds `final`. */
  ghost predicate Spoils(e: Exec, final: seq<KeyValue>) {
    match e.pc
    case Reading(_, _, _) => final != []
    case Writing(open, read, out) =>
      if open then exists key :: Unwritten(read, out, key) && !(|out| < |final| && final[|out|].key == key)
      else final != []
    case _ => false
  }

  ghost predicate SafeToMerge(job: Job, m: Master) {
    forall id :: 0 <= id < |m.execs| && m.execs[id].task.phase == ReducePhase ==>
      !Spoils(m.execs[id], Contents(FileAt(m.disk, Merged(m.execs[id].task.number))))
  }

  // If nothing can spoil an output, every continuation is right --------------------------------------

  /** An execution that will not change an output, and that keeps reading nothing where there is nothing to read. */
  ghost predicate Calm(job: Job, files: Files, e: Exec)
    requires job.nReduce >= 1
  {
    && WellPlaced(job, e)
    && (e.task.phase == ReducePhase ==>
          && Merged(e.task.number) in files && !Spoils(e, files[Merged(e.task.number)])
          && (e.pc.Reading? ==> e.pc.read == [])
          && (e.pc.Writing? ==>
                && e.pc.read == RightInput(job, e.task.number, |job.inputs|) && (!e.pc.open ==> e.pc.out == [])))
  }

  /** Where the right output is empty, so are the files that it comes from. */
  ghost predicate EmptyInputs(job: Job, files: Files, disk: Disk)
    requires job.nReduce >= 1
  {
    forall r :: 0 <= r < job.nReduce && Merged(r) in files && files[Merged(r)] == [] ==>
      forall j :: 0 <= j < |job.inputs| ==> Has(disk, Intermediate(j, r), []) && Bucket(job, Emitted(job, j), r) == []
  }

  lemma {:induction false} EmptyBuckets(job: Job, r: nat, n: nat)
    requires job.nReduce >= 1 && n <= |job.inputs| && RightInput(job, r, n) == []
    ensures forall j :: 0 <= j < n ==> Bucket(job, Emitted(job, j), r) == []
    decreases n
  {
    hide Bucket;
    if n > 0 {
      EmptyBuckets(job, r, n - 1);
    }
  }

  lemma {:induction false} EmptyInput(job: Job, r: nat, n: nat)
    requires job.nReduce >= 1 && n <= |job.inputs| && forall j :: 0 <= j < n ==> Bucket(job, Emitted(job, j), r) == []
    ensures RightInput(job, r, n) == []
    decreases n
  {
    hide Bucket;
    if n > 0 {
      EmptyInput(job, r, n - 1);
    }
  }

  /** A reduction is empty exactly when there was nothing to reduce. */
  lemma ReducedEmptyIff(job: Job, out: seq<KeyValue>, pairs: seq<KeyValue>)
    requires IsReduced(out, pairs, job.reduceF)
    ensures out == [] <==> pairs == []
  {
    if out != [] {
      assert HasKey(out, out[0].key);
    }
    if pairs != [] {
      assert HasKey(pairs, pairs[0].key);
    }
  }

  ghost predicate CalmStage(job: Job, files: Files, stage: Stage)
    requires job.nReduce >= 1
  {
    match stage
    case InPhase(s) => s.phase == ReducePhase && s.pending == 0
    case Merging(i, pos, kvs) => Collected(files, job.nReduce, i, pos, kvs)
    case Completed(out) => IsGroupReduce(out, AllEmitted(job, |job.inputs|), job.reduceF)
    case _ => true
  }

  ghost predicate AllCalm(job: Job, files: Files, m: Master)
    requires job.nReduce >= 1
  {
    && OutputsKept(job, files, m.disk) && EmptyInputs(job, files, m.disk) && CalmStage(job, files, m.stage)
    && forall id :: 0 <= id < |m.execs| ==> Calm(job, files, m.execs[id])
  }

  /** Only intermediate files of non-empty partitions may change. */
  ghost predicate SameOutputs(job: Job, files: Files, disk: Disk, disk': Disk)
    requires job.nReduce >= 1
  {
    && (forall r :: 0 <= r < job.nReduce && Merged(r) in disk ==> Merged(r) in disk' && disk'[Merged(r)] == disk[Merged(r)])
    && (forall r, j :: 0 <= r < job.nReduce && 0 <= j < |job.inputs| && Merged(r) in files && files[Merged(r)] == [] ==>
          Has(disk, Intermediate(j, r), []) ==> Has(disk', Intermediate(j, r), []))
  }

  lemma MapStaysCalm(job: Job, files: Files, disk: Disk, e: Exec, key: string)
    requires job.nReduce >= 1 && Calm(job, files, e) && EmptyInputs(job, files, disk)
    requires e.pc.Mapping? && CanAdvance(job, e, disk, key)
    ensures SameOutputs(job, files, disk, NextDisk(job, e, disk, key))
    ensures Calm(job, files, e.(pc := NextPc(job, e, disk, key)))
  {
    hide Bucket;
    StaysWellPlaced(job, e, disk, key);
  }

  lemma ReaderStaysCalm(job: Job, files: Files, disk: Disk, e: Exec, key: string)
    requires job.nReduce >= 1 && Calm(job, files, e) && EmptyInputs(job, files, disk)
    requires e.pc.Reading? && CanAdvance(job, e, disk, key)
    ensures NextDisk(job, e, disk, key) == disk && Calm(job, files, e.(pc := NextPc(job, e, disk, key)))
  {
    hide Bucket;
    StaysWellPlaced(job, e, disk, key);
    var r := e.task.number;
    assert e.pc.i < |job.inputs| ==> Has(disk, Intermediate(e.pc.i, r), []);
    EmptyInput(job, r, |job.inputs|);
  }

  lemma WriterStaysCalm(job: Job, files: Files, disk: Disk, e: Exec, key: string)
    requires job.nReduce >= 1 && Calm(job, files, e) && e.pc.Writing? && CanAdvance(job, e, disk, key)
    requires Has(disk, Merged(e.task.number), files[Merged(e.task.number)])
    requires IsReduced(files[Merged(e.task.number)], RightInput(job, e.task.number, |job.inputs|), job.reduceF)
    ensures NextDisk(job, e, disk, key) == disk && Calm(job, files, e.(pc := NextPc(job, e, disk, key)))
  {
    hide RightInput, AllWritten, Bucket;
    var final, read, out := files[Merged(e.task.number)], e.pc.read, e.pc.out;
    StaysWellPlaced(job, e, disk, key);
    ReducedEmptyIff(job, final, read);
    if !e.pc.open {
      NothingUnwritten(read, []);
    } else if !AllWritten(read, out) {
      assert Unwritten(read, out, key);
      RewriteSame(final, |out|);
      assert final[|out|] == Reduced(job, read, key);
      var more := out + [Reduced(job, read, key)];
      forall other | Unwritten(read, more, other) ensures false {
        StillUnwritten(read, out, Reduced(job, read, key), other);
      }
    }
  }

  lemma NothingUnwritten(read: seq<KeyValue>, out: seq<KeyValue>)
    ensures read == [] ==> forall key :: !Unwritten(read, out, key)
  {
  }

  lemma StillUnwritten(read: seq<KeyValue>, out: seq<KeyValue>, kv: KeyValue, other: string)
    requires Unwritten(read, out + [kv], other)
    ensures Unwritten(read, out, other) && other != kv.key
  {
    var more := out + [kv];
    HasKeyFront(more, other);
    assert more[..|more| - 1] == out;
  }

  lemma OutputsStillKept(job: Job, files: Files, disk: Disk, disk': Disk)
    requires job.nReduce >= 1 && OutputsKept(job, files, disk) && EmptyInputs(job, files, disk)
    requires SameOutputs(job, files, disk, disk')
    ensures OutputsKept(job, files, disk') && EmptyInputs(job, files, disk')
  {
    hide MapsDone, ReducesDone, IsReduced, Bucket;
    forall r | 0 <= r < job.nReduce && files[Merged(r)] == []
      ensures forall j :: 0 <= j < |job.inputs| ==> Has(disk', Intermediate(j, r), [])
    {
      forall j | 0 <= j < |job.inputs| ensures Has(disk', Intermediate(j, r), []) {
        assert Has(disk, Intermediate(j, r), []);
      }
    }
  }

  lemma AdvanceCalm(job: Job, files: Files, m: Master, id: nat, key: string)
    requires job.nReduce >= 1 && AllCalm(job, files, m) && Enabled(job, m, Advance(id, key))
    ensures AllCalm(job, files, Do(job, m, Advance(id, key)))
  {
    hide EmptyInputs, MapsDone, ReducesDone, IsReduced, CalmStage, SameOutputs, CanAdvance, NextDisk, NextPc;
    var e := m.execs[id];
    assert Calm(job, files, e);
    var disk' := NextDisk(job, e, m.disk, key);
    AdvanceKind(job, e, m.disk, key);
    if e.pc.Mapping? {
      MapStaysCalm(job, files, m.disk, e, key);
      OutputsStillKept(job, files, m.disk, disk');
    } else if e.pc.Reading? {
      ReaderStaysCalm(job, files, m.disk, e, key);
    } else {
      WriterStaysCalm(job, files, m.disk, e, key);
    }
  }

  lemma AdvanceKind(job: Job, e: Exec, disk: Disk, key: string)
    requires job.nReduce >= 1 && WellPlaced(job, e) && CanAdvance(job, e, disk, key)
    ensures e.pc.Mapping? || e.pc.Reading? || e.pc.Writing?
  {
  }

  /** At the end of a phase no goroutine changes it. */
  lemma NothingLeft(job: Job, m: Master, move: Move)
    requires job.nReduce >= 1 && BaseInv(job, m) && Enabled(job, m, Act(move)) && m.stage.s.pending == 0
    ensures var s' := Moved(m.workers, m.stage.s, move, |m.execs|); s'.phase == m.stage.s.phase && s'.pending == 0
    ensures StartedBy(m.stage.s, move) == []
  {
    hide Conserved, RoutineInv;
    PendingZeroIff(m.stage.s.routines);
  }

  lemma StoppedCalm(job: Job, files: Files, e: Exec)
    requires job.nReduce >= 1 && Calm(job, files, e)
    ensures Calm(job, files, e.(pc := Stopped))
  {
  }

  lemma MergeStartsCalm(job: Job, files: Files, disk: Disk)
    requires job.nReduce >= 1 && OutputsKept(job, files, disk)
    ensures Collected(files, job.nReduce, 0, 0, map[])
  {
    assert files[Merged(0)][..0] == [];
  }

  lemma StepCalm(job: Job, files: Files, m: Master, step: Step)
    requires job.nReduce >= 1 && BaseInv(job, m) && AllCalm(job, files, m) && Enabled(job, m, step)
    ensures AllCalm(job, files, Do(job, m, step))
  {
    hide BaseInv, EmptyInputs, MapsDone, ReducesDone, IsReduced, Calm, Collected, CanAdvance, NextDisk, NextPc, Moved,
         CanMove, Lists, IsGroupReduce, WellPlaced, Contents, Union;
    match step
    case Act(move) => NothingLeft(job, m, move);
    case Advance(id, key) => AdvanceCalm(job, files, m, id, key);
    case Stop(id) => StoppedCalm(job, files, m.execs[id]);
    case StartMerge => MergeStartsCalm(job, files, m.disk);
    case ReadMerged => ReadsCalm(job, files, m);
    case EndMerge(out) =>
      CollectedAll(files, job.nReduce, m.stage.pos, m.stage.kvs);
      MergeIsGroupReduce(files, job, out);
    case _ =>
  }

  lemma ReadsCalm(job: Job, files: Files, m: Master)
    requires job.nReduce >= 1 && OutputsKept(job, files, m.disk) && CalmStage(job, files, m.stage)
    requires m.stage.Merging? && m.stage.i < job.nReduce
    ensures var next := AfterRead(m); next.Merging? && Collected(files, job.nReduce, next.i, next.pos, next.kvs)
  {
    hide MapsDone, ReducesDone, IsReduced, Contents, Union;
    ContentsOf(files[Merged(m.stage.i)]);
    CollectsNext(m, files, job.nReduce);
  }

  lemma CollectedAll(files: Files, nReduce: nat, pos: nat, kvs: map<string, string>)
    requires Collected(files, nReduce, nReduce, pos, kvs)
    ensures AllMerged(files, nReduce) && kvs == Union(files, nReduce)
  {
  }

  lemma {:induction false} PathCalm(job: Job, files: Files, path: seq<Master>, b: nat)
    requires IsPath(job, path) && b < |path| && BaseInv(job, path[0]) && AllCalm(job, files, path[0])
    ensures BaseInv(job, path[b]) && AllCalm(job, files, path[b])
  {
    hide BaseInv, AllCalm, Enabled;
    if b > 0 {
      PathCalm(job, files, path, b - 1);
      assert Next(job, path[b - 1], path[b - 1 + 1]);
      var step :| Enabled(job, path[b - 1], step) && path[b] == Do(job, path[b - 1], step);
      StepBase(job, path[b - 1], step);
      StepCalm(job, files, path[b - 1], step);
    }
  }

  lemma CalmAtEnd(job: Job, m: Master)
    requires job.nReduce >= 1 && AllSane(job, m) && MapsWhole(job, m.disk) && OutputsRight(job, m.disk)
    requires PhaseOver(m, ReducePhase) && SafeToMerge(job, m)
    ensures AllCalm(job, ViewOf(m.disk), m)
  {
    hide OutputsRight, MapsDone, ReducesDone, Contents, SchedInv, RoutineInv, ReadRight, Bucket, PartlyReduced;
    RightIsKept(job, m.disk);
    var files := ViewOf(m.disk);
    forall r | 0 <= r < job.nReduce && Merged(r) in files && files[Merged(r)] == []
      ensures forall j :: 0 <= j < |job.inputs| ==> Has(m.disk, Intermediate(j, r), []) && Bucket(job, Emitted(job, j), r) == []
    {
      ReducedEmptyIff(job, files[Merged(r)], RightInput(job, r, |job.inputs|));
      EmptyBuckets(job, r, |job.inputs|);
      forall j | 0 <= j < |job.inputs| ensures Has(m.disk, Intermediate(j, r), []) {
        assert Whole(job, m.disk, j, r);
      }
    }
    forall id | 0 <= id < |m.execs| ensures Calm(job, files, m.execs[id]) {
      SaneIsCalm(job, m, id);
    }
  }

  lemma SaneIsCalm(job: Job, m: Master, id: nat)
    requires job.nReduce >= 1 && id < |m.execs| && Sane(job, m.execs[id]) && SafeToMerge(job, m)
    requires OutputsKept(job, ViewOf(m.disk), m.disk)
    ensures Calm(job, ViewOf(m.disk), m.execs[id])
  {
    hide MapsDone, ReducesDone, Contents, Bucket, PartlyReduced;
    var e := m.execs[id];
    if e.task.phase == ReducePhase {
      var r := e.task.number;
      assert FileAt(m.disk, Merged(r)) == m.disk[Merged(r)];
      ReducedEmptyIff(job, ViewOf(m.disk)[Merged(r)], RightInput(job, r, |job.inputs|));
      if e.pc.Reading? {
        EmptyBuckets(job, r, |job.inputs|);
        assert e.pc.i <= |job.inputs|;
        EmptyInput(job, r, e.pc.i);
      }
    }
  }

  lemma CalmContinuation(job: Job, files: Files, m: Master, m': Master)
    requires job.nReduce >= 1 && BaseInv(job, m) && AllCalm(job, files, m) && Leads(job, m, m')
    ensures m'.stage.Completed? ==> IsGroupReduce(m'.stage.out, AllEmitted(job, |job.inputs|), job.reduceF)
  {
    hide BaseInv, OutputsKept, EmptyInputs, Calm, IsGroupReduce;
    var path :| |path| > 0 && IsPath(job, path) && path[0] == m && path[|path| - 1] == m';
    PathCalm(job, files, path, |path| - 1);
  }

  // If something can, some continuation is wrong -----------------------------------------------------

  lemma ReadRightIsOf(job: Job, disk: Disk, r: nat, i: nat, pos: nat, read: seq<KeyValue>)
    requires job.nReduce >= 1 && i <= |job.inputs| && r < job.nReduce && MapsWhole(job, disk)
    requires ReadRight(job, r, i, pos, read)
    ensures Ready(ViewOf(disk), |job.inputs|, r) && ReadOf(job, ViewOf(disk), r, i, pos, read)
    ensures ReadAll(ViewOf(disk), |job.inputs|, r) == RightInput(job, r, |job.inputs|)
  {
    hide Bucket, Contents;
    ReadAllRight(job, disk, r, |job.inputs|);
    ReadAllRight(job, disk, r, i);
    if i < |job.inputs| {
      assert Whole(job, disk, i, r);
      ContentsOf(Bucket(job, Emitted(job, i), r));
    }
  }

  /** A reader reads on to the end of right files. */
  lemma ReadsOn(job: Job, m: Master, id: nat) returns (m': Master)
    requires job.nReduce >= 1 && id < |m.execs| && Sane(job, m.execs[id]) && m.execs[id].pc.Reading?
    requires MapsWhole(job, m.disk)
    ensures Leads(job, m, m')
    ensures var task := m.execs[id].task;
            m' == m.(execs := m.execs[id := Exec(task, Writing(false, RightInput(job, task.number, |job.inputs|), []))])
  {
    hide Leads, QuietlyLeads, MapsWhole, ReadRight, ReadOf, ViewOf;
    var e := m.execs[id];
    ReadRightIsOf(job, m.disk, e.task.number, e.pc.i, e.pc.pos, e.pc.read);
    m' := ReadsToEnd(job, m, id);
    QuietlyIsLeads(job, m, m');
  }

  lemma ReducedSize(job: Job, final: seq<KeyValue>, read: seq<KeyValue>)
    requires IsReduced(final, read, job.reduceF)
    ensures |final| == |KeySet(read)|
  {
    hide KeySet;
    KeySetSize(final);
    forall key ensures key in KeySet(final) <==> key in KeySet(read) {
      KeySetHas(final, key);
      KeySetHas(read, key);
    }
    assert KeySet(final) == KeySet(read);
  }

  lemma FileOfUpdate(pairs: seq<KeyValue>, x: nat, kv: KeyValue)
    requires x < |pairs|
    ensures FileOf(pairs)[x := kv] == FileOf(pairs[x := kv])
  {
    FileOfAt(pairs);
    FileOfAt(pairs[x := kv]);
  }

  /** Leads to a state that differs in the file of reduce task r only, which has lost `key`. */
  ghost predicate Spoilt(m: Master, m': Master, r: nat, final: seq<KeyValue>, found: seq<KeyValue>, key: string) {
    && m'.workers == m.workers && m'.stage == m.stage && |m'.execs| == |m.execs|
    && m'.disk == m.disk[Merged(r) := FileOf(found)]
    && KeysFrom(found, final) && HasKey(final, key) && !HasKey(found, key)
  }

  /** An execution that has yet to create the file empties it. */
  lemma Empties(job: Job, m: Master, id: nat, final: seq<KeyValue>) returns (m': Master)
    requires job.nReduce >= 1 && id < |m.execs| && Sane(job, m.execs[id]) && final != []
    requires m.execs[id].pc.Writing? && !m.execs[id].pc.open
    ensures Leads(job, m, m') && Spoilt(m, m', m.execs[id].task.number, final, [], final[0].key)
  {
    hide Leads;
    LeadsHere(job, m);
    LeadsOn(job, m, m, Advance(id, ""));
    m' := Do(job, m, Advance(id, ""));
    assert HasKey(final, final[0].key);
  }

  /** An execution that is about to write a key over another one loses the other one. */
  lemma Overwrites(job: Job, m: Master, id: nat, final: seq<KeyValue>, key: string)
    returns (m': Master, found: seq<KeyValue>, lost: string)
    requires job.nReduce >= 1 && id < |m.execs| && Sane(job, m.execs[id])
    requires m.execs[id].pc.Writing? && m.execs[id].pc.open
    requires var e := m.execs[id];
             && Has(m.disk, Merged(e.task.number), final)
             && IsReduced(final, RightInput(job, e.task.number, |job.inputs|), job.reduceF)
             && Unwritten(e.pc.read, e.pc.out, key)
             && !(|e.pc.out| < |final| && final[|e.pc.out|].key == key)
    ensures Leads(job, m, m') && Spoilt(m, m', m.execs[id].task.number, final, found, lost)
  {
    hide Leads, RightInput;
    var e := m.execs[id];
    var x := |e.pc.out|;
    RoomForOne(job, e.pc.read, e.pc.out, key);
    ReducedSize(job, final, e.pc.read);
    UnwrittenIsLeft(e.pc.read, e.pc.out, key);
    var kv := Reduced(job, e.pc.read, key);
    found, lost := final[x := kv], final[x].key;
    FileOfUpdate(final, x, kv);
    LeadsHere(job, m);
    LeadsOn(job, m, m, Advance(id, key));
    m' := Do(job, m, Advance(id, key));
    assert HasKey(final, key);
    forall k | HasKey(found, k) ensures HasKey(final, k) && k != lost {
      var y :| 0 <= y < |found| && found[y].key == k;
      assert y != x ==> final[y].key == k;
    }
  }

  lemma UnwrittenIsLeft(read: seq<KeyValue>, out: seq<KeyValue>, key: string)
    requires Unwritten(read, out, key)
    ensures !AllWritten(read, out)
  {
    var x :| 0 <= x < |read| && read[x].key == key;
  }

  lemma SpoilsSomething(job: Job, m: Master, id: nat, final: seq<KeyValue>)
    returns (m': Master, found: seq<KeyValue>, lost: string)
    requires job.nReduce >= 1 && id < |m.execs| && Sane(job, m.execs[id]) && MapsWhole(job, m.disk)
    requires Spoils(m.execs[id], final)
    requires Has(m.disk, Merged(m.execs[id].task.number), final)
    requires IsReduced(final, RightInput(job, m.execs[id].task.number, |job.inputs|), job.reduceF)
    ensures Leads(job, m, m') && Spoilt(m, m', m.execs[id].task.number, final, found, lost)
  {
    hide Leads, MapsWhole, RightInput, ReadRight, PartlyReduced, IsReduced;
    var e := m.execs[id];
    if e.pc.Reading? {
      var m1 := ReadsOn(job, m, id);
      NothingReduced(job, m1.execs[id].pc.read);
      m' := Empties(job, m1, id, final);
      found, lost := [], final[0].key;
      LeadsFrom(job, m, m1, m');
    } else if !e.pc.open {
      m' := Empties(job, m, id, final);
      found, lost := [], final[0].key;
    } else {
      var key :| Unwritten(e.pc.read, e.pc.out, key) && !(|e.pc.out| < |final| && final[|e.pc.out|].key == key);
      m', found, lost := Overwrites(job, m, id, final, key);
    }
  }

  // merge() then completes without it ----------------------------------------------------------------

  /** merge() can read all outputs to the end. */
  lemma {:induction false} MergeRuns(job: Job, m: Master, files: Files) returns (m': Master)
    requires job.nReduce >= 1 && m.stage.Merging? && m.stage.i <= job.nReduce
    requires Collected(files, job.nReduce, m.stage.i, m.stage.pos, m.stage.kvs)
    requires forall r :: 0 <= r < job.nReduce ==> Merged(r) in files && Decodes(m.disk, Merged(r), files[Merged(r)])
    ensures QuietlyLeads(job, m, m') && AllMerged(files, job.nReduce)
    ensures m' == m.(stage := Merging(job.nReduce, 0, Union(files, job.nReduce)))
    decreases job.nReduce - m.stage.i,
              if m.stage.i < job.nReduce then |files[Merged(m.stage.i)]| - m.stage.pos else 0
  {
    hide QuietlyLeads, Put, Union, Contents;
    QuietlyHere(job, m);
    if m.stage.i == job.nReduce {
      m' := m;
    } else {
      QuietlyOn(job, m, m, ReadMerged);
      var m1 := Do(job, m, ReadMerged);
      CollectsNext(m, files, job.nReduce);
      ReadsForward(m, files);
      m' := MergeRuns(job, m1, files);
      QuietlyFrom(job, m, m1, m');
    }
  }

  lemma ReadsForward(m: Master, files: Files)
    requires m.stage.Merging? && Merged(m.stage.i) in files && Decodes(m.disk, Merged(m.stage.i), files[Merged(m.stage.i)])
    requires m.stage.pos <= |files[Merged(m.stage.i)]|
    ensures var next := AfterRead(m);
            && next.Merging?
            && (if m.stage.pos < |files[Merged(m.stage.i)]| then next.i == m.stage.i && next.pos == m.stage.pos + 1
                else next.i == m.stage.i + 1)
  {
    hide Contents;
    ContentsAt(m.disk[Merged(m.stage.i)]);
  }

  lemma {:induction false} UnionKeys(files: Files, n: nat, key: string)
    requires AllMerged(files, n)
    ensures key in Union(files, n) <==> exists r :: 0 <= r < n && HasKey(files[Merged(r)], key)
    decreases n
  {
    hide HasKey, Put;
    if n > 0 {
      UnionKeys(files, n - 1, key);
      PutMeans(Union(files, n - 1), files[Merged(n - 1)], key);
    }
  }

  /** The keys that a reduce task reads are those of its partition. */
  lemma {:induction false} InputKeys(job: Job, r: nat, n: nat, key: string)
    requires job.nReduce >= 1 && n <= |job.inputs|
    ensures Values(RightInput(job, r, n), key) ==
            if PartitionOf(job, key) == r then Values(AllEmitted(job, n), key) else []
    decreases n
  {
    hide Bucket, Values;
    if n == 0 {
      NoValues(key);
    } else {
      InputKeys(job, r, n - 1, key);
      ValuesOfBucket(job, Emitted(job, n - 1), r, key);
      ValuesConcat(RightInput(job, r, n - 1), Bucket(job, Emitted(job, n - 1), r), key);
      ValuesConcat(AllEmitted(job, n - 1), Emitted(job, n - 1), key);
    }
  }

  lemma PartitionKeys(job: Job, r: nat, key: string)
    requires job.nReduce >= 1 && HasKey(RightInput(job, r, |job.inputs|), key)
    ensures PartitionOf(job, key) == r && HasKey(AllEmitted(job, |job.inputs|), key)
  {
    hide Bucket, Values, PartitionOf, RightInput, AllEmitted, HasKey;
    InputKeys(job, r, |job.inputs|, key);
    HasKeyIffValues(RightInput(job, r, |job.inputs|), key);
    HasKeyIffValues(AllEmitted(job, |job.inputs|), key);
  }

  /** The outputs have only keys of their own partitions. */
  ghost predicate OwnKeys(job: Job, files: Files)
    requires job.nReduce >= 1 && AllMerged(files, job.nReduce)
  {
    forall q :: 0 <= q < job.nReduce ==> KeysFrom(files[Merged(q)], RightInput(job, q, |job.inputs|))
  }

  lemma LostFromUnion(job: Job, files: Files, r: nat, lost: string)
    requires job.nReduce >= 1 && r < job.nReduce && AllMerged(files, job.nReduce)
    requires OwnKeys(job, files)
    requires HasKey(RightInput(job, r, |job.inputs|), lost) && !HasKey(files[Merged(r)], lost)
    ensures lost !in Union(files, job.nReduce) && HasKey(AllEmitted(job, |job.inputs|), lost)
  {
    hide RightInput, AllEmitted, HasKey, Union, PartitionOf;
    PartitionKeys(job, r, lost);
    UnionKeys(files, job.nReduce, lost);
    forall q | 0 <= q < job.nReduce ensures !HasKey(files[Merged(q)], lost) {
      assert KeysFrom(files[Merged(q)], RightInput(job, q, |job.inputs|));
      if q != r && HasKey(files[Merged(q)], lost) {
        PartitionKeys(job, q, lost);
      }
    }
  }

  lemma {:induction false} SomeOrder(keys: set<string>) returns (order: seq<string>)
    ensures forall i, j :: 0 <= i < j < |order| ==> order[i] != order[j]
    ensures forall key :: key in order <==> key in keys
    decreases |keys|
  {
    if keys == {} {
      order := [];
    } else {
      var key :| key in keys;
      var rest := SomeOrder(keys - {key});
      order := rest + [key];
    }
  }

  lemma Listing(kvs: map<string, string>) returns (out: seq<KeyValue>)
    ensures Lists(out, kvs)
  {
    var order := SomeOrder(kvs.Keys);
    var keys := SortStrings(order);
    assert forall x :: 0 <= x < |keys| ==> keys[x] in keys;
    out := seq(|keys|, x requires 0 <= x < |keys| => KeyValue(keys[x], kvs[keys[x]]));
    assert Keys(out) == keys;
    KeysMember(out);
  }

  /** At the end of the reduce phase the run can complete at once, with what the outputs hold now. */
  lemma Completes(job: Job, m: Master) returns (m': Master)
    requires job.nReduce >= 1 && PhaseOver(m, ReducePhase) && AllMerged(ViewOf(m.disk), job.nReduce)
    ensures QuietlyLeads(job, m, m') && m'.stage.Completed?
    ensures Lists(m'.stage.out, Union(ViewOf(m.disk), job.nReduce))
  {
    hide QuietlyLeads, Union, Contents, Lists;
    var files := ViewOf(m.disk);
    QuietlyHere(job, m);
    QuietlyOn(job, m, m, StartMerge);
    var m1 := Do(job, m, StartMerge);
    NothingCollected(files, job.nReduce);
    var m2 := MergeRuns(job, m1, files);
    QuietlyFrom(job, m, m1, m2);
    var out := Listing(m2.stage.kvs);
    QuietlyOn(job, m, m2, EndMerge(out));
    m' := Do(job, m2, EndMerge(out));
  }

  /** The run completes, and its output lacks a key that was emitted. */
  lemma CompletesWithout(job: Job, m: Master, r: nat, lost: string) returns (m': Master)
    requires job.nReduce >= 1 && PhaseOver(m, ReducePhase) && AllMerged(ViewOf(m.disk), job.nReduce)
    requires OwnKeys(job, ViewOf(m.disk)) && r < job.nReduce
    requires HasKey(RightInput(job, r, |job.inputs|), lost) && !HasKey(ViewOf(m.disk)[Merged(r)], lost)
    ensures Leads(job, m, m') && m'.stage.Completed?
    ensures !IsGroupReduce(m'.stage.out, AllEmitted(job, |job.inputs|), job.reduceF)
  {
    hide Leads, QuietlyLeads, HasKey, AllEmitted, RightInput, Union, Contents, OwnKeys;
    LostFromUnion(job, ViewOf(m.disk), r, lost);
    m' := Completes(job, m);
    QuietlyIsLeads(job, m, m');
  }

  lemma ViewKeys(job: Job, disk: Disk)
    requires job.nReduce >= 1 && OutputsPart(job, disk) && AllMerged(ViewOf(disk), job.nReduce)
    ensures OwnKeys(job, ViewOf(disk))
  {
    hide RightInput, Contents, KeySet, Reduced;
    forall q | 0 <= q < job.nReduce ensures KeysFrom(ViewOf(disk)[Merged(q)], RightInput(job, q, |job.inputs|)) {
      assert Merged(q) in ViewOf(disk);
      ContentsAt(disk[Merged(q)]);
      assert OutputPart(job, RightInput(job, q, |job.inputs|), disk[Merged(q)]);
    }
  }

  lemma NothingCollected(files: Files, nReduce: nat)
    requires nReduce >= 1 && AllMerged(files, nReduce)
    ensures Collected(files, nReduce, 0, 0, map[])
  {
    assert files[Merged(0)][..0] == [];
  }

  lemma ReducedKeys(job: Job, final: seq<KeyValue>, read: seq<KeyValue>)
    requires IsReduced(final, read, job.reduceF)
    ensures KeysFrom(final, read) && KeysFrom(read, final)
  {
  }

  lemma SpoiltCompletes(job: Job, m: Master, id: nat) returns (m': Master)
    requires job.nReduce >= 1 && PhaseOver(m, ReducePhase) && id < |m.execs| && Sane(job, m.execs[id])
    requires MapsWhole(job, m.disk) && OutputsKept(job, ViewOf(m.disk), m.disk)
    requires m.execs[id].task.phase == ReducePhase
    requires Spoils(m.execs[id], ViewOf(m.disk)[Merged(m.execs[id].task.number)])
    ensures Leads(job, m, m') && m'.stage.Completed?
    ensures !IsGroupReduce(m'.stage.out, AllEmitted(job, |job.inputs|), job.reduceF)
  {
    hide Leads, MapsWhole, MapsDone, ReducesDone, IsGroupReduce, Contents, ReadRight, PartlyReduced, Spoils, FileOf,
         RightInput, HasKey;
    var files, r := ViewOf(m.disk), m.execs[id].task.number;
    var final := files[Merged(r)];
    var m1, found, lost := SpoilsSomething(job, m, id, final);
    ContentsOf(found);
    forall q | 0 <= q < job.nReduce ensures KeysFrom(ViewOf(m1.disk)[Merged(q)], RightInput(job, q, |job.inputs|)) {
      assert Merged(q) in m.disk && files[Merged(q)] == Contents(m.disk[Merged(q)]);
      ReducedKeys(job, files[Merged(q)], RightInput(job, q, |job.inputs|));
    }
    m' := CompletesWithout(job, m1, r, lost);
    LeadsFrom(job, m, m1, m');
  }

  // An output that is not right ----------------------------------------------------------------------

  /** A file that has some of the right pairs, and is not right, lacks a key. */
  lemma LacksKey(job: Job, read: seq<KeyValue>, file: File) returns (lost: string)
    requires OutputPart(job, read, file)
    requires !(file == FileOf(Contents(file)) && IsReduced(Contents(file), read, job.reduceF))
    ensures HasKey(read, lost) && !HasKey(Contents(file), lost)
  {
    hide Contents, KeySet, HasKey, FileOf;
    var found := Contents(file);
    ContentsAt(file);
    FileOfAt(found);
    assert |found| > 0 ==> |found| - 1 in file;
    if key :| HasKey(read, key) && !HasKey(found, key) {
      lost := key;
    } else {
      forall key | key in KeySet(read) ensures key in KeySet(found) {
        KeySetHas(read, key);
        KeySetHas(found, key);
      }
      SubsetSize(KeySet(read), KeySet(found));
      KeySetSize(found);
      assert file == FileOf(found);
      PartIsReduced(job, read, found);
    }
  }

  lemma PartIsReduced(job: Job, read: seq<KeyValue>, found: seq<KeyValue>)
    requires forall x, y :: 0 <= x < y < |found| ==> found[x].key != found[y].key
    requires forall x :: 0 <= x < |found| ==> HasKey(read, found[x].key) && found[x] == Reduced(job, read, found[x].key)
    requires forall key :: HasKey(read, key) ==> HasKey(found, key)
    ensures IsReduced(found, read, job.reduceF)
  {
  }

  lemma WrongCompletes(job: Job, m: Master) returns (m': Master)
    requires job.nReduce >= 1 && PhaseOver(m, ReducePhase) && AllMerged(ViewOf(m.disk), job.nReduce)
    requires OutputsPart(job, m.disk) && !OutputsRight(job, m.disk)
    ensures Leads(job, m, m') && m'.stage.Completed?
    ensures !IsGroupReduce(m'.stage.out, AllEmitted(job, |job.inputs|), job.reduceF)
  {
    hide Leads, IsGroupReduce, IsReduced, Contents, RightInput, HasKey, FileOf, OutputPart;
    var r :| 0 <= r < job.nReduce && !OutputRight(job, m.disk, r);
    assert Merged(r) in ViewOf(m.disk);
    assert OutputPart(job, RightInput(job, r, |job.inputs|), m.disk[Merged(r)]);
    ViewKeys(job, m.disk);
    var lost := LacksKey(job, RightInput(job, r, |job.inputs|), m.disk[Merged(r)]);
    m' := CompletesWithout(job, m, r, lost);
  }

  // The condition ------------------------------------------------------------------------------------

  ghost predicate EveryCompletionIsRight(job: Job, m: Master) {
    forall m' :: Leads(job, m, m') && m'.stage.Completed? ==>
      IsGroupReduce(m'.stage.out, AllEmitted(job, |job.inputs|), job.reduceF)
  }

  /**
    * A run in which the reduce tasks always found right files has come to the end of the reduce phase. Every
    * continuation that completes has the right output exactly when the outputs are right and no execution of a reduce
    * task is left that can still change its file.
    */
  lemma OutputRightIff(job: Job, run: seq<Master>, b: nat)
    requires IsRun(job, run) && b < |run| && PhaseOver(run[b], ReducePhase) && InputsStayRight(job, run, b)
    ensures EveryCompletionIsRight(job, run[b]) <==> OutputsRight(job, run[b].disk) && SafeToMerge(job, run[b])
  {
    hide BaseInv, FilesInv, Leads, AllCalm, OutputsRight, OutputsPart, MapsWhole, IsGroupReduce;
    var m := run[b];
    RunFiles(job, run, b);
    RunSane(job, run, b);
    OutputsThere(job, m);
    if OutputsRight(job, m.disk) && SafeToMerge(job, m) {
      CalmAtEnd(job, m);
      forall m' | Leads(job, m, m') && m'.stage.Completed?
        ensures IsGroupReduce(m'.stage.out, AllEmitted(job, |job.inputs|), job.reduceF)
      {
        CalmContinuation(job, ViewOf(m.disk), m, m');
      }
    } else if OutputsRight(job, m.disk) {
      var m' := UnsafeCompletes(job, m);
    } else {
      var m' := WrongCompletes(job, m);
    }
  }

  lemma UnsafeCompletes(job: Job, m: Master) returns (m': Master)
    requires job.nReduce >= 1 && PhaseOver(m, ReducePhase) && SaneInv(job, m)
    requires MapsWhole(job, m.disk) && OutputsRight(job, m.disk) && !SafeToMerge(job, m)
    ensures Leads(job, m, m') && m'.stage.Completed?
    ensures !IsGroupReduce(m'.stage.out, AllEmitted(job, |job.inputs|), job.reduceF)
  {
    hide Leads, OutputsRight, OutputsPart, MapsWhole, MapsDone, ReducesDone, IsReduced, IsGroupReduce, Spoils, Contents;
    var id :| 0 <= id < |m.execs| && m.execs[id].task.phase == ReducePhase &&
              Spoils(m.execs[id], Contents(FileAt(m.disk, Merged(m.execs[id].task.number))));
    assert Sane(job, m.execs[id]);
    SaneTask(job, m.execs[id]);
    RightIsKept(job, m.disk);
    m' := SpoiltCompletes(job, m, id);
  }

  lemma SaneTask(job: Job, e: Exec)
    requires job.nReduce >= 1 && Sane(job, e) && e.task.phase == ReducePhase
    ensures e.task.number < job.nReduce
  {
  }

  /** When nothing wrote stale data up to there, the outputs are right, and what is left to run decides. */
  lemma OutputRightIffSafe(job: Job, run: seq<Master>, b: nat)
    requires IsQuietRun(job, run) && b < |run| && PhaseOver(run[b], ReducePhase)
    ensures EveryCompletionIsRight(job, run[b]) <==> SafeToMerge(job, run[b])
  {
    hide BaseInv, QuietInv, EveryCompletionIsRight, SafeToMerge, OutputsRight, MapsWhole;
    QuietRunIsRun(job, run);
    forall k | 0 <= k <= b && !InMapPhase(run[k]) ensures MapsWhole(job, run[k].disk) {
      RunQuiet(job, run, k);
      QuietMapsWhole(job, run[k]);
    }
    RunQuiet(job, run, b);
    QuietOutputsRight(job, run[b]);
    OutputRightIff(job, run, b);
  }

  // From the end of the map phase --------------------------------------------------------------------

  lemma {:induction false} MapPhaseBefore(job: Job, run: seq<Master>, k: nat, a: nat)
    requires IsRun(job, run) && k <= a < |run| && InMapPhase(run[a])
    ensures InMapPhase(run[k])
    decreases a - k
  {
    hide WellPlaced, CanAdvance, NextDisk, NextPc;
    if k < a {
      assert Next(job, run[a - 1], run[a - 1 + 1]);
      var step :| Enabled(job, run[a - 1], step) && run[a] == Do(job, run[a - 1], step);
      MapPhaseBefore(job, run, k, a - 1);
    }
  }

  /** Once the condition of the map phase holds, the reduce tasks find right files to the end. */
  lemma SafeMapsStayRight(job: Job, run: seq<Master>, a: nat, b: nat)
    requires IsRun(job, run) && a <= b < |run| && PhaseOver(run[a], MapPhase)
    requires MapsWhole(job, run[a].disk) && Safe(job, run[a])
    ensures InputsStayRight(job, run, b)
  {
    hide BaseInv, FilesInv, Safe, MapsWhole, Next;
    RunFiles(job, run, a);
    HarmlessAtEnd(job, run[a]);
    forall k | 0 <= k <= b && !InMapPhase(run[k]) ensures MapsWhole(job, run[k].disk) {
      if k < a {
        MapPhaseBefore(job, run, k, a);
      } else {
        PathHarmless(job, run[a..], k - a);
      }
    }
  }
}
