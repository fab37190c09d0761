/**
  * Executions that outlive their calls. At the end of the map phase it is decided whether they can still do harm:
  * every continuation gives the reduce tasks the right input exactly when the files are right and no execution of a
  * map task is left that has yet to create a file which should not be empty.
  */
module MapReduceStrays {
  import opened MapReduce
  import opened MapReduceSchedule
  import opened MapReduceExecution
  import opened MapReduceRuns
  import opened MapReduceSound

  // Continuations ------------------------------------------------------------------------------------

  ghost predicate IsPath(job: Job, path: seq<Master>) {
    job.nReduce >= 1 && |path| > 0 && forall k :: 0 <= k < |path| - 1 ==> Next(job, path[k], path[k + 1])
  }

  ghost predicate Leads(job: Job, m: Master, m': Master) {
    exists path :: IsPath(job, path) && path[0] == m && path[|path| - 1] == m'
  }

  lemma LeadsHere(job: Job, m: Master)
    requires job.nReduce >= 1
    ensures Leads(job, m, m)
  {
    assert IsPath(job, [m]) && [m][0] == m;
  }

  lemma LeadsOn(job: Job, m: Master, m': Master, step: Step)
    requires job.nReduce >= 1 && Leads(job, m, m') && Enabled(job, m', step)
    ensures Leads(job, m, Do(job, m', step))
  {
    hide Enabled, Do;
    var path :| IsPath(job, path) && path[0] == m && path[|path| - 1] == m';
    var longer := path + [Do(job, m', step)];
    assert Next(job, m', Do(job, m', step));
    forall k | 0 <= k < |longer| - 1 ensures Next(job, longer[k], longer[k + 1]) {
      if k < |path| - 1 {
        assert longer[k] == path[k] && longer[k + 1] == path[k + 1];
      }
    }
    assert IsPath(job, longer) && longer[0] == m && longer[|longer| - 1] == Do(job, m', step);
  }

  lemma LeadsFrom(job: Job, m: Master, m': Master, m'': Master)
    requires Leads(job, m, m') && Leads(job, m', m'')
    ensures Leads(job, m, m'')
  {
    var p :| IsPath(job, p) && p[0] == m && p[|p| - 1] == m';
    var q :| IsPath(job, q) && q[0] == m' && q[|q| - 1] == m'';
    var both := p + q[1..];
    forall k | 0 <= k < |both| - 1 ensures Next(job, both[k], both[k + 1]) {
      if k < |p| - 1 {
        assert both[k] == p[k] && both[k + 1] == p[k + 1];
      } else {
        var j := k - (|p| - 1);
        assert both[k] == q[j] && both[k + 1] == q[j + 1];
      }
    }
    assert IsPath(job, both) && both[0] == m && both[|both| - 1] == m'';
  }

  /** A continuation without stale writes. */
  ghost predicate IsQuietPath(job: Job, path: seq<Master>) {
    job.nReduce >= 1 && |path| > 0 && forall k :: 0 <= k < |path| - 1 ==> NextQuiet(job, path[k], path[k + 1])
  }

  ghost predicate QuietlyLeads(job: Job, m: Master, m': Master) {
    exists path :: IsQuietPath(job, path) && path[0] == m && path[|path| - 1] == m'
  }

  lemma QuietlyIsLeads(job: Job, m: Master, m': Master)
    requires QuietlyLeads(job, m, m')
    ensures Leads(job, m, m')
  {
    var path :| IsQuietPath(job, path) && path[0] == m && path[|path| - 1] == m';
    forall k | 0 <= k < |path| - 1 ensures Next(job, path[k], path[k + 1]) {
      assert NextQuiet(job, path[k], path[k + 1]);
    }
    assert IsPath(job, path);
  }

  lemma QuietlyHere(job: Job, m: Master)
    requires job.nReduce >= 1
    ensures QuietlyLeads(job, m, m)
  {
    assert IsQuietPath(job, [m]) && [m][0] == m;
  }

  lemma QuietlyOn(job: Job, m: Master, m': Master, step: Step)
    requires job.nReduce >= 1 && QuietlyLeads(job, m, m') && Enabled(job, m', step) && Quiet(job, m', step)
    ensures QuietlyLeads(job, m, Do(job, m', step))
  {
    hide Enabled, Quiet, Do;
    var path :| IsQuietPath(job, path) && path[0] == m && path[|path| - 1] == m';
    var longer := path + [Do(job, m', step)];
    assert NextQuiet(job, m', Do(job, m', step));
    forall k | 0 <= k < |longer| - 1 ensures NextQuiet(job, longer[k], longer[k + 1]) {
      if k < |path| - 1 {
        assert longer[k] == path[k] && longer[k + 1] == path[k + 1];
      }
    }
    assert IsQuietPath(job, longer) && longer[0] == m && longer[|longer| - 1] == Do(job, m', step);
  }

  lemma QuietlyFrom(job: Job, m: Master, m': Master, m'': Master)
    requires QuietlyLeads(job, m, m') && QuietlyLeads(job, m', m'')
    ensures QuietlyLeads(job, m, m'')
  {
    var p :| IsQuietPath(job, p) && p[0] == m && p[|p| - 1] == m';
    var q :| IsQuietPath(job, q) && q[0] == m' && q[|q| - 1] == m'';
    var both := p + q[1..];
    forall k | 0 <= k < |both| - 1 ensures NextQuiet(job, both[k], both[k + 1]) {
      if k < |p| - 1 {
        assert both[k] == p[k] && both[k + 1] == p[k + 1];
      } else {
        var j := k - (|p| - 1);
        assert both[k] == q[j] && both[k + 1] == q[j + 1];
      }
    }
    assert IsQuietPath(job, both) && both[0] == m && both[|both| - 1] == m'';
  }

  // Harmless executions stay harmless ----------------------------------------------------------------

  /** It will empty a file that should hold something, even if only for a while. */
  ghost predicate Damaging(job: Job, e: Exec)
    requires job.nReduce >= 1 && WellPlaced(job, e)
  {
    e.pc.Mapping? && exists p: nat :: NextCreated(e.pc) <= p < job.nReduce && Bucket(job, Emitted(job, e.task.number), p) != []
  }

  /** No execution that is left can do damage. */
  ghost predicate Safe(job: Job, m: Master)
    requires job.nReduce >= 1
  {
    forall id :: 0 <= id < |m.execs| && WellPlaced(job, m.execs[id]) ==> !Damaging(job, m.execs[id])
  }

  /** A reduce execution that has read its input has read the right one. */
  ghost predicate InputRight(job: Job, e: Exec)
    requires job.nReduce >= 1
  {
    e.pc.Writing? ==> e.pc.read == RightInput(job, e.task.number, |job.inputs|)
  }

  ghost predicate InputsRight(job: Job, m: Master)
    requires job.nReduce >= 1
  {
    forall id :: 0 <= id < |m.execs| ==> InputRight(job, m.execs[id])
  }

  /** What an execution can be while all is well: a harmless map execution, or a reduce execution that reads right. */
  ghost predicate Harmless(job: Job, e: Exec)
    requires job.nReduce >= 1
  {
    && WellPlaced(job, e) && !Damaging(job, e) && InputRight(job, e)
    && (e.task.phase == ReducePhase && e.pc.Reading? ==>
          ReadRight(job, e.task.number, e.pc.i, e.pc.pos, e.pc.read))
  }

  ghost predicate AllHarmless(job: Job, m: Master)
    requires job.nReduce >= 1
  {
    && (InMapPhase(m) ==> m.stage.s.pending == 0) && MapsWhole(job, m.disk)
    && forall id :: 0 <= id < |m.execs| ==> Harmless(job, m.execs[id])
  }

  lemma MapStaysHarmless(job: Job, disk: Disk, e: Exec, key: string)
    requires job.nReduce >= 1 && MapsWhole(job, disk) && Harmless(job, e)
    requires e.pc.Mapping? && CanAdvance(job, e, disk, key)
    ensures NextDisk(job, e, disk, key) == disk && Harmless(job, e.(pc := NextPc(job, e, disk, key)))
  {
    hide Bucket;
    StaysWellPlaced(job, e, disk, key);
    var m, r := e.task.number, e.pc.r;
    if r < job.nReduce {
      var pairs := Bucket(job, Emitted(job, m), r);
      assert Whole(job, disk, m, r);
      if e.pc.open && e.pc.written < |pairs| {
        RewriteSame(pairs, e.pc.written);
      } else if !e.pc.open {
        assert NextCreated(e.pc) <= r;
        assert pairs == [];
      }
    }
  }

  lemma ReduceStaysHarmless(job: Job, disk: Disk, e: Exec, key: string)
    requires job.nReduce >= 1 && MapsWhole(job, disk) && Harmless(job, e)
    requires e.task.phase == ReducePhase && CanAdvance(job, e, disk, key)
    ensures MapsWhole(job, NextDisk(job, e, disk, key)) && Harmless(job, e.(pc := NextPc(job, e, disk, key)))
  {
    hide Bucket, ReadRight, Reduced, AllWritten;
    StaysWellPlaced(job, e, disk, key);
    var disk' := NextDisk(job, e, disk, key);
    forall m, r | 0 <= m < |job.inputs| && 0 <= r < job.nReduce ensures Whole(job, disk', m, r) {
      assert Whole(job, disk, m, r);
      WritesOwnFiles(job, e, disk, key, Intermediate(m, r));
    }
    if e.pc.Reading? {
      assert e.pc.i < |job.inputs| ==> Whole(job, disk, e.pc.i, e.task.number);
      ReadAdvances(job, disk, e, key);
    }
  }

  lemma StartedHarmless(job: Job, task: Task)
    requires job.nReduce >= 1 && TaskExists(job, task) && task.phase == ReducePhase
    ensures Harmless(job, Started(task))
  {
    StartedProgress(job, map[], task);
  }

  lemma StepHarmless(job: Job, m: Master, step: Step)
    requires job.nReduce >= 1 && BaseInv(job, m) && AllHarmless(job, m) && Enabled(job, m, step)
    ensures AllHarmless(job, Do(job, m, step))
  {
    hide MapsWhole, Harmless, Conserved, RoutineInv, NextDisk, NextPc, CanAdvance, WellPlaced, Moved;
    match step
    case Act(move) =>
      NothingWaits(job, m, move);
      if move.Take? || move.TakeReturned? {
        StartedHarmless(job, Task(ReducePhase, move.t));
      }
    case Advance(id, key) =>
      var e := m.execs[id];
      PlacedOf(job, e);
      if e.task.phase == MapPhase {
        MapIsMapping(job, e, m.disk, key);
        MapStaysHarmless(job, m.disk, e, key);
      } else {
        ReduceStaysHarmless(job, m.disk, e, key);
      }
    case Stop(id) => StoppedHarmless(job, m.execs[id]);
    case _ =>
  }

  /** At the end of the map phase no task is given out. */
  lemma NothingWaits(job: Job, m: Master, move: Move)
    requires job.nReduce >= 1 && BaseInv(job, m) && Enabled(job, m, Act(move))
    requires InMapPhase(m) ==> m.stage.s.pending == 0
    ensures var s := m.stage.s; var s' := Moved(m.workers, s, move, |m.execs|);
            && s'.phase == s.phase && (s.phase == MapPhase ==> s'.pending == 0)
            && (move.Take? || move.TakeReturned? ==> s.phase == ReducePhase && move.t < job.nReduce)
  {
    hide Conserved, RoutineInv;
    PendingZeroIff(m.stage.s.routines);
  }

  lemma PlacedOf(job: Job, e: Exec)
    requires job.nReduce >= 1 && Harmless(job, e)
    ensures WellPlaced(job, e)
  {
  }

  lemma MapIsMapping(job: Job, e: Exec, disk: Disk, key: string)
    requires job.nReduce >= 1 && WellPlaced(job, e) && CanAdvance(job, e, disk, key) && e.task.phase == MapPhase
    ensures e.pc.Mapping?
  {
  }

  lemma StoppedHarmless(job: Job, e: Exec)
    requires job.nReduce >= 1 && Harmless(job, e)
    ensures Harmless(job, e.(pc := Stopped))
  {
  }

  lemma {:induction false} PathHarmless(job: Job, path: seq<Master>, b: nat)
    requires IsPath(job, path) && b < |path| && BaseInv(job, path[0]) && AllHarmless(job, path[0])
    ensures BaseInv(job, path[b]) && AllHarmless(job, path[b])
  {
    hide BaseInv, AllHarmless, Enabled;
    if b > 0 {
      PathHarmless(job, path, b - 1);
      assert Next(job, path[b - 1], path[b - 1 + 1]);
      var step :| Enabled(job, path[b - 1], step) && path[b] == Do(job, path[b - 1], step);
      StepBase(job, path[b - 1], step);
      StepHarmless(job, path[b - 1], step);
    }
  }

  // A damaging execution does damage in some continuation --------------------------------------------

  /** Nothing that has to be created before partition p should hold anything. */
  ghost predicate FirstDamage(job: Job, e: Exec, p: nat)
    requires job.nReduce >= 1 && WellPlaced(job, e)
  {
    && e.pc.Mapping? && NextCreated(e.pc) <= p < job.nReduce
    && Bucket(job, Emitted(job, e.task.number), p) != []
    && forall q :: NextCreated(e.pc) <= q < p ==> Bucket(job, Emitted(job, e.task.number), q) == []
  }

  lemma {:induction false} FirstDamageExists(job: Job, e: Exec, p: nat) returns (first: nat)
    requires job.nReduce >= 1 && WellPlaced(job, e) && e.pc.Mapping?
    requires NextCreated(e.pc) <= p < job.nReduce && Bucket(job, Emitted(job, e.task.number), p) != []
    ensures FirstDamage(job, e, first)
    decreases p
  {
    hide Bucket;
    if q: nat :| NextCreated(e.pc) <= q < p && Bucket(job, Emitted(job, e.task.number), q) != [] {
      first := FirstDamageExists(job, e, q);
    } else {
      first := p;
    }
  }

  /** The operations of one execution up to the one that empties file p. */
  lemma {:induction false} RunsToDamage(job: Job, m: Master, id: nat, p: nat) returns (m': Master)
    requires job.nReduce >= 1 && id < |m.execs| && WellPlaced(job, m.execs[id]) && FirstDamage(job, m.execs[id], p)
    requires MapsWhole(job, m.disk)
    ensures Leads(job, m, m')
    ensures var task := m.execs[id].task;
            m' == m.(disk := m.disk[Intermediate(task.number, p) := map[]],
                     execs := m.execs[id := Exec(task, Mapping(p, true, 0))])
    decreases p + 1 - NextCreated(m.execs[id].pc),
              if m.execs[id].pc.open
              then |Bucket(job, Emitted(job, m.execs[id].task.number), m.execs[id].pc.r)| - m.execs[id].pc.written + 1
              else 0
  {
    hide Bucket, Enabled, Leads, MapsWhole;
    var e := m.execs[id];
    var step := Advance(id, "");
    CanRun(job, m, id);
    LeadsHere(job, m);
    LeadsOn(job, m, m, step);
    var m1 := Do(job, m, step);
    StaysWellPlaced(job, e, m.disk, "");
    if !e.pc.open && e.pc.r == p {
      m' := m1;
    } else {
      UnchangedUntilDamage(job, m.disk, e, p);
      m' := RunsToDamage(job, m1, id, p);
      LeadsFrom(job, m, m1, m');
      assert m1.execs[id := Exec(e.task, Mapping(p, true, 0))] == m.execs[id := Exec(e.task, Mapping(p, true, 0))];
    }
  }

  lemma CanRun(job: Job, m: Master, id: nat)
    requires job.nReduce >= 1 && id < |m.execs| && WellPlaced(job, m.execs[id]) && m.execs[id].pc.Mapping?
    ensures Enabled(job, m, Advance(id, ""))
  {
  }

  lemma UnchangedUntilDamage(job: Job, disk: Disk, e: Exec, p: nat)
    requires job.nReduce >= 1 && WellPlaced(job, e) && FirstDamage(job, e, p) && MapsWhole(job, disk)
    requires e.pc.open || e.pc.r != p
    ensures NextDisk(job, e, disk, "") == disk
    ensures var e' := e.(pc := NextPc(job, e, disk, "")); WellPlaced(job, e') && FirstDamage(job, e', p)
  {
    hide Bucket;
    StaysWellPlaced(job, e, disk, "");
    var pairs := Bucket(job, Emitted(job, e.task.number), e.pc.r);
    assert Whole(job, disk, e.task.number, e.pc.r);
    if e.pc.open && e.pc.written < |pairs| {
      RewriteSame(pairs, e.pc.written);
    }
  }

  /** What has been read so far of the files as they are now. */
  ghost predicate ReadOf(job: Job, files: Files, r: nat, i: nat, pos: nat, read: seq<KeyValue>)
    requires i <= |job.inputs| && Ready(files, |job.inputs|, r)
  {
    if i == |job.inputs| then pos == 0 && read == ReadAll(files, i, r)
    else
      var pairs := files[Intermediate(i, r)];
      pos <= |pairs| && read == ReadAll(files, i, r) + pairs[..pos]
  }

  /** A reduce execution reads on to the end of the files, whatever they hold. */
  lemma {:induction false} ReadsToEnd(job: Job, m: Master, id: nat) returns (m': Master)
    requires job.nReduce >= 1 && id < |m.execs| && WellPlaced(job, m.execs[id]) && m.execs[id].pc.Reading?
    requires var e := m.execs[id];
             && Ready(ViewOf(m.disk), |job.inputs|, e.task.number)
             && ReadOf(job, ViewOf(m.disk), e.task.number, e.pc.i, e.pc.pos, e.pc.read)
    ensures QuietlyLeads(job, m, m')
    ensures var task := m.execs[id].task; var read := ReadAll(ViewOf(m.disk), |job.inputs|, task.number);
            m' == m.(execs := m.execs[id := Exec(task, Writing(false, read, []))])
    decreases |job.inputs| - m.execs[id].pc.i,
              if m.execs[id].pc.i < |job.inputs|
              then |ViewOf(m.disk)[Intermediate(m.execs[id].pc.i, m.execs[id].task.number)]| - m.execs[id].pc.pos else 0
  {
    hide QuietlyLeads, Newest, ReadOf, CanAdvance, Contents;
    var e := m.execs[id];
    CanRead(job, m.disk, e);
    QuietlyHere(job, m);
    QuietlyOn(job, m, m, Advance(id, ""));
    var m1 := Do(job, m, Advance(id, ""));
    StaysWellPlaced(job, e, m.disk, "");
    ReadNext(job, m.disk, e);
    if e.pc.i == |job.inputs| {
      m' := m1;
    } else {
      m' := ReadsToEnd(job, m1, id);
      QuietlyFrom(job, m, m1, m');
    }
  }

  lemma CanRead(job: Job, disk: Disk, e: Exec)
    requires job.nReduce >= 1 && WellPlaced(job, e) && e.pc.Reading?
    requires Ready(ViewOf(disk), |job.inputs|, e.task.number)
    ensures CanAdvance(job, e, disk, "")
  {
    hide Contents;
  }

  lemma ReadNext(job: Job, disk: Disk, e: Exec)
    requires job.nReduce >= 1 && WellPlaced(job, e) && e.pc.Reading? && CanAdvance(job, e, disk, "")
    requires var files := ViewOf(disk);
             Ready(files, |job.inputs|, e.task.number) && ReadOf(job, files, e.task.number, e.pc.i, e.pc.pos, e.pc.read)
    ensures var pc' := NextPc(job, e, disk, ""); var files := ViewOf(disk); var r := e.task.number;
            if e.pc.i == |job.inputs| then pc' == Writing(false, ReadAll(files, |job.inputs|, r), [])
            else
              && pc'.Reading? && e.pc.i <= pc'.i <= |job.inputs| && ReadOf(job, files, r, pc'.i, pc'.pos, pc'.read)
              && (pc'.i == e.pc.i ==> e.pc.pos < pc'.pos <= |files[Intermediate(e.pc.i, r)]|)
  {
    hide Contents;
    var i, pos, r, files := e.pc.i, e.pc.pos, e.task.number, ViewOf(disk);
    if i < |job.inputs| {
      var pairs := files[Intermediate(i, r)];
      ContentsAt(disk[Intermediate(i, r)]);
      if pos < |pairs| {
        assert pairs[..pos + 1] == pairs[..pos] + [pairs[pos]];
      } else {
        assert pairs[..pos] == pairs;
        assert i + 1 < |job.inputs| ==> files[Intermediate(i + 1, r)][..0] == [];
      }
    }
  }

  /** At the start of the reduce phase reduce task p can be given to a worker at once. */
  lemma TakesTask(job: Job, m: Master, p: nat) returns (m': Master)
    requires job.nReduce >= 1 && m.stage == InPhase(NewSchedule(job, ReducePhase)) && p < job.nReduce
    ensures Leads(job, m, m') && m'.disk == m.disk && m'.execs == m.execs + [Started(Task(ReducePhase, p))]
  {
    hide Leads;
    LeadsHere(job, m);
    var m1 := m;
    if m.workers == [] {
      LeadsOn(job, m, m1, Register("w"));
      m1 := Do(job, m, Register("w"));
    }
    LeadsOn(job, m, m1, Act(Forward));
    var m2 := Do(job, m1, Act(Forward));
    var take := Act(Take(p, m1.workers[0]));
    LeadsOn(job, m, m2, take);
    m' := Do(job, m2, take);
  }

  lemma StartedReads(job: Job, files: Files, p: nat)
    requires job.nReduce >= 1 && p < job.nReduce && Ready(files, |job.inputs|, p)
    ensures WellPlaced(job, Started(Task(ReducePhase, p))) && ReadOf(job, files, p, 0, 0, [])
  {
    assert |job.inputs| > 0 ==> files[Intermediate(0, p)][..0] == [];
  }

  /** If a file is not right when the reduce phase starts, some continuation reads a wrong input. */
  lemma WrongFileIsRead(job: Job, m: Master) returns (m': Master)
    requires job.nReduce >= 1 && m.stage == InPhase(NewSchedule(job, ReducePhase))
    requires MapsPart(job, m.disk) && AllThere(job, m.disk) && !MapsWhole(job, m.disk)
    ensures Leads(job, m, m') && !InputsRight(job, m')
  {
    hide Leads, MapsPart, AllThere, Whole, ViewOf, ReadOf;
    var k, p :| 0 <= k < |job.inputs| && 0 <= p < job.nReduce && !Whole(job, m.disk, k, p);
    PartIsShorter(job, m.disk, p, |job.inputs|);
    var m1 := TakesTask(job, m, p);
    StartedReads(job, ViewOf(m.disk), p);
    m' := ReadsToEnd(job, m1, |m.execs|);
    QuietlyIsLeads(job, m1, m');
    LeadsFrom(job, m, m1, m');
    assert !InputRight(job, m'.execs[|m.execs|]);
  }

  lemma EmptiedFile(job: Job, disk: Disk, gone: nat, p: nat)
    requires job.nReduce >= 1 && MapsWhole(job, disk) && gone < |job.inputs| && p < job.nReduce
    requires Bucket(job, Emitted(job, gone), p) != []
    ensures var disk' := disk[Intermediate(gone, p) := map[]];
            MapsPart(job, disk') && AllThere(job, disk') && !MapsWhole(job, disk')
  {
    hide Bucket;
    var disk' := disk[Intermediate(gone, p) := map[]];
    FileOfAt(Bucket(job, Emitted(job, gone), p));
    assert !Whole(job, disk', gone, p);
    forall m, r | 0 <= m < |job.inputs| && 0 <= r < job.nReduce
      ensures Intermediate(m, r) in disk' && Part(disk'[Intermediate(m, r)], Bucket(job, Emitted(job, m), r))
    {
      assert Whole(job, disk, m, r);
      FileOfAt(Bucket(job, Emitted(job, m), r));
    }
  }

  /** Some continuation reads a wrong input. */
  lemma DamageIsRead(job: Job, m: Master, id: nat, p: nat) returns (m': Master)
    requires job.nReduce >= 1 && m.stage == InPhase(NewSchedule(job, ReducePhase)) && MapsWhole(job, m.disk)
    requires id < |m.execs| && WellPlaced(job, m.execs[id]) && FirstDamage(job, m.execs[id], p)
    ensures Leads(job, m, m') && !InputsRight(job, m')
  {
    hide Leads, MapsWhole, MapsPart, AllThere, Bucket;
    var m1 := RunsToDamage(job, m, id, p);
    EmptiedFile(job, m.disk, m.execs[id].task.number, p);
    m' := WrongFileIsRead(job, m1);
    LeadsFrom(job, m, m1, m');
  }

  // The condition ------------------------------------------------------------------------------------

  lemma HarmlessAtEnd(job: Job, m: Master)
    requires job.nReduce >= 1 && BaseInv(job, m) && FilesInv(job, m) && PhaseOver(m, MapPhase)
    requires MapsWhole(job, m.disk) && Safe(job, m)
    ensures AllHarmless(job, m)
  {
    hide SchedInv, RoutineInv, MapsWhole, MapsPart, HasCreated, Damaging;
    forall id | 0 <= id < |m.execs| ensures Harmless(job, m.execs[id]) {
      assert WellPlaced(job, m.execs[id]);
    }
  }

  /**
    * A run has come to the end of the map phase. From there on every reduce task reads the right input, in every
    * continuation, exactly when the intermediate files are right and no map execution is left that has yet to create
    * a file which should not be empty.
    */
  lemma InputsRightIff(job: Job, run: seq<Master>, b: nat)
    requires IsRun(job, run) && b < |run| && PhaseOver(run[b], MapPhase) && job.nReduce <= |job.inputs|
    ensures (forall m' :: Leads(job, run[b], m') ==> InputsRight(job, m'))
            <==> MapsWhole(job, run[b].disk) && Safe(job, run[b])
  {
    hide BaseInv, MapsPart, HasCreated, AllThere, Leads, AllHarmless, MapsWhole, InputsRight, Safe;
    var m := run[b];
    RunFiles(job, run, b);
    MapsThere(job, m);
    if MapsWhole(job, m.disk) && Safe(job, m) {
      HarmlessAtEnd(job, m);
      forall m' | Leads(job, m, m') ensures InputsRight(job, m') {
        SafeContinuation(job, m, m');
      }
    } else {
      LeadsHere(job, m);
      LeadsOn(job, m, m, NextPhase);
      ArgsBuiltIff(FileNames(job), job.nReduce, ReducePhase);
      var m1, m' := Do(job, m, NextPhase), m;
      if MapsWhole(job, m.disk) {
        var id, p := DamagingExec(job, m);
        m' := DamageIsRead(job, m1, id, p);
      } else {
        m' := WrongFileIsRead(job, m1);
      }
      LeadsFrom(job, m, m1, m');
    }
  }

  /** When nothing wrote stale data up to there, the files are right, and what is left to run decides. */
  lemma InputsRightIffSafe(job: Job, run: seq<Master>, b: nat)
    requires IsQuietRun(job, run) && b < |run| && PhaseOver(run[b], MapPhase) && job.nReduce <= |job.inputs|
    ensures (forall m' :: Leads(job, run[b], m') ==> InputsRight(job, m')) <==> Safe(job, run[b])
  {
    hide BaseInv, StageQuiet, Settled, Progress, Leads, MapsWhole, InputsRight, Safe;
    QuietRunIsRun(job, run);
    RunQuiet(job, run, b);
    QuietMapsWhole(job, run[b]);
    InputsRightIff(job, run, b);
  }

  lemma QuietMapsWhole(job: Job, m: Master)
    requires job.nReduce >= 1 && BaseInv(job, m) && QuietInv(job, m)
    ensures PhaseOver(m, MapPhase) || !InMapPhase(m) ==> MapsWhole(job, m.disk)
  {
    hide BaseInv, Progress, Settled, MapsWhole;
    if PhaseOver(m, MapPhase) {
      PhaseSettled(job, m, MapPhase);
    }
    if PhaseOver(m, MapPhase) || !InMapPhase(m) {
      MapsAreWhole(job, m);
    }
  }

  lemma DamagingExec(job: Job, m: Master) returns (id: nat, p: nat)
    requires job.nReduce >= 1 && !Safe(job, m)
    ensures id < |m.execs| && WellPlaced(job, m.execs[id]) && FirstDamage(job, m.execs[id], p)
  {
    hide Bucket, FirstDamage;
    id :| 0 <= id < |m.execs| && WellPlaced(job, m.execs[id]) && Damaging(job, m.execs[id]);
    var e := m.execs[id];
    var q: nat :| NextCreated(e.pc) <= q < job.nReduce && Bucket(job, Emitted(job, e.task.number), q) != [];
    p := FirstDamageExists(job, e, q);
  }

  lemma SafeContinuation(job: Job, m: Master, m': Master)
    requires job.nReduce >= 1 && BaseInv(job, m) && AllHarmless(job, m) && Leads(job, m, m')
    ensures InputsRight(job, m')
  {
    hide BaseInv, MapsWhole;
    var path :| |path| > 0 && IsPath(job, path) && path[0] == m && path[|path| - 1] == m';
    PathHarmless(job, path, |path| - 1);
    forall id | 0 <= id < |m'.execs| ensures InputRight(job, m'.execs[id]) {
      assert Harmless(job, m'.execs[id]);
    }
  }
}
