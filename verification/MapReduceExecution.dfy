/**
  * The execution of a task, one file operation at a time: create, write one pair, read one pair. An execution can
  * stop anywhere, and several executions of a task can be under way at once, each with its own position in a file.
  */
module MapReduceExecution {
  import opened MapReduce
  import opened MapReduceSchedule

  // Files --------------------------------------------------------------------------------------------

  /** The pairs of a file by position. Writing past the end leaves a hole, and decoding stops at the first hole. */
  type File = map<nat, KeyValue>

  type Disk = map<FileName, File>

  function FileOf(pairs: seq<KeyValue>): File {
    if pairs == [] then map[]
    else FileOf(pairs[..|pairs| - 1])[|pairs| - 1 := pairs[|pairs| - 1]]
  }

  function Readable(file: File, k: nat): (pairs: seq<KeyValue>)
    ensures |pairs| <= k
  {
    if k == 0 then []
    else
      var front := Readable(file, k - 1);
      if |front| == k - 1 && k - 1 in file then front + [file[k - 1]] else front
  }

  /** What a decoder gets from the file. */
  function Contents(file: File): seq<KeyValue> {
    Readable(file, |file|)
  }

  lemma {:induction false} FileOfAt(pairs: seq<KeyValue>)
    ensures forall x :: x in FileOf(pairs) <==> 0 <= x < |pairs|
    ensures forall x :: 0 <= x < |pairs| ==> FileOf(pairs)[x] == pairs[x]
    ensures |FileOf(pairs)| == |pairs|
    decreases |pairs|
  {
    if pairs != [] {
      FileOfAt(pairs[..|pairs| - 1]);
    }
  }

  lemma FileOfSnoc(pairs: seq<KeyValue>, kv: KeyValue)
    ensures FileOf(pairs + [kv]) == FileOf(pairs)[|pairs| := kv]
  {
    assert (pairs + [kv])[..|pairs + [kv]| - 1] == pairs;
  }

  lemma {:induction false} ReadableOf(pairs: seq<KeyValue>, k: nat)
    requires k <= |pairs|
    ensures Readable(FileOf(pairs), k) == pairs[..k]
    decreases k
  {
    FileOfAt(pairs);
    if k > 0 {
      ReadableOf(pairs, k - 1);
    }
  }

  /** Decoding gives back what was written. */
  lemma ContentsOf(pairs: seq<KeyValue>)
    ensures Contents(FileOf(pairs)) == pairs
  {
    FileOfAt(pairs);
    ReadableOf(pairs, |pairs|);
    assert pairs[..|pairs|] == pairs;
  }

  lemma {:induction false} ReadableAt(file: File, k: nat)
    ensures var pairs := Readable(file, k);
            && (forall x :: 0 <= x < |pairs| ==> x in file && file[x] == pairs[x])
            && (|pairs| < k ==> |pairs| !in file)
    decreases k
  {
    if k > 0 {
      ReadableAt(file, k - 1);
    }
  }

  function Positions(n: nat): (s: set<nat>)
    ensures |s| == n && forall x: nat :: x in s <==> x < n
  {
    if n == 0 then {} else Positions(n - 1) + {n - 1}
  }

  lemma SubsetSize<T>(a: set<T>, b: set<T>)
    requires a <= b
    ensures |a| <= |b| && (|a| == |b| ==> a == b)
  {
    assert b == a + (b - a) && |b| == |a| + |b - a|;
  }

  lemma FullSize(file: File, n: nat)
    requires forall x: nat :: x < n ==> x in file
    ensures n <= |file|
  {
    SubsetSize(Positions(n), file.Keys);
    assert |file.Keys| == |file|;
  }

  /** Decoding gives the pairs in order, up to the first position that is not there. */
  lemma ContentsAt(file: File)
    ensures var pairs := Contents(file);
            (forall x :: 0 <= x < |pairs| ==> x in file && file[x] == pairs[x]) && |pairs| !in file
  {
    ReadableAt(file, |file|);
    var n := |Contents(file)|;
    if n in file {
      FullSize(file, n + 1);
    }
  }

  /** Decoding file f gives `pairs`. */
  ghost predicate Decodes(disk: Disk, f: FileName, pairs: seq<KeyValue>) {
    f in disk && Contents(disk[f]) == pairs
  }

  /** Writing again what is there changes nothing. */
  lemma RewriteSame(pairs: seq<KeyValue>, x: nat)
    requires x < |pairs|
    ensures FileOf(pairs)[x := pairs[x]] == FileOf(pairs)
  {
    FileOfAt(pairs);
  }

  function FileAt(disk: Disk, f: FileName): File {
    if f in disk then disk[f] else map[]
  }

  // Executions ---------------------------------------------------------------------------------------

  /**
    * doMap in partition r, before or after creating the file, with `written` pairs written; doReduce reading file i;
    * doReduce writing, with `out` written; ended; stopped somewhere, with its worker.
    */
  datatype Pc =
    | Mapping(r: nat, open: bool, written: nat)
    | Reading(i: nat, pos: nat, read: seq<KeyValue>)
    | Writing(open: bool, read: seq<KeyValue>, out: seq<KeyValue>)
    | Ended
    | Stopped

  /** The next partition whose file the execution of a map task creates. */
  function NextCreated(pc: Pc): nat
    requires pc.Mapping?
  {
    if pc.open then pc.r + 1 else pc.r
  }

  datatype Exec = Exec(task: Task, pc: Pc)

  function Started(task: Task): Exec {
    Exec(task, if task.phase == MapPhase then Mapping(0, false, 0) else Reading(0, 0, []))
  }

  predicate Live(e: Exec) {
    !e.pc.Ended? && !e.pc.Stopped?
  }

  predicate TaskExists(job: Job, task: Task) {
    task.number < TaskCount(job, task.phase)
  }

  /** The execution is at a point that its task has. */
  predicate WellPlaced(job: Job, e: Exec)
    requires job.nReduce >= 1
  {
    && TaskExists(job, e.task)
    && match e.pc
       case Mapping(r, open, written) =>
         && e.task.phase == MapPhase && r <= job.nReduce
         && (open ==> r < job.nReduce && written <= |Bucket(job, Emitted(job, e.task.number), r)|)
       case Reading(i, _, _) => e.task.phase == ReducePhase && i <= |job.inputs|
       case Writing(_, _, _) => e.task.phase == ReducePhase
       case _ => true
  }

  /** Every key that was read has been written. */
  predicate AllWritten(read: seq<KeyValue>, out: seq<KeyValue>) {
    forall x :: 0 <= x < |read| ==> HasKey(out, read[x].key)
  }

  /** The next operation is possible; `key` is the key that the map iteration of doReduce comes to next. */
  predicate CanAdvance(job: Job, e: Exec, disk: Disk, key: string)
    requires job.nReduce >= 1 && WellPlaced(job, e)
  {
    match e.pc
    case Mapping(_, _, _) => true
    case Reading(i, _, _) => i < |job.inputs| ==> Intermediate(i, e.task.number) in disk
    case Writing(open, read, out) => open && !AllWritten(read, out) ==> HasKey(read, key) && !HasKey(out, key)
    case _ => false
  }

  function NextPc(job: Job, e: Exec, disk: Disk, key: string): Pc
    requires job.nReduce >= 1 && WellPlaced(job, e) && CanAdvance(job, e, disk, key)
  {
    match e.pc
    case Mapping(r, open, written) =>
      if r == job.nReduce then Ended
      else if !open then Mapping(r, true, 0)
      else if written < |Bucket(job, Emitted(job, e.task.number), r)| then Mapping(r, true, written + 1)
      else Mapping(r + 1, false, 0)
    case Reading(i, pos, read) =>
      if i == |job.inputs| then Writing(false, read, [])
      else
        var file := disk[Intermediate(i, e.task.number)];
        if pos in file then Reading(i, pos + 1, read + [file[pos]]) else Reading(i + 1, 0, read)
    case Writing(open, read, out) =>
      if !open then Writing(true, read, [])
      else if AllWritten(read, out) then Ended
      else Writing(true, read, out + [Reduced(job, read, key)])
  }

  function Reduced(job: Job, read: seq<KeyValue>, key: string): KeyValue {
    KeyValue(key, job.reduceF(key, Values(read, key)))
  }

  function NextDisk(job: Job, e: Exec, disk: Disk, key: string): Disk
    requires job.nReduce >= 1 && WellPlaced(job, e) && CanAdvance(job, e, disk, key)
  {
    match e.pc
    case Mapping(r, open, written) =>
      var f := Intermediate(e.task.number, r);
      if r == job.nReduce then disk
      else if !open then disk[f := map[]]
      else
        var pairs := Bucket(job, Emitted(job, e.task.number), r);
        if written < |pairs| then disk[f := FileAt(disk, f)[written := pairs[written]]] else disk
    case Reading(_, _, _) => disk
    case Writing(open, read, out) =>
      var f := Merged(e.task.number);
      if !open then disk[f := map[]]
      else if AllWritten(read, out) then disk
      else disk[f := FileAt(disk, f)[|out| := Reduced(job, read, key)]]
  }

  /** The files that a task writes. */
  predicate Owns(task: Task, f: FileName) {
    match f
    case Intermediate(m, _) => task == Task(MapPhase, m)
    case Merged(r) => task == Task(ReducePhase, r)
  }

  lemma WritesOwnFiles(job: Job, e: Exec, disk: Disk, key: string, f: FileName)
    requires job.nReduce >= 1 && WellPlaced(job, e) && CanAdvance(job, e, disk, key) && !Owns(e.task, f)
    ensures var disk' := NextDisk(job, e, disk, key);
            (f in disk' <==> f in disk) && (f in disk ==> disk'[f] == disk[f])
  {
  }

  lemma StaysWellPlaced(job: Job, e: Exec, disk: Disk, key: string)
    requires job.nReduce >= 1 && WellPlaced(job, e) && CanAdvance(job, e, disk, key)
    ensures WellPlaced(job, e.(pc := NextPc(job, e, disk, key)))
  {
    hide Bucket;
  }

  // How far an execution has got, when only it writes its files --------------------------------------

  /** What the right intermediate files hold for partition r, from the first n map tasks. */
  function RightInput(job: Job, r: nat, n: nat): seq<KeyValue>
    requires job.nReduce >= 1 && n <= |job.inputs|
  {
    if n == 0 then [] else RightInput(job, r, n - 1) + Bucket(job, Emitted(job, n - 1), r)
  }

  /** File f holds exactly `pairs`. */
  ghost predicate Has(disk: Disk, f: FileName, pairs: seq<KeyValue>) {
    f in disk && disk[f] == FileOf(pairs)
  }

  /** The intermediate file of map task m for partition r is right. */
  ghost predicate Whole(job: Job, disk: Disk, m: nat, r: nat)
    requires job.nReduce >= 1 && m < |job.inputs|
  {
    Has(disk, Intermediate(m, r), Bucket(job, Emitted(job, m), r))
  }

  ghost predicate MapsWhole(job: Job, disk: Disk)
    requires job.nReduce >= 1
  {
    forall m, r :: 0 <= m < |job.inputs| && 0 <= r < job.nReduce ==> Whole(job, disk, m, r)
  }

  /** Entries for some of the keys read. */
  ghost predicate PartlyReduced(job: Job, read: seq<KeyValue>, out: seq<KeyValue>) {
    && (forall x, y :: 0 <= x < y < |out| ==> out[x].key != out[y].key)
    && (forall x :: 0 <= x < |out| ==> HasKey(read, out[x].key) && out[x] == Reduced(job, read, out[x].key))
  }

  /** What has been read so far is what the right files hold. */
  ghost predicate ReadRight(job: Job, r: nat, i: nat, pos: nat, read: seq<KeyValue>)
    requires job.nReduce >= 1 && i <= |job.inputs|
  {
    if i == |job.inputs| then pos == 0 && read == RightInput(job, r, i)
    else
      var pairs := Bucket(job, Emitted(job, i), r);
      pos <= |pairs| && read == RightInput(job, r, i) + pairs[..pos]
  }

  ghost predicate MapProgress(job: Job, disk: Disk, m: nat, pc: Pc)
    requires job.nReduce >= 1 && m < |job.inputs|
  {
    match pc
    case Mapping(r, open, written) =>
      && r <= job.nReduce && (forall p :: 0 <= p < r ==> Whole(job, disk, m, p))
      && (open ==>
            var pairs := Bucket(job, Emitted(job, m), r);
            r < job.nReduce && written <= |pairs| && Has(disk, Intermediate(m, r), pairs[..written]))
    case Ended => forall p :: 0 <= p < job.nReduce ==> Whole(job, disk, m, p)
    case _ => true
  }

  ghost predicate ReduceProgress(job: Job, disk: Disk, r: nat, pc: Pc)
    requires job.nReduce >= 1
  {
    match pc
    case Reading(i, pos, read) => i <= |job.inputs| && ReadRight(job, r, i, pos, read)
    case Writing(open, read, out) =>
      && read == RightInput(job, r, |job.inputs|) && PartlyReduced(job, read, out)
      && (if open then Has(disk, Merged(r), out) else out == [])
    case Ended =>
      exists out :: Has(disk, Merged(r), out) && IsReduced(out, RightInput(job, r, |job.inputs|), job.reduceF)
    case _ => true
  }

  ghost predicate Progress(job: Job, disk: Disk, e: Exec)
    requires job.nReduce >= 1
  {
    && TaskExists(job, e.task)
    && match e.task.phase
       case MapPhase => MapProgress(job, disk, e.task.number, e.pc)
       case ReducePhase => ReduceProgress(job, disk, e.task.number, e.pc)
  }

  lemma StartedProgress(job: Job, disk: Disk, task: Task)
    requires job.nReduce >= 1 && TaskExists(job, task)
    ensures Progress(job, disk, Started(task)) && WellPlaced(job, Started(task))
  {
    hide Bucket;
    if task.phase == ReducePhase && |job.inputs| > 0 {
      var pairs := Bucket(job, Emitted(job, 0), task.number);
      assert RightInput(job, task.number, 0) + pairs[..0] == [];
    }
  }

  /** Only the files that the task owns matter. */
  lemma ProgressFrame(job: Job, disk: Disk, disk': Disk, e: Exec)
    requires job.nReduce >= 1 && Progress(job, disk, e)
    requires forall f :: Owns(e.task, f) ==> (f in disk' <==> f in disk) && (f in disk ==> disk'[f] == disk[f])
    ensures Progress(job, disk', e)
  {
    hide Bucket, IsReduced, PartlyReduced, ReadRight;
    var k := e.task.number;
    if e.task.phase == MapPhase {
      forall p | 0 <= p < job.nReduce && Whole(job, disk, k, p) ensures Whole(job, disk', k, p) {
        assert Owns(e.task, Intermediate(k, p));
      }
      if e.pc.Mapping? {
        assert Owns(e.task, Intermediate(k, e.pc.r));
      }
    } else {
      assert Owns(e.task, Merged(k));
    }
  }

  lemma MapAdvances(job: Job, disk: Disk, e: Exec, key: string)
    requires job.nReduce >= 1 && WellPlaced(job, e) && e.task.phase == MapPhase && CanAdvance(job, e, disk, key)
    requires Progress(job, disk, e)
    ensures Progress(job, NextDisk(job, e, disk, key), e.(pc := NextPc(job, e, disk, key)))
  {
    hide Bucket;
    var m, r, open, x := e.task.number, e.pc.r, e.pc.open, e.pc.written;
    var disk', f := NextDisk(job, e, disk, key), Intermediate(m, r);
    assert forall p :: 0 <= p < r && Whole(job, disk, m, p) ==> Whole(job, disk', m, p);
    if r < job.nReduce {
      var pairs := Bucket(job, Emitted(job, m), r);
      if !open {
        assert pairs[..0] == [];
      } else if x < |pairs| {
        assert pairs[..x + 1] == pairs[..x] + [pairs[x]];
        FileOfSnoc(pairs[..x], pairs[x]);
      } else {
        assert pairs[..x] == pairs;
      }
    }
  }

  /** Reading the next pair, or reaching the end, of a right file. */
  lemma ReadAdvances(job: Job, disk: Disk, e: Exec, key: string)
    requires job.nReduce >= 1 && WellPlaced(job, e) && e.pc.Reading? && CanAdvance(job, e, disk, key)
    requires e.pc.i < |job.inputs| ==> Whole(job, disk, e.pc.i, e.task.number)
    requires ReadRight(job, e.task.number, e.pc.i, e.pc.pos, e.pc.read)
    ensures var pc' := NextPc(job, e, disk, key);
            if e.pc.i == |job.inputs| then pc' == Writing(false, RightInput(job, e.task.number, |job.inputs|), [])
            else pc'.Reading? && pc'.i <= |job.inputs| && ReadRight(job, e.task.number, pc'.i, pc'.pos, pc'.read)
  {
    hide Bucket;
    var r, i, pos, read := e.task.number, e.pc.i, e.pc.pos, e.pc.read;
    if i < |job.inputs| {
      var pairs := Bucket(job, Emitted(job, i), r);
      FileOfAt(pairs);
      if pos < |pairs| {
        assert pairs[..pos + 1] == pairs[..pos] + [pairs[pos]];
        assert read + [pairs[pos]] == RightInput(job, r, i) + pairs[..pos + 1];
      } else {
        assert pairs[..pos] == pairs;
        assert read == RightInput(job, r, i + 1);
        if i + 1 < |job.inputs| {
          assert read == read + Bucket(job, Emitted(job, i + 1), r)[..0];
        }
      }
    }
  }

  lemma PartlyReducedSnoc(job: Job, read: seq<KeyValue>, out: seq<KeyValue>, key: string)
    requires PartlyReduced(job, read, out) && HasKey(read, key) && !HasKey(out, key)
    ensures PartlyReduced(job, read, out + [Reduced(job, read, key)])
  {
    var more := out + [Reduced(job, read, key)];
    forall x, y | 0 <= x < y < |more| ensures more[x].key != more[y].key {
      assert out[x].key == key ==> HasKey(out, key);
    }
  }

  lemma AllWrittenIsReduced(job: Job, read: seq<KeyValue>, out: seq<KeyValue>)
    requires PartlyReduced(job, read, out) && AllWritten(read, out)
    ensures IsReduced(out, read, job.reduceF)
  {
    forall key | HasKey(read, key) ensures HasKey(out, key) {
      var x :| 0 <= x < |read| && read[x].key == key;
      assert HasKey(out, read[x].key);
    }
  }

  lemma WriteAdvances(job: Job, disk: Disk, e: Exec, key: string)
    requires job.nReduce >= 1 && WellPlaced(job, e) && e.pc.Writing? && CanAdvance(job, e, disk, key)
    requires Progress(job, disk, e)
    ensures Progress(job, NextDisk(job, e, disk, key), e.(pc := NextPc(job, e, disk, key)))
  {
    hide RightInput, PartlyReduced, AllWritten, IsReduced, HasKey, Reduced;
    var open, read, out := e.pc.open, e.pc.read, e.pc.out;
    if open {
      if AllWritten(read, out) {
        AllWrittenIsReduced(job, read, out);
      } else {
        PartlyReducedSnoc(job, read, out, key);
        FileOfSnoc(out, Reduced(job, read, key));
      }
    } else {
      NothingReduced(job, read);
    }
  }

  lemma NothingReduced(job: Job, read: seq<KeyValue>)
    ensures PartlyReduced(job, read, [])
  {
  }

  lemma ReadProgresses(job: Job, disk: Disk, e: Exec, key: string)
    requires job.nReduce >= 1 && WellPlaced(job, e) && e.pc.Reading? && CanAdvance(job, e, disk, key)
    requires Progress(job, disk, e) && MapsWhole(job, disk)
    requires e.task.number < job.nReduce
    ensures Progress(job, NextDisk(job, e, disk, key), e.(pc := NextPc(job, e, disk, key)))
  {
    hide RightInput, Whole, ReadRight, PartlyReduced;
    ReadAdvances(job, disk, e, key);
    NothingReduced(job, e.pc.read);
  }

  /** An operation of the only execution that writes a task's files, when the right inputs are there. */
  lemma ProgressAdvances(job: Job, disk: Disk, e: Exec, key: string)
    requires job.nReduce >= 1 && WellPlaced(job, e) && CanAdvance(job, e, disk, key)
    requires Progress(job, disk, e) && (e.task.phase == ReducePhase ==> MapsWhole(job, disk))
    ensures Progress(job, NextDisk(job, e, disk, key), e.(pc := NextPc(job, e, disk, key)))
  {
    hide Progress, MapsWhole, NextDisk, NextPc;
    if e.task.phase == MapPhase {
      MapAdvances(job, disk, e, key);
    } else if e.pc.Reading? {
      ReadProgresses(job, disk, e, key);
    } else {
      WriteAdvances(job, disk, e, key);
    }
  }
}
