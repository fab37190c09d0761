/**
  * Runs that exist: for every job with too many reduce tasks one that panics, and one in which an execution that
  * outlived its call empties a file after the map phase and the job completes with a wrong output.
  */
module MapReduceExamples {
  import opened MapReduce
  import opened MapReduceSchedule
  import opened MapReduceExecution
  import opened MapReduceRuns
  import opened MapReduceStrays
  import Completes = MapReduceCompletes

  lemma PathIsRun(job: Job, m: Master) returns (run: seq<Master>)
    requires job.nReduce >= 1 && Leads(job, Initial(job), m)
    ensures |run| > 0 && IsRun(job, run) && run[|run| - 1] == m
  {
    run :| IsPath(job, run) && run[0] == Initial(job) && run[|run| - 1] == m;
  }

  // Too many reduce tasks ----------------------------------------------------------------------------

  predicate PanickedAt(m: Master) {
    m.stage.Panicked?
  }

  /** schedule() panics in some run of a job exactly when the job has more reduce tasks than map files. */
  lemma PanicsIffTooManyReducers(job: Job)
    requires job.nReduce >= 1
    ensures (exists run :: |run| > 0 && IsRun(job, run) && PanickedAt(run[|run| - 1])) <==> job.nReduce > |job.inputs|
  {
    hide IsRun, Leads, QuietlyLeads;
    if run :| |run| > 0 && IsRun(job, run) && PanickedAt(run[|run| - 1]) {
      Completes.StageMeans(job, run, |run| - 1);
    }
    if job.nReduce > |job.inputs| {
      var m := Completes.MapPhaseCompletes(job);
      QuietlyIsLeads(job, Initial(job), m);
      ArgsBuiltIff(FileNames(job), job.nReduce, ReducePhase);
      LeadsOn(job, Initial(job), m, NextPhase);
      var run := PathIsRun(job, Do(job, m, NextPhase));
    }
  }

  // A late execution ---------------------------------------------------------------------------------

  const PAIR := KeyValue("k", "v")

  predicate OnePair(job: Job) {
    && job.inputs == [Input("f", "")] && job.nReduce == 1
    && job.mapF("f", "") == [PAIR]
  }

  lemma OneBucket(job: Job)
    requires OnePair(job)
    ensures Emitted(job, 0) == [PAIR] && Bucket(job, Emitted(job, 0), 0) == [PAIR]
    ensures AllEmitted(job, 1) == [PAIR]
  {
    assert [PAIR][..0] == [];
    assert PartitionOf(job, PAIR.key) == 0;
    assert Bucket(job, [PAIR], 0) == Bucket(job, [], 0) + [PAIR];
    assert AllEmitted(job, 0) == [];
    assert AllEmitted(job, 1) == AllEmitted(job, 0) + Emitted(job, 0);
  }

  const F := Intermediate(0, 0)
  const MAP := Task(MapPhase, 0)
  const REDUCE := Task(ReducePhase, 0)

  function At(phase: Phase, r: Routine, pending: int, forwarded: nat, offered: set<string>, dropped: set<string>): Stage {
    InPhase(Schedule(phase, [r], pending, forwarded, offered, dropped))
  }

  const BOTH := ["a", "b"]

  /** Worker a has the task, its call is given up, worker b gets the task. */
  lemma GivenUp(job: Job) returns (m: Master)
    requires OnePair(job)
    ensures Leads(job, Initial(job), m)
    ensures m == Master(BOTH, At(MapPhase, Calling("b", 1), 1, 2, {}, {"a"}), map[],
                        [Exec(MAP, Mapping(0, false, 0)), Exec(MAP, Mapping(0, false, 0))])
  {
    hide Leads;
    var start := Initial(job);
    LeadsHere(job, start);
    assert start.stage == At(MapPhase, Waiting, 1, 0, {}, {});
    LeadsOn(job, start, start, Register("a"));
    var m1 := Do(job, start, Register("a"));
    LeadsOn(job, start, m1, Register("b"));
    var m2 := Do(job, m1, Register("b"));
    LeadsOn(job, start, m2, Act(Forward));
    var m3 := Do(job, m2, Act(Forward));
    LeadsOn(job, start, m3, Act(Forward));
    var m4 := Do(job, m3, Act(Forward));
    assert m4.stage == At(MapPhase, Waiting, 1, 2, {"a", "b"}, {});
    LeadsOn(job, start, m4, Act(Take(0, "a")));
    var m5 := Do(job, m4, Act(Take(0, "a")));
    assert m5.stage == At(MapPhase, Calling("a", 0), 1, 2, {"b"}, {});
    LeadsOn(job, start, m5, Act(Fail(0)));
    var m6 := Do(job, m5, Act(Fail(0)));
    LeadsOn(job, start, m6, Act(Take(0, "b")));
    assert m6.stage == At(MapPhase, Waiting, 1, 2, {"b"}, {"a"});
    m := Do(job, m6, Act(Take(0, "b")));
    assert m.stage == At(MapPhase, Calling("b", 1), 1, 2, {}, {"a"});
    assert m.execs == [Exec(MAP, Mapping(0, false, 0)), Exec(MAP, Mapping(0, false, 0))];
  }

  /** Worker b executes the task to its end, and the map phase is over. */
  lemma MapPhaseEnds(job: Job, m: Master) returns (m': Master)
    requires OnePair(job)
    requires m == Master(BOTH, At(MapPhase, Calling("b", 1), 1, 2, {}, {"a"}), map[],
                         [Exec(MAP, Mapping(0, false, 0)), Exec(MAP, Mapping(0, false, 0))])
    ensures Leads(job, m, m')
    ensures m' == Master(BOTH, At(MapPhase, Returning("b"), 0, 2, {}, {"a"}), map[F := map[0 := PAIR]],
                         [Exec(MAP, Mapping(0, false, 0)), Exec(MAP, Ended)])
  {
    hide Leads, Bucket;
    OneBucket(job);
    var late := Exec(MAP, Mapping(0, false, 0));
    LeadsHere(job, m);
    LeadsOn(job, m, m, Advance(1, ""));
    var m1 := Do(job, m, Advance(1, ""));
    assert m1.disk == map[F := map[]] && m1.execs == [late, Exec(MAP, Mapping(0, true, 0))];
    LeadsOn(job, m, m1, Advance(1, ""));
    var m2 := Do(job, m1, Advance(1, ""));
    assert m2.disk == map[F := map[0 := PAIR]] && m2.execs == [late, Exec(MAP, Mapping(0, true, 1))];
    LeadsOn(job, m, m2, Advance(1, ""));
    var m3 := Do(job, m2, Advance(1, ""));
    assert m3.disk == m2.disk && m3.execs == [late, Exec(MAP, Mapping(1, false, 0))];
    LeadsOn(job, m, m3, Advance(1, ""));
    var m4 := Do(job, m3, Advance(1, ""));
    assert m4.disk == m2.disk && m4.execs == [late, Exec(MAP, Ended)];
    LeadsOn(job, m, m4, Act(Succeed(0)));
    m' := Do(job, m4, Act(Succeed(0)));
    assert m'.stage == At(MapPhase, Returning("b"), 0, 2, {}, {"a"});
  }

  /** The late execution empties the file, and the reduce task reads it. */
  lemma LateCreate(job: Job, m: Master) returns (m': Master)
    requires OnePair(job)
    requires m == Master(BOTH, At(MapPhase, Returning("b"), 0, 2, {}, {"a"}), map[F := map[0 := PAIR]],
                         [Exec(MAP, Mapping(0, false, 0)), Exec(MAP, Ended)])
    ensures Leads(job, m, m')
    ensures m' == Master(BOTH, At(ReducePhase, Calling("a", 2), 1, 1, {}, {}), map[F := map[]],
                         [Exec(MAP, Mapping(0, true, 0)), Exec(MAP, Ended), Exec(REDUCE, Writing(false, [], []))])
  {
    hide Leads, Bucket;
    OneBucket(job);
    ArgsBuiltIff(FileNames(job), 1, ReducePhase);
    LeadsHere(job, m);
    LeadsOn(job, m, m, NextPhase);
    var m1 := Do(job, m, NextPhase);
    assert m1.stage == At(ReducePhase, Waiting, 1, 0, {}, {});
    LeadsOn(job, m, m1, Advance(0, ""));
    var m2 := Do(job, m1, Advance(0, ""));
    assert m2.disk == map[F := map[]] && m2.execs == [Exec(MAP, Mapping(0, true, 0)), Exec(MAP, Ended)];
    LeadsOn(job, m, m2, Act(Forward));
    var m3 := Do(job, m2, Act(Forward));
    LeadsOn(job, m, m3, Act(Take(0, "a")));
    var m4 := Do(job, m3, Act(Take(0, "a")));
    assert m4.stage == At(ReducePhase, Calling("a", 2), 1, 1, {}, {});
    LeadsOn(job, m, m4, Advance(2, ""));
    var m5 := Do(job, m4, Advance(2, ""));
    assert m5.execs[2] == Exec(REDUCE, Reading(1, 0, []));
    LeadsOn(job, m, m5, Advance(2, ""));
    m' := Do(job, m5, Advance(2, ""));
  }

  /** The job completes with no output. */
  lemma CompletesEmpty(job: Job, m: Master) returns (m': Master)
    requires OnePair(job)
    requires m == Master(BOTH, At(ReducePhase, Calling("a", 2), 1, 1, {}, {}), map[F := map[]],
                         [Exec(MAP, Mapping(0, true, 0)), Exec(MAP, Ended), Exec(REDUCE, Writing(false, [], []))])
    ensures Leads(job, m, m') && m'.stage == Completed([])
  {
    hide Leads, Bucket;
    OneBucket(job);
    LeadsHere(job, m);
    LeadsOn(job, m, m, Advance(2, ""));
    var m1 := Do(job, m, Advance(2, ""));
    assert m1.disk == map[F := map[], Merged(0) := map[]];
    assert m1.execs[2] == Exec(REDUCE, Writing(true, [], []));
    LeadsOn(job, m, m1, Advance(2, ""));
    var m2 := Do(job, m1, Advance(2, ""));
    assert m2.disk == m1.disk && m2.execs[2] == Exec(REDUCE, Ended);
    LeadsOn(job, m, m2, Act(Succeed(0)));
    var m3 := Do(job, m2, Act(Succeed(0)));
    assert m3.stage == At(ReducePhase, Returning("a"), 0, 1, {}, {});
    LeadsOn(job, m, m3, StartMerge);
    var m4 := Do(job, m3, StartMerge);
    LeadsOn(job, m, m4, ReadMerged);
    var m5 := Do(job, m4, ReadMerged);
    assert m5.stage == Merging(1, 0, map[]);
    LeadsOn(job, m, m5, EndMerge([]));
    m' := Do(job, m5, EndMerge([]));
  }

  /**
    * The freedom from stale writes is needed: the call of a map task is given up, the task is executed by another
    * worker, and after the map phase the first execution creates its file again. The job completes with no output,
    * though a pair was emitted.
    */
  lemma LateExecutionLosesOutput(job: Job) returns (run: seq<Master>)
    requires OnePair(job)
    ensures IsRun(job, run) && run[|run| - 1].stage == Completed([])
    ensures !IsGroupReduce([], AllEmitted(job, |job.inputs|), job.reduceF)
  {
    hide Leads, IsRun;
    var m1 := GivenUp(job);
    var m2 := MapPhaseEnds(job, m1);
    var m3 := LateCreate(job, m2);
    var m4 := CompletesEmpty(job, m3);
    LeadsFrom(job, Initial(job), m1, m2);
    LeadsFrom(job, Initial(job), m2, m3);
    LeadsFrom(job, Initial(job), m3, m4);
    run := PathIsRun(job, m4);
    OneBucket(job);
    assert HasKey([PAIR], "k") by {
      assert [PAIR][0].key == "k";
    }
  }
}
