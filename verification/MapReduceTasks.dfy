/** The tasks as loops over a shared file system, and the sequential run of a whole job. */
module MapReduceTasks {
  import opened MapReduce

  /** The shared directory: what each file of the job holds, as a sequence of encoded pairs. */
  class Directory {
    var files: Files

    constructor ()
      ensures files == map[]
    {
      files := map[];
    }

    /** os.Create: an empty file, whatever was there. */
    method Create(f: FileName)
      modifies this
      ensures files == old(files)[f := []]
    {
      files := files[f := []];
    }

    method Append(f: FileName, kv: KeyValue)
      requires f in files
      modifies this
      ensures files == old(files)[f := old(files)[f] + [kv]]
    {
      files := files[f := files[f] + [kv]];
    }
  }

  /** One partition of doMap: a pass over all pairs. */
  method WriteBucket(dir: Directory, job: Job, mapTask: nat, r: nat, pairs: seq<KeyValue>)
    requires job.nReduce >= 1
    modifies dir
    ensures dir.files == old(dir.files)[Intermediate(mapTask, r) := Bucket(job, pairs, r)]
  {
    var f := Intermediate(mapTask, r);
    dir.Create(f);
    for x := 0 to |pairs|
      invariant dir.files == old(dir.files)[f := Bucket(job, pairs[..x], r)]
    {
      assert pairs[..x + 1][..x] == pairs[..x];
      if job.hash(pairs[x].key) % job.nReduce == r {
        assert PartitionOf(job, pairs[x].key) == r;
        dir.Append(f, pairs[x]);
      } else {
        assert Bucket(job, pairs[..x], r) + [] == Bucket(job, pairs[..x], r);
      }
    }
    assert pairs[..|pairs|] == pairs;
  }

  /** File r has the values of the keys that hash to r, in order, and no others. */
  ghost predicate Partitioned(files: Files, job: Job, mapTask: nat, pairs: seq<KeyValue>)
    requires job.nReduce >= 1
  {
    forall r, key :: 0 <= r < job.nReduce ==>
      Intermediate(mapTask, r) in files &&
      Values(files[Intermediate(mapTask, r)], key) == if job.hash(key) % job.nReduce == r then Values(pairs, key) else []
  }

  lemma BucketsArePartitioned(files: Files, job: Job, mapTask: nat, pairs: seq<KeyValue>)
    requires job.nReduce >= 1
    requires forall r :: 0 <= r < job.nReduce ==>
               Intermediate(mapTask, r) in files && files[Intermediate(mapTask, r)] == Bucket(job, pairs, r)
    ensures Partitioned(files, job, mapTask, pairs)
  {
    hide Bucket, Values;
    forall r, key | 0 <= r < job.nReduce
      ensures Values(files[Intermediate(mapTask, r)], key) == if job.hash(key) % job.nReduce == r then Values(pairs, key) else []
    {
      ValuesOfBucket(job, pairs, r, key);
    }
  }

  method DoMap(dir: Directory, job: Job, mapTask: nat)
    requires job.nReduce >= 1 && mapTask < |job.inputs|
    modifies dir
    ensures MapTaskWrites(old(dir.files), dir.files, job, mapTask)
    ensures Partitioned(dir.files, job, mapTask, job.mapF(job.inputs[mapTask].name, job.inputs[mapTask].contents))
  {
    hide Partitioned, Bucket;
    var pairs := job.mapF(job.inputs[mapTask].name, job.inputs[mapTask].contents);
    for i := 0 to job.nReduce
      invariant forall r :: 0 <= r < i ==>
                  Intermediate(mapTask, r) in dir.files && dir.files[Intermediate(mapTask, r)] == Bucket(job, pairs, r)
      invariant forall f: FileName :: !(f.Intermediate? && f.mapTask == mapTask && f.reduceTask < i) ==>
                  (f in dir.files <==> f in old(dir.files)) && (f in old(dir.files) ==> dir.files[f] == old(dir.files)[f])
    {
      WriteBucket(dir, job, mapTask, i, pairs);
    }
    BucketsArePartitioned(dir.files, job, mapTask, pairs);
  }

  /** keyValues groups what has been read. */
  ghost predicate Groups(keyValues: map<string, seq<string>>, pairs: seq<KeyValue>) {
    && (forall key :: key in keyValues <==> HasKey(pairs, key))
    && (forall key :: key in keyValues ==> keyValues[key] == Values(pairs, key))
  }

  lemma GroupsSnoc(keyValues: map<string, seq<string>>, pairs: seq<KeyValue>, kv: KeyValue)
    requires Groups(keyValues, pairs)
    ensures var grown := (if kv.key in keyValues then keyValues[kv.key] else []) + [kv.value];
            Groups(keyValues[kv.key := grown], pairs + [kv])
  {
    var more := pairs + [kv];
    assert more[..|more| - 1] == pairs;
    forall key ensures HasKey(more, key) <==> HasKey(pairs, key) || key == kv.key {
      HasKeyFront(more, key);
    }
    HasKeyIffValues(pairs, kv.key);
  }

  /** Decode one file into the groups. */
  method ReadFile(keyValues: map<string, seq<string>>, pairs: seq<KeyValue>, ghost before: seq<KeyValue>)
    returns (groups: map<string, seq<string>>)
    requires Groups(keyValues, before)
    ensures Groups(groups, before + pairs)
  {
    hide Groups;
    groups := keyValues;
    assert before + pairs[..0] == before;
    for x := 0 to |pairs|
      invariant Groups(groups, before + pairs[..x])
    {
      var kv := pairs[x];
      GroupsSnoc(groups, before + pairs[..x], kv);
      assert before + pairs[..x + 1] == before + pairs[..x] + [kv];
      var values := if kv.key in groups then groups[kv.key] else [];
      groups := groups[kv.key := values + [kv.value]];
    }
    assert pairs[..|pairs|] == pairs;
  }

  /** The results for the keys that have been visited. */
  ghost predicate Results(out: seq<KeyValue>, visited: set<string>, keyValues: map<string, seq<string>>,
                          reduceF: (string, seq<string>) -> string)
  {
    && (forall x, y :: 0 <= x < y < |out| ==> out[x].key != out[y].key)
    && (forall key :: HasKey(out, key) <==> key in visited)
    && (forall x :: 0 <= x < |out| ==>
          out[x].key in keyValues && out[x].value == reduceF(out[x].key, keyValues[out[x].key]))
  }

  lemma ResultsSnoc(out: seq<KeyValue>, visited: set<string>, keyValues: map<string, seq<string>>,
                    reduceF: (string, seq<string>) -> string, k: string)
    requires Results(out, visited, keyValues, reduceF) && k in keyValues && k !in visited
    ensures Results(out + [KeyValue(k, reduceF(k, keyValues[k]))], visited + {k}, keyValues, reduceF)
  {
    var more := out + [KeyValue(k, reduceF(k, keyValues[k]))];
    assert more[..|more| - 1] == out;
    forall key ensures HasKey(more, key) <==> HasKey(out, key) || key == k {
      HasKeyFront(more, key);
    }
    assert forall x :: 0 <= x < |out| ==> HasKey(out, out[x].key);
  }

  /** What has been written for the visited keys, with the others still to do. */
  ghost predicate Written(before: Files, files: Files, f: FileName, visited: set<string>, todo: set<string>,
                          keyValues: map<string, seq<string>>, reduceF: (string, seq<string>) -> string)
  {
    && visited !! todo && visited + todo == keyValues.Keys
    && f in files && files == before[f := files[f]] && Results(files[f], visited, keyValues, reduceF)
  }

  lemma WrittenNext(before: Files, files: Files, f: FileName, visited: set<string>, todo: set<string>,
                    keyValues: map<string, seq<string>>, reduceF: (string, seq<string>) -> string, k: string)
    requires Written(before, files, f, visited, todo, keyValues, reduceF) && k in todo
    ensures k in keyValues && |todo - {k}| < |todo|
    ensures var files' := files[f := files[f] + [KeyValue(k, reduceF(k, keyValues[k]))]];
            Written(before, files', f, visited + {k}, todo - {k}, keyValues, reduceF)
  {
    hide Results;
    OneLess(visited, todo, keyValues.Keys, k);
    ResultsSnoc(files[f], visited, keyValues, reduceF, k);
    AppendedFile(before, files, f, files[f] + [KeyValue(k, reduceF(k, keyValues[k]))]);
  }

  lemma OneLess(visited: set<string>, todo: set<string>, all: set<string>, k: string)
    requires visited !! todo && visited + todo == all && k in todo
    ensures k in all && k !in visited && |todo - {k}| < |todo|
    ensures visited + {k} !! todo - {k} && (visited + {k}) + (todo - {k}) == all
  {
    assert todo == (todo - {k}) + {k};
  }

  lemma AppendedFile(before: Files, files: Files, f: FileName, more: seq<KeyValue>)
    requires f in files && files == before[f := files[f]]
    ensures files[f := more] == before[f := more]
  {
  }

  /** Reduce every group, in the arbitrary order of a map, and write the results. */
  method WriteReduced(dir: Directory, job: Job, reduceTask: nat, keyValues: map<string, seq<string>>)
    modifies dir
    ensures Merged(reduceTask) in dir.files
    ensures dir.files == old(dir.files)[Merged(reduceTask) := dir.files[Merged(reduceTask)]]
    ensures Results(dir.files[Merged(reduceTask)], keyValues.Keys, keyValues, job.reduceF)
  {
    hide Results;
    var f := Merged(reduceTask);
    ghost var before := dir.files;
    ghost var visited: set<string> := {};
    dir.Create(f);
    var todo := keyValues.Keys;
    NoResults(keyValues, job.reduceF);
    while todo != {}
      invariant Written(before, dir.files, f, visited, todo, keyValues, job.reduceF)
      decreases |todo|
    {
      var k :| k in todo;
      WrittenNext(before, dir.files, f, visited, todo, keyValues, job.reduceF, k);
      dir.Append(f, KeyValue(k, job.reduceF(k, keyValues[k])));
      todo, visited := todo - {k}, visited + {k};
    }
    assert visited == keyValues.Keys;
  }

  lemma NoResults(keyValues: map<string, seq<string>>, reduceF: (string, seq<string>) -> string)
    ensures Results([], {}, keyValues, reduceF)
  {
  }

  /** A missing input is fatal (ok is false, nothing was written). */
  method DoReduce(dir: Directory, job: Job, reduceTask: nat) returns (ok: bool)
    modifies dir
    ensures ok <==> Ready(old(dir.files), |job.inputs|, reduceTask)
    ensures !ok ==> dir.files == old(dir.files)
    ensures ok ==> ReduceTaskWrites(old(dir.files), dir.files, job, reduceTask)
  {
    var keyValues: map<string, seq<string>> := map[];
    for i := 0 to |job.inputs|
      invariant Ready(dir.files, i, reduceTask) && dir.files == old(dir.files)
      invariant Groups(keyValues, ReadAll(dir.files, i, reduceTask))
    {
      if Intermediate(i, reduceTask) !in dir.files {
        return false;
      }
      keyValues := ReadFile(keyValues, dir.files[Intermediate(i, reduceTask)], ReadAll(dir.files, i, reduceTask));
    }
    WriteReduced(dir, job, reduceTask, keyValues);
    return true;
  }

  /** merge's first loops: later values of a key replace earlier ones. */
  method Collect(dir: Directory, nReduce: nat) returns (ok: bool, kvs: map<string, string>)
    ensures ok <==> AllMerged(dir.files, nReduce)
    ensures ok ==> kvs == Union(dir.files, nReduce)
  {
    kvs := map[];
    for i := 0 to nReduce
      invariant AllMerged(dir.files, i) && kvs == Union(dir.files, i)
    {
      if Merged(i) !in dir.files {
        return false, map[];
      }
      var pairs := dir.files[Merged(i)];
      for x := 0 to |pairs|
        invariant kvs == Put(Union(dir.files, i), pairs[..x])
      {
        assert pairs[..x + 1][..x] == pairs[..x];
        kvs := kvs[pairs[x].key := pairs[x].value];
      }
      assert pairs[..|pairs|] == pairs;
    }
    ok := true;
  }

  method KeysOf(kvs: map<string, string>) returns (keys: seq<string>)
    ensures forall i, j :: 0 <= i < j < |keys| ==> keys[i] != keys[j]
    ensures forall key :: key in keys <==> key in kvs
  {
    keys := [];
    var todo := kvs.Keys;
    while todo != {}
      invariant todo <= kvs.Keys
      invariant forall i, j :: 0 <= i < j < |keys| ==> keys[i] != keys[j]
      invariant forall key :: key in keys <==> key in kvs && key !in todo
      decreases |todo|
    {
      var k :| k in todo;
      todo := todo - {k};
      keys := keys + [k];
    }
  }

  /** The lines of the final output, in sorted key order; a missing reduce output is fatal. */
  method Merge(dir: Directory, nReduce: nat) returns (ok: bool, out: seq<KeyValue>)
    ensures ok <==> AllMerged(dir.files, nReduce)
    ensures ok ==> Lists(out, Union(dir.files, nReduce))
  {
    hide Union, Before;
    var kvs;
    out := [];
    ok, kvs := Collect(dir, nReduce);
    if ok {
      var unsorted := KeysOf(kvs);
      var keys := SortStrings(unsorted);
      for x := 0 to |keys|
        invariant |out| == x && forall y :: 0 <= y < x ==> keys[y] in kvs && out[y] == KeyValue(keys[y], kvs[keys[y]])
      {
        assert keys[x] in keys;
        out := out + [KeyValue(keys[x], kvs[keys[x]])];
      }
      assert Keys(out) == keys;
      KeysMember(out);
    }
  }

  /** Other map tasks and all reduce outputs are left alone, so finished map tasks stay finished. */
  lemma MapTaskKeepsOthers(files: Files, files': Files, job: Job, m: nat, k: nat, r: nat)
    requires job.nReduce >= 1 && m < |job.inputs| && MapTaskWrites(files, files', job, m)
    requires k < |job.inputs| && r < job.nReduce
    requires Intermediate(k, r) in files && files[Intermediate(k, r)] == Bucket(job, Emitted(job, k), r)
    ensures Intermediate(k, r) in files' && files'[Intermediate(k, r)] == Bucket(job, Emitted(job, k), r)
  {
    var f := Intermediate(k, r);
    assert k != m ==> !(f.Intermediate? && f.mapTask == m && f.reduceTask < job.nReduce);
  }

  /** What reduce task r reads does not depend on the reduce outputs. */
  lemma {:induction false} ReadAllSame(files: Files, files': Files, n: nat, r: nat)
    requires Ready(files, n, r)
    requires forall m :: 0 <= m < n ==> Intermediate(m, r) in files' && files'[Intermediate(m, r)] == files[Intermediate(m, r)]
    ensures Ready(files', n, r) && ReadAll(files', n, r) == ReadAll(files, n, r)
    decreases n
  {
    if n > 0 {
      ReadAllSame(files, files', n - 1, r);
    }
  }

  /**
    * Sequential and run: all map tasks, all reduce tasks, merge. No input is ever missing, and the output is the
    * sequential group-and-reduce of everything emitted.
    */
  method RunSequential(dir: Directory, job: Job) returns (ok: bool, out: seq<KeyValue>)
    requires job.nReduce >= 1
    modifies dir
    ensures ok && IsGroupReduce(out, AllEmitted(job, |job.inputs|), job.reduceF)
  {
    hide IsReduced, MapTaskWrites, ReduceTaskWrites, Lists, IsGroupReduce;
    out := [];
    for i := 0 to |job.inputs|
      invariant forall m, r :: 0 <= m < i && 0 <= r < job.nReduce ==>
                  Intermediate(m, r) in dir.files && dir.files[Intermediate(m, r)] == Bucket(job, Emitted(job, m), r)
    {
      ghost var files := dir.files;
      DoMap(dir, job, i);
      forall m, r | 0 <= m <= i && 0 <= r < job.nReduce
        ensures Intermediate(m, r) in dir.files && dir.files[Intermediate(m, r)] == Bucket(job, Emitted(job, m), r)
      {
        MapTaskDone(files, dir.files, job, i, m, r);
      }
    }
    for i := 0 to job.nReduce
      invariant MapsDone(dir.files, job)
      invariant forall r :: 0 <= r < i ==> ReduceDone(dir.files, job, r)
    {
      ghost var files := dir.files;
      MapsDoneReady(files, job, i);
      ok := DoReduce(dir, job, i);
      ReduceTaskDone(files, dir.files, job, i);
    }
    AllReducesMerged(dir.files, job);
    ok, out := Merge(dir, job.nReduce);
    MergeIsGroupReduce(dir.files, job, out);
  }

  lemma MapTaskDone(files: Files, files': Files, job: Job, i: nat, m: nat, r: nat)
    requires job.nReduce >= 1 && i < |job.inputs| && m <= i && r < job.nReduce && MapTaskWrites(files, files', job, i)
    requires m < i ==> Intermediate(m, r) in files && files[Intermediate(m, r)] == Bucket(job, Emitted(job, m), r)
    ensures Intermediate(m, r) in files' && files'[Intermediate(m, r)] == Bucket(job, Emitted(job, m), r)
  {
    if m < i {
      MapTaskKeepsOthers(files, files', job, i, m, r);
    }
  }

  lemma MapsDoneReady(files: Files, job: Job, r: nat)
    requires job.nReduce >= 1 && MapsDone(files, job) && r < job.nReduce
    ensures Ready(files, |job.inputs|, r)
  {
  }

  /** A (re-)executed reduce task leaves all inputs and the other outputs alone. */
  lemma ReduceTaskDone(files: Files, files': Files, job: Job, i: nat)
    requires job.nReduce >= 1 && i < job.nReduce && MapsDone(files, job) && ReduceTaskWrites(files, files', job, i)
    ensures MapsDone(files', job) && ReduceDone(files', job, i)
    ensures forall r :: 0 <= r < job.nReduce && ReduceDone(files, job, r) ==> ReduceDone(files', job, r)
  {
    hide IsReduced;
    forall r | 0 <= r < job.nReduce
      ensures Ready(files', |job.inputs|, r) && ReadAll(files', |job.inputs|, r) == ReadAll(files, |job.inputs|, r)
    {
      ReadAllSame(files, files', |job.inputs|, r);
    }
  }
}
