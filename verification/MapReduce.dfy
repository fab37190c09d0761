/**
  * The data flow of a MapReduce job: map tasks partition what they emit by key hash, reduce tasks group what they
  * read by key, merge takes the union in key order. Together they are one sequential group-and-reduce.
  */
module MapReduce {

  datatype KeyValue = KeyValue(key: string, value: string)

  datatype Input = Input(name: string, contents: string)

  /** The application's functions, the hash of a key, and the job's size. */
  datatype Job = Job(
    inputs: seq<Input>, nReduce: nat,
    mapF: (string, string) -> seq<KeyValue>, reduceF: (string, seq<string>) -> string, hash: string -> nat)

  // File names ---------------------------------------------------------------------------------------

  datatype FileName = Intermediate(mapTask: nat, reduceTask: nat) | Merged(reduceTask: nat)

  type Files = map<FileName, seq<KeyValue>>

  function Digit(d: nat): char
    requires d < 10
  {
    '0' + d as char
  }

  function Itoa(n: nat): string {
    if n < 10 then [Digit(n)] else Itoa(n / 10) + [Digit(n % 10)]
  }

  /** reduceName and mergeName. */
  function NameOf(jobName: string, f: FileName): string {
    match f
    case Intermediate(m, r) => "mrtmp." + jobName + ("-" + Itoa(m) + "-" + Itoa(r))
    case Merged(r) => "mrtmp." + jobName + ("-res-" + Itoa(r))
  }

  lemma {:induction false} ItoaDigits(n: nat)
    ensures |Itoa(n)| > 0 && forall k :: 0 <= k < |Itoa(n)| ==> '0' <= Itoa(n)[k] <= '9'
  {
    if n >= 10 {
      ItoaDigits(n / 10);
    }
  }

  /** Reading decimal digits. */
  function Atoi(digits: string): nat
    requires forall k :: 0 <= k < |digits| ==> '0' <= digits[k] <= '9'
  {
    if digits == "" then 0
    else 10 * Atoi(digits[..|digits| - 1]) + (digits[|digits| - 1] - '0') as nat
  }

  lemma {:induction false} ItoaIsDecimal(n: nat)
    ensures |Itoa(n)| > 0 && (forall k :: 0 <= k < |Itoa(n)| ==> '0' <= Itoa(n)[k] <= '9') && Atoi(Itoa(n)) == n
  {
    ItoaDigits(n);
    if n >= 10 {
      ItoaIsDecimal(n / 10);
      assert Itoa(n)[..|Itoa(n)| - 1] == Itoa(n / 10);
    } else {
      assert Itoa(n)[..0] == "";
    }
  }

  lemma {:induction false} ItoaInjective(m: nat, n: nat)
    requires Itoa(m) == Itoa(n)
    ensures m == n
  {
    var s, t := Itoa(m), Itoa(n);
    if m >= 10 {
      ItoaDigits(m / 10);
    }
    if n >= 10 {
      ItoaDigits(n / 10);
    }
    assert s[|s| - 1] == t[|t| - 1];
    if m >= 10 && n >= 10 {
      assert Itoa(m / 10) == s[..|s| - 1] == t[..|t| - 1] == Itoa(n / 10);
      ItoaInjective(m / 10, n / 10);
    }
  }

  /** The files of one job never share a name. */
  lemma NamesDistinct(jobName: string, f: FileName, g: FileName)
    requires NameOf(jobName, f) == NameOf(jobName, g)
    ensures f == g
  {
    var head := "mrtmp." + jobName;
    var x, y := NameOf(jobName, f)[|head|..], NameOf(jobName, g)[|head|..];
    match (f, g) {
      case (Intermediate(m, r), Intermediate(m', r')) =>
        assert x == "-" + Itoa(m) + "-" + Itoa(r) && y == "-" + Itoa(m') + "-" + Itoa(r');
        ItoaDigits(m);
        ItoaDigits(m');
        SameDash(Itoa(m), Itoa(r), Itoa(m'), Itoa(r'));
        ItoaInjective(m, m');
        ItoaInjective(r, r');
      case (Merged(r), Merged(r')) =>
        assert x == "-res-" + Itoa(r) && y == "-res-" + Itoa(r');
        assert Itoa(r) == x[5..] == y[5..] == Itoa(r');
        ItoaInjective(r, r');
      case (Intermediate(m, r), Merged(r')) => KindsDiffer(jobName, m, r, r');
      case (Merged(r'), Intermediate(m, r)) => KindsDiffer(jobName, m, r, r');
    }
  }

  /** A digit follows the dash in one, a letter in the other. */
  lemma KindsDiffer(jobName: string, m: nat, r: nat, r': nat)
    ensures NameOf(jobName, Intermediate(m, r)) != NameOf(jobName, Merged(r'))
  {
    var at := |"mrtmp." + jobName| + 1;
    ItoaDigits(m);
    assert NameOf(jobName, Intermediate(m, r))[at] == Itoa(m)[0];
    assert NameOf(jobName, Merged(r'))[at] == 'r';
  }

  lemma SameDash(a: string, r: string, b: string, r': string)
    requires forall k :: 0 <= k < |a| ==> a[k] != '-'
    requires forall k :: 0 <= k < |b| ==> b[k] != '-'
    requires "-" + a + "-" + r == "-" + b + "-" + r'
    ensures a == b && r == r'
  {
    DashNotSooner(a, r, b, r');
    DashNotSooner(b, r', a, r);
    var x := "-" + a + "-" + r;
    assert a == x[1..1 + |a|] && b == x[1..1 + |b|] && r == x[2 + |a|..] && r' == x[2 + |b|..];
  }

  lemma DashNotSooner(a: string, r: string, b: string, r': string)
    requires forall k :: 0 <= k < |a| ==> a[k] != '-'
    requires "-" + a + "-" + r == "-" + b + "-" + r'
    ensures |a| <= |b|
  {
    var x := "-" + a + "-" + r;
    assert x[1 + |b|] == '-';
    assert forall k :: 1 <= k < 1 + |a| ==> x[k] == a[k - 1];
  }

  // What the tasks compute ---------------------------------------------------------------------------

  /** The partition of a key. */
  function PartitionOf(job: Job, key: string): nat
    requires job.nReduce >= 1
  {
    job.hash(key) % job.nReduce
  }

  /** The pairs of partition r, in order. */
  function Bucket(job: Job, pairs: seq<KeyValue>, r: nat): seq<KeyValue>
    requires job.nReduce >= 1
  {
    if pairs == [] then []
    else
      var last := pairs[|pairs| - 1];
      Bucket(job, pairs[..|pairs| - 1], r) + if PartitionOf(job, last.key) == r then [last] else []
  }

  /** The values of a key, in order. */
  function Values(pairs: seq<KeyValue>, key: string): seq<string> {
    if pairs == [] then []
    else
      var last := pairs[|pairs| - 1];
      Values(pairs[..|pairs| - 1], key) + if last.key == key then [last.value] else []
  }

  predicate HasKey(pairs: seq<KeyValue>, key: string) {
    exists x :: 0 <= x < |pairs| && pairs[x].key == key
  }

  function Emitted(job: Job, m: nat): seq<KeyValue>
    requires m < |job.inputs|
  {
    job.mapF(job.inputs[m].name, job.inputs[m].contents)
  }

  /** Everything the first m map tasks emit, in map-task then emission order. */
  function AllEmitted(job: Job, m: nat): seq<KeyValue>
    requires m <= |job.inputs|
  {
    if m == 0 then [] else AllEmitted(job, m - 1) + Emitted(job, m - 1)
  }

  /** The files a reduce task reads, one from each of the first n map tasks. */
  predicate Ready(files: Files, n: nat, r: nat) {
    forall m :: 0 <= m < n ==> Intermediate(m, r) in files
  }

  function ReadAll(files: Files, n: nat, r: nat): seq<KeyValue>
    requires Ready(files, n, r)
  {
    if n == 0 then [] else ReadAll(files, n - 1, r) + files[Intermediate(n - 1, r)]
  }

  /** One entry for every key: its reduced values. The order is that of a Go map, so any order. */
  ghost predicate IsReduced(out: seq<KeyValue>, pairs: seq<KeyValue>, reduceF: (string, seq<string>) -> string) {
    && (forall x, y :: 0 <= x < y < |out| ==> out[x].key != out[y].key)
    && (forall key :: HasKey(out, key) <==> HasKey(pairs, key))
    && (forall x :: 0 <= x < |out| ==> out[x].value == reduceF(out[x].key, Values(pairs, out[x].key)))
  }

  /** doMap writes its nReduce files and no others. */
  ghost predicate MapTaskWrites(files: Files, files': Files, job: Job, m: nat)
    requires m < |job.inputs| && job.nReduce >= 1
  {
    && (forall r :: 0 <= r < job.nReduce ==>
          Intermediate(m, r) in files' && files'[Intermediate(m, r)] == Bucket(job, Emitted(job, m), r))
    && (forall f: FileName :: !(f.Intermediate? && f.mapTask == m && f.reduceTask < job.nReduce) ==>
          (f in files' <==> f in files) && (f in files ==> files'[f] == files[f]))
  }

  /** doReduce writes its one file. */
  ghost predicate ReduceTaskWrites(files: Files, files': Files, job: Job, r: nat) {
    && Ready(files, |job.inputs|, r) && Merged(r) in files'
    && files' == files[Merged(r) := files'[Merged(r)]]
    && IsReduced(files'[Merged(r)], ReadAll(files, |job.inputs|, r), job.reduceF)
  }

  // Partitioning loses and reorders nothing ----------------------------------------------------------

  lemma {:induction false} ValuesConcat(a: seq<KeyValue>, b: seq<KeyValue>, key: string)
    ensures Values(a + b, key) == Values(a, key) + Values(b, key)
    decreases |b|
  {
    if b == [] {
      assert a + b == a;
    } else {
      assert (a + b)[..|a + b| - 1] == a + b[..|b| - 1];
      ValuesConcat(a, b[..|b| - 1], key);
    }
  }

  /** A partition has all values of the keys that hash to it, in order, and no others. */
  lemma {:induction false} ValuesOfBucket(job: Job, pairs: seq<KeyValue>, r: nat, key: string)
    requires job.nReduce >= 1
    ensures Values(Bucket(job, pairs, r), key) == if job.hash(key) % job.nReduce == r then Values(pairs, key) else []
    decreases |pairs|
  {
    if pairs != [] {
      var front, last := pairs[..|pairs| - 1], pairs[|pairs| - 1];
      ValuesOfBucket(job, front, r, key);
      ValuesConcat(Bucket(job, front, r), if PartitionOf(job, last.key) == r then [last] else [], key);
      assert [last][..0] == [];
    }
  }

  lemma HasKeyFront(pairs: seq<KeyValue>, key: string)
    requires pairs != []
    ensures HasKey(pairs, key) <==> HasKey(pairs[..|pairs| - 1], key) || pairs[|pairs| - 1].key == key
  {
    var front := pairs[..|pairs| - 1];
    assert forall x :: 0 <= x < |front| ==> front[x] == pairs[x];
    if HasKey(front, key) {
      var x :| 0 <= x < |front| && front[x].key == key;
      assert pairs[x].key == key;
    }
    if HasKey(pairs, key) {
      var x :| 0 <= x < |pairs| && pairs[x].key == key;
      assert x < |front| ==> front[x].key == key;
    }
  }

  /** The values of a key are those of its pairs: the value of pair x comes after those of the pairs before x. */
  lemma {:induction false} ValuesInOrder(pairs: seq<KeyValue>, key: string, x: nat)
    requires x < |pairs| && pairs[x].key == key
    ensures |Values(pairs[..x], key)| < |Values(pairs, key)|
    ensures Values(pairs, key)[|Values(pairs[..x], key)|] == pairs[x].value
    decreases |pairs|
  {
    var front := pairs[..|pairs| - 1];
    if x < |front| {
      ValuesInOrder(front, key, x);
      assert front[..x] == pairs[..x];
    }
  }

  /** Where a key is. */
  function Places(pairs: seq<KeyValue>, key: string): set<nat> {
    set x: nat | x < |pairs| && pairs[x].key == key
  }

  lemma PlaceInFront(pairs: seq<KeyValue>, key: string, x: nat)
    requires pairs != [] && x < |pairs| - 1
    ensures x in Places(pairs, key) <==> x in Places(pairs[..|pairs| - 1], key)
  {
  }

  lemma PlacesSnoc(pairs: seq<KeyValue>, key: string)
    requires pairs != []
    ensures var last := |pairs| - 1;
            |Places(pairs, key)| == |Places(pairs[..last], key)| + if pairs[last].key == key then 1 else 0
  {
    var last := |pairs| - 1;
    var here := if pairs[last].key == key then {last} else {};
    PlacesBound(pairs, key);
    PlacesBound(pairs[..last], key);
    assert last in Places(pairs, key) <==> pairs[last].key == key;
    hide Places;
    forall x: nat ensures x in Places(pairs, key) <==> x in Places(pairs[..last], key) + here {
      if x < last {
        PlaceInFront(pairs, key, x);
      }
    }
    assert Places(pairs, key) == Places(pairs[..last], key) + here;
  }

  lemma PlacesBound(pairs: seq<KeyValue>, key: string)
    ensures forall x :: x in Places(pairs, key) ==> x < |pairs|
  {
  }

  /** And there are as many of them as pairs with that key. */
  lemma {:induction false} ValuesCount(pairs: seq<KeyValue>, key: string)
    ensures |Values(pairs, key)| == |Places(pairs, key)|
    decreases |pairs|
  {
    if pairs != [] {
      ValuesCount(pairs[..|pairs| - 1], key);
      hide Places;
      PlacesSnoc(pairs, key);
    } else {
      assert Places(pairs, key) == {};
    }
  }

  lemma {:induction false} HasKeyIffValues(pairs: seq<KeyValue>, key: string)
    ensures HasKey(pairs, key) <==> Values(pairs, key) != []
    decreases |pairs|
  {
    if pairs != [] {
      HasKeyFront(pairs, key);
      HasKeyIffValues(pairs[..|pairs| - 1], key);
    }
  }

  lemma NoValues(key: string)
    ensures Values([], key) == []
  {
  }

  /** All map files are there with the right contents. */
  ghost predicate MapsDone(files: Files, job: Job)
    requires job.nReduce >= 1
  {
    forall m, r :: 0 <= m < |job.inputs| && 0 <= r < job.nReduce ==>
      Intermediate(m, r) in files && files[Intermediate(m, r)] == Bucket(job, Emitted(job, m), r)
  }

  /** What reduce task r reads has, for the keys of partition r, all their values in map-task then emission order. */
  lemma {:induction false} InputValues(files: Files, job: Job, n: nat, r: nat, key: string)
    requires job.nReduce >= 1 && MapsDone(files, job) && n <= |job.inputs| && r < job.nReduce
    ensures Ready(files, n, r)
    ensures Values(ReadAll(files, n, r), key) ==
            if PartitionOf(job, key) == r then Values(AllEmitted(job, n), key) else []
    decreases n
  {
    hide Bucket, Values;
    if n == 0 {
      assert Values([], key) == [] by {
        NoValues(key);
      }
    } else {
      InputValues(files, job, n - 1, r, key);
      ValuesOfBucket(job, Emitted(job, n - 1), r, key);
      ValuesConcat(ReadAll(files, n - 1, r), files[Intermediate(n - 1, r)], key);
      ValuesConcat(AllEmitted(job, n - 1), Emitted(job, n - 1), key);
    }
  }

  // Sorted keys --------------------------------------------------------------------------------------

  /** The order of sort.Strings. */
  predicate Before(a: string, b: string) {
    b != "" && (a == "" || a[0] < b[0] || (a[0] == b[0] && Before(a[1..], b[1..])))
  }

  /** At the first place where two strings differ one ends or has the smaller character. */
  predicate DiffersAt(a: string, b: string, k: nat) {
    k <= |a| && k < |b| && a[..k] == b[..k] && (k == |a| || a[k] < b[k])
  }

  lemma {:induction false} BeforeIsLexicographic(a: string, b: string)
    ensures Before(a, b) <==> exists k: nat :: DiffersAt(a, b, k)
    decreases |b|
  {
    if b != "" {
      if a == "" || a[0] < b[0] {
        assert DiffersAt(a, b, 0);
      } else if a[0] == b[0] {
        BeforeIsLexicographic(a[1..], b[1..]);
        if k: nat :| DiffersAt(a[1..], b[1..], k) {
          assert a[..k + 1] == [a[0]] + a[1..][..k] && b[..k + 1] == [b[0]] + b[1..][..k];
          assert DiffersAt(a, b, k + 1);
        }
        if k: nat :| DiffersAt(a, b, k) {
          assert k > 0 && a[1..][..k - 1] == a[..k][1..] && b[1..][..k - 1] == b[..k][1..];
          assert DiffersAt(a[1..], b[1..], k - 1);
        }
      } else {
        forall k: nat ensures !DiffersAt(a, b, k) {
          assert 0 < k <= |a| && k <= |b| ==> a[..k][0] == a[0] && b[..k][0] == b[0];
        }
      }
    }
  }

  lemma {:induction false} BeforeTransitive(a: string, b: string, c: string)
    requires Before(a, b) && Before(b, c)
    ensures Before(a, c)
    decreases |a|
  {
    if a != "" && a[0] == b[0] == c[0] {
      BeforeTransitive(a[1..], b[1..], c[1..]);
    }
  }

  lemma {:induction false} BeforeTotal(a: string, b: string)
    ensures Before(a, b) || Before(b, a) || a == b
    decreases |a|
  {
    if a != "" && b != "" && a[0] == b[0] {
      BeforeTotal(a[1..], b[1..]);
      assert a[1..] == b[1..] ==> a == [a[0]] + a[1..] == [b[0]] + b[1..] == b;
    }
  }

  lemma {:induction false} BeforeIrreflexive(a: string)
    ensures !Before(a, a)
    decreases |a|
  {
    if a != "" {
      BeforeIrreflexive(a[1..]);
    }
  }

  ghost predicate StrictlySorted(keys: seq<string>) {
    forall i, j :: 0 <= i < j < |keys| ==> Before(keys[i], keys[j])
  }

  function Inserted(keys: seq<string>, k: string): (r: seq<string>)
    requires StrictlySorted(keys) && k !in keys
    ensures StrictlySorted(r) && forall x :: x in r <==> x in keys || x == k
    ensures |r| == |keys| + 1
  {
    if keys == [] then [k]
    else
      var front, last := keys[..|keys| - 1], keys[|keys| - 1];
      if Before(last, k) then
        assert StrictlySorted(keys + [k]) by {
          forall i | 0 <= i < |keys| ensures Before(keys[i], k) {
            if i < |keys| - 1 { BeforeTransitive(keys[i], last, k); }
          }
        }
        keys + [k]
      else
        var r := Inserted(front, k);
        assert StrictlySorted(r + [last]) by {
          BeforeTotal(last, k);
          assert Before(k, last);
          forall i | 0 <= i < |r| ensures Before(r[i], last) {
            assert r[i] in r;
          }
        }
        assert keys == front + [last];
        r + [last]
  }

  /** sort.Strings, on keys that are all different. */
  function SortStrings(keys: seq<string>): (r: seq<string>)
    requires forall i, j :: 0 <= i < j < |keys| ==> keys[i] != keys[j]
    ensures StrictlySorted(r) && (forall x :: x in r <==> x in keys) && |r| == |keys|
  {
    if keys == [] then []
    else
      assert keys == keys[..|keys| - 1] + [keys[|keys| - 1]];
      Inserted(SortStrings(keys[..|keys| - 1]), keys[|keys| - 1])
  }

  lemma HasElement(a: seq<string>)
    ensures a == [] || exists x :: x in a
  {
    if a != [] {
      assert a[0] in a;
    }
  }

  /** There is one way to sort. */
  lemma {:induction false} SortedUnique(a: seq<string>, b: seq<string>)
    requires StrictlySorted(a) && StrictlySorted(b) && forall x :: x in a <==> x in b
    ensures a == b
    decreases |a|
  {
    if a == [] {
      HasElement(b);
    } else {
      assert a[0] in b;
      var last := a[|a| - 1];
      LastIsMaximum(a, b);
      LastIsMaximum(b, a);
      BeforeAsymmetric(last, b[|b| - 1]);
      assert last == b[|b| - 1];
      FrontElements(a);
      FrontElements(b);
      var front, front' := a[..|a| - 1], b[..|b| - 1];
      forall x ensures x in front <==> x in front' {
        assert x in a <==> x in b;
      }
      SortedUnique(front, front');
    }
  }

  lemma BeforeAsymmetric(a: string, b: string)
    ensures !(Before(a, b) && Before(b, a))
  {
    if Before(a, b) && Before(b, a) {
      BeforeTransitive(a, b, a);
      BeforeIrreflexive(a);
    }
  }

  lemma LastIsMaximum(a: seq<string>, b: seq<string>)
    requires StrictlySorted(a) && a != [] && b != [] && forall x :: x in b ==> x in a
    ensures b[|b| - 1] == a[|a| - 1] || Before(b[|b| - 1], a[|a| - 1])
  {
    assert b[|b| - 1] in a;
  }

  lemma FrontElements(a: seq<string>)
    requires StrictlySorted(a) && a != []
    ensures StrictlySorted(a[..|a| - 1])
    ensures forall x :: x in a[..|a| - 1] <==> x in a && x != a[|a| - 1]
  {
    var front, last := a[..|a| - 1], a[|a| - 1];
    assert a == front + [last];
    forall i | 0 <= i < |front| ensures front[i] != last {
      BeforeIrreflexive(last);
    }
  }

  // The result of a job ------------------------------------------------------------------------------

  function Keys(out: seq<KeyValue>): (r: seq<string>)
    ensures |r| == |out| && forall x :: 0 <= x < |out| ==> r[x] == out[x].key
  {
    seq(|out|, x requires 0 <= x < |out| => out[x].key)
  }

  /** The keys of `pairs` in sorted order, each once, with its values reduced. */
  ghost predicate IsGroupReduce(out: seq<KeyValue>, pairs: seq<KeyValue>, reduceF: (string, seq<string>) -> string) {
    && StrictlySorted(Keys(out))
    && (forall key :: HasKey(out, key) <==> HasKey(pairs, key))
    && (forall x :: 0 <= x < |out| ==> out[x].value == reduceF(out[x].key, Values(pairs, out[x].key)))
  }

  lemma KeysMember(out: seq<KeyValue>)
    ensures forall key :: key in Keys(out) <==> HasKey(out, key)
  {
    forall key | HasKey(out, key) ensures key in Keys(out) {
      var x :| 0 <= x < |out| && out[x].key == key;
      assert Keys(out)[x] == key;
    }
    forall key | key in Keys(out) ensures HasKey(out, key) {
      var x :| 0 <= x < |out| && Keys(out)[x] == key;
      assert out[x].key == key;
    }
  }

  /** The specification determines the output. */
  lemma GroupReduceUnique(a: seq<KeyValue>, b: seq<KeyValue>, pairs: seq<KeyValue>, reduceF: (string, seq<string>) -> string)
    requires IsGroupReduce(a, pairs, reduceF) && IsGroupReduce(b, pairs, reduceF)
    ensures a == b
  {
    KeysMember(a);
    KeysMember(b);
    SortedUnique(Keys(a), Keys(b));
    forall x | 0 <= x < |a| ensures a[x] == b[x] {
      assert Keys(a)[x] == Keys(b)[x];
    }
  }

  // Merging ------------------------------------------------------------------------------------------

  function Put(kvs: map<string, string>, pairs: seq<KeyValue>): map<string, string> {
    if pairs == [] then kvs
    else
      var last := pairs[|pairs| - 1];
      Put(kvs, pairs[..|pairs| - 1])[last.key := last.value]
  }

  predicate AllMerged(files: Files, n: nat) {
    forall r :: 0 <= r < n ==> Merged(r) in files
  }

  /** The map that merge fills from the first n reduce outputs: later files overwrite earlier ones. */
  function Union(files: Files, n: nat): map<string, string>
    requires AllMerged(files, n)
  {
    if n == 0 then map[] else Put(Union(files, n - 1), files[Merged(n - 1)])
  }

  /** The whole map, in key order. */
  ghost predicate Lists(out: seq<KeyValue>, kvs: map<string, string>) {
    && StrictlySorted(Keys(out))
    && (forall key :: key in kvs <==> HasKey(out, key))
    && (forall x :: 0 <= x < |out| ==> out[x].key in kvs && kvs[out[x].key] == out[x].value)
  }

  /** Reduce task r has written its output. */
  ghost predicate ReduceDone(files: Files, job: Job, r: nat) {
    && Ready(files, |job.inputs|, r) && Merged(r) in files
    && IsReduced(files[Merged(r)], ReadAll(files, |job.inputs|, r), job.reduceF)
  }

  ghost predicate ReducesDone(files: Files, job: Job) {
    forall r :: 0 <= r < job.nReduce ==> ReduceDone(files, job, r)
  }

  lemma AllReducesMerged(files: Files, job: Job)
    requires ReducesDone(files, job)
    ensures AllMerged(files, job.nReduce)
  {
    forall r | 0 <= r < job.nReduce ensures Merged(r) in files {
      assert ReduceDone(files, job, r);
    }
  }

  /** x is the last pair with the key. */
  predicate LastWith(pairs: seq<KeyValue>, key: string, x: int) {
    0 <= x < |pairs| && pairs[x].key == key && forall y :: x < y < |pairs| ==> pairs[y].key != key
  }

  lemma {:induction false} PutMeans(kvs: map<string, string>, pairs: seq<KeyValue>, key: string)
    ensures key in Put(kvs, pairs) <==> key in kvs || HasKey(pairs, key)
    ensures !HasKey(pairs, key) && key in kvs ==> Put(kvs, pairs)[key] == kvs[key]
    ensures HasKey(pairs, key) ==> exists x :: LastWith(pairs, key, x) && 0 <= x < |pairs| && Put(kvs, pairs)[key] == pairs[x].value
    decreases |pairs|
  {
    hide HasKey, LastWith;
    if pairs == [] {
      NoKey(key);
    } else {
      var front, last := pairs[..|pairs| - 1], |pairs| - 1;
      PutMeans(kvs, front, key);
      HasKeyFront(pairs, key);
      if pairs[last].key == key {
        LastIsLast(pairs, key);
      } else if HasKey(front, key) {
        var x :| LastWith(front, key, x) && 0 <= x < |front| && Put(kvs, front)[key] == front[x].value;
        LastStays(pairs, key, x);
      }
    }
  }

  lemma NoKey(key: string)
    ensures !HasKey([], key)
  {
  }

  lemma LastIsLast(pairs: seq<KeyValue>, key: string)
    requires pairs != [] && pairs[|pairs| - 1].key == key
    ensures LastWith(pairs, key, |pairs| - 1)
  {
  }

  lemma LastStays(pairs: seq<KeyValue>, key: string, x: int)
    requires pairs != [] && pairs[|pairs| - 1].key != key && LastWith(pairs[..|pairs| - 1], key, x)
    ensures LastWith(pairs, key, x) && 0 <= x < |pairs| - 1
  {
  }

  /** The key's own partition supplies its value; the other reduce outputs do not have it. */
  lemma {:induction false} UnionMeans(files: Files, job: Job, n: nat, key: string)
    requires job.nReduce >= 1 && MapsDone(files, job) && ReducesDone(files, job) && n <= job.nReduce
    ensures AllMerged(files, n)
    ensures var all := AllEmitted(job, |job.inputs|);
            && (key in Union(files, n) <==> PartitionOf(job, key) < n && HasKey(all, key))
            && (key in Union(files, n) ==> Union(files, n)[key] == job.reduceF(key, Values(all, key)))
    decreases n
  {
    hide Bucket, Values, HasKey, PartitionOf, MapsDone, AllEmitted, ReadAll, Put;
    if n > 0 {
      var r := n - 1;
      UnionMeans(files, job, r, key);
      InputValues(files, job, |job.inputs|, r, key);
      assert ReduceDone(files, job, r);
      var input, out := ReadAll(files, |job.inputs|, r), files[Merged(r)];
      HasKeyIffValues(input, key);
      HasKeyIffValues(AllEmitted(job, |job.inputs|), key);
      PutMeans(Union(files, r), out, key);
    }
  }

  /** The merged output is the sequential group-and-reduce of everything emitted. */
  lemma MergeIsGroupReduce(files: Files, job: Job, out: seq<KeyValue>)
    requires job.nReduce >= 1 && MapsDone(files, job) && ReducesDone(files, job)
    requires AllMerged(files, job.nReduce) && Lists(out, Union(files, job.nReduce))
    ensures IsGroupReduce(out, AllEmitted(job, |job.inputs|), job.reduceF)
  {
    forall key {
      UnionMeans(files, job, job.nReduce, key);
    }
  }
}
