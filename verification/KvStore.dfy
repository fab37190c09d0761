/**
  * The replicated key/value state machine: what one committed operation does, and why a log that contains retried
  * operations has the effect of each operation exactly once.
  */
module KvStore {

  datatype Kind = Get | Append | Put

  /** An operation, numbered by its client: clerks count from 1. */
  datatype Op = Op(kind: Kind, key: string, value: string, client: int, number: int)

  /** kv.data and kv.opIndex. */
  datatype Store = Store(data: map<string, string>, opIndex: map<int, int>)

  const EMPTY := Store(map[], map[])

  function Effect(data: map<string, string>, op: Op): map<string, string> {
    match op.kind
    case Put => data[op.key := op.value]
    case Append => data[op.key := (if op.key in data then data[op.key] else "") + op.value]
    case Get => data
  }

  /** Reading a missing key of a Go map gives the zero value. */
  function LastNumber(s: Store, client: int): int {
    if client in s.opIndex then s.opIndex[client] else 0
  }

  predicate Duplicate(s: Store, op: Op) {
    LastNumber(s, op.client) >= op.number
  }

  /** KVServer.Apply on the maps. */
  function Applied(s: Store, op: Op): Store {
    if Duplicate(s, op) then s else Store(Effect(s.data, op), s.opIndex[op.client := op.number])
  }

  /** What executing an operation does to the data: Put stores, Append stores at the end, Get changes nothing. */
  ghost predicate Executed(data: map<string, string>, data': map<string, string>, op: Op) {
    && (forall key :: key != op.key ==> (key in data' <==> key in data) && (key in data' ==> data'[key] == data[key]))
    && match op.kind
       case Put => op.key in data' && data'[op.key] == op.value
       case Append => op.key in data' && data'[op.key] == (if op.key in data then data[op.key] else "") + op.value
       case Get => data' == data
  }

  /** An operation with a number above the last one of its client is executed and remembered, another is ignored. */
  ghost predicate NewOrSame(data: map<string, string>, opIndex: map<int, int>,
                            data': map<string, string>, opIndex': map<int, int>, op: Op)
  {
    if (if op.client in opIndex then opIndex[op.client] else 0) < op.number
    then Executed(data, data', op) && opIndex' == opIndex[op.client := op.number]
    else data' == data && opIndex' == opIndex
  }

  /** Every entry that is replayed does that. */
  lemma AppliedMeans(s: Store, op: Op)
    ensures NewOrSame(s.data, s.opIndex, Applied(s, op).data, Applied(s, op).opIndex, op)
  {
  }

  function Replay(s: Store, ops: seq<Op>): Store {
    if ops == [] then s else Applied(Replay(s, ops[..|ops| - 1]), ops[|ops| - 1])
  }

  /** The operations executed one after the other with no duplicate suppression: the sequential service. */
  function Effects(data: map<string, string>, ops: seq<Op>): map<string, string> {
    if ops == [] then data else Effect(Effects(data, ops[..|ops| - 1]), ops[|ops| - 1])
  }

  lemma ReplaySnoc(s: Store, ops: seq<Op>, op: Op)
    ensures Replay(s, ops + [op]) == Applied(Replay(s, ops), op)
  {
    assert (ops + [op])[..|ops + [op]| - 1] == ops;
  }

  lemma EffectsSnoc(data: map<string, string>, ops: seq<Op>, op: Op)
    ensures Effects(data, ops + [op]) == Effect(Effects(data, ops), op)
  {
    assert (ops + [op])[..|ops + [op]| - 1] == ops;
  }

  lemma {:induction false} ReplayConcat(s: Store, a: seq<Op>, b: seq<Op>)
    ensures Replay(s, a + b) == Replay(Replay(s, a), b)
    decreases |b|
  {
    if b == [] {
      assert a + b == a;
    } else {
      assert (a + b)[..|a + b| - 1] == a + b[..|b| - 1];
      ReplayConcat(s, a, b[..|b| - 1]);
    }
  }

  // opIndex is the per-client maximum ----------------------------------------------------------------

  predicate SameCall(x: Op, y: Op) {
    x.client == y.client && x.number == y.number
  }

  /** `m` is the largest number of the client in `ops`, or the floor if none is larger. */
  ghost predicate IsMaximum(ops: seq<Op>, client: int, floor: int, m: int) {
    && m >= floor
    && (forall j :: 0 <= j < |ops| && ops[j].client == client ==> ops[j].number <= m)
    && (m == floor || exists j :: 0 <= j < |ops| && ops[j].client == client && ops[j].number == m)
  }

  lemma {:induction false} OpIndexIsMaximum(s: Store, ops: seq<Op>, client: int)
    ensures IsMaximum(ops, client, LastNumber(s, client), LastNumber(Replay(s, ops), client))
    decreases |ops|
  {
    if ops != [] {
      var front, last := ops[..|ops| - 1], ops[|ops| - 1];
      OpIndexIsMaximum(s, front, client);
      var before, m := LastNumber(Replay(s, front), client), LastNumber(Replay(s, ops), client);
      assert forall j :: 0 <= j < |front| ==> ops[j] == front[j];
      if m == before && m != LastNumber(s, client) {
        var j :| 0 <= j < |front| && front[j].client == client && front[j].number == m;
        assert ops[j].client == client && ops[j].number == m;
      } else if m != before {
        assert ops[|ops| - 1].client == client && ops[|ops| - 1].number == m;
      }
    }
  }

  // Exactly once -------------------------------------------------------------------------------------

  /** Position j changes the store when the log is replayed. */
  predicate TakesEffect(s: Store, ops: seq<Op>, j: nat)
    requires j < |ops|
  {
    !Duplicate(Replay(s, ops[..j]), ops[j])
  }

  /** Position j is the first with its client and number. */
  predicate First(ops: seq<Op>, j: nat)
    requires j < |ops|
  {
    forall i :: 0 <= i < j ==> !SameCall(ops[i], ops[j])
  }

  /** Each client's numbers first appear in increasing order, counting from 1. */
  ghost predicate InOrder(ops: seq<Op>) {
    && (forall j :: 0 <= j < |ops| ==> ops[j].number >= 1)
    && (forall i, j :: 0 <= i < j < |ops| && ops[i].client == ops[j].client && First(ops, j) ==>
          ops[i].number < ops[j].number)
  }

  /** Position j takes effect iff its number is above what the store knew and above all earlier tail numbers. */
  lemma EffectIffAbove(s: Store, tail: seq<Op>, j: nat)
    requires j < |tail|
    ensures TakesEffect(s, tail, j) <==>
            tail[j].number > LastNumber(s, tail[j].client) &&
            forall i :: 0 <= i < j && tail[i].client == tail[j].client ==> tail[i].number < tail[j].number
  {
    var front, client := tail[..j], tail[j].client;
    OpIndexIsMaximum(s, front, client);
    var m := LastNumber(Replay(s, front), client);
    assert forall i :: 0 <= i < j ==> front[i] == tail[i];
    if m != LastNumber(s, client) {
      var i :| 0 <= i < |front| && front[i].client == client && front[i].number == m;
      assert tail[i].client == client;
    }
  }

  lemma EffectIffAboveEarlier(ops: seq<Op>, j: nat)
    requires j < |ops|
    ensures TakesEffect(EMPTY, ops, j) <==>
            ops[j].number >= 1 && forall i :: 0 <= i < j && ops[i].client == ops[j].client ==> ops[i].number < ops[j].number
  {
    EffectIffAbove(EMPTY, ops, j);
  }

  /** Duplicate suppression applies exactly the first occurrence of each call iff the log is in order. */
  lemma ExactlyOnceIff(ops: seq<Op>)
    requires forall j :: 0 <= j < |ops| ==> ops[j].number >= 1
    ensures (forall j :: 0 <= j < |ops| ==> (TakesEffect(EMPTY, ops, j) <==> First(ops, j))) <==> InOrder(ops)
  {
    forall j | 0 <= j < |ops|
      ensures TakesEffect(EMPTY, ops, j) ==> First(ops, j)
      ensures InOrder(ops) && First(ops, j) ==> TakesEffect(EMPTY, ops, j)
    {
      EffectIffAboveEarlier(ops, j);
    }
    if forall j :: 0 <= j < |ops| ==> (TakesEffect(EMPTY, ops, j) <==> First(ops, j)) {
      forall i, j | 0 <= i < j < |ops| && ops[i].client == ops[j].client && First(ops, j)
        ensures ops[i].number < ops[j].number
      {
        EffectIffAboveEarlier(ops, j);
      }
    }
  }

  /** The log without its retries. */
  function Firsts(ops: seq<Op>): seq<Op> {
    if ops == [] then []
    else Firsts(ops[..|ops| - 1]) + (if First(ops, |ops| - 1) then [ops[|ops| - 1]] else [])
  }

  lemma PrefixInOrder(ops: seq<Op>, m: nat)
    requires InOrder(ops) && m <= |ops|
    ensures InOrder(ops[..m])
  {
    forall i, j | 0 <= i < j < m && ops[..m][i].client == ops[..m][j].client && First(ops[..m], j)
      ensures ops[..m][i].number < ops[..m][j].number
    {
      FirstInPrefix(ops, m, j);
    }
  }

  lemma FirstInPrefix(ops: seq<Op>, m: nat, j: nat)
    requires j < m <= |ops|
    ensures First(ops[..m], j) <==> First(ops, j)
  {
    assert forall i :: 0 <= i <= j ==> ops[..m][i] == ops[i];
  }

  /** The last position of an ordered log takes effect iff it is not a retry. */
  lemma LastTakesEffect(ops: seq<Op>)
    requires ops != [] && InOrder(ops)
    ensures var m := |ops| - 1;
            && InOrder(ops[..m])
            && (Duplicate(Replay(EMPTY, ops[..m]), ops[m]) <==> !First(ops, m))
  {
    PrefixInOrder(ops, |ops| - 1);
    ExactlyOnceIff(ops);
    assert TakesEffect(EMPTY, ops, |ops| - 1) <==> First(ops, |ops| - 1);
  }

  /** Folding Apply over the log gives the data of executing each call once, at its first occurrence. */
  lemma {:induction false} ExactlyOnce(ops: seq<Op>)
    requires InOrder(ops)
    ensures Replay(EMPTY, ops).data == Effects(map[], Firsts(ops))
    decreases |ops|
  {
    hide InOrder, First, Duplicate;
    if ops != [] {
      var m := |ops| - 1;
      LastTakesEffect(ops);
      ExactlyOnce(ops[..m]);
      EffectsSnoc(map[], Firsts(ops[..m]), ops[m]);
      assert Firsts(ops[..m]) + [] == Firsts(ops[..m]);
    }
  }

  /** Removing the retries from the log does not change the store at all. */
  lemma {:induction false} RetriesAreInvisible(ops: seq<Op>)
    requires InOrder(ops)
    ensures Replay(EMPTY, ops) == Replay(EMPTY, Firsts(ops))
    decreases |ops|
  {
    hide InOrder, First, Duplicate;
    if ops != [] {
      var m := |ops| - 1;
      LastTakesEffect(ops);
      RetriesAreInvisible(ops[..m]);
      ReplaySnoc(EMPTY, Firsts(ops[..m]), ops[m]);
      assert Firsts(ops[..m]) + [] == Firsts(ops[..m]);
    }
  }

  // What a key reads ---------------------------------------------------------------------------------

  /** Entry j is the first with its call, and it is of this kind and for this key. */
  predicate Writes(log: seq<Op>, j: nat, kind: Kind, key: string) {
    j < |log| && First(log, j) && log[j].kind == kind && log[j].key == key
  }

  /** The last Put of the key among the first m entries. */
  ghost predicate LastPut(log: seq<Op>, m: nat, key: string, p: nat) {
    p < m && Writes(log, p, Put, key) && forall j :: p < j < m ==> !Writes(log, j, Put, key)
  }

  ghost predicate NoPut(log: seq<Op>, m: nat, key: string) {
    forall j :: 0 <= j < m ==> !Writes(log, j, Put, key)
  }

  /** The values of the Appends to the key at low, .., high - 1, one after the other. */
  function Appended(log: seq<Op>, low: nat, high: nat, key: string): string
    decreases high
  {
    if high <= low then "" else Appended(log, low, high - 1, key) + if Writes(log, high - 1, Append, key) then log[high - 1].value else ""
  }

  ghost predicate SomeAppend(log: seq<Op>, m: nat, key: string) {
    exists j :: 0 <= j < m && Writes(log, j, Append, key)
  }

  /** A key that was put reads as its last Put and the Appends after it. */
  ghost predicate ReadsPut(log: seq<Op>, m: nat, key: string, data: map<string, string>) {
    forall p: nat :: LastPut(log, m, key, p) ==>
      key in data && data[key] == log[p].value + Appended(log, p + 1, m, key)
  }

  /** Another reads as all its Appends, if there are any. */
  ghost predicate ReadsAppends(log: seq<Op>, m: nat, key: string, data: map<string, string>) {
    NoPut(log, m, key) ==>
      && (key in data <==> SomeAppend(log, m, key))
      && (key in data ==> data[key] == Appended(log, 0, m, key))
  }

  ghost predicate Reads(log: seq<Op>, m: nat, key: string, data: map<string, string>) {
    ReadsPut(log, m, key, data) && ReadsAppends(log, m, key, data)
  }

  lemma NothingReads(log: seq<Op>, key: string)
    ensures Reads(log, 0, key, map[])
  {
    assert Appended(log, 0, 0, key) == "";
  }

  /** What entry m does to the key. */
  ghost predicate KeyStep(log: seq<Op>, m: nat, key: string, data: map<string, string>, data': map<string, string>) {
    if Writes(log, m, Put, key) then key in data' && data'[key] == log[m].value
    else if Writes(log, m, Append, key) then
      key in data' && data'[key] == (if key in data then data[key] else "") + log[m].value
    else (key in data' <==> key in data) && (key in data' ==> data'[key] == data[key])
  }

  lemma PutNext(log: seq<Op>, m: nat, key: string, data: map<string, string>, data': map<string, string>)
    requires m < |log| && ReadsPut(log, m, key, data) && KeyStep(log, m, key, data, data')
    ensures ReadsPut(log, m + 1, key, data')
  {
    hide First;
    forall p: nat | LastPut(log, m + 1, key, p)
      ensures key in data' && data'[key] == log[p].value + Appended(log, p + 1, m + 1, key)
    {
      if p < m {
        assert LastPut(log, m, key, p) && !Writes(log, m, Put, key);
        var before := Appended(log, p + 1, m, key);
        assert (log[p].value + before) + log[m].value == log[p].value + (before + log[m].value);
        assert before + "" == before;
      } else {
        assert log[m].value + Appended(log, m + 1, m + 1, key) == log[m].value;
      }
    }
  }

  lemma SomeAppendNext(log: seq<Op>, m: nat, key: string)
    ensures SomeAppend(log, m + 1, key) <==> SomeAppend(log, m, key) || Writes(log, m, Append, key)
  {
    hide Writes;
  }

  lemma AppendsNext(log: seq<Op>, m: nat, key: string, data: map<string, string>, data': map<string, string>)
    requires m < |log| && ReadsAppends(log, m, key, data) && KeyStep(log, m, key, data, data')
    ensures ReadsAppends(log, m + 1, key, data')
  {
    hide Writes;
    if NoPut(log, m + 1, key) {
      assert NoPut(log, m, key) && !Writes(log, m, Put, key);
      SomeAppendNext(log, m, key);
      if !SomeAppend(log, m, key) {
        NothingAppended(log, m, key);
      }
    }
  }

  lemma {:induction false} NothingAppended(log: seq<Op>, m: nat, key: string)
    requires forall j :: 0 <= j < m ==> !Writes(log, j, Append, key)
    ensures Appended(log, 0, m, key) == ""
  {
    if m > 0 {
      NothingAppended(log, m - 1, key);
    }
  }

  lemma ReadsNext(log: seq<Op>, m: nat, key: string, data: map<string, string>, data': map<string, string>)
    requires m < |log| && Reads(log, m, key, data)
    requires if First(log, m) then Executed(data, data', log[m]) else data' == data
    ensures Reads(log, m + 1, key, data')
  {
    hide First, ReadsPut, ReadsAppends;
    PutNext(log, m, key, data, data');
    AppendsNext(log, m, key, data, data');
  }

  lemma {:induction false} KeyReads(log: seq<Op>, m: nat, key: string)
    requires InOrder(log) && m <= |log|
    ensures Reads(log, m, key, Replay(EMPTY, log[..m]).data)
    decreases m
  {
    hide InOrder, First, Duplicate, Reads, Executed;
    if m == 0 {
      NothingReads(log, key);
    } else {
      KeyReads(log, m - 1, key);
      assert log[..m] == log[..m - 1] + [log[m - 1]] && log[..m][..m - 1] == log[..m - 1];
      PrefixInOrder(log, m);
      LastTakesEffect(log[..m]);
      FirstInPrefix(log, m, m - 1);
      var before := Replay(EMPTY, log[..m - 1]);
      ReplaySnoc(EMPTY, log[..m - 1], log[m - 1]);
      AppliedTakes(before, log[m - 1]);
      ReadsNext(log, m - 1, key, before.data, Replay(EMPTY, log[..m]).data);
    }
  }

  lemma AppliedTakes(s: Store, op: Op)
    ensures if Duplicate(s, op) then Applied(s, op) == s else Executed(s.data, Applied(s, op).data, op)
  {
  }

  // Snapshots ----------------------------------------------------------------------------------------

  /**
    * What a server has after reading a snapshot: encodeSnapshot saved kv.data only, so the server keeps its own
    * opIndex, from the first m operations of the log. At start-up that is nothing, m == 0.
    */
  function Restored(prefix: seq<Op>, m: nat): Store
    requires m <= |prefix|
  {
    Store(Replay(EMPTY, prefix).data, Replay(EMPTY, prefix[..m]).opIndex)
  }

  /** The first tail number of a client above those that r knows of is also above those that s knows of. */
  ghost predicate FreshTail(s: Store, r: Store, tail: seq<Op>) {
    forall j :: 0 <= j < |tail| && FirstAbove(tail, j, LastNumber(r, tail[j].client)) ==>
      tail[j].number > LastNumber(s, tail[j].client)
  }

  predicate FirstAbove(tail: seq<Op>, j: nat, known: int)
    requires j < |tail|
  {
    tail[j].number > known && forall i :: 0 <= i < j && tail[i].client == tail[j].client ==> tail[i].number <= known
  }

  /** Both replays of the tail make the same choice at every position. */
  ghost predicate SameChoices(s: Store, r: Store, tail: seq<Op>) {
    forall j :: 0 <= j < |tail| ==> (TakesEffect(s, tail, j) <==> TakesEffect(r, tail, j))
  }

  lemma {:induction false} SameChoicesSameData(s: Store, r: Store, tail: seq<Op>)
    requires s.data == r.data && SameChoices(s, r, tail)
    ensures Replay(s, tail).data == Replay(r, tail).data
    decreases |tail|
  {
    if tail != [] {
      var front, m := tail[..|tail| - 1], |tail| - 1;
      forall j | 0 <= j < m ensures TakesEffect(s, front, j) <==> TakesEffect(r, front, j) {
        assert front[..j] == tail[..j] && front[j] == tail[j];
        assert TakesEffect(s, tail, j) <==> TakesEffect(r, tail, j);
      }
      SameChoicesSameData(s, r, front);
      assert TakesEffect(s, tail, m) <==> TakesEffect(r, tail, m);
    }
  }

  /** The first position of its client above `known`, at or before j. */
  lemma {:induction false} FirstAboveExists(tail: seq<Op>, j: nat, known: int) returns (first: nat)
    requires j < |tail| && tail[j].number > known
    ensures first <= j && tail[first].client == tail[j].client && FirstAbove(tail, first, known)
    decreases j
  {
    first := j;
    if i: nat :| i < j && tail[i].client == tail[j].client && tail[i].number > known {
      first := FirstAboveExists(tail, i, known);
    }
  }

  /** Two stores of which one knows less make the same choices exactly when the tail is fresh for both. */
  lemma SameChoicesIff(s: Store, r: Store, tail: seq<Op>)
    requires forall c :: LastNumber(r, c) <= LastNumber(s, c)
    ensures SameChoices(s, r, tail) <==> FreshTail(s, r, tail)
  {
    forall j | 0 <= j < |tail|
      ensures TakesEffect(s, tail, j) ==> TakesEffect(r, tail, j)
      ensures FreshTail(s, r, tail) && TakesEffect(r, tail, j) ==> TakesEffect(s, tail, j)
      ensures FirstAbove(tail, j, LastNumber(r, tail[j].client)) && (TakesEffect(s, tail, j) <==> TakesEffect(r, tail, j)) ==>
                tail[j].number > LastNumber(s, tail[j].client)
    {
      EffectIffAbove(s, tail, j);
      EffectIffAbove(r, tail, j);
      if tail[j].number > LastNumber(r, tail[j].client) {
        var first := FirstAboveExists(tail, j, LastNumber(r, tail[j].client));
      }
    }
  }

  /** A server that has applied less of the log knows no larger numbers. */
  lemma EarlierKnowsLess(prefix: seq<Op>, m: nat)
    requires m <= |prefix|
    ensures forall c :: LastNumber(Restored(prefix, m), c) <= LastNumber(Replay(EMPTY, prefix), c)
  {
    assert prefix == prefix[..m] + prefix[m..];
    ReplayConcat(EMPTY, prefix[..m], prefix[m..]);
    forall c ensures LastNumber(Restored(prefix, m), c) <= LastNumber(Replay(EMPTY, prefix), c) {
      OpIndexIsMaximum(Replay(EMPTY, prefix[..m]), prefix[m..], c);
    }
  }

  /**
    * Reading a snapshot and replaying the tail repeats the choices of the full replay exactly when each client's
    * first number in the tail that the server does not know is new.
    */
  lemma SnapshotReplayIff(prefix: seq<Op>, m: nat, tail: seq<Op>)
    requires m <= |prefix|
    ensures var full := Replay(EMPTY, prefix); var restored := Restored(prefix, m);
            SameChoices(full, restored, tail) <==> FreshTail(full, restored, tail)
  {
    EarlierKnowsLess(prefix, m);
    SameChoicesIff(Replay(EMPTY, prefix), Restored(prefix, m), tail);
  }

  /** Under that condition the data after the snapshot is the data of the whole log, at every cut. */
  lemma SnapshotThenTail(prefix: seq<Op>, m: nat, tail: seq<Op>)
    requires m <= |prefix| && FreshTail(Replay(EMPTY, prefix), Restored(prefix, m), tail)
    ensures Replay(Restored(prefix, m), tail).data == Replay(EMPTY, prefix + tail).data
  {
    SnapshotReplayIff(prefix, m, tail);
    SameChoicesSameData(Replay(EMPTY, prefix), Restored(prefix, m), tail);
    ReplayConcat(EMPTY, prefix, tail);
  }

  // Without it some log with the same calls gives other data

  predicate SameCalls(a: seq<Op>, b: seq<Op>) {
    |a| == |b| && forall j :: 0 <= j < |a| ==> SameCall(a[j], b[j])
  }

  /** Duplicate suppression looks at clients and numbers only. */
  lemma {:induction false} SameCallsSameIndex(s: Store, r: Store, a: seq<Op>, b: seq<Op>)
    requires s.opIndex == r.opIndex && SameCalls(a, b)
    ensures Replay(s, a).opIndex == Replay(r, b).opIndex
    decreases |a|
  {
    if a != [] {
      SameCallsSameIndex(s, r, a[..|a| - 1], b[..|b| - 1]);
    }
  }

  lemma SameCallsSameEffect(s: Store, r: Store, a: seq<Op>, b: seq<Op>, j: nat)
    requires s.opIndex == r.opIndex && SameCalls(a, b) && j < |a|
    ensures TakesEffect(s, a, j) <==> TakesEffect(r, b, j)
  {
    SameCallsSameIndex(s, r, a[..j], b[..j]);
  }

  /** The same calls as Gets, but for an Append at position j. */
  function Probe(ops: seq<Op>, j: int): seq<Op> {
    seq(|ops|, i requires 0 <= i < |ops| => Op(if i == j then Append else Get, "k", "x", ops[i].client, ops[i].number))
  }

  lemma {:induction false} ProbeData(s: Store, ops: seq<Op>, j: int, m: nat)
    requires m <= |ops|
    ensures Replay(s, Probe(ops, j)[..m]).data ==
            if 0 <= j < m && TakesEffect(s, Probe(ops, j), j) then Effect(s.data, Probe(ops, j)[j]) else s.data
    decreases m
  {
    var probe := Probe(ops, j);
    if m > 0 {
      ProbeData(s, ops, j, m - 1);
      assert probe[..m][..m - 1] == probe[..m - 1];
      assert m - 1 != j ==> probe[m - 1].kind == Get;
    }
  }

  lemma FreshSameCalls(s: Store, r: Store, s': Store, r': Store, a: seq<Op>, b: seq<Op>)
    requires s.opIndex == s'.opIndex && r.opIndex == r'.opIndex && SameCalls(a, b)
    ensures FreshTail(s, r, a) <==> FreshTail(s', r', b)
  {
    forall j | 0 <= j < |a|
      ensures FirstAbove(a, j, LastNumber(r, a[j].client)) <==> FirstAbove(b, j, LastNumber(r', b[j].client))
    {
      assert forall i :: 0 <= i <= j ==> SameCall(a[i], b[i]);
    }
  }

  ghost predicate SameData(prefix: seq<Op>, m: nat, tail: seq<Op>)
    requires m <= |prefix|
  {
    Replay(Restored(prefix, m), tail).data == Replay(EMPTY, prefix + tail).data
  }

  lemma ProbeDiffers(s: Store, r: Store, tail: seq<Op>, j: nat)
    requires j < |tail| && s.data == r.data == map[]
    requires !(TakesEffect(s, Probe(tail, j), j) <==> TakesEffect(r, Probe(tail, j), j))
    ensures Replay(s, Probe(tail, j)).data != Replay(r, Probe(tail, j)).data
  {
    hide Replay, TakesEffect;
    var probe := Probe(tail, j);
    ProbeData(s, tail, j, |tail|);
    ProbeData(r, tail, j, |tail|);
    assert probe[..|tail|] == probe;
    assert "k" in Effect(map[], probe[j]);
  }

  lemma StaleTailShows(prefix: seq<Op>, m: nat, tail: seq<Op>) returns (prefix': seq<Op>, tail': seq<Op>)
    requires m <= |prefix| && !FreshTail(Replay(EMPTY, prefix), Restored(prefix, m), tail)
    ensures SameCalls(prefix, prefix') && SameCalls(tail, tail') && !SameData(prefix', m, tail')
  {
    hide FreshTail, Replay, TakesEffect;
    var full, restored := Replay(EMPTY, prefix), Restored(prefix, m);
    SnapshotReplayIff(prefix, m, tail);
    var j :| 0 <= j < |tail| && !(TakesEffect(full, tail, j) <==> TakesEffect(restored, tail, j));
    prefix', tail' := Probe(prefix, -1), Probe(tail, j);
    var full', restored' := Replay(EMPTY, prefix'), Restored(prefix', m);
    SameCallsSameIndex(EMPTY, EMPTY, prefix, prefix');
    SameCallsSameIndex(EMPTY, EMPTY, prefix[..m], prefix'[..m]);
    ProbeData(EMPTY, prefix, -1, |prefix|);
    assert prefix'[..|prefix|] == prefix';
    SameCallsSameEffect(full, full', tail, tail', j);
    SameCallsSameEffect(restored, restored', tail, tail', j);
    ProbeDiffers(full', restored', tail, j);
    ReplayConcat(EMPTY, prefix', tail');
  }

  /**
    * So for data: every log with these clients and numbers gives the data of the full replay, after reading a
    * snapshot of the prefix, exactly when the tail is fresh.
    */
  lemma SnapshotDataIff(prefix: seq<Op>, m: nat, tail: seq<Op>)
    requires m <= |prefix|
    ensures (forall prefix', tail' :: SameCalls(prefix, prefix') && SameCalls(tail, tail') ==> SameData(prefix', m, tail'))
            <==> FreshTail(Replay(EMPTY, prefix), Restored(prefix, m), tail)
  {
    hide FreshTail;
    if FreshTail(Replay(EMPTY, prefix), Restored(prefix, m), tail) {
      forall prefix', tail' | SameCalls(prefix, prefix') && SameCalls(tail, tail') ensures SameData(prefix', m, tail') {
        SameCallsSameIndex(EMPTY, EMPTY, prefix, prefix');
        SameCallsSameIndex(EMPTY, EMPTY, prefix[..m], prefix'[..m]);
        FreshSameCalls(Replay(EMPTY, prefix), Restored(prefix, m), Replay(EMPTY, prefix'), Restored(prefix', m), tail, tail');
        SnapshotThenTail(prefix', m, tail');
      }
    } else {
      var prefix', tail' := StaleTailShows(prefix, m, tail);
    }
  }

  /** A retried append that straddles the cut is applied twice. */
  lemma RetryAcrossCutAppliesTwice()
    ensures var op := Op(Append, "k", "x", 7, 1);
            && Replay(EMPTY, [op] + [op]).data == map["k" := "x"]
            && Replay(Restored([op], 0), [op]).data == map["k" := "xx"]
  {
    var op := Op(Append, "k", "x", 7, 1);
    assert "" + "x" == "x" && "x" + "x" == "xx";
    var once := Store(map["k" := "x"], map[7 := 1]);
    ReplaySnoc(EMPTY, [], op);
    assert [] + [op] == [op];
    assert Replay(EMPTY, [op]) == once;
    ReplaySnoc(EMPTY, [op], op);
    assert [op][..0] == [];
    ReplaySnoc(Restored([op], 0), [], op);
    assert once.data[op.key := "xx"] == map["k" := "xx"];
  }
}
