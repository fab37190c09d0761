/**
  * From every reachable state of clerks and servers each call that is under way can still return OK: an attempt is
  * accepted, committed, applied and answered. A Get of a key that nobody has written waits for somebody to write it.
  */
module KvProgress {
  import opened KvStore
  import opened KvServer
  import opened KvSystem
  import opened KvLinear

  /** Some run that continues `base` ends in state s. */
  ghost predicate Reaches(n: nat, base: seq<System>, s: System) {
    exists run :: |run| > 0 && base <= run && IsRun(n, run) && run[|run| - 1] == s
  }

  lemma Starts(n: nat, base: seq<System>)
    requires IsRun(n, base)
    ensures |base| > 0 && Reaches(n, base, base[|base| - 1])
  {
  }

  lemma ReachedInv(n: nat, base: seq<System>, s: System)
    requires Reaches(n, base, s)
    ensures Inv(s)
  {
    hide Inv, IsRun;
    var run :| |run| > 0 && base <= run && IsRun(n, run) && run[|run| - 1] == s;
    RunInv(n, run, |run| - 1);
  }

  lemma Goes(n: nat, base: seq<System>, s: System, step: Step)
    requires Reaches(n, base, s) && Enabled(s, step)
    ensures Reaches(n, base, Do(s, step)) && Inv(Do(s, step))
  {
    hide Inv, Enabled, Do, Initial;
    var run :| |run| > 0 && base <= run && IsRun(n, run) && run[|run| - 1] == s;
    var longer := run + [Do(s, step)];
    assert Next(s, Do(s, step));
    forall k | 0 <= k < |longer| - 1 ensures Next(longer[k], longer[k + 1]) {
      if k < |run| - 1 {
        assert longer[k] == run[k] && longer[k + 1] == run[k + 1];
      }
    }
    assert IsRun(n, longer) && longer[|longer| - 1] == Do(s, step);
    ReachedInv(n, base, Do(s, step));
  }

  /** The call is under way. */
  predicate UnderWay(s: System, c: Call) {
    c in s.invoked && c !in s.returned
  }

  // One attempt --------------------------------------------------------------------------------------

  /** Server i waits at the index of an attempt at c, which the log has there; it has applied less than that. */
  ghost predicate Waits(s: System, i: nat, c: Call, id: nat, index: nat) {
    && i < |s.servers| && UnderWay(s, c) && s.invoked[c].op.client == c.client && s.invoked[c].op.number == c.number
    && var v := s.servers[i]; var op := s.invoked[c].op;
    && 1 <= index == |s.log| && s.log[index - 1] == op && v.applied < index
    && id in v.handlers && v.handlers[id] == Handler(op, index)
    && index in v.kv.pending && LastWaiter(v.kv.pending[index], Pending(id, op))
  }

  predicate LastWaiter(waiters: seq<Pending>, p: Pending) {
    |waiters| > 0 && waiters[|waiters| - 1] == p
  }

  /** A server accepts an attempt, which then enters the log where the server waits for it. */
  lemma IsAccepted(n: nat, base: seq<System>, s: System, i: nat, c: Call) returns (s': System, id: nat)
    requires Reaches(n, base, s) && UnderWay(s, c) && i < |s.servers|
    ensures Reaches(n, base, s') && Waits(s', i, c, id, |s.log| + 1) && |s'.servers| == |s.servers|
    ensures s'.invoked == s.invoked && s'.log == s.log + [s.invoked[c].op]
  {
    hide Reaches, Inv;
    var op := s.invoked[c].op;
    id := s.servers[i].nextId;
    NamesItself(n, base, s, i, c);
    Goes(n, base, s, Accept(i, op, |s.log| + 1));
    var s1 := Do(s, Accept(i, op, |s.log| + 1));
    Goes(n, base, s1, Commit(op));
    s' := Do(s1, Commit(op));
  }

  lemma NamesItself(n: nat, base: seq<System>, s: System, i: nat, c: Call)
    requires Reaches(n, base, s) && c in s.invoked && i < |s.servers|
    ensures CallOf(s.invoked[c].op) == c && WasInvoked(s, s.invoked[c].op) && s.servers[i].applied <= |s.log|
  {
    hide Reaches, ServersInv, LogInv, RepliesInv, ReturnsInv, OrderInv, TimeInv;
    ReachedInv(n, base, s);
    assert CallInv(s, c);
    ServerBehind(s, i);
  }

  lemma ServerBehind(s: System, i: nat)
    requires Inv(s) && i < |s.servers|
    ensures ServerInv(s, s.servers[i]) && s.servers[i].applied <= |s.log|
  {
    assert ServerInv(s, s.servers[i]);
  }

  /** The server applies up to there, and the last waiter is told yes. */
  lemma {:induction false} IsApplied(n: nat, base: seq<System>, s: System, i: nat, c: Call, id: nat, index: nat)
    returns (s': System)
    requires Reaches(n, base, s) && Waits(s, i, c, id, index)
    ensures Reaches(n, base, s') && UnderWay(s', c) && i < |s'.servers| && s'.invoked == s.invoked && s'.log == s.log
    ensures var v := s'.servers[i];
            && v.applied == |s.log| && id in v.handlers && v.handlers[id].op == s.invoked[c].op
            && id in v.kv.answers && v.kv.answers[id]
    decreases index - s.servers[i].applied
  {
    hide Reaches, Inv, Applied, Notified;
    var v := s.servers[i];
    Goes(n, base, s, ApplyNext(i));
    var s1 := Do(s, ApplyNext(i));
    if v.applied + 1 == index {
      var waiters := v.kv.pending[index];
      NotifiedEach(v.kv.answers, waiters, s.log[v.applied], |waiters| - 1);
      s' := s1;
    } else {
      s' := IsApplied(n, base, s1, i, c, id, index);
    }
  }

  /** It answers OK, and the clerk gets that. */
  lemma IsAnswered(n: nat, base: seq<System>, s: System, i: nat, c: Call, id: nat) returns (s': System)
    requires Reaches(n, base, s) && UnderWay(s, c) && i < |s.servers|
    requires var v := s.servers[i];
             && id in v.handlers && v.handlers[id].op == s.invoked[c].op && id in v.kv.answers && v.kv.answers[id]
    requires s.invoked[c].op.kind == Get ==> s.invoked[c].op.key in s.servers[i].kv.store.data
    ensures Reaches(n, base, s') && c in s'.returned
  {
    hide Reaches, Inv, Ended;
    var v, op := s.servers[i], s.invoked[c].op;
    NamesItself(n, base, s, i, c);
    IsBusy(n, base, s, c);
    Goes(n, base, s, Answer(i, id));
    var s1 := Do(s, Answer(i, id));
    var reply := OkReply(op, if op.kind == Get then v.kv.store.data[op.key] else "", v.applied);
    assert reply in Answers(v, id);
    Goes(n, base, s1, Finish(reply));
    s' := Do(s1, Finish(reply));
  }

  lemma IsBusy(n: nat, base: seq<System>, s: System, c: Call)
    requires Reaches(n, base, s) && UnderWay(s, c)
    ensures c.client in s.busy && c.number == Count(s, c.client)
  {
    hide Reaches, ServersInv, LogInv, RepliesInv, ReturnsInv, OrderInv, TimeInv;
    ReachedInv(n, base, s);
    assert CallInv(s, c);
  }

  // A key to get -------------------------------------------------------------------------------------

  lemma IdleClient(busy: set<int>) returns (client: int)
    ensures client !in busy
  {
    client := HighestClient(busy);
    client := client + 1;
  }

  lemma Member<T>(s: set<T>) returns (x: T)
    requires s != {}
    ensures x in s
  {
    x :| x in s;
  }

  lemma {:induction false} HighestClient(busy: set<int>) returns (client: int)
    ensures forall k :: k in busy ==> k <= client
    decreases |busy|
  {
    if busy == {} {
      client := 0;
    } else {
      var k := Member(busy);
      var rest := HighestClient(busy - {k});
      client := if rest < k then k else rest;
      forall j | j in busy ensures j <= client {
        assert j != k ==> j in busy - {k};
      }
    }
  }

  /** The log has a first Put of the key. */
  ghost predicate HasPut(log: seq<Op>, key: string) {
    exists j: nat :: j < |log| && Writes(log, j, Put, key)
  }

  /** Some other client puts the key. */
  lemma PutsKey(n: nat, base: seq<System>, s: System, key: string, c: Call) returns (s': System)
    requires Reaches(n, base, s) && UnderWay(s, c)
    ensures Reaches(n, base, s') && UnderWay(s', c) && s'.invoked[c] == s.invoked[c] && |s'.servers| == |s.servers|
    ensures HasPut(s'.log, key)
  {
    hide Reaches, Inv;
    var client := IdleClient(s.busy);
    var invoke := Invoke(client, Put, key, "");
    NotInvoked(n, base, s, client);
    Goes(n, base, s, invoke);
    var s1 := Do(s, invoke);
    var op := Op(Put, key, "", client, Count(s, client) + 1);
    Goes(n, base, s1, Commit(op));
    s' := Do(s1, Commit(op));
    assert Writes(s'.log, |s.log|, Put, key);
  }

  lemma NotInvoked(n: nat, base: seq<System>, s: System, client: int)
    requires Reaches(n, base, s)
    ensures var next := Call(client, Count(s, client) + 1);
            next !in s.invoked && forall j :: 0 <= j < |s.log| ==> CallOf(s.log[j]) != next
  {
    hide Reaches, ServersInv, RepliesInv, ReturnsInv, OrderInv, TimeInv;
    ReachedInv(n, base, s);
    var next := Call(client, Count(s, client) + 1);
    assert CallInv(s, next);
    assert forall j :: 0 <= j < |s.log| ==> WasInvoked(s, s.log[j]);
  }

  lemma {:induction false} LastPutExists(log: seq<Op>, m: nat, key: string, j: nat) returns (p: nat)
    requires j < m && Writes(log, j, Put, key)
    ensures LastPut(log, m, key, p)
    decreases m - j
  {
    hide Writes;
    if k: nat :| j < k < m && Writes(log, k, Put, key) {
      p := LastPutExists(log, m, key, k);
    } else {
      p := j;
    }
  }

  /** A server that has applied it has the key. */
  lemma KeyIsThere(n: nat, base: seq<System>, s: System, i: nat, key: string)
    requires Reaches(n, base, s) && i < |s.servers| && s.servers[i].applied == |s.log| && HasPut(s.log, key)
    ensures key in s.servers[i].kv.store.data
  {
    hide Reaches, Inv, Writes, LastPut, Replay;
    ReachedInv(n, base, s);
    LogInOrder(s);
    ServerBehind(s, i);
    var j: nat :| j < |s.log| && Writes(s.log, j, Put, key);
    var p := LastPutExists(s.log, |s.log|, key, j);
    KeyReads(s.log, |s.log|, key);
    assert s.log[..|s.log|] == s.log;
  }

  // Every call ---------------------------------------------------------------------------------------

  lemma HasPutStays(log: seq<Op>, op: Op, key: string)
    requires HasPut(log, key)
    ensures HasPut(log + [op], key)
  {
    var j: nat :| j < |log| && Writes(log, j, Put, key);
    assert Writes(log + [op], j, Put, key);
  }

  /** After every run with a server, each call that is under way can return. */
  lemma CanReturn(n: nat, base: seq<System>, c: Call) returns (s: System)
    requires n >= 1 && IsRun(n, base) && |base| > 0 && UnderWay(base[|base| - 1], c)
    ensures Reaches(n, base, s) && c in s.returned
  {
    hide Reaches, Inv, IsRun, HasPut, Waits;
    Starts(n, base);
    SameServers(n, base, |base| - 1);
    var op := base[|base| - 1].invoked[c].op;
    s := PutsKey(n, base, base[|base| - 1], op.key, c);
    HasPutStays(s.log, op, op.key);
    var id, index := 0, |s.log| + 1;
    s, id := IsAccepted(n, base, s, 0, c);
    s := IsApplied(n, base, s, 0, c, id, index);
    KeyIsThere(n, base, s, 0, op.key);
    s := IsAnswered(n, base, s, 0, c, id);
  }

  lemma {:induction false} SameServers(n: nat, run: seq<System>, b: nat)
    requires IsRun(n, run) && b < |run|
    ensures |run[b].servers| == n
    decreases b
  {
    hide Accepted, AppliedNext, Ended, Answers;
    if b > 0 {
      SameServers(n, run, b - 1);
      assert Next(run[b - 1], run[b - 1 + 1]);
    }
  }
}
