/** The service objects: a KVServer that applies committed operations, and the Clerk that retries until OK. */
module KvServer {
  import opened KvStore

  /** A PendingOps entry; `id` names its isApplied channel. */
  datatype Pending = Pending(id: nat, op: Op)

  /** A server's maps, and what has been sent on the channels of its pending operations. */
  datatype KV = KV(store: Store, pending: map<nat, seq<Pending>>, answers: map<nat, bool>)

  const BLANK := KV(EMPTY, map[], map[])

  function PendingAt(kv: KV, index: nat): seq<Pending> {
    if index in kv.pending then kv.pending[index] else []
  }

  /** Each waiter at the index learns whether the operation applied there is its own. */
  function Notified(answers: map<nat, bool>, waiters: seq<Pending>, op: Op): map<nat, bool> {
    if waiters == [] then answers
    else
      var last := waiters[|waiters| - 1];
      Notified(answers, waiters[..|waiters| - 1], op)[last.id := SameCall(last.op, op)]
  }

  function AfterApply(kv: KV, index: nat, op: Op): KV {
    KV(Applied(kv.store, op), kv.pending, Notified(kv.answers, PendingAt(kv, index), op))
  }

  function AfterRegister(kv: KV, index: nat, p: Pending): KV {
    kv.(pending := kv.pending[index := PendingAt(kv, index) + [p]])
  }

  function AfterFinish(kv: KV, index: nat): KV {
    kv.(pending := kv.pending - {index})
  }

  /** Notification answers the waiters of this index and nobody else, with whether the call is theirs. */
  lemma {:induction false} NotifiedMeans(answers: map<nat, bool>, waiters: seq<Pending>, op: Op, id: nat)
    ensures var after := Notified(answers, waiters, op);
            && (id in after && after[id] ==>
                  || (id in answers && answers[id])
                  || exists x :: 0 <= x < |waiters| && waiters[x].id == id && SameCall(waiters[x].op, op))
            && (id in after ==> id in answers || exists x :: 0 <= x < |waiters| && waiters[x].id == id)
            && ((forall x :: 0 <= x < |waiters| ==> waiters[x].id != id) ==>
                  (id in after <==> id in answers) && (id in answers ==> after[id] == answers[id]))
    decreases |waiters|
  {
    if waiters != [] {
      var front := waiters[..|waiters| - 1];
      NotifiedMeans(answers, front, op, id);
      assert forall x :: 0 <= x < |front| ==> waiters[x] == front[x];
      assert waiters[|waiters| - 1] in waiters;
      if exists x :: 0 <= x < |front| && front[x].id == id && SameCall(front[x].op, op) {
        var x :| 0 <= x < |front| && front[x].id == id && SameCall(front[x].op, op);
        assert waiters[x].id == id && SameCall(waiters[x].op, op);
      }
      if exists x :: 0 <= x < |front| && front[x].id == id {
        var x :| 0 <= x < |front| && front[x].id == id;
        assert waiters[x].id == id;
      }
    }
  }

  /** Each waiter at the index is told yes exactly when the operation applied there has its client and number. */
  lemma {:induction false} NotifiedEach(answers: map<nat, bool>, waiters: seq<Pending>, op: Op, x: nat)
    requires x < |waiters| && forall y :: x < y < |waiters| ==> waiters[y].id != waiters[x].id
    ensures var after, p := Notified(answers, waiters, op), waiters[x];
            p.id in after && (after[p.id] <==> p.op.client == op.client && p.op.number == op.number)
    decreases |waiters|
  {
    if x < |waiters| - 1 {
      NotifiedEach(answers, waiters[..|waiters| - 1], op, x);
    }
  }

  class KVServer {
    var data: map<string, string>
    var opIndex: map<int, int>
    var pendingOps: map<nat, seq<Pending>>
    var answers: map<nat, bool>

    ghost function View(): KV
      reads this
    {
      KV(Store(data, opIndex), pendingOps, answers)
    }

    constructor ()
      ensures View() == BLANK
    {
      data, opIndex, pendingOps, answers := map[], map[], map[], map[];
    }

    method ApplyToData(op: Op)
      modifies this`data, this`opIndex
      ensures Store(data, opIndex) == Applied(old(View()).store, op)
      ensures NewOrSame(old(data), old(opIndex), data, opIndex, op)
    {
      var last := if op.client in opIndex then opIndex[op.client] else 0;
      if last < op.number {
        match op.kind {
          case Put => data := data[op.key := op.value];
          case Append =>
            var val := if op.key in data then data[op.key] else "";
            data := data[op.key := val + op.value];
          case Get =>
        }
        opIndex := opIndex[op.client := op.number];
      }
    }

    /** Apply one committed operation, unless it is a duplicate, then answer everyone waiting at its index. */
    method Apply(index: nat, op: Op)
      modifies this
      ensures View() == AfterApply(old(View()), index, op)
      ensures NewOrSame(old(data), old(opIndex), data, opIndex, op)
      ensures pendingOps == old(pendingOps)
    {
      ApplyToData(op);
      if index in pendingOps {
        var waiters := pendingOps[index];
        for i := 0 to |waiters|
          invariant Store(data, opIndex) == Applied(old(View()).store, op) && pendingOps == old(pendingOps)
          invariant NewOrSame(old(data), old(opIndex), data, opIndex, op)
          invariant answers == Notified(old(answers), waiters[..i], op)
        {
          var p := waiters[i];
          answers := answers[p.id := p.op.client == op.client && p.op.number == op.number];
          assert waiters[..i + 1][..i] == waiters[..i];
        }
        assert waiters[..|waiters|] == waiters;
      }
    }

    /** execOp, after Start has returned an index: wait there. */
    method Register(index: nat, p: Pending)
      modifies this`pendingOps
      ensures View() == AfterRegister(old(View()), index, p)
      ensures index in pendingOps
      ensures pendingOps[index] == (if index in old(pendingOps) then old(pendingOps)[index] else []) + [p]
      ensures forall i :: i != index ==>
                (i in pendingOps <==> i in old(pendingOps)) && (i in pendingOps ==> pendingOps[i] == old(pendingOps)[i])
    {
      var waiters := if index in pendingOps then pendingOps[index] else [];
      pendingOps := pendingOps[index := waiters + [p]];
    }

    /** execOp, once answered or timed out: forget everyone at the index. */
    method Finish(index: nat)
      modifies this`pendingOps
      ensures View() == AfterFinish(old(View()), index)
      ensures index !in pendingOps
      ensures forall i :: i != index ==>
                (i in pendingOps <==> i in old(pendingOps)) && (i in pendingOps ==> pendingOps[i] == old(pendingOps)[i])
    {
      pendingOps := pendingOps - {index};
    }

    /** Get, once execOp has returned: the value is read now. */
    method ReplyToGet(success: bool, isLeader: bool, key: string) returns (reply: Reply)
      ensures reply.wrongLeader == !isLeader
      ensures !success ==> reply.err == if isLeader then TimeoutOrOther else NotLeader
      ensures success ==> reply.err == if key in data then OK else NoKey
      ensures reply.value == if success && key in data then data[key] else ""
    {
      reply := Reply(!isLeader, OK, "");
      if !success {
        if reply.wrongLeader {
          reply := reply.(err := NotLeader);
        } else {
          reply := reply.(err := TimeoutOrOther);
        }
      } else if key in data {
        reply := reply.(value := data[key]);
      } else {
        reply := reply.(err := NoKey);
      }
    }

    /** PutAppend, once execOp has returned. */
    method ReplyToPutAppend(success: bool, isLeader: bool) returns (reply: Reply)
      ensures reply.wrongLeader == !isLeader
      ensures reply.err == if success then OK else if isLeader then TimeoutOrOther else NotLeader
    {
      reply := Reply(!isLeader, OK, "");
      if !success {
        if reply.wrongLeader {
          reply := reply.(err := NotLeader);
        } else {
          reply := reply.(err := TimeoutOrOther);
        }
      }
    }
  }

  // The clerk ----------------------------------------------------------------------------------------

  datatype Err = OK | NoKey | NotLeader | TimeoutOrOther | CallFailed

  datatype Reply = Reply(wrongLeader: bool, err: Err, value: string)

  /** The reply is from a server that does not lead, or the call failed. */
  predicate SendsOn(r: Reply) {
    r.wrongLeader || (r.err != OK && r.err != TimeoutOrOther)
  }

  /** Which of the first m replies sent the clerk on. */
  function Sending(replies: seq<Reply>, m: nat): set<nat>
    requires m <= |replies|
  {
    set k: nat | k < m && SendsOn(replies[k])
  }

  lemma SendingNext(replies: seq<Reply>, m: nat)
    requires m < |replies|
    ensures |Sending(replies, m + 1)| == |Sending(replies, m)| + if SendsOn(replies[m]) then 1 else 0
  {
    hide SendsOn;
    assert Sending(replies, m + 1) == Sending(replies, m) + if SendsOn(replies[m]) then {m} else {};
  }

  /** One step on around the ring. */
  lemma RingNext(first: nat, servers: nat, moves: nat)
    requires servers > 0
    ensures ((first + moves) % servers + 1) % servers == (first + moves + 1) % servers
  {
    var sum := first + moves;
    var q, r := sum / servers, sum % servers;
    assert sum == servers * q + r;
    if r + 1 == servers {
      assert sum + 1 == servers * (q + 1);
      Multiple(servers, q + 1, 0);
    } else {
      Multiple(servers, q, r + 1);
    }
  }

  lemma Multiple(d: nat, q: nat, r: nat)
    requires r < d
    ensures (d * q + r) % d == r
  {
    var x := d * q + r;
    AtLeastOnce(d, q - x / d);
    assert d * (q - x / d) == x % d - r;
  }

  lemma AtLeastOnce(d: int, k: int)
    requires d > 0
    ensures k >= 1 ==> d * k >= d
    ensures k <= -1 ==> d * k <= -d
  {
  }

  class Clerk {
    const servers: nat
    const clientID: int
    var leaderID: nat
    var opCount: int

    constructor (servers: nat, clientID: int)
      requires servers > 0
      ensures this.servers == servers && this.clientID == clientID && leaderID == 0 && opCount == 0
    {
      this.servers, this.clientID := servers, clientID;
      leaderID, opCount := 0, 0;
    }

    /**
      * One call, given the replies its RPCs will get; `tried` has the server of each attempt. The operation is numbered
      * once; every attempt carries the same operation; the call ends at the first OK, so there is one attempt more than
      * replies when none of them is OK. The clerk goes on by one server for each reply of a server that does not lead
      * and for each failed call, and stays where it is after a timeout.
      */
    method Call(kind: Kind, key: string, value: string, replies: seq<Reply>)
      returns (op: Op, tried: seq<nat>, done: bool, result: string)
      requires servers > 0 && leaderID < servers
      modifies this
      ensures opCount == old(opCount) + 1 && op == Op(kind, key, value, clientID, opCount)
      ensures 1 <= |tried| <= |replies| + 1 && (!done ==> |tried| == |replies| + 1)
      ensures done ==> |tried| <= |replies| && replies[|tried| - 1].err == OK && result == replies[|tried| - 1].value
      ensures forall k :: 0 <= k < |tried| - 1 ==> replies[k].err != OK
      ensures forall k :: 0 <= k < |tried| ==> tried[k] == (old(leaderID) + |Sending(replies, k)|) % servers
      ensures leaderID == tried[|tried| - 1]
    {
      hide Sending;
      opCount := opCount + 1;
      op := Op(kind, key, value, clientID, opCount);
      tried, done, result := [leaderID], false, "";
      NoneSent(replies);
      while |tried| <= |replies|
        invariant 1 <= |tried| <= |replies| + 1 && !done && leaderID < servers && opCount == old(opCount) + 1
        invariant forall k :: 0 <= k < |tried| - 1 ==> replies[k].err != OK
        invariant forall k :: 0 <= k < |tried| ==> tried[k] == (old(leaderID) + |Sending(replies, k)|) % servers
        invariant leaderID == tried[|tried| - 1]
        decreases |replies| - |tried|
      {
        var reply := replies[|tried| - 1];
        if reply.err == OK {
          done, result := true, reply.value;
          return;
        }
        SendingNext(replies, |tried| - 1);
        RingNext(old(leaderID), servers, |Sending(replies, |tried| - 1)|);
        if reply.wrongLeader {
          leaderID := (leaderID + 1) % servers;
        } else if reply.err == TimeoutOrOther {
        } else {
          leaderID := (leaderID + 1) % servers;
        }
        tried := tried + [leaderID];
      }
    }
  }

  /** Where the clerk stays: at a server that leads, after OK or a timeout. */
  lemma SendingMeans(replies: seq<Reply>, m: nat, x: nat)
    requires m <= |replies| && x < m
    ensures replies[x].wrongLeader ==> x in Sending(replies, m)
    ensures replies[x].err == NoKey || replies[x].err == NotLeader || replies[x].err == CallFailed ==> x in Sending(replies, m)
    ensures !replies[x].wrongLeader && (replies[x].err == TimeoutOrOther || replies[x].err == OK) ==> x !in Sending(replies, m)
    ensures forall k :: k in Sending(replies, m) ==> k < m
  {
  }

  lemma NoneSent(replies: seq<Reply>)
    ensures Sending(replies, 0) == {}
  {
  }

  lemma {:induction false} AllSent(replies: seq<Reply>, m: nat)
    requires m <= |replies| && forall k :: 0 <= k < m ==> replies[k].wrongLeader
    ensures |Sending(replies, m)| == m
    decreases m
  {
    if m > 0 {
      AllSent(replies, m - 1);
      SendingNext(replies, m - 1);
    }
  }

  /** As many servers in a row that do not lead as there are servers: the clerk has tried each, and is where it began. */
  lemma TriesEveryServer(first: nat, servers: nat, replies: seq<Reply>, tried: seq<nat>, s: nat)
    requires first < servers == |replies| && |tried| == servers + 1 && forall k :: 0 <= k < servers ==> replies[k].wrongLeader
    requires forall k :: 0 <= k <= servers ==> tried[k] == (first + |Sending(replies, k)|) % servers
    requires s < servers
    ensures s in tried[..servers] && tried[servers] == first
  {
    hide Sending;
    AllSent(replies, servers);
    Multiple(servers, 1, first);
    var k := if s >= first then s - first else s + servers - first;
    AllSent(replies, k);
    Multiple(servers, if s >= first then 0 else 1, s);
    assert tried[..servers][k] == s;
  }
}
