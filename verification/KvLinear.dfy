/**
  * Linearizability: the calls of any run have one sequential order that respects real time and explains every
  * reply. A mutation takes effect where it first appears in the log, a Get after the prefix it was answered from.
  */
module KvLinear {
  import opened KvStore
  import opened KvSystem

  // The log of a run is in order ---------------------------------------------------------------------

  /** Each call is in the log before the client's next call is invoked, so first occurrences are in order. */
  lemma LogInOrder(s: System)
    requires Inv(s)
    ensures InOrder(s.log)
  {
    forall j | 0 <= j < |s.log| ensures s.log[j].number >= 1 {
      assert WasInvoked(s, s.log[j]) && CallInv(s, CallOf(s.log[j]));
    }
    forall i, j | 0 <= i < j < |s.log| && s.log[i].client == s.log[j].client && First(s.log, j)
      ensures s.log[i].number < s.log[j].number
    {
      var early, late := CallOf(s.log[j]), CallOf(s.log[i]);
      assert WasInvoked(s, s.log[i]) && WasInvoked(s, s.log[j]);
      assert !SameCall(s.log[i], s.log[j]);
      if early.number < late.number {
        LaterCallLater(s, i, j);
      }
    }
  }

  /** A client's later call has every entry after the first one of its earlier call. */
  lemma LaterCallLater(s: System, i: nat, j: nat)
    requires Inv(s) && i < |s.log| && j < |s.log| && First(s.log, j)
    requires s.log[i].client == s.log[j].client && s.log[j].number < s.log[i].number
    ensures j < i
  {
    var early, late := CallOf(s.log[j]), CallOf(s.log[i]);
    assert WasInvoked(s, s.log[i]) && WasInvoked(s, s.log[j]);
    assert Sequential(s, early, late);
    FirstBefore(s.log, j, s.invoked[early].op, s.returned[early].value, s.returned[early].at);
  }

  lemma FirstBefore(log: seq<Op>, j: nat, op: Op, value: string, at: nat)
    requires j < |log| && First(log, j) && log[j] == op && Backed(log, op, value, at)
    ensures j < at
  {
    var x :| 0 <= x < at && log[x] == op;
    assert SameCall(log[x], log[j]);
  }

  /** Exactly-once, for the logs that runs produce: every server's data is each committed call executed once. */
  lemma EffectsOnce(n: nat, run: seq<System>, b: nat, i: nat)
    requires IsRun(n, run) && b < |run| && i < |run[b].servers|
    ensures var v := run[b].servers[i];
            v.applied <= |run[b].log| && v.kv.store.data == Effects(map[], Firsts(run[b].log[..v.applied]))
  {
    hide InOrder;
    RunInv(n, run, b);
    var s := run[b];
    assert ServerInv(s, s.servers[i]);
    LogInOrder(s);
    PrefixInOrder(s.log, s.servers[i].applied);
    ExactlyOnce(s.log[..s.servers[i].applied]);
  }

  /** A Get is answered from a committed prefix that is longer than the whole log was when it was invoked. */
  lemma GetReadsFreshPrefix(n: nat, run: seq<System>, b: nat, c: Call)
    requires IsRun(n, run) && b < |run| && c in run[b].returned
    ensures c in run[b].invoked
    ensures var s := run[b]; var r := s.returned[c]; var call := s.invoked[c];
            && call.committed < r.at <= |s.log|
            && (call.op.kind == Get ==>
                  var data := Replay(EMPTY, s.log[..r.at]).data; call.op.key in data && data[call.op.key] == r.value)
  {
    RunInv(n, run, b);
    var s := run[b];
    assert Backed(s.log, s.invoked[c].op, s.returned[c].value, s.returned[c].at) && CallInv(s, c);
    var j :| 0 <= j < s.returned[c].at && s.log[j] == s.invoked[c].op;
    assert CallOf(s.log[j]) == c;
  }

  /** The value that a Get of the key returns after m entries. */
  ghost predicate ReturnsWrites(log: seq<Op>, m: nat, key: string, value: string) {
    && (forall p: nat :: LastPut(log, m, key, p) ==> p < |log| && value == log[p].value + Appended(log, p + 1, m, key))
    && (NoPut(log, m, key) ==> SomeAppend(log, m, key) && value == Appended(log, 0, m, key))
  }

  lemma StateGetReturns(s: System, c: Call)
    requires Inv(s) && c in s.returned && c in s.invoked && s.invoked[c].op.kind == Get
    ensures s.returned[c].at <= |s.log|
    ensures ReturnsWrites(s.log, s.returned[c].at, s.invoked[c].op.key, s.returned[c].value)
  {
    hide ServersInv, RepliesInv, ClerkInv, OrderInv, TimeInv, InOrder, NoPut, SomeAppend;
    LogInOrder(s);
    assert Backed(s.log, s.invoked[c].op, s.returned[c].value, s.returned[c].at);
    KeyReads(s.log, s.returned[c].at, s.invoked[c].op.key);
  }

  /**
    * An OK Get returns the value of the last Put of its key in the prefix that it was answered from, followed by the
    * values of the Appends after that Put in log order, each call counting once; without a Put, all the Appends.
    */
  lemma GetReturnsWrites(n: nat, run: seq<System>, b: nat, c: Call)
    requires IsRun(n, run) && b < |run| && c in run[b].returned
    ensures c in run[b].invoked
    ensures var s := run[b];
            s.invoked[c].op.kind == Get ==>
              s.returned[c].at <= |s.log| && ReturnsWrites(s.log, s.returned[c].at, s.invoked[c].op.key, s.returned[c].value)
  {
    hide Inv, IsRun, ReturnsWrites;
    RunInv(n, run, b);
    GetReadsFreshPrefix(n, run, b, c);
    if run[b].invoked[c].op.kind == Get {
      StateGetReturns(run[b], c);
    }
  }

  // The order ----------------------------------------------------------------------------------------

  /** One executed call: its operation, what it returned, and the log length after which it took effect. */
  datatype Item = Item(op: Op, value: string, block: nat)

  function Ops(items: seq<Item>): seq<Op> {
    if items == [] then [] else Ops(items[..|items| - 1]) + [items[|items| - 1].op]
  }

  /** A sequential execution that gives every Get the value it returned. */
  ghost predicate Legal(items: seq<Item>) {
    items == [] ||
    var front, last := items[..|items| - 1], items[|items| - 1];
    Legal(front) && LegalNext(Effects(map[], Ops(front)), last)
  }

  predicate LegalNext(data: map<string, string>, it: Item) {
    it.op.kind == Get ==> it.op.key in data && data[it.op.key] == it.value
  }

  function MutationAt(log: seq<Op>, j: nat): seq<Item>
    requires j < |log|
  {
    if First(log, j) && log[j].kind != Get then [Item(log[j], "", j + 1)] else []
  }

  /** The call is a Get that was answered from the first m entries. */
  predicate GetAt(s: System, c: Call, m: nat) {
    c in s.returned && c in s.invoked && s.invoked[c].op.kind == Get && s.returned[c].at == m
  }

  function GetsAt(s: System, order: seq<Call>, m: nat): seq<Item> {
    if order == [] then []
    else
      var c := order[|order| - 1];
      GetsAt(s, order[..|order| - 1], m) +
      if GetAt(s, c, m) then [Item(s.invoked[c].op, s.returned[c].value, m)] else []
  }

  /** Block by block: the entry, if it is a first occurrence, then the Gets answered right after it. */
  function Linearization(s: System, m: nat): seq<Item>
    requires m <= |s.log|
  {
    if m == 0 then GetsAt(s, s.order, 0)
    else Linearization(s, m - 1) + MutationAt(s.log, m - 1) + GetsAt(s, s.order, m)
  }

  // It is legal --------------------------------------------------------------------------------------

  lemma OpsSnoc(items: seq<Item>, it: Item)
    ensures Ops(items + [it]) == Ops(items) + [it.op]
    ensures Legal(items + [it]) <==> Legal(items) && LegalNext(Effects(map[], Ops(items)), it)
  {
    assert (items + [it])[..|items + [it]| - 1] == items;
  }

  lemma {:induction false} GetsAreLegal(s: System, base: seq<Item>, order: seq<Call>, m: nat)
    requires Inv(s) && m <= |s.log|
    requires Legal(base) && Effects(map[], Ops(base)) == Replay(EMPTY, s.log[..m]).data
    ensures var items := base + GetsAt(s, order, m);
            Legal(items) && Effects(map[], Ops(items)) == Replay(EMPTY, s.log[..m]).data
    decreases |order|
  {
    hide ServersInv, LogInv, RepliesInv, ClerkInv, OrderInv, TimeInv, Legal, Ops, Replay;
    if order == [] {
      assert base + [] == base;
    } else {
      var front, c := order[..|order| - 1], order[|order| - 1];
      GetsAreLegal(s, base, front, m);
      var items := base + GetsAt(s, front, m);
      if GetAt(s, c, m) {
        var it := Item(s.invoked[c].op, s.returned[c].value, m);
        assert Backed(s.log, s.invoked[c].op, s.returned[c].value, m);
        OpsSnoc(items, it);
        EffectsSnoc(map[], Ops(items), it.op);
        assert base + GetsAt(s, order, m) == items + [it];
      } else {
        assert base + GetsAt(s, order, m) == items;
      }
    }
  }

  lemma MutationIsApplied(s: System, base: seq<Item>, j: nat)
    requires InOrder(s.log) && j < |s.log|
    requires Legal(base) && Effects(map[], Ops(base)) == Replay(EMPTY, s.log[..j]).data
    ensures var items := base + MutationAt(s.log, j);
            Legal(items) && Effects(map[], Ops(items)) == Replay(EMPTY, s.log[..j + 1]).data
  {
    hide InOrder, Legal, Ops, Replay, Duplicate, First;
    var op := s.log[j];
    PrefixInOrder(s.log, j + 1);
    LastTakesEffect(s.log[..j + 1]);
    FirstInPrefix(s.log, j + 1, j);
    assert s.log[..j + 1] == s.log[..j] + [op] && s.log[..j + 1][..j] == s.log[..j];
    ReplaySnoc(EMPTY, s.log[..j], op);
    if First(s.log, j) && op.kind != Get {
      OpsSnoc(base, Item(op, "", j + 1));
      EffectsSnoc(map[], Ops(base), op);
    } else {
      assert base + [] == base;
    }
  }

  lemma {:induction false} LinearizationIsLegal(s: System, m: nat)
    requires Inv(s) && m <= |s.log|
    ensures var items := Linearization(s, m);
            Legal(items) && Effects(map[], Ops(items)) == Replay(EMPTY, s.log[..m]).data
    decreases m
  {
    hide Inv, InOrder, Legal, Ops, Replay, GetsAt, MutationAt;
    if m == 0 {
      EmptyIsLegal(s);
      GetsAreLegal(s, [], s.order, 0);
      assert [] + GetsAt(s, s.order, 0) == GetsAt(s, s.order, 0);
    } else {
      LinearizationIsLegal(s, m - 1);
      LogInOrder(s);
      MutationIsApplied(s, Linearization(s, m - 1), m - 1);
      GetsAreLegal(s, Linearization(s, m - 1) + MutationAt(s.log, m - 1), s.order, m);
    }
  }

  lemma EmptyIsLegal(s: System)
    ensures Legal([]) && Effects(map[], Ops([])) == Replay(EMPTY, s.log[..0]).data
  {
    assert s.log[..0] == [];
  }

  // It has every call once, in blocks ----------------------------------------------------------------

  /** An item is a first occurrence in the log, or a returned Get, of its block. */
  ghost predicate Good(s: System, it: Item) {
    if it.op.kind == Get then
      GetAt(s, CallOf(it.op), it.block) && s.invoked[CallOf(it.op)].op == it.op &&
      s.returned[CallOf(it.op)].value == it.value
    else 1 <= it.block <= |s.log| && First(s.log, it.block - 1) && s.log[it.block - 1] == it.op
  }

  lemma {:induction false} GetsAreGood(s: System, order: seq<Call>, m: nat)
    requires ClerkInv(s)
    ensures forall it :: it in GetsAt(s, order, m) ==>
              Good(s, it) && it.block == m && it.op.kind == Get && CallOf(it.op) in order
    decreases |order|
  {
    if order != [] {
      var front, c := order[..|order| - 1], order[|order| - 1];
      GetsAreGood(s, front, m);
      assert CallInv(s, c);
      assert forall d :: d in front ==> d in order;
    }
  }

  lemma {:induction false} LinearizationIsGood(s: System, m: nat)
    requires ClerkInv(s) && m <= |s.log|
    ensures forall it :: it in Linearization(s, m) ==> Good(s, it) && it.block <= m
    decreases m
  {
    hide ClerkInv, Good, GetsAt;
    GetsAreGood(s, s.order, m);
    if m > 0 {
      LinearizationIsGood(s, m - 1);
      MutationIsGood(s, m - 1);
    }
  }

  lemma MutationIsGood(s: System, j: nat)
    requires j < |s.log|
    ensures forall it :: it in MutationAt(s.log, j) ==> Good(s, it) && it.block == j + 1 && it.op.kind != Get
  {
  }

  /** All items of one call have the same operation and block. */
  lemma CallHasOneBlock(s: System, a: Item, b: Item)
    requires LogInv(s) && ClerkInv(s) && Good(s, a) && Good(s, b) && SameCall(a.op, b.op)
    ensures a.op == b.op && a.block == b.block
  {
    assert a.op.kind != Get ==> WasInvoked(s, s.log[a.block - 1]);
    assert b.op.kind != Get ==> WasInvoked(s, s.log[b.block - 1]);
  }

  ghost predicate SortedOnce(items: seq<Item>) {
    forall x, y :: 0 <= x < y < |items| ==> items[x].block <= items[y].block && !SameCall(items[x].op, items[y].op)
  }

  lemma SortedOnceConcat(a: seq<Item>, b: seq<Item>)
    requires SortedOnce(a) && SortedOnce(b)
    requires forall x, y :: x in a && y in b ==> x.block <= y.block && !SameCall(x.op, y.op)
    ensures SortedOnce(a + b)
  {
    forall x, y | 0 <= x < y < |a + b|
      ensures (a + b)[x].block <= (a + b)[y].block && !SameCall((a + b)[x].op, (a + b)[y].op)
    {
      if x < |a| && y >= |a| {
        assert a[x] in a && b[y - |a|] in b;
      }
    }
  }

  lemma {:induction false} GetsSortedOnce(s: System, order: seq<Call>, m: nat)
    requires ClerkInv(s) && forall x, y :: 0 <= x < y < |order| ==> order[x] != order[y]
    ensures SortedOnce(GetsAt(s, order, m))
    decreases |order|
  {
    if order != [] {
      var front, c := order[..|order| - 1], order[|order| - 1];
      GetsSortedOnce(s, front, m);
      GetsAreGood(s, front, m);
      if GetAt(s, c, m) {
        assert c !in front;
        assert CallInv(s, c);
        SortedOnceConcat(GetsAt(s, front, m), [Item(s.invoked[c].op, s.returned[c].value, m)]);
      } else {
        assert GetsAt(s, order, m) == GetsAt(s, front, m);
      }
    }
  }

  lemma BlocksApart(s: System, a: seq<Item>, b: seq<Item>)
    requires LogInv(s) && ClerkInv(s)
    requires forall x, y :: x in a && y in b ==> Good(s, x) && Good(s, y)
    requires forall x, y :: x in a && y in b ==>
               x.block < y.block || (x.block == y.block && x.op.kind != Get && y.op.kind == Get)
    requires SortedOnce(a) && SortedOnce(b)
    ensures SortedOnce(a + b)
  {
    hide LogInv, ClerkInv, Good, SortedOnce;
    forall x, y | x in a && y in b ensures x.block <= y.block && !SameCall(x.op, y.op) {
      if SameCall(x.op, y.op) {
        CallHasOneBlock(s, x, y);
      }
    }
    SortedOnceConcat(a, b);
  }

  lemma {:induction false} LinearizationSortedOnce(s: System, m: nat)
    requires LogInv(s) && ClerkInv(s) && OrderInv(s) && m <= |s.log|
    ensures SortedOnce(Linearization(s, m))
    decreases m
  {
    hide LogInv, ClerkInv, Good, SortedOnce, GetsAt, MutationAt;
    GetsSortedOnce(s, s.order, m);
    GetsAreGood(s, s.order, m);
    if m > 0 {
      LinearizationSortedOnce(s, m - 1);
      LinearizationIsGood(s, m - 1);
      MutationIsGood(s, m - 1);
      SingleSortedOnce(s.log, m - 1);
      BlocksApart(s, Linearization(s, m - 1), MutationAt(s.log, m - 1));
      BlocksApart(s, Linearization(s, m - 1) + MutationAt(s.log, m - 1), GetsAt(s, s.order, m));
    }
  }

  lemma SingleSortedOnce(log: seq<Op>, j: nat)
    requires j < |log|
    ensures SortedOnce(MutationAt(log, j))
  {
  }

  // It contains every returned call ------------------------------------------------------------------

  lemma {:induction false} GetIsThere(s: System, order: seq<Call>, c: Call)
    requires c in order && c in s.returned && c in s.invoked && s.invoked[c].op.kind == Get
    ensures Item(s.invoked[c].op, s.returned[c].value, s.returned[c].at) in GetsAt(s, order, s.returned[c].at)
    decreases |order|
  {
    if c != order[|order| - 1] {
      GetIsThere(s, order[..|order| - 1], c);
    }
  }

  lemma {:induction false} BlockIsThere(s: System, m: nat, block: nat, it: Item)
    requires block <= m <= |s.log|
    requires it in GetsAt(s, s.order, block) || (block > 0 && it in MutationAt(s.log, block - 1))
    ensures it in Linearization(s, m)
    decreases m
  {
    if block < m {
      BlockIsThere(s, m - 1, block, it);
    }
  }

  /** The first occurrence of an operation that is in the log. */
  lemma {:induction false} FirstExists(log: seq<Op>, j: nat) returns (i: nat)
    requires j < |log|
    ensures i <= j && SameCall(log[i], log[j]) && First(log, i)
    decreases j
  {
    i := j;
    if !First(log, j) {
      var k :| 0 <= k < j && SameCall(log[k], log[j]);
      i := FirstExists(log, k);
    }
  }

  lemma ReturnedIsThere(s: System, c: Call) returns (it: Item)
    requires Inv(s) && c in s.returned
    ensures c in s.invoked && it in Linearization(s, |s.log|) && it.op == s.invoked[c].op
    ensures it.op.kind == Get ==> it.value == s.returned[c].value
    ensures it.block <= s.returned[c].at
  {
    hide ServersInv, RepliesInv, TimeInv, Linearization, Replay;
    var op, r := s.invoked[c].op, s.returned[c];
    assert Backed(s.log, op, r.value, r.at);
    if op.kind == Get {
      it := Item(op, r.value, r.at);
      GetIsThere(s, s.order, c);
      BlockIsThere(s, |s.log|, r.at, it);
    } else {
      var j :| 0 <= j < r.at && s.log[j] == op;
      var i := FirstExists(s.log, j);
      assert WasInvoked(s, s.log[i]) && WasInvoked(s, s.log[j]);
      it := Item(op, "", i + 1);
      assert it in MutationAt(s.log, i);
      BlockIsThere(s, |s.log|, i + 1, it);
    }
  }

  // Linearizability ----------------------------------------------------------------------------------

  /** x returned before y was invoked. */
  predicate Precedes(s: System, x: Call, y: Call) {
    x in s.returned && y in s.invoked && s.returned[x].time < s.invoked[y].time
  }

  ghost predicate IsLinearization(s: System, items: seq<Item>) {
    // only invoked calls, each at most once
    && (forall x :: 0 <= x < |items| ==> WasInvoked(s, items[x].op))
    && (forall x, y :: 0 <= x < y < |items| ==> !SameCall(items[x].op, items[y].op))
    // every returned call, a Get with the value that it returned
    && (forall c :: c in s.returned ==> c in s.invoked && Includes(items, s.invoked[c].op, s.returned[c].value))
    // a legal sequential history of the service
    && Legal(items)
    // that respects real time
    && (forall x, y :: 0 <= x < |items| && 0 <= y < |items| && Precedes(s, CallOf(items[x].op), CallOf(items[y].op)) ==> x < y)
  }

  ghost predicate Includes(items: seq<Item>, op: Op, value: string) {
    exists x :: 0 <= x < |items| && items[x].op == op && (op.kind == Get ==> items[x].value == value)
  }

  /** A call takes effect after everything that was committed when it was invoked. */
  lemma AfterInvocation(s: System, it: Item)
    requires Inv(s) && Good(s, it)
    ensures WasInvoked(s, it.op) && s.invoked[CallOf(it.op)].committed < it.block
  {
    hide ServersInv, RepliesInv, Replay;
    var c := CallOf(it.op);
    assert CallInv(s, c);
    if it.op.kind == Get {
      assert Backed(s.log, it.op, it.value, it.block);
      var j :| 0 <= j < it.block && s.log[j] == it.op;
    } else {
      assert WasInvoked(s, s.log[it.block - 1]);
    }
  }

  lemma RealTime(s: System, x: Item, y: Item)
    requires Inv(s) && Good(s, x) && Good(s, y) && Precedes(s, CallOf(x.op), CallOf(y.op))
    ensures x.block < y.block
  {
    hide ServersInv, RepliesInv, LogInv, ClerkInv, OrderInv, Good;
    var a := CallOf(x.op);
    AfterInvocation(s, x);
    AfterInvocation(s, y);
    var it := ReturnedIsThere(s, a);
    LinearizationIsGood(s, |s.log|);
    CallHasOneBlock(s, x, it);
    assert s.returned[a].at <= s.invoked[CallOf(y.op)].committed;
  }

  lemma LinearizationIncludes(s: System, c: Call)
    requires Inv(s) && c in s.returned
    ensures c in s.invoked && Includes(Linearization(s, |s.log|), s.invoked[c].op, s.returned[c].value)
  {
    hide Inv, Linearization;
    var it := ReturnedIsThere(s, c);
    var items := Linearization(s, |s.log|);
    var x :| 0 <= x < |items| && items[x] == it;
  }

  /** The history of calls of a state of the invariant is linearizable. */
  lemma StateLinearizable(s: System)
    requires Inv(s)
    ensures IsLinearization(s, Linearization(s, |s.log|))
  {
    hide ServersInv, RepliesInv, ReturnsInv, TimeInv, LogInv, ClerkInv, OrderInv, Linearization, Good, Legal, Includes;
    var items := Linearization(s, |s.log|);
    LinearizationIsGood(s, |s.log|);
    LinearizationSortedOnce(s, |s.log|);
    LinearizationIsLegal(s, |s.log|);
    forall x | 0 <= x < |items| ensures WasInvoked(s, items[x].op) {
      AfterInvocation(s, items[x]);
    }
    forall c | c in s.returned ensures c in s.invoked && Includes(items, s.invoked[c].op, s.returned[c].value) {
      LinearizationIncludes(s, c);
    }
    forall x, y | 0 <= x < |items| && 0 <= y < |items| && Precedes(s, CallOf(items[x].op), CallOf(items[y].op))
      ensures x < y
    {
      RealTime(s, items[x], items[y]);
      SmallerBlockFirst(items, x, y);
    }
  }

  /** In every reachable state of the service, the history of calls so far is linearizable. */
  lemma Linearizable(n: nat, run: seq<System>, b: nat)
    requires IsRun(n, run) && b < |run|
    ensures IsLinearization(run[b], Linearization(run[b], |run[b].log|))
  {
    hide IsRun, Inv, IsLinearization, Linearization;
    RunInv(n, run, b);
    StateLinearizable(run[b]);
  }

  lemma SmallerBlockFirst(items: seq<Item>, x: nat, y: nat)
    requires SortedOnce(items) && x < |items| && y < |items| && items[x].block < items[y].block
    ensures x < y
  {
  }
}
