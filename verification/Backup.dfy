/**
  * The accelerated backup of nextIndex on its own: the follower's conflict report, the leader's getNextIndex and
  * the retry loop around them, for a leader log and a follower log that stay put while the loop runs.
  */
module Backup {
  import opened RaftTypes
  import opened RaftHandlers
  import opened RaftCluster
  import opened RaftInvariant
  import opened RaftHistory
  import opened RaftReplication
  import opened RaftSafety

  /** Slot 0 is the placeholder, real terms start at 1 and never decrease. */
  ghost predicate Shaped(log: seq<Entry>) {
    && |log| > 0 && log[0].term == 0 && Sorted(log)
    && forall k :: 1 <= k < |log| ==> log[k].term >= 1
  }

  predicate Agree(leader: seq<Entry>, follower: seq<Entry>, p: nat) {
    p < |leader| && p < |follower| && leader[p].term == follower[p].term
  }

  /** Log Matching for the two logs, as far as terms go: agreement is inherited downwards. */
  ghost predicate Matching(leader: seq<Entry>, follower: seq<Entry>) {
    forall j, k :: 0 <= j <= k && Agree(leader, follower, k) ==> Agree(leader, follower, j)
  }

  ghost predicate Pair(leader: seq<Entry>, follower: seq<Entry>) {
    Shaped(leader) && Shaped(follower) && Matching(leader, follower)
  }

  /** Any leader and any other server of a reachable state are such a pair. */
  lemma ReachablePair(n: nat, run: seq<Cluster>, b: nat, i: nat, j: nat)
    requires IsRun(n, run) && b < |run| && i < n && j < n
    ensures |run[b].nodes| == n && Pair(run[b].nodes[i].log, run[b].nodes[j].log)
  {
    hide IsRun;
    RunInv(n, run, b);
    NodeLogIsProper(n, run, b, i, b);
    NodeLogIsProper(n, run, b, j, b);
    var h, x, y := run[b].hist, run[b].nodes[i].log, run[b].nodes[j].log;
    ProperIsShaped(n, h, x);
    ProperIsShaped(n, h, y);
    forall p, k | 0 <= p <= k && Agree(x, y, k) ensures Agree(x, y, p) {
      ProperLogsMatch(h, x, y, k);
      assert x[p] == x[..k + 1][p] == y[..k + 1][p] == y[p];
    }
  }

  lemma ProperIsShaped(n: nat, h: History, log: seq<Entry>)
    requires HistInv(n, h) && ProperLog(h, log)
    ensures Shaped(log)
  {
    forall k | 1 <= k < |log| ensures log[k].term >= 1 {
      assert FromLeader(h, log, k);
      LeaderTerms(n, h, log[k].term);
    }
  }

  // The two ways to back up --------------------------------------------------------------------------

  /** One index at a time, as in the paper's basic protocol. */
  function SlowBackup(leader: seq<Entry>, follower: seq<Entry>, prev: nat): nat {
    if prev == 0 || Agree(leader, follower, prev) then prev else SlowBackup(leader, follower, prev - 1)
  }

  /** What the follower reports about prevLogIndex. */
  function Rejection(follower: seq<Entry>, prev: nat): AppendEntriesReply {
    var (term, first) := Conflict(follower, prev);
    AppendEntriesReply(0, term, first, false)
  }

  /** The loop at `retry` at the granularity of one exchange: the next prevLogIndex after a rejection. */
  ghost function NextPrev(leader: seq<Entry>, follower: seq<Entry>, prev: nat): int
    requires Pair(leader, follower) && prev < |leader| && !Agree(leader, follower, prev)
  {
    ConflictInBounds(follower, prev);
    NextIndexAfter(leader, Rejection(follower, prev), prev + 1) - 1
  }

  lemma ConflictInBounds(follower: seq<Entry>, prev: nat)
    requires |follower| > 0 && follower[0].term == 0
    ensures Conflict(follower, prev).0 != 0 ==> 1 <= Conflict(follower, prev).1 <= prev
  {
  }

  /** A report carries term 0 exactly when the follower's log is too short. */
  lemma ZeroTermMeansShort(leader: seq<Entry>, follower: seq<Entry>, prev: nat)
    requires Pair(leader, follower) && prev < |leader| && !Agree(leader, follower, prev)
    ensures Rejection(follower, prev).conflictTerm == 0 <==> |follower| <= prev
  {
    assert Agree(leader, follower, 0);
  }

  /** No agreement in (low, high]. */
  ghost predicate Disagree(leader: seq<Entry>, follower: seq<Entry>, low: int, high: nat) {
    forall j :: low < j <= high && 0 <= j ==> !Agree(leader, follower, j)
  }

  /** The leader has the conflicting term at or below the reported index. */
  lemma FoundTerm(leader: seq<Entry>, follower: seq<Entry>, prev: nat, first: nat, found: nat)
    requires Pair(leader, follower) && prev < |leader| && prev < |follower| && !Agree(leader, follower, prev)
    requires first == RunStart(follower, prev) && leader[first].term >= follower[prev].term
    requires found == LastAtOrBelow(leader, follower[prev].term, first) && found > 0
    ensures var end := RunEnd(leader, follower[prev].term, found, prev + 1);
            && end < prev && Disagree(leader, follower, end, prev)
            && (!Agree(leader, follower, end) ==> follower[end].term < follower[prev].term)
  {
    var term := follower[prev].term;
    var end := RunEnd(leader, term, found, prev + 1);
    assert leader[found].term == term && leader[end].term == term;
    forall j | end < j <= prev ensures !Agree(leader, follower, j) {
      // The leader has left the term behind; the follower has it at most.
      assert leader[end + 1].term >= term && leader[end + 1].term != term;
      assert leader[j].term >= leader[end + 1].term && follower[j].term <= term;
    }
    if !Agree(leader, follower, end) {
      assert follower[end].term <= follower[prev].term;
    }
  }

  /** The leader does not have it: fall back below the follower's run of that term. */
  lemma MissingTerm(leader: seq<Entry>, follower: seq<Entry>, prev: nat, first: nat)
    requires Pair(leader, follower) && prev < |leader| && prev < |follower| && !Agree(leader, follower, prev)
    requires first == RunStart(follower, prev) && first > 0 && leader[first].term != follower[prev].term
    ensures Disagree(leader, follower, first - 1, prev) && follower[first - 1].term < follower[prev].term
  {
    assert follower[first - 1].term <= follower[first].term;
    forall j | first - 1 < j <= prev ensures !Agree(leader, follower, j) {
      assert Agree(leader, follower, j) ==> Agree(leader, follower, first);
    }
  }

  /**
    * One rejection: nextIndex strictly decreases and stays at least 1, nothing that agrees is skipped, the follower
    * has an entry there next time, and if that one conflicts too, then with a strictly smaller term.
    */
  lemma RejectionMakesProgress(leader: seq<Entry>, follower: seq<Entry>, prev: nat)
    requires Pair(leader, follower) && prev < |leader| && !Agree(leader, follower, prev)
    ensures var next := NextPrev(leader, follower, prev);
            && 0 <= next < prev && next < |follower|
            && Disagree(leader, follower, next, prev)
            && (prev < |follower| && !Agree(leader, follower, next) ==> follower[next].term < follower[prev].term)
  {
    assert Agree(leader, follower, 0);
    if prev < |follower| {
      var first := RunStart(follower, prev);
      if leader[first].term >= follower[prev].term {
        var found := LastAtOrBelow(leader, follower[prev].term, first);
        if found > 0 {
          FoundTerm(leader, follower, prev, first, found);
        } else {
          MissingTerm(leader, follower, prev, first);
        }
      } else {
        MissingTerm(leader, follower, prev, first);
      }
    }
  }

  // Fast equals slow ---------------------------------------------------------------------------------

  lemma {:induction false} SlowSkipsDisagreement(leader: seq<Entry>, follower: seq<Entry>, low: nat, high: nat)
    requires low <= high && Disagree(leader, follower, low, high)
    ensures SlowBackup(leader, follower, high) == SlowBackup(leader, follower, low)
    decreases high - low
  {
    if low < high {
      SlowSkipsDisagreement(leader, follower, low, high - 1);
    }
  }

  /** The one-by-one search finds the last agreeing index at or below where it starts. */
  lemma {:induction false} SlowFindsLastAgreement(leader: seq<Entry>, follower: seq<Entry>, prev: nat)
    requires Pair(leader, follower)
    ensures var stop := SlowBackup(leader, follower, prev);
            stop <= prev && Agree(leader, follower, stop) && Disagree(leader, follower, stop, prev)
    decreases prev
  {
    assert Agree(leader, follower, 0);
    if prev > 0 && !Agree(leader, follower, prev) {
      SlowFindsLastAgreement(leader, follower, prev - 1);
    }
  }

  /** The number of rejections of the accelerated loop. */
  ghost function Rejections(leader: seq<Entry>, follower: seq<Entry>, prev: nat): nat
    requires Pair(leader, follower) && prev < |leader|
    decreases prev
  {
    if Agree(leader, follower, prev) then 0
    else
      RejectionMakesProgress(leader, follower, prev);
      1 + Rejections(leader, follower, NextPrev(leader, follower, prev))
  }

  /** The distinct terms of the follower's real entries up to index `upto`. */
  function Terms(follower: seq<Entry>, upto: nat): set<nat> {
    set k | 1 <= k < |follower| && k <= upto :: follower[k].term
  }

  lemma {:induction false} RejectionsBoundedByTerms(leader: seq<Entry>, follower: seq<Entry>, prev: nat)
    requires Pair(leader, follower) && prev < |leader| && prev < |follower|
    ensures Rejections(leader, follower, prev) <= |Terms(follower, prev)|
    decreases prev
  {
    if !Agree(leader, follower, prev) {
      RejectionMakesProgress(leader, follower, prev);
      var next := NextPrev(leader, follower, prev);
      if !Agree(leader, follower, next) {
        assert Agree(leader, follower, 0);
        RejectionsBoundedByTerms(leader, follower, next);
        var term := follower[prev].term;
        assert term in Terms(follower, prev) && term !in Terms(follower, next);
        assert Terms(follower, next) <= Terms(follower, prev) - {term};
        SubsetSize(Terms(follower, next), Terms(follower, prev) - {term});
      } else {
        assert Agree(leader, follower, 0);
        assert follower[prev].term in Terms(follower, prev);
        SubsetSize({follower[prev].term}, Terms(follower, prev));
      }
    }
  }

  /** At most one rejection for a short log, then at most one for each term that the follower has. */
  lemma RejectionBound(leader: seq<Entry>, follower: seq<Entry>, prev: nat)
    requires Pair(leader, follower) && prev < |leader|
    ensures Rejections(leader, follower, prev) <= 1 + |Terms(follower, |follower|)|
  {
    if prev < |follower| {
      RejectionsBoundedByTerms(leader, follower, prev);
      SubsetSize(Terms(follower, prev), Terms(follower, |follower|));
    } else {
      RejectionMakesProgress(leader, follower, prev);
      var next := NextPrev(leader, follower, prev);
      RejectionsBoundedByTerms(leader, follower, next);
      SubsetSize(Terms(follower, next), Terms(follower, |follower|));
    }
  }

  lemma RetryInBounds(leader: seq<Entry>, follower: seq<Entry>, nextIndex: nat)
    requires Pair(leader, follower) && 1 <= nextIndex <= |leader| && !Agree(leader, follower, nextIndex - 1)
    ensures BackupInBounds(leader, Rejection(follower, nextIndex - 1), nextIndex)
    ensures NextPrev(leader, follower, nextIndex - 1) ==
            NextIndexAfter(leader, Rejection(follower, nextIndex - 1), nextIndex) - 1
  {
    hide Sorted, Matching, NextIndexAfter, Agree;
    ConflictInBounds(follower, nextIndex - 1);
  }

  lemma RejectionSearches(leader: seq<Entry>, follower: seq<Entry>, prev: nat)
    requires Pair(leader, follower) && prev < |leader| && !Agree(leader, follower, prev)
    ensures var next := NextPrev(leader, follower, prev);
            0 <= next < prev && SlowBackup(leader, follower, prev) == SlowBackup(leader, follower, next)
  {
    hide Pair, NextPrev, Agree, SlowBackup, Disagree;
    RejectionMakesProgress(leader, follower, prev);
    SlowSkipsDisagreement(leader, follower, NextPrev(leader, follower, prev), prev);
  }

  lemma RejectionCounts(leader: seq<Entry>, follower: seq<Entry>, prev: nat)
    requires Pair(leader, follower) && prev < |leader| && !Agree(leader, follower, prev)
    ensures var next := NextPrev(leader, follower, prev);
            0 <= next < prev && Rejections(leader, follower, prev) == 1 + Rejections(leader, follower, next)
  {
    hide Pair, NextPrev, Agree, Disagree;
    RejectionMakesProgress(leader, follower, prev);
  }

  /** One turn of the loop, in terms of nextIndex. */
  lemma OneRetry(leader: seq<Entry>, follower: seq<Entry>, nextIndex: nat)
    requires Pair(leader, follower) && 1 <= nextIndex <= |leader| && !Agree(leader, follower, nextIndex - 1)
    ensures BackupInBounds(leader, Rejection(follower, nextIndex - 1), nextIndex)
    ensures var next := NextIndexAfter(leader, Rejection(follower, nextIndex - 1), nextIndex);
            && 1 <= next < nextIndex
            && SlowBackup(leader, follower, nextIndex - 1) == SlowBackup(leader, follower, next - 1)
            && Rejections(leader, follower, nextIndex - 1) == 1 + Rejections(leader, follower, next - 1)
  {
    hide Pair, NextPrev, Agree, SlowBackup, Rejections, NextIndexAfter, Rejection, BackupInBounds;
    RetryInBounds(leader, follower, nextIndex);
    RejectionSearches(leader, follower, nextIndex - 1);
    RejectionCounts(leader, follower, nextIndex - 1);
  }

  /**
    * The retry loop of one peer's goroutine. It stops where the one-by-one search would, at the last agreeing index,
    * and the rejections it takes are bounded by the terms in the follower's log.
    */
  method Retry(leader: seq<Entry>, follower: seq<Entry>, start: nat) returns (nextIndex: nat, rejections: nat)
    requires Pair(leader, follower) && 1 <= start <= |leader|
    ensures 1 <= nextIndex <= start && nextIndex - 1 == SlowBackup(leader, follower, start - 1)
    ensures Agree(leader, follower, nextIndex - 1)
    ensures forall j :: nextIndex - 1 < j <= start - 1 ==> !Agree(leader, follower, j)
    ensures rejections <= 1 + |Terms(follower, |follower|)|
  {
    hide Pair, SlowBackup, Rejections, NextIndexAfter, BackupInBounds, Rejection;
    nextIndex, rejections := start, 0;
    RejectionBound(leader, follower, start - 1);
    while !(|follower| > nextIndex - 1 && follower[nextIndex - 1].term == leader[nextIndex - 1].term)
      invariant 1 <= nextIndex <= start
      invariant SlowBackup(leader, follower, start - 1) == SlowBackup(leader, follower, nextIndex - 1)
      invariant rejections + Rejections(leader, follower, nextIndex - 1) == Rejections(leader, follower, start - 1)
      decreases nextIndex
    {
      OneRetry(leader, follower, nextIndex);
      var reply := Rejection(follower, nextIndex - 1);
      nextIndex := NextIndexAfter(leader, reply, nextIndex);
      rejections := rejections + 1;
    }
    SlowStops(leader, follower, nextIndex - 1);
    SlowFindsLastAgreement(leader, follower, start - 1);
  }

  lemma SlowStops(leader: seq<Entry>, follower: seq<Entry>, prev: nat)
    requires Agree(leader, follower, prev)
    ensures SlowBackup(leader, follower, prev) == prev
  {
  }
}
