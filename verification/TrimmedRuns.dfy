/**
  * Trimmed peers in runs of the cluster. A peer that compacts its log, whenever it likes, and that restarts from what
  * its persister holds, stands for a full peer of the run at every moment, as long as it handles no current append
  * request below its cut. So its apply loop gets what it relies on, and delivers what every server delivers.
  */
module TrimmedRuns {
  import opened RaftTypes
  import opened RaftHandlers
  import opened RaftCluster
  import opened RaftInvariant
  import opened RaftReplication
  import opened RaftSafety
  import opened TrimmedLog

  /** In a run every append request at or above the cut is handled as on the full log. */
  lemma RequestInRunRefines(n: nat, run: seq<Cluster>, b: nat, i: nat, t: Trimmed, args: AppendEntriesArgs)
    requires IsRun(n, run) && b < |run| && i < n && AppendRequested(args, i) in run[b].net
    requires |run[b].nodes| == n && Represents(t, run[b].nodes[i]) && t.base <= args.prevLogIndex
    ensures AcceptsTrimmed(t, args) == Accepts(run[b].nodes[i], args)
    ensures Represents(AfterAppendEntriesTrimmed(t, args), AfterAppendEntries(run[b].nodes[i], args))
  {
    hide IsRun, Represents, AcceptsTrimmed, Accepts, AfterAppendEntriesTrimmed, AfterAppendEntries;
    InFlightCommitBound(n, run, b, args, i);
    AppendEntriesRefines(t, run[b].nodes[i], args);
  }

  // One step of a trimmed peer -----------------------------------------------------------------------

  predicate WouldCommit(t: Trimmed, n: nat, bc: Broadcast) {
    !bc.agreed && t.role == Leader && bc.replicas + 1 >= Majority(n) && t.commitIndex < bc.index
  }

  /** Where the leader's side looks into its log: the entry that a counted broadcast may commit. */
  predicate TrimmedInBounds(t: Trimmed, c: Cluster, s: Step)
    requires WellFormed(c) && Enabled(c, s)
  {
    && |t.log| > 0
    && (s.HandleAppendRequest? ==> s.args.term < t.currentTerm || t.base <= s.args.prevLogIndex)
    && (s.HandleAppendReply? && t.currentTerm == s.args.term && s.reply.success ==>
          var bc := c.nodes[s.i].broadcasts[s.b];
          WouldCommit(t, c.n, bc) ==> t.base <= bc.index < t.base + |t.log|)
  }

  /** The log, commit and persistent state after a step; the goroutines' counters are those of the run. */
  function TrimmedAfter(t: Trimmed, c: Cluster, s: Step): Trimmed
    requires WellFormed(c) && Enabled(c, s) && TrimmedInBounds(t, c, s)
  {
    match s
    case Timeout(i) => Saved(t.(role := Candidate, currentTerm := t.currentTerm + 1, voteFor := i))
    case HandleVoteRequest(_, args) => AfterRequestVoteTrimmed(t, args)
    case HandleVoteReply(i, _, args, reply) =>
      if t.currentTerm != args.term then t
      else if !reply.voteGranted then CaughtUpTrimmed(t, reply.term)
      else if t.role == Candidate && c.nodes[i].ballot.votes + 1 >= Majority(c.n) then t.(role := Leader, leaderId := i)
      else t
    case HandleAppendRequest(_, args) => AfterAppendEntriesTrimmed(t, args)
    case HandleAppendReply(i, b, _, args, reply) =>
      if t.currentTerm != args.term then t
      else if reply.success then
        var bc := c.nodes[i].broadcasts[b];
        if WouldCommit(t, c.n, bc) && t.log[bc.index - t.base].term == t.currentTerm then t.(commitIndex := bc.index) else t
      else if args.term < reply.term then CaughtUpTrimmed(t, reply.term)
      else t
    case ClientCommand(_, command) => AfterStartTrimmed(t, command)
    case Apply(i) => AppliedTrimmed(t, c.nodes[i])
    case Restart(_) => BootedTrimmed(t.disk, t.snapshot)
    case _ => t
  }

  /** The next entry, once the full peer has caught up with what the snapshot held. */
  function AppliedTrimmed(t: Trimmed, nd: Node): Trimmed {
    if nd.lastApplied < nd.commitIndex && nd.lastApplied == t.lastApplied then t.(lastApplied := t.lastApplied + 1) else t
  }

  /** The peer takes no snapshot, or one of some prefix of what it has applied. */
  ghost predicate MayCompact(u: Trimmed, t': Trimmed) {
    t' == u ||
    (|u.log| > 0 && exists index: nat, term: nat, data ::
       index <= u.lastApplied && index <= u.LastIndex() && t' == AfterTakeSnapshot(u, index, term, data))
  }

  /** The peer may take a snapshot of what it has applied after any step of the cluster, its own or not. */
  ghost predicate ShadowStep(c: Cluster, s: Step, i: nat, t: Trimmed, t': Trimmed)
    requires WellFormed(c) && Enabled(c, s)
  {
    && (s.i == i ==> TrimmedInBounds(t, c, s))
    && MayCompact(if s.i == i then TrimmedAfter(t, c, s) else t, t')
  }

  /** ts has the states of a trimmed peer i along the run. */
  ghost predicate Shadows(run: seq<Cluster>, steps: seq<Step>, i: nat, ts: seq<Trimmed>) {
    && StepsOf(run, steps) && |ts| == |run| && ts[0] == BootedTrimmed(BLANK_DISK, NoSnapshot)
    && forall k :: 0 <= k < |steps| ==> ShadowStep(run[k], steps[k], i, ts[k], ts[k + 1])
  }

  // It stands for the full peer ----------------------------------------------------------------------

  /** A restart from a snapshot starts applying at the cut, so both indices are at least `floor`. */
  function Raised(nd: Node, floor: nat): Node {
    nd.(commitIndex := Max(nd.commitIndex, floor), lastApplied := Max(nd.lastApplied, floor))
  }

  ghost predicate Stands(t: Trimmed, nd: Node, floor: nat) {
    Represents(t, Raised(nd, floor)) && Durable(t) && t.base <= t.lastApplied
  }

  lemma StandsInBounds(t: Trimmed, floor: nat, c: Cluster, s: Step)
    requires WellFormed(c) && Enabled(c, s) && InBounds(c, s) && Stands(t, c.nodes[s.i], floor)
    requires t.lastApplied <= t.commitIndex
    requires s.HandleAppendRequest? ==> s.args.term < t.currentTerm || t.base <= s.args.prevLogIndex
    ensures TrimmedInBounds(t, c, s)
  {
    hide BackupInBounds;
  }

  lemma StandsVoteRequest(t: Trimmed, nd: Node, floor: nat, args: RequestVoteArgs)
    requires Stands(t, nd, floor) && |nd.log| > 0
    ensures Stands(AfterRequestVoteTrimmed(t, args), AfterRequestVote(nd, args), floor)
  {
    hide TailOf;
    TailIsNonempty(t, Raised(nd, floor));
    RequestVoteRefines(t, Raised(nd, floor), args);
    DurableVote(t, args);
  }

  lemma TailIsNonempty(t: Trimmed, nd: Node)
    requires Represents(t, nd)
    ensures |t.log| > 0
  {
  }

  lemma DurableVote(t: Trimmed, args: RequestVoteArgs)
    requires |t.log| > 0 && Durable(t)
    ensures var t' := AfterRequestVoteTrimmed(t, args); Durable(t') && t'.base == t.base && t'.lastApplied == t.lastApplied
  {
  }

  /** Capping by the message commutes with raising, since the message reaches its commit index. */
  lemma StandsAppendRequest(t: Trimmed, nd: Node, floor: nat, args: AppendEntriesArgs)
    requires Stands(t, nd, floor) && args.leaderCommit <= args.LastIndex() && |nd.log| > 0
    requires args.term < t.currentTerm || t.base <= args.prevLogIndex
    ensures |t.log| > 0 && Stands(AfterAppendEntriesTrimmed(t, args), AfterAppendEntries(nd, args), floor)
  {
    hide TailOf, MergedTrimmed, MergedLog;
    TailIsNonempty(t, Raised(nd, floor));
    if args.term < t.currentTerm {
      assert !Accepts(nd, args) && !AcceptsTrimmed(t, args);
    } else {
      AppendEntriesRefines(t, Raised(nd, floor), args);
      RaisedAppend(nd, floor, args);
      DurableAppend(t, args);
    }
  }

  lemma RaisedAppend(nd: Node, floor: nat, args: AppendEntriesArgs)
    requires args.leaderCommit <= args.LastIndex()
    ensures AfterAppendEntries(Raised(nd, floor), args) == Raised(AfterAppendEntries(nd, args), floor)
  {
    hide HasAll, MergedLog;
  }

  lemma DurableAppend(t: Trimmed, args: AppendEntriesArgs)
    requires |t.log| > 0 && Durable(t)
    ensures var t' := AfterAppendEntriesTrimmed(t, args);
            Durable(t') && t'.base == t.base && t'.lastApplied == t.lastApplied
  {
    hide MergedTrimmed;
  }

  lemma StandsCommand(t: Trimmed, nd: Node, floor: nat, me: nat, n: nat, command: Command)
    requires Stands(t, nd, floor)
    ensures Stands(AfterStartTrimmed(t, command), AfterStart(nd, me, n, command), floor)
  {
    hide TailOf, Others;
    StartRefines(t, Raised(nd, floor), me, n, command);
  }

  lemma StandsElection(t: Trimmed, nd: Node, floor: nat, me: nat, n: nat)
    requires Stands(t, nd, floor)
    ensures Stands(Saved(t.(role := Candidate, currentTerm := t.currentTerm + 1, voteFor := me)),
                   AfterStartElection(nd, me, n), floor)
  {
    hide TailOf, Others;
  }

  lemma StandsVoteReply(t: Trimmed, floor: nat, c: Cluster, s: Step)
    requires WellFormed(c) && Enabled(c, s) && s.HandleVoteReply? && Stands(t, c.nodes[s.i], floor)
    requires TrimmedInBounds(t, c, s)
    ensures Stands(TrimmedAfter(t, c, s), AfterVoteReply(c.nodes[s.i], s.i, c.n, s.from, s.voteArgs, s.voteReply), floor)
  {
    hide TailOf;
  }

  lemma StandsSteppedDown(t: Trimmed, nd: Node, floor: nat, term: nat)
    requires Stands(t, nd, floor) && t.currentTerm < term
    ensures Stands(CaughtUpTrimmed(t, term), SteppedDown(nd, term), floor)
  {
    hide TailOf;
  }

  lemma SameTerm(t: Trimmed, nd: Node, floor: nat)
    requires Stands(t, nd, floor)
    ensures t.currentTerm == nd.currentTerm
  {
  }

  lemma StandsAppendReply(t: Trimmed, floor: nat, c: Cluster, s: Step)
    requires WellFormed(c) && Enabled(c, s) && InBounds(c, s) && s.HandleAppendReply? && Stands(t, c.nodes[s.i], floor)
    requires TrimmedInBounds(t, c, s)
    ensures Stands(TrimmedAfter(t, c, s), AfterAppendReply(c.nodes[s.i], c.n, s.b, s.peer, s.args, s.reply), floor)
  {
    hide Stands, NextIndexAfter, BackupInBounds, AfterAccepted, WouldCommit, SteppedDown, CaughtUpTrimmed;
    var nd, nd' := c.nodes[s.i], AfterAppendReply(c.nodes[s.i], c.n, s.b, s.peer, s.args, s.reply);
    SameTerm(t, nd, floor);
    if t.currentTerm == s.args.term && s.reply.success {
      StandsAccepted(t, nd, floor, c.n, s.b, s.peer);
    } else if t.currentTerm == s.args.term < s.reply.term {
      var returned := nd.(broadcasts := nd.broadcasts[s.b := Returned(nd.broadcasts[s.b], s.peer, false)]);
      OtherFieldsStand(t, nd, returned, floor);
      StandsSteppedDown(t, returned, floor, s.reply.term);
    } else {
      OtherFieldsStand(t, nd, nd', floor);
    }
  }

  /** At or below the floor there is nothing to commit, and above it the cut is not in the way. */
  lemma StandsAccepted(t: Trimmed, nd: Node, floor: nat, n: nat, b: nat, peer: nat)
    requires Stands(t, nd, floor) && b < |nd.broadcasts| && nd.broadcasts[b].index < |nd.log|
    requires peer < |nd.nextIndex| == |nd.matchIndex|
    requires WouldCommit(t, n, nd.broadcasts[b]) ==>
               t.base <= nd.broadcasts[b].index < t.base + |t.log|
    ensures var bc := nd.broadcasts[b];
            Stands(if WouldCommit(t, n, bc) && t.log[bc.index - t.base].term == t.currentTerm
                   then t.(commitIndex := bc.index) else t,
                   AfterAccepted(nd, n, b, peer), floor)
  {
    var bc := nd.broadcasts[b];
    if WouldCommit(t, n, bc) {
      TailTerms(t.log, t.base, nd.log, bc.index - t.base);
    }
  }

  lemma StandsApply(t: Trimmed, nd: Node, floor: nat)
    requires Stands(t, nd, floor) && nd.commitIndex < |nd.log| && t.lastApplied <= t.commitIndex
    ensures Stands(AppliedTrimmed(t, nd), AfterApply(nd), floor)
  {
    hide TailOf;
  }

  /** After a restart the cut is the floor. */
  lemma StandsRestart(t: Trimmed, nd: Node, floor: nat, n: nat)
    requires Stands(t, nd, floor) && nd.disk == Persistent(nd.currentTerm, nd.voteFor, nd.log)
    ensures Stands(BootedTrimmed(t.disk, t.snapshot), Booted(nd.disk, n), t.base)
  {
    hide TailOf;
    RestartRestoresView(t, Raised(nd, floor), n);
  }

  lemma StandsSnapshot(t: Trimmed, nd: Node, floor: nat, index: nat, term: nat, data: string)
    requires Stands(t, nd, floor) && |t.log| > 0 && index <= t.lastApplied && index <= t.LastIndex()
    ensures Stands(AfterTakeSnapshot(t, index, term, data), nd, floor)
  {
    hide TailOf;
    TakeSnapshotKeepsView(t, Raised(nd, floor), index, term, data);
    DurableSnapshot(t, index, term, data);
  }

  lemma DurableSnapshot(t: Trimmed, index: nat, term: nat, data: string)
    requires |t.log| > 0 && index <= t.LastIndex() && Durable(t)
    ensures var t' := AfterTakeSnapshot(t, index, term, data);
            Durable(t') && t'.lastApplied == t.lastApplied && t'.base == Max(t.base, index)
  {
  }

  lemma OtherFieldsStand(t: Trimmed, nd: Node, nd': Node, floor: nat)
    requires Stands(t, nd, floor)
    requires nd' == nd.(nextIndex := nd'.nextIndex, matchIndex := nd'.matchIndex, ballot := nd'.ballot, broadcasts := nd'.broadcasts)
    ensures Stands(t, nd', floor)
  {
    hide TailOf;
  }

  /** The floor after a step: the cut, if the peer restarted. */
  function FloorAfter(t: Trimmed, s: Step, floor: nat): nat {
    if s.Restart? then t.base else floor
  }

  lemma OwnStepStands(t: Trimmed, floor: nat, c: Cluster, s: Step)
    requires WellFormed(c) && Inv(c) && Enabled(c, s) && InBounds(c, s) && Stands(t, c.nodes[s.i], floor)
    requires TrimmedInBounds(t, c, s) && t.lastApplied <= t.commitIndex
    ensures Stands(TrimmedAfter(t, c, s), After(c, s), FloorAfter(t, s, floor))
  {
    hide Inv, Stands, AfterRequestVote, AfterVoteReply, AfterAppendEntries, AfterAppendReply, AfterStart, AfterStartElection,
         AfterApply, AfterRequestVoteTrimmed, AfterAppendEntriesTrimmed, AppliedTrimmed, AppendReplyInBounds;
    var nd := c.nodes[s.i];
    PeerFacts(c, s);
    match s
    case Timeout(i) => StandsElection(t, nd, floor, i, c.n);
    case HandleVoteRequest(_, args) => StandsVoteRequest(t, nd, floor, args);
    case HandleVoteReply(_, _, _, _) => StandsVoteReply(t, floor, c, s);
    case HandleAppendRequest(_, args) => StandsAppendRequest(t, nd, floor, args);
    case HandleAppendReply(_, _, _, _, _) => StandsAppendReply(t, floor, c, s);
    case SendAppend(_, _, _) => OtherFieldsStand(t, nd, After(c, s), floor);
    case ClientCommand(i, command) => StandsCommand(t, nd, floor, i, c.n, command);
    case Heartbeat(_) => OtherFieldsStand(t, nd, After(c, s), floor);
    case Apply(_) => StandsApply(t, nd, floor);
    case Restart(_) => StandsRestart(t, nd, floor, c.n);
  }

  lemma PeerFacts(c: Cluster, s: Step)
    requires Inv(c) && Enabled(c, s)
    ensures var nd := c.nodes[s.i];
            && |nd.log| > 0 && nd.commitIndex < |nd.log| && nd.disk == Persistent(nd.currentTerm, nd.voteFor, nd.log)
            && (s.HandleAppendRequest? ==> s.args.leaderCommit <= s.args.LastIndex())
  {
    hide HistInv, ProperLog, CommitStored, ArgsInv;
    assert NodeInv(c.n, c.hist, s.i, c.nodes[s.i]);
    NodeIsDurable(c.n, c.hist, s.i, c.nodes[s.i]);
    CommitInRange(c.n, c.hist, s.i, c.nodes[s.i]);
    if s.HandleAppendRequest? {
      MessageArgs(c, s.args, s.i);
      ArgsBounded(c.n, c.hist, s.args);
    }
  }

  lemma ArgsBounded(n: nat, h: History, args: AppendEntriesArgs)
    requires ArgsInv(n, h, args)
    ensures args.leaderCommit <= args.LastIndex()
  {
  }

  // Along a run --------------------------------------------------------------------------------------

  /** What the peer knew to be committed when it last restarted is committed in an earlier state of the run. */
  ghost predicate FloorKnown(run: seq<Cluster>, i: nat, b: nat, floor: nat) {
    exists a :: 0 <= a <= b < |run| && i < |run[a].nodes| && floor <= run[a].nodes[i].commitIndex
  }

  ghost predicate ShadowInv(n: nat, run: seq<Cluster>, i: nat, b: nat, t: Trimmed, floor: nat) {
    && b < |run| && |run[b].nodes| == n && i < n
    && Stands(t, run[b].nodes[i], floor) && FloorKnown(run, i, b, floor)
    && run[b].nodes[i].lastApplied <= run[b].nodes[i].commitIndex
  }

  lemma FirstStands(n: nat, run: seq<Cluster>, i: nat)
    requires IsRun(n, run) && i < n
    ensures ShadowInv(n, run, i, 0, BootedTrimmed(BLANK_DISK, NoSnapshot), 0)
  {
  }

  lemma FloorAfterKnown(n: nat, run: seq<Cluster>, i: nat, b: nat, t: Trimmed, floor: nat)
    requires ShadowInv(n, run, i, b, t, floor) && b + 1 < |run|
    ensures FloorKnown(run, i, b + 1, floor) && FloorKnown(run, i, b + 1, t.base)
  {
    var a :| 0 <= a <= b < |run| && i < |run[a].nodes| && floor <= run[a].nodes[i].commitIndex;
    assert t.base <= Max(run[b].nodes[i].lastApplied, floor);
    if t.base <= floor {
      assert t.base <= run[a].nodes[i].commitIndex;
    } else {
      assert t.base <= run[b].nodes[i].commitIndex;
    }
  }

  lemma AppliedInOrder(n: nat, run: seq<Cluster>, b: nat, i: nat)
    requires IsRun(n, run) && b < |run| && i < n
    ensures |run[b].nodes| == n && run[b].nodes[i].lastApplied <= run[b].nodes[i].commitIndex
    ensures Inv(run[b]) && WellFormed(run[b])
  {
    hide IsRun, HistInv;
    RunInv(n, run, b);
    assert NodeInv(n, run[b].hist, i, run[b].nodes[i]);
    AppliedAreDelivered(n, run[b].hist, i, run[b].nodes[i]);
  }

  lemma CompactedStands(u: Trimmed, t': Trimmed, nd: Node, floor: nat)
    requires Stands(u, nd, floor) && MayCompact(u, t')
    ensures Stands(t', nd, floor) && u.base <= t'.base
  {
    hide Stands, AfterTakeSnapshot;
    if t' != u {
      var index: nat, term: nat, data :| index <= u.lastApplied && index <= u.LastIndex() &&
                                         t' == AfterTakeSnapshot(u, index, term, data);
      StandsSnapshot(u, nd, floor, index, term, data);
      DurableOf(u, nd, floor);
      DurableSnapshot(u, index, term, data);
    }
  }

  /** The peer's own step, or one of another server. */
  lemma StepStands(c: Cluster, s: Step, i: nat, t: Trimmed, floor: nat)
    requires WellFormed(c) && Inv(c) && Enabled(c, s) && InBounds(c, s) && i < c.n && Stands(t, c.nodes[i], floor)
    requires c.nodes[i].lastApplied <= c.nodes[i].commitIndex && (s.i == i ==> TrimmedInBounds(t, c, s))
    ensures Stands(if s.i == i then TrimmedAfter(t, c, s) else t, Do(c, s).nodes[i],
                   if s.i == i then FloorAfter(t, s, floor) else floor)
    ensures s.i == i ==> TrimmedAfter(t, c, s).base == t.base
  {
    hide Inv, Stands, TrimmedInBounds, TrimmedAfter, After, Sent, Recorded, Enabled, InBounds;
    StandsInOrder(t, c.nodes[i], floor);
    if s.i == i {
      OwnStepStands(t, floor, c, s);
      BaseKept(t, c, s, floor);
    }
  }

  lemma ShadowStepStands(n: nat, run: seq<Cluster>, i: nat, b: nat, s: Step, t: Trimmed, t': Trimmed, floor: nat)
    returns (floor': nat)
    requires IsRun(n, run) && b + 1 < |run| && ShadowInv(n, run, i, b, t, floor)
    requires WellFormed(run[b]) && Enabled(run[b], s) && InBounds(run[b], s) && run[b + 1] == Do(run[b], s)
    requires ShadowStep(run[b], s, i, t, t')
    ensures ShadowInv(n, run, i, b + 1, t', floor') && t.base <= t'.base
  {
    hide IsRun, Inv, Stands, Enabled, InBounds, TrimmedInBounds, TrimmedAfter, Do, FloorKnown, MayCompact;
    AppliedInOrder(n, run, b, i);
    AppliedInOrder(n, run, b + 1, i);
    FloorAfterKnown(n, run, i, b, t, floor);
    StepStands(run[b], s, i, t, floor);
    var u := if s.i == i then TrimmedAfter(t, run[b], s) else t;
    floor' := if s.i == i then FloorAfter(t, s, floor) else floor;
    CompactedStands(u, t', run[b + 1].nodes[i], floor');
  }

  lemma DurableOf(t: Trimmed, nd: Node, floor: nat)
    requires Stands(t, nd, floor)
    ensures Durable(t)
  {
  }

  lemma StandsInOrder(t: Trimmed, nd: Node, floor: nat)
    requires Stands(t, nd, floor) && nd.lastApplied <= nd.commitIndex
    ensures t.base <= t.lastApplied <= t.commitIndex
  {
  }

  /** The cut never moves back, not by a restart either. */
  lemma BaseKept(t: Trimmed, c: Cluster, s: Step, floor: nat)
    requires WellFormed(c) && Enabled(c, s) && TrimmedInBounds(t, c, s) && Stands(t, c.nodes[s.i], floor)
    ensures TrimmedAfter(t, c, s).base == t.base
  {
    hide TailOf, MergedTrimmed;
  }

  /**
    * At every moment of the run, restarts included, the trimmed peer has the full peer's term, vote, role and absolute
    * log, and the same commit index and lastApplied above what its snapshot held when it last restarted.
    */
  lemma {:induction false} ShadowStands(n: nat, run: seq<Cluster>, steps: seq<Step>, i: nat, ts: seq<Trimmed>, b: nat)
    returns (floor: nat)
    requires IsRun(n, run) && Shadows(run, steps, i, ts) && b < |run| && i < n
    ensures ShadowInv(n, run, i, b, ts[b], floor)
    decreases b
  {
    hide IsRun, ShadowInv, ShadowStep, Enabled, InBounds, Do;
    if b == 0 {
      FirstStands(n, run, i);
      floor := 0;
    } else {
      var before := ShadowStands(n, run, steps, i, ts, b - 1);
      assert ShadowStep(run[b - 1], steps[b - 1], i, ts[b - 1], ts[b - 1 + 1]) && run[b] == run[b - 1 + 1];
      floor := ShadowStepStands(n, run, i, b - 1, steps[b - 1], ts[b - 1], ts[b], before);
    }
  }

  lemma {:induction false} CutMovesForward(n: nat, run: seq<Cluster>, steps: seq<Step>, i: nat, ts: seq<Trimmed>, a: nat, b: nat)
    requires IsRun(n, run) && Shadows(run, steps, i, ts) && a <= b < |run| && i < n
    ensures ts[a].base <= ts[b].base
    decreases b - a
  {
    hide IsRun, ShadowInv, ShadowStep, Enabled, InBounds, Do;
    if a < b {
      CutMovesForward(n, run, steps, i, ts, a, b - 1);
      var floor := ShadowStands(n, run, steps, i, ts, b - 1);
      assert ShadowStep(run[b - 1], steps[b - 1], i, ts[b - 1], ts[b - 1 + 1]) && run[b] == run[b - 1 + 1];
      var floor' := ShadowStepStands(n, run, i, b - 1, steps[b - 1], ts[b - 1], ts[b], floor);
    }
  }

  /** Part B reads its log within bounds: every step that the guard on append requests allows is in bounds. */
  lemma ShadowInBounds(n: nat, run: seq<Cluster>, steps: seq<Step>, i: nat, ts: seq<Trimmed>, b: nat, s: Step)
    requires IsRun(n, run) && Shadows(run, steps, i, ts) && b < |run| && i < n && s.i == i
    requires WellFormed(run[b]) && Enabled(run[b], s)
    requires s.HandleAppendRequest? ==> s.args.term < ts[b].currentTerm || ts[b].base <= s.args.prevLogIndex
    ensures TrimmedInBounds(ts[b], run[b], s)
  {
    hide IsRun, Stands, Enabled, InBounds, Inv, TrimmedInBounds, ShadowStep;
    var floor := ShadowStands(n, run, steps, i, ts, b);
    NoIndexPanics(n, run, b, s);
    StandsInOrder(ts[b], run[b].nodes[i], floor);
    StandsInBounds(ts[b], floor, run[b], s);
  }

  // The apply loop -----------------------------------------------------------------------------------

  lemma TailShows(t: Trimmed, nd: Node, committed: seq<Entry>)
    requires Represents(t, nd) && committed <= nd.log
    ensures Shows(LogView(t.base, t.log), committed)
  {
    forall slot | 1 <= slot < |t.log| && t.base + slot < |committed| ensures t.log[slot] == committed[t.base + slot] {
      TailTerms(t.log, t.base, nd.log, slot);
    }
  }

  /** An index that the trimmed peer knows to be committed is one that the full peer knew in this state or before. */
  lemma KnownSince(n: nat, run: seq<Cluster>, i: nat, a: nat, t: Trimmed, floor: nat) returns (a0: nat)
    requires ShadowInv(n, run, i, a, t, floor)
    ensures a0 <= a && i < |run[a0].nodes| && t.commitIndex <= run[a0].nodes[i].commitIndex
  {
    if t.commitIndex <= run[a].nodes[i].commitIndex {
      a0 := a;
    } else {
      a0 :| 0 <= a0 <= a < |run| && i < |run[a0].nodes| && floor <= run[a0].nodes[i].commitIndex;
    }
  }

  /** What turn k of a pass finds: it runs in state at(k). */
  function ViewAt(ts: seq<Trimmed>, at: nat -> nat): nat -> LogView {
    (k: nat) => if at(k) < |ts| then LogView(ts[at(k)].base, ts[at(k)].log) else LogView(0, [])
  }

  /** The turns of a pass that started in state a run in that state or later, in order. */
  ghost predicate InOrderFrom(a: nat, at: nat -> nat, states: nat) {
    && (forall k: nat :: a <= at(k) < states)
    && (forall j: nat, k: nat :: j <= k ==> at(j) <= at(k))
  }

  /** The committed part of a log through k is the same in state a0, where k was committed, and in any later state. */
  lemma SamePrefix(n: nat, run: seq<Cluster>, i: nat, a0: nat, a: nat, b: nat, k: nat)
    requires IsRun(n, run) && a0 <= a <= b < |run| && i < n
    requires i < |run[a0].nodes| && k <= run[a0].nodes[i].commitIndex
    ensures |run[a].nodes| == n && |run[b].nodes| == n
    ensures k < |run[a0].nodes[i].log| && k < |run[a].nodes[i].log|
    ensures run[a].nodes[i].log[..k + 1] <= run[b].nodes[i].log
    ensures run[a].nodes[i].log[..k + 1] == run[a0].nodes[i].log[..k + 1]
  {
    hide IsRun, CommitStored;
    CommittedPrefixForever(n, run, a0, a, i);
    CommittedPrefixForever(n, run, a0, b, i);
    var log, c := run[a0].nodes[i].log, run[a0].nodes[i].commitIndex;
    assert log[..k + 1] == log[..c + 1][..k + 1];
    assert run[a].nodes[i].log[..k + 1] == run[a].nodes[i].log[..c + 1][..k + 1];
  }

  /** The log that the full peer has up to the commit index that the trimmed peer captured in state a. */
  function CommittedLog(run: seq<Cluster>, i: nat, a: nat, t: Trimmed): seq<Entry>
    requires a < |run| && i < |run[a].nodes| && t.commitIndex < |run[a].nodes[i].log|
  {
    run[a].nodes[i].log[..t.commitIndex + 1]
  }

  lemma ViewShows(t: Trimmed, nd: Node, floor: nat, committed: seq<Entry>)
    requires Stands(t, nd, floor) && committed <= nd.log
    ensures Shows(LogView(t.base, t.log), committed)
  {
    TailShows(t, Raised(nd, floor), committed);
  }

  /** Every run of the cluster gives the apply loop of a trimmed peer what it relies on. */
  lemma RelyHolds(n: nat, run: seq<Cluster>, steps: seq<Step>, i: nat, ts: seq<Trimmed>, a: nat, at: nat -> nat)
    requires IsRun(n, run) && Shadows(run, steps, i, ts) && a < |run| && i < n && InOrderFrom(a, at, |run|)
    ensures |run[a].nodes| == n && ts[a].commitIndex < |run[a].nodes[i].log|
    ensures Rely(ViewAt(ts, at), CommittedLog(run, i, a, ts[a]))
  {
    hide IsRun, Stands, Shows, ShadowStep, FloorKnown;
    var floor := ShadowStands(n, run, steps, i, ts, a);
    var a0 := KnownSince(n, run, i, a, ts[a], floor);
    var k0 := ts[a].commitIndex;
    SamePrefix(n, run, i, a0, a, a, k0);
    var committed := CommittedLog(run, i, a, ts[a]);
    forall k: nat ensures Shows(ViewAt(ts, at)(k), committed) {
      var b := at(k);
      SamePrefix(n, run, i, a0, a, b, k0);
      var floor' := ShadowStands(n, run, steps, i, ts, b);
      ViewShows(ts[b], run[b].nodes[i], floor', committed);
    }
    forall j: nat, k: nat | j <= k ensures ViewAt(ts, at)(j).base <= ViewAt(ts, at)(k).base {
      CutMovesForward(n, run, steps, i, ts, at(j), at(k));
    }
  }

  lemma DeliveredGrow(h: History, h': History)
    requires Grows(h, h')
    ensures h.delivered <= h'.delivered
  {
  }

  /** What a server knows to be committed at index k is what every server delivers there. */
  lemma CommittedIsDelivered(n: nat, run: seq<Cluster>, a: nat, i: nat, b: nat, j: nat, k: nat)
    requires IsRun(n, run) && a < |run| && b < |run| && i < n && j < n && k >= 1
    ensures |run[a].nodes| == n && |run[b].nodes| == n
    ensures var nd := run[a].nodes[i]; var applied := run[b].nodes[j].applied;
            k <= nd.commitIndex && k <= |applied| ==>
              k < |nd.log| && applied[k - 1] == ApplyMsg(nd.log[k].command, k)
  {
    hide IsRun, HistInv, DeliveryInv, NodeInv, MsgInv, CommitStored, Grows, ProperLog;
    var last := if a <= b then b else a;
    NodeCommit(n, run, a, i, last);
    RunInv(n, run, b);
    RunInv(n, run, last);
    RunGrows(n, run, b, last);
    var nd, other, h := run[a].nodes[i], run[b].nodes[j], run[last].hist;
    CommitInLog(n, h, nd.currentTerm, nd.log, nd.commitIndex);
    if k <= nd.commitIndex && k <= |other.applied| {
      AppliedAreDelivered(n, run[b].hist, j, other);
      DeliveredGrow(run[b].hist, h);
      AllDeliveries(n, h);
      AppliedIsCommitted(n, h, nd, k);
      DeliveriesAgree(n, h, other.applied[k - 1], ApplyMsg(nd.log[k].command, k));
    }
  }

  /** `m` is what server j delivers at that index, if it has by state b. */
  ghost predicate AgreesWith(run: seq<Cluster>, b: nat, j: nat, m: ApplyMsg)
    requires b < |run| && j < |run[b].nodes|
  {
    1 <= m.index <= |run[b].nodes[j].applied| ==> run[b].nodes[j].applied[m.index - 1] == m
  }

  /** A delivery of the committed log agrees with every server's deliveries. */
  lemma PassAgrees(n: nat, run: seq<Cluster>, steps: seq<Step>, i: nat, ts: seq<Trimmed>, a: nat, m: ApplyMsg, b: nat, j: nat)
    requires IsRun(n, run) && Shadows(run, steps, i, ts) && a < |run| && i < n && b < |run| && j < n
    requires |run[a].nodes| == n && ts[a].commitIndex < |run[a].nodes[i].log|
    requires 1 <= m.index <= ts[a].commitIndex && m.command == CommittedLog(run, i, a, ts[a])[m.index].command
    ensures |run[b].nodes| == n && AgreesWith(run, b, j, m)
  {
    hide IsRun, Stands, ShadowStep, FloorKnown;
    var floor := ShadowStands(n, run, steps, i, ts, a);
    var a0 := KnownSince(n, run, i, a, ts[a], floor);
    SamePrefix(n, run, i, a0, a, a, ts[a].commitIndex);
    CommittedIsDelivered(n, run, a0, i, b, j, m.index);
    assert CommittedLog(run, i, a, ts[a])[m.index] == run[a0].nodes[i].log[..ts[a].commitIndex + 1][m.index];
    assert m == ApplyMsg(run[a0].nodes[i].log[m.index].command, m.index);
  }

  /** No server, in no state of the run, has delivered anything else at that index. */
  ghost predicate AgreesEverywhere(n: nat, run: seq<Cluster>, m: ApplyMsg) {
    forall b, j :: 0 <= b < |run| && 0 <= j < n ==> j < |run[b].nodes| && AgreesWith(run, b, j, m)
  }

  /**
    * The apply loop of a trimmed peer in a run of the cluster: whatever it delivers, in whatever states of the run its
    * turns come, is what every server delivers at that index, in any state.
    */
  method ApplyInRun(ghost n: nat, ghost run: seq<Cluster>, ghost steps: seq<Step>, ghost i: nat, ts: seq<Trimmed>,
                    a: nat, at: nat -> nat)
    returns (delivered: seq<ApplyMsg>)
    requires IsRun(n, run) && Shadows(run, steps, i, ts) && a < |ts| && i < n && InOrderFrom(a, at, |run|)
    ensures forall x :: 0 <= x < |delivered| ==> AgreesEverywhere(n, run, delivered[x])
    ensures forall x :: 0 <= x < |delivered| ==> ts[a].lastApplied < delivered[x].index <= ts[a].commitIndex
    ensures forall x, y :: 0 <= x < y < |delivered| ==> delivered[x].index < delivered[y].index
  {
    hide IsRun, ShadowStep, StepsOf, Rely, AgreesWith, ReadFrom, Delivered, CoveredBefore, InOrderFrom;
    RelyHolds(n, run, steps, i, ts, a, at);
    ghost var committed := CommittedLog(run, i, a, ts[a]);
    var turns, taken;
    delivered, turns, taken := ApplyPass(ts[a].lastApplied, ts[a].commitIndex, ViewAt(ts, at), committed);
    forall x | 0 <= x < |delivered| ensures AgreesEverywhere(n, run, delivered[x]) {
      forall b, j | 0 <= b < |run| && 0 <= j < n ensures j < |run[b].nodes| && AgreesWith(run, b, j, delivered[x]) {
        PassAgrees(n, run, steps, i, ts, a, delivered[x], b, j);
      }
    }
  }
}
