/**
  * The log compacted at LastIncludedIndex (`base`), with a placeholder at slot 0, and its refinement of the
  * untrimmed handlers: a trimmed peer behaves as the full peer whose log it is the tail of.
  */
module TrimmedLog {
  import opened RaftTypes
  import opened RaftHandlers

  /** What the persister stores beside the state: the cut, its term, and the service's data. */
  datatype Snapshot = NoSnapshot | Snapshot(index: nat, term: nat, data: string)

  datatype InstallSnapshotArgs = InstallSnapshotArgs(
    term: nat, leaderId: nat, lastIncludedIndex: nat, lastIncludedTerm: nat, data: Snapshot)

  datatype Trimmed = Trimmed(
    currentTerm: nat, voteFor: int, log: seq<Entry>, base: nat, baseTerm: int,
    disk: Persistent, snapshot: Snapshot,
    role: Role, leaderId: int, commitIndex: nat, lastApplied: nat)
  {
    /** getLastLogIndex */
    function LastIndex(): nat
      requires |log| > 0
    {
      |log| - 1 + base
    }
  }

  function Saved(t: Trimmed): Trimmed {
    t.(disk := Persistent(t.currentTerm, t.voteFor, t.log))
  }

  function CaughtUpTrimmed(t: Trimmed, term: nat): Trimmed {
    if t.currentTerm < term then Saved(t.(currentTerm := term, voteFor := -1, role := Follower)) else t
  }

  // The handlers -------------------------------------------------------------------------------------

  predicate GrantsTrimmed(t: Trimmed, args: RequestVoteArgs)
    requires |t.log| > 0
  {
    && t.currentTerm <= args.term
    && var t1 := CaughtUpTrimmed(t, args.term);
    && (t1.voteFor == -1 || t1.voteFor == args.candidateId)
    && var lastTerm := t1.log[t1.LastIndex() - t1.base].term;
    && (lastTerm < args.lastLogTerm || (lastTerm == args.lastLogTerm && t1.LastIndex() <= args.lastLogIndex))
  }

  function AfterRequestVoteTrimmed(t: Trimmed, args: RequestVoteArgs): Trimmed
    requires |t.log| > 0
  {
    var t1 := CaughtUpTrimmed(t, args.term);
    if GrantsTrimmed(t, args) then Saved(t1.(voteFor := args.candidateId, role := Follower)) else t1
  }

  predicate AcceptsTrimmed(t: Trimmed, args: AppendEntriesArgs)
    requires |t.log| > 0
  {
    && t.currentTerm <= args.term && t.base <= args.prevLogIndex <= t.LastIndex()
    && t.log[args.prevLogIndex - t.base].term == args.prevLogTerm
  }

  function MergedTrimmed(log: seq<Entry>, next: nat, entries: seq<Entry>): seq<Entry>
    requires next <= |log|
  {
    if HasAllAt(log, next, entries) then log else log[..next] + entries
  }

  /** Part B takes the minimum with its own last index, Part 2C with the last index of the message. */
  function AdvancedCommitTrimmed(commitIndex: nat, leaderCommit: nat, lastIndex: nat): nat {
    if leaderCommit > commitIndex then
      if leaderCommit > lastIndex then lastIndex else leaderCommit
    else commitIndex
  }

  function AfterAppendEntriesTrimmed(t: Trimmed, args: AppendEntriesArgs): Trimmed
    requires |t.log| > 0
  {
    var t1 := CaughtUpTrimmed(t, args.term);
    if AcceptsTrimmed(t, args) then
      var log := MergedTrimmed(t1.log, args.prevLogIndex + 1 - t.base, args.entries);
      Saved(t1.(role := Follower, log := log, leaderId := args.leaderId,
                commitIndex := AdvancedCommitTrimmed(t1.commitIndex, args.leaderCommit, |log| - 1 + t.base)))
    else t1
  }

  /** The two early returns, below the cut and past the end, leave the reply's term at its zero value. */
  function AppendEntriesAnswerTrimmed(t: Trimmed, args: AppendEntriesArgs): AppendEntriesReply
    requires |t.log| > 0
  {
    if args.term < t.currentTerm then AppendEntriesReply(t.currentTerm, 0, 0, false)
    else if t.base > args.prevLogIndex then AppendEntriesReply(0, 0, t.base + 1, false)
    else if t.LastIndex() < args.prevLogIndex then AppendEntriesReply(0, 0, t.LastIndex() + 1, false)
    else if AcceptsTrimmed(t, args) then AppendEntriesReply(args.term, 0, 0, true)
    else
      var slot := args.prevLogIndex - t.base;
      AppendEntriesReply(args.term, t.log[slot].term, RunStart(t.log, slot) + t.base, false)
  }

  function AfterStartTrimmed(t: Trimmed, command: Command): Trimmed {
    if t.role != Leader then t else Saved(t.(log := t.log + [Entry(command, t.currentTerm)]))
  }

  function AfterTakeSnapshot(t: Trimmed, index: nat, term: nat, data: string): Trimmed
    requires |t.log| > 0 && index <= t.LastIndex()
  {
    if index <= t.base then t
    else
      Saved(t.(log := t.log[index - t.base..], base := index, baseTerm := term, snapshot := Snapshot(index, term, data)))
  }

  predicate Installs(t: Trimmed, args: InstallSnapshotArgs) {
    t.currentTerm <= args.term && args.lastIncludedIndex > t.base
  }

  function InstalledLog(log: seq<Entry>, base: nat, args: InstallSnapshotArgs): seq<Entry>
    requires |log| > 0 && args.lastIncludedIndex > base
  {
    if args.lastIncludedIndex <= |log| - 1 + base then log[args.lastIncludedIndex - base..]
    else [Entry(NoCommand, args.lastIncludedTerm)]
  }

  function AfterInstallSnapshot(t: Trimmed, args: InstallSnapshotArgs): Trimmed
    requires |t.log| > 0
  {
    if !Installs(t, args) then t
    else
      Saved(t.(currentTerm := args.term, role := Follower, voteFor := args.leaderId,
               log := InstalledLog(t.log, t.base, args), base := args.lastIncludedIndex, baseTerm := args.lastIncludedTerm,
               lastApplied := Max(args.lastIncludedIndex, t.lastApplied),
               commitIndex := Max(args.lastIncludedIndex, t.commitIndex), snapshot := args.data))
  }

  /** Make and readSnapshot at start-up: the state from one cell, the cut and what is applied from the other. */
  function BootedTrimmed(disk: Persistent, snapshot: Snapshot): Trimmed {
    match snapshot
    case NoSnapshot => Trimmed(disk.currentTerm, disk.voteFor, disk.log, 0, -1, disk, snapshot, Follower, -1, 0, 0)
    case Snapshot(index, term, _) =>
      Trimmed(disk.currentTerm, disk.voteFor, disk.log, index, term, disk, snapshot, Follower, -1, index, index)
  }

  // The absolute view --------------------------------------------------------------------------------

  /** The trimmed log is `full` from the cut on; slot 0 only has to have the right term. */
  predicate TailOf(log: seq<Entry>, base: nat, full: seq<Entry>) {
    && base < |full| && |log| == |full| - base
    && log[0].term == full[base].term
    && log[1..] == full[base + 1..]
  }

  /** A trimmed peer stands for a full one. */
  predicate Represents(t: Trimmed, nd: Node) {
    && TailOf(t.log, t.base, nd.log)
    && t.currentTerm == nd.currentTerm && t.voteFor == nd.voteFor && t.role == nd.role && t.leaderId == nd.leaderId
    && t.commitIndex == nd.commitIndex && t.lastApplied == nd.lastApplied
  }

  lemma TailTerms(log: seq<Entry>, base: nat, full: seq<Entry>, slot: nat)
    requires TailOf(log, base, full) && slot < |log|
    ensures log[slot].term == full[slot + base].term
    ensures slot > 0 ==> log[slot] == full[slot + base]
  {
    if slot > 0 {
      assert log[slot] == log[1..][slot - 1] == full[base + 1..][slot - 1];
    }
  }

  lemma CaughtUpRefines(t: Trimmed, nd: Node, term: nat)
    requires Represents(t, nd)
    ensures Represents(CaughtUpTrimmed(t, term), CaughtUp(nd, term))
  {
  }

  /** RequestVote decides the same on both logs. */
  lemma RequestVoteRefines(t: Trimmed, nd: Node, args: RequestVoteArgs)
    requires Represents(t, nd)
    ensures GrantsTrimmed(t, args) == GrantsVote(nd, args)
    ensures Represents(AfterRequestVoteTrimmed(t, args), AfterRequestVote(nd, args))
  {
    TailTerms(t.log, t.base, nd.log, |t.log| - 1);
  }

  lemma HasAllRefines(log: seq<Entry>, base: nat, full: seq<Entry>, next: nat, entries: seq<Entry>)
    requires TailOf(log, base, full)
    ensures HasAllAt(log, next, entries) == HasAllAt(full, next + base, entries)
  {
    if HasAllAt(full, next + base, entries) {
      forall j | 0 <= j < |entries| ensures next + j < |log| && log[next + j].term == entries[j].term {
        var e := entries[j];
        assert next + base + j < |full| && full[next + base + j].term == e.term;
        TailTerms(log, base, full, next + j);
      }
      assert HasAllAt(log, next, entries);
    }
    if HasAllAt(log, next, entries) {
      var at := next + base;
      forall j | 0 <= j < |entries| ensures at + j < |full| && full[at + j].term == entries[j].term {
        var e := entries[j];
        assert next + j < |log| && log[next + j].term == e.term;
        TailTerms(log, base, full, next + j);
      }
      assert HasAllAt(full, at, entries);
    }
  }

  lemma MergeRefines(log: seq<Entry>, base: nat, full: seq<Entry>, next: nat, entries: seq<Entry>)
    requires TailOf(log, base, full) && 1 <= next <= |log|
    ensures TailOf(MergedTrimmed(log, next, entries), base,
                   if HasAllAt(full, next + base, entries) then full else full[..next + base] + entries)
  {
    HasAllRefines(log, base, full, next, entries);
    if !HasAllAt(log, next, entries) {
      var cut, fullCut := log[..next] + entries, full[..next + base] + entries;
      forall j | 0 <= j < |cut[1..]| ensures cut[1..][j] == fullCut[base + 1..][j] {
        if j + 1 < next {
          TailTerms(log, base, full, j + 1);
        }
      }
    }
  }

  /** The follower's run of the conflicting term, cut off at the placeholder. */
  lemma {:induction false} RunStartRefines(log: seq<Entry>, base: nat, full: seq<Entry>, slot: nat)
    requires TailOf(log, base, full) && slot < |log|
    ensures RunStart(log, slot) + base == Max(RunStart(full, slot + base), base)
    decreases slot
  {
    TailTerms(log, base, full, slot);
    if slot > 0 {
      TailTerms(log, base, full, slot - 1);
      if log[slot - 1].term == log[slot].term {
        RunStartRefines(log, base, full, slot - 1);
      }
    }
  }

  /** The two commit rules agree exactly when the leader's commit index is no news, or the message reaches it, or
      the log ends with the message. */
  lemma CommitRulesAgreeIff(commitIndex: nat, args: AppendEntriesArgs, lastIndex: nat)
    requires args.LastIndex() <= lastIndex
    ensures AdvancedCommitTrimmed(commitIndex, args.leaderCommit, lastIndex) == AdvancedCommit(commitIndex, args) <==>
            args.leaderCommit <= commitIndex || args.leaderCommit <= args.LastIndex() || lastIndex == args.LastIndex()
  {
  }

  lemma MergedReaches(log: seq<Entry>, next: nat, entries: seq<Entry>)
    requires next <= |log|
    ensures |MergedTrimmed(log, next, entries)| >= next + |entries|
  {
    if HasAllAt(log, next, entries) && entries != [] {
      var last := entries[|entries| - 1];
      assert next + (|entries| - 1) < |log| && log[next + (|entries| - 1)].term == last.term;
    }
  }

  lemma MergedRefines(t: Trimmed, nd: Node, args: AppendEntriesArgs)
    requires Represents(t, nd) && AcceptsTrimmed(t, args) && Accepts(nd, args) && args.leaderCommit <= args.LastIndex()
    ensures var merged := MergedTrimmed(t.log, args.prevLogIndex + 1 - t.base, args.entries);
            && |merged| > 0 && TailOf(merged, t.base, MergedLog(nd.log, args))
            && AdvancedCommitTrimmed(t.commitIndex, args.leaderCommit, |merged| - 1 + t.base) ==
               AdvancedCommit(t.commitIndex, args)
  {
    hide HasAllAt, AdvancedCommitTrimmed, AdvancedCommit;
    var next := args.prevLogIndex + 1 - t.base;
    MergeRefines(t.log, t.base, nd.log, next, args.entries);
    MergedReaches(t.log, next, args.entries);
    CommitRulesAgreeIff(t.commitIndex, args, |MergedTrimmed(t.log, next, args.entries)| - 1 + t.base);
  }

  lemma AcceptRefines(t: Trimmed, nd: Node, args: AppendEntriesArgs)
    requires Represents(t, nd) && t.currentTerm == args.term && AcceptsTrimmed(t, args) && Accepts(nd, args)
    requires args.leaderCommit <= args.LastIndex()
    ensures Represents(AfterAppendEntriesTrimmed(t, args), AfterAppendEntries(nd, args))
  {
    hide MergedTrimmed, MergedLog, AdvancedCommitTrimmed, AdvancedCommit;
    MergedRefines(t, nd, args);
  }

  /**
    * Above the cut, AppendEntries on the trimmed log is AppendEntries on the full log: same decision, same absolute
    * log, same commit index.
    */
  lemma AppendEntriesRefines(t: Trimmed, nd: Node, args: AppendEntriesArgs)
    requires Represents(t, nd) && t.base <= args.prevLogIndex && args.leaderCommit <= args.LastIndex()
    ensures AcceptsTrimmed(t, args) == Accepts(nd, args)
    ensures Represents(AfterAppendEntriesTrimmed(t, args), AfterAppendEntries(nd, args))
  {
    hide TailOf, MergedTrimmed, MergedLog;
    CaughtUpRefines(t, nd, args.term);
    SameDecision(t, nd, args);
    if AcceptsTrimmed(t, args) {
      AcceptRefines(CaughtUpTrimmed(t, args.term), CaughtUp(nd, args.term), args);
    }
  }

  lemma SameDecision(t: Trimmed, nd: Node, args: AppendEntriesArgs)
    requires Represents(t, nd) && t.base <= args.prevLogIndex
    ensures |t.log| > 0 && AcceptsTrimmed(t, args) == Accepts(nd, args)
  {
    if args.prevLogIndex - t.base < |t.log| {
      TailTerms(t.log, t.base, nd.log, args.prevLogIndex - t.base);
    }
  }

  /**
    * Its reply has the same success flag and conflicting term, and the same first index clamped below at the cut.
    * The term is the same too, except that a short log answers 0; the sender reacts in the same way to both.
    */
  lemma AnswerRefines(t: Trimmed, nd: Node, args: AppendEntriesArgs)
    requires Represents(t, nd) && t.base <= args.prevLogIndex
    ensures var r := AppendEntriesAnswerTrimmed(t, args); var full := AppendEntriesAnswer(nd, args);
            && r.success == full.success && r.conflictTerm == full.conflictTerm
            && (t.currentTerm <= args.term && !r.success ==> r.conflictFirstIndex == Max(full.conflictFirstIndex, t.base))
            && (args.term < r.term <==> args.term < full.term)
            && (t.LastIndex() >= args.prevLogIndex || args.term < t.currentTerm ==> r.term == full.term)
  {
    var slot := args.prevLogIndex - t.base;
    if slot < |t.log| {
      TailTerms(t.log, t.base, nd.log, slot);
      RunStartRefines(t.log, t.base, nd.log, slot);
    }
  }

  /** Start appends at the same absolute index. */
  lemma StartRefines(t: Trimmed, nd: Node, me: nat, n: nat, command: Command)
    requires Represents(t, nd)
    ensures Represents(AfterStartTrimmed(t, command), AfterStart(nd, me, n, command))
    ensures t.role == Leader ==> |t.log| + t.base == |nd.log|
  {
    var entry := Entry(command, t.currentTerm);
    assert (t.log + [entry])[1..] == t.log[1..] + [entry];
    assert (nd.log + [entry])[t.base + 1..] == nd.log[t.base + 1..] + [entry];
  }

  // Snapshots ----------------------------------------------------------------------------------------

  /**
    * Taking a snapshot is invisible in the absolute view: every retained index keeps its entry, slot 0 gets the term
    * at the cut, and neither lastApplied nor commitIndex moves. The recorded term is right iff the caller's is.
    */
  lemma TakeSnapshotKeepsView(t: Trimmed, nd: Node, index: nat, term: nat, data: string)
    requires Represents(t, nd) && index <= t.LastIndex()
    ensures var t' := AfterTakeSnapshot(t, index, term, data);
            && Represents(t', nd)
            && t'.base == Max(t.base, index)
            && (index > t.base ==>
                  && t'.snapshot == Snapshot(index, term, data)
                  && (t'.log[0].term == t'.baseTerm <==> term == nd.log[index].term))
  {
    if index > t.base {
      var cut := index - t.base;
      TailTerms(t.log, t.base, nd.log, cut);
      forall j | 0 <= j < |t.log[cut..][1..]| ensures t.log[cut..][1..][j] == nd.log[index + 1..][j] {
        TailTerms(t.log, t.base, nd.log, cut + 1 + j);
      }
    }
  }

  /** The peer that an installed snapshot turns nd into, when it keeps nd's log. */
  function Installed(nd: Node, args: InstallSnapshotArgs): Node {
    nd.(currentTerm := args.term, role := Follower, voteFor := args.leaderId,
        lastApplied := Max(args.lastIncludedIndex, nd.lastApplied),
        commitIndex := Max(args.lastIncludedIndex, nd.commitIndex))
  }

  /** Installing inside the local log keeps every retained index; it never lowers lastApplied or commitIndex. */
  lemma InstallKeepsView(t: Trimmed, nd: Node, args: InstallSnapshotArgs)
    requires Represents(t, nd) && Installs(t, args)
    ensures var t' := AfterInstallSnapshot(t, args);
            && t.lastApplied <= t'.lastApplied && t.commitIndex <= t'.commitIndex
            && t'.base == args.lastIncludedIndex <= t'.lastApplied && t'.base <= t'.commitIndex
            && (args.lastIncludedIndex <= t.LastIndex() ==> Represents(t', Installed(nd, args)))
  {
    if args.lastIncludedIndex <= t.LastIndex() {
      TakeSnapshotKeepsView(t, nd, args.lastIncludedIndex, args.lastIncludedTerm, "");
    }
  }

  /** Installing past the local end stands for any full log that ends at the cut with the included term. */
  lemma InstallReplacesView(t: Trimmed, nd: Node, args: InstallSnapshotArgs, full: seq<Entry>)
    requires Represents(t, nd) && Installs(t, args) && args.lastIncludedIndex > t.LastIndex()
    requires |full| == args.lastIncludedIndex + 1 && full[args.lastIncludedIndex].term == args.lastIncludedTerm
    ensures Represents(AfterInstallSnapshot(t, args), Installed(nd.(log := full), args))
  {
  }

  /** Section 7: keep the tail only if the entry at the cut has the included term. */
  function PaperInstalledLog(t: Trimmed, args: InstallSnapshotArgs): seq<Entry>
    requires |t.log| > 0 && args.lastIncludedIndex > t.base
  {
    if args.lastIncludedIndex <= t.LastIndex() &&
       t.log[args.lastIncludedIndex - t.base].term == args.lastIncludedTerm
    then t.log[args.lastIncludedIndex - t.base..]
    else [Entry(NoCommand, args.lastIncludedTerm)]
  }

  /**
    * InstallSnapshot does not compare terms at the cut. It does what section 7 asks, and puts the included term in
    * slot 0, exactly when the local log is too short or has that term there.
    */
  lemma InstallIsRightIff(t: Trimmed, args: InstallSnapshotArgs)
    requires |t.log| > 0 && Installs(t, args)
    ensures var t' := AfterInstallSnapshot(t, args);
            var good := args.lastIncludedIndex > t.LastIndex() ||
                        t.log[args.lastIncludedIndex - t.base].term == args.lastIncludedTerm;
            && (t'.log[0].term == t'.baseTerm <==> good)
            && (t'.log == PaperInstalledLog(t, args) <==> good)
  {
  }

  /** What Log Matching gives for a follower and the leader that took the snapshot. */
  ghost predicate MatchingLogs(log: seq<Entry>, leader: seq<Entry>) {
    forall k :: 0 <= k < |log| && k < |leader| && log[k].term == leader[k].term ==> log[..k + 1] == leader[..k + 1]
  }

  /** The full log that the follower stands for after the install. */
  function InstalledFull(t: Trimmed, nd: Node, args: InstallSnapshotArgs, leader: seq<Entry>): seq<Entry>
    requires |t.log| > 0 && args.lastIncludedIndex < |leader|
  {
    if args.lastIncludedIndex <= t.LastIndex() then nd.log else leader[..args.lastIncludedIndex + 1]
  }

  /**
    * After an install the follower stands for a full peer, and that peer has the leader's log through the cut exactly
    * under the same condition.
    */
  lemma InstallAdoptsPrefixIff(t: Trimmed, nd: Node, args: InstallSnapshotArgs, leader: seq<Entry>)
    requires Represents(t, nd) && Installs(t, args) && MatchingLogs(nd.log, leader)
    requires args.lastIncludedIndex < |leader| && leader[args.lastIncludedIndex].term == args.lastIncludedTerm
    ensures |t.log| > 0
    ensures var cut := args.lastIncludedIndex; var full := InstalledFull(t, nd, args, leader);
            && Represents(AfterInstallSnapshot(t, args), Installed(nd.(log := full), args)) && cut < |full|
            && (full[..cut + 1] == leader[..cut + 1] <==>
                cut > t.LastIndex() || t.log[cut - t.base].term == args.lastIncludedTerm)
  {
    var cut := args.lastIncludedIndex;
    var full := InstalledFull(t, nd, args, leader);
    if cut <= t.LastIndex() {
      InstallKeepsView(t, nd, args);
      TailTerms(t.log, t.base, nd.log, cut - t.base);
      assert full[..cut + 1] == leader[..cut + 1] ==> full[..cut + 1][cut] == leader[..cut + 1][cut];
    } else {
      InstallReplacesView(t, nd, args, full);
    }
  }

  ghost predicate VotesOnlyFor(t: Trimmed, term: int, candidate: int)
    requires |t.log| > 0
  {
    forall request: RequestVoteArgs ::
      GrantsTrimmed(t, request) && request.term == term ==> request.candidateId == candidate
  }

  /**
    * InstallSnapshot also takes the vote for the leader. In a term in which the follower had voted, it stays with that
    * vote exactly when it was for this leader; else it may grant a second vote, to the leader's delayed request.
    */
  lemma InstallKeepsVoteIff(t: Trimmed, args: InstallSnapshotArgs)
    requires |t.log| > 0 && Installs(t, args) && t.currentTerm == args.term && t.voteFor >= 0
    ensures VotesOnlyFor(AfterInstallSnapshot(t, args), args.term, t.voteFor) <==> t.voteFor == args.leaderId
  {
    var t' := AfterInstallSnapshot(t, args);
    var delayed := RequestVoteArgs(args.term, args.leaderId, t'.LastIndex(), t'.log[t'.LastIndex() - t'.base].term);
    assert GrantsTrimmed(t', delayed);
  }

  /** A follower with an uncommitted entry of an old term at the cut keeps it, and what follows it. */
  lemma InstallCanKeepStaleTail()
    ensures exists t: Trimmed, args ::
              && |t.log| > 0 && Installs(t, args)
              && AfterInstallSnapshot(t, args).log[0].term != AfterInstallSnapshot(t, args).baseTerm
              && |AfterInstallSnapshot(t, args).log| > 1
  {
    var log := [PLACEHOLDER, Entry(Command("a"), 1), Entry(Command("b"), 1)];
    var t := Trimmed(2, -1, log, 0, -1, Persistent(2, -1, log), NoSnapshot, Follower, -1, 0, 0);
    var args := InstallSnapshotArgs(2, 0, 1, 2, Snapshot(1, 2, ""));
    assert AfterInstallSnapshot(t, args).log == log[1..];
    assert Installs(t, args) && AfterInstallSnapshot(t, args).log[0].term != AfterInstallSnapshot(t, args).baseTerm;
  }

  /** What the two cells of the persister hold between steps. */
  predicate Durable(t: Trimmed) {
    && t.disk == Persistent(t.currentTerm, t.voteFor, t.log)
    && match t.snapshot
       case NoSnapshot => t.base == 0 && t.baseTerm == -1
       case Snapshot(index, term, _) => t.base == index && t.baseTerm == term
  }

  /** So a restart has the same absolute log, term and vote, and starts applying just after the cut. */
  lemma RestartRestoresView(t: Trimmed, nd: Node, n: nat)
    requires Represents(t, nd) && Durable(t)
    ensures var t' := BootedTrimmed(t.disk, t.snapshot);
            var nd' := Booted(Persistent(nd.currentTerm, nd.voteFor, nd.log), n);
            Represents(t', nd'.(commitIndex := t.base, lastApplied := t.base)) && Durable(t')
  {
  }

  // What the two cells give back ---------------------------------------------------------------------

  /** What a peer is when it starts again from the cells that t has saved. */
  function Restarted(t: Trimmed): Trimmed {
    BootedTrimmed(t.disk, t.snapshot)
  }

  /** It is a follower that is at the cut: it has applied, and knows to be committed, what the snapshot holds. */
  predicate AtCut(t: Trimmed, index: nat, term: nat, data: string) {
    && t.base == index && t.baseTerm == term && t.snapshot == Snapshot(index, term, data)
    && t.lastApplied == index && t.commitIndex == index && t.role == Follower
  }

  /**
    * A restart after the install of a snapshot of the cut, by whatever peer, has the installed term, the vote for the
    * leader, the log from the cut on, or only a placeholder of the included term, and starts applying at the cut.
    */
  lemma InstallThenRestart(t: Trimmed, args: InstallSnapshotArgs, data: string)
    requires |t.log| > 0 && t.currentTerm <= args.term && args.lastIncludedIndex > t.base
    requires args.data == Snapshot(args.lastIncludedIndex, args.lastIncludedTerm, data)
    ensures var t' := AfterInstallSnapshot(t, args); var again := Restarted(t');
            && Durable(t') && Durable(again)
            && AtCut(again, args.lastIncludedIndex, args.lastIncludedTerm, data)
            && again.currentTerm == t'.currentTerm == args.term && again.voteFor == t'.voteFor == args.leaderId
            && again.log == t'.log && |again.log| > 0
            && (if args.lastIncludedIndex < t.base + |t.log|
                then again.log == t.log[args.lastIncludedIndex - t.base..]
                else again.log == [Entry(NoCommand, args.lastIncludedTerm)])
  {
  }

  /** An install that is old, or not above the cut, changes nothing; else the indices rise to the cut. */
  lemma InstallChanges(t: Trimmed, args: InstallSnapshotArgs)
    requires |t.log| > 0
    ensures var t' := AfterInstallSnapshot(t, args);
            if args.term < t.currentTerm || args.lastIncludedIndex <= t.base then t' == t
            else
              && t'.role == Follower && t'.base == args.lastIncludedIndex && t'.baseTerm == args.lastIncludedTerm
              && t'.lastApplied == Max(t.lastApplied, t'.base) && t'.commitIndex == Max(t.commitIndex, t'.base)
              && t'.leaderId == t.leaderId
  {
  }

  /** A restart after a snapshot of one's own has the same term and vote, and the log from the snapshot's index on. */
  lemma SnapshotThenRestart(t: Trimmed, index: nat, term: nat, data: string)
    requires |t.log| > 0 && t.base < index <= t.LastIndex()
    ensures var t' := AfterTakeSnapshot(t, index, term, data); var again := Restarted(t');
            && Durable(t') && AtCut(again, index, term, data)
            && again.currentTerm == t.currentTerm && again.voteFor == t.voteFor
            && again.log == t'.log == t.log[index - t.base..]
            && t'.lastApplied == t.lastApplied && t'.commitIndex == t.commitIndex && t'.role == t.role
  {
  }

  /** A trimmed peer grants its vote on the same condition as a full one, with its absolute last index. */
  lemma TrimmedVoteGrantedIff(t: Trimmed, args: RequestVoteArgs)
    requires |t.log| > 0
    ensures var term, index := t.log[|t.log| - 1].term, t.base + |t.log| - 1;
            var granted := && t.currentTerm <= args.term
                           && (t.currentTerm < args.term || t.voteFor == -1 || t.voteFor == args.candidateId)
                           && (term < args.lastLogTerm || (term == args.lastLogTerm && index <= args.lastLogIndex));
            var t' := AfterRequestVoteTrimmed(t, args);
            && (GrantsTrimmed(t, args) <==> granted)
            && t'.currentTerm == Max(t.currentTerm, args.term)
            && t'.voteFor == (if granted then args.candidateId else if t.currentTerm < args.term then -1 else t.voteFor)
            && (Durable(t) ==> Durable(t'))
  {
  }

  /** It accepts an append exactly when that is not old, not below the cut, and it has the previous entry. */
  lemma TrimmedAppendAcceptedIff(t: Trimmed, args: AppendEntriesArgs)
    requires |t.log| > 0
    ensures AppendEntriesAnswerTrimmed(t, args).success <==>
            && t.currentTerm <= args.term && t.base <= args.prevLogIndex < t.base + |t.log|
            && t.log[args.prevLogIndex - t.base].term == args.prevLogTerm
  {
  }

  /** Below the cut it asks for the entry just above it, and past its end for the one after that. */
  lemma TrimmedAsksFor(t: Trimmed, args: AppendEntriesArgs, leader: seq<Entry>)
    requires |t.log| > 0 && t.currentTerm <= args.term
    requires args.prevLogIndex < t.base || args.prevLogIndex >= t.base + |t.log|
    ensures var reply := AppendEntriesAnswerTrimmed(t, args); var next := args.prevLogIndex + 1;
            && !reply.success && reply.conflictTerm == 0 && BackupInBounds(leader, reply, next)
            && NextIndexAfter(leader, reply, next) == (if args.prevLogIndex < t.base then t.base + 1 else t.base + |t.log|)
            && AfterAppendEntriesTrimmed(t, args).log == t.log
  {
  }

  // The apply loop under interference ----------------------------------------------------------------

  /** What the loop sees when it takes the lock: the cut and the log at that moment. */
  datatype LogView = LogView(base: nat, log: seq<Entry>)

  /** The view reaches the end of the committed log, and its real slots there are the committed entries. */
  ghost predicate Shows(view: LogView, committed: seq<Entry>) {
    && |view.log| > 0 && view.base + |view.log| >= |committed|
    && forall slot :: 1 <= slot < |view.log| && view.base + slot < |committed| ==>
         view.log[slot] == committed[view.base + slot]
  }

  /** Snapshots move the cut forward only, and what was committed when the loop started stays. */
  ghost predicate Rely(env: nat -> LogView, committed: seq<Entry>) {
    && (forall k :: Shows(env(k), committed))
    && (forall j, k :: j <= k ==> env(j).base <= env(k).base)
  }

  ghost predicate Delivered(delivered: seq<ApplyMsg>, i: nat) {
    exists x :: 0 <= x < |delivered| && delivered[x].index == i
  }

  /** One of the first `turn` turns found index i at or below the cut. */
  ghost predicate CoveredBefore(env: nat -> LogView, i: nat, turn: nat) {
    exists k: nat :: k < turn && i <= env(k).base
  }

  /** A delivery came from a real slot of the log that its turn found. */
  ghost predicate ReadFrom(m: ApplyMsg, view: LogView) {
    1 <= m.index - view.base < |view.log| && m.command == view.log[m.index - view.base].command
  }

  /** A delivery of an index in (lastApplied, i), in one of the first `turn` turns, from what that turn found. */
  ghost predicate GoodDelivery(env: nat -> LogView, committed: seq<Entry>, lastApplied: nat, i: nat, turn: nat,
                               m: ApplyMsg, at: nat)
  {
    && lastApplied < m.index < i && m.index < |committed| && at < turn
    && ReadFrom(m, env(at)) && m.command == committed[m.index].command
  }

  /**
    * What the loop has done when it comes to index i after `turn` turns: its deliveries are good and in order, an
    * index that it passed without delivering it was below the cut in one of its turns, and if it delivered a later one
    * since, in a turn before that.
    */
  ghost predicate PassedUpTo(env: nat -> LogView, committed: seq<Entry>, lastApplied: nat, i: nat, turn: nat,
                             delivered: seq<ApplyMsg>, turns: seq<nat>)
  {
    && |turns| == |delivered|
    && (forall x :: 0 <= x < |delivered| ==> GoodDelivery(env, committed, lastApplied, i, turn, delivered[x], turns[x]))
    && (forall x, y :: 0 <= x < y < |delivered| ==> delivered[x].index < delivered[y].index && turns[x] < turns[y])
    && (forall j: nat :: lastApplied < j < i ==> Delivered(delivered, j) || CoveredBefore(env, j, turn))
    && (forall j: nat, x :: 0 <= x < |delivered| && lastApplied < j < delivered[x].index ==>
          Delivered(delivered, j) || CoveredBefore(env, j, turns[x]))
  }

  /** A turn that finds index i in a slot delivers it. */
  lemma TurnDelivers(env: nat -> LogView, committed: seq<Entry>, lastApplied: nat, i: nat, turn: nat,
                     delivered: seq<ApplyMsg>, turns: seq<nat>)
    requires PassedUpTo(env, committed, lastApplied, i, turn, delivered, turns)
    requires lastApplied < i < |committed| && env(turn).base < i && Shows(env(turn), committed)
    ensures i - env(turn).base < |env(turn).log|
    ensures var m := ApplyMsg(env(turn).log[i - env(turn).base].command, i);
            PassedUpTo(env, committed, lastApplied, i + 1, turn + 1, delivered + [m], turns + [turn])
  {
    var more := delivered + [ApplyMsg(env(turn).log[i - env(turn).base].command, i)];
    assert more[|delivered|].index == i;
    forall j: nat | Delivered(delivered, j) ensures Delivered(more, j) {
      var x :| 0 <= x < |delivered| && delivered[x].index == j;
      assert more[x].index == j;
    }
    forall j: nat | CoveredBefore(env, j, turn) ensures CoveredBefore(env, j, turn + 1) {
      var k: nat :| k < turn && j <= env(k).base;
    }
    assert ReadFrom(more[|delivered|], env(turn));
  }

  /** A turn that finds i at or below the cut goes on no further than just above the cut. */
  lemma TurnSkips(env: nat -> LogView, committed: seq<Entry>, lastApplied: nat, i: nat, turn: nat,
                  delivered: seq<ApplyMsg>, turns: seq<nat>, next: nat)
    requires PassedUpTo(env, committed, lastApplied, i, turn, delivered, turns)
    requires i <= next <= env(turn).base + 1
    ensures PassedUpTo(env, committed, lastApplied, next, turn + 1, delivered, turns)
  {
    var after := turn + 1;
    forall j: nat | i <= j < next ensures CoveredBefore(env, j, after) {
      assert turn < after && j <= env(turn).base;
    }
    forall j: nat | CoveredBefore(env, j, turn) ensures CoveredBefore(env, j, after) {
      var k: nat :| k < turn && j <= env(k).base;
    }
  }

  /** After a skip the loop lands just above the cut: an omitted index is the one at the cut that the delivery found. */
  lemma SkipLands(env: nat -> LogView, committed: seq<Entry>, lastApplied: nat, i: nat, turn: nat,
                  delivered: seq<ApplyMsg>, turns: seq<nat>, x: nat)
    requires PassedUpTo(env, committed, lastApplied, i, turn, delivered, turns) && Rely(env, committed)
    requires x < |delivered| && lastApplied < delivered[x].index - 1 && !Delivered(delivered, delivered[x].index - 1)
    ensures delivered[x].index == env(turns[x]).base + 1
  {
    hide Shows;
    var j := delivered[x].index - 1;
    assert GoodDelivery(env, committed, lastApplied, i, turn, delivered[x], turns[x]);
    assert CoveredBefore(env, j, turns[x]);
    var k: nat :| k < turns[x] && j <= env(k).base;
  }

  /**
    * One pass of applyEntries, with the lock released between turns: `env(k)` is what turn k finds, `committed` the
    * log up to the captured commit index. It reads no slot outside [1, len) and delivers entries of the committed log
    * at strictly increasing indices, one a turn. It leaves out an index only if one of its own turns, before it
    * delivered any later index, found it at or below the cut, and then goes on at LastIncludedIndex + 1.
    */
  method ApplyPass(lastApplied: nat, commitIndex: nat, env: nat -> LogView, ghost committed: seq<Entry>)
    returns (delivered: seq<ApplyMsg>, turns: seq<nat>, taken: nat)
    requires |committed| == commitIndex + 1 && Rely(env, committed)
    ensures |turns| == |delivered| && (lastApplied <= commitIndex ==> taken <= commitIndex - lastApplied)
    ensures forall x :: 0 <= x < |delivered| ==>
              && lastApplied < delivered[x].index <= commitIndex && turns[x] < taken
              && ReadFrom(delivered[x], env(turns[x])) && delivered[x].command == committed[delivered[x].index].command
    ensures forall x, y :: 0 <= x < y < |delivered| ==> delivered[x].index < delivered[y].index && turns[x] < turns[y]
    ensures forall j: nat :: lastApplied < j <= commitIndex ==> Delivered(delivered, j) || CoveredBefore(env, j, taken)
    ensures forall j: nat, x :: 0 <= x < |delivered| && lastApplied < j < delivered[x].index ==>
              Delivered(delivered, j) || CoveredBefore(env, j, turns[x])
    ensures forall x :: 0 <= x < |delivered| && lastApplied < delivered[x].index - 1 &&
                        !Delivered(delivered, delivered[x].index - 1) ==>
              delivered[x].index == env(turns[x]).base + 1
  {
    hide PassedUpTo, Shows, ReadFrom, Delivered, CoveredBefore;
    delivered, turns, taken := [], [], 0;
    var i := lastApplied + 1;
    NothingPassed(env, committed, lastApplied);
    while i <= commitIndex
      invariant lastApplied + taken < i && PassedUpTo(env, committed, lastApplied, i, taken, delivered, turns)
      invariant lastApplied <= commitIndex ==> taken <= commitIndex - lastApplied
      decreases commitIndex + 1 - i
    {
      var view := env(taken);
      var slot := i - view.base;
      if slot <= 0 {
        ghost var from := i;
        if slot < 0 {
          i := i - (slot + 1);
        }
        TurnSkips(env, committed, lastApplied, from, taken, delivered, turns, i + 1);
      } else {
        TurnDelivers(env, committed, lastApplied, i, taken, delivered, turns);
        delivered := delivered + [ApplyMsg(view.log[slot].command, i)];
        turns := turns + [taken];
      }
      i := i + 1;
      taken := taken + 1;
    }
    PassedAll(env, committed, lastApplied, i, taken, delivered, turns);
    forall x | 0 <= x < |delivered| && lastApplied < delivered[x].index - 1 &&
               !Delivered(delivered, delivered[x].index - 1)
      ensures delivered[x].index == env(turns[x]).base + 1
    {
      SkipLands(env, committed, lastApplied, i, taken, delivered, turns, x);
    }
  }

  lemma NothingPassed(env: nat -> LogView, committed: seq<Entry>, lastApplied: nat)
    ensures PassedUpTo(env, committed, lastApplied, lastApplied + 1, 0, [], [])
  {
  }

  lemma PassedAll(env: nat -> LogView, committed: seq<Entry>, lastApplied: nat, i: nat, turn: nat,
                  delivered: seq<ApplyMsg>, turns: seq<nat>)
    requires PassedUpTo(env, committed, lastApplied, i, turn, delivered, turns) && i >= |committed|
    ensures |turns| == |delivered|
    ensures forall x :: 0 <= x < |delivered| ==>
              && lastApplied < delivered[x].index < |committed| && turns[x] < turn
              && ReadFrom(delivered[x], env(turns[x])) && delivered[x].command == committed[delivered[x].index].command
    ensures forall x, y :: 0 <= x < y < |delivered| ==> delivered[x].index < delivered[y].index && turns[x] < turns[y]
    ensures forall j: nat :: lastApplied < j < |committed| ==> Delivered(delivered, j) || CoveredBefore(env, j, turn)
    ensures forall j: nat, x :: 0 <= x < |delivered| && lastApplied < j < delivered[x].index ==>
              Delivered(delivered, j) || CoveredBefore(env, j, turns[x])
  {
    forall x | 0 <= x < |delivered|
      ensures GoodDelivery(env, committed, lastApplied, i, turn, delivered[x], turns[x])
    {
    }
  }
}
