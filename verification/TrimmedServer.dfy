/**
  * A peer that compacts its log, as an object. Its methods read the log through getLastLogIndex and
  * subSnapshotIndex, as the source does, and are proved to compute the steps of TrimmedLog.
  */
module TrimmedServer {
  import opened RaftTypes
  import opened RaftHandlers
  import opened TrimmedLog

  class TrimmedRaft {
    var currentTerm: nat
    var voteFor: int
    var log: seq<Entry>
    var lastIncludedIndex: nat
    var lastIncludedTerm: int
    var disk: Persistent              // the persister's two cells
    var snapshot: Snapshot
    var role: Role
    var leaderId: int
    var commitIndex: nat
    var lastApplied: nat

    ghost predicate Valid()
      reads this
    {
      |log| > 0
    }

    ghost function View(): Trimmed
      reads this
    {
      Trimmed(currentTerm, voteFor, log, lastIncludedIndex, lastIncludedTerm, disk, snapshot,
              role, leaderId, commitIndex, lastApplied)
    }

    /** Make, then readSnapshot at start-up. */
    constructor (saved: Persistent, snapshot: Snapshot)
      requires |saved.log| > 0
      ensures Valid() && View() == BootedTrimmed(saved, snapshot)
    {
      currentTerm, voteFor, log := saved.currentTerm, saved.voteFor, saved.log;
      disk, this.snapshot := saved, snapshot;
      role, leaderId := Follower, -1;
      lastIncludedIndex, lastIncludedTerm, commitIndex, lastApplied := 0, -1, 0, 0;
      if snapshot.Snapshot? {
        lastIncludedIndex, lastIncludedTerm := snapshot.index, snapshot.term;
        commitIndex, lastApplied := snapshot.index, snapshot.index;
      }
    }

    function GetLastLogIndex(): nat
      requires Valid()
      reads this
    {
      |log| - 1 + lastIncludedIndex
    }

    function SubSnapshotIndex(index: int): int
      reads this
    {
      index - lastIncludedIndex
    }

    function AddSnapshotIndex(index: int): int
      reads this
    {
      index + lastIncludedIndex
    }

    method Persist()
      modifies this`disk
      ensures disk == Persistent(currentTerm, voteFor, log)
    {
      disk := Persistent(currentTerm, voteFor, log);
    }

    /** A higher term was seen. */
    method CatchUp(term: nat)
      modifies this
      ensures View() == CaughtUpTrimmed(old(View()), term)
    {
      if currentTerm < term {
        currentTerm := term;
        voteFor := -1;
        role := Follower;
        Persist();
      }
    }

    method RequestVote(args: RequestVoteArgs) returns (reply: RequestVoteReply)
      requires Valid()
      modifies this
      ensures Valid() && View() == AfterRequestVoteTrimmed(old(View()), args)
      ensures reply == RequestVoteReply(currentTerm, GrantsTrimmed(old(View()), args))
    {
      if currentTerm <= args.term {
        CatchUp(args.term);
        if voteFor == -1 || voteFor == args.candidateId {
          var lastLogIndex := GetLastLogIndex();
          var lastLogTerm := log[SubSnapshotIndex(lastLogIndex)].term;
          if lastLogTerm < args.lastLogTerm ||
             (lastLogTerm == args.lastLogTerm && lastLogIndex <= args.lastLogIndex) {
            voteFor := args.candidateId;
            role := Follower;
            Persist();
            return RequestVoteReply(currentTerm, true);
          }
        }
      }
      return RequestVoteReply(currentTerm, false);
    }

    /** The scan that decides whether anything has to be overwritten. */
    method HasAllEntries(prevLogIndex: nat, entries: seq<Entry>) returns (isMatch: bool)
      requires Valid() && lastIncludedIndex <= prevLogIndex
      ensures isMatch == HasAllAt(log, prevLogIndex + 1 - lastIncludedIndex, entries)
    {
      isMatch := true;
      var nextIndex := prevLogIndex + 1;
      ghost var slot := nextIndex - lastIncludedIndex;
      var end := GetLastLogIndex();
      var i := 0;
      while isMatch && i < |entries|
        invariant 0 <= i <= |entries|
        invariant isMatch ==> HasAllAt(log, slot, entries[..i])
        invariant !isMatch ==> !HasAllAt(log, slot, entries)
        decreases |entries| - i, isMatch
      {
        ghost var entry := entries[i];
        assert HasAllAt(log, slot, entries) ==> slot + i < |log| && log[slot + i].term == entry.term;
        if nextIndex + i > end {
          isMatch := false;
        } else if log[SubSnapshotIndex(nextIndex + i)].term != entries[i].term {
          isMatch := false;
        } else {
          assert entries[..i + 1] == entries[..i] + [entries[i]];
          i := i + 1;
        }
      }
      assert entries[..|entries|] == entries;
    }

    /** The consistency check passed in the current term. */
    method Accept(args: AppendEntriesArgs)
      requires Valid() && currentTerm == args.term && AcceptsTrimmed(View(), args)
      modifies this
      ensures Valid() && View() == AfterAppendEntriesTrimmed(old(View()), args)
    {
      hide HasAllAt;
      role := Follower;
      var nextIndex := args.prevLogIndex + 1;
      var isMatch := HasAllEntries(args.prevLogIndex, args.entries);
      if !isMatch {
        log := log[..SubSnapshotIndex(nextIndex)] + args.entries;
      }
      if args.leaderCommit > commitIndex {
        var last := AddSnapshotIndex(|log| - 1);
        commitIndex := if args.leaderCommit <= last then args.leaderCommit else last;
      }
      leaderId := args.leaderId;
      Persist();
    }

    /** The scan for the first index of the conflicting term; it stops at the cut. */
    method FirstOfTerm(index: nat) returns (first: nat)
      requires Valid() && lastIncludedIndex <= index <= GetLastLogIndex()
      ensures first == RunStart(log, index - lastIncludedIndex) + lastIncludedIndex
    {
      var conflictTerm := log[SubSnapshotIndex(index)].term;
      first := index;
      var i := first - 1;
      while i >= lastIncludedIndex
        invariant lastIncludedIndex - 1 <= i && first == i + 1 <= index
        invariant log[first - lastIncludedIndex].term == conflictTerm
        invariant RunStart(log, index - lastIncludedIndex) == RunStart(log, first - lastIncludedIndex)
      {
        if log[SubSnapshotIndex(i)].term != conflictTerm {
          break;
        }
        first := first - 1;
        i := i - 1;
      }
    }

    /** The source looks for a short log again after a conflict; the early return has already covered that case. */
    method AppendEntries(args: AppendEntriesArgs) returns (reply: AppendEntriesReply)
      requires Valid()
      modifies this
      ensures Valid() && View() == AfterAppendEntriesTrimmed(old(View()), args)
      ensures reply == AppendEntriesAnswerTrimmed(old(View()), args)
    {
      var conflictTerm, conflictFirstIndex := 0, 0;
      if currentTerm <= args.term {
        CatchUp(args.term);
        if lastIncludedIndex > args.prevLogIndex {
          return AppendEntriesReply(0, 0, lastIncludedIndex + 1, false);
        }
        if GetLastLogIndex() < args.prevLogIndex {
          return AppendEntriesReply(0, 0, GetLastLogIndex() + 1, false);
        }
        if AddSnapshotIndex(|log|) > args.prevLogIndex &&
           log[SubSnapshotIndex(args.prevLogIndex)].term == args.prevLogTerm {
          Accept(args);
          return AppendEntriesReply(currentTerm, 0, 0, true);
        }
        conflictTerm := log[SubSnapshotIndex(args.prevLogIndex)].term;
        conflictFirstIndex := FirstOfTerm(args.prevLogIndex);
      }
      return AppendEntriesReply(currentTerm, conflictTerm, conflictFirstIndex, false);
    }

    /** Start returns the absolute index of the new entry. */
    method Start(command: Command) returns (index: int, term: nat, isLeader: bool)
      requires Valid()
      modifies this
      ensures Valid() && View() == AfterStartTrimmed(old(View()), command)
      ensures isLeader == (role == Leader) && term == currentTerm
      ensures index == if isLeader then old(|log|) + lastIncludedIndex else -1
    {
      index, term, isLeader := -1, currentTerm, role == Leader;
      if isLeader {
        index := |log| + lastIncludedIndex;
        log := log + [Entry(command, currentTerm)];
        Persist();
      }
    }

    /** The service has saved its data up to an index that it has applied: forget the log before it. */
    method TakeSnapshot(index: nat, term: nat, data: string)
      requires Valid() && index <= GetLastLogIndex()
      modifies this
      ensures Valid() && View() == AfterTakeSnapshot(old(View()), index, term, data)
    {
      if index <= lastIncludedIndex {
        return;
      }
      log := log[SubSnapshotIndex(index)..];
      lastIncludedIndex := index;
      lastIncludedTerm := term;
      snapshot := Snapshot(index, term, data);
      Persist();
    }

    /** Keep what the local log has from the cut on, or only a placeholder. */
    method CutLog(args: InstallSnapshotArgs)
      requires Valid() && args.lastIncludedIndex > lastIncludedIndex
      modifies this`log
      ensures Valid() && log == InstalledLog(old(log), lastIncludedIndex, args)
    {
      if args.lastIncludedIndex <= GetLastLogIndex() {
        log := log[SubSnapshotIndex(args.lastIncludedIndex)..];
      } else {
        log := [Entry(NoCommand, args.lastIncludedTerm)];
      }
    }

    /** The reply carries the term from before the call. */
    method InstallSnapshot(args: InstallSnapshotArgs) returns (term: nat)
      requires Valid()
      modifies this
      ensures Valid() && View() == AfterInstallSnapshot(old(View()), args)
      ensures term == old(currentTerm)
    {
      hide InstalledLog;
      term := currentTerm;
      if args.term < currentTerm || args.lastIncludedIndex <= lastIncludedIndex {
        return;
      }
      currentTerm := args.term;
      role := Follower;
      voteFor := args.leaderId;
      CutLog(args);
      lastIncludedIndex := args.lastIncludedIndex;
      lastIncludedTerm := args.lastIncludedTerm;
      lastApplied := Max(lastIncludedIndex, lastApplied);
      commitIndex := Max(lastIncludedIndex, commitIndex);
      snapshot := args.data;
      Persist();
    }
  }
}
