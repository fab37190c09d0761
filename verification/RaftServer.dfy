/**
  * A Raft peer as an object, one method per critical section. Each method changes the fields in the order the
  * source does and is proved to compute the step of RaftHandlers that RaftCluster.dfy builds runs from.
  */
module RaftServer {
  import opened RaftTypes
  import opened RaftHandlers

  datatype Option<T> = None | Some(value: T)

  class Raft {
    const me: nat
    const n: nat                      // len(peers)
    const nextIndex: array<nat>
    const matchIndex: array<nat>

    var currentTerm: nat
    var voteFor: int
    var log: seq<Entry>
    var disk: Persistent              // what the persister holds
    var role: Role
    var leaderId: int
    var commitIndex: nat
    var lastApplied: nat
    var ballot: Ballot                // the variables of the goroutines started by startElection
    var broadcasts: seq<Broadcast>    // and of those started by broadcastAppendEntries
    var applied: seq<ApplyMsg>        // what was sent to applyCh

    ghost predicate Valid()
      reads this
    {
      && nextIndex.Length == n && matchIndex.Length == n && nextIndex != matchIndex
      && |log| > 0
    }

    /** The peer as a value. */
    ghost function View(): Node
      reads this, nextIndex, matchIndex
    {
      Node(currentTerm, voteFor, log, disk, role, leaderId, commitIndex, lastApplied,
           nextIndex[..], matchIndex[..], ballot, broadcasts, applied)
    }

    /** Make: start as a follower of term 0, then restore what was persisted, if anything. */
    constructor (me: nat, n: nat, saved: Option<Persistent>)
      requires saved.Some? ==> |saved.value.log| > 0
      ensures Valid() && fresh(nextIndex) && fresh(matchIndex) && this.me == me && this.n == n
      ensures View() == Booted(if saved.Some? then saved.value else BLANK_DISK, n)
    {
      this.me, this.n := me, n;
      nextIndex := new nat[n](_ => 0);
      matchIndex := new nat[n](_ => 0);
      role, leaderId, commitIndex, lastApplied := Follower, -1, 0, 0;
      currentTerm, voteFor, log := 0, -1, [PLACEHOLDER];
      disk := BLANK_DISK;
      ballot, broadcasts, applied := Ballot(0, 0, {}), [], [];
      if saved.Some? {
        disk := saved.value;
        currentTerm, voteFor, log := saved.value.currentTerm, saved.value.voteFor, saved.value.log;
      }
      new;
      assert nextIndex[..] == seq(n, _ => 0) && matchIndex[..] == seq(n, _ => 0);
    }

    method Persist()
      modifies this`disk
      ensures disk == Persistent(currentTerm, voteFor, log)
    {
      disk := Persistent(currentTerm, voteFor, log);
    }

    method StepDown(term: nat)
      modifies this
      ensures View() == SteppedDown(old(View()), term)
    {
      currentTerm := term;
      voteFor := -1;
      role := Follower;
      Persist();
    }

    method RequestVote(args: RequestVoteArgs) returns (reply: RequestVoteReply)
      requires Valid()
      modifies this
      ensures Valid() && View() == AfterRequestVote(old(View()), args)
      ensures reply == RequestVoteAnswer(old(View()), args)
    {
      if currentTerm <= args.term {
        if currentTerm < args.term {
          StepDown(args.term);
        }
        if voteFor == -1 || voteFor == args.candidateId {
          var lastLogIndex := |log| - 1;
          var lastLogTerm := log[lastLogIndex].term;
          if lastLogTerm < args.lastLogTerm ||
             (lastLogTerm == args.lastLogTerm && lastLogIndex <= args.lastLogIndex) {
            voteFor := args.candidateId;
            role := Follower;
            Persist();
            return RequestVoteReply(currentTerm, true);
          }
        }
      }
      return RequestVoteReply(currentTerm, false);
    }

    /** The scan that decides whether anything has to be overwritten. */
    method HasAllEntries(args: AppendEntriesArgs) returns (isMatch: bool)
      ensures isMatch == HasAll(log, args)
    {
      isMatch := true;
      var nextIndex := args.prevLogIndex + 1;
      var end := |log| - 1;
      var i := 0;
      while isMatch && i < |args.entries|
        invariant 0 <= i <= |args.entries|
        invariant isMatch ==> HasAllAt(log, nextIndex, args.entries[..i])
        invariant !isMatch ==> !HasAll(log, args)
        decreases |args.entries| - i, isMatch
      {
        ghost var entry := args.entries[i];
        assert HasAll(log, args) ==> nextIndex + i < |log| && log[nextIndex + i].term == entry.term;
        if end < nextIndex + i {
          isMatch := false;
        } else if log[nextIndex + i].term != args.entries[i].term {
          isMatch := false;
        } else {
          assert args.entries[..i + 1] == args.entries[..i] + [args.entries[i]];
          i := i + 1;
        }
      }
      assert args.entries[..|args.entries|] == args.entries;
    }

    /** The scan for the first index of the conflicting term. */
    method FirstOfTerm(index: nat) returns (first: nat)
      requires index < |log|
      ensures first == RunStart(log, index)
    {
      first := index;
      var i := first - 1;
      while i >= 0
        invariant -1 <= i && first == i + 1 <= index && log[first].term == log[index].term
        invariant RunStart(log, index) == RunStart(log, first)
      {
        if log[i].term != log[index].term {
          break;
        }
        first := first - 1;
        i := i - 1;
      }
    }

    /** Overwrite from prevLogIndex + 1 on, unless every entry is there already. */
    method MergeEntries(args: AppendEntriesArgs)
      requires Consistent(log, args)
      modifies this`log
      ensures log == MergedLog(old(log), args)
    {
      var isMatch := HasAllEntries(args);
      if !isMatch {
        log := log[..args.prevLogIndex + 1] + args.entries;
      }
    }

    method AdvanceCommitIndex(args: AppendEntriesArgs)
      modifies this`commitIndex
      ensures commitIndex == AdvancedCommit(old(commitIndex), args)
    {
      var indexOfLastNewEntry := args.prevLogIndex + |args.entries|;
      if args.leaderCommit > commitIndex {
        commitIndex := args.leaderCommit;
        if commitIndex > indexOfLastNewEntry {
          commitIndex := indexOfLastNewEntry;
        }
      }
    }

    /** The consistency check passed in the current term. */
    method Accept(args: AppendEntriesArgs)
      requires Valid() && currentTerm == args.term && Consistent(log, args)
      modifies this
      ensures Valid() && View() == AfterAppendEntries(old(View()), args)
    {
      hide HasAll, AdvancedCommit;
      role := Follower;
      MergeEntries(args);
      AdvanceCommitIndex(args);
      leaderId := args.leaderId;
      Persist();
    }

    /** Where the log conflicts: the term there, or 0 for a short log, and the index to fall back to. */
    method FindConflict(prevLogIndex: nat) returns (conflictTerm: nat, conflictFirstIndex: nat)
      ensures (conflictTerm, conflictFirstIndex) == Conflict(log, prevLogIndex)
    {
      if |log| < prevLogIndex + 1 {
        conflictTerm, conflictFirstIndex := 0, |log|;
      } else {
        conflictTerm := log[prevLogIndex].term;
        conflictFirstIndex := FirstOfTerm(prevLogIndex);
      }
    }

    method AppendEntries(args: AppendEntriesArgs) returns (reply: AppendEntriesReply)
      requires Valid()
      modifies this
      ensures Valid() && View() == AfterAppendEntries(old(View()), args)
      ensures reply == AppendEntriesAnswer(old(View()), args)
    {
      var conflictTerm, conflictFirstIndex := 0, 0;
      if currentTerm <= args.term {
        if currentTerm < args.term {
          StepDown(args.term);
        }
        if |log| > args.prevLogIndex && log[args.prevLogIndex].term == args.prevLogTerm {
          Accept(args);
          return AppendEntriesReply(currentTerm, 0, 0, true);
        }
        conflictTerm, conflictFirstIndex := FindConflict(args.prevLogIndex);
      }
      return AppendEntriesReply(currentTerm, conflictTerm, conflictFirstIndex, false);
    }

    method StandForElection()
      requires Valid()
      modifies this
      ensures Valid() && View() == AfterStartElection(old(View()), me, n)
    {
      hide Servers, Others;
      role := Candidate;
      currentTerm := currentTerm + 1;
      voteFor := me;
      ballot := Ballot(currentTerm, 1, Others(n, me));
      Persist();
    }

    /** Returns the arguments sent to every other peer. */
    method StartElection() returns (request: RequestVoteArgs)
      requires Valid()
      modifies this
      ensures Valid() && View() == AfterStartElection(old(View()), me, n)
      ensures request == VoteRequest(View(), me)
    {
      hide AfterStartElection;
      StandForElection();
      request := RequestVoteArgs(currentTerm, me, |log| - 1, log[|log| - 1].term);
    }

    method InitLeaderState(next: nat)
      requires Valid()
      modifies nextIndex, matchIndex
      ensures nextIndex[..] == seq(n, _ => next) && matchIndex[..] == seq(n, _ => 0)
    {
      for i := 0 to n
        invariant forall p :: 0 <= p < i ==> nextIndex[p] == next && matchIndex[p] == 0
      {
        nextIndex[i] := next;
        matchIndex[i] := 0;
      }
    }

    method HandleVoteReply(from: nat, args: RequestVoteArgs, reply: RequestVoteReply)
      requires Valid()
      modifies this, nextIndex, matchIndex
      ensures Valid() && View() == AfterVoteReply(old(View()), me, n, from, args, reply)
    {
      if currentTerm != args.term {
        return;
      }
      ballot := ballot.(awaiting := ballot.awaiting - {from});
      if !reply.voteGranted {
        if currentTerm < reply.term {
          StepDown(reply.term);
        }
      } else {
        ballot := ballot.(votes := ballot.votes + 1);
        if role == Candidate && ballot.votes >= n / 2 + 1 {
          role := Leader;
          leaderId := me;
          InitLeaderState(|log|);
          assert nextIndex[..] == seq(n, _ => |old(View()).log|);
        }
      }
    }

    method LaunchBroadcast()
      requires Valid()
      modifies this`broadcasts
      ensures broadcasts == old(broadcasts) + [NewBroadcast(old(View()), me, n)]
    {
      broadcasts := broadcasts + [Broadcast(currentTerm, |log| - 1, commitIndex, 1, false, Others(n, me), map[])];
    }

    /** Returns the index of the new entry, the term, and whether this peer leads; -1 and no entry if it does not. */
    method Start(command: Command) returns (index: int, term: nat, isLeader: bool)
      requires Valid()
      modifies this
      ensures Valid() && View() == AfterStart(old(View()), me, n, command)
      ensures isLeader == (old(role) == Leader) && term == currentTerm
      ensures if isLeader then 0 <= index < |log| && index == old(|log|) && log[index] == Entry(command, term) else index == -1
    {
      index, term, isLeader := -1, currentTerm, role == Leader;
      if isLeader {
        log := log + [Entry(command, currentTerm)];
        index := |log| - 1;
        Persist();
        LaunchBroadcast();
      }
    }

    method BroadcastHeartbeat()
      requires Valid()
      modifies this
      ensures Valid() && View() == AfterHeartbeat(old(View()), me, n)
    {
      if role == Leader {
        LaunchBroadcast();
      }
    }

    /** One turn at the label `retry`: build and send a request, or give up when no longer leading. */
    method SendAppend(b: nat, peer: nat) returns (request: Option<AppendEntriesArgs>)
      requires Valid() && b < |broadcasts| && peer < n
      requires StillLeads(View(), b) ==> 1 <= nextIndex[peer] <= |log| && broadcasts[b].index < |log|
      modifies this
      ensures Valid() && View() == AfterSend(old(View()), me, b, peer)
      ensures request == if old(StillLeads(View(), b))
                         then Some(AppendRequest(old(View()), me, old(broadcasts)[b], peer)) else None
    {
      var bc := broadcasts[b];
      request := None;
      var inflight := bc.inflight;
      if role == Leader && currentTerm == bc.term {
        var next := nextIndex[peer];
        var prevLogIndex := next - 1;
        var prevLogTerm := log[prevLogIndex].term;
        var entries := [];
        if next < bc.index + 1 {
          entries := log[next..bc.index + 1];
        }
        var args := AppendEntriesArgs(bc.term, me, prevLogIndex, prevLogTerm, entries, bc.leaderCommit);
        inflight := inflight[peer := args];
        request := Some(args);
      }
      broadcasts := broadcasts[b := bc.(todo := bc.todo - {peer}, inflight := inflight)];
    }

    method GetNextIndex(reply: AppendEntriesReply, nextIndex: nat) returns (next: nat)
      requires BackupInBounds(log, reply, nextIndex)
      ensures next == NextIndexAfter(log, reply, nextIndex)
    {
      if reply.conflictTerm == 0 {
        next := reply.conflictFirstIndex;
      } else {
        var conflictIndex := reply.conflictFirstIndex;
        var conflictTerm := log[conflictIndex].term;
        if conflictTerm >= reply.conflictTerm {
          var i := conflictIndex;
          while i > 0
            invariant i == conflictIndex <= reply.conflictFirstIndex
            invariant LastAtOrBelow(log, reply.conflictTerm, reply.conflictFirstIndex) ==
                      LastAtOrBelow(log, reply.conflictTerm, i)
          {
            if log[i].term == reply.conflictTerm {
              break;
            }
            conflictIndex := conflictIndex - 1;
            i := i - 1;
          }
          if conflictIndex != 0 {
            ghost var found := conflictIndex;
            i := conflictIndex + 1;
            while i < nextIndex
              invariant found <= conflictIndex < nextIndex && i == conflictIndex + 1
              invariant RunEnd(log, reply.conflictTerm, found, nextIndex) ==
                        RunEnd(log, reply.conflictTerm, conflictIndex, nextIndex)
            {
              if log[i].term != reply.conflictTerm {
                break;
              }
              conflictIndex := conflictIndex + 1;
              i := i + 1;
            }
            next := conflictIndex + 1;
          } else {
            next := reply.conflictFirstIndex;
          }
        } else {
          next := reply.conflictFirstIndex;
        }
      }
    }

    /** A rejection: move nextIndex back and go to `retry`. */
    method BackOff(b: nat, peer: nat, args: AppendEntriesArgs, reply: AppendEntriesReply)
      requires Valid() && b < |broadcasts| && peer < n && BackupInBounds(log, reply, args.prevLogIndex + 1)
      modifies this`broadcasts, nextIndex
      ensures Valid()
      ensures View() == old(View()).(nextIndex := old(nextIndex[..])[peer := NextIndexAfter(log, reply, args.prevLogIndex + 1)],
                                     broadcasts := old(broadcasts)[b := Returned(old(broadcasts)[b], peer, true)])
    {
      var bc := broadcasts[b];
      var next := GetNextIndex(reply, args.prevLogIndex + 1);
      nextIndex[peer] := next;
      broadcasts := broadcasts[b := bc.(todo := bc.todo + {peer}, inflight := bc.inflight - {peer})];
      assert nextIndex[..] == old(nextIndex[..])[peer := next];
    }

    /** A success: count it, and commit when it completes a majority for an entry of this term. */
    method CountReplica(b: nat, peer: nat)
      requires Valid() && b < |broadcasts| && peer < n && broadcasts[b].index < |log|
      modifies this, nextIndex, matchIndex
      ensures Valid() && View() == AfterAccepted(old(View()), n, b, peer)
    {
      var bc := broadcasts[b];
      if nextIndex[peer] < bc.index + 1 {
        nextIndex[peer] := bc.index + 1;
        matchIndex[peer] := bc.index;
        assert nextIndex[..] == old(nextIndex[..])[peer := bc.index + 1];
        assert matchIndex[..] == old(matchIndex[..])[peer := bc.index];
      }
      var counted := bc.(replicas := bc.replicas + 1, inflight := bc.inflight - {peer});
      if !bc.agreed && role == Leader && counted.replicas >= n / 2 + 1 {
        counted := counted.(agreed := true);
        if commitIndex < bc.index && log[bc.index].term == currentTerm {
          commitIndex := bc.index;
        }
      }
      broadcasts := broadcasts[b := counted];
    }

    method HandleAppendReply(b: nat, peer: nat, args: AppendEntriesArgs, reply: AppendEntriesReply)
      requires Valid() && AppendReplyInBounds(View(), b, peer, args, reply)
      modifies this, nextIndex, matchIndex
      ensures Valid() && View() == AfterAppendReply(old(View()), n, b, peer, args, reply)
    {
      if currentTerm == args.term && reply.success {
        CountReplica(b, peer);
      } else if currentTerm == args.term && reply.term <= args.term {
        BackOff(b, peer, args, reply);
      } else {
        var bc := broadcasts[b];
        broadcasts := broadcasts[b := bc.(inflight := bc.inflight - {peer})];
        if currentTerm == args.term {
          StepDown(reply.term);
        }
      }
    }

    /** The apply loop, from lastApplied + 1 up to the commit index. */
    method ApplyEntries()
      requires Valid() && lastApplied <= commitIndex < |log|
      modifies this`lastApplied, this`applied
      ensures Valid() && lastApplied == commitIndex
      ensures View() == Applications(old(View()), commitIndex - old(lastApplied))
    {
      while lastApplied < commitIndex
        invariant old(lastApplied) <= lastApplied <= commitIndex
        invariant View() == Applications(old(View()), lastApplied - old(lastApplied))
      {
        lastApplied := lastApplied + 1;
        applied := applied + [ApplyMsg(log[lastApplied].command, lastApplied)];
      }
    }
  }

  /** k turns of the apply loop. */
  function Applications(nd: Node, k: nat): (nd': Node)
    requires nd.commitIndex < |nd.log|
    ensures nd'.log == nd.log && nd'.commitIndex == nd.commitIndex
  {
    if k == 0 then nd else AfterApply(Applications(nd, k - 1))
  }

  /** The loop delivers the committed entries it had not delivered yet, in index order, each once. */
  lemma {:induction false} ApplicationsDeliver(nd: Node, k: nat)
    requires nd.lastApplied + k <= nd.commitIndex < |nd.log|
    ensures var nd' := Applications(nd, k);
            && nd'.lastApplied == nd.lastApplied + k
            && |nd'.applied| == |nd.applied| + k && nd.applied <= nd'.applied
            && forall j :: |nd.applied| <= j < |nd'.applied| ==>
                 var i := nd.lastApplied + 1 + j - |nd.applied|;
                 nd'.applied[j] == ApplyMsg(nd.log[i].command, i)
  {
    if k > 0 {
      ApplicationsDeliver(nd, k - 1);
    }
  }
}
