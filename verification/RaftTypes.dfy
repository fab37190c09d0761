/** The data that Raft peers keep, persist and exchange. */
module RaftTypes {

  /** The command of a log entry. The source stores any Go value there. */
  datatype Command = NoCommand | Command(payload: string)

  datatype Entry = Entry(command: Command, term: nat)

  /** Slot 0 of every log: it holds no command, so the first real index is 1. */
  const PLACEHOLDER := Entry(NoCommand, 0)

  datatype Role = Follower | Candidate | Leader

  /** What persist() writes and readPersist() restores. */
  datatype Persistent = Persistent(currentTerm: nat, voteFor: int, log: seq<Entry>)

  datatype RequestVoteArgs = RequestVoteArgs(term: nat, candidateId: nat, lastLogIndex: nat, lastLogTerm: nat)

  datatype RequestVoteReply = RequestVoteReply(term: nat, voteGranted: bool)

  datatype AppendEntriesArgs = AppendEntriesArgs(
    term: nat, leaderId: nat, prevLogIndex: nat, prevLogTerm: nat, entries: seq<Entry>, leaderCommit: nat)
  {
    /** The index of the last entry that the message vouches for. */
    function LastIndex(): nat {
      prevLogIndex + |entries|
    }
  }

  datatype AppendEntriesReply = AppendEntriesReply(
    term: nat, conflictTerm: nat, conflictFirstIndex: nat, success: bool)

  datatype ApplyMsg = ApplyMsg(command: Command, index: nat)

  /**
    * The goroutine of one election: the votes counted so far and the peers whose call has not returned.
    * A call returns once, so a peer leaves `awaiting` for good when its reply is handled.
    */
  datatype Ballot = Ballot(term: nat, votes: nat, awaiting: set<nat>)

  /**
    * One broadcast: the captured arguments, the shared counter and flag, the peers about to be sent a
    * (re)try, and the arguments of the calls that have not returned.
    */
  datatype Broadcast = Broadcast(
    term: nat, index: nat, leaderCommit: nat, replicas: nat, agreed: bool,
    todo: set<nat>, inflight: map<nat, AppendEntriesArgs>)

  /** One peer. `disk` is what the persister holds; `applied` is what went to applyCh since the last start. */
  datatype Node = Node(
    currentTerm: nat, voteFor: int, log: seq<Entry>,
    disk: Persistent,
    role: Role, leaderId: int, commitIndex: nat, lastApplied: nat,
    nextIndex: seq<nat>, matchIndex: seq<nat>,
    ballot: Ballot, broadcasts: seq<Broadcast>, applied: seq<ApplyMsg>)

  function LastTerm(log: seq<Entry>): nat
    requires |log| > 0
  {
    log[|log| - 1].term
  }

  function Max(a: nat, b: nat): nat {
    if a >= b then a else b
  }

  /** Strictly more than half: len(peers)/2 + 1. */
  function Majority(n: nat): nat {
    n / 2 + 1
  }

  /** The servers 0, 1, .., n - 1. */
  function Servers(n: nat): (s: set<nat>)
    ensures forall p: nat :: p in s <==> p < n
    ensures |s| == n
  {
    if n == 0 then {} else Servers(n - 1) + {n - 1}
  }

  function Others(n: nat, me: nat): set<nat> {
    Servers(n) - {me}
  }
}
