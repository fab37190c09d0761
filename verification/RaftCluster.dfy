/**
  * A cluster of peers as a transition system. Every step of RaftHandlers may fire at any time, for any server;
  * the network is a growing set of messages, so messages can be lost, delayed, reordered and redelivered.
  * `History` only records what happened: no step reads it.
  */
module RaftCluster {
  import opened RaftTypes
  import opened RaftHandlers

  datatype Message =
    | VoteRequested(voteArgs: RequestVoteArgs, dst: nat)
    | VoteAnswered(voteArgs: RequestVoteArgs, from: nat, voteReply: RequestVoteReply)
    | AppendRequested(args: AppendEntriesArgs, dst: nat)
    | AppendAnswered(args: AppendEntriesArgs, from: nat, reply: AppendEntriesReply)

  /** A vote: for whom, and the voter's log when it was cast. */
  datatype Vote = Vote(candidate: nat, log: seq<Entry>)

  /** A term's leader, its log so far in that term, and the servers whose votes elected it. */
  datatype Leadership = Leadership(server: nat, log: seq<Entry>, electors: set<nat>)

  datatype History = History(
    candidacies: map<(nat, nat), seq<Entry>>,  // (server, term) -> its log when it stood for election
    votes: map<(nat, nat), Vote>,              // (voter, term) -> the first vote cast
    leaders: map<nat, Leadership>,             // term -> its leader
    acks: map<(nat, nat), nat>,                // (server, term) -> last index stored in agreement with that leader
    delivered: set<ApplyMsg>)                  // everything ever sent to any applyCh

  datatype Cluster = Cluster(n: nat, nodes: seq<Node>, net: set<Message>, hist: History)

  predicate WellFormed(c: Cluster) {
    && |c.nodes| == c.n
    && forall i :: 0 <= i < c.n ==>
         |c.nodes[i].log| > 0 && |c.nodes[i].nextIndex| == c.n && |c.nodes[i].matchIndex| == c.n
  }

  datatype Step =
    | Timeout(i: nat)
    | HandleVoteRequest(i: nat, voteArgs: RequestVoteArgs)
    | HandleVoteReply(i: nat, from: nat, voteArgs: RequestVoteArgs, voteReply: RequestVoteReply)
    | HandleAppendRequest(i: nat, args: AppendEntriesArgs)
    | HandleAppendReply(i: nat, b: nat, peer: nat, args: AppendEntriesArgs, reply: AppendEntriesReply)
    | SendAppend(i: nat, b: nat, peer: nat)
    | ClientCommand(i: nat, command: Command)
    | Heartbeat(i: nat)
    | Apply(i: nat)
    | Restart(i: nat)

  /** The step can fire: its message is in the network, its goroutine is waiting for it. */
  predicate Enabled(c: Cluster, s: Step)
    requires WellFormed(c)
  {
    && s.i < c.n
    && var nd := c.nodes[s.i];
    match s
    case HandleVoteRequest(i, args) => VoteRequested(args, i) in c.net
    case HandleVoteReply(i, from, args, reply) =>
      && VoteAnswered(args, from, reply) in c.net
      && args.candidateId == i && nd.ballot.term == args.term && from in nd.ballot.awaiting
    case HandleAppendRequest(i, args) => AppendRequested(args, i) in c.net
    case HandleAppendReply(i, b, peer, args, reply) =>
      && AppendAnswered(args, peer, reply) in c.net
      && b < |nd.broadcasts| && peer in nd.broadcasts[b].inflight && nd.broadcasts[b].inflight[peer] == args
    case SendAppend(i, b, peer) => b < |nd.broadcasts| && peer in nd.broadcasts[b].todo
    case _ => true
  }

  /** The step indexes its slices within bounds. A theorem says that enabled steps always do. */
  predicate InBounds(c: Cluster, s: Step)
    requires WellFormed(c) && Enabled(c, s)
  {
    var nd := c.nodes[s.i];
    match s
    case HandleAppendReply(i, b, peer, args, reply) => AppendReplyInBounds(nd, b, peer, args, reply)
    case SendAppend(i, b, peer) =>
      StillLeads(nd, b) ==>
        peer < c.n && 1 <= nd.nextIndex[peer] <= |nd.log| && nd.broadcasts[b].index < |nd.log|
    case Apply(i) => nd.commitIndex < |nd.log|
    case _ => true
  }

  function After(c: Cluster, s: Step): Node
    requires WellFormed(c) && Enabled(c, s) && InBounds(c, s)
  {
    var nd := c.nodes[s.i];
    match s
    case Timeout(i) => AfterStartElection(nd, i, c.n)
    case HandleVoteRequest(i, args) => AfterRequestVote(nd, args)
    case HandleVoteReply(i, from, args, reply) => AfterVoteReply(nd, i, c.n, from, args, reply)
    case HandleAppendRequest(i, args) => AfterAppendEntries(nd, args)
    case HandleAppendReply(i, b, peer, args, reply) => AfterAppendReply(nd, c.n, b, peer, args, reply)
    case SendAppend(i, b, peer) => AfterSend(nd, i, b, peer)
    case ClientCommand(i, command) => AfterStart(nd, i, c.n, command)
    case Heartbeat(i) => AfterHeartbeat(nd, i, c.n)
    case Apply(i) => AfterApply(nd)
    case Restart(i) => Booted(nd.disk, c.n)
  }

  function Sent(c: Cluster, s: Step): set<Message>
    requires WellFormed(c) && Enabled(c, s) && InBounds(c, s)
  {
    var nd := c.nodes[s.i];
    match s
    case Timeout(i) => set p | p in Others(c.n, i) :: VoteRequested(VoteRequest(After(c, s), i), p)
    case HandleVoteRequest(i, args) => {VoteAnswered(args, i, RequestVoteAnswer(nd, args))}
    case HandleAppendRequest(i, args) => {AppendAnswered(args, i, AppendEntriesAnswer(nd, args))}
    case SendAppend(i, b, peer) =>
      if StillLeads(nd, b) then {AppendRequested(AppendRequest(nd, i, nd.broadcasts[b], peer), peer)} else {}
    case _ => {}
  }

  /** The servers that voted for `i` in the term of ballot `b` and whose replies are already counted. */
  function Granted(n: nat, h: History, i: nat, b: Ballot): set<nat> {
    set v | v in Servers(n) && v !in b.awaiting && (v, b.term) in h.votes && h.votes[(v, b.term)].candidate == i
  }

  function Acknowledged(h: History, server: nat, term: nat, index: nat): History {
    var k := (server, term);
    h.(acks := h.acks[k := if k in h.acks then Max(h.acks[k], index) else index])
  }

  function Stood(h: History, i: nat, term: nat, log: seq<Entry>): History {
    h.(candidacies := h.candidacies[(i, term) := log], votes := h.votes[(i, term) := Vote(i, log)])
  }

  function Voted(h: History, i: nat, term: nat, vote: Vote): History {
    if (i, term) in h.votes then h else h.(votes := h.votes[(i, term) := vote])
  }

  function Elected(h: History, i: nat, term: nat, log: seq<Entry>, electors: set<nat>): History
    requires |log| > 0
  {
    Acknowledged(h.(leaders := h.leaders[term := Leadership(i, log, electors)]), i, term, |log| - 1)
  }

  function Extended(h: History, i: nat, term: nat, log: seq<Entry>): History
    requires |log| > 0
  {
    if term in h.leaders then
      Acknowledged(h.(leaders := h.leaders[term := h.leaders[term].(log := log)]), i, term, |log| - 1)
    else h
  }

  function Recorded(c: Cluster, s: Step): History
    requires WellFormed(c) && Enabled(c, s) && InBounds(c, s)
  {
    var nd := c.nodes[s.i];
    var nd' := After(c, s);
    var h := c.hist;
    match s
    case Timeout(i) => Stood(h, i, nd.currentTerm + 1, nd.log)
    case HandleVoteRequest(i, args) =>
      if GrantsVote(nd, args) then Voted(h, i, args.term, Vote(args.candidateId, nd.log)) else h
    case HandleVoteReply(i, from, args, reply) =>
      if nd.role != Leader && nd'.role == Leader then
        Elected(h, i, args.term, nd.log, Granted(c.n, h, i, nd'.ballot))
      else h
    case HandleAppendRequest(i, args) =>
      if Accepts(nd, args) then Acknowledged(h, i, args.term, args.LastIndex()) else h
    case ClientCommand(i, command) =>
      if nd.role == Leader then Extended(h, i, nd.currentTerm, nd'.log) else h
    case Apply(i) => h.(delivered := h.delivered + set m | m in nd'.applied)
    case _ => h
  }

  function Do(c: Cluster, s: Step): (c': Cluster)
    requires WellFormed(c) && Enabled(c, s) && InBounds(c, s)
    ensures c'.n == c.n && |c'.nodes| == |c.nodes|
  {
    Cluster(c.n, c.nodes[s.i := After(c, s)], c.net + Sent(c, s), Recorded(c, s))
  }

  ghost predicate Next(c: Cluster, c': Cluster) {
    WellFormed(c) && exists s :: Enabled(c, s) && InBounds(c, s) && c' == Do(c, s)
  }

  function Initial(n: nat): Cluster {
    Cluster(n, seq(n, _ => Booted(BLANK_DISK, n)), {}, History(map[], map[], map[], map[], {}))
  }

  /** A run: consecutive states of a cluster of n servers, from the first boot. */
  ghost predicate IsRun(n: nat, run: seq<Cluster>) {
    && |run| > 0
    && run[0] == Initial(n)
    && forall k :: 0 <= k < |run| - 1 ==> Next(run[k], run[k + 1])
  }
}
