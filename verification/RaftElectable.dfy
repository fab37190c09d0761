/**
  * Which clusters can elect a leader: those of two servers or more, and those from every reachable state. A server
  * whose last entry is greatest raises its term above all others, asks them, and wins.
  */
module RaftElectable {
  import opened RaftTypes
  import opened RaftHandlers
  import opened RaftCluster
  import opened RaftInvariant
  import opened RaftSafety
  import opened RaftCommit
  import opened RaftLaws

  // Continuing a run ---------------------------------------------------------------------------------

  /** Some run that continues `base` ends in state c. */
  ghost predicate Reaches(n: nat, base: seq<Cluster>, c: Cluster) {
    exists run :: |run| > 0 && base <= run && IsRun(n, run) && run[|run| - 1] == c
  }

  lemma Starts(n: nat, base: seq<Cluster>)
    requires IsRun(n, base)
    ensures |base| > 0 && Reaches(n, base, base[|base| - 1]) && WellFormed(base[|base| - 1]) && base[|base| - 1].n == n
  {
    RunInv(n, base, |base| - 1);
  }

  lemma ReachedInv(n: nat, base: seq<Cluster>, c: Cluster)
    requires Reaches(n, base, c)
    ensures Inv(c) && WellFormed(c) && c.n == n
  {
    hide Inv;
    var run :| |run| > 0 && base <= run && IsRun(n, run) && run[|run| - 1] == c;
    RunInv(n, run, |run| - 1);
    SameSize(c);
  }

  /** Every enabled step can be taken. */
  lemma Goes(n: nat, base: seq<Cluster>, c: Cluster, s: Step)
    requires Reaches(n, base, c) && WellFormed(c) && Enabled(c, s)
    ensures InBounds(c, s) && Reaches(n, base, Do(c, s)) && WellFormed(Do(c, s))
  {
    hide Inv, Enabled, InBounds, Do;
    var run :| |run| > 0 && base <= run && IsRun(n, run) && run[|run| - 1] == c;
    NoIndexPanics(n, run, |run| - 1, s);
    var longer := run + [Do(c, s)];
    assert Next(c, Do(c, s));
    forall k | 0 <= k < |longer| - 1 ensures Next(longer[k], longer[k + 1]) {
      if k < |run| - 1 {
        assert longer[k] == run[k] && longer[k + 1] == run[k + 1];
      }
    }
    assert IsRun(n, longer) && longer[|longer| - 1] == Do(c, s);
    ReachedInv(n, base, Do(c, s));
  }

  /** One server changes, messages are only added. */
  lemma OneChanges(c: Cluster, s: Step)
    requires WellFormed(c) && Enabled(c, s) && InBounds(c, s)
    ensures var c' := Do(c, s);
            && c'.n == c.n && c'.nodes == c.nodes[s.i := After(c, s)] && c'.net == c.net + Sent(c, s)
  {
  }

  // Standing for election ----------------------------------------------------------------------------

  function HighestTerm(nodes: seq<Node>): (term: nat)
    ensures forall p :: 0 <= p < |nodes| ==> nodes[p].currentTerm <= term
  {
    if nodes == [] then 0
    else
      assert forall p :: 0 <= p < |nodes| - 1 ==> nodes[p] == nodes[..|nodes| - 1][p];
      Max(HighestTerm(nodes[..|nodes| - 1]), nodes[|nodes| - 1].currentTerm)
  }

  /** By standing again and again server i raises its term. */
  lemma {:induction false} RaisesTerm(n: nat, base: seq<Cluster>, c: Cluster, i: nat, term: nat) returns (c': Cluster)
    requires Reaches(n, base, c) && WellFormed(c) && c.n == n && i < n
    ensures Reaches(n, base, c') && WellFormed(c') && c'.n == n
    ensures c'.nodes == c.nodes[i := c'.nodes[i]]
    ensures c'.nodes[i].log == c.nodes[i].log && c'.nodes[i].currentTerm >= term
    decreases term - c.nodes[i].currentTerm
  {
    hide Reaches, Sent, Recorded, AfterStartElection;
    if c.nodes[i].currentTerm >= term {
      c' := c;
    } else {
      Goes(n, base, c, Timeout(i));
      OneChanges(c, Timeout(i));
      StandsForElection(c.nodes[i], i, n);
      c' := RaisesTerm(n, base, Do(c, Timeout(i)), i, term);
    }
  }

  /** The servers below q that are not i. */
  function Asked(i: nat, q: nat): nat {
    if i < q then q - 1 else q
  }

  /** Server i is a candidate with the votes of the servers below q; the others have its request and will grant it. */
  ghost predicate Campaign(n: nat, c: Cluster, i: nat, term: nat, q: nat) {
    && WellFormed(c) && c.n == n && i < n
    && var nd := c.nodes[i];
    && nd.currentTerm == term && nd.role == Candidate && nd.ballot.term == term && nd.ballot.votes == 1 + Asked(i, q)
    && (forall p :: 0 <= p < n ==> c.nodes[p].currentTerm <= term)
    && (forall p: nat :: q <= p < n && p != i ==>
          && p in nd.ballot.awaiting && c.nodes[p].currentTerm < term && NotAhead(c, p, i)
          && VoteRequested(VoteRequest(nd, i), p) in c.net)
  }

  ghost predicate Led(n: nat, c: Cluster, i: nat) {
    && WellFormed(c) && c.n == n && i < n && c.nodes[i].role == Leader
    && forall p :: 0 <= p < n ==> c.nodes[p].currentTerm <= c.nodes[i].currentTerm
  }

  lemma CampaignStarts(n: nat, base: seq<Cluster>, c: Cluster, i: nat) returns (c': Cluster)
    requires Reaches(n, base, c) && WellFormed(c) && c.n == n && i < n
    requires forall p :: 0 <= p < n ==> NotAhead(c, p, i)
    requires forall p :: 0 <= p < n && p != i ==> c.nodes[p].currentTerm <= c.nodes[i].currentTerm
    ensures Reaches(n, base, c') && Campaign(n, c', i, c.nodes[i].currentTerm + 1, 0)
  {
    hide Reaches, Recorded, AfterStartElection;
    var s := Timeout(i);
    Goes(n, base, c, s);
    OneChanges(c, s);
    StandsForElection(c.nodes[i], i, n);
    c' := Do(c, s);
    forall p: nat | p < n && p != i
      ensures VoteRequested(VoteRequest(c'.nodes[i], i), p) in c'.net && NotAhead(c', p, i)
    {
      assert p in Others(n, i) && NotAhead(c, p, i);
    }
  }

  /** The next server grants its vote. */
  lemma Grants(n: nat, base: seq<Cluster>, c: Cluster, i: nat, term: nat, q: nat) returns (c': Cluster, reply: RequestVoteReply)
    requires Reaches(n, base, c) && Campaign(n, c, i, term, q) && q < n && q != i
    ensures Reaches(n, base, c') && WellFormed(c') && c'.n == n && c.net <= c'.net
    ensures c'.nodes == c.nodes[q := c'.nodes[q]] && c'.nodes[q].currentTerm == term
    ensures reply.voteGranted && VoteAnswered(VoteRequest(c.nodes[i], i), q, reply) in c'.net
  {
    hide Reaches, Recorded, AfterRequestVote, RequestVoteAnswer;
    var args := VoteRequest(c.nodes[i], i);
    var s := HandleVoteRequest(q, args);
    assert NotAhead(c, q, i);
    Goes(n, base, c, s);
    OneChanges(c, s);
    VoteGrantedIff(c.nodes[q], args);
    VoteRequestChanges(c.nodes[q], args);
    c', reply := Do(c, s), RequestVoteAnswer(c.nodes[q], args);
  }

  /** The peers that have not been asked are as they were. */
  lemma StillCampaign(n: nat, c: Cluster, c1: Cluster, i: nat, term: nat, q: nat, c': Cluster)
    requires Campaign(n, c, i, term, q) && q < n && q != i && WellFormed(c') && c'.n == n && |c1.nodes| == n
    requires c1.nodes == c.nodes[q := c1.nodes[q]] && c1.nodes[q].currentTerm == term && c.net <= c'.net
    requires c'.nodes == c1.nodes[i := c'.nodes[i]]
    requires var nd, nd' := c.nodes[i], c'.nodes[i];
             nd' == nd.(ballot := nd.ballot.(votes := nd.ballot.votes + 1, awaiting := nd.ballot.awaiting - {q}))
    ensures Campaign(n, c', i, term, q + 1)
  {
    hide Asked;
    assert Asked(i, q + 1) == Asked(i, q) + 1 by {
      AskedNext(i, q);
    }
    forall p: nat | q < p < n && p != i
      ensures p in c'.nodes[i].ballot.awaiting && NotAhead(c', p, i) && c'.nodes[p].currentTerm < term
      ensures VoteRequested(VoteRequest(c'.nodes[i], i), p) in c'.net
    {
      assert NotAhead(c, p, i) && VoteRequested(VoteRequest(c.nodes[i], i), p) in c.net;
    }
  }

  lemma AskedNext(i: nat, q: nat)
    requires q != i
    ensures Asked(i, q + 1) == Asked(i, q) + 1
  {
  }

  lemma TermsBelow(n: nat, c: Cluster, i: nat, term: nat, q: nat)
    requires Campaign(n, c, i, term, q)
    ensures forall p :: 0 <= p < n ==> c.nodes[p].currentTerm <= term
    ensures c.nodes[i].currentTerm == term && c.nodes[i].ballot.term == term && c.nodes[i].role == Candidate
    ensures q < n && q != i ==> q in c.nodes[i].ballot.awaiting
  {
    hide NotAhead;
  }

  /** A granted vote is counted. */
  lemma CountsVote(n: nat, base: seq<Cluster>, c: Cluster, i: nat, q: nat, args: RequestVoteArgs, reply: RequestVoteReply)
    returns (c': Cluster)
    requires Reaches(n, base, c) && WellFormed(c) && c.n == n && i < n && args.candidateId == i
    requires var nd := c.nodes[i];
             nd.role == Candidate && nd.currentTerm == nd.ballot.term == args.term && q in nd.ballot.awaiting
    requires VoteAnswered(args, q, reply) in c.net && reply.voteGranted
    ensures Reaches(n, base, c') && WellFormed(c') && c'.n == n && c.net <= c'.net
    ensures c'.nodes == c.nodes[i := c'.nodes[i]] && c'.nodes[i].currentTerm == c.nodes[i].currentTerm
    ensures var nd := c.nodes[i];
            || c'.nodes[i].role == Leader
            || c'.nodes[i] == nd.(ballot := nd.ballot.(votes := nd.ballot.votes + 1, awaiting := nd.ballot.awaiting - {q}))
  {
    hide Reaches, Recorded, AfterVoteReply;
    var s := HandleVoteReply(i, q, args, reply);
    Goes(n, base, c, s);
    OneChanges(c, s);
    VoteCounted(c.nodes[i], i, n, q, args, reply);
    c' := Do(c, s);
  }

  /** The next server is asked, and its vote decides the election or not. */
  lemma AsksOne(n: nat, base: seq<Cluster>, c: Cluster, i: nat, term: nat, q: nat) returns (c': Cluster)
    requires Reaches(n, base, c) && Campaign(n, c, i, term, q) && q < n
    ensures Reaches(n, base, c') && (Led(n, c', i) || Campaign(n, c', i, term, q + 1))
  {
    if q == i {
      c' := c;
    } else {
      hide Reaches, Campaign;
      InCampaign(n, c, i, term, q);
      TermsBelow(n, c, i, term, q);
      var c1, reply := Grants(n, base, c, i, term, q);
      c' := CountsVote(n, base, c1, i, q, VoteRequest(c.nodes[i], i), reply);
      if c'.nodes[i].role != Leader {
        StillCampaign(n, c, c1, i, term, q, c');
      }
    }
  }

  lemma InCampaign(n: nat, c: Cluster, i: nat, term: nat, q: nat)
    requires Campaign(n, c, i, term, q)
    ensures WellFormed(c) && c.n == n && i < n
  {
  }

  /** A candidate has not counted a majority. */
  lemma CandidateLacks(n: nat, base: seq<Cluster>, c: Cluster, i: nat)
    requires Reaches(n, base, c) && n >= 2 && i < n
    ensures |c.nodes| == n && (c.nodes[i].role == Candidate ==> c.nodes[i].ballot.votes < Majority(n))
  {
    hide IsRun;
    var run :| |run| > 0 && base <= run && IsRun(n, run) && run[|run| - 1] == c;
    MajorityIsElected(n, run, |run| - 1, i);
  }

  lemma {:induction false} AsksAll(n: nat, base: seq<Cluster>, c: Cluster, i: nat, term: nat, q: nat) returns (c': Cluster)
    requires Reaches(n, base, c) && Campaign(n, c, i, term, q) && q <= n && n >= 2
    ensures Reaches(n, base, c') && Led(n, c', i)
    decreases n - q
  {
    hide Reaches, Led;
    if q == n {
      CandidateLacks(n, base, c, i);
      assert false;
    } else {
      c' := AsksOne(n, base, c, i, term, q);
      if !Led(n, c', i) {
        c' := AsksAll(n, base, c', i, term, q + 1);
      }
    }
  }

  lemma Greatest(n: nat, c: Cluster) returns (i: nat)
    requires WellFormed(c) && c.n == n >= 1
    ensures i < n && forall p :: 0 <= p < n ==> NotAhead(c, p, i)
  {
    hide NotAhead;
    assert 0 in Servers(n);
    i := GreatestExists(c, Servers(n));
    forall p | 0 <= p < n ensures NotAhead(c, p, i) {
      assert p in Servers(n);
    }
  }

  lemma StillGreatest(n: nat, c: Cluster, c': Cluster, i: nat)
    requires WellFormed(c) && WellFormed(c') && c.n == c'.n == n && i < n
    requires c'.nodes == c.nodes[i := c'.nodes[i]] && c'.nodes[i].log == c.nodes[i].log
    requires forall p :: 0 <= p < n ==> NotAhead(c, p, i)
    ensures forall p :: 0 <= p < n ==> NotAhead(c', p, i)
  {
    forall p | 0 <= p < n ensures NotAhead(c', p, i) {
      assert NotAhead(c, p, i);
    }
  }

  /** From every reachable state of two servers or more one that has the greatest last entry can become the leader. */
  lemma CanElect(n: nat, base: seq<Cluster>) returns (i: nat, c: Cluster)
    requires IsRun(n, base) && n >= 2
    ensures Reaches(n, base, c) && Led(n, c, i)
  {
    hide Reaches, Campaign, IsRun;
    Starts(n, base);
    var c0 := base[|base| - 1];
    i := Greatest(n, c0);
    var c1 := RaisesTerm(n, base, c0, i, HighestTerm(c0.nodes));
    StillGreatest(n, c0, c1, i);
    var c2 := CampaignStarts(n, base, c1, i);
    c := AsksAll(n, base, c2, i, c1.nodes[i].currentTerm + 1, 0);
  }

  // The condition ------------------------------------------------------------------------------------

  ghost predicate HasLeader(c: Cluster) {
    exists i :: 0 <= i < |c.nodes| && c.nodes[i].role == Leader
  }

  /** From any reachable state of n servers a leader can be elected, or there is one, exactly if n >= 2. */
  lemma LeaderAlwaysPossibleIff(n: nat, base: seq<Cluster>)
    requires IsRun(n, base)
    ensures (exists c :: Reaches(n, base, c) && HasLeader(c)) <==> n >= 2
  {
    hide IsRun;
    if c :| Reaches(n, base, c) && HasLeader(c) {
      var run :| |run| > 0 && base <= run && IsRun(n, run) && run[|run| - 1] == c;
      LeaderNeedsTwo(n, run);
    }
    if n >= 2 {
      var i, c := CanElect(n, base);
      assert HasLeader(c);
    }
  }

  lemma LeaderNeedsTwo(n: nat, run: seq<Cluster>)
    requires |run| > 0 && IsRun(n, run) && HasLeader(run[|run| - 1])
    ensures n >= 2
  {
    hide IsRun, Inv, CountInv;
    RunInv(n, run, |run| - 1);
    var c := run[|run| - 1];
    SameSize(c);
    var i: nat :| 0 <= i < |c.nodes| && c.nodes[i].role == Leader;
    RunCounts(n, run, |run| - 1, i);
    LeaderIsNotAlone(n, i, c.nodes[i]);
  }

  lemma LeaderIsNotAlone(n: nat, i: nat, nd: Node)
    requires CountInv(n, i, nd) && nd.role == Leader
    ensures n >= 2
  {
  }

  /** Some run of n servers elects a leader exactly when there are two servers or more. */
  lemma LeaderPossibleIff(n: nat)
    ensures (exists run :: |run| > 0 && IsRun(n, run) && HasLeader(run[|run| - 1])) <==> n >= 2
  {
    FirstState(n);
    hide IsRun, HasLeader;
    LeaderAlwaysPossibleIff(n, [Initial(n)]);
    if run :| |run| > 0 && IsRun(n, run) && HasLeader(run[|run| - 1]) {
      LeaderNeedsTwo(n, run);
    }
  }

  lemma FirstState(n: nat)
    ensures IsRun(n, [Initial(n)])
  {
  }
}
