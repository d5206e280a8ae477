/**
 * When the synchronous Raft cluster has one leader per term. Its nodes forget
 * their vote when they become leader or reconnect, and a candidate counts the same
 * voter again each time it asks; runs in which no poll meets a forgotten vote or
 * one that is counted already have one leader per term, and so matching logs.
 */
module RaftVotes {
  import opened RaftLog
  import Quorum

  datatype Vote = Vote(voter: nat, term: nat, candidate: int)

  // ---------- The vote exchange of a run ----------

  // The votes that nodes show.
  function Shown(nodes: seq<Node>): set<Vote> {
    set j | 0 <= j < |nodes| && nodes[j].votedFor != -1 :: Vote(j, nodes[j].term, nodes[j].votedFor)
  }

  // Every vote shown at some point of the run.
  function Cast(n: nat, steps: seq<Step>): set<Vote> {
    if steps == [] then {} else Cast(n, steps[..|steps| - 1]) + Shown(Exec(n, steps).nodes)
  }

  // Candidate i asks while no other active node of its term shows a vote for it
  // already or has forgotten a vote it gave in that term.
  ghost predicate FairPoll(nodes: seq<Node>, votes: set<Vote>, i: nat)
    requires i < |nodes|
  {
    forall j :: 0 <= j < |nodes| && j != i && nodes[j].active && nodes[j].term == nodes[i].term ==>
                  nodes[j].votedFor != i && (nodes[j].votedFor == -1 ==> !Voted(votes, j, nodes[i].term))
  }

  ghost predicate Voted(votes: set<Vote>, j: nat, term: nat) {
    exists v :: v in votes && v.voter == j && v.term == term
  }

  ghost predicate FairStep(nodes: seq<Node>, votes: set<Vote>, s: Step) {
    s.Poll? && Enabled(nodes, s) ==> FairPoll(nodes, votes, s.i)
  }

  ghost predicate Fair(n: nat, steps: seq<Step>) {
    steps != [] ==>
      var rest, s := steps[..|steps| - 1], steps[|steps| - 1];
      Fair(n, rest) && FairStep(Exec(n, rest).nodes, Cast(n, rest), s)
  }

  // ---------- The inductive invariant ----------

  datatype Ballot = Ballot(nodes: seq<Node>, leaders: set<(nat, nat)>, votes: set<Vote>)

  ghost function Backers(votes: set<Vote>, candidate: int, term: nat): set<nat> {
    set v | v in votes && v.candidate == candidate && v.term == term :: v.voter
  }

  // Votes belong to nodes and to terms that voter and candidate have reached.
  ghost predicate VotesPast(nodes: seq<Node>, votes: set<Vote>) {
    forall v <- votes :: VotePast(nodes, v)
  }

  ghost predicate VotePast(nodes: seq<Node>, v: Vote) {
    && v.voter < |nodes| && v.term <= nodes[v.voter].term
    && 0 <= v.candidate < |nodes| && v.term <= nodes[v.candidate].term
  }

  ghost predicate OneVote(votes: set<Vote>) {
    forall v <- votes, u <- votes :: v.voter == u.voter && v.term == u.term ==> v == u
  }

  // What a node shows is recorded, a candidate has voted for itself, and it has
  // counted no more votes than it was given.
  ghost predicate NodeFair(b: Ballot, j: nat)
    requires j < |b.nodes|
  {
    var nd := b.nodes[j];
    && (nd.votedFor != -1 ==> Vote(j, nd.term, nd.votedFor) in b.votes)
    && (nd.state == Candidate ==> nd.votedFor == j)
    && (nd.state == Candidate ==> nd.votes <= |Backers(b.votes, j, nd.term)|)
    && (nd.state == Leader ==> (j, nd.term) in b.leaders)
  }

  ghost predicate AllFair(b: Ballot) { forall j :: 0 <= j < |b.nodes| ==> NodeFair(b, j) }

  ghost predicate LeadersBacked(b: Ballot) {
    forall x <- b.leaders :: |Backers(b.votes, x.0, x.1)| >= Quorum.Size(|b.nodes|)
  }

  ghost predicate Inv(b: Ballot) {
    && Shaped(b.nodes) && VotesPast(b.nodes, b.votes) && OneVote(b.votes)
    && AllFair(b) && LeadersBacked(b)
  }

  lemma {:induction false} BackersGrow(votes: set<Vote>, votes': set<Vote>, candidate: int, term: nat)
    requires votes <= votes'
    ensures |Backers(votes, candidate, term)| <= |Backers(votes', candidate, term)|
  {
    var a, b := Backers(votes, candidate, term), Backers(votes', candidate, term);
    assert a <= b;
    assert |b| == |a| + |b - a|;
  }

  // A majority for each leader and one vote per voter and term leave one leader per term.
  lemma {:induction false} BackedLeadersAgree(b: Ballot)
    requires Inv(b)
    ensures OneLeader(b.leaders)
  {
    forall x, y | x in b.leaders && y in b.leaders && x.1 == y.1 ensures x == y {
      var p, q := Backers(b.votes, x.0, x.1), Backers(b.votes, y.0, y.1);
      Quorum.Intersection(|b.nodes|, p, q);
      var j :| j in p && j in q;
      assert Vote(j, x.1, x.0) in b.votes && Vote(j, y.1, y.0) in b.votes;
    }
  }

  // ---------- Steps that cast no vote ----------

  // A node keeps its candidacy, vote and term, or becomes a follower without a vote;
  // nothing committed is taken back.
  ghost predicate Quiet(a: Node, b: Node) {
    && b.term >= a.term && b.commit >= a.commit
    && ((b.term == a.term && b.votedFor == a.votedFor && b.votes == a.votes && b.state == a.state)
        || (b.state == Follower && b.votedFor == -1))
  }

  ghost predicate AllQuiet(nodes: seq<Node>, nodes': seq<Node>) {
    |nodes'| == |nodes| && forall j :: 0 <= j < |nodes| ==> Quiet(nodes[j], nodes'[j])
  }

  lemma {:induction false} QuietTwice(x: seq<Node>, y: seq<Node>, z: seq<Node>)
    requires AllQuiet(x, y) && AllQuiet(y, z)
    ensures AllQuiet(x, z)
  {
    forall j | 0 <= j < |x| ensures Quiet(x[j], z[j]) {
      assert Quiet(x[j], y[j]) && Quiet(y[j], z[j]);
    }
  }

  lemma {:induction false} SendQuiet(nodes: seq<Node>, l: nat, i: nat)
    requires Shaped(nodes) && l < |nodes| && i < |nodes|
    ensures AllQuiet(nodes, SendTo(nodes, l, i)) && AllQuiet(nodes, Beat(nodes, l, i))
  {
  }

  lemma {:induction false} SendAppendQuiet(nodes: seq<Node>, l: nat, k: nat, nodes': seq<Node>)
    requires Shaped(nodes) && l < |nodes| && k <= |nodes| && nodes' == SendAppend(nodes, l, k)
    ensures AllQuiet(nodes, nodes')
  {
    if k == 0 {
      assert nodes' == nodes;
    } else {
      var mid := SendAppend(nodes, l, k - 1);
      assert nodes' == SendTo(mid, l, k - 1);
      SendAppendQuiet(nodes, l, k - 1, mid);
      AppendStepQuiet(nodes, l, k - 1, mid, nodes');
    }
  }

  lemma {:induction false} AppendStepQuiet(nodes: seq<Node>, l: nat, i: nat, mid: seq<Node>, nodes': seq<Node>)
    requires AllQuiet(nodes, mid) && Shaped(mid) && l < |mid| && i < |mid|
    requires nodes' == SendTo(mid, l, i) || nodes' == Beat(mid, l, i)
    ensures AllQuiet(nodes, nodes')
  {
    SendQuiet(mid, l, i);
    QuietTwice(nodes, mid, nodes');
  }

  lemma {:induction false} HeartbeatQuiet(nodes: seq<Node>, l: nat, k: nat, nodes': seq<Node>)
    requires Shaped(nodes) && l < |nodes| && k <= |nodes| && nodes' == SendHeartbeat(nodes, l, k)
    ensures AllQuiet(nodes, nodes')
  {
    if k == 0 {
      assert nodes' == nodes;
    } else {
      var mid := SendHeartbeat(nodes, l, k - 1);
      assert nodes' == Beat(mid, l, k - 1);
      HeartbeatQuiet(nodes, l, k - 1, mid);
      AppendStepQuiet(nodes, l, k - 1, mid, nodes');
    }
  }

  lemma {:induction false} ReplicatedQuiet(nodes: seq<Node>, l: nat, nodes': seq<Node>)
    requires Shaped(nodes) && l < |nodes| && nodes' == Replicated(nodes, l)
    ensures AllQuiet(nodes, nodes')
  {
    var mid := SendAppend(nodes, l, |nodes|);
    SendAppendQuiet(nodes, l, |nodes|, mid);
    QuietTwice(nodes, mid, nodes');
  }

  // Every step but a campaign and a poll is quiet.
  lemma {:induction false} NextQuiet(nodes: seq<Node>, s: Step, nodes': seq<Node>)
    requires Shaped(nodes) && nodes' == Next(nodes, s) && Enabled(nodes, s) && !s.Campaign? && !s.Poll?
    ensures AllQuiet(nodes, nodes')
  {
    match s
    case Command(l, command) =>
      if nodes[l].state == Leader && |nodes[l].log| < MAX_LOG {
        var mid := nodes[l := Append(nodes[l], command)];
        ReplicatedQuiet(mid, l, nodes');
        QuietTwice(nodes, mid, nodes');
      }
    case Replicate(l) =>
      var mid := SendHeartbeat(nodes, l, |nodes|);
      HeartbeatQuiet(nodes, l, |nodes|, mid);
      ReplicatedQuiet(mid, l, nodes');
      QuietTwice(nodes, mid, nodes');
    case _ =>
  }

  // The ballot after a step.
  ghost predicate Follows(b: Ballot, b': Ballot, s: Step) {
    && Shaped(b.nodes) && b'.nodes == Next(b.nodes, s)
    && b'.leaders == b.leaders + Leading(b'.nodes)
    && b'.votes == b.votes + Shown(b'.nodes)
  }

  lemma {:induction false} QuietKeepsInv(b: Ballot, b': Ballot)
    requires Inv(b) && Shaped(b'.nodes) && AllQuiet(b.nodes, b'.nodes)
    requires b'.leaders == b.leaders + Leading(b'.nodes) && b'.votes == b.votes + Shown(b'.nodes)
    ensures Inv(b') && b'.leaders == b.leaders && b'.votes == b.votes
  {
    forall j | 0 <= j < |b.nodes|
      ensures b'.nodes[j].votedFor != -1 ==> Vote(j, b'.nodes[j].term, b'.nodes[j].votedFor) in b.votes
      ensures b'.nodes[j].state == Leader ==> (j, b'.nodes[j].term) in b.leaders
    {
      assert NodeFair(b, j) && Quiet(b.nodes[j], b'.nodes[j]);
    }
    assert b'.votes == b.votes && b'.leaders == b.leaders;
    forall j | 0 <= j < |b'.nodes| ensures NodeFair(b', j) {
      assert NodeFair(b, j) && Quiet(b.nodes[j], b'.nodes[j]);
    }
    forall v | v in b'.votes ensures VotePast(b'.nodes, v) {
      assert VotePast(b.nodes, v);
      assert Quiet(b.nodes[v.voter], b'.nodes[v.voter]) && Quiet(b.nodes[v.candidate], b'.nodes[v.candidate]);
    }
  }

  // ---------- A new candidacy ----------

  lemma {:induction false} CampaignKeepsInv(b: Ballot, b': Ballot, i: nat)
    requires Inv(b) && i < |b.nodes| && Shaped(b'.nodes) && b'.nodes == b.nodes[i := AsCandidate(b.nodes[i], i)]
    requires b'.leaders == b.leaders + Leading(b'.nodes) && b'.votes == b.votes + Shown(b'.nodes)
    ensures Inv(b') && b'.votes == b.votes + {Vote(i, b.nodes[i].term + 1, i)}
  {
    var v := Vote(i, b.nodes[i].term + 1, i);
    assert b'.votes == b.votes + {v} by {
      forall u | u in Shown(b'.nodes) ensures u in b.votes || u == v {
        assert NodeFair(b, u.voter);
      }
      assert b'.nodes[i].votedFor == i && v in Shown(b'.nodes);
    }
    assert b'.leaders == b.leaders by {
      forall x | x in Leading(b'.nodes) ensures x in b.leaders {
        assert NodeFair(b, x.0);
      }
    }
    forall j | 0 <= j < |b'.nodes| ensures NodeFair(b', j) {
      assert NodeFair(b, j);
      BackersGrow(b.votes, b'.votes, j, b'.nodes[j].term);
      assert j == i ==> i in Backers(b'.votes, i, b'.nodes[i].term);
    }
    forall u | u in b'.votes ensures VotePast(b'.nodes, u) {
      assert u in b.votes ==> VotePast(b.nodes, u);
    }
    forall x | x in b'.leaders ensures |Backers(b'.votes, x.0, x.1)| >= Quorum.Size(|b'.nodes|) {
      BackersGrow(b.votes, b'.votes, x.0, x.1);
    }
  }

  // ---------- A poll ----------

  // The nodes among the first k that grant candidate i their vote.
  ghost function Granters(nodes: seq<Node>, i: nat, k: nat): set<nat>
    requires i < |nodes| && k <= |nodes|
  {
    set j: nat | j < k && j != i && nodes[j].active && Grants(nodes[j], VoteRequest(nodes[i], i))
  }

  // The first k nodes have been asked, each on its own, and those that grant counted.
  ghost predicate AskedSoFar(nodes: seq<Node>, i: nat, k: nat, nodes': seq<Node>)
    requires i < |nodes| && k <= |nodes|
  {
    && |nodes'| == |nodes| && nodes'[i] == nodes[i].(votes := nodes[i].votes + |Granters(nodes, i, k)|)
    && forall j :: 0 <= j < |nodes| && j != i ==> nodes'[j] == Answer(nodes, i, j, k)
  }

  ghost function Answer(nodes: seq<Node>, i: nat, j: nat, k: nat): Node
    requires i < |nodes| && j < |nodes|
  {
    if j < k && nodes[j].active then Asked(nodes[j], VoteRequest(nodes[i], i)) else nodes[j]
  }

  lemma {:induction false} GrantersNext(nodes: seq<Node>, i: nat, k: nat)
    requires i < |nodes| && k < |nodes|
    ensures |Granters(nodes, i, k + 1)| == |Granters(nodes, i, k)| +
            if k != i && nodes[k].active && Grants(nodes[k], VoteRequest(nodes[i], i)) then 1 else 0
  {
    assert Granters(nodes, i, k + 1) == Granters(nodes, i, k) +
           if k != i && nodes[k].active && Grants(nodes[k], VoteRequest(nodes[i], i)) then {k} else {};
  }

  lemma {:induction false} AskOneMore(nodes: seq<Node>, i: nat, k: nat, mid: seq<Node>, nodes': seq<Node>)
    requires i < |nodes| && k < |nodes| && AskedSoFar(nodes, i, k, mid) && Shaped(mid) && nodes' == AskOne(mid, i, k)
    ensures AskedSoFar(nodes, i, k + 1, nodes')
  {
    GrantersNext(nodes, i, k);
    assert VoteRequest(mid[i], i) == VoteRequest(nodes[i], i);
    assert k != i ==> mid[k] == Answer(nodes, i, k, k) == nodes[k];
    forall j | 0 <= j < |nodes| && j != i ensures nodes'[j] == Answer(nodes, i, j, k + 1) {
      assert mid[j] == Answer(nodes, i, j, k);
    }
  }

  lemma {:induction false} AskFirstEffect(nodes: seq<Node>, i: nat, k: nat, nodes': seq<Node>)
    requires Shaped(nodes) && i < |nodes| && k <= |nodes| && nodes' == AskFirst(nodes, i, k)
    ensures AskedSoFar(nodes, i, k, nodes')
  {
    if k == 0 {
      assert Granters(nodes, i, 0) == {};
    } else {
      var mid := AskFirst(nodes, i, k - 1);
      AskFirstEffect(nodes, i, k - 1, mid);
      AskOneMore(nodes, i, k - 1, mid, nodes');
    }
  }

  // The votes after a fair poll: the old ones and a first one of each granter.
  lemma {:induction false} PollVotes(b: Ballot, i: nat, nodes: seq<Node>)
    requires Inv(b) && i < |b.nodes| && b.nodes[i].state == Candidate && FairPoll(b.nodes, b.votes, i)
    requires AskedSoFar(b.nodes, i, |b.nodes|, nodes)
    ensures VotesPast(nodes, b.votes + Shown(nodes)) && OneVote(b.votes + Shown(nodes))
    ensures forall j :: 0 <= j < |nodes| ==> PollVote(b, i, nodes, j)
  {
    var votes := b.votes + Shown(nodes);
    forall j | 0 <= j < |nodes| ensures PollVote(b, i, nodes, j) {
      OnePollVote(b, i, nodes, j);
    }
    forall v | v in votes ensures VotePast(nodes, v) {
      assert v in b.votes ==> VotePast(b.nodes, v) && PollVote(b, i, nodes, v.candidate);
      assert PollVote(b, i, nodes, v.voter) && PollVote(b, i, nodes, i);
      assert v !in b.votes ==> v.candidate == i && v.term == b.nodes[i].term;
    }
    forall v, u | v in votes && u in votes && v.voter == u.voter && v.term == u.term ensures v == u {
      assert PollVote(b, i, nodes, v.voter);
    }
  }

  // The granters join the backers of the candidate, and none of them was one before.
  lemma {:induction false} PollBackers(b: Ballot, i: nat, nodes: seq<Node>)
    requires i < |b.nodes| == |nodes| && forall j :: 0 <= j < |nodes| ==> PollVote(b, i, nodes, j)
    ensures |Backers(b.votes, i, b.nodes[i].term)| + |Granters(b.nodes, i, |b.nodes|)| <=
            |Backers(b.votes + Shown(nodes), i, b.nodes[i].term)|
  {
    var term, votes := b.nodes[i].term, b.votes + Shown(nodes);
    var g, x, y := Granters(b.nodes, i, |b.nodes|), Backers(b.votes, i, term), Backers(votes, i, term);
    forall j | j in g ensures j in y && j !in x {
      assert PollVote(b, i, nodes, j);
      assert Vote(j, term, i) in votes;
    }
    assert x + g <= y && |x + g| == |x| + |g|;
    assert |y| == |x + g| + |y - (x + g)|;
  }

  // What a poll shows of node j: an old vote, or a first vote of the term for i.
  ghost predicate PollVote(b: Ballot, i: nat, nodes: seq<Node>, j: nat)
    requires i < |b.nodes| && |nodes| == |b.nodes|
  {
    && j < |nodes| && nodes[j].term >= b.nodes[j].term
    && (nodes[j].votedFor != -1 ==>
          || Vote(j, nodes[j].term, nodes[j].votedFor) in b.votes
          || (nodes[j].votedFor == i && nodes[j].term == b.nodes[i].term && j in Granters(b.nodes, i, |b.nodes|)))
    && (j in Granters(b.nodes, i, |b.nodes|) ==> !Voted(b.votes, j, b.nodes[i].term))
    && (j in Granters(b.nodes, i, |b.nodes|) || j == i ==>
          nodes[j].term == b.nodes[i].term && nodes[j].votedFor == i)
  }

  lemma {:induction false} OnePollVote(b: Ballot, i: nat, nodes: seq<Node>, j: nat)
    requires Inv(b) && i < |b.nodes| && b.nodes[i].state == Candidate && FairPoll(b.nodes, b.votes, i)
    requires j < |b.nodes| == |nodes|
    requires nodes[i] == b.nodes[i].(votes := nodes[i].votes)
    requires j != i ==> nodes[j] == Answer(b.nodes, i, j, |b.nodes|)
    ensures PollVote(b, i, nodes, j)
  {
    assert NodeFair(b, j) && NodeFair(b, i);
    if Voted(b.votes, j, b.nodes[i].term) {
      var v :| v in b.votes && v.voter == j && v.term == b.nodes[i].term;
      assert VotePast(b.nodes, v);
    }
  }

  lemma {:induction false} PollKeepsInv(b: Ballot, b': Ballot, i: nat)
    requires Inv(b) && i < |b.nodes| && b.nodes[i].state == Candidate && FairPoll(b.nodes, b.votes, i)
    requires Shaped(b'.nodes) && b'.nodes == Polled(b.nodes, i)
    requires b'.leaders == b.leaders + Leading(b'.nodes) && b'.votes == b.votes + Shown(b'.nodes)
    ensures Inv(b')
  {
    var nodes := AskFirst(b.nodes, i, |b.nodes|);
    AskFirstEffect(b.nodes, i, |b.nodes|, nodes);
    AnsweredKeepsInv(b, b', i, nodes);
  }

  // A candidate that has its answers leads or stays a candidate.
  ghost predicate Outcome(nodes: seq<Node>, i: nat, nodes': seq<Node>)
    requires i < |nodes|
  {
    if nodes[i].votes >= Quorum.Size(|nodes|) then nodes' == nodes[i := AsLeader(nodes[i])] else nodes' == nodes
  }

  lemma {:induction false} AnsweredKeepsInv(b: Ballot, b': Ballot, i: nat, nodes: seq<Node>)
    requires Inv(b) && i < |b.nodes| && b.nodes[i].state == Candidate && FairPoll(b.nodes, b.votes, i)
    requires AskedSoFar(b.nodes, i, |b.nodes|, nodes) && Shaped(b'.nodes) && Outcome(nodes, i, b'.nodes)
    requires b'.leaders == b.leaders + Leading(b'.nodes) && b'.votes == b.votes + Shown(b'.nodes)
    ensures Inv(b')
  {
    PollVotes(b, i, nodes);
    PollBackers(b, i, nodes);
    assert NodeFair(b, i);
    SameShown(b, i, nodes, b'.nodes);
    PollLeaders(b, i, nodes, b');
    PollNodes(b, i, nodes, b');
  }

  // A new leader drops its own vote, which is on record since its candidacy.
  lemma {:induction false} SameShown(b: Ballot, i: nat, nodes: seq<Node>, nodes': seq<Node>)
    requires i < |nodes| == |nodes'| && Vote(i, nodes[i].term, i) in b.votes && nodes[i].votedFor == i
    requires Outcome(nodes, i, nodes')
    ensures b.votes + Shown(nodes') == b.votes + Shown(nodes)
  {
    forall v | v in Shown(nodes) ensures v in b.votes || v in Shown(nodes') {
      assert v.voter != i ==> nodes'[v.voter] == nodes[v.voter];
    }
    forall v | v in Shown(nodes') ensures v in Shown(nodes) {
      assert nodes'[v.voter] == nodes[v.voter];
    }
  }

  // A poll makes no leader but i, and i only with a majority behind it.
  lemma {:induction false} NewLeader(b: Ballot, i: nat, nodes: seq<Node>, b': Ballot, x: (nat, nat))
    requires Inv(b) && i < |b.nodes| && b.nodes[i].state == Candidate
    requires AskedSoFar(b.nodes, i, |b.nodes|, nodes) && Outcome(nodes, i, b'.nodes) && x in Leading(b'.nodes)
    ensures x in b.leaders || (x == (i, b.nodes[i].term) && nodes[i].votes >= Quorum.Size(|b.nodes|))
  {
    assert NodeFair(b, x.0);
    assert x.0 != i ==> nodes[x.0] == Answer(b.nodes, i, x.0, |b.nodes|);
  }

  lemma {:induction false} PollLeaders(b: Ballot, i: nat, nodes: seq<Node>, b': Ballot)
    requires Inv(b) && i < |b.nodes| && b.nodes[i].state == Candidate
    requires AskedSoFar(b.nodes, i, |b.nodes|, nodes) && Outcome(nodes, i, b'.nodes)
    requires b'.leaders == b.leaders + Leading(b'.nodes) && b.votes <= b'.votes
    requires nodes[i].votes <= |Backers(b'.votes, i, b.nodes[i].term)|
    ensures LeadersBacked(b')
  {
    forall x | x in b'.leaders ensures |Backers(b'.votes, x.0, x.1)| >= Quorum.Size(|b'.nodes|) {
      if x in b.leaders {
        BackersGrow(b.votes, b'.votes, x.0, x.1);
      } else {
        NewLeader(b, i, nodes, b', x);
      }
    }
  }

  lemma {:induction false} PollNode(b: Ballot, i: nat, nodes: seq<Node>, b': Ballot, j: nat)
    requires Inv(b) && i < |b.nodes| && b.nodes[i].state == Candidate && j < |b.nodes|
    requires AskedSoFar(b.nodes, i, |b.nodes|, nodes) && Outcome(nodes, i, b'.nodes)
    requires b'.leaders == b.leaders + Leading(b'.nodes) && b'.votes == b.votes + Shown(b'.nodes)
    requires nodes[i].votes <= |Backers(b'.votes, i, b.nodes[i].term)|
    ensures NodeFair(b', j) && b'.nodes[j].term >= b.nodes[j].term
  {
    var nd := b'.nodes[j];
    BackersGrow(b.votes, b'.votes, j, nd.term);
    assert NodeFair(b, j);
    assert nd.votedFor != -1 ==> Vote(j, nd.term, nd.votedFor) in Shown(b'.nodes);
    assert nd.state == Leader ==> (j, nd.term) in Leading(b'.nodes);
    assert j != i ==> nodes[j] == Answer(b.nodes, i, j, |b.nodes|);
  }

  lemma {:induction false} PollNodes(b: Ballot, i: nat, nodes: seq<Node>, b': Ballot)
    requires Inv(b) && i < |b.nodes| && b.nodes[i].state == Candidate
    requires AskedSoFar(b.nodes, i, |b.nodes|, nodes) && Outcome(nodes, i, b'.nodes)
    requires b'.leaders == b.leaders + Leading(b'.nodes) && b'.votes == b.votes + Shown(b'.nodes)
    requires VotesPast(nodes, b'.votes) && nodes[i].votes <= |Backers(b'.votes, i, b.nodes[i].term)|
    ensures AllFair(b') && VotesPast(b'.nodes, b'.votes)
  {
    forall j | 0 <= j < |b'.nodes| ensures NodeFair(b', j) && b'.nodes[j].term >= b.nodes[j].term {
      PollNode(b, i, nodes, b', j);
    }
    assert forall j :: 0 <= j < |nodes| ==> b'.nodes[j].term == nodes[j].term;
    forall v | v in b'.votes ensures VotePast(b'.nodes, v) {
      assert VotePast(nodes, v);
    }
  }

  // ---------- Fair runs ----------

  lemma {:induction false} StepKeepsInv(b: Ballot, b': Ballot, s: Step)
    requires Inv(b) && Follows(b, b', s) && FairStep(b.nodes, b.votes, s)
    ensures Inv(b')
  {
    if Enabled(b.nodes, s) && s.Campaign? {
      CampaignKeepsInv(b, b', s.i);
    } else if Enabled(b.nodes, s) && s.Poll? {
      PollKeepsInv(b, b', s.i);
    } else {
      if Enabled(b.nodes, s) {
        NextQuiet(b.nodes, s, b'.nodes);
      }
      QuietKeepsInv(b, b');
    }
  }

  ghost function BallotOf(n: nat, steps: seq<Step>): Ballot {
    var w := Exec(n, steps); Ballot(w.nodes, w.leaders, Cast(n, steps))
  }

  lemma {:induction false} FairKeepsInv(n: nat, steps: seq<Step>, b: Ballot)
    requires Fair(n, steps) && b == BallotOf(n, steps)
    ensures Inv(b)
    decreases |steps|
  {
    if steps != [] {
      var rest := steps[..|steps| - 1];
      var before := BallotOf(n, rest);
      FairKeepsInv(n, rest, before);
      StepKeepsInv(before, b, steps[|steps| - 1]);
    }
  }

  // Fair runs have one leader per term.
  lemma {:induction false} OneLeaderPerTerm(n: nat, steps: seq<Step>)
    requires Fair(n, steps)
    ensures OneLeader(Exec(n, steps).leaders)
  {
    FairKeepsInv(n, steps, BallotOf(n, steps));
    BackedLeadersAgree(BallotOf(n, steps));
  }

  // Log matching over fair runs, with nothing assumed about leaders.
  lemma {:induction false} FairLogMatching(n: nat, steps: seq<Step>, a: nat, b: nat, i: nat)
    requires Fair(n, steps) && a < n && b < n
    requires var nodes := Exec(n, steps).nodes;
             i < |nodes[a].log| && i < |nodes[b].log| && nodes[a].log[i].term == nodes[b].log[i].term
    ensures var nodes := Exec(n, steps).nodes; nodes[a].log[..i + 1] == nodes[b].log[..i + 1]
  {
    OneLeaderPerTerm(n, steps);
    LogMatching(n, steps, a, b, i);
  }

  // ---------- Two leaders of one term ----------

  lemma {:induction false} Extend(n: nat, xs: seq<Step>, nodes: seq<Node>, s: Step, nodes': seq<Node>)
    returns (ys: seq<Step>)
    requires Exec(n, xs).nodes == nodes && Next(nodes, s) == nodes'
    ensures ys == xs + [s] && Exec(n, ys).nodes == nodes' && Exec(n, xs).leaders <= Exec(n, ys).leaders
    ensures Leading(nodes') <= Exec(n, ys).leaders
  {
    ys := xs + [s];
    assert ys[..|ys| - 1] == xs;
  }

  // The first k nodes are isolated.
  function Cut(nodes: seq<Node>, k: nat): seq<Node> {
    seq(|nodes|, j requires 0 <= j < |nodes| => if j < k then nodes[j].(active := false) else nodes[j])
  }

  lemma {:induction false} CutNext(nodes: seq<Node>, j: nat)
    requires Shaped(nodes) && j < |nodes|
    ensures Shaped(Cut(nodes, j)) && Next(Cut(nodes, j), Isolate(j)) == Cut(nodes, j + 1)
  {
    var cut := Cut(nodes, j);
    forall l | 0 <= l < |cut| ensures cut[l].next == nodes[l].next && cut[l].matched == nodes[l].matched {}
    assert cut[j := cut[j].(active := false)] == Cut(nodes, j + 1);
  }

  lemma {:induction false} IsolateNext(n: nat, xs: seq<Step>, k: nat, nodes: seq<Node>, v: seq<Node>)
    returns (ys: seq<Step>)
    requires k < n == |nodes| && Shaped(nodes) && v == Exec(n, xs).nodes && v == Cut(nodes, k)
    ensures xs <= ys && Exec(n, ys).nodes == Cut(nodes, k + 1)
  {
    CutNext(nodes, k);
    ys := Extend(n, xs, v, Isolate(k), Cut(nodes, k + 1));
  }

  lemma {:induction false} IsolateFirst(n: nat, xs: seq<Step>, k: nat, nodes: seq<Node>) returns (ys: seq<Step>)
    requires k <= n && nodes == Exec(n, xs).nodes
    ensures Exec(n, ys).nodes == Cut(nodes, k) && xs <= ys
  {
    if k == 0 {
      ys := xs;
      assert Cut(nodes, 0) == nodes;
    } else {
      var zs := IsolateFirst(n, xs, k - 1, nodes);
      ys := IsolateNext(n, zs, k - 1, nodes, Cut(nodes, k - 1));
    }
  }

  ghost predicate AllIsolated(nodes: seq<Node>) { forall j :: 0 <= j < |nodes| ==> !nodes[j].active }

  lemma {:induction false} NobodyReached(nodes: seq<Node>, l: nat, k: nat)
    requires Shaped(nodes) && AllIsolated(nodes) && l < |nodes| && k <= |nodes|
    ensures SendAppend(nodes, l, k) == nodes
  {
    if k > 0 {
      NobodyReached(nodes, l, k - 1);
    }
  }

  lemma {:induction false} NobodyMatches(nodes: seq<Node>, l: nat, n: nat, k: nat)
    requires Shaped(nodes) && AllIsolated(nodes) && l < |nodes| && k <= |nodes|
    ensures MatchCount(nodes, l, n, k) == 0
  {
    if k > 0 {
      NobodyMatches(nodes, l, n, k - 1);
    }
  }

  lemma {:induction false} NothingCommits(nodes: seq<Node>, l: nat, n: nat)
    requires Shaped(nodes) && AllIsolated(nodes) && l < |nodes| && n <= |nodes[l].log| && |nodes| >= 2
    ensures CommitFrom(nodes, l, n) == nodes[l].commit
  {
    if n > nodes[l].commit {
      NobodyMatches(nodes, l, n, |nodes|);
      NothingCommits(nodes, l, n - 1);
    }
  }

  // A command at an isolated leader stays there.
  lemma {:induction false} CommandStays(nodes: seq<Node>, l: nat, command: int)
    requires Shaped(nodes) && AllIsolated(nodes) && |nodes| >= 2 && l < |nodes|
    requires nodes[l].state == Leader && |nodes[l].log| < MAX_LOG
    ensures Next(nodes, Command(l, command)) == nodes[l := Append(nodes[l], command)]
  {
    var nodes' := nodes[l := Append(nodes[l], command)];
    NobodyReached(nodes', l, |nodes|);
    NothingCommits(nodes', l, |nodes'[l].log|);
    assert nodes'[l := nodes'[l].(commit := nodes'[l].commit)] == nodes';
  }

  // Two logs hold the same term at an index and differ up to it.
  ghost predicate Mismatch(x: seq<Entry>, y: seq<Entry>, k: nat) {
    k < |x| && k < |y| && x[k].term == y[k].term && x[..k + 1] != y[..k + 1]
  }

  // Wherever two leaders share a term and a log length, logs can stop matching:
  // isolate everybody and give the two different commands.
  lemma {:induction false} TwoLeadersBreakMatching(n: nat, xs: seq<Step>, nodes: seq<Node>, a: nat, b: nat)
    returns (ys: seq<Step>)
    requires a < n && b < n && a != b && nodes == Exec(n, xs).nodes
    requires nodes[a].state == nodes[b].state == Leader && nodes[a].term == nodes[b].term
    requires |nodes[a].log| == |nodes[b].log| < MAX_LOG
    ensures xs <= ys && Mismatch(Exec(n, ys).nodes[a].log, Exec(n, ys).nodes[b].log, |nodes[a].log|)
  {
    var zs := IsolateFirst(n, xs, n, nodes);
    CutIsolates(nodes);
    ys := CommandBoth(n, zs, Cut(nodes, n), a, b);
    Differ(nodes[a].log, nodes[b].log, Entry(nodes[a].term, 7), Entry(nodes[b].term, 9));
  }

  lemma {:induction false} CutIsolates(nodes: seq<Node>)
    ensures AllIsolated(Cut(nodes, |nodes|))
    ensures forall j :: 0 <= j < |nodes| ==> Cut(nodes, |nodes|)[j] == nodes[j].(active := false)
  {
  }

  lemma {:induction false} Differ(x: seq<Entry>, y: seq<Entry>, e: Entry, f: Entry)
    requires |x| == |y| && e != f && e.term == f.term
    ensures Mismatch(x + [e], y + [f], |x|)
  {
    assert (x + [e])[..|x| + 1][|x|] == e && (y + [f])[..|x| + 1][|x|] == f;
  }

  lemma {:induction false} CommandBoth(n: nat, xs: seq<Step>, nodes: seq<Node>, a: nat, b: nat) returns (ys: seq<Step>)
    requires a < n && b < n && a != b && nodes == Exec(n, xs).nodes && AllIsolated(nodes)
    requires nodes[a].state == nodes[b].state == Leader && nodes[a].term == nodes[b].term
    requires |nodes[a].log| == |nodes[b].log| < MAX_LOG
    ensures xs <= ys
    ensures Exec(n, ys).nodes[a].log == nodes[a].log + [Entry(nodes[a].term, 7)]
    ensures Exec(n, ys).nodes[b].log == nodes[b].log + [Entry(nodes[b].term, 9)]
  {
    CommandStays(nodes, a, 7);
    var one := nodes[a := Append(nodes[a], 7)];
    var zs := Extend(n, xs, nodes, Command(a, 7), one);
    CommandStays(one, b, 9);
    ys := Extend(n, zs, one, Command(b, 9), one[b := Append(one[b], 9)]);
  }

  // ---------- A forgotten vote and a repeated poll ----------

  // A member of a cluster of n with an empty log.
  function Member(n: nat, state: State, term: nat, active: bool, votedFor: int, votes: nat): Node {
    Node(state, term, [], seq(n, _ => 1), seq(n, _ => 0), active, votedFor, votes, 0)
  }

  function Fresh(n: nat): Node { Member(n, Follower, 0, true, -1, 0) }

  function Runs(n: nat, i: nat, votes: nat): Node { Member(n, Candidate, 1, true, i, votes) }

  function Leads(n: nat, votedFor: int): Node { Member(n, Leader, 1, true, votedFor, 0) }

  function Backs(n: nat, i: nat): Node { Member(n, Follower, 1, true, i, 0) }

  lemma {:induction false} Elected(n: nat, i: nat, votes: nat)
    ensures AsLeader(Runs(n, i, votes)) == Leads(n, -1)
  {
  }

  // How the members answer candidate i of term 1.
  lemma {:induction false} Answers(n: nat, i: nat, votes: nat, k: nat)
    requires k != i
    ensures var rpc := VoteRequest(Runs(n, i, votes), i);
            && Grants(Fresh(n), rpc) && Asked(Fresh(n), rpc) == Backs(n, i)
            && Grants(Backs(n, i), rpc) && Asked(Backs(n, i), rpc) == Backs(n, i)
            && !Grants(Backs(n, k), rpc) && Asked(Backs(n, k), rpc) == Backs(n, k)
            && !Grants(Runs(n, k, 1), rpc) && Asked(Runs(n, k, 1), rpc) == Runs(n, k, 1)
            && Grants(Leads(n, -1), rpc) && Asked(Leads(n, -1), rpc) == Leads(n, i)
  {
  }

  // Candidate 0 of three wins with node 2 and forgets its own vote, so it also
  // votes for candidate 1: term 1 has two leaders, and logs stop matching.
  lemma {:induction false} ForgottenVoteElectsTwo() returns (steps: seq<Step>)
    ensures Exec(3, steps).nodes == [Leads(3, 1), Leads(3, -1), Backs(3, 0)]
    ensures !OneLeader(Exec(3, steps).leaders)
  {
    var f, c0, c1 := Fresh(3), Runs(3, 0, 1), Runs(3, 1, 1);
    assert Init(3).nodes == [f, f, f];
    steps := Extend(3, [], [f, f, f], Campaign(0), [c0, f, f]);
    steps := Extend(3, steps, [c0, f, f], Campaign(1), [c0, c1, f]);
    FirstWins(3);
    steps := Extend(3, steps, [c0, c1, f], Poll(0), [Leads(3, -1), c1, Backs(3, 0)]);
    SecondWins(3);
    var last := [Leads(3, 1), Leads(3, -1), Backs(3, 0)];
    steps := Extend(3, steps, [Leads(3, -1), c1, Backs(3, 0)], Poll(1), last);
    assert (0, 1) in Leading(last) by { assert last[0].state == Leader; }
    assert (1, 1) in Leading(last) by { assert last[1].state == Leader; }
  }

  lemma {:induction false} FirstWins(n: nat)
    requires n == 3
    ensures Next([Runs(n, 0, 1), Runs(n, 1, 1), Fresh(n)], Poll(0)) == [Leads(n, -1), Runs(n, 1, 1), Backs(n, 0)]
  {
    var x := [Runs(n, 0, 1), Runs(n, 1, 1), Fresh(n)];
    Answers(n, 0, 1, 1);
    assert AskFirst(x, 0, 0) == x;
    assert AskFirst(x, 0, 1) == x;
    assert AskFirst(x, 0, 2) == x;
    assert AskFirst(x, 0, 3) == [Runs(n, 0, 2), Runs(n, 1, 1), Backs(n, 0)];
    Elected(n, 0, 2);
  }

  lemma {:induction false} SecondWins(n: nat)
    requires n == 3
    ensures Next([Leads(n, -1), Runs(n, 1, 1), Backs(n, 0)], Poll(1)) == [Leads(n, 1), Leads(n, -1), Backs(n, 0)]
  {
    var x := [Leads(n, -1), Runs(n, 1, 1), Backs(n, 0)];
    Answers(n, 1, 1, 0);
    Answers(n, 1, 2, 0);
    var y := [Leads(n, 1), Runs(n, 1, 2), Backs(n, 0)];
    assert AskFirst(x, 1, 0) == x;
    assert AskFirst(x, 1, 1) == y;
    assert AskFirst(x, 1, 2) == y;
    assert AskFirst(x, 1, 3) == y;
    Elected(n, 1, 2);
  }

  // Candidate 0 of four asks twice and counts node 2 twice, candidate 1 does the
  // same with node 3: term 1 has two leaders although no vote was forgotten.
  lemma {:induction false} RepeatedPollElectsTwo() returns (steps: seq<Step>)
    ensures !OneLeader(Exec(4, steps).leaders)
  {
    var f, c1, v0, v1 := Fresh(4), Runs(4, 1, 1), Backs(4, 0), Backs(4, 1);
    var l0 := Leads(4, -1).(active := false);
    steps := FirstSide();
    PollOtherSide(4, 1, f);
    steps := Extend(4, steps, [l0, c1, v0, f], Poll(1), [l0, Runs(4, 1, 2), v0, v1]);
    PollOtherSide(4, 2, v1);
    var last := [l0, Leads(4, -1), v0, v1];
    steps := Extend(4, steps, [l0, Runs(4, 1, 2), v0, v1], Poll(1), last);
    assert (0, 1) in Leading(last) by { assert last[0].state == Leader; }
    assert (1, 1) in Leading(last) by { assert last[1].state == Leader; }
  }

  lemma {:induction false} TwoCandidates() returns (steps: seq<Step>)
    ensures Exec(4, steps).nodes == [Runs(4, 0, 1), Runs(4, 1, 1), Fresh(4), Fresh(4).(active := false)]
  {
    var f, c0, c1 := Fresh(4), Runs(4, 0, 1), Runs(4, 1, 1);
    assert Init(4).nodes == [f, f, f, f];
    steps := Extend(4, [], [f, f, f, f], Campaign(0), [c0, f, f, f]);
    steps := Extend(4, steps, [c0, f, f, f], Campaign(1), [c0, c1, f, f]);
    steps := Extend(4, steps, [c0, c1, f, f], Isolate(3), [c0, c1, f, f.(active := false)]);
  }

  lemma {:induction false} FirstLeads() returns (steps: seq<Step>)
    ensures Exec(4, steps).nodes == [Leads(4, -1), Runs(4, 1, 1), Backs(4, 0), Fresh(4).(active := false)]
  {
    var f, c1, v0 := Fresh(4), Runs(4, 1, 1), Backs(4, 0);
    var cut := f.(active := false);
    steps := TwoCandidates();
    PollOnceMore(4, 1, f);
    steps := Extend(4, steps, [Runs(4, 0, 1), c1, f, cut], Poll(0), [Runs(4, 0, 2), c1, v0, cut]);
    PollOnceMore(4, 2, v0);
    steps := Extend(4, steps, [Runs(4, 0, 2), c1, v0, cut], Poll(0), [Leads(4, -1), c1, v0, cut]);
  }

  lemma {:induction false} FirstSide() returns (steps: seq<Step>)
    ensures Exec(4, steps).nodes == [Leads(4, -1).(active := false), Runs(4, 1, 1), Backs(4, 0), Fresh(4)]
  {
    var l0, c1, v0, f := Leads(4, -1), Runs(4, 1, 1), Backs(4, 0), Fresh(4);
    steps := FirstLeads();
    steps := IsolateZero(steps, [l0, c1, v0, f.(active := false)]);
    var y := [l0.(active := false), c1, v0, f.(active := false)];
    steps := ReconnectThree(steps, y);
  }

  lemma {:induction false} IsolateZero(xs: seq<Step>, x: seq<Node>) returns (ys: seq<Step>)
    requires Exec(4, xs).nodes == x
    ensures Exec(4, ys).nodes == [x[0].(active := false), x[1], x[2], x[3]]
  {
    ys := Extend(4, xs, x, Isolate(0), x[0 := x[0].(active := false)]);
  }

  lemma {:induction false} ReconnectThree(xs: seq<Step>, x: seq<Node>) returns (ys: seq<Step>)
    requires Exec(4, xs).nodes == x && x[3] == Fresh(4).(active := false)
    ensures Exec(4, ys).nodes == [x[0], x[1], x[2], Fresh(4)]
  {
    ys := Extend(4, xs, x, Reconnect(3), x[3 := Fresh(4)]);
  }

  lemma {:induction false} PollOnceMore(n: nat, votes: nat, nd: Node)
    requires n == 4 && 1 <= votes <= 2 && (nd == Fresh(n) || nd == Backs(n, 0))
    ensures var cut := Fresh(n).(active := false);
            Next([Runs(n, 0, votes), Runs(n, 1, 1), nd, cut], Poll(0)) ==
            [if votes == 2 then Leads(n, -1) else Runs(n, 0, 2), Runs(n, 1, 1), Backs(n, 0), cut]
  {
    var cut := Fresh(n).(active := false);
    var x, y := [Runs(n, 0, votes), Runs(n, 1, 1), nd, cut], [Runs(n, 0, votes + 1), Runs(n, 1, 1), Backs(n, 0), cut];
    Answers(n, 0, votes, 1);
    assert AskFirst(x, 0, 0) == x;
    assert AskFirst(x, 0, 1) == x;
    assert AskFirst(x, 0, 2) == x;
    assert AskFirst(x, 0, 3) == y;
    assert AskFirst(x, 0, 4) == y;
    Elected(n, 0, votes + 1);
  }

  lemma {:induction false} PollOtherSide(n: nat, votes: nat, nd: Node)
    requires n == 4 && 1 <= votes <= 2 && (nd == Fresh(n) || nd == Backs(n, 1))
    ensures var l0 := Leads(n, -1).(active := false);
            Next([l0, Runs(n, 1, votes), Backs(n, 0), nd], Poll(1)) ==
            [l0, if votes == 2 then Leads(n, -1) else Runs(n, 1, 2), Backs(n, 0), Backs(n, 1)]
  {
    var l0 := Leads(n, -1).(active := false);
    var x, y := [l0, Runs(n, 1, votes), Backs(n, 0), nd], [l0, Runs(n, 1, votes + 1), Backs(n, 0), Backs(n, 1)];
    Answers(n, 1, votes, 0);
    assert AskFirst(x, 1, 0) == x;
    assert AskFirst(x, 1, 1) == x;
    assert AskFirst(x, 1, 2) == x;
    assert AskFirst(x, 1, 3) == x;
    assert AskFirst(x, 1, 4) == y;
    Elected(n, 1, votes + 1);
  }

  lemma {:induction false} ForgottenVoteBreaksMatching() returns (steps: seq<Step>)
    ensures Mismatch(Exec(3, steps).nodes[0].log, Exec(3, steps).nodes[1].log, 0)
  {
    var xs := ForgottenVoteElectsTwo();
    steps := TwoLeadersBreakMatching(3, xs, [Leads(3, 1), Leads(3, -1), Backs(3, 0)], 0, 1);
  }
}
