/**
 * Leader election of the queue-driven Raft cluster: at most one leader per
 * term, whatever is lost, delayed, reordered or timed out.
 */
module RaftElection {
  import Quorum
  import opened MessageQueue

  datatype Role = Follower | Candidate | Leader

  datatype Entry = Entry(term: nat, command: int)

  // votedFor is -1 when the node has not voted in its current term.
  // next and matched hold one index per node, and indices start at -1 for none.
  datatype Node = Node(role: Role, term: nat, votedFor: int, log: seq<Entry>, votes: nat,
                       next: seq<int>, matched: seq<int>, commit: int)

  datatype Msg =
    | RequestVote(from: nat, to: nat, term: nat, lastIndex: int, lastTerm: nat)
    | VoteReply(from: nat, to: nat, term: nat, granted: bool)
    | AppendEntries(from: nat, to: nat, term: nat, prevIndex: int, prevTerm: nat, leaderCommit: int)
    | AppendReply(from: nat, to: nat, term: nat, success: bool, index: int)
    | ClientCommand(command: int)

  const CAPACITY := 127
  const MAX_LOG := 256

  datatype Cluster = Cluster(nodes: seq<Node>, queue: seq<Msg>, leader: int)

  // ---------- What each call does ----------

  function LastIndex(nd: Node): int { |nd.log| - 1 }

  function LastTerm(nd: Node): nat { if nd.log == [] then 0 else nd.log[|nd.log| - 1].term }

  function AsFollower(nd: Node, term: nat): Node { nd.(role := Follower, term := term, votedFor := -1) }

  function AsCandidate(nd: Node, i: nat): Node {
    nd.(role := Candidate, term := nd.term + 1, votedFor := i, votes := 1)
  }

  // Requests of candidate i, or heartbeats of leader i, to its peers below k.
  function SendRequests(q: seq<Msg>, i: nat, nd: Node, k: nat): seq<Msg> {
    if k == 0 then q else
    var q' := SendRequests(q, i, nd, k - 1);
    if k - 1 == i then q' else Send(q', RequestVote(i, k - 1, nd.term, LastIndex(nd), LastTerm(nd)), CAPACITY)
  }

  // One entry of an index table.
  function Slot(table: seq<int>, i: nat): int { if i < |table| then table[i] else 0 }

  function Put(table: seq<int>, i: nat, x: int): seq<int> { if i < |table| then table[i := x] else table }

  function TermAt(log: seq<Entry>, index: int): nat { if 0 <= index < |log| then log[index].term else 0 }

  // An append request carries no entries, only the leader's position for the node.
  function Request(nd: Node, i: nat, to: nat): Msg {
    var prev := Slot(nd.next, to) - 1; AppendEntries(i, to, nd.term, prev, TermAt(nd.log, prev), nd.commit)
  }

  function SendHeartbeats(q: seq<Msg>, i: nat, nd: Node, k: nat): seq<Msg> {
    if k == 0 then q else
    var q' := SendHeartbeats(q, i, nd, k - 1);
    if k - 1 == i then q' else Send(q', Request(nd, i, k - 1), CAPACITY)
  }

  function AsLeader(nd: Node): Node {
    nd.(role := Leader, next := seq(|nd.next|, _ => |nd.log|), matched := seq(|nd.matched|, _ => -1))
  }

  // How many of the first k nodes are known to hold the leader's entry n.
  function Holders(nd: Node, l: nat, n: int, k: nat): nat {
    if k == 0 then 0 else Holders(nd, l, n, k - 1) + if k - 1 != l && Slot(nd.matched, k - 1) >= n then 1 else 0
  }

  // The commit index after trying the entries below n: the last one of the
  // leader's term that a majority holds.
  function Advanced(nd: Node, l: nat, size: nat, n: int): int
    decreases n
  {
    if n <= nd.commit + 1 || n <= 0 then nd.commit
    else if TermAt(nd.log, n - 1) == nd.term && 1 + Holders(nd, l, n - 1, size) >= Quorum.Size(size) then n - 1
    else Advanced(nd, l, size, n - 1)
  }

  function AdvanceCommit(nd: Node, l: nat, size: nat): Node { nd.(commit := Advanced(nd, l, size, |nd.log|)) }

  function BecomeLeader(c: Cluster, i: nat): Cluster
    requires i < |c.nodes|
  {
    var nd := AsLeader(c.nodes[i]);
    Cluster(c.nodes[i := nd], SendHeartbeats(c.queue, i, nd, |c.nodes|), i)
  }

  function LeadIfElected(c: Cluster, i: nat): Cluster
    requires i < |c.nodes|
  {
    if c.nodes[i].votes >= Quorum.Size(|c.nodes|) then BecomeLeader(c, i) else c
  }

  function StartElection(c: Cluster, i: nat): Cluster
    requires i < |c.nodes|
  {
    var nd := AsCandidate(c.nodes[i], i);
    LeadIfElected(c.(nodes := c.nodes[i := nd], queue := SendRequests(c.queue, i, nd, |c.nodes|)), i)
  }

  predicate UpToDate(nd: Node, lastIndex: int, lastTerm: nat) {
    lastTerm > LastTerm(nd) || (lastTerm == LastTerm(nd) && lastIndex >= LastIndex(nd))
  }

  predicate Grants(nd: Node, m: Msg)
    requires m.RequestVote?
  {
    (nd.votedFor == -1 || nd.votedFor == m.from) && UpToDate(nd, m.lastIndex, m.lastTerm)
  }

  function HandleRequestVote(c: Cluster, m: Msg): Cluster
    requires m.RequestVote? && m.to < |c.nodes|
  {
    var nd := c.nodes[m.to];
    if m.term < nd.term then
      c.(queue := Send(c.queue, VoteReply(m.to, m.from, nd.term, false), CAPACITY))
    else
      var nd := if m.term > nd.term then AsFollower(nd, m.term) else nd;
      var g := Grants(nd, m);
      var nd := if g then nd.(votedFor := m.from) else nd;
      c.(nodes := c.nodes[m.to := nd], queue := Send(c.queue, VoteReply(m.to, m.from, nd.term, g), CAPACITY))
  }

  function CountVote(c: Cluster, i: nat): Cluster
    requires i < |c.nodes|
  {
    c.(nodes := c.nodes[i := c.nodes[i].(votes := c.nodes[i].votes + 1)])
  }

  function HandleVoteReply(c: Cluster, m: Msg): Cluster
    requires m.VoteReply? && m.to < |c.nodes|
  {
    var nd := c.nodes[m.to];
    if m.term > nd.term then c.(nodes := c.nodes[m.to := AsFollower(nd, m.term)])
    else if m.term == nd.term && nd.role == Candidate && m.granted then
      LeadIfElected(CountVote(c, m.to), m.to)
    else c
  }

  predicate LogOk(nd: Node, index: int, term: nat) { index < 0 || (index < |nd.log| && nd.log[index].term == term) }

  // The commit index follows the leader's, up to the end of the log.
  function FollowCommit(nd: Node, leaderCommit: int): Node {
    if leaderCommit <= nd.commit then nd
    else nd.(commit := if leaderCommit >= |nd.log| then |nd.log| - 1 else leaderCommit)
  }

  // A node that hears of a leader of its term or a later one follows it.
  function Joined(nd: Node, term: nat): Node {
    var nd := if term > nd.term then AsFollower(nd, term) else nd;
    if nd.role == Candidate then nd.(role := Follower) else nd
  }

  // The answer of a node to a request of its term.
  function Answer(c: Cluster, m: Msg): Cluster
    requires m.AppendEntries? && m.to < |c.nodes|
  {
    var nd := c.nodes[m.to];
    if !LogOk(nd, m.prevIndex, m.prevTerm)
    then c.(queue := Send(c.queue, AppendReply(m.to, m.from, nd.term, false, -1), CAPACITY))
    else c.(nodes := c.nodes[m.to := FollowCommit(nd, m.leaderCommit)],
            queue := Send(c.queue, AppendReply(m.to, m.from, nd.term, true, m.prevIndex), CAPACITY))
  }

  function HandleAppendEntries(c: Cluster, m: Msg): Cluster
    requires m.AppendEntries? && m.to < |c.nodes|
  {
    var nd := c.nodes[m.to];
    if m.term < nd.term then c.(queue := Send(c.queue, AppendReply(m.to, m.from, nd.term, false, -1), CAPACITY))
    else Answer(c.(nodes := c.nodes[m.to := Joined(nd, m.term)], leader := m.from), m)
  }

  // The leader's bookkeeping for the node that answers.
  function Record(nd: Node, l: nat, size: nat, m: Msg): Node
    requires m.AppendReply?
  {
    if m.success then
      var nd := nd.(matched := Put(nd.matched, m.from, m.index), next := Put(nd.next, m.from, m.index + 1));
      AdvanceCommit(nd, l, size)
    else if Slot(nd.next, m.from) > 0 then nd.(next := Put(nd.next, m.from, Slot(nd.next, m.from) - 1))
    else nd
  }

  function HandleAppendReply(c: Cluster, m: Msg): Cluster
    requires m.AppendReply? && m.to < |c.nodes|
  {
    var nd := c.nodes[m.to];
    if m.term > nd.term then c.(nodes := c.nodes[m.to := AsFollower(nd, m.term)], leader := -1)
    else if nd.role != Leader then c
    else c.(nodes := c.nodes[m.to := Record(nd, m.to, |c.nodes|, m)])
  }

  // A client command goes to whichever node the cluster remembers as leader.
  function Submit(c: Cluster, command: int): Cluster {
    if 0 <= c.leader < |c.nodes| && |c.nodes[c.leader].log| < MAX_LOG then
      c.(nodes := c.nodes[c.leader := Appended(c.nodes[c.leader], c.leader, command)])
    else c
  }

  function Appended(nd: Node, l: nat, command: int): Node {
    nd.(log := nd.log + [Entry(nd.term, command)],
        matched := Put(nd.matched, l, |nd.log|), next := Put(nd.next, l, |nd.log| + 1))
  }

  // The remembered leader, if any, tries to commit more entries.
  function CommitRound(c: Cluster): Cluster {
    if 0 <= c.leader < |c.nodes|
    then c.(nodes := c.nodes[c.leader := AdvanceCommit(c.nodes[c.leader], c.leader, |c.nodes|)]) else c
  }

  // The remembered leader, if any, sends a heartbeat to everybody else.
  function HeartbeatRound(c: Cluster): Cluster {
    if 0 <= c.leader < |c.nodes|
    then c.(queue := SendHeartbeats(c.queue, c.leader, c.nodes[c.leader], |c.nodes|)) else c
  }

  predicate Addressed(n: nat, m: Msg) { m.ClientCommand? || (m.from < n && m.to < n) }

  function Process(c: Cluster, m: Msg): Cluster
    requires Addressed(|c.nodes|, m)
  {
    match m
    case RequestVote(_, _, _, _, _) => HandleRequestVote(c, m)
    case VoteReply(_, _, _, _) => HandleVoteReply(c, m)
    case AppendEntries(_, _, _, _, _, _) => HandleAppendEntries(c, m)
    case AppendReply(_, _, _, _, _) => HandleAppendReply(c, m)
    case ClientCommand(command) => Submit(c, command)
  }

  // ---------- Runs, with the votes cast and the leaderships observed ----------

  datatype Vote = Vote(voter: nat, term: nat, candidate: int)

  datatype World = World(c: Cluster, votes: set<Vote>, leaders: set<(nat, nat)>)

  datatype Step =
    | Timeout(i: nat)                // the election timer of a node that is not leader fires
    | Deliver(k: nat)                // the k-th queued message is taken and processed
    | Lose(k: nat)                   // the k-th queued message is lost
    | Client(command: int)           // a client submits a command
    | Heartbeat                      // the remembered leader sends a round of heartbeats
    | CommitEntries                  // the remembered leader tries to commit entries

  function Without(q: seq<Msg>, k: nat): seq<Msg>
    requires k < |q|
  {
    q[..k] + q[k + 1..]
  }

  function InitCluster(n: nat): Cluster { Cluster(seq(n, _ => Blank(n)), [], -1) }

  function Blank(n: nat): Node { Node(Follower, 0, -1, [], 0, seq(n, _ => 0), seq(n, _ => -1), -1) }

  function Init(n: nat): World { World(InitCluster(n), {}, {}) }

  // Record the votes and leaderships visible in the new cluster state.
  function Observe(w: World, c: Cluster): World {
    World(c,
          w.votes + (set i | 0 <= i < |c.nodes| && c.nodes[i].votedFor != -1
                       :: Vote(i, c.nodes[i].term, c.nodes[i].votedFor)),
          w.leaders + (set i | 0 <= i < |c.nodes| && c.nodes[i].role == Leader :: (i, c.nodes[i].term)))
  }

  function NextCluster(c: Cluster, s: Step): Cluster {
    match s
    case Timeout(i) => if i < |c.nodes| && c.nodes[i].role != Leader then StartElection(c, i) else c
    case Deliver(k) =>
      if k < |c.queue| && Addressed(|c.nodes|, c.queue[k])
      then Process(c.(queue := Without(c.queue, k)), c.queue[k]) else c
    case Lose(k) => if k < |c.queue| then c.(queue := Without(c.queue, k)) else c
    case Client(command) => Submit(c, command)
    case Heartbeat => HeartbeatRound(c)
    case CommitEntries => CommitRound(c)
  }

  function Exec(n: nat, steps: seq<Step>): World {
    if steps == [] then Init(n) else
    var w := Exec(n, steps[..|steps| - 1]);
    Observe(w, NextCluster(w.c, steps[|steps| - 1]))
  }

  // ---------- The inductive invariant ----------

  // A request for a vote and the granted reply to it stand for the same,
  // not yet counted, vote.
  datatype Token = Token(candidate: nat, voter: nat, term: nat)

  predicate HasToken(m: Msg) { m.RequestVote? || (m.VoteReply? && m.granted) }

  function TokenOf(m: Msg): Token
    requires HasToken(m)
  {
    if m.RequestVote? then Token(m.from, m.to, m.term) else Token(m.to, m.from, m.term)
  }

  ghost predicate Pending(q: seq<Msg>, t: Token) {
    exists k :: 0 <= k < |q| && HasToken(q[k]) && TokenOf(q[k]) == t
  }

  ghost predicate Distinct(q: seq<Msg>) {
    forall j, k :: 0 <= j < k < |q| && HasToken(q[j]) && HasToken(q[k]) ==> TokenOf(q[j]) != TokenOf(q[k])
  }

  ghost predicate MsgOk(nodes: seq<Node>, votes: set<Vote>, m: Msg) {
    && Addressed(|nodes|, m)
    && (HasToken(m) ==> m.from != m.to && TokenOf(m).term <= nodes[TokenOf(m).candidate].term)
    && (m.VoteReply? && m.granted ==> Vote(m.from, m.term, m.to) in votes)
  }

  ghost predicate QueueOk(nodes: seq<Node>, votes: set<Vote>, q: seq<Msg>) {
    Distinct(q) && forall k :: 0 <= k < |q| ==> MsgOk(nodes, votes, q[k])
  }

  // A node votes once per term, and remembers the vote of its current term.
  ghost predicate VotesOk(nodes: seq<Node>, votes: set<Vote>) {
    && (forall x <- votes :: x.candidate != -1 && x.voter < |nodes| && x.term <= nodes[x.voter].term
          && (x.term == nodes[x.voter].term ==> x.candidate == nodes[x.voter].votedFor))
    && (forall i :: 0 <= i < |nodes| && nodes[i].votedFor != -1 ==> Vote(i, nodes[i].term, nodes[i].votedFor) in votes)
    && (forall x <- votes, y <- votes :: x.voter == y.voter && x.term == y.term ==> x == y)
  }

  ghost function Backers(votes: set<Vote>, candidate: int, term: nat): set<nat> {
    set x | x in votes && x.term == term && x.candidate == candidate :: x.voter
  }

  // The voters of candidate i's current term whose vote is no longer under way.
  ghost function Counted(w: World, i: nat): set<nat>
    requires i < |w.c.nodes|
  {
    set v | v in Backers(w.votes, i, w.c.nodes[i].term) && !Pending(w.c.queue, Token(i, v, w.c.nodes[i].term))
  }

  ghost predicate TallyOk(w: World, i: nat)
    requires i < |w.c.nodes|
  {
    w.c.nodes[i].role == Candidate ==> w.c.nodes[i].votes <= |Counted(w, i)|
  }

  ghost predicate Inv(w: World) {
    && VotesOk(w.c.nodes, w.votes)
    && QueueOk(w.c.nodes, w.votes, w.c.queue)
    && (forall i :: 0 <= i < |w.c.nodes| ==> TallyOk(w, i))
    && (forall i :: 0 <= i < |w.c.nodes| && w.c.nodes[i].role == Leader ==> (i, w.c.nodes[i].term) in w.leaders)
    && (forall l <- w.leaders :: |Backers(w.votes, l.0, l.1)| >= Quorum.Size(|w.c.nodes|))
  }

  // ---------- Queues ----------

  lemma {:induction false} WithoutKeepsQueue(nodes: seq<Node>, votes: set<Vote>, q: seq<Msg>, k: nat)
    requires QueueOk(nodes, votes, q) && k < |q|
    ensures QueueOk(nodes, votes, Without(q, k))
    ensures forall t :: Pending(Without(q, k), t) ==> Pending(q, t)
    ensures HasToken(q[k]) ==> !Pending(Without(q, k), TokenOf(q[k]))
  {
    var r := Without(q, k);
    forall j | 0 <= j < |r| ensures r[j] == q[if j < k then j else j + 1] {
    }
  }

  lemma {:induction false} SendKeepsQueue(nodes: seq<Node>, votes: set<Vote>, q: seq<Msg>, m: Msg)
    requires QueueOk(nodes, votes, q) && MsgOk(nodes, votes, m)
    requires HasToken(m) ==> !Pending(q, TokenOf(m))
    ensures QueueOk(nodes, votes, Send(q, m, CAPACITY))
    ensures forall t :: Pending(Send(q, m, CAPACITY), t) ==> Pending(q, t) || (HasToken(m) && t == TokenOf(m))
  {
    if |q| < CAPACITY {
      forall t | Pending(q + [m], t) ensures Pending(q, t) || (HasToken(m) && t == TokenOf(m)) {
        var k :| 0 <= k < |q + [m]| && HasToken((q + [m])[k]) && TokenOf((q + [m])[k]) == t;
        assert k < |q| ==> HasToken(q[k]);
      }
      forall k | 0 <= k < |q| && HasToken(q[k]) ensures Pending(q, TokenOf(q[k])) {
      }
    }
  }

  lemma {:induction false} HeartbeatsKeepQueue(nodes: seq<Node>, votes: set<Vote>, q: seq<Msg>, i: nat, nd: Node,
                                               k: nat)
    requires QueueOk(nodes, votes, q) && i < |nodes| && k <= |nodes|
    ensures QueueOk(nodes, votes, SendHeartbeats(q, i, nd, k))
    ensures forall t :: Pending(SendHeartbeats(q, i, nd, k), t) ==> Pending(q, t)
  {
    if k > 0 {
      HeartbeatsKeepQueue(nodes, votes, q, i, nd, k - 1);
      if k - 1 != i {
        SendKeepsQueue(nodes, votes, SendHeartbeats(q, i, nd, k - 1), Request(nd, i, k - 1));
      }
    }
  }

  lemma {:induction false} RequestsKeepQueue(nodes: seq<Node>, votes: set<Vote>, q: seq<Msg>, i: nat, k: nat)
    requires QueueOk(nodes, votes, q) && i < |nodes| && k <= |nodes|
    requires forall v :: !Pending(q, Token(i, v, nodes[i].term))
    ensures QueueOk(nodes, votes, SendRequests(q, i, nodes[i], k))
    ensures forall t :: Pending(SendRequests(q, i, nodes[i], k), t) ==>
                          || Pending(q, t)
                          || (t.candidate == i && t.term == nodes[i].term && t.voter != i && t.voter < k)
  {
    if k > 0 {
      RequestsKeepQueue(nodes, votes, q, i, k - 1);
      if k - 1 != i {
        var nd := nodes[i];
        SendKeepsQueue(nodes, votes, SendRequests(q, i, nd, k - 1),
                       RequestVote(i, k - 1, nd.term, LastIndex(nd), LastTerm(nd)));
      }
    }
  }

  // ---------- One node changes ----------

  // The term never goes back, and a vote is not changed within a term.
  ghost predicate Forward(a: Node, b: Node) {
    a.term < b.term || (a.term == b.term && (a.votedFor == b.votedFor || a.votedFor == -1))
  }

  ghost predicate OneNode(w: World, c: Cluster, i: nat) {
    && i < |w.c.nodes| == |c.nodes|
    && c.nodes == w.c.nodes[i := c.nodes[i]]
    && Forward(w.c.nodes[i], c.nodes[i])
  }

  ghost function CastBy(i: nat, nd: Node): set<Vote> {
    if nd.votedFor != -1 then {Vote(i, nd.term, nd.votedFor)} else {}
  }

  lemma {:induction false} ObservedVotes(w: World, c: Cluster, i: nat)
    requires VotesOk(w.c.nodes, w.votes) && OneNode(w, c, i)
    ensures Observe(w, c).votes == w.votes + CastBy(i, c.nodes[i])
  {
    forall x | x in Observe(w, c).votes ensures x in w.votes || x in CastBy(i, c.nodes[i]) {
      if x !in w.votes {
        assert x.voter == i;
      }
    }
    forall x | x in CastBy(i, c.nodes[i]) ensures x in Observe(w, c).votes {
    }
  }

  lemma {:induction false} ForwardKeepsVotes(nodes: seq<Node>, votes: set<Vote>, i: nat, nd: Node)
    requires VotesOk(nodes, votes) && i < |nodes| && Forward(nodes[i], nd)
    ensures VotesOk(nodes[i := nd], votes + CastBy(i, nd))
  {
    forall x | x in votes && x.voter == i && x.term == nd.term && nd.votedFor != -1
      ensures x == Vote(i, nd.term, nd.votedFor)
    {
    }
  }

  lemma {:induction false} ObserveVotes(w: World, c: Cluster, i: nat)
    requires Inv(w) && OneNode(w, c, i)
    ensures VotesOk(c.nodes, Observe(w, c).votes)
    ensures Observe(w, c).votes == w.votes + CastBy(i, c.nodes[i])
  {
    ObservedVotes(w, c, i);
    ForwardKeepsVotes(w.c.nodes, w.votes, i, c.nodes[i]);
  }

  lemma {:induction false} BackersGrow(votes: set<Vote>, votes': set<Vote>, candidate: int, term: nat)
    requires votes <= votes'
    ensures Backers(votes, candidate, term) <= Backers(votes', candidate, term)
    ensures |Backers(votes, candidate, term)| <= |Backers(votes', candidate, term)|
  {
    var a, b := Backers(votes, candidate, term), Backers(votes', candidate, term);
    assert |b| == |a| + |b - a|;
  }

  lemma {:induction false} CountedGrows(w: World, w': World, j: nat)
    requires j < |w.c.nodes| == |w'.c.nodes| && w.votes <= w'.votes && w'.c.nodes[j].term == w.c.nodes[j].term
    requires forall t :: Pending(w'.c.queue, t) && t.candidate == j ==> Pending(w.c.queue, t)
    ensures Counted(w, j) <= Counted(w', j) && |Counted(w, j)| <= |Counted(w', j)|
  {
    BackersGrow(w.votes, w'.votes, j, w.c.nodes[j].term);
    var a, b := Counted(w, j), Counted(w', j);
    assert |b| == |a| + |b - a|;
  }

  // Candidates other than i keep enough counted votes.
  lemma {:induction false} OthersTally(w: World, w': World, i: nat)
    requires |w.c.nodes| == |w'.c.nodes| && w.votes <= w'.votes
    requires forall j :: 0 <= j < |w.c.nodes| ==> TallyOk(w, j)
    requires forall j :: 0 <= j < |w.c.nodes| && j != i ==> w'.c.nodes[j] == w.c.nodes[j]
    requires forall t :: Pending(w'.c.queue, t) && t.candidate != i ==> Pending(w.c.queue, t)
    ensures forall j :: 0 <= j < |w.c.nodes| && j != i ==> TallyOk(w', j)
  {
    forall j | 0 <= j < |w.c.nodes| && j != i ensures TallyOk(w', j) {
      assert TallyOk(w, j);
      CountedGrows(w, w', j);
    }
  }

  // Leaderships already observed stay backed.
  lemma {:induction false} ObserveLeaders(w: World, c: Cluster, i: nat)
    requires Inv(w) && OneNode(w, c, i)
    requires c.nodes[i].role == Leader ==>
               |Backers(Observe(w, c).votes, i, c.nodes[i].term)| >= Quorum.Size(|c.nodes|)
    ensures forall l <- Observe(w, c).leaders :: |Backers(Observe(w, c).votes, l.0, l.1)| >= Quorum.Size(|c.nodes|)
  {
    var w' := Observe(w, c);
    forall l | l in w'.leaders ensures |Backers(w'.votes, l.0, l.1)| >= Quorum.Size(|c.nodes|) {
      if l in w.leaders {
        BackersGrow(w.votes, w'.votes, l.0, l.1);
      } else {
        assert l.0 == i;
      }
    }
  }

  // What a change of node i has to respect.
  lemma {:induction false} NodeStep(w: World, c: Cluster, i: nat)
    requires Inv(w) && OneNode(w, c, i)
    requires QueueOk(c.nodes, Observe(w, c).votes, c.queue)
    requires forall t :: Pending(c.queue, t) && t.candidate != i ==> Pending(w.c.queue, t)
    requires TallyOk(Observe(w, c), i)
    requires c.nodes[i].role == Leader ==>
               |Backers(Observe(w, c).votes, i, c.nodes[i].term)| >= Quorum.Size(|c.nodes|)
    ensures Inv(Observe(w, c))
  {
    ObserveVotes(w, c, i);
    ObserveLeaders(w, c, i);
    OthersTally(w, Observe(w, c), i);
  }

  // A step that adds no pending vote, no candidate and no leader.
  lemma {:induction false} QuietStep(w: World, c: Cluster, i: nat)
    requires Inv(w) && OneNode(w, c, i)
    requires c.nodes[i].role != Follower ==>
               c.nodes[i].role == w.c.nodes[i].role && c.nodes[i].term == w.c.nodes[i].term
               && c.nodes[i].votes == w.c.nodes[i].votes
    requires QueueOk(c.nodes, Observe(w, c).votes, c.queue)
    requires forall t :: Pending(c.queue, t) ==> Pending(w.c.queue, t)
    ensures Inv(Observe(w, c))
  {
    var w' := Observe(w, c);
    ObserveVotes(w, c, i);
    if c.nodes[i].role == Leader {
      BackersGrow(w.votes, w'.votes, i, c.nodes[i].term);
      assert (i, c.nodes[i].term) in w.leaders;
    }
    if c.nodes[i].role == Candidate {
      CountedGrows(w, w', i);
      assert TallyOk(w, i);
    }
    NodeStep(w, c, i);
  }

  lemma {:induction false} QueueOkForward(nodes: seq<Node>, votes: set<Vote>, nodes': seq<Node>, votes': set<Vote>,
                                          q: seq<Msg>)
    requires QueueOk(nodes, votes, q) && votes <= votes' && |nodes| == |nodes'|
    requires forall i :: 0 <= i < |nodes| ==> nodes[i].term <= nodes'[i].term
    ensures QueueOk(nodes', votes', q)
  {
    forall k | 0 <= k < |q| ensures MsgOk(nodes', votes', q[k]) {
      assert MsgOk(nodes, votes, q[k]);
    }
  }

  // ---------- Delivering each kind of message ----------

  ghost predicate Delivers(w: World, k: nat) {
    Inv(w) && k < |w.c.queue|
  }

  function Rest(w: World, k: nat): Cluster
    requires k < |w.c.queue|
  {
    w.c.(queue := Without(w.c.queue, k))
  }

  lemma {:induction false} RestOk(w: World, k: nat, c: Cluster, i: nat)
    requires Delivers(w, k) && OneNode(w, c, i)
    ensures MsgOk(w.c.nodes, w.votes, w.c.queue[k])
    ensures QueueOk(c.nodes, Observe(w, c).votes, Rest(w, k).queue)
    ensures forall t :: Pending(Rest(w, k).queue, t) ==> Pending(w.c.queue, t)
  {
    ObserveVotes(w, c, i);
    WithoutKeepsQueue(w.c.nodes, w.votes, w.c.queue, k);
    QueueOkForward(w.c.nodes, w.votes, c.nodes, Observe(w, c).votes, Rest(w, k).queue);
  }

  lemma {:induction false} RequestVoteKeepsInv(w: World, k: nat)
    requires Delivers(w, k) && w.c.queue[k].RequestVote? && Addressed(|w.c.nodes|, w.c.queue[k])
    ensures Inv(Observe(w, HandleRequestVote(Rest(w, k), w.c.queue[k])))
  {
    var m := w.c.queue[k];
    var c := HandleRequestVote(Rest(w, k), m);
    var old', nd := w.c.nodes[m.to], c.nodes[m.to];
    assert Forward(old', nd);
    RestOk(w, k, c, m.to);
    ObserveVotes(w, c, m.to);
    var g := m.term >= old'.term && Grants(if m.term > old'.term then AsFollower(old', m.term) else old', m);
    var reply := VoteReply(m.to, m.from, nd.term, g);
    WithoutKeepsQueue(w.c.nodes, w.votes, w.c.queue, k);
    SendKeepsQueue(c.nodes, Observe(w, c).votes, Rest(w, k).queue, reply);
    assert c.queue == Send(Rest(w, k).queue, reply, CAPACITY);
    assert g ==> TokenOf(reply) == TokenOf(m);
    QuietStep(w, c, m.to);
  }

  lemma {:induction false} AppendEntriesKeepsInv(w: World, k: nat)
    requires Delivers(w, k) && w.c.queue[k].AppendEntries? && Addressed(|w.c.nodes|, w.c.queue[k])
    ensures Inv(Observe(w, HandleAppendEntries(Rest(w, k), w.c.queue[k])))
  {
    var m := w.c.queue[k];
    var c := HandleAppendEntries(Rest(w, k), m);
    RestOk(w, k, c, m.to);
    var ok := m.term >= w.c.nodes[m.to].term && LogOk(w.c.nodes[m.to], m.prevIndex, m.prevTerm);
    var reply := AppendReply(m.to, m.from, c.nodes[m.to].term, ok, if ok then m.prevIndex else -1);
    SendKeepsQueue(c.nodes, Observe(w, c).votes, Rest(w, k).queue, reply);
    assert c.queue == Send(Rest(w, k).queue, reply, CAPACITY);
    QuietStep(w, c, m.to);
  }

  lemma {:induction false} AppendReplyKeepsInv(w: World, k: nat)
    requires Delivers(w, k) && w.c.queue[k].AppendReply? && Addressed(|w.c.nodes|, w.c.queue[k])
    ensures Inv(Observe(w, HandleAppendReply(Rest(w, k), w.c.queue[k])))
  {
    var m := w.c.queue[k];
    var c := HandleAppendReply(Rest(w, k), m);
    RestOk(w, k, c, m.to);
    QuietStep(w, c, m.to);
  }

  lemma {:induction false} CountedBack(w: World, i: nat)
    requires i < |w.c.nodes| && TallyOk(w, i) && w.c.nodes[i].role == Candidate
    ensures |Backers(w.votes, i, w.c.nodes[i].term)| >= w.c.nodes[i].votes
  {
    var a, b := Counted(w, i), Backers(w.votes, i, w.c.nodes[i].term);
    assert a <= b && |b| == |a| + |b - a|;
  }

  // A candidate with a quorum of counted votes may lead.
  lemma {:induction false} BecomeLeaderKeepsInv(w: World, i: nat)
    requires Inv(w) && i < |w.c.nodes| && w.c.nodes[i].role == Candidate
    requires w.c.nodes[i].votes >= Quorum.Size(|w.c.nodes|)
    ensures Inv(Observe(w, BecomeLeader(w.c, i)))
    ensures Observe(w, BecomeLeader(w.c, i)).votes == w.votes
  {
    var c := BecomeLeader(w.c, i);
    var w' := Observe(w, c);
    ObserveVotes(w, c, i);
    assert w'.votes == w.votes by { assert CastBy(i, c.nodes[i]) <= w.votes; }
    assert |Backers(w'.votes, i, c.nodes[i].term)| >= Quorum.Size(|c.nodes|) by { CountedBack(w, i); }
    QueueOkForward(w.c.nodes, w.votes, c.nodes, w'.votes, w.c.queue);
    HeartbeatsKeepQueue(c.nodes, w'.votes, w.c.queue, i, c.nodes[i], |c.nodes|);
    NodeStep(w, c, i);
  }

  lemma {:induction false} ObserveTwice(w: World, c: Cluster, i: nat)
    requires i < |c.nodes| && c.nodes[i].role == Candidate
    ensures Observe(Observe(w, c), BecomeLeader(c, i)) == Observe(w, BecomeLeader(c, i))
  {
    var d := BecomeLeader(c, i);
    var x, y := Observe(Observe(w, c), d), Observe(w, d);
    forall j | 0 <= j < |c.nodes|
      ensures c.nodes[j].votedFor == d.nodes[j].votedFor && c.nodes[j].term == d.nodes[j].term
      ensures c.nodes[j].role == Leader ==> d.nodes[j].role == Leader
    {
    }
    assert x.votes == y.votes;
    assert x.leaders == y.leaders;
  }

  lemma {:induction false} LeadKeepsInv(w: World, c: Cluster, i: nat)
    requires Inv(Observe(w, c)) && i < |c.nodes| && c.nodes[i].role == Candidate
    ensures Inv(Observe(w, LeadIfElected(c, i)))
  {
    if c.nodes[i].votes >= Quorum.Size(|c.nodes|) {
      BecomeLeaderKeepsInv(Observe(w, c), i);
      ObserveTwice(w, c, i);
    }
  }

  // Counting a granted vote: its token leaves the queue, so the voter joins
  // the counted ones.
  lemma {:induction false} CountKeepsInv(w: World, k: nat)
    requires Delivers(w, k) && w.c.queue[k].VoteReply? && w.c.queue[k].granted
    requires Addressed(|w.c.nodes|, w.c.queue[k])
    requires w.c.nodes[w.c.queue[k].to].role == Candidate && w.c.nodes[w.c.queue[k].to].term == w.c.queue[k].term
    ensures Inv(Observe(w, CountVote(Rest(w, k), w.c.queue[k].to)))
  {
    var m := w.c.queue[k];
    var c := CountVote(Rest(w, k), m.to);
    RestOk(w, k, c, m.to);
    assert TallyOk(Observe(w, c), m.to) by {
      OneMoreCounted(w, k);
      CountedGrows(World(Rest(w, k), w.votes, w.leaders), Observe(w, c), m.to);
    }
    NodeStep(w, c, m.to);
  }

  lemma {:induction false} OneMoreCounted(w: World, k: nat)
    requires Delivers(w, k) && w.c.queue[k].VoteReply? && w.c.queue[k].granted
    requires Addressed(|w.c.nodes|, w.c.queue[k])
    requires w.c.nodes[w.c.queue[k].to].role == Candidate && w.c.nodes[w.c.queue[k].to].term == w.c.queue[k].term
    ensures var i := w.c.queue[k].to;
            w.c.nodes[i].votes + 1 <= |Counted(World(Rest(w, k), w.votes, w.leaders), i)|
  {
    var m := w.c.queue[k];
    var w' := World(Rest(w, k), w.votes, w.leaders);
    WithoutKeepsQueue(w.c.nodes, w.votes, w.c.queue, k);
    CountedGrows(w, w', m.to);
    var a, b := Counted(w, m.to), Counted(w', m.to);
    assert TallyOk(w, m.to) && MsgOk(w.c.nodes, w.votes, m);
    assert Vote(m.from, m.term, m.to) in w.votes;
    assert m.from in b - a;
    assert |b| == |a| + |b - a|;
  }

  lemma {:induction false} IgnoredReplyKeepsInv(w: World, k: nat)
    requires Delivers(w, k) && w.c.queue[k].VoteReply? && Addressed(|w.c.nodes|, w.c.queue[k])
    requires var m := w.c.queue[k]; var nd := w.c.nodes[m.to];
             !(m.term == nd.term && nd.role == Candidate && m.granted)
    ensures Inv(Observe(w, HandleVoteReply(Rest(w, k), w.c.queue[k])))
  {
    var m := w.c.queue[k];
    var c := HandleVoteReply(Rest(w, k), m);
    RestOk(w, k, c, m.to);
    QuietStep(w, c, m.to);
  }

  lemma {:induction false} VoteReplyKeepsInv(w: World, k: nat)
    requires Delivers(w, k) && w.c.queue[k].VoteReply? && Addressed(|w.c.nodes|, w.c.queue[k])
    ensures Inv(Observe(w, HandleVoteReply(Rest(w, k), w.c.queue[k])))
  {
    var m := w.c.queue[k];
    var nd := w.c.nodes[m.to];
    if m.term == nd.term && nd.role == Candidate && m.granted {
      CountKeepsInv(w, k);
      LeadKeepsInv(w, CountVote(Rest(w, k), m.to), m.to);
    } else {
      IgnoredReplyKeepsInv(w, k);
    }
  }

  // A new candidacy: the term is new, so no vote for it is under way.
  lemma {:induction false} CandidacyKeepsInv(w: World, i: nat, nd: Node)
    requires Inv(w) && i < |w.c.nodes| && w.c.nodes[i].role != Leader
    requires nd == AsCandidate(w.c.nodes[i], i)
    ensures Inv(Observe(w, w.c.(nodes := w.c.nodes[i := nd], queue := SendRequests(w.c.queue, i, nd, |w.c.nodes|))))
  {
    var c := w.c.(nodes := w.c.nodes[i := nd], queue := SendRequests(w.c.queue, i, nd, |w.c.nodes|));
    var w' := Observe(w, c);
    ObserveVotes(w, c, i);
    QueueOkForward(w.c.nodes, w.votes, c.nodes, w'.votes, w.c.queue);
    assert forall v :: !Pending(w.c.queue, Token(i, v, nd.term));
    RequestsKeepQueue(c.nodes, w'.votes, w.c.queue, i, |c.nodes|);
    assert Vote(i, nd.term, i) in w'.votes;
    assert i in Counted(w', i);
    NodeStep(w, c, i);
  }

  lemma {:induction false} TimeoutKeepsInv(w: World, i: nat)
    requires Inv(w) && i < |w.c.nodes| && w.c.nodes[i].role != Leader
    ensures Inv(Observe(w, StartElection(w.c, i)))
  {
    var nd := AsCandidate(w.c.nodes[i], i);
    CandidacyKeepsInv(w, i, nd);
    LeadKeepsInv(w, w.c.(nodes := w.c.nodes[i := nd], queue := SendRequests(w.c.queue, i, nd, |w.c.nodes|)), i);
  }

  // Only the queue shrinks, or nothing happens.
  lemma {:induction false} StillKeepsInv(w: World, q: seq<Msg>)
    requires Inv(w) && QueueOk(w.c.nodes, w.votes, q)
    requires forall t :: Pending(q, t) ==> Pending(w.c.queue, t)
    ensures Inv(Observe(w, w.c.(queue := q)))
  {
    var c := w.c.(queue := q);
    if |c.nodes| > 0 {
      ObserveVotes(w, c, 0);
      QueueOkForward(w.c.nodes, w.votes, c.nodes, Observe(w, c).votes, q);
      QuietStep(w, c, 0);
    } else {
      assert Observe(w, c) == w.(c := c);
    }
  }

  lemma {:induction false} SubmitKeepsInv(w: World, q: seq<Msg>, command: int)
    requires Inv(w) && QueueOk(w.c.nodes, w.votes, q)
    requires forall t :: Pending(q, t) ==> Pending(w.c.queue, t)
    ensures Inv(Observe(w, Submit(w.c.(queue := q), command)))
  {
    var c := Submit(w.c.(queue := q), command);
    StillKeepsInv(w, q);
    if c != w.c.(queue := q) {
      ObserveVotes(w, c, c.leader);
      QueueOkForward(w.c.nodes, w.votes, c.nodes, Observe(w, c).votes, q);
      QuietStep(w, c, c.leader);
    }
  }

  lemma {:induction false} CommitKeepsInv(w: World)
    requires Inv(w) && 0 <= w.c.leader < |w.c.nodes|
    ensures Inv(Observe(w, CommitRound(w.c)))
  {
    var c := CommitRound(w.c);
    ObserveVotes(w, c, c.leader);
    QueueOkForward(w.c.nodes, w.votes, c.nodes, Observe(w, c).votes, c.queue);
    QuietStep(w, c, c.leader);
  }

  lemma {:induction false} HeartbeatKeepsInv(w: World)
    requires Inv(w) && 0 <= w.c.leader < |w.c.nodes|
    ensures Inv(Observe(w, HeartbeatRound(w.c)))
  {
    var l := w.c.leader;
    HeartbeatsKeepQueue(w.c.nodes, w.votes, w.c.queue, l, w.c.nodes[l], |w.c.nodes|);
    StillKeepsInv(w, SendHeartbeats(w.c.queue, l, w.c.nodes[l], |w.c.nodes|));
  }

  lemma {:induction false} DeliveryKeepsInv(w: World, k: nat)
    requires Inv(w) && k < |w.c.queue| && Addressed(|w.c.nodes|, w.c.queue[k])
    ensures Inv(Observe(w, Process(w.c.(queue := Without(w.c.queue, k)), w.c.queue[k])))
  {
    match w.c.queue[k]
    case RequestVote(_, _, _, _, _) => RequestVoteKeepsInv(w, k);
    case VoteReply(_, _, _, _) => VoteReplyKeepsInv(w, k);
    case AppendEntries(_, _, _, _, _, _) => AppendEntriesKeepsInv(w, k);
    case AppendReply(_, _, _, _, _) => AppendReplyKeepsInv(w, k);
    case ClientCommand(command) =>
      WithoutKeepsQueue(w.c.nodes, w.votes, w.c.queue, k);
      SubmitKeepsInv(w, Without(w.c.queue, k), command);
  }

  lemma {:induction false} NextKeepsInv(w: World, s: Step)
    requires Inv(w)
    ensures Inv(Observe(w, NextCluster(w.c, s)))
  {
    StillKeepsInv(w, w.c.queue);
    match s
    case Timeout(i) =>
      if i < |w.c.nodes| && w.c.nodes[i].role != Leader {
        TimeoutKeepsInv(w, i);
      }
    case Deliver(k) =>
      if k < |w.c.queue| && Addressed(|w.c.nodes|, w.c.queue[k]) {
        DeliveryKeepsInv(w, k);
      }
    case Lose(k) =>
      if k < |w.c.queue| {
        WithoutKeepsQueue(w.c.nodes, w.votes, w.c.queue, k);
        StillKeepsInv(w, Without(w.c.queue, k));
      }
    case Client(command) => SubmitKeepsInv(w, w.c.queue, command);
    case Heartbeat =>
      if 0 <= w.c.leader < |w.c.nodes| {
        HeartbeatKeepsInv(w);
      }
    case CommitEntries =>
      if 0 <= w.c.leader < |w.c.nodes| {
        CommitKeepsInv(w);
      }
  }

  lemma {:induction false} ExecKeepsInv(n: nat, steps: seq<Step>)
    ensures Inv(Exec(n, steps)) && |Exec(n, steps).c.nodes| == n
  {
    if steps == [] {
      InitInv(n);
    } else {
      var w := Exec(n, steps[..|steps| - 1]);
      ExecKeepsInv(n, steps[..|steps| - 1]);
      NextKeepsInv(w, steps[|steps| - 1]);
      SameNodes(w.c, steps[|steps| - 1]);
    }
  }

  lemma {:induction false} InitInv(n: nat)
    ensures Inv(Init(n))
  {
  }

  lemma {:induction false} SameNodes(c: Cluster, s: Step)
    ensures |NextCluster(c, s).nodes| == |c.nodes|
  {
  }

  // Election safety: over every run of every cluster, no two nodes have ever
  // been leader in the same term.
  lemma {:induction false} ElectionSafety(n: nat, steps: seq<Step>, a: nat, b: nat, term: nat)
    requires (a, term) in Exec(n, steps).leaders && (b, term) in Exec(n, steps).leaders
    ensures a == b
  {
    ExecKeepsInv(n, steps);
    var w := Exec(n, steps);
    var x, y := Backers(w.votes, a, term), Backers(w.votes, b, term);
    Quorum.Intersection(n, x, y);
    var v :| v in x && v in y;
    assert Vote(v, term, a) in w.votes && Vote(v, term, b) in w.votes;
  }

  // ---------- Votes elect ----------

  // A candidate does not have a majority yet.
  ghost predicate Short(c: Cluster) {
    forall i :: 0 <= i < |c.nodes| && c.nodes[i].role == Candidate ==> 2 * c.nodes[i].votes <= |c.nodes|
  }

  lemma {:induction false} NextShort(c: Cluster, s: Step)
    requires Short(c)
    ensures Short(NextCluster(c, s))
  {
    match s
    case Timeout(i) =>
      if i < |c.nodes| && c.nodes[i].role != Leader { StartShort(c, i); }
    case Deliver(k) =>
      if k < |c.queue| && Addressed(|c.nodes|, c.queue[k]) {
        ProcessShort(c.(queue := Without(c.queue, k)), c.queue[k]);
      }
    case _ =>
  }

  lemma {:induction false} StartShort(c: Cluster, i: nat)
    requires Short(c) && i < |c.nodes|
    ensures Short(StartElection(c, i))
  {
  }

  lemma {:induction false} ProcessShort(c: Cluster, m: Msg)
    requires Short(c) && Addressed(|c.nodes|, m)
    ensures Short(Process(c, m))
  {
  }

  lemma {:induction false} CandidatesAreShort(n: nat, steps: seq<Step>, i: nat)
    requires i < n && i < |Exec(n, steps).c.nodes| && Exec(n, steps).c.nodes[i].role == Candidate
    ensures 2 * Exec(n, steps).c.nodes[i].votes <= n
  {
    ExecShort(n, steps);
  }

  lemma {:induction false} ExecShort(n: nat, steps: seq<Step>)
    ensures Short(Exec(n, steps).c) && |Exec(n, steps).c.nodes| == n
  {
    if steps != [] {
      ExecShort(n, steps[..|steps| - 1]);
      NextShort(Exec(n, steps[..|steps| - 1]).c, steps[|steps| - 1]);
      SameNodes(Exec(n, steps[..|steps| - 1]).c, steps[|steps| - 1]);
    }
  }

  // A granted reply of the current candidacy is counted, and the vote that makes a
  // majority makes the leader.
  lemma {:induction false} ReplyElects(c: Cluster, m: Msg)
    requires m.VoteReply? && m.granted && m.to < |c.nodes| && m.from < |c.nodes|
    requires c.nodes[m.to].role == Candidate && c.nodes[m.to].term == m.term
    ensures var c' := Process(c, m); var nd := c'.nodes[m.to];
            && |c'.nodes| == |c.nodes| && nd.votes == c.nodes[m.to].votes + 1 && nd.term == m.term
            && if 2 * nd.votes > |c.nodes| then nd.role == Leader && c'.leader == m.to
               else nd.role == Candidate && c'.leader == c.leader && c'.queue == c.queue
  {
  }

  // The j-th other node.
  function Peer(i: nat, j: nat): nat { if j < i then j else j + 1 }

  function Ask(i: nat, j: nat): Msg { RequestVote(i, Peer(i, j), 1, -1, 0) }

  function Yes(i: nat, j: nat): Msg { VoteReply(Peer(i, j), i, 1, true) }

  // The first messages that were not delivered yet, and the answers so far.
  function Asks(i: nat, from: nat, to: nat): seq<Msg>
    requires from <= to
  {
    seq(to - from, j requires 0 <= j => Ask(i, from + j))
  }

  function Yeses(i: nat, from: nat, to: nat): seq<Msg>
    requires from <= to
  {
    seq(to - from, j requires 0 <= j => Yes(i, from + j))
  }

  // How many other nodes are below k.
  function Below(i: nat, k: nat): nat { if k <= i then k else k - 1 }

  // With room for all, one request goes to each other node.
  lemma {:induction false} RequestsReach(i: nat, nd: Node, k: nat)
    requires Below(i, k) <= CAPACITY && nd.term == 1 && nd.log == []
    ensures SendRequests([], i, nd, k) == Asks(i, 0, Below(i, k))
  {
    if k > 0 {
      RequestsReach(i, nd, k - 1);
      if k - 1 != i {
        assert Peer(i, Below(i, k - 1)) == k - 1;
        assert Asks(i, 0, Below(i, k)) == Asks(i, 0, Below(i, k - 1)) + [Ask(i, Below(i, k - 1))];
      }
    }
  }

  // With room for all, one heartbeat goes to each other node.
  lemma {:induction false} HeartbeatsReach(q: seq<Msg>, l: nat, nd: Node, k: nat, to: nat)
    requires |q| + Below(l, k) <= CAPACITY && to < k && to != l
    ensures Request(nd, l, to) in SendHeartbeats(q, l, nd, k)
    ensures q <= SendHeartbeats(q, l, nd, k) && |SendHeartbeats(q, l, nd, k)| == |q| + Below(l, k)
  {
    HeartbeatsSize(q, l, nd, k);
    if to < k - 1 {
      HeartbeatsReach(q, l, nd, k - 1, to);
    } else {
      HeartbeatsSize(q, l, nd, k - 1);
    }
  }

  lemma {:induction false} HeartbeatsSize(q: seq<Msg>, l: nat, nd: Node, k: nat)
    requires |q| + Below(l, k) <= CAPACITY
    ensures q <= SendHeartbeats(q, l, nd, k) && |SendHeartbeats(q, l, nd, k)| == |q| + Below(l, k)
  {
    if k > 0 {
      HeartbeatsSize(q, l, nd, k - 1);
    }
  }

  function Voter(n: nat, i: nat): Node { Blank(n).(term := 1, votedFor := i) }

  // Candidate i of n fresh nodes after j deliveries: j other nodes have voted for it,
  // and the other requests and the answers are under way.
  ghost predicate Voting(c: Cluster, n: nat, i: nat, j: nat) {
    && |c.nodes| == n && i < n && j <= n - 1 && c.nodes[i] == AsCandidate(Blank(n), i)
    && (forall x :: 0 <= x < n - 1 ==> c.nodes[Peer(i, x)] == if x < j then Voter(n, i) else Blank(n))
    && c.queue == Asks(i, j, n - 1) + Yeses(i, 0, j)
  }

  // ... and after the first k answers have been counted.
  ghost predicate Counting(c: Cluster, n: nat, i: nat, k: nat) {
    && |c.nodes| == n && i < n && k <= n - 1 && c.nodes[i] == AsCandidate(Blank(n), i).(votes := k + 1)
    && c.queue == Yeses(i, k, n - 1)
  }

  lemma {:induction false} VotingStarts(n: nat, i: nat, c: Cluster)
    requires i < n && 2 <= n <= CAPACITY + 1 && c == NextCluster(InitCluster(n), Timeout(i))
    ensures Voting(c, n, i, 0)
  {
    RequestsReach(i, AsCandidate(Blank(n), i), n);
    assert Asks(i, 0, n - 1) + Yeses(i, 0, 0) == Asks(i, 0, n - 1);
  }

  lemma {:induction false} VotingNext(c: Cluster, n: nat, i: nat, j: nat, c': Cluster)
    requires Voting(c, n, i, j) && j < n - 1 <= CAPACITY && c' == NextCluster(c, Deliver(0))
    ensures Voting(c', n, i, j + 1)
  {
    var p, rest := Peer(i, j), Asks(i, j + 1, n - 1) + Yeses(i, 0, j);
    assert c.queue[0] == Ask(i, j) && Without(c.queue, 0) == rest;
    assert c.nodes[p] == Blank(n);
    assert c'.nodes == c.nodes[p := Voter(n, i)];
    assert c'.queue == Send(rest, Yes(i, j), CAPACITY) == rest + [Yes(i, j)];
    assert Yeses(i, 0, j) + [Yes(i, j)] == Yeses(i, 0, j + 1);
    forall x | 0 <= x < n - 1 ensures c'.nodes[Peer(i, x)] == if x < j + 1 then Voter(n, i) else Blank(n) {
      assert x != j ==> Peer(i, x) != p;
    }
  }

  lemma {:induction false} CountingNext(c: Cluster, n: nat, i: nat, k: nat, c': Cluster)
    requires Counting(c, n, i, k) && k < n - 1 && c' == NextCluster(c, Deliver(0))
    ensures if 2 * (k + 2) > n then c'.nodes[i].role == Leader && c'.nodes[i].term == 1 && c'.leader == i
            else Counting(c', n, i, k + 1)
    ensures |c'.nodes| == n
  {
    var m := Yes(i, k);
    var d := c.(queue := Yeses(i, k + 1, n - 1));
    assert c.queue[0] == m && Without(c.queue, 0) == d.queue;
    ReplyElects(d, m);
    assert c' == Process(d, m);
  }

  lemma {:induction false} ExtendRun(n: nat, xs: seq<Step>, s: Step) returns (ys: seq<Step>)
    ensures ys == xs + [s] && Exec(n, ys) == Observe(Exec(n, xs), NextCluster(Exec(n, xs).c, s))
  {
    ys := xs + [s];
    assert ys[..|ys| - 1] == xs;
  }

  // All requests are delivered.
  lemma {:induction false} VotingRun(n: nat, i: nat, j: nat) returns (xs: seq<Step>)
    requires i < n && 2 <= n <= CAPACITY + 1 && j <= n - 1
    ensures Voting(Exec(n, xs).c, n, i, j)
  {
    if j == 0 {
      xs := ExtendRun(n, [], Timeout(i));
      VotingStarts(n, i, Exec(n, xs).c);
    } else {
      var ys := VotingRun(n, i, j - 1);
      xs := ExtendRun(n, ys, Deliver(0));
      VotingNext(Exec(n, ys).c, n, i, j - 1, Exec(n, xs).c);
    }
  }

  // The answers are delivered until they are a majority.
  lemma {:induction false} CountingRun(n: nat, i: nat, k: nat, xs: seq<Step>) returns (ys: seq<Step>)
    requires Counting(Exec(n, xs).c, n, i, k) && 2 <= n && 2 * (k + 1) <= n
    ensures Leads(Exec(n, ys), i)
    decreases n - k
  {
    ys := CountOne(n, i, k, xs);
    if 2 * (k + 2) <= n {
      ys := CountingRun(n, i, k + 1, ys);
    }
  }

  lemma {:induction false} CountOne(n: nat, i: nat, k: nat, xs: seq<Step>) returns (ys: seq<Step>)
    requires Counting(Exec(n, xs).c, n, i, k) && 2 <= n && 2 * (k + 1) <= n
    ensures if 2 * (k + 2) <= n then Counting(Exec(n, ys).c, n, i, k + 1) else Leads(Exec(n, ys), i)
  {
    ys := ExtendRun(n, xs, Deliver(0));
    var c := NextCluster(Exec(n, xs).c, Deliver(0));
    CountingNext(Exec(n, xs).c, n, i, k, c);
    LeadsWhen(Exec(n, xs), c, i);
  }

  lemma {:induction false} LeadsWhen(w: World, c: Cluster, i: nat)
    requires i < |c.nodes|
    ensures c.nodes[i].role == Leader && c.nodes[i].term == 1 && c.leader == i ==> Leads(Observe(w, c), i)
  {
  }

  // Node i leads term 1 and is remembered as the leader.
  ghost predicate Leads(w: World, i: nat) {
    && i < |w.c.nodes| && w.c.nodes[i].role == Leader && w.c.nodes[i].term == 1
    && w.c.leader == i && (i, 1) in w.leaders
  }

  // Elections succeed: in a fresh cluster whose requests fit the queue, whoever times
  // out first leads once the requests and a majority of the answers are delivered.
  lemma {:induction false} TimeoutElects(n: nat, i: nat) returns (steps: seq<Step>)
    requires i < n <= CAPACITY + 1
    ensures Leads(Exec(n, steps), i)
  {
    if n == 1 {
      steps := ExtendRun(n, [], Timeout(i));
      LeadsAlone(i);
    } else {
      var xs := VotingRun(n, i, n - 1);
      var c := Exec(n, xs).c;
      assert Asks(i, n - 1, n - 1) + Yeses(i, 0, n - 1) == Yeses(i, 0, n - 1);
      assert Counting(c, n, i, 0);
      steps := CountingRun(n, i, 0, xs);
    }
  }

  lemma {:induction false} LeadsAlone(i: nat)
    requires i < 1
    ensures Leads(Observe(Init(1), NextCluster(InitCluster(1), Timeout(i))), i)
  {
    var c := NextCluster(InitCluster(1), Timeout(i));
    assert c.nodes[0].role == Leader;
  }

  // ---------- Requests and their answers ----------

  // The commit index after an advance: the last entry beyond the old index that is of
  // the leader's term and held by a majority, or the old index if there is none.
  lemma {:induction false} AdvancedExactly(nd: Node, l: nat, size: nat, n: int)
    requires n <= |nd.log|
    ensures var c := Advanced(nd, l, size, n);
            && (c == nd.commit || (nd.commit < c < n && Committable(nd, l, size, c)))
            && forall m :: c < m < n ==> !Committable(nd, l, size, m)
    decreases n
  {
    if nd.commit + 1 < n && 0 < n {
      HoldersCount(nd, l, n - 1, size);
      if !Committable(nd, l, size, n - 1) {
        AdvancedExactly(nd, l, size, n - 1);
      }
    }
  }

  // Entry m is of the leader's term, and with the leader more than half hold it.
  ghost predicate Committable(nd: Node, l: nat, size: nat, m: int) {
    0 <= m < |nd.log| && nd.log[m].term == nd.term && 2 * (1 + |HoldersOf(nd, l, m, size)|) > size
  }

  ghost function HoldersOf(nd: Node, l: nat, m: int, k: nat): set<nat> {
    set j: nat | j < k && j != l && Slot(nd.matched, j) >= m
  }

  lemma {:induction false} HoldersCount(nd: Node, l: nat, m: int, k: nat)
    ensures Holders(nd, l, m, k) == |HoldersOf(nd, l, m, k)|
  {
    if k == 0 {
      assert HoldersOf(nd, l, m, 0) == {};
    } else {
      HoldersCount(nd, l, m, k - 1);
      if k - 1 != l && Slot(nd.matched, k - 1) >= m {
        assert HoldersOf(nd, l, m, k) == HoldersOf(nd, l, m, k - 1) + {k - 1};
      } else {
        assert HoldersOf(nd, l, m, k) == HoldersOf(nd, l, m, k - 1);
      }
    }
  }

  // The node has moved its commit index as far as it can, and nothing else.
  ghost predicate CommitsMost(nd: Node, l: nat, size: nat, nd': Node) {
    && nd' == nd.(commit := nd'.commit) && nd'.commit >= nd.commit
    && (nd'.commit == nd.commit || Committable(nd, l, size, nd'.commit))
    && forall m :: nd'.commit < m ==> !Committable(nd, l, size, m)
  }

  // A commit round does that for the hinted leader, and for nobody else.
  lemma {:induction false} CommitRoundExactly(c: Cluster, i: nat)
    requires i < |c.nodes|
    ensures var nodes := NextCluster(c, CommitEntries).nodes;
            |nodes| == |c.nodes| &&
            if c.leader == i then CommitsMost(c.nodes[i], i, |c.nodes|, nodes[i]) else nodes[i] == c.nodes[i]
  {
    AdvancedExactly(c.nodes[i], i, |c.nodes|, |c.nodes[i].log|);
  }

  // So does a leader that learns of entries at another node.
  lemma {:induction false} ReplyCommits(c: Cluster, m: Msg)
    requires m.AppendReply? && m.success && m.from < |c.nodes| && m.to < |c.nodes|
    requires c.nodes[m.to].role == Leader && m.term <= c.nodes[m.to].term
    ensures var nd, nodes := c.nodes[m.to], Process(c, m).nodes;
            && |nodes| == |c.nodes|
            && CommitsMost(nd.(matched := Put(nd.matched, m.from, m.index), next := Put(nd.next, m.from, m.index + 1)),
                           m.to, |c.nodes|, nodes[m.to])
  {
    var nd := c.nodes[m.to];
    var told := nd.(matched := Put(nd.matched, m.from, m.index), next := Put(nd.next, m.from, m.index + 1));
    AdvancedExactly(told, m.to, |c.nodes|, |told.log|);
  }

  // A request of the node's term or a later one makes it follow, unless it leads that
  // term itself; an older one changes nothing but the answer.
  lemma {:induction false} RequestFollowed(c: Cluster, m: Msg)
    requires m.AppendEntries? && m.to < |c.nodes| && m.from < |c.nodes|
    ensures var nd, c' := c.nodes[m.to], Process(c, m);
            && |c'.nodes| == |c.nodes|
            && if m.term < nd.term then c'.nodes == c.nodes && c'.leader == c.leader else
                 var nd' := c'.nodes[m.to];
                 && c'.leader == m.from && nd'.term == m.term && nd'.log == nd.log
                 && nd'.role == (if nd.role == Leader && nd.term == m.term then Leader else Follower)
                 && var prev := m.prevIndex;
                    if prev < 0 || (prev < |nd.log| && nd.log[prev].term == m.prevTerm)
                    then (m.leaderCommit <= nd.commit ==> nd'.commit == nd.commit)
                         && (m.leaderCommit > nd.commit ==>
                               nd'.commit == if m.leaderCommit < |nd.log| then m.leaderCommit else |nd.log| - 1)
                    else nd'.commit == nd.commit
  {
  }

  // A round of heartbeats sends each other node the hinted leader's position for it, and
  // so does the vote that makes a leader, where the queue has room.
  lemma {:induction false} HeartbeatRoundReaches(c: Cluster, to: nat)
    requires 0 <= c.leader < |c.nodes| && to < |c.nodes| && to != c.leader && |c.queue| + |c.nodes| <= CAPACITY + 1
    ensures var q := NextCluster(c, Heartbeat).queue;
            && c.queue <= q && |q| == |c.queue| + |c.nodes| - 1
            && Request(c.nodes[c.leader], c.leader, to) in q
  {
    HeartbeatsReach(c.queue, c.leader, c.nodes[c.leader], |c.nodes|, to);
  }

  lemma {:induction false} WinnerAnnounces(c: Cluster, m: Msg, to: nat)
    requires m.VoteReply? && m.granted && m.to < |c.nodes| && m.from < |c.nodes|
    requires c.nodes[m.to].role == Candidate && c.nodes[m.to].term == m.term
    requires 2 * (c.nodes[m.to].votes + 1) > |c.nodes| && |c.queue| + |c.nodes| <= CAPACITY + 1
    requires to < |c.nodes| && to != m.to
    ensures exists h :: h in Process(c, m).queue && h.AppendEntries? && h.from == m.to && h.to == to && h.term == m.term
  {
    var c' := CountVote(c, m.to);
    var nd := AsLeader(c'.nodes[m.to]);
    HeartbeatsReach(c'.queue, m.to, nd, |c.nodes|, to);
    assert Request(nd, m.to, to) in Process(c, m).queue;
  }

  // ---------- Commands ----------

  // The command that a step submits, if any.
  ghost function Submitted(c: Cluster, s: Step): seq<int> {
    match s
    case Client(command) => [command]
    case Deliver(k) => if k < |c.queue| && c.queue[k].ClientCommand? then [c.queue[k].command] else []
    case _ => []
  }

  // The commands submitted while node i was the hint, up to the capacity of a log.
  ghost function CommandsOf(n: nat, steps: seq<Step>, i: nat): seq<int> {
    if steps == [] then [] else
    var before, c := steps[..|steps| - 1], Exec(n, steps[..|steps| - 1]).c;
    var commands := CommandsOf(n, before, i);
    if c.leader == i && |commands| < MAX_LOG then commands + Submitted(c, steps[|steps| - 1]) else commands
  }

  ghost predicate Logged(log: seq<Entry>, commands: seq<int>) {
    |log| == |commands| && forall k :: 0 <= k < |log| ==> log[k].command == commands[k]
  }

  // No command is lost, repeated or moved: over every run, each log holds exactly the
  // commands submitted while its node was the hint, in their order.
  lemma {:induction false} LogsAreTheCommands(n: nat, steps: seq<Step>, i: nat)
    requires i < n
    ensures |Exec(n, steps).c.nodes| == n && Logged(Exec(n, steps).c.nodes[i].log, CommandsOf(n, steps, i))
  {
    if steps != [] {
      var before := steps[..|steps| - 1];
      LogsAreTheCommands(n, before, i);
      var c, s := Exec(n, before).c, steps[|steps| - 1];
      SameNodes(c, s);
      LogNext(c, s, i, CommandsOf(n, before, i));
    }
  }

  lemma {:induction false} LogNext(c: Cluster, s: Step, i: nat, commands: seq<int>)
    requires i < |c.nodes| == |NextCluster(c, s).nodes| && Logged(c.nodes[i].log, commands)
    ensures Logged(NextCluster(c, s).nodes[i].log,
                   if c.leader == i && |commands| < MAX_LOG then commands + Submitted(c, s) else commands)
  {
    match s
    case Deliver(k) =>
      if k < |c.queue| && Addressed(|c.nodes|, c.queue[k]) {
        ProcessLog(c.(queue := Without(c.queue, k)), c.queue[k], i);
      }
    case _ =>
  }

  // Over every run, commit indices stay within the logs and never go back.
  ghost predicate WithinLog(nodes: seq<Node>) {
    forall i :: 0 <= i < |nodes| ==> -1 <= nodes[i].commit < |nodes[i].log|
  }

  ghost predicate NoneBack(nodes: seq<Node>, nodes': seq<Node>) {
    |nodes'| == |nodes| && forall i :: 0 <= i < |nodes| ==> nodes[i].commit <= nodes'[i].commit
  }

  lemma {:induction false} CommitsStay(n: nat, steps: seq<Step>, s: Step)
    ensures WithinLog(Exec(n, steps).c.nodes)
    ensures NoneBack(Exec(n, steps).c.nodes, Exec(n, steps + [s]).c.nodes)
  {
    ExecWithinLog(n, steps);
    assert (steps + [s])[..|steps|] == steps;
    NextWithinLog(Exec(n, steps).c, s);
  }

  lemma {:induction false} ExecWithinLog(n: nat, steps: seq<Step>)
    ensures WithinLog(Exec(n, steps).c.nodes)
  {
    if steps != [] {
      ExecWithinLog(n, steps[..|steps| - 1]);
      NextWithinLog(Exec(n, steps[..|steps| - 1]).c, steps[|steps| - 1]);
    }
  }

  lemma {:induction false} NextWithinLog(c: Cluster, s: Step)
    requires WithinLog(c.nodes)
    ensures WithinLog(NextCluster(c, s).nodes) && NoneBack(c.nodes, NextCluster(c, s).nodes)
  {
    match s
    case Deliver(k) =>
      if k < |c.queue| && Addressed(|c.nodes|, c.queue[k]) {
        ProcessWithinLog(c.(queue := Without(c.queue, k)), c.queue[k]);
      }
    case CommitEntries =>
      if 0 <= c.leader < |c.nodes| {
        AdvancedWithin(c.nodes[c.leader], c.leader, |c.nodes|, |c.nodes[c.leader].log|);
      }
    case _ =>
  }

  lemma {:induction false} ProcessWithinLog(c: Cluster, m: Msg)
    requires WithinLog(c.nodes) && Addressed(|c.nodes|, m)
    ensures WithinLog(Process(c, m).nodes) && NoneBack(c.nodes, Process(c, m).nodes)
  {
    match m
    case AppendEntries(_, _, _, _, _, _) => RequestWithinLog(c, m);
    case AppendReply(_, _, _, _, _) => ReplyWithinLog(c, m);
    case _ =>
  }

  lemma {:induction false} RequestWithinLog(c: Cluster, m: Msg)
    requires m.AppendEntries? && WithinLog(c.nodes) && Addressed(|c.nodes|, m)
    ensures WithinLog(HandleAppendEntries(c, m).nodes) && NoneBack(c.nodes, HandleAppendEntries(c, m).nodes)
  {
  }

  lemma {:induction false} ReplyWithinLog(c: Cluster, m: Msg)
    requires m.AppendReply? && WithinLog(c.nodes) && Addressed(|c.nodes|, m)
    ensures WithinLog(HandleAppendReply(c, m).nodes) && NoneBack(c.nodes, HandleAppendReply(c, m).nodes)
  {
    var nd := c.nodes[m.to];
    AdvancedWithin(nd.(matched := Put(nd.matched, m.from, m.index), next := Put(nd.next, m.from, m.index + 1)),
                   m.to, |c.nodes|, |nd.log|);
  }

  lemma {:induction false} AdvancedWithin(nd: Node, l: nat, size: nat, n: int)
    requires nd.commit < |nd.log| && n <= |nd.log|
    ensures nd.commit <= Advanced(nd, l, size, n) < |nd.log|
  {
    AdvancedExactly(nd, l, size, n);
  }

  // Apart from commands, no message touches a log.
  lemma {:induction false} ProcessLog(c: Cluster, m: Msg, i: nat)
    requires i < |c.nodes| && Addressed(|c.nodes|, m)
    ensures |Process(c, m).nodes| == |c.nodes|
    ensures !m.ClientCommand? ==> Process(c, m).nodes[i].log == c.nodes[i].log
  {
  }

  // A request of leader l and the answer of node i, of no later term: the follower
  // holds the previous entry exactly when the leader learns that it does, and then the
  // follower's commit index reaches as far as its log and the leader's commit index.
  lemma {:induction false} RequestAnswered(c: Cluster, l: nat, i: nat)
    requires l < |c.nodes| && i < |c.nodes| && l != i && c.nodes[l].role == Leader && c.queue == []
    requires c.nodes[i].term <= c.nodes[l].term && i < |c.nodes[l].next| && i < |c.nodes[l].matched|
    ensures var c1 := Process(c, Request(c.nodes[l], l, i));
            |c1.queue| == 1 && Addressed(|c1.nodes|, c1.queue[0]) &&
            Answered(c, l, i, Process(c1.(queue := []), c1.queue[0]))
  {
    var c1 := Process(c, Request(c.nodes[l], l, i));
    var m := c1.queue[0];
    assert m.AppendReply? && m.from == i && m.to == l && m.term == c.nodes[l].term && c1.nodes[l] == c.nodes[l];
  }

  ghost predicate Answered(c: Cluster, l: nat, i: nat, c': Cluster)
    requires l < |c.nodes| && i < |c.nodes| && i < |c.nodes[l].next|
  {
    var prev, log, commit := c.nodes[l].next[i] - 1, c.nodes[i].log, c.nodes[l].commit;
    && |c'.nodes| == |c.nodes| && c'.leader == l && c'.nodes[i].term == c.nodes[l].term && c'.nodes[i].log == log
    && |c'.nodes[l].next| == |c.nodes[l].next| && i < |c'.nodes[l].matched| == |c.nodes[l].matched|
    && if prev < 0 || (prev < |log| && log[prev].term == TermAt(c.nodes[l].log, prev)) then
         && c'.nodes[l].matched[i] == prev && c'.nodes[l].next[i] == prev + 1
         && (c.nodes[i].commit < commit ==> c'.nodes[i].commit == if commit < |log| then commit else |log| - 1)
       else
         && c'.nodes[l].matched == c.nodes[l].matched && c'.nodes[i].commit == c.nodes[i].commit
         && c'.nodes[l].next[i] == prev
  }

  // ---------- The code ----------

  // The nodes below k whose timer fires start an election, unless they lead.
  function Tick(c: Cluster, fires: seq<bool>, k: nat): Cluster
    requires k <= |fires|
  {
    if k == 0 then c else
    var c' := Tick(c, fires, k - 1);
    if fires[k - 1] then NextCluster(c', Timeout(k - 1)) else c'
  }

  // Processing the oldest message is a step of a run.
  lemma {:induction false} PumpNext(c: Cluster)
    requires c.queue != [] && Addressed(|c.nodes|, c.queue[0])
    ensures NextCluster(c, Deliver(0)) == Process(c.(queue := Without(c.queue, 0)), c.queue[0])
  {
  }

  class RaftCluster {
    const nodes: array<Node>
    const queue: Queue<Msg>
    var leader: int

    ghost predicate Valid()
      reads this, queue
    {
      queue.Valid() && queue.slots.Length == CAPACITY + 1 && -1 <= leader < nodes.Length
    }

    ghost function View(): Cluster
      requires Valid()
      reads this, nodes, queue, queue.slots
    {
      Cluster(nodes[..], queue.Contents(), leader)
    }

    constructor (n: nat)
      ensures Valid() && fresh(nodes) && fresh(queue) && fresh(queue.slots)
      ensures View() == InitCluster(n)
    {
      nodes := new Node[n](_ => Blank(n));
      queue := new Queue(CAPACITY + 1);
      leader := -1;
      new;
      assert nodes[..] == InitCluster(n).nodes;
    }

    method BecomeFollower(i: nat, term: nat)
      requires i < nodes.Length
      modifies nodes
      ensures nodes[..] == old(nodes[..])[i := AsFollower(old(nodes[i]), term)]
    {
      nodes[i] := nodes[i].(role := Follower, term := term, votedFor := -1);
    }

    method LeaderSendHeartbeats()
      requires Valid()
      modifies queue, queue.slots
      ensures Valid() && View() == HeartbeatRound(old(View()))
    {
      if leader < 0 {
        return;
      }
      RequestAppends(leader);
    }

    method RequestAppends(l: nat)
      requires Valid() && l < nodes.Length
      modifies queue, queue.slots
      ensures Valid() && queue.Contents() == SendHeartbeats(old(queue.Contents()), l, nodes[l], nodes.Length)
    {
      ghost var q0 := queue.Contents();
      ghost var q := q0;
      var nd, i := nodes[l], 0;
      while i < nodes.Length
        invariant 0 <= i <= nodes.Length && Valid() && q == queue.Contents()
        invariant q == SendHeartbeats(q0, l, nd, i)
      {
        if i != l {
          var m := BuildRequest(nd, l, i);
          queue.Enqueue(m);
          q := Send(q, m, CAPACITY);
        }
        i := i + 1;
      }
    }

    method BuildRequest(nd: Node, l: nat, i: nat) returns (m: Msg)
      ensures m == Request(nd, l, i)
    {
      var prev := Slot(nd.next, i) - 1;
      var term := if 0 <= prev < |nd.log| then nd.log[prev].term else 0;
      m := AppendEntries(l, i, nd.term, prev, term, nd.commit);
    }

    method BecomeLeaderNow(i: nat)
      requires Valid() && i < nodes.Length
      modifies this, nodes, queue, queue.slots
      ensures Valid() && View() == BecomeLeader(old(View()), i)
    {
      var next, matched := ResetIndices(i);
      nodes[i] := nodes[i].(role := Leader, next := next, matched := matched);
      leader := i;
      LeaderSendHeartbeats();
    }

    method ResetIndices(i: nat) returns (next: seq<int>, matched: seq<int>)
      requires i < nodes.Length
      ensures next == AsLeader(nodes[i]).next && matched == AsLeader(nodes[i]).matched
    {
      var nd := nodes[i];
      next, matched := nd.next, nd.matched;
      var k := 0;
      while k < |next| || k < |matched|
        invariant 0 <= k && |next| == |nd.next| && |matched| == |nd.matched|
        invariant forall j :: 0 <= j < k && j < |next| ==> next[j] == |nd.log|
        invariant forall j :: 0 <= j < k && j < |matched| ==> matched[j] == -1
        decreases |next| + |matched| - k
      {
        next, matched, k := Put(next, k, |nd.log|), Put(matched, k, -1), k + 1;
      }
    }

    // Tries the entries after the commit index in order.
    method AdvanceCommitOf(l: nat)
      requires l < nodes.Length
      modifies nodes
      ensures nodes[..] == old(nodes[..])[l := AdvanceCommit(old(nodes[l]), l, nodes.Length)]
    {
      var nd := nodes[l];
      var commit, n := nd.commit, if nd.commit < 0 then 0 else nd.commit + 1;
      while n < |nd.log|
        invariant 0 <= n && nodes[..] == old(nodes[..])
        invariant n <= |nd.log| ==> commit == Advanced(nd, l, nodes.Length, n)
        invariant n > |nd.log| ==> commit == nd.commit >= |nd.log|
        decreases |nd.log| - n
      {
        if nd.log[n].term == nd.term {
          var held := CountHolders(nd, l, n);
          if held >= Quorum.Size(nodes.Length) {
            commit := n;
          }
        }
        n := n + 1;
      }
      assert commit == Advanced(nd, l, nodes.Length, |nd.log|);
      nodes[l] := nd.(commit := commit);
    }

    method CountHolders(nd: Node, l: nat, n: int) returns (held: nat)
      ensures held == 1 + Holders(nd, l, n, nodes.Length)
    {
      held := 1;
      var i := 0;
      while i < nodes.Length
        invariant 0 <= i <= nodes.Length && held == 1 + Holders(nd, l, n, i)
      {
        if i != l && Slot(nd.matched, i) >= n {
          held := held + 1;
        }
        i := i + 1;
      }
    }

    method LeaderCommitEntries() returns (ok: bool)
      requires Valid()
      modifies nodes
      ensures Valid() && View() == CommitRound(old(View())) && ok == (leader >= 0)
    {
      ok := leader >= 0;
      if ok {
        AdvanceCommitOf(leader);
      }
    }

    method RequestVotes(i: nat)
      requires Valid() && i < nodes.Length
      modifies queue, queue.slots
      ensures Valid() && queue.Contents() == SendRequests(old(queue.Contents()), i, nodes[i], nodes.Length)
    {
      ghost var q0 := queue.Contents();
      ghost var q := q0;
      var nd, k := nodes[i], 0;
      while k < nodes.Length
        invariant 0 <= k <= nodes.Length && Valid() && q == queue.Contents()
        invariant q == SendRequests(q0, i, nd, k)
      {
        if k != i {
          var m := RequestVote(i, k, nd.term, LastIndex(nd), LastTerm(nd));
          queue.Enqueue(m);
          q := Send(q, m, CAPACITY);
        }
        k := k + 1;
      }
    }

    method Campaign(i: nat)
      requires Valid() && i < nodes.Length
      modifies this, nodes, queue, queue.slots
      ensures Valid() && View() == StartElection(old(View()), i)
    {
      nodes[i] := nodes[i].(role := Candidate, term := nodes[i].term + 1, votedFor := i, votes := 1);
      RequestVotes(i);
      if nodes[i].votes >= Quorum.Size(nodes.Length) {
        BecomeLeaderNow(i);
      }
    }

    method TickAll(fires: seq<bool>)
      requires Valid() && |fires| == nodes.Length
      modifies this, nodes, queue, queue.slots
      ensures Valid() && View() == Tick(old(View()), fires, nodes.Length)
    {
      var i := 0;
      while i < nodes.Length
        invariant 0 <= i <= nodes.Length && Valid()
        invariant View() == Tick(old(View()), fires, i)
      {
        if nodes[i].role != Leader && fires[i] {
          Campaign(i);
        }
        i := i + 1;
      }
    }

    method OnRequestVote(m: Msg)
      requires Valid() && m.RequestVote? && m.to < nodes.Length
      modifies nodes, queue, queue.slots
      ensures Valid() && View() == HandleRequestVote(old(View()), m)
    {
      var grant := false;
      if m.term < nodes[m.to].term {
        queue.Enqueue(VoteReply(m.to, m.from, nodes[m.to].term, false));
        return;
      }
      if m.term > nodes[m.to].term {
        BecomeFollower(m.to, m.term);
      }
      if nodes[m.to].votedFor == -1 || nodes[m.to].votedFor == m.from {
        if UpToDate(nodes[m.to], m.lastIndex, m.lastTerm) {
          grant := true;
          nodes[m.to] := nodes[m.to].(votedFor := m.from);
        }
      }
      queue.Enqueue(VoteReply(m.to, m.from, nodes[m.to].term, grant));
    }

    method OnVoteReply(m: Msg)
      requires Valid() && m.VoteReply? && m.to < nodes.Length
      modifies this, nodes, queue, queue.slots
      ensures Valid() && View() == HandleVoteReply(old(View()), m)
    {
      if m.term > nodes[m.to].term {
        BecomeFollower(m.to, m.term);
        return;
      }
      if m.term < nodes[m.to].term {
        return;
      }
      if nodes[m.to].role == Candidate && m.granted {
        nodes[m.to] := nodes[m.to].(votes := nodes[m.to].votes + 1);
        assert View() == CountVote(old(View()), m.to);
        if nodes[m.to].votes >= Quorum.Size(nodes.Length) {
          BecomeLeaderNow(m.to);
        }
      }
    }

    method OnAppendEntries(m: Msg)
      requires Valid() && m.AppendEntries? && m.to < nodes.Length && m.from < nodes.Length
      modifies this, nodes, queue, queue.slots
      ensures Valid() && View() == HandleAppendEntries(old(View()), m)
    {
      if m.term < nodes[m.to].term {
        queue.Enqueue(AppendReply(m.to, m.from, nodes[m.to].term, false, -1));
        return;
      }
      JoinLeader(m.to, m.from, m.term);
      AnswerAppend(m);
    }

    method JoinLeader(i: nat, l: nat, term: nat)
      requires Valid() && i < nodes.Length && l < nodes.Length
      modifies this, nodes
      ensures Valid() && nodes[..] == old(nodes[..])[i := Joined(old(nodes[i]), term)] && leader == l
    {
      if term > nodes[i].term {
        BecomeFollower(i, term);
      }
      if nodes[i].role == Candidate {
        nodes[i] := nodes[i].(role := Follower);
      }
      if leader != l {
        leader := l;
      }
    }

    method AnswerAppend(m: Msg)
      requires Valid() && m.AppendEntries? && m.to < nodes.Length
      modifies nodes, queue, queue.slots
      ensures Valid() && View() == Answer(old(View()), m)
    {
      if !LogOk(nodes[m.to], m.prevIndex, m.prevTerm) {
        queue.Enqueue(AppendReply(m.to, m.from, nodes[m.to].term, false, -1));
        return;
      }
      if m.leaderCommit > nodes[m.to].commit {
        var commit := m.leaderCommit;
        if commit >= |nodes[m.to].log| {
          commit := |nodes[m.to].log| - 1;
        }
        nodes[m.to] := nodes[m.to].(commit := commit);
      }
      queue.Enqueue(AppendReply(m.to, m.from, nodes[m.to].term, true, m.prevIndex));
    }

    method OnAppendReply(m: Msg)
      requires Valid() && m.AppendReply? && m.to < nodes.Length
      modifies this, nodes
      ensures Valid() && View() == HandleAppendReply(old(View()), m)
    {
      if m.term > nodes[m.to].term {
        BecomeFollower(m.to, m.term);
        leader := -1;
        return;
      }
      var nd := nodes[m.to];
      if nd.role != Leader {
        return;
      }
      if m.success {
        nodes[m.to] := nd.(matched := Put(nd.matched, m.from, m.index), next := Put(nd.next, m.from, m.index + 1));
        AdvanceCommitOf(m.to);
      } else if Slot(nd.next, m.from) > 0 {
        nodes[m.to] := nd.(next := Put(nd.next, m.from, Slot(nd.next, m.from) - 1));
      }
    }

    method SubmitCommand(command: int) returns (ok: bool, index: int)
      requires Valid()
      modifies nodes
      ensures Valid() && View() == Submit(old(View()), command) && ok == (leader >= 0)
      ensures ok ==> index == |nodes[leader].log| - 1
    {
      index := -1;
      ok := leader >= 0;
      if ok && |nodes[leader].log| < MAX_LOG {
        var nd := nodes[leader];
        var log := nd.log + [Entry(nd.term, command)];
        nodes[leader] := nd.(log := log, matched := Put(nd.matched, leader, |log| - 1),
                             next := Put(nd.next, leader, |log|));
      }
      if ok {
        index := |nodes[leader].log| - 1;
      }
    }

    method ProcessMessage(m: Msg)
      requires Valid() && Addressed(nodes.Length, m)
      modifies this, nodes, queue, queue.slots
      ensures Valid() && View() == Process(old(View()), m)
    {
      match m
      case RequestVote(_, _, _, _, _) => OnRequestVote(m);
      case VoteReply(_, _, _, _) => OnVoteReply(m);
      case AppendEntries(_, _, _, _, _, _) => OnAppendEntries(m);
      case AppendReply(_, _, _, _, _) => OnAppendReply(m);
      case ClientCommand(command) => var _, _ := SubmitCommand(command);
    }

    // Take the oldest message off the queue and process it.
    method Pump() returns (ok: bool)
      requires Valid()
      requires forall m <- queue.Contents() :: Addressed(nodes.Length, m)
      modifies this, nodes, queue, queue.slots
      ensures Valid() && ok == (old(queue.Contents()) != [])
      ensures !ok ==> View() == old(View())
      ensures ok ==> var c := old(View()); View() == Process(c.(queue := Without(c.queue, 0)), c.queue[0])
    {
      ghost var c := View();
      var m;
      ok, m := queue.Dequeue();
      if ok {
        assert View() == c.(queue := Without(c.queue, 0));
        ProcessMessage(m);
      }
    }
  }
}
