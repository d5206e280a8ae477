/**
 * Log replication of the synchronous Raft cluster: vote requests, AppendEntries
 * with conflict truncation, next-index back-off and commit, and log matching over
 * every run in which no term has two leaders.
 */
module RaftLog {
  import Quorum

  datatype State = Follower | Candidate | Leader

  datatype Entry = Entry(term: nat, command: int)

  datatype Node = Node(state: State, term: nat, log: seq<Entry>, next: seq<nat>, matched: seq<nat>, active: bool,
                       votedFor: int, votes: nat, commit: nat)

  datatype Rpc = Rpc(term: nat, prevIndex: nat, prevTerm: nat, entries: seq<Entry>, leaderCommit: nat)

  // The fields of an answer that are set: the term before the request, and who answers.
  datatype Reply = Reply(term: nat, node: nat)

  datatype VoteRpc = VoteRpc(term: nat, candidate: nat, lastIndex: nat, lastTerm: nat)

  const MAX_LOG := 1024
  const MAX_BATCH := 128

  // ---------- What each call does ----------

  function AsFollower(nd: Node, term: nat): Node {
    nd.(state := Follower, term := if term > nd.term then term else nd.term, votedFor := -1, votes := 0)
  }

  function AsCandidate(nd: Node, i: nat): Node {
    nd.(state := Candidate, term := nd.term + 1, votedFor := i, votes := 1)
  }

  predicate LogOk(log: seq<Entry>, prevIndex: nat, prevTerm: nat) {
    prevIndex == 0 || (prevIndex <= |log| && log[prevIndex - 1].term == prevTerm)
  }

  // Store an entry at a position: keep an entry of the same term, truncate at a
  // conflict, extend at the end.
  function Store(log: seq<Entry>, pos: nat, e: Entry): seq<Entry> {
    if pos >= MAX_LOG then log
    else if pos < |log| then (if log[pos].term != e.term then log[..pos] + [e] else log)
    else log + [e]
  }

  function StoreAll(log: seq<Entry>, prevIndex: nat, entries: seq<Entry>, k: nat): seq<Entry>
    requires k <= |entries|
  {
    if k == 0 then log else Store(StoreAll(log, prevIndex, entries, k - 1), prevIndex + k - 1, entries[k - 1])
  }

  function Handle(nd: Node, rpc: Rpc): (Node, bool) {
    if rpc.term < nd.term then (nd, false) else
    var nd := if rpc.term > nd.term then AsFollower(nd, rpc.term) else nd;
    if !LogOk(nd.log, rpc.prevIndex, rpc.prevTerm) then (nd, false)
    else (nd.(log := StoreAll(nd.log, rpc.prevIndex, rpc.entries, |rpc.entries|),
              commit := Advance(nd.commit, rpc.leaderCommit, rpc.prevIndex + |rpc.entries|)), true)
  }

  // A follower's commit index follows the leader's, up to its last new entry, and never goes back.
  function Advance(commit: nat, leaderCommit: nat, lastNew: nat): (r: nat)
    ensures r >= commit && (r > commit ==> r <= leaderCommit && r <= lastNew)
  {
    var c := if leaderCommit > lastNew then lastNew else leaderCommit;
    if c > commit then c else commit
  }

  function PrevTerm(log: seq<Entry>, prevIndex: nat): nat {
    if 0 < prevIndex <= |log| then log[prevIndex - 1].term else 0
  }

  function Batch(log: seq<Entry>, start: nat): seq<Entry> {
    if start >= |log| then []
    else log[start..if start + MAX_BATCH < |log| then start + MAX_BATCH else |log|]
  }

  function Request(nd: Node, i: nat): Rpc
    requires i < |nd.next| && nd.next[i] >= 1
  {
    Rpc(nd.term, nd.next[i] - 1, PrevTerm(nd.log, nd.next[i] - 1), Batch(nd.log, nd.next[i] - 1), nd.commit)
  }

  // The cluster is well formed: every node has one slot per node, and next
  // indices start at 1.
  predicate Shaped(nodes: seq<Node>) {
    forall l :: 0 <= l < |nodes| ==>
      && |nodes[l].next| == |nodes| && |nodes[l].matched| == |nodes|
      && forall i :: 0 <= i < |nodes| ==> nodes[l].next[i] >= 1
  }

  // The leader's bookkeeping for follower i after sending it k entries.
  function Record(nd: Node, i: nat, k: nat, ok: bool): Node
    requires i < |nd.next| && i < |nd.matched| && nd.next[i] >= 1
  {
    if ok then nd.(next := nd.next[i := nd.next[i] + k], matched := nd.matched[i := nd.next[i] + k - 1])
    else if nd.next[i] > 1 then nd.(next := nd.next[i := nd.next[i] - 1])
    else nd
  }

  // Leader l replicates to node i.
  function SendTo(nodes: seq<Node>, l: nat, i: nat): (r: seq<Node>)
    requires Shaped(nodes) && l < |nodes| && i < |nodes|
    ensures Shaped(r) && |r| == |nodes|
  {
    if i == l || !nodes[i].active then nodes else
    var rpc := Request(nodes[l], i);
    var (nd, ok) := Handle(nodes[i], rpc);
    nodes[i := nd][l := Record(nodes[l], i, |rpc.entries|, ok)]
  }

  function SendAppend(nodes: seq<Node>, l: nat, k: nat): (r: seq<Node>)
    requires Shaped(nodes) && l < |nodes| && k <= |nodes|
    ensures Shaped(r) && |r| == |nodes|
  {
    if k == 0 then nodes else SendTo(SendAppend(nodes, l, k - 1), l, k - 1)
  }

  // A heartbeat is a request without entries whose answer is not used.
  function Beat(nodes: seq<Node>, l: nat, i: nat): (r: seq<Node>)
    requires Shaped(nodes) && l < |nodes| && i < |nodes|
    ensures Shaped(r) && |r| == |nodes|
  {
    if i == l || !nodes[i].active then nodes
    else nodes[i := Handle(nodes[i], Request(nodes[l], i).(entries := [])).0]
  }

  function SendHeartbeat(nodes: seq<Node>, l: nat, k: nat): (r: seq<Node>)
    requires Shaped(nodes) && l < |nodes| && k <= |nodes|
    ensures Shaped(r) && |r| == |nodes|
  {
    if k == 0 then nodes else Beat(SendHeartbeat(nodes, l, k - 1), l, k - 1)
  }

  // How many of the first k nodes are known to hold the leader's first n entries.
  function MatchCount(nodes: seq<Node>, l: nat, n: nat, k: nat): nat
    requires Shaped(nodes) && l < |nodes| && k <= |nodes|
  {
    if k == 0 then 0 else
    MatchCount(nodes, l, n, k - 1) +
    if k - 1 != l && nodes[k - 1].active && nodes[l].matched[k - 1] >= n then 1 else 0
  }

  // The leader's commit index: the largest entry of its own term held by a majority.
  function CommitFrom(nodes: seq<Node>, l: nat, n: nat): (c: nat)
    requires Shaped(nodes) && l < |nodes| && n <= |nodes[l].log|
    ensures c >= nodes[l].commit
  {
    if n <= nodes[l].commit then nodes[l].commit
    else if nodes[l].log[n - 1].term == nodes[l].term
            && 1 + MatchCount(nodes, l, n, |nodes|) >= Quorum.Size(|nodes|) then n
    else CommitFrom(nodes, l, n - 1)
  }

  // Replication to every node, then the leader's commit.
  function Replicated(nodes: seq<Node>, l: nat): (r: seq<Node>)
    requires Shaped(nodes) && l < |nodes|
    ensures Shaped(r) && |r| == |nodes|
  {
    var r := SendAppend(nodes, l, |nodes|);
    r[l := r[l].(commit := CommitFrom(r, l, |r[l].log|))]
  }

  // ---------- Votes ----------

  function LastTerm(log: seq<Entry>): nat { if log == [] then 0 else log[|log| - 1].term }

  function VoteRequest(nd: Node, i: nat): VoteRpc { VoteRpc(nd.term, i, |nd.log|, LastTerm(nd.log)) }

  predicate UpToDate(nd: Node, rpc: VoteRpc) {
    rpc.lastTerm > LastTerm(nd.log) || (rpc.lastTerm == LastTerm(nd.log) && rpc.lastIndex >= |nd.log|)
  }

  function Current(nd: Node, term: nat): Node { if term > nd.term then AsFollower(nd, term) else nd }

  predicate Grants(nd: Node, rpc: VoteRpc) {
    && rpc.term >= nd.term && UpToDate(nd, rpc)
    && var nd' := Current(nd, rpc.term); nd'.votedFor == -1 || nd'.votedFor == rpc.candidate
  }

  function Asked(nd: Node, rpc: VoteRpc): Node {
    if rpc.term < nd.term then nd
    else if Grants(nd, rpc) then Current(nd, rpc.term).(votedFor := rpc.candidate)
    else Current(nd, rpc.term)
  }

  // Candidate i asks node j, if j is active.
  function AskOne(nodes: seq<Node>, i: nat, j: nat): (r: seq<Node>)
    requires Shaped(nodes) && i < |nodes| && j < |nodes|
    ensures Shaped(r) && |r| == |nodes|
  {
    if j == i || !nodes[j].active then nodes else
    var rpc := VoteRequest(nodes[i], i);
    var nodes' := nodes[j := Asked(nodes[j], rpc)];
    if Grants(nodes[j], rpc) then nodes'[i := nodes[i].(votes := nodes[i].votes + 1)] else nodes'
  }

  function AskFirst(nodes: seq<Node>, i: nat, k: nat): (r: seq<Node>)
    requires Shaped(nodes) && i < |nodes| && k <= |nodes|
    ensures Shaped(r) && |r| == |nodes|
  {
    if k == 0 then nodes else AskOne(AskFirst(nodes, i, k - 1), i, k - 1)
  }

  // A candidate asks everybody and leads once it has counted enough votes.
  function Polled(nodes: seq<Node>, i: nat): (r: seq<Node>)
    requires Shaped(nodes) && i < |nodes|
    ensures Shaped(r) && |r| == |nodes|
  {
    var r := AskFirst(nodes, i, |nodes|);
    if r[i].votes >= Quorum.Size(|nodes|) then r[i := AsLeader(r[i])] else r
  }

  // ---------- Commands ----------

  function Append(nd: Node, command: int): Node {
    nd.(log := nd.log + [Entry(nd.term, command)])
  }

  function Submit(nodes: seq<Node>, l: nat, command: int): (r: seq<Node>)
    requires Shaped(nodes) && l < |nodes|
    ensures Shaped(r) && |r| == |nodes|
  {
    if nodes[l].state != Leader || |nodes[l].log| >= MAX_LOG then nodes
    else Replicated(nodes[l := Append(nodes[l], command)], l)
  }

  function AsLeader(nd: Node): Node {
    nd.(state := Leader, votedFor := -1, votes := 0,
        next := seq(|nd.next|, _ => |nd.log| + 1), matched := seq(|nd.matched|, _ => 0))
  }

  // ---------- Runs ----------

  datatype Step =
    | Command(l: nat, command: int)  // a client command reaches node l
    | Replicate(l: nat)              // the heartbeat timer of leader l fires
    | Campaign(i: nat)               // the election timer of node i fires
    | Poll(i: nat)                   // candidate i asks for votes
    | StepDown(i: nat, term: nat)
    | Isolate(i: nat)
    | Reconnect(i: nat)

  // Timers run only at active nodes; a command reaches an isolated leader too.
  predicate Enabled(nodes: seq<Node>, s: Step) {
    match s
    case Command(l, _) => l < |nodes|
    case Replicate(l) => l < |nodes| && nodes[l].active && nodes[l].state == Leader
    case Campaign(i) => i < |nodes| && nodes[i].active && nodes[i].state != Leader
    case Poll(i) => i < |nodes| && nodes[i].active && nodes[i].state == Candidate
    case StepDown(i, _) => i < |nodes|
    case Isolate(i) => i < |nodes|
    case Reconnect(i) => i < |nodes|
  }

  function Next(nodes: seq<Node>, s: Step): (r: seq<Node>)
    requires Shaped(nodes)
    ensures Shaped(r) && |r| == |nodes|
  {
    if !Enabled(nodes, s) then nodes else
    match s
    case Command(l, command) => Submit(nodes, l, command)
    case Replicate(l) => Replicated(SendHeartbeat(nodes, l, |nodes|), l)
    case Campaign(i) => nodes[i := AsCandidate(nodes[i], i)]
    case Poll(i) => Polled(nodes, i)
    case StepDown(i, term) => nodes[i := AsFollower(nodes[i], term)]
    case Isolate(i) => nodes[i := nodes[i].(active := false)]
    case Reconnect(i) => nodes[i := AsFollower(nodes[i], nodes[i].term).(active := true)]
  }

  // The nodes, and every (node, term) at which a node was leader so far.
  datatype World = World(nodes: seq<Node>, leaders: set<(nat, nat)>)

  function Init(n: nat): World {
    World(seq(n, _ => Blank(n)), {})
  }

  function Blank(n: nat): Node {
    Node(Follower, 0, [], seq(n, _ => 1), seq(n, _ => 0), true, -1, 0, 0)
  }

  function Leading(nodes: seq<Node>): set<(nat, nat)> {
    set l | 0 <= l < |nodes| && nodes[l].state == Leader :: (l, nodes[l].term)
  }

  function Exec(n: nat, steps: seq<Step>): (w: World)
    ensures Shaped(w.nodes) && |w.nodes| == n
  {
    if steps == [] then Init(n) else
    var w := Exec(n, steps[..|steps| - 1]);
    var nodes := Next(w.nodes, steps[|steps| - 1]);
    World(nodes, w.leaders + Leading(nodes))
  }

  // No term has ever had two leaders.
  ghost predicate OneLeader(leaders: set<(nat, nat)>) {
    forall x <- leaders, y <- leaders :: x.1 == y.1 ==> x == y
  }

  // ---------- The inductive invariant ----------

  // Logs that agree on the term at an index agree up to and including it.
  ghost predicate Match(x: seq<Entry>, y: seq<Entry>) {
    forall i :: MatchAt(x, y, i)
  }

  ghost predicate MatchAt(x: seq<Entry>, y: seq<Entry>, i: nat) {
    i < |x| && i < |y| && x[i].term == y[i].term ==> x[..i + 1] == y[..i + 1]
  }

  // Every entry of the leader's term in log y is in the leader's log at the same place.
  ghost predicate Holds(leader: Node, y: seq<Entry>) {
    forall i :: 0 <= i < |y| && y[i].term == leader.term ==> i < |leader.log| && leader.log[i].term == leader.term
  }

  ghost predicate HadLeader(leaders: set<(nat, nat)>, term: nat) {
    exists x :: x in leaders && x.1 == term
  }

  ghost predicate Led(leaders: set<(nat, nat)>, y: seq<Entry>) {
    forall i :: 0 <= i < |y| ==> HadLeader(leaders, y[i].term)
  }

  ghost predicate NodeOk(w: World, l: nat)
    requires l < |w.nodes|
  {
    var nd := w.nodes[l];
    && |nd.log| <= MAX_LOG && Led(w.leaders, nd.log)
    && (nd.state == Leader ==>
          && (l, nd.term) in w.leaders
          && forall i :: 0 <= i < |nd.next| ==> nd.next[i] <= |nd.log| + 1)
  }

  ghost predicate Past(w: World, x: (nat, nat)) {
    && x.0 < |w.nodes|
    && x.1 <= w.nodes[x.0].term
    && (x.1 == w.nodes[x.0].term ==> w.nodes[x.0].state != Candidate)
  }

  ghost predicate AllOk(w: World) { forall l :: 0 <= l < |w.nodes| ==> NodeOk(w, l) }

  ghost predicate AllPast(w: World) { forall x <- w.leaders :: Past(w, x) }

  ghost predicate AllMatch(nodes: seq<Node>) {
    forall a, b {:trigger Match(nodes[a].log, nodes[b].log)} :: 0 <= a < |nodes| && 0 <= b < |nodes| ==>
                                                                  Match(nodes[a].log, nodes[b].log)
  }

  ghost predicate AllHeld(nodes: seq<Node>) {
    forall l, b {:trigger Holds(nodes[l], nodes[b].log)} ::
      0 <= l < |nodes| && 0 <= b < |nodes| && nodes[l].state == Leader ==> Holds(nodes[l], nodes[b].log)
  }

  ghost predicate Inv(w: World) {
    && Shaped(w.nodes) && OneLeader(w.leaders)
    && AllOk(w) && AllPast(w) && AllMatch(w.nodes) && AllHeld(w.nodes)
  }

  // ---------- One append ----------

  // Storing a stretch of the leader's log after a matching prefix leaves either
  // the follower's own longer log, which contains it, or exactly the leader's prefix.
  lemma {:induction false} StoreAllEffect(log: seq<Entry>, leader: seq<Entry>, prev: nat, entries: seq<Entry>, k: nat)
    requires Match(log, leader) && k <= |entries| && prev + |entries| <= |leader| <= MAX_LOG
    requires entries == leader[prev..prev + |entries|]
    requires prev <= |log| && log[..prev] == leader[..prev]
    ensures var r := StoreAll(log, prev, entries, k);
            (r == log && prev + k <= |log| && log[..prev + k] == leader[..prev + k]) || r == leader[..prev + k]
  {
    if k > 0 {
      StoreAllEffect(log, leader, prev, entries, k - 1);
      var r, pos := StoreAll(log, prev, entries, k - 1), prev + k - 1;
      assert entries[k - 1] == leader[pos] && MatchAt(log, leader, pos);
      assert leader[..pos] + [leader[pos]] == leader[..pos + 1];
    }
  }

  // The same for a whole request, its log check included.
  lemma {:induction false} RequestEffect(log: seq<Entry>, leader: seq<Entry>, prev: nat)
    requires Match(log, leader) && |leader| <= MAX_LOG && prev <= |leader| && LogOk(log, prev, PrevTerm(leader, prev))
    ensures var entries := Batch(leader, prev); var m := prev + |entries|;
            var r := StoreAll(log, prev, entries, |entries|);
            (r == log || r <= leader) && m <= |leader| && m <= |r| && r[..m] == leader[..m]
  {
    var entries := Batch(leader, prev);
    assert prev > 0 ==> MatchAt(log, leader, prev - 1) && log[..prev - 1 + 1] == leader[..prev - 1 + 1];
    assert log[..prev] == leader[..prev];
    StoreAllEffect(log, leader, prev, entries, |entries|);
  }

  lemma {:induction false} HandleEffect(nd: Node, leader: Node, i: nat)
    requires Match(nd.log, leader.log) && |leader.log| <= MAX_LOG
    requires i < |leader.next| && 1 <= leader.next[i] <= |leader.log| + 1
    ensures var rpc := Request(leader, i); var (nd', ok) := Handle(nd, rpc);
            && (nd'.log == nd.log || nd'.log <= leader.log)
            && (ok ==> var m := rpc.prevIndex + |rpc.entries|;
                       m <= |leader.log| && m <= |nd'.log| && nd'.log[..m] == leader.log[..m])
  {
    if Handle(nd, Request(leader, i)).1 {
      RequestEffect(nd.log, leader.log, leader.next[i] - 1);
    }
  }

  // ---------- Steps keep the invariant ----------

  lemma {:induction false} MatchPrefix(x: seq<Entry>, y: seq<Entry>, z: seq<Entry>)
    requires Match(y, z) && x <= y
    ensures Match(x, z) && Match(z, x)
  {
    forall i: nat ensures MatchAt(x, z, i) && MatchAt(z, x, i) {
      assert MatchAt(y, z, i);
      assert i < |x| ==> x[..i + 1] == y[..i + 1];
    }
  }

  // Node b moves to a later term or steps down, and its log becomes a prefix of node a's.
  ghost predicate Follows(w: World, b: nat, nd: Node, a: nat) {
    && a < |w.nodes| && b < |w.nodes|
    && nd.log <= w.nodes[a].log
    && nd.next == w.nodes[b].next && nd.matched == w.nodes[b].matched
    && nd.term >= w.nodes[b].term
    && (nd.state == Leader ==> nd.term == w.nodes[b].term && nd.log == w.nodes[b].log && w.nodes[b].state == Leader)
    && (nd.state == Candidate ==> nd.term == w.nodes[b].term + 1
                                  || (nd.term == w.nodes[b].term && w.nodes[b].state == Candidate))
  }

  lemma {:induction false} FollowsKeepsMatch(w: World, b: nat, nd: Node, a: nat)
    requires Inv(w) && Follows(w, b, nd, a)
    ensures var nodes := w.nodes[b := nd];
            forall x, y :: 0 <= x < |nodes| && 0 <= y < |nodes| ==> Match(nodes[x].log, nodes[y].log)
  {
    forall y | 0 <= y < |w.nodes| ensures Match(nd.log, w.nodes[y].log) && Match(w.nodes[y].log, nd.log) {
      MatchPrefix(nd.log, w.nodes[a].log, w.nodes[y].log);
    }
  }

  lemma {:induction false} FollowsKeepsHolds(w: World, b: nat, nd: Node, a: nat)
    requires Inv(w) && Follows(w, b, nd, a)
    ensures var nodes := w.nodes[b := nd];
            forall l, y :: 0 <= l < |nodes| && 0 <= y < |nodes| && nodes[l].state == Leader
                           ==> Holds(nodes[l], nodes[y].log)
  {
    var nodes := w.nodes[b := nd];
    forall l, y | 0 <= l < |nodes| && 0 <= y < |nodes| && nodes[l].state == Leader
      ensures Holds(nodes[l], nodes[y].log)
    {
      assert Holds(w.nodes[l], w.nodes[y].log) && Holds(w.nodes[l], w.nodes[a].log);
    }
  }

  lemma {:induction false} FollowsKeepsInv(w: World, b: nat, nd: Node, a: nat)
    requires Inv(w) && Follows(w, b, nd, a)
    ensures Inv(World(w.nodes[b := nd], w.leaders))
  {
    var w' := World(w.nodes[b := nd], w.leaders);
    FollowsKeepsMatch(w, b, nd, a);
    FollowsKeepsHolds(w, b, nd, a);
    forall l | 0 <= l < |w'.nodes| ensures NodeOk(w', l) {
      assert NodeOk(w, l) && NodeOk(w, a);
    }
    forall x | x in w'.leaders ensures Past(w', x) {
      assert Past(w, x);
    }
  }

  // Only the leader's bookkeeping changes.
  lemma {:induction false} RecordKeepsInv(w: World, l: nat, nd: Node)
    requires Inv(w) && l < |w.nodes| && w.nodes[l].state == Leader
    requires nd == w.nodes[l].(next := nd.next, matched := nd.matched, commit := nd.commit)
    requires |nd.next| == |w.nodes| && |nd.matched| == |w.nodes|
    requires forall i :: 0 <= i < |nd.next| ==> 1 <= nd.next[i] <= |nd.log| + 1
    ensures Inv(World(w.nodes[l := nd], w.leaders))
  {
    var w' := World(w.nodes[l := nd], w.leaders);
    forall j | 0 <= j < |w'.nodes| ensures NodeOk(w', j) && w'.nodes[j].log == w.nodes[j].log {
      assert NodeOk(w, j);
    }
    forall x | x in w'.leaders ensures Past(w', x) {
      assert Past(w, x);
    }
    forall j, y | 0 <= j < |w'.nodes| && 0 <= y < |w'.nodes| && w'.nodes[j].state == Leader
      ensures Holds(w'.nodes[j], w'.nodes[y].log)
    {
      assert Holds(w.nodes[j], w.nodes[y].log);
    }
  }

  // What node i stores on a request of leader l, with or without the entries.
  lemma {:induction false} HandleFollows(w: World, l: nat, i: nat, rpc: Rpc)
    requires Inv(w) && l < |w.nodes| && i < |w.nodes| && i != l && w.nodes[l].state == Leader
    requires rpc == Request(w.nodes[l], i) || rpc == Request(w.nodes[l], i).(entries := [])
    ensures Inv(World(w.nodes[i := Handle(w.nodes[i], rpc).0], w.leaders))
  {
    var nd := w.nodes[i];
    var nd' := Handle(nd, rpc).0;
    assert NodeOk(w, l) && NodeOk(w, i) && Match(nd.log, w.nodes[l].log);
    HandleEffect(nd, w.nodes[l], i);
    assert !(nd.state == Leader && nd.term == rpc.term);  // that term would have two leaders
    FollowsKeepsInv(w, i, nd', if nd'.log == nd.log then i else l);
  }

  lemma {:induction false} SendToKeepsInv(w: World, l: nat, i: nat)
    requires Inv(w) && l < |w.nodes| && i < |w.nodes| && w.nodes[l].state == Leader
    ensures Inv(World(SendTo(w.nodes, l, i), w.leaders))
    ensures SendTo(w.nodes, l, i)[l].state == Leader
  {
    if i != l && w.nodes[i].active {
      var rpc := Request(w.nodes[l], i);
      var (nd, ok) := Handle(w.nodes[i], rpc);
      HandleFollows(w, l, i, rpc);
      assert NodeOk(w, l);
      RecordKeepsInv(World(w.nodes[i := nd], w.leaders), l, Record(w.nodes[l], i, |rpc.entries|, ok));
    }
  }

  ghost predicate LeaderInv(w: World, l: nat) { Inv(w) && l < |w.nodes| && w.nodes[l].state == Leader }

  lemma {:induction false} SendStep(w: World, l: nat, i: nat, w': World)
    requires LeaderInv(w, l) && i < |w.nodes| && w' == World(SendTo(w.nodes, l, i), w.leaders)
    ensures LeaderInv(w', l) && |w'.nodes| == |w.nodes|
  {
    SendToKeepsInv(w, l, i);
  }

  lemma {:induction false} SendAppendKeepsInv(w: World, l: nat, k: nat, w': World)
    requires LeaderInv(w, l) && k <= |w.nodes| && w' == World(SendAppend(w.nodes, l, k), w.leaders)
    ensures LeaderInv(w', l) && |w'.nodes| == |w.nodes|
  {
    if k > 0 {
      var mid := World(SendAppend(w.nodes, l, k - 1), w.leaders);
      SendAppendKeepsInv(w, l, k - 1, mid);
      SendStep(mid, l, k - 1, w');
    }
  }

  lemma {:induction false} BeatKeepsInv(w: World, l: nat, i: nat)
    requires Inv(w) && l < |w.nodes| && i < |w.nodes| && w.nodes[l].state == Leader
    ensures Inv(World(Beat(w.nodes, l, i), w.leaders)) && Beat(w.nodes, l, i)[l] == w.nodes[l]
  {
    if i != l && w.nodes[i].active {
      HandleFollows(w, l, i, Request(w.nodes[l], i).(entries := []));
    }
  }

  lemma {:induction false} BeatStep(w: World, l: nat, i: nat, w': World)
    requires LeaderInv(w, l) && i < |w.nodes| && w' == World(Beat(w.nodes, l, i), w.leaders)
    ensures LeaderInv(w', l) && |w'.nodes| == |w.nodes| && w'.nodes[l] == w.nodes[l]
  {
    BeatKeepsInv(w, l, i);
  }

  lemma {:induction false} HeartbeatKeepsInv(w: World, l: nat, k: nat, w': World)
    requires LeaderInv(w, l) && k <= |w.nodes| && w' == World(SendHeartbeat(w.nodes, l, k), w.leaders)
    ensures LeaderInv(w', l) && |w'.nodes| == |w.nodes| && w'.nodes[l] == w.nodes[l]
  {
    if k > 0 {
      var mid := World(SendHeartbeat(w.nodes, l, k - 1), w.leaders);
      HeartbeatKeepsInv(w, l, k - 1, mid);
      BeatStep(mid, l, k - 1, w');
    }
  }

  // A leader's new entry is at an index where no log has an entry of its term.
  lemma {:induction false} AppendKeepsInv(w: World, l: nat, command: int)
    requires Inv(w) && l < |w.nodes| && w.nodes[l].state == Leader && |w.nodes[l].log| < MAX_LOG
    ensures Inv(World(w.nodes[l := Append(w.nodes[l], command)], w.leaders))
  {
    var old', nd := w.nodes[l], Append(w.nodes[l], command);
    var w' := World(w.nodes[l := nd], w.leaders);
    assert NodeOk(w, l);
    assert Led(w.leaders, nd.log) by {
      assert (l, nd.term) in w.leaders;
    }
    forall j | 0 <= j < |w'.nodes| ensures NodeOk(w', j) {
      assert NodeOk(w, j);
    }
    forall x | x in w'.leaders ensures Past(w', x) {
      assert Past(w, x);
    }
    forall y | 0 <= y < |w.nodes| && y != l
      ensures Match(nd.log, w.nodes[y].log) && Match(w.nodes[y].log, nd.log)
    {
      assert Match(old'.log, w.nodes[y].log) && Holds(old', w.nodes[y].log);
      forall i: nat ensures MatchAt(nd.log, w.nodes[y].log, i) && MatchAt(w.nodes[y].log, nd.log, i) {
        assert MatchAt(old'.log, w.nodes[y].log, i);
        assert i < |old'.log| ==> nd.log[..i + 1] == old'.log[..i + 1];
      }
    }
    AppendKeepsHolds(w, l, command);
  }

  lemma {:induction false} AppendKeepsHolds(w: World, l: nat, command: int)
    requires Inv(w) && l < |w.nodes| && w.nodes[l].state == Leader
    ensures var nodes := w.nodes[l := Append(w.nodes[l], command)];
            forall j, y :: 0 <= j < |nodes| && 0 <= y < |nodes| && nodes[j].state == Leader
                           ==> Holds(nodes[j], nodes[y].log)
  {
    var nodes := w.nodes[l := Append(w.nodes[l], command)];
    forall j, y | 0 <= j < |nodes| && 0 <= y < |nodes| && nodes[j].state == Leader
      ensures Holds(nodes[j], nodes[y].log)
    {
      assert Holds(w.nodes[j], w.nodes[y].log);
      assert NodeOk(w, j) && NodeOk(w, l);
      assert j != l ==> (j, nodes[j].term) in w.leaders && (l, nodes[l].term) in w.leaders;
    }
  }

  // A candidate that wins leads a term in which no entry was ever created.
  lemma {:induction false} WinKeepsInv(w: World, i: nat)
    requires Inv(w) && i < |w.nodes| && w.nodes[i].state == Candidate
    requires OneLeader(w.leaders + {(i, w.nodes[i].term)})
    ensures Inv(World(w.nodes[i := AsLeader(w.nodes[i])], w.leaders + {(i, w.nodes[i].term)}))
  {
    var nd := AsLeader(w.nodes[i]);
    var w' := World(w.nodes[i := nd], w.leaders + {(i, nd.term)});
    forall x | x in w.leaders ensures x.1 != nd.term {
      assert Past(w, x);
      assert (i, nd.term) in w'.leaders;
    }
    forall j | 0 <= j < |w'.nodes| ensures NodeOk(w', j) {
      assert NodeOk(w, j);
    }
    forall x | x in w'.leaders ensures Past(w', x) {
      assert x in w.leaders ==> Past(w, x);
    }
    forall j, y | 0 <= j < |w'.nodes| && 0 <= y < |w'.nodes| && w'.nodes[j].state == Leader
      ensures Holds(w'.nodes[j], w'.nodes[y].log)
    {
      assert NodeOk(w, y);
      assert j != i ==> Holds(w.nodes[j], w.nodes[y].log);
    }
  }

  lemma {:induction false} ReplicatedKeepsInv(w: World, l: nat, w': World)
    requires LeaderInv(w, l) && w' == World(Replicated(w.nodes, l), w.leaders)
    ensures Inv(w')
  {
    var mid := World(SendAppend(w.nodes, l, |w.nodes|), w.leaders);
    SendAppendKeepsInv(w, l, |w.nodes|, mid);
    assert NodeOk(mid, l);
    RecordKeepsInv(mid, l, w'.nodes[l]);
  }

  ghost predicate CandidateInv(w: World, i: nat) { Inv(w) && i < |w.nodes| && w.nodes[i].state == Candidate }

  // Asking for a vote moves the asked node to the candidate's term and changes no log.
  lemma {:induction false} AskStep(w: World, i: nat, j: nat, w': World)
    requires CandidateInv(w, i) && j < |w.nodes| && w' == World(AskOne(w.nodes, i, j), w.leaders)
    ensures CandidateInv(w', i) && |w'.nodes| == |w.nodes| && w'.nodes[i].term == w.nodes[i].term
  {
    if j != i && w.nodes[j].active {
      var rpc := VoteRequest(w.nodes[i], i);
      var mid := World(w.nodes[j := Asked(w.nodes[j], rpc)], w.leaders);
      FollowsKeepsInv(w, j, mid.nodes[j], j);
      if Grants(w.nodes[j], rpc) {
        FollowsKeepsInv(mid, i, w'.nodes[i], i);
      }
    }
  }

  lemma {:induction false} AskFirstKeepsInv(w: World, i: nat, k: nat, w': World)
    requires CandidateInv(w, i) && k <= |w.nodes| && w' == World(AskFirst(w.nodes, i, k), w.leaders)
    ensures CandidateInv(w', i) && |w'.nodes| == |w.nodes| && w'.nodes[i].term == w.nodes[i].term
  {
    if k > 0 {
      var mid := World(AskFirst(w.nodes, i, k - 1), w.leaders);
      AskFirstKeepsInv(w, i, k - 1, mid);
      AskStep(mid, i, k - 1, w');
    }
  }

  lemma {:induction false} PolledKeepsInv(w: World, i: nat, nodes: seq<Node>)
    requires CandidateInv(w, i) && nodes == Polled(w.nodes, i) && OneLeader(w.leaders + Leading(nodes))
    ensures Inv(World(nodes, w.leaders + Leading(nodes)))
  {
    var mid := World(AskFirst(w.nodes, i, |w.nodes|), w.leaders);
    AskFirstKeepsInv(w, i, |w.nodes|, mid);
    if mid.nodes[i].votes >= Quorum.Size(|w.nodes|) {
      assert w.leaders + Leading(nodes) == w.leaders + {(i, mid.nodes[i].term)} by {
        assert (i, nodes[i].term) in Leading(nodes);
        forall x | x in Leading(nodes) && x.0 != i ensures x in w.leaders {
          assert NodeOk(mid, x.0);
        }
      }
      WinKeepsInv(mid, i);
    } else {
      SameLeaders(mid);
    }
  }

  lemma {:induction false} CommandKeepsInv(w: World, l: nat, command: int, w': World)
    requires Inv(w) && l < |w.nodes| && w' == World(Submit(w.nodes, l, command), w.leaders)
    ensures Inv(w')
  {
    if w.nodes[l].state == Leader && |w.nodes[l].log| < MAX_LOG {
      AppendKeepsInv(w, l, command);
      ReplicatedKeepsInv(World(w.nodes[l := Append(w.nodes[l], command)], w.leaders), l, w');
    }
  }

  lemma {:induction false} ReplicateKeepsInv(w: World, l: nat, w': World)
    requires LeaderInv(w, l) && w' == World(Replicated(SendHeartbeat(w.nodes, l, |w.nodes|), l), w.leaders)
    ensures Inv(w')
  {
    var mid := World(SendHeartbeat(w.nodes, l, |w.nodes|), w.leaders);
    HeartbeatKeepsInv(w, l, |w.nodes|, mid);
    ReplicatedKeepsInv(mid, l, w');
  }

  lemma {:induction false} NextKeepsInv(w: World, s: Step, nodes: seq<Node>)
    requires Inv(w) && nodes == Next(w.nodes, s) && OneLeader(w.leaders + Leading(nodes))
    ensures Inv(World(nodes, w.leaders + Leading(nodes)))
  {
    if !Enabled(w.nodes, s) {
      SameLeaders(w);
    } else {
      match s
      case Command(l, command) =>
        CommandKeepsInv(w, l, command, World(nodes, w.leaders));
        SameLeaders(World(nodes, w.leaders));
      case Replicate(l) =>
        ReplicateKeepsInv(w, l, World(nodes, w.leaders));
        SameLeaders(World(nodes, w.leaders));
      case Poll(i) => PolledKeepsInv(w, i, nodes);
      case Campaign(i) => LocalKeepsInv(w, i, nodes);
      case StepDown(i, _) => LocalKeepsInv(w, i, nodes);
      case Isolate(i) => LocalKeepsInv(w, i, nodes);
      case Reconnect(i) => LocalKeepsInv(w, i, nodes);
    }
  }

  lemma {:induction false} LocalKeepsInv(w: World, i: nat, nodes: seq<Node>)
    requires Inv(w) && i < |w.nodes| && |nodes| == |w.nodes| && nodes == w.nodes[i := nodes[i]]
    requires Follows(w, i, nodes[i], i)
    ensures Inv(World(nodes, w.leaders + Leading(nodes)))
  {
    FollowsKeepsInv(w, i, nodes[i], i);
    SameLeaders(World(nodes, w.leaders));
  }

  lemma {:induction false} SameLeaders(w: World)
    requires Inv(w)
    ensures w.leaders + Leading(w.nodes) == w.leaders
  {
    forall x | x in Leading(w.nodes) ensures x in w.leaders {
      assert NodeOk(w, x.0);
    }
  }

  lemma {:induction false} ExecKeepsInv(n: nat, steps: seq<Step>)
    requires OneLeader(Exec(n, steps).leaders)
    ensures Inv(Exec(n, steps))
  {
    if steps != [] {
      var w := Exec(n, steps[..|steps| - 1]);
      assert w.leaders <= Exec(n, steps).leaders;
      ExecKeepsInv(n, steps[..|steps| - 1]);
      NextKeepsInv(w, steps[|steps| - 1], Exec(n, steps).nodes);
    }
  }

  // Log matching: over every run in which no term has two leaders, two logs
  // with the same term at an index are identical up to that index.
  lemma {:induction false} LogMatching(n: nat, steps: seq<Step>, a: nat, b: nat, i: nat)
    requires OneLeader(Exec(n, steps).leaders) && a < n && b < n
    requires var nodes := Exec(n, steps).nodes;
             i < |nodes[a].log| && i < |nodes[b].log| && nodes[a].log[i].term == nodes[b].log[i].term
    ensures var nodes := Exec(n, steps).nodes; nodes[a].log[..i + 1] == nodes[b].log[..i + 1]
  {
    ExecKeepsInv(n, steps);
    var nodes := Exec(n, steps).nodes;
    assert Match(nodes[a].log, nodes[b].log) && MatchAt(nodes[a].log, nodes[b].log, i);
  }

  // When a reachable leader's append to an active follower succeeds, the
  // follower agrees with the leader on the first matched entries.
  lemma {:induction false} AppendAgrees(n: nat, steps: seq<Step>, l: nat, i: nat)
    requires OneLeader(Exec(n, steps).leaders) && l < n && i < n && i != l
    requires var nodes := Exec(n, steps).nodes;
             nodes[l].state == Leader && nodes[i].active && Handle(nodes[i], Request(nodes[l], i)).1
    ensures var nodes := SendTo(Exec(n, steps).nodes, l, i); var m := nodes[l].matched[i];
            m <= |nodes[l].log| && m <= |nodes[i].log| && nodes[i].log[..m] == nodes[l].log[..m]
  {
    var w := Exec(n, steps);
    ExecKeepsInv(n, steps);
    assert NodeOk(w, l) && Match(w.nodes[i].log, w.nodes[l].log);
    SendToAgrees(w.nodes, l, i);
  }

  lemma {:induction false} SendToAgrees(nodes: seq<Node>, l: nat, i: nat)
    requires Shaped(nodes) && l < |nodes| && i < |nodes| && i != l && nodes[i].active
    requires Match(nodes[i].log, nodes[l].log) && |nodes[l].log| <= MAX_LOG
    requires 1 <= nodes[l].next[i] <= |nodes[l].log| + 1 && Handle(nodes[i], Request(nodes[l], i)).1
    ensures var nodes' := SendTo(nodes, l, i); var m := nodes'[l].matched[i];
            m <= |nodes'[l].log| && m <= |nodes'[i].log| && nodes'[i].log[..m] == nodes'[l].log[..m]
  {
    HandleEffect(nodes[i], nodes[l], i);
    SendToResult(nodes, l, i);
  }

  lemma {:induction false} SendToResult(nodes: seq<Node>, l: nat, i: nat)
    requires Shaped(nodes) && l < |nodes| && i < |nodes| && i != l && nodes[i].active
    requires Handle(nodes[i], Request(nodes[l], i)).1
    ensures var rpc := Request(nodes[l], i); var nodes' := SendTo(nodes, l, i);
            && nodes'[i] == Handle(nodes[i], rpc).0 && nodes'[l].log == nodes[l].log
            && nodes'[l].matched[i] == rpc.prevIndex + |rpc.entries|
  {
  }

  // ---------- Commits move ----------

  function Min(a: nat, b: nat): nat { if a < b then a else b }

  function Max(a: nat, b: nat): nat { if a < b then b else a }

  // A request is accepted exactly when its term is not stale and the log holds its
  // previous entry, and then the commit index follows the leader's.
  lemma {:induction false} HandleExactly(nd: Node, rpc: Rpc)
    ensures var (nd', ok) := Handle(nd, rpc);
            && (ok <==> rpc.term >= nd.term &&
                        (rpc.prevIndex == 0 ||
                         (rpc.prevIndex <= |nd.log| && nd.log[rpc.prevIndex - 1].term == rpc.prevTerm)))
            && nd'.term == Max(nd.term, rpc.term)
            && nd'.commit == if ok then Max(nd.commit, Min(rpc.leaderCommit, rpc.prevIndex + |rpc.entries|))
                             else nd.commit
  {
  }

  // After a successful append the follower has committed what it shares with the
  // leader's commit.
  lemma {:induction false} SendToCommits(n: nat, steps: seq<Step>, l: nat, i: nat)
    requires l < n && i < n && i != l && Exec(n, steps).nodes[l].state == Leader
    requires Exec(n, steps).nodes[i].active
    requires Handle(Exec(n, steps).nodes[i], Request(Exec(n, steps).nodes[l], i)).1
    ensures var nodes, nodes' := Exec(n, steps).nodes, SendTo(Exec(n, steps).nodes, l, i);
            nodes'[i].commit >= Min(nodes[l].commit, nodes'[l].matched[i])
  {
    var nodes := Exec(n, steps).nodes;
    SendToResult(nodes, l, i);
    HandleExactly(nodes[i], Request(nodes[l], i));
  }

  ghost function HoldersOf(nodes: seq<Node>, l: nat, m: nat, k: nat): set<nat>
    requires Shaped(nodes) && l < |nodes| && k <= |nodes|
  {
    set j: nat | j < k && j != l && nodes[j].active && nodes[l].matched[j] >= m
  }

  lemma {:induction false} HoldersCount(nodes: seq<Node>, l: nat, m: nat, k: nat)
    requires Shaped(nodes) && l < |nodes| && k <= |nodes|
    ensures MatchCount(nodes, l, m, k) == |HoldersOf(nodes, l, m, k)|
  {
    if k == 0 {
      assert HoldersOf(nodes, l, m, 0) == {};
    } else {
      HoldersCount(nodes, l, m, k - 1);
      HoldersNext(nodes, l, m, k - 1);
    }
  }

  lemma {:induction false} HoldersNext(nodes: seq<Node>, l: nat, m: nat, k: nat)
    requires Shaped(nodes) && l < |nodes| && k < |nodes|
    ensures |HoldersOf(nodes, l, m, k + 1)| ==
            |HoldersOf(nodes, l, m, k)| + if k != l && nodes[k].active && nodes[l].matched[k] >= m then 1 else 0
  {
    assert HoldersOf(nodes, l, m, k + 1) ==
           HoldersOf(nodes, l, m, k) + if k != l && nodes[k].active && nodes[l].matched[k] >= m then {k} else {};
  }

  // The first m entries end in one of the leader's term, and with the leader more than
  // half of the nodes are known to hold them.
  ghost predicate Committable(nodes: seq<Node>, l: nat, m: nat)
    requires Shaped(nodes) && l < |nodes|
  {
    && 0 < m <= |nodes[l].log| && nodes[l].log[m - 1].term == nodes[l].term
    && 2 * (1 + |HoldersOf(nodes, l, m, |nodes|)|) > |nodes|
  }

  // The leader's commit is the most that can be committed, or what it was.
  lemma {:induction false} CommitExactly(nodes: seq<Node>, l: nat, n: nat)
    requires Shaped(nodes) && l < |nodes| && n <= |nodes[l].log|
    ensures var c := CommitFrom(nodes, l, n);
            && (c == nodes[l].commit || (nodes[l].commit < c <= n && Committable(nodes, l, c)))
            && forall m :: c < m <= n ==> !Committable(nodes, l, m)
  {
    if n > nodes[l].commit {
      HoldersCount(nodes, l, n, |nodes|);
      if !Committable(nodes, l, n) {
        CommitExactly(nodes, l, n - 1);
      }
    }
  }

  // ---------- The code ----------

  // What a node does in a tick is one step of a run.
  function Turn(nodes: seq<Node>, i: nat, fires: bool): (r: seq<Node>)
    requires Shaped(nodes) && i < |nodes|
    ensures Shaped(r) && |r| == |nodes|
  {
    match nodes[i].state
    case Follower => if fires then Next(nodes, Campaign(i)) else nodes
    case Candidate => Next(nodes, if fires then Campaign(i) else Poll(i))
    case Leader => if fires then Next(nodes, Replicate(i)) else nodes
  }

  function Turns(nodes: seq<Node>, fires: seq<bool>, k: nat): (r: seq<Node>)
    requires Shaped(nodes) && |fires| == |nodes| && k <= |nodes|
    ensures Shaped(r) && |r| == |nodes|
  {
    if k == 0 then nodes else Turn(Turns(nodes, fires, k - 1), k - 1, fires[k - 1])
  }

  class RaftGroup {
    const nodes: array<Node>

    constructor (n: nat)
      ensures fresh(nodes) && nodes[..] == Init(n).nodes
    {
      nodes := new Node[n](_ => Blank(n));
      new;
      assert nodes[..] == Init(n).nodes;
    }

    method BecomeFollower(i: nat, term: nat)
      requires i < nodes.Length
      modifies nodes
      ensures nodes[..] == old(nodes[..])[i := AsFollower(old(nodes[i]), term)]
    {
      if term > nodes[i].term {
        nodes[i] := nodes[i].(term := term);
      }
      nodes[i] := nodes[i].(state := Follower, votedFor := -1, votes := 0);
    }

    method BecomeCandidate(i: nat)
      requires i < nodes.Length
      modifies nodes
      ensures nodes[..] == old(nodes[..])[i := AsCandidate(old(nodes[i]), i)]
    {
      nodes[i] := nodes[i].(state := Candidate, term := nodes[i].term + 1, votedFor := i, votes := 1);
    }

    method HandleRequestVote(i: nat, rpc: VoteRpc) returns (granted: bool)
      requires i < nodes.Length
      modifies nodes
      ensures nodes[..] == old(nodes[..])[i := Asked(old(nodes[i]), rpc)]
      ensures granted == Grants(old(nodes[i]), rpc)
    {
      if rpc.term < nodes[i].term {
        return false;
      }
      if rpc.term > nodes[i].term {
        BecomeFollower(i, rpc.term);
      }
      if nodes[i].votedFor != -1 && nodes[i].votedFor != rpc.candidate {
        return false;
      }
      granted := UpToDate(nodes[i], rpc);
      if granted {
        nodes[i] := nodes[i].(votedFor := rpc.candidate);
      }
    }

    method SendRequestVote(i: nat)
      requires i < nodes.Length && Shaped(nodes[..])
      modifies nodes
      ensures nodes[..] == AskFirst(old(nodes[..]), i, nodes.Length)
    {
      ghost var before := nodes[..];
      ghost var now := before;
      var j := 0;
      while j < nodes.Length
        invariant 0 <= j <= nodes.Length && now == nodes[..] && Shaped(now)
        invariant now == AskFirst(before, i, j)
      {
        SendRequestVoteTo(i, j);
        now := AskOne(now, i, j);
        j := j + 1;
      }
    }

    method SendRequestVoteTo(i: nat, j: nat)
      requires i < nodes.Length && j < nodes.Length && Shaped(nodes[..])
      modifies nodes
      ensures nodes[..] == AskOne(old(nodes[..]), i, j)
    {
      if j != i && nodes[j].active {
        var rpc := VoteRpc(nodes[i].term, i, |nodes[i].log|, LastTerm(nodes[i].log));
        var granted := HandleRequestVote(j, rpc);
        if granted && nodes[j].term >= nodes[i].term {
          nodes[i] := nodes[i].(votes := nodes[i].votes + 1);
        }
      }
    }

    // One node's turn in a tick; the flag says whether its timer has run out.
    method TickNode(i: nat, fires: bool)
      requires i < nodes.Length && Shaped(nodes[..])
      modifies nodes
      ensures Shaped(nodes[..]) && nodes[..] == Turn(old(nodes[..]), i, fires)
    {
      if !nodes[i].active {
        return;
      }
      match nodes[i].state
      case Follower =>
        if fires {
          BecomeCandidate(i);
        }
      case Candidate =>
        if fires {
          BecomeCandidate(i);
        } else {
          SendRequestVote(i);
          if nodes[i].votes >= Quorum.Size(nodes.Length) {
            BecomeLeader(i);
          }
        }
      case Leader =>
        if fires {
          SendHeartbeats(i);
          SendAppendEntries(i);
        }
    }

    method Tick(fires: seq<bool>)
      requires |fires| == nodes.Length && Shaped(nodes[..])
      modifies nodes
      ensures Shaped(nodes[..]) && nodes[..] == Turns(old(nodes[..]), fires, nodes.Length)
    {
      ghost var before := nodes[..];
      ghost var now := before;
      var i := 0;
      while i < nodes.Length
        invariant 0 <= i <= nodes.Length && now == nodes[..] && Shaped(now)
        invariant now == Turns(before, fires, i)
      {
        TickNode(i, fires[i]);
        now := Turn(now, i, fires[i]);
        i := i + 1;
      }
    }

    method HandleAppendEntries(i: nat, rpc: Rpc) returns (ok: bool, reply: Reply)
      requires i < nodes.Length
      modifies nodes
      ensures nodes[..] == old(nodes[..])[i := Handle(old(nodes[i]), rpc).0]
      ensures ok == Handle(old(nodes[i]), rpc).1 && reply == Reply(old(nodes[i].term), i)
      ensures ok ==> nodes[i].commit ==
                       Max(old(nodes[i].commit), Min(rpc.leaderCommit, rpc.prevIndex + |rpc.entries|))
    {
      ok, reply := false, Reply(nodes[i].term, i);
      if rpc.term < nodes[i].term {
        return;
      }
      if rpc.term > nodes[i].term {
        BecomeFollower(i, rpc.term);
      }
      if !LogOk(nodes[i].log, rpc.prevIndex, rpc.prevTerm) {
        return;
      }
      var log := StoreEntries(nodes[i].log, rpc);
      nodes[i] := nodes[i].(log := log);
      if rpc.leaderCommit > nodes[i].commit {
        var lastNew := rpc.prevIndex + |rpc.entries|;
        var commit := if rpc.leaderCommit > lastNew then lastNew else rpc.leaderCommit;
        if commit > nodes[i].commit {
          nodes[i] := nodes[i].(commit := commit);
        }
      }
      ok := true;
    }

    // The loop over the received entries, which stops at the end of the array.
    method StoreEntries(before: seq<Entry>, rpc: Rpc) returns (log: seq<Entry>)
      ensures log == StoreAll(before, rpc.prevIndex, rpc.entries, |rpc.entries|)
    {
      log := before;
      var k := 0;
      while k < |rpc.entries|
        invariant 0 <= k <= |rpc.entries|
        invariant log == StoreAll(before, rpc.prevIndex, rpc.entries, k)
      {
        var pos := rpc.prevIndex + k;
        if pos >= MAX_LOG {
          PastTheEnd(before, rpc.prevIndex, rpc.entries, k);
          return;
        }
        if pos < |log| {
          if log[pos].term != rpc.entries[k].term {
            log := log[..pos] + [rpc.entries[k]];
          }
        } else {
          log := log + [rpc.entries[k]];
        }
        k := k + 1;
      }
    }

    method SendAppendEntries(l: nat)
      requires l < nodes.Length && Shaped(nodes[..])
      modifies nodes
      ensures Shaped(nodes[..]) && nodes[..] == Replicated(old(nodes[..]), l)
    {
      SendEntriesToAll(l);
      var commit := FindCommit(l);
      nodes[l] := nodes[l].(commit := commit);
    }

    // The largest entry of the leader's term that a majority holds.
    method FindCommit(l: nat) returns (commit: nat)
      requires l < nodes.Length && Shaped(nodes[..])
      ensures commit == CommitFrom(nodes[..], l, |nodes[l].log|)
      ensures forall m :: commit < m <= |nodes[l].log| ==> !Committable(nodes[..], l, m)
    {
      CommitExactly(nodes[..], l, |nodes[l].log|);
      var n := |nodes[l].log|;
      while n > nodes[l].commit
        invariant 0 <= n <= |nodes[l].log|
        invariant CommitFrom(nodes[..], l, n) == CommitFrom(nodes[..], l, |nodes[l].log|)
      {
        if nodes[l].log[n - 1].term == nodes[l].term {
          var matched := CountMatched(l, n);
          if matched >= Quorum.Size(nodes.Length) {
            return n;
          }
        }
        n := n - 1;
      }
      commit := nodes[l].commit;
    }

    method CountMatched(l: nat, n: nat) returns (matched: nat)
      requires l < nodes.Length && Shaped(nodes[..])
      ensures matched == 1 + MatchCount(nodes[..], l, n, nodes.Length)
    {
      matched := 1;
      var i := 0;
      while i < nodes.Length
        invariant 0 <= i <= nodes.Length && matched == 1 + MatchCount(nodes[..], l, n, i)
      {
        if i != l && nodes[i].active && nodes[l].matched[i] >= n {
          matched := matched + 1;
        }
        i := i + 1;
      }
    }

    method SendEntriesToAll(l: nat)
      requires l < nodes.Length && Shaped(nodes[..])
      modifies nodes
      ensures Shaped(nodes[..]) && nodes[..] == SendAppend(old(nodes[..]), l, nodes.Length)
    {
      ghost var before := nodes[..];
      ghost var now := before;
      var i := 0;
      while i < nodes.Length
        invariant 0 <= i <= nodes.Length && now == nodes[..] && Shaped(now)
        invariant now == SendAppend(before, l, i)
      {
        SendAppendTo(l, i);
        now := SendTo(now, l, i);
        i := i + 1;
      }
    }

    method SendAppendTo(l: nat, i: nat)
      requires l < nodes.Length && i < nodes.Length && Shaped(nodes[..])
      modifies nodes
      ensures nodes[..] == SendTo(old(nodes[..]), l, i)
    {
      if i != l && nodes[i].active {
        var prev := nodes[l].next[i] - 1;
        var rpc := Rpc(nodes[l].term, prev, PrevTerm(nodes[l].log, prev), Batch(nodes[l].log, prev),
                       nodes[l].commit);
        var ok, _ := HandleAppendEntries(i, rpc);
        if ok {
          var next := nodes[l].next[i] + |rpc.entries|;
          nodes[l] := nodes[l].(next := nodes[l].next[i := next], matched := nodes[l].matched[i := next - 1]);
        } else if nodes[l].next[i] > 1 {
          nodes[l] := nodes[l].(next := nodes[l].next[i := nodes[l].next[i] - 1]);
        }
      }
    }

    method SendHeartbeats(l: nat)
      requires l < nodes.Length && Shaped(nodes[..])
      modifies nodes
      ensures Shaped(nodes[..]) && nodes[..] == SendHeartbeat(old(nodes[..]), l, nodes.Length)
    {
      ghost var before := nodes[..];
      ghost var now := before;
      var i := 0;
      while i < nodes.Length
        invariant 0 <= i <= nodes.Length && now == nodes[..] && Shaped(now)
        invariant now == SendHeartbeat(before, l, i)
      {
        SendHeartbeatTo(l, i);
        now := Beat(now, l, i);
        i := i + 1;
      }
    }

    method SendHeartbeatTo(l: nat, i: nat)
      requires l < nodes.Length && i < nodes.Length && Shaped(nodes[..])
      modifies nodes
      ensures nodes[..] == Beat(old(nodes[..]), l, i)
    {
      if i != l && nodes[i].active {
        var prev := nodes[l].next[i] - 1;
        var rpc := Rpc(nodes[l].term, prev, PrevTerm(nodes[l].log, prev), [], nodes[l].commit);
        var _, _ := HandleAppendEntries(i, rpc);
      }
    }

    method SubmitCommand(l: nat, command: int) returns (ok: bool)
      requires l < nodes.Length && Shaped(nodes[..])
      modifies nodes
      ensures Shaped(nodes[..]) && nodes[..] == Submit(old(nodes[..]), l, command)
      ensures ok == (old(nodes[l].state) == Leader && |old(nodes[l].log)| < MAX_LOG)
    {
      if nodes[l].state != Leader || |nodes[l].log| >= MAX_LOG {
        return false;
      }
      nodes[l] := nodes[l].(log := nodes[l].log + [Entry(nodes[l].term, command)]);
      assert nodes[..] == old(nodes[..])[l := Append(old(nodes[l]), command)];
      SendAppendEntries(l);
      ok := true;
    }

    method BecomeLeader(i: nat)
      requires i < nodes.Length && Shaped(nodes[..])
      modifies nodes
      ensures nodes[..] == old(nodes[..])[i := AsLeader(old(nodes[i]))]
    {
      var nd := nodes[i];
      var next, matched, k := [], [], 0;
      while k < nodes.Length
        invariant 0 <= k <= nodes.Length && |next| == k && |matched| == k
        invariant forall j :: 0 <= j < k ==> next[j] == |nd.log| + 1 && matched[j] == 0
      {
        next, matched, k := next + [|nd.log| + 1], matched + [0], k + 1;
      }
      nodes[i] := nd.(state := Leader, votedFor := -1, votes := 0, next := next, matched := matched);
      assert nodes[i] == AsLeader(nd);
    }

    method ReconnectNode(i: int)
      requires Shaped(nodes[..])
      modifies nodes
      ensures if 0 <= i then nodes[..] == Next(old(nodes[..]), Reconnect(i)) else nodes[..] == old(nodes[..])
    {
      if i < 0 || i >= nodes.Length {
        return;
      }
      nodes[i] := nodes[i].(active := true);
      BecomeFollower(i, nodes[i].term);
    }
  }

  lemma {:induction false} PastTheEnd(log: seq<Entry>, prevIndex: nat, entries: seq<Entry>, k: nat)
    requires k <= |entries| && prevIndex + k >= MAX_LOG
    ensures StoreAll(log, prevIndex, entries, |entries|) == StoreAll(log, prevIndex, entries, k)
    decreases |entries| - k
  {
    if k < |entries| {
      PastTheEnd(log, prevIndex, entries, k + 1);
    }
  }
}
