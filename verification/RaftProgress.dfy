/**
 * What the synchronous Raft cluster achieves: a candidate whom a majority may follow
 * leads, replication repairs every log that differs, and what a majority holds is
 * committed everywhere.
 */
module RaftProgress {
  import opened RaftLog
  import RaftVotes
  import RaftCommit
  import Quorum

  // ---------- Winning an election ----------

  // Node j would vote for candidate i: it is active and not beyond the term, has no
  // other vote in it, and its log is no more up to date.
  ghost predicate Supports(nodes: seq<Node>, i: nat, j: nat)
    requires i < |nodes| && j < |nodes|
  {
    var x, nd := nodes[i], nodes[j];
    && nd.active && nd.term <= x.term && (nd.term == x.term ==> nd.votedFor == -1 || nd.votedFor == i)
    && (LastTerm(nd.log) < LastTerm(x.log) || (LastTerm(nd.log) == LastTerm(x.log) && |nd.log| <= |x.log|))
  }

  ghost function Supporters(nodes: seq<Node>, i: nat): set<nat>
    requires i < |nodes|
  {
    set j: nat | j < |nodes| && j != i && Supports(nodes, i, j)
  }

  // A poll adds one vote per supporter, and makes a leader exactly with a majority.
  lemma {:induction false} PollExactly(nodes: seq<Node>, i: nat, nodes': seq<Node>)
    requires Shaped(nodes) && i < |nodes| && nodes[i].active && nodes[i].state == Candidate
    requires nodes' == Next(nodes, Poll(i))
    ensures |nodes'| == |nodes|
    ensures var votes := nodes[i].votes + |Supporters(nodes, i)|;
            if 2 * votes > |nodes| then nodes'[i].state == Leader && nodes'[i].term == nodes[i].term
            else nodes'[i] == nodes[i].(votes := votes)
    ensures forall j :: 0 <= j < |nodes| && j != i ==>
              (j in Supporters(nodes, i) ==> nodes'[j].term == nodes[i].term && nodes'[j].votedFor == i)
  {
    var asked := AskFirst(nodes, i, |nodes|);
    RaftVotes.AskFirstEffect(nodes, i, |nodes|, asked);
    assert RaftVotes.Granters(nodes, i, |nodes|) == Supporters(nodes, i);
    forall j | 0 <= j < |nodes| && j != i && j in Supporters(nodes, i)
      ensures nodes'[j].term == nodes[i].term && nodes'[j].votedFor == i
    {
      assert asked[j] == RaftVotes.Answer(nodes, i, j, |nodes|);
    }
  }

  // ---------- What one round of replication does ----------

  // Node i after the heartbeat of leader l.
  function Beaten(nodes: seq<Node>, l: nat, i: nat): Node
    requires Shaped(nodes) && l < |nodes| && i < |nodes|
  {
    if i == l || !nodes[i].active then nodes[i]
    else Handle(nodes[i], Request(nodes[l], i).(entries := [])).0
  }

  lemma {:induction false} BeatsEach(nodes: seq<Node>, l: nat, k: nat, i: nat, r: seq<Node>)
    requires Shaped(nodes) && l < |nodes| && k <= |nodes| && i < |nodes| && r == SendHeartbeat(nodes, l, k)
    ensures r[i] == if i < k then Beaten(nodes, l, i) else nodes[i]
    ensures r[l] == nodes[l]
  {
    if k > 0 {
      var mid := SendHeartbeat(nodes, l, k - 1);
      BeatsEach(nodes, l, k - 1, i, mid);
      BeatsEach(nodes, l, k - 1, k - 1, mid);
    }
  }

  // The leader's record of node i, and all it keeps while it sends.
  ghost predicate SameLeader(x: Node, y: Node) {
    && y.log == x.log && y.term == x.term && y.state == x.state && y.commit == x.commit && y.active == x.active
    && |y.next| == |x.next| && |y.matched| == |x.matched|
  }

  // The leader has sent to the first k nodes.
  ghost predicate SentEach(nodes: seq<Node>, l: nat, k: nat, r: seq<Node>, i: nat)
    requires Shaped(nodes) && l < |nodes| && i < |nodes|
  {
    && |r| == |nodes| && SameLeader(nodes[l], r[l]) && |nodes[l].next| == |nodes[l].matched| == |nodes|
    && (i != l ==>
          if i < k && nodes[i].active then Answered(nodes[l], nodes[i], i, r[l], r[i])
          else r[i] == nodes[i] && r[l].next[i] == nodes[l].next[i] && r[l].matched[i] == nodes[l].matched[i])
  }

  // A follower has handled the request of its leader, which has recorded the answer.
  ghost predicate Answered(leader: Node, nd: Node, i: nat, leader': Node, nd': Node)
    requires i < |leader.next| && i < |leader.matched| && leader.next[i] >= 1
    requires i < |leader'.next| && i < |leader'.matched|
  {
    var rpc := Request(leader, i);
    && nd' == Handle(nd, rpc).0
    && if Handle(nd, rpc).1 then
         leader'.next[i] == leader.next[i] + |rpc.entries| && leader'.matched[i] == leader'.next[i] - 1
       else
         && leader'.next[i] == (if leader.next[i] > 1 then leader.next[i] - 1 else leader.next[i])
         && leader'.matched[i] == leader.matched[i]
  }

  lemma {:induction false} SendsNext(nodes: seq<Node>, l: nat, k: nat, mid: seq<Node>, r: seq<Node>, i: nat)
    requires Shaped(nodes) && l < |nodes| && k < |nodes| && i < |nodes| && Shaped(mid)
    requires SentEach(nodes, l, k, mid, i) && SentEach(nodes, l, k, mid, k) && r == SendTo(mid, l, k)
    ensures SentEach(nodes, l, k + 1, r, i)
  {
    if k != l {
      assert mid[k] == nodes[k] && Request(mid[l], k) == Request(nodes[l], k);
    }
  }

  lemma {:induction false} SendsNone(nodes: seq<Node>, l: nat, i: nat)
    requires Shaped(nodes) && l < |nodes| && i < |nodes|
    ensures SentEach(nodes, l, 0, SendAppend(nodes, l, 0), i)
  {
  }

  // What holds of every node before the first answer, and is kept by each, holds after all.
  lemma {:induction false} AllSent(P: (nat, seq<Node>, nat) -> bool, nodes: seq<Node>, l: nat, k: nat)
    requires Shaped(nodes) && l < |nodes| && k <= |nodes|
    requires forall i: nat :: i < |nodes| ==> P(0, SendAppend(nodes, l, 0), i)
    requires forall j: nat, mid, i: nat ::
               j < |nodes| == |mid| && i < |nodes| && Shaped(mid) && P(j, mid, i) && P(j, mid, j)
               ==> P(j + 1, SendTo(mid, l, j), i)
    ensures forall i: nat :: i < |nodes| ==> P(k, SendAppend(nodes, l, k), i)
  {
    if k > 0 {
      AllSent(P, nodes, l, k - 1);
      var mid := SendAppend(nodes, l, k - 1);
      assert P(k - 1, mid, k - 1);
      forall i: nat | i < |nodes| ensures P(k, SendAppend(nodes, l, k), i) {
        assert P(k - 1, mid, i);
        assert P(k - 1 + 1, SendTo(mid, l, k - 1), i);
      }
    }
  }

  lemma {:induction false} SendsEach(nodes: seq<Node>, l: nat, k: nat, i: nat, r: seq<Node>)
    requires Shaped(nodes) && l < |nodes| && k <= |nodes| && i < |nodes| && r == SendAppend(nodes, l, k)
    ensures SentEach(nodes, l, k, r, i)
  {
    var P := (j: nat, mid: seq<Node>, m: nat) => m < |nodes| && SentEach(nodes, l, j, mid, m);
    forall m: nat | m < |nodes| ensures P(0, SendAppend(nodes, l, 0), m) {
      SendsNone(nodes, l, m);
    }
    forall j: nat, mid, m: nat | j < |nodes| == |mid| && m < |nodes| && Shaped(mid) && P(j, mid, m) && P(j, mid, j)
      ensures P(j + 1, SendTo(mid, l, j), m)
    {
      SendsNext(nodes, l, j, mid, SendTo(mid, l, j), m);
    }
    AllSent(P, nodes, l, k);
    assert P(k, r, i);
  }

  // Node i may follow leader l: both are active, and i is not in a later term.
  ghost predicate Following(nodes: seq<Node>, l: nat, i: nat) {
    && l < |nodes| && i < |nodes| && i != l && nodes[l].state == Leader && nodes[l].active
    && nodes[i].active && nodes[i].term <= nodes[l].term
  }

  lemma {:induction false} HandleKeeps(nd: Node, rpc: Rpc)
    ensures var nd' := Handle(nd, rpc).0;
            nd'.active == nd.active && nd'.commit >= nd.commit && (rpc.entries == [] ==> nd'.log == nd.log)
  {
  }

  // A round: the follower gets a heartbeat and a request and the leader its answer.
  lemma {:induction false} RoundEffect(nodes: seq<Node>, l: nat, i: nat, nodes': seq<Node>) returns (nd: Node)
    requires Shaped(nodes) && Following(nodes, l, i) && nodes' == Next(nodes, Replicate(l))
    ensures |nodes'| == |nodes| && |nodes[l].next| == |nodes[l].matched| == |nodes|
    ensures |nodes'[l].next| == |nodes'[l].matched| == |nodes| && nodes[l].next[i] >= 1
    ensures nd.active && nd.log == nodes[i].log && nd.term == nodes[l].term && nd.commit >= nodes[i].commit
    ensures Answered(nodes[l], nd, i, nodes'[l], nodes'[i])
    ensures SameLeader(nodes[l].(commit := nodes'[l].commit), nodes'[l]) && nodes'[l].commit >= nodes[l].commit
  {
    var b := SendHeartbeat(nodes, l, |nodes|);
    var r := SendAppend(b, l, |b|);
    BeatsEach(nodes, l, |nodes|, i, b);
    SendsEach(b, l, |b|, i, r);
    nd := b[i];
    HandleKeeps(nodes[i], Request(nodes[l], i).(entries := []));
    HandleExactly(nodes[i], Request(nodes[l], i).(entries := []));
    assert nodes' == r[l := r[l].(commit := CommitFrom(r, l, |r[l].log|))];
  }

  // How many answers the leader still needs before it knows that the follower holds
  // its whole log: it steps back to an entry both hold, then forward to the end.
  ghost function Lag(leader: Node, nd: Node, i: nat): nat
    requires i < |leader.next| && 1 <= leader.next[i] <= |leader.log| + 1
  {
    if RaftCommit.Agree(nd.log, leader.log, leader.next[i] - 1) then |leader.log| + 1 - leader.next[i]
    else |leader.log| + 1 + leader.next[i]
  }

  // The follower holds the leader's log, and the leader knows.
  ghost predicate Caught(leader: Node, nd: Node, i: nat)
    requires i < |leader.matched| && i < |leader.next|
  {
    leader.matched[i] == |leader.log| && leader.next[i] == |leader.log| + 1 && leader.log <= nd.log
  }

  // A refusal means that the logs differ there, and there is an entry to step back.
  lemma {:induction false} RefusalSteps(leader: Node, nd: Node, i: nat)
    requires i < |leader.next| && 1 <= leader.next[i] <= |leader.log| + 1 && nd.term == leader.term
    requires !Handle(nd, Request(leader, i)).1
    ensures leader.next[i] > 1 && !RaftCommit.Agree(nd.log, leader.log, leader.next[i] - 1)
  {
    HandleExactly(nd, Request(leader, i));
    if leader.next[i] > 1 {
      LastOf(nd.log, leader.log, leader.next[i] - 1);
    }
  }

  lemma {:induction false} LastOf(x: seq<Entry>, y: seq<Entry>, m: nat)
    requires 0 < m
    ensures RaftCommit.Agree(x, y, m) ==> x[m - 1] == y[m - 1]
  {
    if RaftCommit.Agree(x, y, m) {
      assert x[m - 1] == x[..m][m - 1] && y[m - 1] == y[..m][m - 1];
    }
  }

  // An acceptance means that the logs agree, and the leader moves on.
  lemma {:induction false} AcceptanceSteps(leader: Node, nd: Node, i: nat, leader': Node, nd': Node)
    requires i < |leader.next| && 1 <= leader.next[i] <= |leader.log| + 1 && nd.term == leader.term
    requires Match(nd.log, leader.log) && |leader.log| <= MAX_LOG
    requires i < |leader.matched| && i < |leader'.next| && i < |leader'.matched| && leader'.log == leader.log
    requires Answered(leader, nd, i, leader', nd') && Handle(nd, Request(leader, i)).1
    ensures RaftCommit.Agree(nd.log, leader.log, leader.next[i] - 1)
    ensures RaftCommit.Agree(nd'.log, leader.log, leader'.next[i] - 1)
    ensures leader.next[i] <= leader'.next[i] <= |leader.log| + 1
    ensures leader.next[i] <= |leader.log| ==> leader.next[i] < leader'.next[i]
    ensures leader'.matched[i] == leader'.next[i] - 1
    ensures nd'.commit >= Min(leader.commit, leader'.matched[i])
  {
    var rpc, p := Request(leader, i), leader.next[i] - 1;
    HandleExactly(nd, rpc);
    assert p > 0 ==> MatchAt(nd.log, leader.log, p - 1) && nd.log[..p - 1 + 1] == leader.log[..p - 1 + 1];
    RaftCommit.AcceptReceives(nd, leader, i, rpc, nd');
  }

  lemma {:induction false} AnswerAdvances(leader: Node, nd: Node, i: nat, leader': Node, nd': Node)
    requires i < |leader.next| && 1 <= leader.next[i] <= |leader.log| + 1 && nd.term == leader.term
    requires Match(nd.log, leader.log) && |leader.log| <= MAX_LOG && nd.active
    requires i < |leader.matched| && i < |leader'.next| && i < |leader'.matched| && leader'.log == leader.log
    requires Answered(leader, nd, i, leader', nd')
    ensures 1 <= leader'.next[i] <= |leader'.log| + 1 && nd'.term == leader.term && nd'.active
    ensures Lag(leader', nd', i) < Lag(leader, nd, i) || Lag(leader', nd', i) == 0
    ensures Lag(leader, nd, i) == 0 ==>
              Caught(leader', nd', i) && nd'.commit >= Min(leader.commit, |leader.log|)
  {
    HandleExactly(nd, Request(leader, i));
    HandleKeeps(nd, Request(leader, i));
    if Handle(nd, Request(leader, i)).1 {
      AcceptanceSteps(leader, nd, i, leader', nd');
      assert leader.log[..|leader.log|] == leader.log;
    } else {
      RefusalSteps(leader, nd, i);
    }
  }

  // One round brings the leader nearer to an answer that everything is there.
  lemma {:induction false} RoundAdvances(w: World, l: nat, i: nat, w': World)
    requires LeaderInv(w, l) && Following(w.nodes, l, i)
    requires w' == World(Next(w.nodes, Replicate(l)), w.leaders)
    ensures RoundDone(w, l, i, w')
  {
    var leader := w.nodes[l];
    assert NodeOk(w, l) && Match(w.nodes[i].log, leader.log);
    var nd := RoundEffect(w.nodes, l, i, w'.nodes);
    ReplicateKeepsInv(w, l, w');
    AnswerAdvances(leader, nd, i, w'.nodes[l], w'.nodes[i]);
  }

  ghost predicate Ready(w: World, l: nat, i: nat) {
    && LeaderInv(w, l) && Following(w.nodes, l, i) && |w.nodes[l].next| == |w.nodes[l].matched| == |w.nodes|
    && 1 <= w.nodes[l].next[i] <= |w.nodes[l].log| + 1
  }

  ghost predicate RoundDone(w: World, l: nat, i: nat, w': World) {
    && Ready(w, l, i) && Ready(w', l, i) && |w'.nodes| == |w.nodes| && w'.leaders == w.leaders
    && w'.nodes[l].log == w.nodes[l].log && w'.nodes[l].term == w.nodes[l].term
    && w'.nodes[l].commit >= w.nodes[l].commit
    && (Lag(w'.nodes[l], w'.nodes[i], i) < Lag(w.nodes[l], w.nodes[i], i) || Lag(w'.nodes[l], w'.nodes[i], i) == 0)
    && (Lag(w.nodes[l], w.nodes[i], i) == 0 ==>
          && Caught(w'.nodes[l], w'.nodes[i], i)
          && w'.nodes[i].commit >= Min(w.nodes[l].commit, |w.nodes[l].log|))
  }

  // ---------- Repair ----------

  // The world after one more round of leader l.
  function Round(w: World, l: nat): World {
    if !Shaped(w.nodes) then w else
    var nodes := Next(w.nodes, Replicate(l)); World(nodes, w.leaders + Leading(nodes))
  }

  function Times(l: nat, k: nat): seq<Step> { seq(k, _ => Replicate(l)) }

  // What every round keeps holds after any number of rounds.
  lemma {:induction false} EachRound(P: (World, nat) -> bool, n: nat, xs: seq<Step>, l: nat, k: nat)
    requires P(Exec(n, xs), 0) && forall w, j: nat :: P(w, j) ==> P(Round(w, l), j + 1)
    ensures P(Exec(n, xs + Times(l, k)), k)
  {
    if k == 0 {
      assert xs + Times(l, 0) == xs;
    } else {
      EachRound(P, n, xs, l, k - 1);
      RoundRun(n, xs, l, k - 1, Exec(n, xs + Times(l, k - 1)), Exec(n, xs + Times(l, k)));
    }
  }

  lemma {:induction false} RoundRun(n: nat, xs: seq<Step>, l: nat, k: nat, w: World, w': World)
    requires w == Exec(n, xs + Times(l, k)) && w' == Exec(n, xs + Times(l, k + 1))
    ensures w' == Round(w, l)
  {
    var ys := xs + Times(l, k);
    assert xs + Times(l, k + 1) == ys + [Replicate(l)];
    assert (ys + [Replicate(l)])[..|ys|] == ys;
  }

  // After k rounds from w.
  ghost predicate After(w: World, l: nat, i: nat, w': World, k: nat) {
    && Ready(w, l, i) && Ready(w', l, i) && |w'.nodes| == |w.nodes|
    && w'.nodes[l].log == w.nodes[l].log && w'.nodes[l].term == w.nodes[l].term
    && w'.nodes[l].commit >= w.nodes[l].commit
    && (Lag(w'.nodes[l], w'.nodes[i], i) + k <= Lag(w.nodes[l], w.nodes[i], i)
        || Lag(w'.nodes[l], w'.nodes[i], i) == 0)
    && (k > Lag(w.nodes[l], w.nodes[i], i) ==> Caught(w'.nodes[l], w'.nodes[i], i))
  }

  lemma {:induction false} RoundOfReady(w: World, l: nat, i: nat, w': World)
    requires Ready(w, l, i) && w' == Round(w, l)
    ensures RoundDone(w, l, i, w')
  {
    var v := World(w'.nodes, w.leaders);
    RoundAdvances(w, l, i, v);
    SameLeaders(v);
  }

  lemma {:induction false} CaughtIsLevel(leader: Node, nd: Node, i: nat)
    requires i < |leader.next| && i < |leader.matched| && Caught(leader, nd, i)
    ensures Lag(leader, nd, i) == 0
  {
  }

  lemma {:induction false} AfterNext(w: World, l: nat, i: nat, v: World, k: nat, v': World)
    requires After(w, l, i, v, k) && v' == Round(v, l)
    ensures After(w, l, i, v', k + 1)
  {
    RoundOfReady(v, l, i, v');
    DoneAfter(w, l, i, v, k, v');
  }

  lemma {:induction false} DoneAfter(w: World, l: nat, i: nat, v: World, k: nat, v': World)
    requires After(w, l, i, v, k) && RoundDone(v, l, i, v')
    ensures After(w, l, i, v', k + 1)
  {
  }

  lemma {:induction false} FollowingReady(n: nat, xs: seq<Step>, l: nat, i: nat, w: World)
    requires RaftVotes.Fair(n, xs) && w == Exec(n, xs) && Following(w.nodes, l, i)
    ensures Ready(w, l, i) && After(w, l, i, w, 0)
  {
    RaftVotes.OneLeaderPerTerm(n, xs);
    ExecKeepsInv(n, xs);
    assert NodeOk(w, l);
  }

  // How many rounds always suffice.
  function Enough(leader: Node): nat { 2 * |leader.log| + 3 }

  // Repair: whatever the logs of an active leader and an active follower of no later
  // term are, after enough rounds the follower holds the leader's log, and the leader
  // knows.
  lemma {:induction false} LogsAreRepaired(n: nat, xs: seq<Step>, l: nat, i: nat, k: nat)
    requires RaftVotes.Fair(n, xs) && Following(Exec(n, xs).nodes, l, i) && k >= Enough(Exec(n, xs).nodes[l])
    ensures var w, w' := Exec(n, xs), Exec(n, xs + Times(l, k));
            && Ready(w', l, i) && w'.nodes[l].log == w.nodes[l].log && w'.nodes[l].term == w.nodes[l].term
            && Caught(w'.nodes[l], w'.nodes[i], i)
  {
    var w := Exec(n, xs);
    FollowingReady(n, xs, l, i, w);
    var P := (v: World, j: nat) => After(w, l, i, v, j);
    forall v, j: nat | P(v, j) ensures P(Round(v, l), j + 1) {
      AfterNext(w, l, i, v, j, Round(v, l));
    }
    EachRound(P, n, xs, l, k);
    assert P(Exec(n, xs + Times(l, k)), k);
  }

  // ---------- Commit ----------

  lemma {:induction false} AllOthers(n: nat, l: nat, s: set<nat>)
    requires l < n && forall j: nat :: j in s <==> j < n && j != l
    ensures |s| == n - 1
  {
    Everybody(n, s + {l});
    assert |s + {l}| == |s| + 1;
  }

  lemma {:induction false} Everybody(n: nat, s: set<nat>)
    requires forall j: nat :: j in s <==> j < n
    ensures |s| == n
  {
    if n == 0 {
      assert s == {};
    } else {
      Everybody(n - 1, s - {n - 1});
    }
  }

  // Everybody else follows leader l, which knows that everybody holds its log.
  ghost predicate AllCaught(w: World, l: nat) {
    forall j :: 0 <= j < |w.nodes| && j != l ==> Ready(w, l, j) && Caught(w.nodes[l], w.nodes[j], j)
  }

  lemma {:induction false} CaughtAgain(w: World, l: nat, j: nat, nodes': seq<Node>)
    requires Ready(w, l, j) && Caught(w.nodes[l], w.nodes[j], j) && nodes' == Next(w.nodes, Replicate(l))
    ensures |nodes'| == |w.nodes| == |nodes'[l].matched| && nodes'[j].active
    ensures nodes'[l].matched[j] == |w.nodes[l].log|
  {
    var v := World(nodes', w.leaders);
    CaughtIsLevel(w.nodes[l], w.nodes[j], j);
    RoundAdvances(w, l, j, v);
  }

  lemma {:induction false} LevelCommits(r: seq<Node>, l: nat)
    requires Shaped(r) && l < |r| && r[l].log != [] && LastTerm(r[l].log) == r[l].term
    requires forall j: nat :: j < |r| && j != l ==> r[l].matched[j] == |r[l].log| && r[j].active
    ensures CommitFrom(r, l, |r[l].log|) >= |r[l].log|
  {
    AllOthers(|r|, l, HoldersOf(r, l, |r[l].log|, |r|));
    assert Committable(r, l, |r[l].log|);
    CommitExactly(r, l, |r[l].log|);
  }

  // A round after that commits the whole log, if it ends in an entry of the term.
  lemma {:induction false} RoundCommits(w: World, l: nat, nodes': seq<Node>)
    requires LeaderInv(w, l) && w.nodes[l].active && AllCaught(w, l) && nodes' == Next(w.nodes, Replicate(l))
    requires w.nodes[l].log != [] && LastTerm(w.nodes[l].log) == w.nodes[l].term
    ensures |nodes'| == |w.nodes| && nodes'[l].commit >= |w.nodes[l].log|
  {
    var n, log := |w.nodes|, w.nodes[l].log;
    var b := SendHeartbeat(w.nodes, l, n);
    var r := SendAppend(b, l, n);
    BeatsEach(w.nodes, l, n, l, b);
    SendsEach(b, l, n, l, r);
    assert nodes' == r[l := r[l].(commit := CommitFrom(r, l, |r[l].log|))];
    forall j: nat | j < n && j != l ensures r[l].matched[j] == |log| && r[j].active {
      CaughtAgain(w, l, j, nodes');
    }
    LevelCommits(r, l);
  }

  // After k rounds from w, seen by everybody.
  ghost predicate AllAfter(w: World, l: nat, w': World, k: nat) {
    && l < |w.nodes| == |w'.nodes| && LeaderInv(w', l) && w'.nodes[l].active
    && w'.nodes[l].log == w.nodes[l].log && w'.nodes[l].term == w.nodes[l].term
    && (forall i :: 0 <= i < |w.nodes| && i != l ==> After(w, l, i, w', k))
    && (k > Enough(w.nodes[l]) ==> w'.nodes[l].commit >= |w.nodes[l].log|)
    && (k > Enough(w.nodes[l]) + 1 ==>
          forall i :: 0 <= i < |w.nodes| ==> w'.nodes[i].commit >= |w.nodes[l].log|)
  }

  lemma {:induction false} LeaderRound(w: World, l: nat, w': World)
    requires LeaderInv(w, l) && w.nodes[l].active && w' == Round(w, l)
    ensures LeaderInv(w', l) && |w'.nodes| == |w.nodes| && w'.nodes[l].active
    ensures w'.nodes[l].log == w.nodes[l].log && w'.nodes[l].term == w.nodes[l].term
    ensures w'.nodes[l].commit >= w.nodes[l].commit
  {
    var v := World(w'.nodes, w.leaders);
    ReplicateKeepsInv(w, l, v);
    var b := SendHeartbeat(w.nodes, l, |w.nodes|);
    BeatsEach(w.nodes, l, |w.nodes|, l, b);
    SendsEach(b, l, |b|, l, SendAppend(b, l, |b|));
    SameLeaders(v);
  }

  lemma {:induction false} AllCaughtAfter(w: World, l: nat, v: World, k: nat)
    requires AllAfter(w, l, v, k) && k >= Enough(w.nodes[l])
    ensures AllCaught(v, l)
  {
    forall j | 0 <= j < |v.nodes| && j != l ensures Ready(v, l, j) && Caught(v.nodes[l], v.nodes[j], j) {
      assert After(w, l, j, v, k);
    }
  }

  lemma {:induction false} EachCommitsNext(w: World, l: nat, v: World, k: nat, v': World, i: nat)
    requires AllAfter(w, l, v, k) && v' == Round(v, l) && k > Enough(w.nodes[l])
    requires i < |w.nodes| == |v'.nodes|
    ensures v'.nodes[i].commit >= |w.nodes[l].log|
  {
    if i == l {
      LeaderRound(v, l, v');
    } else {
      AllCaughtAfter(w, l, v, k);
      RoundOfReady(v, l, i, v');
      CaughtIsLevel(v.nodes[l], v.nodes[i], i);
    }
  }

  lemma {:induction false} AfterNextCommits(w: World, l: nat, v: World, k: nat, v': World)
    requires AllAfter(w, l, v, k) && v' == Round(v, l) && k >= Enough(w.nodes[l]) && |v'.nodes| == |w.nodes|
    requires w.nodes[l].log != [] && LastTerm(w.nodes[l].log) == w.nodes[l].term
    ensures v'.nodes[l].commit >= |w.nodes[l].log|
  {
    AllCaughtAfter(w, l, v, k);
    RoundCommits(v, l, v'.nodes);
  }

  lemma {:induction false} AllAfterNext(w: World, l: nat, v: World, k: nat, v': World)
    requires AllAfter(w, l, v, k) && v' == Round(v, l)
    requires w.nodes[l].log != [] && LastTerm(w.nodes[l].log) == w.nodes[l].term
    ensures AllAfter(w, l, v', k + 1)
  {
    var next := k + 1;
    LeaderRound(v, l, v');
    forall i | 0 <= i < |w.nodes| && i != l ensures After(w, l, i, v', next) {
      assert After(w, l, i, v, k);
      AfterNext(w, l, i, v, k, v');
    }
    if k >= Enough(w.nodes[l]) {
      AfterNextCommits(w, l, v, k, v');
    }
    if k > Enough(w.nodes[l]) {
      forall i | 0 <= i < |w.nodes| ensures v'.nodes[i].commit >= |w.nodes[l].log| {
        EachCommitsNext(w, l, v, k, v', i);
      }
    }
  }

  lemma {:induction false} AllAfterStarts(n: nat, xs: seq<Step>, l: nat, w: World)
    requires RaftVotes.Fair(n, xs) && w == Exec(n, xs) && l < n && w.nodes[l].state == Leader && w.nodes[l].active
    requires forall i :: 0 <= i < n && i != l ==> Following(w.nodes, l, i)
    ensures AllAfter(w, l, w, 0)
  {
    RaftVotes.OneLeaderPerTerm(n, xs);
    ExecKeepsInv(n, xs);
    forall i | 0 <= i < n && i != l ensures After(w, l, i, w, 0) {
      FollowingReady(n, xs, l, i, w);
    }
  }

  // Progress: a leader whom everybody can follow, and whose log ends in an entry of its
  // term, after enough rounds has the whole log committed at every node.
  lemma {:induction false} EverybodyCommits(n: nat, xs: seq<Step>, l: nat, k: nat)
    requires RaftVotes.Fair(n, xs) && l < n && k >= Enough(Exec(n, xs).nodes[l]) + 2
    requires Exec(n, xs).nodes[l].state == Leader && Exec(n, xs).nodes[l].active
    requires forall i :: 0 <= i < n && i != l ==> Following(Exec(n, xs).nodes, l, i)
    requires Exec(n, xs).nodes[l].log != [] && LastTerm(Exec(n, xs).nodes[l].log) == Exec(n, xs).nodes[l].term
    ensures var log, nodes := Exec(n, xs).nodes[l].log, Exec(n, xs + Times(l, k)).nodes;
            forall i :: 0 <= i < n ==> log <= nodes[i].log && nodes[i].commit >= |log|
  {
    var w := Exec(n, xs);
    AllAfterStarts(n, xs, l, w);
    var P := (v: World, j: nat) => AllAfter(w, l, v, j);
    forall v, j: nat | P(v, j) ensures P(Round(v, l), j + 1) {
      AllAfterNext(w, l, v, j, Round(v, l));
    }
    EachRound(P, n, xs, l, k);
    var w' := Exec(n, xs + Times(l, k));
    assert P(w', k);
    forall i | 0 <= i < n ensures w.nodes[l].log <= w'.nodes[i].log {
      assert i != l ==> After(w, l, i, w', k);
    }
  }

  // ---------- A fresh cluster ----------

  lemma {:induction false} Campaigned(n: nat, i: nat)
    requires i < n
    ensures Exec(n, [Campaign(i)]).nodes == Init(n).nodes[i := AsCandidate(Blank(n), i)]
  {
    assert [Campaign(i)][..0] == [] && Exec(n, []) == Init(n);
  }

  lemma {:induction false} ElectedFresh(n: nat, i: nat, w: World)
    requires i < n && w == Exec(n, [Campaign(i), Poll(i)])
    ensures |w.nodes| == n && w.nodes[i].state == Leader && w.nodes[i].term == 1 && w.nodes[i].log == []
    ensures w.nodes[i].active && forall j :: 0 <= j < n && j != i ==> w.nodes[j].active && w.nodes[j].term <= 1
  {
    var xs := [Campaign(i), Poll(i)];
    assert xs[..1] == [Campaign(i)] && xs[..1][..0] == [];
    var nodes := Exec(n, [Campaign(i)]).nodes;
    Campaigned(n, i);
    assert w.nodes == Next(nodes, Poll(i));
    AllOthers(n, i, Supporters(nodes, i));
    PollExactly(nodes, i, w.nodes);
    PolledFresh(nodes, i, w.nodes);
  }

  lemma {:induction false} PolledFresh(nodes: seq<Node>, i: nat, nodes': seq<Node>)
    requires Shaped(nodes) && i < |nodes| && nodes[i].state == Candidate && nodes' == Polled(nodes, i)
    ensures |nodes'| == |nodes| && nodes'[i].log == nodes[i].log && nodes'[i].active == nodes[i].active
    ensures forall j :: 0 <= j < |nodes| && j != i ==>
              nodes'[j].active == nodes[j].active && nodes'[j].term <= Max(nodes[j].term, nodes[i].term)
  {
    var asked := AskFirst(nodes, i, |nodes|);
    RaftVotes.AskFirstEffect(nodes, i, |nodes|, asked);
    forall j | 0 <= j < |nodes| && j != i
      ensures nodes'[j].active == nodes[j].active && nodes'[j].term <= Max(nodes[j].term, nodes[i].term)
    {
      assert asked[j] == RaftVotes.Answer(nodes, i, j, |nodes|);
    }
  }

  // A command at a leader stays first in its log, and nobody goes beyond its term.
  lemma {:induction false} CommandSent(nodes: seq<Node>, l: nat, command: int, nodes': seq<Node>)
    requires Shaped(nodes) && l < |nodes| && nodes[l].state == Leader && nodes[l].active && |nodes[l].log| < MAX_LOG
    requires forall j :: 0 <= j < |nodes| && j != l ==> nodes[j].active && nodes[j].term <= nodes[l].term
    requires nodes' == Next(nodes, Command(l, command))
    ensures |nodes'| == |nodes| && nodes'[l].state == Leader && nodes'[l].term == nodes[l].term
    ensures nodes'[l].log == nodes[l].log + [Entry(nodes[l].term, command)]
    ensures nodes'[l].active && forall j :: 0 <= j < |nodes| && j != l ==> Following(nodes', l, j)
  {
    var x := nodes[l := Append(nodes[l], command)];
    var r := SendAppend(x, l, |x|);
    SendsEach(x, l, |x|, l, r);
    forall j | 0 <= j < |nodes| && j != l ensures r[j].active && r[j].term <= nodes[l].term {
      SendsEach(x, l, |x|, j, r);
      HandleKeeps(x[j], Request(x[l], j));
      HandleExactly(x[j], Request(x[l], j));
    }
    assert nodes' == r[l := r[l].(commit := CommitFrom(r, l, |r[l].log|))];
  }

  // A tick in which no timer of another node fires, and nobody else is candidate, is the
  // step of node i.
  lemma {:induction false} TurnOfOne(nodes: seq<Node>, fires: seq<bool>, i: nat, k: nat)
    requires Shaped(nodes) && |fires| == |nodes| && i < |nodes| && k <= |nodes|
    requires forall j :: 0 <= j < |nodes| && j != i ==> nodes[j].state == Follower && !fires[j]
    requires forall j :: i < j < |nodes| ==> Turn(nodes, i, fires[i])[j].state == Follower
    ensures Turns(nodes, fires, k) == if k <= i then nodes else Turn(nodes, i, fires[i])
  {
    if k > 0 {
      TurnOfOne(nodes, fires, i, k - 1);
    }
  }

  // In a fresh cluster whose other timers do not fire, a node leads after two ticks: it
  // campaigns in the first and counts the votes in the second.
  lemma {:induction false} TicksElect(n: nat, i: nat, first: seq<bool>, second: seq<bool>)
    requires i < n == |first| == |second| && first[i] && !second[i]
    requires forall j :: 0 <= j < n && j != i ==> !first[j] && !second[j]
    ensures var nodes := Turns(Turns(Init(n).nodes, first, n), second, n);
            nodes[i].state == Leader && nodes[i].term == 1
  {
    var xs := [Campaign(i), Poll(i)];
    var w := Exec(n, xs);
    assert xs[..1] == [Campaign(i)];
    var nodes := Exec(n, [Campaign(i)]).nodes;
    Campaigned(n, i);
    assert nodes == Next(Init(n).nodes, Campaign(i)) && w.nodes == Next(nodes, Poll(i));
    TurnOfOne(Init(n).nodes, first, i, n);
    PollFollowers(nodes, i);
    TurnOfOne(nodes, second, i, n);
    ElectedFresh(n, i, w);
  }

  lemma {:induction false} PollFollowers(nodes: seq<Node>, i: nat)
    requires Shaped(nodes) && i < |nodes| && nodes[i].state == Candidate && nodes[i].active
    requires forall j :: 0 <= j < |nodes| && j != i ==> nodes[j].state == Follower
    ensures forall j :: 0 <= j < |nodes| && j != i ==> Next(nodes, Poll(i))[j].state == Follower
  {
    var asked := AskFirst(nodes, i, |nodes|);
    RaftVotes.AskFirstEffect(nodes, i, |nodes|, asked);
    forall j | 0 <= j < |nodes| && j != i ensures Next(nodes, Poll(i))[j].state == Follower {
      assert asked[j] == RaftVotes.Answer(nodes, i, j, |nodes|);
    }
  }

  // A tick in which only the leader's timer fires is a round of replication.
  lemma {:induction false} TickReplicates(nodes: seq<Node>, l: nat, fires: seq<bool>)
    requires Shaped(nodes) && l < |nodes| == |fires| && nodes[l].state == Leader && fires[l]
    requires forall j :: 0 <= j < |nodes| && j != l ==> nodes[j].state == Follower && !fires[j]
    ensures Turns(nodes, fires, |nodes|) == Next(nodes, Replicate(l))
  {
    forall j | l < j < |nodes| ensures Next(nodes, Replicate(l))[j].state == Follower {
      if nodes[l].active {
        var b := SendHeartbeat(nodes, l, |nodes|);
        BeatsEach(nodes, l, |nodes|, j, b);
        SendsEach(b, l, |b|, j, SendAppend(b, l, |b|));
      }
    }
    TurnOfOne(nodes, fires, l, |nodes|);
  }

  lemma {:induction false} FreshIsFair(n: nat, i: nat, command: int)
    requires i < n
    ensures RaftVotes.Fair(n, [Campaign(i), Poll(i), Command(i, command)])
  {
    var xs := [Campaign(i), Poll(i), Command(i, command)];
    assert xs[..2] == [Campaign(i), Poll(i)] && xs[..2][..1] == [Campaign(i)] && xs[..1][..0] == [];
    assert RaftVotes.Fair(n, []);
    var nodes := Exec(n, [Campaign(i)]).nodes;
    Campaigned(n, i);
    assert RaftVotes.Fair(n, [Campaign(i)]);
    assert RaftVotes.FairPoll(nodes, RaftVotes.Cast(n, [Campaign(i)]), i);
    assert RaftVotes.Fair(n, [Campaign(i), Poll(i)]);
  }

  // From a fresh cluster of any size: whoever campaigns and polls leads, and a command
  // it takes is in the end committed at every node.
  lemma {:induction false} FreshClusterCommits(n: nat, i: nat, command: int) returns (steps: seq<Step>)
    requires i < n
    ensures var nodes := Exec(n, steps).nodes;
            && nodes[i].state == Leader && nodes[i].term == 1
            && forall j :: 0 <= j < n ==> [Entry(1, command)] <= nodes[j].log && nodes[j].commit >= 1
  {
    var xs, ys := [Campaign(i), Poll(i)], [Campaign(i), Poll(i), Command(i, command)];
    assert ys[..2] == xs;
    var w := Exec(n, xs);
    ElectedFresh(n, i, w);
    CommandSent(w.nodes, i, command, Exec(n, ys).nodes);
    FreshIsFair(n, i, command);
    var k := Enough(Exec(n, ys).nodes[i]) + 2;
    EverybodyCommits(n, ys, i, k);
    StillLeads(n, ys, i, k);
    steps := ys + Times(i, k);
  }

  lemma {:induction false} StillLeads(n: nat, xs: seq<Step>, l: nat, k: nat)
    requires RaftVotes.Fair(n, xs) && l < n && Exec(n, xs).nodes[l].state == Leader && Exec(n, xs).nodes[l].active
    ensures Exec(n, xs + Times(l, k)).nodes[l].state == Leader
    ensures Exec(n, xs + Times(l, k)).nodes[l].term == Exec(n, xs).nodes[l].term
  {
    var w := Exec(n, xs);
    RaftVotes.OneLeaderPerTerm(n, xs);
    ExecKeepsInv(n, xs);
    var P := (v: World, j: nat) => LeaderInv(v, l) && v.nodes[l].active && v.nodes[l].term == w.nodes[l].term;
    forall v, j: nat | P(v, j) ensures P(Round(v, l), j + 1) {
      LeaderRound(v, l, Round(v, l));
    }
    EachRound(P, n, xs, l, k);
    assert P(Exec(n, xs + Times(l, k)), k);
  }
}
