/**
 * What the commit index of the synchronous Raft cluster promises: over every fair
 * run a committed entry stays where it is, on every node that ever commits it and
 * in the log of every later leader.
 */
module RaftCommit {
  import opened RaftLog
  import RaftVotes
  import Quorum

  // ---------- The history of a run ----------

  // A node told the leader of a term that it holds that many of its entries.
  datatype Ack = Ack(node: nat, term: nat, count: nat)

  // The log of each term's leader, as long as it led; the acknowledgements; and
  // the nodes that elected each leader.
  datatype History = History(logs: map<nat, seq<Entry>>, acks: set<Ack>, voters: map<nat, set<nat>>)

  // Entry n of a leader's log is of its own term.
  ghost predicate Own(h: History, t: nat, n: nat) {
    t in h.logs && 0 < n <= |h.logs[t]| && h.logs[t][n - 1].term == t
  }

  // The log up to such an entry.
  ghost function UpTo(h: History, t: nat, n: nat): seq<Entry>
    requires Own(h, t, n)
  {
    h.logs[t][..n]
  }

  // A leader of a later term, up to the given one, does not hold those entries.
  ghost predicate Overruled(h: History, t: nat, n: nat, top: int)
    requires Own(h, t, n)
  {
    exists s :: s in h.logs && t < s <= top && !(UpTo(h, t, n) <= h.logs[s])
  }

  // A log holds the entries unless they were overruled.
  ghost predicate Kept(h: History, t: nat, n: nat, log: seq<Entry>, top: int)
    requires Own(h, t, n)
  {
    UpTo(h, t, n) <= log || Overruled(h, t, n, top)
  }

  ghost predicate AllKept(h: History, a: Ack, log: seq<Entry>, top: int) {
    forall n: nat :: n <= a.count && Own(h, a.term, n) ==> Kept(h, a.term, n, log, top)
  }

  ghost function Ackers(h: History, t: nat, n: nat): set<nat> {
    set a | a in h.acks && a.term == t && a.count >= n :: a.node
  }

  // A majority acknowledged entry n of the leader of term t, which is of that term.
  ghost predicate Chosen(h: History, size: nat, t: nat, n: nat) {
    Own(h, t, n) && |Ackers(h, t, n)| >= Quorum.Size(size)
  }

  // ---------- The inductive invariant ----------

  ghost predicate Sorted(log: seq<Entry>, top: nat) {
    forall i, j :: 0 <= i <= j < |log| ==> log[i].term <= log[j].term <= top
  }

  ghost predicate TermOk(w: World, h: History, t: nat) {
    t in h.logs ==> Sorted(h.logs[t], t) && HadLeader(w.leaders, t)
  }

  // Every entry came, with all before it, from the leader of its term.
  ghost predicate Rooted(h: History, log: seq<Entry>, top: nat) {
    forall i :: 0 <= i < |log| ==> RootedAt(h, log, top, i)
  }

  ghost predicate RootedAt(h: History, log: seq<Entry>, top: nat, i: nat)
    requires i < |log|
  {
    log[i].term in h.logs && log[i].term <= top && log[..i + 1] <= h.logs[log[i].term]
  }

  ghost predicate LeaderOk(h: History, nd: Node, l: nat) {
    nd.state == Leader ==>
      && nd.term in h.logs && h.logs[nd.term] == nd.log
      && (nd.log != [] && LastTerm(nd.log) == nd.term ==> Ack(l, nd.term, |nd.log|) in h.acks)
      && forall i :: 0 <= i < |nd.matched| && i != l && nd.matched[i] > 0 ==> Ack(i, nd.term, nd.matched[i]) in h.acks
  }

  ghost predicate AckOk(nodes: seq<Node>, h: History, a: Ack) {
    a in h.acks ==>
      && a.node < |nodes| && a.term in h.logs && a.count <= |h.logs[a.term]| && a.term <= nodes[a.node].term
      && AllKept(h, a, nodes[a.node].log, nodes[a.node].term)
  }

  // A leader's voters have reached its term, and it holds what they acknowledged
  // before unless that was overruled.
  ghost predicate VotersOk(nodes: seq<Node>, h: History, s: nat) {
    s in h.logs ==>
      && s in h.voters && Quorum.Members(|nodes|, h.voters[s]) && |h.voters[s]| >= Quorum.Size(|nodes|)
      && (forall j <- h.voters[s] :: nodes[j].term >= s)
      && forall a <- h.acks :: a.node in h.voters[s] && a.term < s ==> AllKept(h, a, h.logs[s], s - 1)
  }

  // What a node has committed was chosen in a term it has reached.
  ghost predicate Commits(h: History, nd: Node, t: nat, n: nat) {
    && t in h.logs && t <= nd.term && nd.commit <= n <= |h.logs[t]| && nd.commit <= |nd.log|
    && nd.log[..nd.commit] == h.logs[t][..nd.commit]
  }

  ghost predicate CommitOk(h: History, size: nat, nd: Node) {
    nd.commit > 0 ==> exists t, n :: Chosen(h, size, t, n) && Commits(h, nd, t, n)
  }

  ghost predicate NodeSafe(h: History, size: nat, nd: Node, j: nat) {
    Rooted(h, nd.log, nd.term) && LeaderOk(h, nd, j) && CommitOk(h, size, nd)
  }

  ghost predicate SafeAt(w: World, h: History, j: nat)
    requires j < |w.nodes|
  {
    NodeSafe(h, |w.nodes|, w.nodes[j], j)
  }

  ghost predicate Safe(w: World, h: History) {
    && (forall t :: TermOk(w, h, t))
    && (forall t :: VotersOk(w.nodes, h, t))
    && (forall a :: AckOk(w.nodes, h, a))
    && forall j :: 0 <= j < |w.nodes| ==> SafeAt(w, h, j)
  }

  // ---------- Chosen entries are inherited ----------

  // Leader completeness on histories: every later leader's log holds what was chosen.
  lemma {:induction false} ChosenInherited(w: World, h: History, t: nat, n: nat, s: nat)
    requires Safe(w, h) && Chosen(h, |w.nodes|, t, n) && s in h.logs && s >= t
    ensures UpTo(h, t, n) <= h.logs[s]
    decreases s
  {
    if s > t {
      assert VotersOk(w.nodes, h, s);
      var ackers := Ackers(h, t, n);
      forall j | j in ackers ensures j < |w.nodes| {
        var a :| a in h.acks && a.term == t && a.count >= n && a.node == j;
        assert AckOk(w.nodes, h, a);
      }
      Quorum.Intersection(|w.nodes|, ackers, h.voters[s]);
      var j :| j in ackers && j in h.voters[s];
      var a :| a in h.acks && a.term == t && a.count >= n && a.node == j;
      assert AllKept(h, a, h.logs[s], s - 1) && Kept(h, t, n, h.logs[s], s - 1);
      if Overruled(h, t, n, s - 1) {
        var s' :| s' in h.logs && t < s' <= s - 1 && !(UpTo(h, t, n) <= h.logs[s']);
        ChosenInherited(w, h, t, n, s');
      }
    }
  }

  // ---------- Steps that change no log ----------

  // A node keeps its log and commit index, does not go back in terms and leads on at most.
  ghost predicate Tame(a: Node, b: Node) {
    && b.log == a.log && b.commit == a.commit && b.term >= a.term
    && (b.state == Leader ==> a.state == Leader && b.term == a.term && b.matched == a.matched)
  }

  ghost predicate AllTame(nodes: seq<Node>, nodes': seq<Node>) {
    |nodes'| == |nodes| && forall j :: 0 <= j < |nodes| ==> Tame(nodes[j], nodes'[j])
  }

  lemma {:induction false} KeptLonger(h: History, a: Ack, log: seq<Entry>, top: int, top': int)
    requires AllKept(h, a, log, top) && top <= top'
    ensures AllKept(h, a, log, top')
  {
    forall n: nat | n <= a.count && Own(h, a.term, n) ensures Kept(h, a.term, n, log, top') {
      assert Kept(h, a.term, n, log, top);
    }
  }

  lemma {:induction false} TameNode(h: History, size: nat, nd: Node, nd': Node, j: nat)
    requires NodeSafe(h, size, nd, j) && Tame(nd, nd')
    ensures NodeSafe(h, size, nd', j)
  {
    forall i | 0 <= i < |nd'.log| ensures RootedAt(h, nd'.log, nd'.term, i) {
      assert RootedAt(h, nd.log, nd.term, i);
    }
    if nd.commit > 0 {
      var t, n :| Chosen(h, size, t, n) && Commits(h, nd, t, n);
      assert Commits(h, nd', t, n);
    }
  }

  lemma {:induction false} TameKeepsSafe(w: World, h: History, w': World)
    requires Safe(w, h) && AllTame(w.nodes, w'.nodes) && w.leaders <= w'.leaders
    ensures Safe(w', h)
  {
    forall t: nat ensures TermOk(w', h, t) && VotersOk(w'.nodes, h, t) {
      assert TermOk(w, h, t) && VotersOk(w.nodes, h, t);
    }
    forall a: Ack ensures AckOk(w'.nodes, h, a) {
      assert AckOk(w.nodes, h, a);
      if a in h.acks {
        assert Tame(w.nodes[a.node], w'.nodes[a.node]);
        KeptLonger(h, a, w.nodes[a.node].log, w.nodes[a.node].term, w'.nodes[a.node].term);
      }
    }
    forall j | 0 <= j < |w'.nodes| ensures SafeAt(w', h, j) {
      assert SafeAt(w, h, j);
      TameNode(h, |w.nodes|, w.nodes[j], w'.nodes[j], j);
    }
  }

  // ---------- Histories grow ----------

  ghost predicate Grows(h: History, h': History) {
    h.acks <= h'.acks && forall t :: Longer(h, h', t)
  }

  ghost predicate Longer(h: History, h': History, t: nat) {
    t in h.logs ==> t in h'.logs && h.logs[t] <= h'.logs[t]
  }

  lemma {:induction false} GrowsTwice(h: History, h1: History, h': History)
    requires Grows(h, h1) && Grows(h1, h')
    ensures Grows(h, h')
  {
    forall t: nat ensures Longer(h, h', t) {
      assert Longer(h, h1, t) && Longer(h1, h', t);
    }
  }

  lemma {:induction false} ChosenStays(h: History, h': History, size: nat, t: nat, n: nat)
    requires Grows(h, h') && Chosen(h, size, t, n)
    ensures Chosen(h', size, t, n) && UpTo(h', t, n) == UpTo(h, t, n)
  {
    var x, y := Ackers(h, t, n), Ackers(h', t, n);
    assert Longer(h, h', t);
    assert x <= y;
    assert |y| == |x| + |y - x|;
  }

  lemma {:induction false} CommitStays(h: History, h': History, size: nat, nd: Node)
    requires Grows(h, h') && CommitOk(h, size, nd)
    ensures CommitOk(h', size, nd)
  {
    if nd.commit > 0 {
      var t, n :| Chosen(h, size, t, n) && Commits(h, nd, t, n);
      ChosenStays(h, h', size, t, n);
      assert UpTo(h', t, n)[..nd.commit] == h'.logs[t][..nd.commit];
      assert UpTo(h, t, n)[..nd.commit] == h.logs[t][..nd.commit];
      assert Commits(h', nd, t, n);
    }
  }

  lemma {:induction false} RootedStays(h: History, h': History, log: seq<Entry>, top: nat)
    requires Grows(h, h') && Rooted(h, log, top)
    ensures Rooted(h', log, top)
  {
    forall i | 0 <= i < |log| ensures RootedAt(h', log, top, i) {
      assert RootedAt(h, log, top, i) && Longer(h, h', log[i].term);
    }
  }

  // ---------- What candidates may rely on ----------

  // Whatever was kept of an acknowledgement is still kept.
  ghost predicate StillKept(h: History, h': History, a: Ack) {
    a in h.acks ==> forall log, top :: AllKept(h, a, log, top) ==> AllKept(h', a, log, top)
  }

  // A candidate of a term without a leader was one before, with the same log.
  ghost predicate SameCandidate(w: World, w': World, h': History, i: nat) {
    i < |w.nodes| && i < |w'.nodes| && w'.nodes[i].state == Candidate && w'.nodes[i].term !in h'.logs ==>
      w.nodes[i].state == Candidate && w.nodes[i].term == w'.nodes[i].term && w.nodes[i].log == w'.nodes[i].log
  }

  // A new acknowledgement is not older than the term its node had reached.
  ghost predicate Timely(w: World, h: History, a: Ack) {
    a.node < |w.nodes| && (a in h.acks || a.term >= w.nodes[a.node].term)
  }

  // Steps that cast no vote: terms do not go back, candidates stay or go.
  ghost predicate Steady(w: World, h: History, w': World, h': History) {
    && |w'.nodes| == |w.nodes| && (forall j :: 0 <= j < |w.nodes| ==> Later(w, w', j))
    && (forall i :: SameCandidate(w, w', h', i))
    && (forall a :: StillKept(h, h', a))
    && forall a <- h'.acks :: Timely(w, h, a)
  }

  ghost predicate Later(w: World, w': World, j: nat)
    requires j < |w.nodes| == |w'.nodes|
  {
    w.nodes[j].term <= w'.nodes[j].term
  }

  ghost predicate Moves(w: World, h: History, w': World, h': History) { Grows(h, h') && Steady(w, h, w', h') }

  lemma {:induction false} MovesTwice(w: World, h: History, w1: World, h1: History, w': World, h': History)
    requires Moves(w, h, w1, h1) && Moves(w1, h1, w', h')
    ensures Moves(w, h, w', h')
  {
    GrowsTwice(h, h1, h');
    forall j | 0 <= j < |w.nodes| ensures Later(w, w', j) {
      assert Later(w, w1, j) && Later(w1, w', j);
    }
    forall i: nat ensures SameCandidate(w, w', h', i) {
      assert SameCandidate(w, w1, h1, i) && SameCandidate(w1, w', h', i);
      assert i < |w1.nodes| ==> Longer(h1, h', w1.nodes[i].term);
    }
    forall a: Ack ensures StillKept(h, h', a) {
      assert StillKept(h, h1, a) && StillKept(h1, h', a);
    }
    forall a | a in h'.acks ensures Timely(w, h, a) {
      assert Timely(w1, h1, a) && (a in h1.acks ==> Timely(w, h, a));
      assert Later(w, w1, a.node);
    }
  }

  // Nothing about the history changes, and the nodes settle.
  lemma {:induction false} SettledMoves(w: World, h: History, w': World)
    requires Safe(w, h) && |w'.nodes| == |w.nodes|
    requires forall j :: 0 <= j < |w.nodes| ==> Settles(w.nodes[j], w'.nodes[j], h)
    ensures Moves(w, h, w', h)
  {
    forall j | 0 <= j < |w.nodes| ensures Later(w, w', j) && SameCandidate(w, w', h, j) {
      assert Settles(w.nodes[j], w'.nodes[j], h);
    }
    forall a | a in h.acks ensures Timely(w, h, a) {
      assert AckOk(w.nodes, h, a);
    }
  }

  ghost predicate Settles(nd: Node, nd': Node, h: History) {
    && nd.term <= nd'.term
    && (nd'.state == Candidate && nd'.term !in h.logs ==>
          nd.state == Candidate && nd.term == nd'.term && nd.log == nd'.log)
  }

  // ---------- A request arrives ----------

  // Storing a stretch of the leader's log keeps whatever both logs start with.
  lemma {:induction false} StoreKeepsCommon(log: seq<Entry>, leader: seq<Entry>, prev: nat, entries: seq<Entry>, k: nat,
                                            p: seq<Entry>)
    requires k <= |entries| && prev + |entries| <= |leader| && entries == leader[prev..prev + |entries|]
    requires p <= log && p <= leader
    ensures p <= StoreAll(log, prev, entries, k)
  {
    if k > 0 {
      StoreKeepsCommon(log, leader, prev, entries, k - 1, p);
      assert entries[k - 1] == leader[prev + k - 1];
    }
  }

  // The requests a leader sends to node i.
  ghost predicate Sends(leader: Node, i: nat, rpc: Rpc) {
    && i < |leader.next| && 1 <= leader.next[i] <= |leader.log| + 1
    && (rpc == Request(leader, i) || rpc == Request(leader, i).(entries := []))
  }

  // A request carries a stretch of the leader's log.
  lemma {:induction false} SentStretch(leader: Node, i: nat, rpc: Rpc)
    requires Sends(leader, i, rpc)
    ensures var prev, m := rpc.prevIndex, rpc.prevIndex + |rpc.entries|;
            && m <= |leader.log| && rpc.entries == leader.log[prev..m] && rpc.prevTerm == PrevTerm(leader.log, prev)
            && rpc.term == leader.term && rpc.leaderCommit == leader.commit
  {
  }

  lemma {:induction false} StoredStretch(log: seq<Entry>, leader: seq<Entry>, prev: nat, entries: seq<Entry>,
                                         r: seq<Entry>)
    requires Match(log, leader) && prev + |entries| <= |leader| <= MAX_LOG && LogOk(log, prev, PrevTerm(leader, prev))
    requires entries == leader[prev..prev + |entries|] && r == StoreAll(log, prev, entries, |entries|)
    ensures (r == log || r <= leader) && Agree(r, leader, prev + |entries|)
  {
    assert prev > 0 ==> MatchAt(log, leader, prev - 1) && log[..prev - 1 + 1] == leader[..prev - 1 + 1];
    assert log[..prev] == leader[..prev];
    StoreAllEffect(log, leader, prev, entries, |entries|);
  }

  lemma {:induction false} StoredCommon(log: seq<Entry>, leader: seq<Entry>, prev: nat, entries: seq<Entry>,
                                        r: seq<Entry>)
    requires prev + |entries| <= |leader| && entries == leader[prev..prev + |entries|]
    requires r == StoreAll(log, prev, entries, |entries|)
    ensures forall p :: StartsBoth(p, log, leader) ==> p <= r
  {
    forall p | StartsBoth(p, log, leader) ensures p <= r {
      StoreKeepsCommon(log, leader, prev, entries, |entries|, p);
    }
  }

  ghost predicate StartsBoth(p: seq<Entry>, x: seq<Entry>, y: seq<Entry>) { p <= x && p <= y }

  // What handling a request does to a node.
  ghost predicate Received(nd: Node, leader: Node, nd': Node) {
    && nd.term <= leader.term == nd'.term
    && Stored(nd.log, leader.log, nd'.log)
    && (nd'.state == Leader ==> nd.state == Leader && nd.term == leader.term)
    && nd.commit <= nd'.commit
    && (nd.commit < nd'.commit ==> Takes(nd', leader))
  }

  ghost predicate Takes(nd: Node, leader: Node) {
    nd.commit <= leader.commit && Agree(nd.log, leader.log, nd.commit)
  }

  lemma {:induction false} HandleRefuses(nd: Node, leader: Node, rpc: Rpc, nd': Node)
    requires rpc.term == leader.term && (nd', false) == Handle(nd, rpc)
    ensures nd' == nd || Received(nd, leader, nd')
  {
  }

  lemma {:induction false} HandleAccepts(nd: Node, rpc: Rpc, nd': Node)
    requires (nd', true) == Handle(nd, rpc)
    ensures nd.term <= rpc.term == nd'.term && LogOk(nd.log, rpc.prevIndex, rpc.prevTerm)
    ensures nd'.log == StoreAll(nd.log, rpc.prevIndex, rpc.entries, |rpc.entries|)
    ensures nd'.state == Leader ==> nd.state == Leader && nd.term == rpc.term
    ensures nd'.commit == Advance(nd.commit, rpc.leaderCommit, rpc.prevIndex + |rpc.entries|)
  {
  }

  // The first m entries of two logs are the same.
  ghost predicate Agree(x: seq<Entry>, y: seq<Entry>, m: nat) { m <= |x| && m <= |y| && x[..m] == y[..m] }

  lemma {:induction false} AgreeLess(x: seq<Entry>, y: seq<Entry>, m: nat, c: nat)
    requires Agree(x, y, m) && c <= m
    ensures Agree(x, y, c)
  {
    assert x[..c] == x[..m][..c] && y[..c] == y[..m][..c];
  }

  lemma {:induction false} AcceptReceives(nd: Node, leader: Node, i: nat, rpc: Rpc, nd': Node)
    requires Match(nd.log, leader.log) && |leader.log| <= MAX_LOG && Sends(leader, i, rpc)
    requires (nd', true) == Handle(nd, rpc)
    ensures Received(nd, leader, nd') && Agree(nd'.log, leader.log, rpc.prevIndex + |rpc.entries|)
  {
    SentStretch(leader, i, rpc);
    HandleAccepts(nd, rpc, nd');
    AcceptedReceives(nd, leader, rpc.prevIndex, rpc.entries, nd');
  }

  lemma {:induction false} AcceptedReceives(nd: Node, leader: Node, prev: nat, entries: seq<Entry>, nd': Node)
    requires Match(nd.log, leader.log) && prev + |entries| <= |leader.log| <= MAX_LOG
    requires LogOk(nd.log, prev, PrevTerm(leader.log, prev)) && entries == leader.log[prev..prev + |entries|]
    requires nd'.log == StoreAll(nd.log, prev, entries, |entries|) && nd.term <= leader.term == nd'.term
    requires nd'.state == Leader ==> nd.state == Leader && nd.term == leader.term
    requires nd'.commit == Advance(nd.commit, leader.commit, prev + |entries|)
    ensures Received(nd, leader, nd') && Agree(nd'.log, leader.log, prev + |entries|)
  {
    StoredLog(nd.log, leader.log, prev, entries, nd'.log);
    StoredReceives(nd, leader, prev + |entries|, nd');
  }

  lemma {:induction false} StoredLog(log: seq<Entry>, leader: seq<Entry>, prev: nat, entries: seq<Entry>, r: seq<Entry>)
    requires Match(log, leader) && prev + |entries| <= |leader| <= MAX_LOG && LogOk(log, prev, PrevTerm(leader, prev))
    requires entries == leader[prev..prev + |entries|] && r == StoreAll(log, prev, entries, |entries|)
    ensures Stored(log, leader, r) && Agree(r, leader, prev + |entries|)
  {
    StoredStretch(log, leader, prev, entries, r);
    StoredCommon(log, leader, prev, entries, r);
  }

  // A log stays or becomes a part of the leader's, and keeps what they both start with.
  ghost predicate Stored(log: seq<Entry>, leader: seq<Entry>, r: seq<Entry>) {
    (r == log || r <= leader) && forall p :: StartsBoth(p, log, leader) ==> p <= r
  }

  lemma {:induction false} StoredReceives(nd: Node, leader: Node, m: nat, nd': Node)
    requires nd.term <= leader.term == nd'.term && Stored(nd.log, leader.log, nd'.log)
    requires nd'.state == Leader ==> nd.state == Leader && nd.term == leader.term
    requires nd'.commit == Advance(nd.commit, leader.commit, m) && Agree(nd'.log, leader.log, m)
    ensures Received(nd, leader, nd')
  {
    if nd'.commit > nd.commit {
      AgreeLess(nd'.log, leader.log, m, nd'.commit);
    }
  }

  lemma {:induction false} HandleReceives(nd: Node, leader: Node, i: nat, rpc: Rpc, nd': Node)
    requires Match(nd.log, leader.log) && |leader.log| <= MAX_LOG && Sends(leader, i, rpc)
    requires nd' == Handle(nd, rpc).0
    ensures nd' == nd || Received(nd, leader, nd')
  {
    if Handle(nd, rpc).1 {
      AcceptReceives(nd, leader, i, rpc, nd');
    } else {
      HandleRefuses(nd, leader, rpc, nd');
    }
  }

  // Node i of w becomes nd' on a request of leader l.
  ghost predicate Receives(w: World, h: History, l: nat, i: nat, nd': Node) {
    && Safe(w, h) && l < |w.nodes| && i < |w.nodes| && w.nodes[l].state == Leader && nd'.state != Leader
    && Received(w.nodes[i], w.nodes[l], nd')
  }

  lemma {:induction false} ReceivedAck(w: World, h: History, l: nat, i: nat, nd': Node, a: Ack)
    requires Receives(w, h, l, i, nd') && a in h.acks && a.node == i
    ensures AckOk(w.nodes[i := nd'], h, a)
  {
    var nd, leader := w.nodes[i], w.nodes[l];
    assert AckOk(w.nodes, h, a) && SafeAt(w, h, l);
    forall n: nat | n <= a.count && Own(h, a.term, n) ensures Kept(h, a.term, n, nd'.log, nd'.term) {
      assert Kept(h, a.term, n, nd.log, nd.term);
      ReceivedKept(h, a.term, n, nd, leader, nd');
    }
  }

  // Entries that the node held are still there, or the leader overrules them.
  lemma {:induction false} ReceivedKept(h: History, t: nat, n: nat, nd: Node, leader: Node, nd': Node)
    requires Own(h, t, n) && Kept(h, t, n, nd.log, nd.term) && t <= nd.term && Received(nd, leader, nd')
    requires leader.term in h.logs && h.logs[leader.term] == leader.log
    ensures Kept(h, t, n, nd'.log, nd'.term)
  {
    var p := UpTo(h, t, n);
    if p <= nd.log && p <= leader.log {
      assert StartsBoth(p, nd.log, leader.log);
    } else if p <= nd.log {
      assert Overruled(h, t, n, nd'.term);
    }
  }

  lemma {:induction false} RootedPrefix(h: History, x: seq<Entry>, y: seq<Entry>, top: nat, top': nat)
    requires Rooted(h, y, top) && x <= y && top <= top'
    ensures Rooted(h, x, top')
  {
    forall i | 0 <= i < |x| ensures RootedAt(h, x, top', i) {
      assert RootedAt(h, y, top, i) && x[..i + 1] == y[..i + 1];
    }
  }

  // New committed entries come from the leader.
  lemma {:induction false} TakenCommit(h: History, size: nat, leader: Node, nd': Node)
    requires CommitOk(h, size, leader) && leader.term == nd'.term && 0 < nd'.commit && Takes(nd', leader)
    ensures CommitOk(h, size, nd')
  {
    var t, n :| Chosen(h, size, t, n) && Commits(h, leader, t, n);
    AgreeLess(leader.log, h.logs[t], leader.commit, nd'.commit);
    assert Commits(h, nd', t, n);
  }

  // What a node has committed is in the log of a leader of its term or a later one.
  lemma {:induction false} CommitInherited(w: World, h: History, nd: Node, s: nat) returns (t: nat, n: nat)
    requires Safe(w, h) && CommitOk(h, |w.nodes|, nd) && nd.commit > 0 && s in h.logs && s >= nd.term
    ensures Chosen(h, |w.nodes|, t, n) && Commits(h, nd, t, n) && nd.log[..nd.commit] <= h.logs[s]
  {
    t, n :| Chosen(h, |w.nodes|, t, n) && Commits(h, nd, t, n);
    ChosenInherited(w, h, t, n, s);
    assert nd.log[..nd.commit] == UpTo(h, t, n)[..nd.commit];
  }

  lemma {:induction false} ReceivedCommit(w: World, h: History, l: nat, i: nat, nd': Node)
    requires Receives(w, h, l, i, nd')
    ensures CommitOk(h, |w.nodes|, nd')
  {
    var nd, leader := w.nodes[i], w.nodes[l];
    assert SafeAt(w, h, i) && SafeAt(w, h, l);
    if nd'.commit > nd.commit {
      TakenCommit(h, |w.nodes|, leader, nd');
    } else if nd.commit > 0 {
      var t, n := CommitInherited(w, h, nd, leader.term);
      assert StartsBoth(nd.log[..nd.commit], nd.log, leader.log);
      assert nd'.log[..nd.commit] == nd.log[..nd.commit];
      assert Commits(h, nd', t, n);
    }
  }

  lemma {:induction false} ReceivedNode(w: World, h: History, l: nat, i: nat, nd': Node)
    requires Receives(w, h, l, i, nd')
    ensures NodeSafe(h, |w.nodes|, nd', i)
  {
    var nd, leader := w.nodes[i], w.nodes[l];
    assert SafeAt(w, h, i) && SafeAt(w, h, l);
    if nd'.log == nd.log {
      RootedPrefix(h, nd'.log, nd.log, nd.term, nd'.term);
    } else {
      RootedPrefix(h, nd'.log, leader.log, leader.term, nd'.term);
    }
    ReceivedCommit(w, h, l, i, nd');
  }

  lemma {:induction false} ReceivedKeepsSafe(w: World, h: History, l: nat, i: nat, nd': Node, w': World)
    requires Receives(w, h, l, i, nd') && w' == World(w.nodes[i := nd'], w.leaders)
    ensures Safe(w', h) && Moves(w, h, w', h)
  {
    assert SafeAt(w, h, l);
    SettledMoves(w, h, w');
    forall t: nat ensures TermOk(w', h, t) && VotersOk(w'.nodes, h, t) {
      assert TermOk(w, h, t) && VotersOk(w.nodes, h, t);
    }
    forall a: Ack ensures AckOk(w'.nodes, h, a) {
      assert AckOk(w.nodes, h, a);
      if a in h.acks && a.node == i {
        ReceivedAck(w, h, l, i, nd', a);
      }
    }
    forall j | 0 <= j < |w'.nodes| ensures SafeAt(w', h, j) {
      assert SafeAt(w, h, j);
      if j == i {
        ReceivedNode(w, h, l, i, nd');
      }
    }
  }

  // The receiver of a request does not lead the sender's term.
  lemma {:induction false} ReceiveKeepsSafe(w: World, h: History, l: nat, i: nat, rpc: Rpc, nd': Node, w': World)
    requires LeaderInv(w, l) && Safe(w, h) && i < |w.nodes| && i != l
    requires rpc == Request(w.nodes[l], i) || rpc == Request(w.nodes[l], i).(entries := [])
    requires nd' == Handle(w.nodes[i], rpc).0 && w' == World(w.nodes[i := nd'], w.leaders)
    ensures Safe(w', h) && Moves(w, h, w', h)
  {
    var nd, leader := w.nodes[i], w.nodes[l];
    assert NodeOk(w, l) && NodeOk(w, i) && Match(nd.log, leader.log);
    HandleReceives(nd, leader, i, rpc, nd');
    if nd' == nd {
      assert w'.nodes == w.nodes;
      SettledMoves(w, h, w');
    } else {
      assert !(nd.state == Leader && nd.term == leader.term);  // that term would have two leaders
      ReceivedKeepsSafe(w, h, l, i, nd', w');
    }
  }

  // ---------- An acknowledgement ----------

  // Node i, at term t, holds the first m entries of that term's leader and says so.
  lemma {:induction false} AckKeepsSafe(w: World, h: History, a: Ack, h': History)
    requires Safe(w, h) && a.node < |w.nodes| && a.term in h.logs && a.count <= |h.logs[a.term]|
    requires w.nodes[a.node].term == a.term && h.logs[a.term][..a.count] <= w.nodes[a.node].log
    requires h' == h.(acks := h.acks + {a})
    ensures Safe(w, h') && Moves(w, h, w, h')
  {
    AckMoves(w, h, a, h');
    forall t: nat ensures TermOk(w, h', t) && VotersOk(w.nodes, h', t) {
      AckVoters(w, h, a, h', t);
    }
    forall x: Ack ensures AckOk(w.nodes, h', x) {
      assert AckOk(w.nodes, h, x);
      if x in h.acks {
        SameKept(h, h', x, w.nodes[x.node].log, w.nodes[x.node].term);
      }
    }
    forall j | 0 <= j < |w.nodes| ensures SafeAt(w, h', j) {
      assert SafeAt(w, h, j);
      RootedStays(h, h', w.nodes[j].log, w.nodes[j].term);
      CommitStays(h, h', |w.nodes|, w.nodes[j]);
    }
  }

  lemma {:induction false} AckMoves(w: World, h: History, a: Ack, h': History)
    requires Safe(w, h) && a.node < |w.nodes| && w.nodes[a.node].term == a.term && h' == h.(acks := h.acks + {a})
    ensures Moves(w, h, w, h')
  {
    forall t: nat ensures Longer(h, h', t) {
    }
    forall x: Ack ensures StillKept(h, h', x) {
      assert AckOk(w.nodes, h, x);
      forall log, top | x in h.acks && AllKept(h, x, log, top) ensures AllKept(h', x, log, top) {
        SameKept(h, h', x, log, top);
      }
    }
    forall x | x in h'.acks ensures Timely(w, h, x) {
      assert AckOk(w.nodes, h, x);
    }
  }

  lemma {:induction false} AckVoters(w: World, h: History, a: Ack, h': History, t: nat)
    requires Safe(w, h) && a.node < |w.nodes| && a.term in h.logs && w.nodes[a.node].term == a.term
    requires h' == h.(acks := h.acks + {a})
    ensures TermOk(w, h', t) && VotersOk(w.nodes, h', t)
  {
    assert TermOk(w, h, t) && VotersOk(w.nodes, h, t);
    if t in h.logs {
      forall x | x in h'.acks && x.node in h'.voters[t] && x.term < t ensures AllKept(h', x, h'.logs[t], t - 1) {
        assert AckOk(w.nodes, h, x);
        SameKept(h, h', x, h.logs[t], t - 1);
      }
    }
  }

  ghost predicate Extends(h: History, h': History) {
    forall t <- h.logs :: t in h'.logs && h'.logs[t] == h.logs[t]
  }

  lemma {:induction false} SameKept(h: History, h': History, a: Ack, log: seq<Entry>, top: int)
    requires AllKept(h, a, log, top) && Extends(h, h') && a.term in h.logs
    ensures AllKept(h', a, log, top)
  {
    forall n: nat | n <= a.count && Own(h', a.term, n) ensures Kept(h', a.term, n, log, top) {
      assert Own(h, a.term, n) && Kept(h, a.term, n, log, top);
      assert UpTo(h', a.term, n) == UpTo(h, a.term, n);
    }
  }

  // ---------- Replication ----------

  // One node changes, but not its role, its log or its term.
  lemma {:induction false} ChangeKeepsSafe(w: World, h: History, j: nat, nd: Node, w': World)
    requires Safe(w, h) && j < |w.nodes| && w' == World(w.nodes[j := nd], w.leaders)
    requires nd.log == w.nodes[j].log && nd.term == w.nodes[j].term && nd.state == w.nodes[j].state
    requires NodeSafe(h, |w.nodes|, nd, j)
    ensures Safe(w', h) && Moves(w, h, w', h)
  {
    SettledMoves(w, h, w');
    forall t: nat ensures TermOk(w', h, t) && VotersOk(w'.nodes, h, t) {
      assert TermOk(w, h, t) && VotersOk(w.nodes, h, t);
    }
    forall a: Ack ensures AckOk(w'.nodes, h, a) {
      assert AckOk(w.nodes, h, a);
    }
    forall k | 0 <= k < |w'.nodes| ensures SafeAt(w', h, k) {
      assert SafeAt(w, h, k);
    }
  }

  lemma {:induction false} SameCommit(h: History, size: nat, nd: Node, nd': Node)
    requires CommitOk(h, size, nd) && nd'.log == nd.log && nd'.term == nd.term && nd'.commit == nd.commit
    ensures CommitOk(h, size, nd')
  {
    if nd.commit > 0 {
      var t, n :| Chosen(h, size, t, n) && Commits(h, nd, t, n);
      assert Commits(h, nd', t, n);
    }
  }

  lemma {:induction false} RecordKeepsSafe(w: World, h: History, l: nat, i: nat, k: nat, ok: bool, nd: Node, w': World)
    requires Safe(w, h) && l < |w.nodes| && i < |w.nodes| && i != l && w.nodes[l].state == Leader && Shaped(w.nodes)
    requires nd == Record(w.nodes[l], i, k, ok) && w' == World(w.nodes[l := nd], w.leaders)
    requires ok ==> Ack(i, nd.term, w.nodes[l].next[i] + k - 1) in h.acks
    ensures Safe(w', h) && Moves(w, h, w', h)
  {
    assert SafeAt(w, h, l);
    SameCommit(h, |w.nodes|, w.nodes[l], nd);
    ChangeKeepsSafe(w, h, l, nd, w');
  }

  // Leader l sends to node i, which acknowledges what it then holds.
  lemma {:induction false} SendToKeepsSafe(w: World, h: History, l: nat, i: nat, w': World) returns (h': History)
    requires LeaderInv(w, l) && Safe(w, h) && i < |w.nodes| && w' == World(SendTo(w.nodes, l, i), w.leaders)
    ensures LeaderInv(w', l) && |w'.nodes| == |w.nodes| && Safe(w', h') && Moves(w, h, w', h')
  {
    SendStep(w, l, i, w');
    h' := h;
    if i == l || !w.nodes[i].active {
      SettledMoves(w, h, w');
    } else {
      var rpc := Request(w.nodes[l], i);
      var (nd, ok) := Handle(w.nodes[i], rpc);
      h' := SentKeepsSafe(w, h, l, i, rpc, nd, ok, w');
    }
  }

  lemma {:induction false} SentKeepsSafe(w: World, h: History, l: nat, i: nat, rpc: Rpc, nd: Node, ok: bool, w': World)
    returns (h': History)
    requires LeaderInv(w, l) && Safe(w, h) && i < |w.nodes| && i != l && rpc == Request(w.nodes[l], i)
    requires (nd, ok) == Handle(w.nodes[i], rpc)
    requires w' == World(w.nodes[i := nd][l := Record(w.nodes[l], i, |rpc.entries|, ok)], w.leaders)
    ensures Safe(w', h') && Moves(w, h, w', h')
  {
    var mid := World(w.nodes[i := nd], w.leaders);
    ReceiveKeepsSafe(w, h, l, i, rpc, nd, mid);
    h' := h;
    if ok {
      assert NodeOk(w, l) && Match(w.nodes[i].log, w.nodes[l].log);
      h' := AckAccepted(w.nodes[i], mid, h, l, i, rpc);
      MovesTwice(w, h, mid, h, mid, h');
    }
    RecordKeepsSafe(mid, h', l, i, |rpc.entries|, ok, w'.nodes[l], w');
    MovesTwice(w, h, mid, h', w', h');
  }

  lemma {:induction false} AckAccepted(nd: Node, w: World, h: History, l: nat, i: nat, rpc: Rpc) returns (h': History)
    requires Safe(w, h) && l < |w.nodes| && i < |w.nodes| && w.nodes[l].state == Leader
    requires Match(nd.log, w.nodes[l].log) && |w.nodes[l].log| <= MAX_LOG && Sends(w.nodes[l], i, rpc)
    requires (w.nodes[i], true) == Handle(nd, rpc)
    ensures Safe(w, h') && Moves(w, h, w, h') && Ack(i, w.nodes[l].term, rpc.prevIndex + |rpc.entries|) in h'.acks
  {
    AcceptReceives(nd, w.nodes[l], i, rpc, w.nodes[i]);
    h' := AckSent(w, h, l, i, rpc.prevIndex + |rpc.entries|);
  }

  lemma {:induction false} AckSent(w: World, h: History, l: nat, i: nat, m: nat) returns (h': History)
    requires Safe(w, h) && l < |w.nodes| && i < |w.nodes| && w.nodes[l].state == Leader
    requires w.nodes[i].term == w.nodes[l].term && Agree(w.nodes[i].log, w.nodes[l].log, m)
    ensures Safe(w, h') && Moves(w, h, w, h') && Ack(i, w.nodes[l].term, m) in h'.acks
  {
    assert SafeAt(w, h, l);
    var a := Ack(i, w.nodes[l].term, m);
    h' := h.(acks := h.acks + {a});
    AckKeepsSafe(w, h, a, h');
  }

  // What every single send keeps, a whole round keeps.
  lemma {:induction false} EachSend(P: seq<Node> -> bool, nodes: seq<Node>, l: nat, k: nat)
    requires Shaped(nodes) && l < |nodes| && k <= |nodes| && P(nodes)
    requires forall x, i: nat :: Shaped(x) && |x| == |nodes| && i < |x| && P(x) ==> P(SendTo(x, l, i))
    ensures P(SendAppend(nodes, l, k))
  {
    if k > 0 {
      EachSend(P, nodes, l, k - 1);
    }
  }

  lemma {:induction false} EachBeat(P: seq<Node> -> bool, nodes: seq<Node>, l: nat, k: nat)
    requires Shaped(nodes) && l < |nodes| && k <= |nodes| && P(nodes)
    requires forall x, i: nat :: Shaped(x) && |x| == |nodes| && i < |x| && P(x) ==> P(Beat(x, l, i))
    ensures P(SendHeartbeat(nodes, l, k))
  {
    if k > 0 {
      EachBeat(P, nodes, l, k - 1);
    }
  }

  // Leader l is in order, with a history that continues the given one.
  ghost predicate Continues(w: World, h: History, l: nat, nodes: seq<Node>) {
    var w' := World(nodes, w.leaders);
    LeaderInv(w', l) && exists h' :: Safe(w', h') && Moves(w, h, w', h')
  }

  lemma {:induction false} SendContinues(w: World, h: History, l: nat, x: seq<Node>, i: nat)
    requires Shaped(x) && l < |x| && i < |x| && Continues(w, h, l, x)
    ensures Continues(w, h, l, SendTo(x, l, i))
  {
    var w1, w2 := World(x, w.leaders), World(SendTo(x, l, i), w.leaders);
    var h1 :| Safe(w1, h1) && Moves(w, h, w1, h1);
    var h2 := SendToKeepsSafe(w1, h1, l, i, w2);
    MovesTwice(w, h, w1, h1, w2, h2);
  }

  lemma {:induction false} SendAppendKeepsSafe(w: World, h: History, l: nat, w': World) returns (h': History)
    requires LeaderInv(w, l) && Safe(w, h) && w' == World(SendAppend(w.nodes, l, |w.nodes|), w.leaders)
    ensures LeaderInv(w', l) && Safe(w', h') && Moves(w, h, w', h')
  {
    var P := (x: seq<Node>) => Continues(w, h, l, x);
    SettledMoves(w, h, w);
    assert w == World(w.nodes, w.leaders) && P(w.nodes);
    forall x, i: nat | Shaped(x) && |x| == |w.nodes| && i < |x| && P(x) ensures P(SendTo(x, l, i)) {
      SendContinues(w, h, l, x, i);
    }
    EachSend(P, w.nodes, l, |w.nodes|);
    assert P(w'.nodes);
    h' :| Safe(World(w'.nodes, w.leaders), h') && Moves(w, h, World(w'.nodes, w.leaders), h');
  }

  lemma {:induction false} BeatKeepsSafe(w: World, h: History, l: nat, i: nat, w': World)
    requires LeaderInv(w, l) && Safe(w, h) && i < |w.nodes| && w' == World(Beat(w.nodes, l, i), w.leaders)
    ensures LeaderInv(w', l) && |w'.nodes| == |w.nodes| && Safe(w', h) && Moves(w, h, w', h)
  {
    BeatStep(w, l, i, w');
    if i == l || !w.nodes[i].active {
      SettledMoves(w, h, w');
    } else {
      assert NodeOk(w, l);
      ReceiveKeepsSafe(w, h, l, i, Request(w.nodes[l], i).(entries := []), w'.nodes[i], w');
    }
  }

  // Leader l is in order, with the same history.
  ghost predicate Idles(w: World, h: History, l: nat, nodes: seq<Node>) {
    var w' := World(nodes, w.leaders);
    LeaderInv(w', l) && Safe(w', h) && Moves(w, h, w', h)
  }

  lemma {:induction false} BeatIdles(w: World, h: History, l: nat, x: seq<Node>, i: nat)
    requires Shaped(x) && l < |x| && i < |x| && Idles(w, h, l, x)
    ensures Idles(w, h, l, Beat(x, l, i))
  {
    var w1, w2 := World(x, w.leaders), World(Beat(x, l, i), w.leaders);
    BeatKeepsSafe(w1, h, l, i, w2);
    MovesTwice(w, h, w1, h, w2, h);
  }

  lemma {:induction false} HeartbeatKeepsSafe(w: World, h: History, l: nat, w': World)
    requires LeaderInv(w, l) && Safe(w, h) && w' == World(SendHeartbeat(w.nodes, l, |w.nodes|), w.leaders)
    ensures LeaderInv(w', l) && Safe(w', h) && Moves(w, h, w', h)
  {
    var P := (x: seq<Node>) => Idles(w, h, l, x);
    SettledMoves(w, h, w);
    assert w == World(w.nodes, w.leaders) && P(w.nodes);
    forall x, i: nat | Shaped(x) && |x| == |w.nodes| && i < |x| && P(x) ensures P(Beat(x, l, i)) {
      BeatIdles(w, h, l, x, i);
    }
    EachBeat(P, w.nodes, l, |w.nodes|);
    assert P(w'.nodes);
  }

  // ---------- The commit index ----------

  // What a majority matches is chosen.
  lemma {:induction false} MatchedIsChosen(w: World, h: History, l: nat, c: nat)
    requires Safe(w, h) && Shaped(w.nodes) && l < |w.nodes| && w.nodes[l].state == Leader && Committable(w.nodes, l, c)
    ensures Chosen(h, |w.nodes|, w.nodes[l].term, c)
  {
    var nd, ackers := w.nodes[l], Ackers(h, w.nodes[l].term, c);
    var matching := HoldersOf(w.nodes, l, c, |w.nodes|);
    assert SafeAt(w, h, l) && TermOk(w, h, nd.term);
    assert l in ackers by {
      assert Ack(l, nd.term, |nd.log|) in h.acks;
    }
    forall j | j in matching ensures j in ackers {
      assert Ack(j, nd.term, nd.matched[j]) in h.acks;
    }
    assert matching + {l} <= ackers && |matching + {l}| == |matching| + 1;
    assert |ackers| == |matching + {l}| + |ackers - (matching + {l})|;
  }

  lemma {:induction false} CommitKeepsSafe(w: World, h: History, l: nat, c: nat, w': World)
    requires LeaderInv(w, l) && Safe(w, h) && c == CommitFrom(w.nodes, l, |w.nodes[l].log|)
    requires w' == World(w.nodes[l := w.nodes[l].(commit := c)], w.leaders)
    ensures Safe(w', h) && Moves(w, h, w', h)
  {
    var nd, nd' := w.nodes[l], w'.nodes[l];
    CommitExactly(w.nodes, l, |nd.log|);
    assert SafeAt(w, h, l);
    if c == nd.commit {
      SameCommit(h, |w.nodes|, nd, nd');
    } else {
      MatchedIsChosen(w, h, l, c);
      assert Commits(h, nd', nd.term, c);
    }
    ChangeKeepsSafe(w, h, l, nd', w');
  }

  lemma {:induction false} ReplicatedKeepsSafe(w: World, h: History, l: nat, w': World) returns (h': History)
    requires LeaderInv(w, l) && Safe(w, h) && w' == World(Replicated(w.nodes, l), w.leaders)
    ensures Safe(w', h') && Moves(w, h, w', h')
  {
    var mid := World(SendAppend(w.nodes, l, |w.nodes|), w.leaders);
    h' := SendAppendKeepsSafe(w, h, l, mid);
    CommitKeepsSafe(mid, h', l, CommitFrom(mid.nodes, l, |mid.nodes[l].log|), w');
    MovesTwice(w, h, mid, h', w', h');
  }

  // ---------- A command ----------

  // The leader of term t adds an entry of its term.
  ghost predicate Appends(h: History, h': History, t: nat, e: Entry) {
    t in h.logs && e.term == t && h'.logs == h.logs[t := h.logs[t] + [e]]
  }

  // A log that lacks older entries still lacks them with a new entry.
  lemma {:induction false} StillLacks(p: seq<Entry>, log: seq<Entry>, t: nat, e: Entry)
    requires !(p <= log) && Sorted(p, t) && t < e.term
    ensures !(p <= log + [e])
  {
    assert |p| > 0 ==> p[|p| - 1].term <= t;
  }

  lemma {:induction false} GrownKept(w: World, h: History, h': History, s: nat, e: Entry, a: Ack, log: seq<Entry>,
                                     log': seq<Entry>, top: int)
    requires Safe(w, h) && Appends(h, h', s, e) && a in h.acks && AllKept(h, a, log, top) && log <= log'
    ensures AllKept(h', a, log', top)
  {
    assert AckOk(w.nodes, h, a) && TermOk(w, h, a.term);
    forall n: nat | n <= a.count && Own(h', a.term, n) ensures Kept(h', a.term, n, log', top) {
      assert Own(h, a.term, n) && Kept(h, a.term, n, log, top);
      var p := UpTo(h, a.term, n);
      assert UpTo(h', a.term, n) == p;
      if !(p <= log) {
        var r :| r in h.logs && a.term < r <= top && !(p <= h.logs[r]);
        if r == s {
          StillLacks(p, h.logs[s], a.term, e);
        }
        assert r in h'.logs && !(p <= h'.logs[r]);
      }
    }
  }

  lemma {:induction false} AppendKeepsSafe(w: World, h: History, l: nat, command: int, w': World) returns (h': History)
    requires LeaderInv(w, l) && Safe(w, h)
    requires w' == World(w.nodes[l := Append(w.nodes[l], command)], w.leaders)
    ensures Safe(w', h') && Moves(w, h, w', h')
  {
    var nd, nd', e := w.nodes[l], w'.nodes[l], Entry(w.nodes[l].term, command);
    var a := Ack(l, nd.term, |nd'.log|);
    h' := History(h.logs[nd.term := nd'.log], h.acks + {a}, h.voters);
    assert SafeAt(w, h, l) && TermOk(w, h, nd.term);
    AppendMoves(w, h, l, e, a, w', h');
    forall t: nat ensures TermOk(w', h', t) && VotersOk(w'.nodes, h', t) {
      AppendVoters(w, h, l, e, a, w', h', t);
    }
    forall x: Ack ensures AckOk(w'.nodes, h', x) {
      if x in h.acks {
        assert AckOk(w.nodes, h, x);
        GrownKept(w, h, h', nd.term, e, x, w.nodes[x.node].log, w'.nodes[x.node].log, w.nodes[x.node].term);
      }
    }
    forall j | 0 <= j < |w'.nodes| ensures SafeAt(w', h', j) {
      AppendNode(w, h, l, e, a, w', h', j);
    }
  }

  ghost predicate AppendStep(w: World, h: History, l: nat, e: Entry, a: Ack, w': World, h': History) {
    && LeaderInv(w, l) && Safe(w, h) && e.term == w.nodes[l].term
    && w' == World(w.nodes[l := w.nodes[l].(log := w.nodes[l].log + [e])], w.leaders)
    && a == Ack(l, e.term, |w'.nodes[l].log|)
    && h' == History(h.logs[e.term := w'.nodes[l].log], h.acks + {a}, h.voters)
  }

  lemma {:induction false} AppendMoves(w: World, h: History, l: nat, e: Entry, a: Ack, w': World, h': History)
    requires AppendStep(w, h, l, e, a, w', h')
    ensures Moves(w, h, w', h')
  {
    assert SafeAt(w, h, l);
    forall t: nat ensures Longer(h, h', t) {
    }
    forall j | 0 <= j < |w.nodes| ensures Later(w, w', j) && SameCandidate(w, w', h', j) {
    }
    forall x: Ack ensures StillKept(h, h', x) {
      forall log, top | x in h.acks && AllKept(h, x, log, top) ensures AllKept(h', x, log, top) {
        GrownKept(w, h, h', e.term, e, x, log, log, top);
      }
    }
    forall x | x in h'.acks ensures Timely(w, h, x) {
      assert AckOk(w.nodes, h, x);
    }
  }

  lemma {:induction false} AppendVoters(w: World, h: History, l: nat, e: Entry, a: Ack, w': World, h': History, t: nat)
    requires AppendStep(w, h, l, e, a, w', h')
    ensures TermOk(w', h', t) && VotersOk(w'.nodes, h', t)
  {
    assert SafeAt(w, h, l) && TermOk(w, h, t) && VotersOk(w.nodes, h, t);
    if t in h.logs {
      forall x | x in h'.acks && x.node in h'.voters[t] && x.term < t ensures AllKept(h', x, h'.logs[t], t - 1) {
        assert x in h.acks;
        GrownKept(w, h, h', e.term, e, x, h.logs[t], h'.logs[t], t - 1);
      }
    }
  }

  lemma {:induction false} AppendNode(w: World, h: History, l: nat, e: Entry, a: Ack, w': World, h': History, j: nat)
    requires AppendStep(w, h, l, e, a, w', h') && j < |w.nodes|
    ensures NodeSafe(h', |w.nodes|, w'.nodes[j], j)
  {
    var nd := w.nodes[j];
    assert SafeAt(w, h, j) && SafeAt(w, h, l);
    assert Grows(h, h');
    RootedStays(h, h', nd.log, nd.term);
    CommitStays(h, h', |w.nodes|, nd);
    if j == l {
      assert forall i :: 0 <= i < |nd.log| ==> RootedAt(h', nd.log, nd.term, i);
      forall i | 0 <= i < |w'.nodes[j].log| ensures RootedAt(h', w'.nodes[j].log, nd.term, i) {
        if i < |nd.log| {
          assert RootedAt(h', nd.log, nd.term, i) && w'.nodes[j].log[..i + 1] == nd.log[..i + 1];
        }
      }
      if nd.commit > 0 {
        var t, n :| Chosen(h', |w.nodes|, t, n) && Commits(h', nd, t, n);
        assert w'.nodes[j].log[..nd.commit] == nd.log[..nd.commit];
        assert Commits(h', w'.nodes[j], t, n);
      }
    } else {
      assert NodeOk(w, j) && NodeOk(w, l);
      assert nd.state == Leader ==> nd.term != e.term;  // that term would have two leaders
    }
  }

  // ---------- An election ----------

  // A log is sorted, and starts the log of the leader of its last entry.
  lemma {:induction false} RootedSorted(w: World, h: History, log: seq<Entry>, top: nat)
    requires Safe(w, h) && Rooted(h, log, top)
    ensures Sorted(log, top)
    ensures log != [] ==> var t := LastTerm(log); t in h.logs && t <= top && log <= h.logs[t] && Sorted(h.logs[t], t)
  {
    if log != [] {
      assert RootedAt(h, log, top, |log| - 1) && TermOk(w, h, LastTerm(log));
      assert log[..|log| - 1 + 1] == log;
    }
  }

  // Whoever is as up to date as a log that holds entries holds them, unless they were overruled.
  lemma {:induction false} UpToDateHolds(w: World, h: History, t: nat, n: nat, nd: Node, rpc: VoteRpc, log: seq<Entry>,
                                         top: nat)
    requires Safe(w, h) && Own(h, t, n) && top !in h.logs && Rooted(h, nd.log, top) && Rooted(h, log, top)
    requires UpTo(h, t, n) <= nd.log && UpToDate(nd, rpc) && rpc.lastIndex == |log| && rpc.lastTerm == LastTerm(log)
    ensures Kept(h, t, n, log, top - 1)
  {
    RootedSorted(w, h, nd.log, top);
    RootedSorted(w, h, log, top);
    var p, last := UpTo(h, t, n), LastTerm(log);
    assert nd.log[n - 1] == p[n - 1] && t <= LastTerm(nd.log);
    assert log != [];
    if last > LastTerm(nd.log) && p <= h.logs[last] {
      assert h.logs[last][n - 1] == p[n - 1] && h.logs[last][|log| - 1] == log[|log| - 1];
      assert n < |log|;
    } else if last > LastTerm(nd.log) {
      assert Overruled(h, t, n, top - 1);
    }
  }

  // A candidate holds what its voters acknowledged, unless it was overruled.
  lemma {:induction false} VoterKept(w: World, h: History, i: nat, a: Ack)
    requires Safe(w, h) && i < |w.nodes| && w.nodes[i].term !in h.logs && a in h.acks
    requires a.node == i || (a.node < |w.nodes| && Grants(w.nodes[a.node], VoteRequest(w.nodes[i], i)))
    ensures AllKept(h, a, w.nodes[i].log, w.nodes[i].term - 1)
  {
    var cand, nd, top := w.nodes[i], w.nodes[a.node], w.nodes[i].term;
    assert AckOk(w.nodes, h, a) && SafeAt(w, h, i) && SafeAt(w, h, a.node);
    RootedPrefix(h, nd.log, nd.log, nd.term, top);
    forall n: nat | n <= a.count && Own(h, a.term, n) ensures Kept(h, a.term, n, cand.log, top - 1) {
      assert Kept(h, a.term, n, nd.log, nd.term);
      if !(UpTo(h, a.term, n) <= nd.log) {
        var s :| s in h.logs && a.term < s <= nd.term && !(UpTo(h, a.term, n) <= h.logs[s]);
        assert s <= top - 1;
      } else if a.node != i {
        UpToDateHolds(w, h, a.term, n, nd, VoteRequest(cand, i), cand.log, top);
      }
    }
  }

  // Node i becomes leader with the given voters.
  ghost predicate Elects(w: World, h: History, i: nat, voters: set<nat>, w': World, h': History) {
    && Safe(w, h) && i < |w.nodes| && w.nodes[i].term !in h.logs
    && |w'.nodes| == |w.nodes| && w.leaders <= w'.leaders && (i, w.nodes[i].term) in w'.leaders
    && (forall j :: 0 <= j < |w.nodes| && j != i ==> Tame(w.nodes[j], w'.nodes[j]))
    && w'.nodes[i].state == Leader && w'.nodes[i].log == w.nodes[i].log && w'.nodes[i].commit == w.nodes[i].commit
    && w'.nodes[i].term == w.nodes[i].term
    && (forall k :: 0 <= k < |w'.nodes[i].matched| ==> w'.nodes[i].matched[k] == 0)
    && Quorum.Members(|w.nodes|, voters) && |voters| >= Quorum.Size(|w.nodes|)
    && (forall j <- voters :: w'.nodes[j].term >= w.nodes[i].term)
    && (forall a <- h.acks :: a.node in voters && a.term < w.nodes[i].term ==>
                                AllKept(h, a, w.nodes[i].log, w.nodes[i].term - 1))
    && h' == History(h.logs[w.nodes[i].term := w.nodes[i].log], h.acks, h.voters[w.nodes[i].term := voters])
  }

  lemma {:induction false} ElectTerm(w: World, h: History, i: nat, voters: set<nat>, w': World, h': History, t: nat)
    requires Elects(w, h, i, voters, w', h')
    ensures TermOk(w', h', t) && VotersOk(w'.nodes, h', t)
  {
    assert TermOk(w, h, t) && VotersOk(w.nodes, h, t) && SafeAt(w, h, i);
    RootedSorted(w, h, w.nodes[i].log, w.nodes[i].term);
    if t in h'.logs {
      forall x | x in h'.acks && x.node in h'.voters[t] && x.term < t ensures AllKept(h', x, h'.logs[t], t - 1) {
        assert AckOk(w.nodes, h, x);
        SameKept(h, h', x, h'.logs[t], t - 1);
      }
    }
  }

  lemma {:induction false} ElectNode(w: World, h: History, i: nat, voters: set<nat>, w': World, h': History, j: nat)
    requires Elects(w, h, i, voters, w', h') && j < |w.nodes|
    ensures NodeSafe(h', |w.nodes|, w'.nodes[j], j)
  {
    var nd := w.nodes[j];
    assert SafeAt(w, h, j) && Grows(h, h');
    RootedStays(h, h', nd.log, nd.term);
    CommitStays(h, h', |w.nodes|, nd);
    if j == i {
      RootedSorted(w, h, nd.log, nd.term);
      SameCommit(h', |w.nodes|, nd, w'.nodes[j]);
    } else {
      TameNode(h', |w.nodes|, nd, w'.nodes[j], j);
    }
  }

  lemma {:induction false} ElectKeepsSafe(w: World, h: History, i: nat, voters: set<nat>, w': World, h': History)
    requires Elects(w, h, i, voters, w', h')
    ensures Safe(w', h') && Grows(h, h')
  {
    forall t: nat ensures TermOk(w', h', t) && VotersOk(w'.nodes, h', t) {
      ElectTerm(w, h, i, voters, w', h', t);
    }
    forall a: Ack ensures AckOk(w'.nodes, h', a) {
      assert AckOk(w.nodes, h, a);
      if a in h.acks {
        var nd, nd' := w.nodes[a.node], w'.nodes[a.node];
        SameKept(h, h', a, nd.log, nd.term);
        KeptLonger(h', a, nd.log, nd.term, nd'.term);
      }
    }
    forall j | 0 <= j < |w'.nodes| ensures SafeAt(w', h', j) {
      ElectNode(w, h, i, voters, w', h', j);
    }
  }

  // ---------- A poll ----------

  // No entry of a candidate's term exists yet when it wins.
  lemma {:induction false} NewTerm(w: World, h: History, i: nat, leaders: set<(nat, nat)>)
    requires CandidateInv(w, i) && Safe(w, h) && w.leaders <= leaders && OneLeader(leaders)
    requires (i, w.nodes[i].term) in leaders
    ensures w.nodes[i].term !in h.logs
  {
    assert TermOk(w, h, w.nodes[i].term);
  }

  lemma {:induction false} AskedTame(nodes: seq<Node>, i: nat, asked: seq<Node>)
    requires i < |nodes| && RaftVotes.AskedSoFar(nodes, i, |nodes|, asked)
    ensures AllTame(nodes, asked)
    ensures forall j <- RaftVotes.Granters(nodes, i, |nodes|) :: asked[j].term >= nodes[i].term
  {
    forall j | 0 <= j < |nodes|
      ensures Tame(nodes[j], asked[j])
      ensures j in RaftVotes.Granters(nodes, i, |nodes|) ==> asked[j].term >= nodes[i].term
    {
      assert j != i ==> asked[j] == RaftVotes.Answer(nodes, i, j, |nodes|);
    }
  }

  // A candidate of a term without a leader holds what its backers acknowledged in
  // earlier terms, unless it was overruled.
  ghost predicate CandidateOk(nodes: seq<Node>, h: History, votes: set<RaftVotes.Vote>, i: nat) {
    i < |nodes| && nodes[i].state == Candidate && nodes[i].term !in h.logs ==>
      forall a <- h.acks :: a.node in RaftVotes.Backers(votes, i, nodes[i].term) && a.term < nodes[i].term ==>
                              AllKept(h, a, nodes[i].log, nodes[i].term - 1)
  }

  ghost predicate Candidates(w: World, h: History, votes: set<RaftVotes.Vote>) {
    forall i :: CandidateOk(w.nodes, h, votes, i)
  }

  lemma {:induction false} MovesKeepCandidates(w: World, h: History, votes: set<RaftVotes.Vote>, w': World, h': History)
    requires Candidates(w, h, votes) && Moves(w, h, w', h') && RaftVotes.VotesPast(w.nodes, votes)
    ensures Candidates(w', h', votes)
  {
    forall i: nat ensures CandidateOk(w'.nodes, h', votes, i) {
      assert CandidateOk(w.nodes, h, votes, i) && SameCandidate(w, w', h', i);
      if i < |w'.nodes| && w'.nodes[i].state == Candidate && w'.nodes[i].term !in h'.logs {
        assert Longer(h, h', w.nodes[i].term);
        forall a | a in h'.acks && a.node in RaftVotes.Backers(votes, i, w'.nodes[i].term) && a.term < w'.nodes[i].term
          ensures AllKept(h', a, w'.nodes[i].log, w'.nodes[i].term - 1)
        {
          assert RaftVotes.VotePast(w.nodes, RaftVotes.Vote(a.node, w.nodes[i].term, i));
          assert Timely(w, h, a) && StillKept(h, h', a);
        }
      }
    }
  }

  // A new candidate has only its own vote.
  lemma {:induction false} CampaignKeepsCandidates(w: World, h: History, votes: set<RaftVotes.Vote>, i: nat, w': World,
                                                   votes': set<RaftVotes.Vote>)
    requires Safe(w, h) && Candidates(w, h, votes) && RaftVotes.VotesPast(w.nodes, votes) && i < |w.nodes|
    requires w'.nodes == w.nodes[i := AsCandidate(w.nodes[i], i)]
    requires votes' == votes + {RaftVotes.Vote(i, w.nodes[i].term + 1, i)}
    ensures Candidates(w', h, votes')
  {
    forall k: nat ensures CandidateOk(w'.nodes, h, votes', k) {
      assert CandidateOk(w.nodes, h, votes, k);
      if k == i {
        forall a | a in h.acks && a.node in RaftVotes.Backers(votes', i, w'.nodes[i].term)
          ensures AllKept(h, a, w'.nodes[i].log, w'.nodes[i].term - 1)
        {
          assert RaftVotes.Vote(a.node, w'.nodes[i].term, i) in votes ==>
              RaftVotes.VotePast(w.nodes, RaftVotes.Vote(a.node, w'.nodes[i].term, i));
          assert a.node == i && AckOk(w.nodes, h, a);
        }
      }
    }
  }

  // A poll adds its granters to the backers of its candidate, and to no others.
  ghost predicate PollAdds(nodes: seq<Node>, i: nat, votes: set<RaftVotes.Vote>, votes': set<RaftVotes.Vote>)
    requires i < |nodes|
  {
    forall v <- votes' :: v in votes || (v.candidate == i && v.term == nodes[i].term &&
                                         v.voter in RaftVotes.Granters(nodes, i, |nodes|))
  }

  lemma {:induction false} PolledBacker(w: World, h: History, votes: set<RaftVotes.Vote>, i: nat,
                                        votes': set<RaftVotes.Vote>, a: Ack)
    requires Safe(w, h) && CandidateOk(w.nodes, h, votes, i) && i < |w.nodes| && w.nodes[i].state == Candidate
    requires w.nodes[i].term !in h.logs && PollAdds(w.nodes, i, votes, votes')
    requires a in h.acks && a.node in RaftVotes.Backers(votes', i, w.nodes[i].term) && a.term < w.nodes[i].term
    ensures AllKept(h, a, w.nodes[i].log, w.nodes[i].term - 1)
  {
    var v := RaftVotes.Vote(a.node, w.nodes[i].term, i);
    assert v in votes';
    if v !in votes {
      VoterKept(w, h, i, a);
    }
  }

  lemma {:induction false} PollKeepsCandidates(w: World, h: History, votes: set<RaftVotes.Vote>, i: nat, w': World,
                                               votes': set<RaftVotes.Vote>)
    requires Safe(w, h) && Candidates(w, h, votes) && CandidateInv(w, i) && PollAdds(w.nodes, i, votes, votes')
    requires Steady(w, h, w', h)
    ensures Candidates(w', h, votes')
  {
    forall k: nat ensures CandidateOk(w'.nodes, h, votes', k) {
      assert CandidateOk(w.nodes, h, votes, k) && SameCandidate(w, w', h, k);
      if k < |w'.nodes| && w'.nodes[k].state == Candidate && w'.nodes[k].term !in h.logs {
        forall a | a in h.acks && a.node in RaftVotes.Backers(votes', k, w'.nodes[k].term) && a.term < w'.nodes[k].term
          ensures AllKept(h, a, w'.nodes[k].log, w'.nodes[k].term - 1)
        {
          assert RaftVotes.Vote(a.node, w.nodes[k].term, k) in votes';
          if k == i {
            PolledBacker(w, h, votes, i, votes', a);
          }
        }
      }
    }
  }

  lemma {:induction false} WinKeepsSafe(w: World, h: History, votes: set<RaftVotes.Vote>, i: nat, asked: seq<Node>,
                                        w': World, votes': set<RaftVotes.Vote>) returns (h': History)
    requires CandidateInv(w, i) && Safe(w, h) && Candidates(w, h, votes) && PollAdds(w.nodes, i, votes, votes')
    requires RaftVotes.AskedSoFar(w.nodes, i, |w.nodes|, asked) && RaftVotes.VotesPast(w'.nodes, votes')
    requires |RaftVotes.Backers(votes', i, w.nodes[i].term)| >= Quorum.Size(|w.nodes|)
    requires w' == World(asked[i := AsLeader(asked[i])], w'.leaders) && w.leaders <= w'.leaders
    requires (i, w.nodes[i].term) in w'.leaders && OneLeader(w'.leaders)
    ensures Safe(w', h') && Grows(h, h') && Candidates(w', h', votes')
  {
    var voters := RaftVotes.Backers(votes', i, w.nodes[i].term);
    NewTerm(w, h, i, w'.leaders);
    AskedTame(w.nodes, i, asked);
    assert CandidateOk(w.nodes, h, votes, i);
    forall a | a in h.acks && a.node in voters && a.term < w.nodes[i].term
      ensures AllKept(h, a, w.nodes[i].log, w.nodes[i].term - 1)
    {
      PolledBacker(w, h, votes, i, votes', a);
    }
    forall j | j in voters ensures j < |w.nodes| && asked[j].term >= w.nodes[i].term {
      assert RaftVotes.VotePast(w'.nodes, RaftVotes.Vote(j, w.nodes[i].term, i));
    }
    h' := VotersElect(w, h, i, voters, asked, w');
    WinKeepsCandidates(w, h, votes, i, asked, w', h', votes');
  }

  lemma {:induction false} WinKeepsCandidates(w: World, h: History, votes: set<RaftVotes.Vote>, i: nat,
                                              asked: seq<Node>, w': World, h': History, votes': set<RaftVotes.Vote>)
    requires Safe(w, h) && Candidates(w, h, votes) && i < |w.nodes| && PollAdds(w.nodes, i, votes, votes')
    requires AllSettled(w.nodes, asked, h) && w'.nodes == asked[i := AsLeader(asked[i])]
    requires h'.acks == h.acks && Extends(h, h')
    ensures Candidates(w', h', votes')
  {
    forall k: nat ensures CandidateOk(w'.nodes, h', votes', k) {
      assert CandidateOk(w.nodes, h, votes, k);
      if k < |w'.nodes| && w'.nodes[k].state == Candidate && w'.nodes[k].term !in h'.logs {
        assert Settles(w.nodes[k], asked[k], h);
        forall a | a in h'.acks && a.node in RaftVotes.Backers(votes', k, w'.nodes[k].term) && a.term < w'.nodes[k].term
          ensures AllKept(h', a, w'.nodes[k].log, w'.nodes[k].term - 1)
        {
          assert RaftVotes.Vote(a.node, w.nodes[k].term, k) in votes' && AckOk(w.nodes, h, a);
          SameKept(h, h', a, w.nodes[k].log, w.nodes[k].term - 1);
        }
      }
    }
  }

  ghost predicate AllSettled(nodes: seq<Node>, nodes': seq<Node>, h: History) {
    |nodes'| == |nodes| && forall j :: 0 <= j < |nodes| ==> Settles(nodes[j], nodes'[j], h)
  }

  lemma {:induction false} AskedSettles(nodes: seq<Node>, i: nat, asked: seq<Node>, h: History)
    requires i < |nodes| && RaftVotes.AskedSoFar(nodes, i, |nodes|, asked)
    ensures AllSettled(nodes, asked, h)
  {
    forall j | 0 <= j < |nodes| ensures Settles(nodes[j], asked[j], h) {
      assert j != i ==> asked[j] == RaftVotes.Answer(nodes, i, j, |nodes|);
    }
  }

  lemma {:induction false} VotersElect(w: World, h: History, i: nat, voters: set<nat>, asked: seq<Node>, w': World)
    returns (h': History)
    requires Safe(w, h) && i < |w.nodes| && w.nodes[i].term !in h.logs && AllTame(w.nodes, asked)
    requires asked[i] == w.nodes[i].(votes := asked[i].votes)
    requires Quorum.Members(|w.nodes|, voters) && |voters| >= Quorum.Size(|w.nodes|)
    requires forall j <- voters :: asked[j].term >= w.nodes[i].term
    requires forall a <- h.acks :: a.node in voters && a.term < w.nodes[i].term ==>
                                     AllKept(h, a, w.nodes[i].log, w.nodes[i].term - 1)
    requires w' == World(asked[i := AsLeader(asked[i])], w'.leaders) && w.leaders <= w'.leaders
    requires (i, w.nodes[i].term) in w'.leaders
    ensures Safe(w', h') && Grows(h, h') && h'.acks == h.acks && Extends(h, h')
  {
    var nd := w.nodes[i];
    forall j | 0 <= j < |w.nodes| && j != i ensures Tame(w.nodes[j], w'.nodes[j]) {
      assert Tame(w.nodes[j], asked[j]);
    }
    h' := History(h.logs[nd.term := nd.log], h.acks, h.voters[nd.term := voters]);
    ElectKeepsSafe(w, h, i, voters, w', h');
  }

  // The ballots before and after a fair poll of candidate i.
  ghost predicate PollStep(b: RaftVotes.Ballot, b': RaftVotes.Ballot, i: nat) {
    && RaftVotes.Inv(b) && RaftVotes.Inv(b') && i < |b.nodes| && b.nodes[i].state == Candidate
    && RaftVotes.FairPoll(b.nodes, b.votes, i) && b'.nodes == Polled(b.nodes, i)
    && b'.leaders == b.leaders + Leading(b'.nodes) && b'.votes == b.votes + RaftVotes.Shown(b'.nodes)
  }

  lemma {:induction false} PollKeepsSafe(b: RaftVotes.Ballot, b': RaftVotes.Ballot, h: History, i: nat, w: World,
                                         w': World) returns (h': History)
    requires PollStep(b, b', i) && w == World(b.nodes, b.leaders) && w' == World(b'.nodes, b'.leaders)
    requires CandidateInv(w, i) && Safe(w, h) && Candidates(w, h, b.votes) && OneLeader(w'.leaders)
    ensures Safe(w', h') && Grows(h, h') && Candidates(w', h', b'.votes)
  {
    var asked := AskFirst(w.nodes, i, |w.nodes|);
    RaftVotes.AskFirstEffect(w.nodes, i, |w.nodes|, asked);
    AskedSettles(w.nodes, i, asked, h);
    PollShows(b, i, asked, b');
    if asked[i].votes >= Quorum.Size(|w.nodes|) {
      assert w'.nodes[i].state == Leader && (i, w'.nodes[i].term) in Leading(w'.nodes);
      h' := WinKeepsSafe(w, h, b.votes, i, asked, w', b'.votes);
    } else {
      h' := h;
      AskedTame(w.nodes, i, asked);
      TameKeepsSafe(w, h, w');
      SettledMoves(w, h, w');
      PollKeepsCandidates(w, h, b.votes, i, w', b'.votes);
    }
  }

  lemma {:induction false} PollShows(b: RaftVotes.Ballot, i: nat, asked: seq<Node>, b': RaftVotes.Ballot)
    requires PollStep(b, b', i) && RaftVotes.AskedSoFar(b.nodes, i, |b.nodes|, asked)
    requires RaftVotes.Outcome(asked, i, b'.nodes)
    ensures PollAdds(b.nodes, i, b.votes, b'.votes)
  {
    RaftVotes.PollVotes(b, i, asked);
    assert RaftVotes.NodeFair(b, i);
    RaftVotes.SameShown(b, i, asked, b'.nodes);
    forall v | v in b'.votes && v !in b.votes
      ensures v.candidate == i && v.term == b.nodes[i].term && v.voter in RaftVotes.Granters(b.nodes, i, |b.nodes|)
    {
      assert v in RaftVotes.Shown(asked) && RaftVotes.PollVote(b, i, asked, v.voter);
    }
  }

  // ---------- Fair runs ----------

  lemma {:induction false} MoreLeaders(w: World, h: History, w': World)
    requires Safe(w, h) && w'.nodes == w.nodes && w.leaders <= w'.leaders
    ensures Safe(w', h) && Moves(w, h, w', h)
  {
    assert AllTame(w.nodes, w'.nodes);
    TameKeepsSafe(w, h, w');
    SettledMoves(w, h, w');
  }

  lemma {:induction false} CommandKeepsSafe(w: World, h: History, l: nat, command: int, w': World) returns (h': History)
    requires LeaderInv(w, l) && |w.nodes[l].log| < MAX_LOG && Safe(w, h)
    requires w' == World(Replicated(w.nodes[l := Append(w.nodes[l], command)], l), w.leaders)
    ensures Safe(w', h') && Moves(w, h, w', h')
  {
    var mid := World(w.nodes[l := Append(w.nodes[l], command)], w.leaders);
    AppendKeepsInv(w, l, command);
    var h1 := AppendKeepsSafe(w, h, l, command, mid);
    h' := ReplicatedKeepsSafe(mid, h1, l, w');
    MovesTwice(w, h, mid, h1, w', h');
  }

  lemma {:induction false} ReplicateKeepsSafe(w: World, h: History, l: nat, w': World) returns (h': History)
    requires LeaderInv(w, l) && Safe(w, h)
    requires w' == World(Replicated(SendHeartbeat(w.nodes, l, |w.nodes|), l), w.leaders)
    ensures Safe(w', h') && Moves(w, h, w', h')
  {
    var mid := World(SendHeartbeat(w.nodes, l, |w.nodes|), w.leaders);
    HeartbeatKeepsSafe(w, h, l, mid);
    h' := ReplicatedKeepsSafe(mid, h, l, w');
    MovesTwice(w, h, mid, h, w', h');
  }

  lemma {:induction false} LocalKeepsSafe(w: World, h: History, i: nat, w': World)
    requires Safe(w, h) && i < |w.nodes| && |w'.nodes| == |w.nodes| && w'.nodes == w.nodes[i := w'.nodes[i]]
    requires w.leaders <= w'.leaders && Tame(w.nodes[i], w'.nodes[i])
    ensures Safe(w', h) && (Settles(w.nodes[i], w'.nodes[i], h) ==> Moves(w, h, w', h))
  {
    assert AllTame(w.nodes, w'.nodes);
    TameKeepsSafe(w, h, w');
    if Settles(w.nodes[i], w'.nodes[i], h) {
      SettledMoves(w, h, w');
    }
  }

  // Steps that cast no vote.
  lemma {:induction false} QuietKeepsSafe(w: World, h: History, s: Step, w': World) returns (h': History)
    requires RaftLog.Inv(w) && Safe(w, h) && (Enabled(w.nodes, s) ==> !s.Poll? && !s.Campaign?)
    requires w'.nodes == Next(w.nodes, s) && w'.leaders == w.leaders + Leading(w'.nodes)
    ensures Safe(w', h') && Moves(w, h, w', h')
  {
    h' := h;
    if !Enabled(w.nodes, s) {
      MoreLeaders(w, h, w');
    } else {
      match s
      case Command(l, command) =>
        if w.nodes[l].state == Leader && |w.nodes[l].log| < MAX_LOG {
          h' := CommandKeepsSafe(w, h, l, command, World(w'.nodes, w.leaders));
          LedKeepsSafe(w, h, h', w');
        } else {
          MoreLeaders(w, h, w');
        }
      case Replicate(l) =>
        h' := ReplicateKeepsSafe(w, h, l, World(w'.nodes, w.leaders));
        LedKeepsSafe(w, h, h', w');
      case StepDown(i, _) => LocalKeepsSafe(w, h, i, w');
      case Isolate(i) => LocalKeepsSafe(w, h, i, w');
      case Reconnect(i) => LocalKeepsSafe(w, h, i, w');
    }
  }

  lemma {:induction false} LedKeepsSafe(w: World, h: History, h': History, w': World)
    requires Safe(World(w'.nodes, w.leaders), h') && Moves(w, h, World(w'.nodes, w.leaders), h')
    requires w.leaders <= w'.leaders
    ensures Safe(w', h') && Moves(w, h, w', h')
  {
    var mid := World(w'.nodes, w.leaders);
    MoreLeaders(mid, h', w');
    MovesTwice(w, h, mid, h', w', h');
  }

  // Every step of a fair run keeps the history and the candidates in order.
  lemma {:induction false} NextKeepsSafe(b: RaftVotes.Ballot, b': RaftVotes.Ballot, h: History, s: Step, w: World,
                                         w': World) returns (h': History)
    requires w == World(b.nodes, b.leaders) && w' == World(b'.nodes, b'.leaders)
    requires RaftVotes.Inv(b) && RaftVotes.Inv(b') && RaftVotes.Follows(b, b', s)
    requires RaftVotes.FairStep(b.nodes, b.votes, s) && OneLeader(b'.leaders)
    requires RaftLog.Inv(w) && Safe(w, h) && Candidates(w, h, b.votes)
    ensures Safe(w', h') && Candidates(w', h', b'.votes) && Grows(h, h')
  {
    if Enabled(b.nodes, s) && s.Poll? {
      h' := PollKeepsSafe(b, b', h, s.i, w, w');
    } else if Enabled(b.nodes, s) && s.Campaign? {
      h' := h;
      LocalKeepsSafe(w, h, s.i, w');
      RaftVotes.CampaignKeepsInv(b, b', s.i);
      CampaignKeepsCandidates(w, h, b.votes, s.i, w', b'.votes);
    } else {
      h' := QuietKeepsSafe(w, h, s, w');
      QuietVotes(b, b', s);
      MovesKeepCandidates(w, h, b.votes, w', h');
    }
  }

  lemma {:induction false} QuietVotes(b: RaftVotes.Ballot, b': RaftVotes.Ballot, s: Step)
    requires RaftVotes.Inv(b) && RaftVotes.Follows(b, b', s) && (Enabled(b.nodes, s) ==> !s.Poll? && !s.Campaign?)
    ensures b'.votes == b.votes
  {
    if Enabled(b.nodes, s) {
      RaftVotes.NextQuiet(b.nodes, s, b'.nodes);
    }
    RaftVotes.QuietKeepsInv(b, b');
  }

  lemma {:induction false} FairPrefix(n: nat, xs: seq<Step>, ys: seq<Step>)
    requires RaftVotes.Fair(n, ys) && xs <= ys
    ensures RaftVotes.Fair(n, xs)
  {
    if xs != ys {
      FairPrefix(n, xs, ys[..|ys| - 1]);
    }
  }

  ghost predicate SafeAfter(n: nat, steps: seq<Step>, h: History) {
    Safe(Exec(n, steps), h) && Candidates(Exec(n, steps), h, RaftVotes.Cast(n, steps))
  }

  lemma {:induction false} RunOn(n: nat, xs: seq<Step>, s: Step, ys: seq<Step>, h: History) returns (h': History)
    requires RaftVotes.Fair(n, xs) && RaftVotes.Fair(n, ys) && ys == xs + [s] && SafeAfter(n, xs, h)
    ensures SafeAfter(n, ys, h') && Grows(h, h')
  {
    assert ys[..|ys| - 1] == xs;
    var b, b' := RaftVotes.BallotOf(n, xs), RaftVotes.BallotOf(n, ys);
    RaftVotes.FairKeepsInv(n, xs, b);
    RaftVotes.FairKeepsInv(n, ys, b');
    RaftVotes.OneLeaderPerTerm(n, xs);
    RaftVotes.OneLeaderPerTerm(n, ys);
    ExecKeepsInv(n, xs);
    h' := NextKeepsSafe(b, b', h, s, Exec(n, xs), Exec(n, ys));
  }

  // What every step of a fair run keeps, the run keeps.
  lemma {:induction false} AlongRun(P: seq<Step> -> bool, n: nat, xs: seq<Step>, ys: seq<Step>)
    requires RaftVotes.Fair(n, ys) && xs <= ys && P(xs)
    requires forall zs :: FairEnd(n, zs) && P(zs[..|zs| - 1]) ==> P(zs)
    ensures P(ys)
  {
    if xs != ys {
      AlongRun(P, n, xs, ys[..|ys| - 1]);
      assert FairEnd(n, ys);
    }
  }

  ghost predicate FairEnd(n: nat, zs: seq<Step>) {
    zs != [] && RaftVotes.Fair(n, zs) && RaftVotes.Fair(n, zs[..|zs| - 1])
  }

  ghost predicate SafeFrom(n: nat, h: History, steps: seq<Step>) {
    exists h' :: SafeAfter(n, steps, h') && Grows(h, h')
  }

  lemma {:induction false} StepFrom(n: nat, h: History, xs: seq<Step>, s: Step, ys: seq<Step>)
    requires RaftVotes.Fair(n, xs) && RaftVotes.Fair(n, ys) && ys == xs + [s] && SafeFrom(n, h, xs)
    ensures SafeFrom(n, h, ys)
  {
    var h1 :| SafeAfter(n, xs, h1) && Grows(h, h1);
    var h2 := RunOn(n, xs, s, ys, h1);
    GrowsTwice(h, h1, h2);
  }

  lemma {:induction false} StepAlong(n: nat, h: History, xs: seq<Step>, zs: seq<Step>)
    requires FairEnd(n, zs) && xs == zs[..|zs| - 1] && SafeFrom(n, h, xs)
    ensures SafeFrom(n, h, zs)
  {
    StepFrom(n, h, xs, zs[|zs| - 1], zs);
  }

  lemma {:induction false} RunSafe(n: nat, h: History, xs: seq<Step>, ys: seq<Step>)
    requires RaftVotes.Fair(n, ys) && xs <= ys && SafeFrom(n, h, xs)
    ensures SafeFrom(n, h, ys)
  {
    var P := (zs: seq<Step>) => SafeFrom(n, h, zs);
    forall zs | FairEnd(n, zs) && P(zs[..|zs| - 1]) ensures P(zs) {
      StepAlong(n, h, zs[..|zs| - 1], zs);
    }
    AlongRun(P, n, xs, ys);
    assert P(ys);
  }

  lemma {:induction false} RunFrom(n: nat, xs: seq<Step>, ys: seq<Step>, h: History) returns (h': History)
    requires RaftVotes.Fair(n, ys) && xs <= ys && SafeAfter(n, xs, h)
    ensures SafeAfter(n, ys, h') && Grows(h, h')
  {
    assert Grows(h, h) && SafeFrom(n, h, xs);
    RunSafe(n, h, xs, ys);
    h' :| SafeAfter(n, ys, h') && Grows(h, h');
  }

  lemma {:induction false} SafeRun(n: nat, steps: seq<Step>) returns (h: History)
    requires RaftVotes.Fair(n, steps)
    ensures SafeAfter(n, steps, h)
  {
    var none := History(map[], {}, map[]);
    assert SafeAfter(n, [], none);
    h := RunFrom(n, [], steps, none);
  }

  // ---------- What commit promises ----------

  // What node a has committed after a fair run is in the log of every leader of
  // its term or a later one, from then on.
  lemma {:induction false} LeaderCompleteness(n: nat, xs: seq<Step>, ys: seq<Step>, a: nat, l: nat)
    requires RaftVotes.Fair(n, ys) && xs <= ys && a < n && l < n
    requires Exec(n, ys).nodes[l].state == Leader && Exec(n, ys).nodes[l].term >= Exec(n, xs).nodes[a].term
    ensures var nd := Exec(n, xs).nodes[a];
            nd.commit <= |nd.log| && nd.log[..nd.commit] <= Exec(n, ys).nodes[l].log
  {
    FairPrefix(n, xs, ys);
    var h := SafeRun(n, xs);
    var h' := RunFrom(n, xs, ys, h);
    CommittedIsLed(Exec(n, xs), h, Exec(n, ys), h', a, l);
  }

  lemma {:induction false} CommittedIsLed(w: World, h: History, w': World, h': History, a: nat, l: nat)
    requires Safe(w, h) && Safe(w', h') && Grows(h, h') && |w'.nodes| == |w.nodes| && a < |w.nodes| && l < |w.nodes|
    requires w'.nodes[l].state == Leader && w'.nodes[l].term >= w.nodes[a].term
    ensures w.nodes[a].commit <= |w.nodes[a].log| && w.nodes[a].log[..w.nodes[a].commit] <= w'.nodes[l].log
  {
    var nd := w.nodes[a];
    assert SafeAt(w, h, a) && SafeAt(w', h', l);
    if nd.commit > 0 {
      var t, n :| Chosen(h, |w.nodes|, t, n) && Commits(h, nd, t, n);
      ChosenStays(h, h', |w.nodes|, t, n);
      ChosenInherited(w', h', t, n, w'.nodes[l].term);
      assert nd.log[..nd.commit] == UpTo(h, t, n)[..nd.commit];
    }
  }

  // State machine safety: what two nodes have committed, at any two moments of a
  // fair run, agrees as far as both reach.
  lemma {:induction false} StateMachineSafety(n: nat, xs: seq<Step>, ys: seq<Step>, a: nat, b: nat, c: nat)
    requires RaftVotes.Fair(n, ys) && xs <= ys && a < n && b < n
    requires c <= Exec(n, xs).nodes[a].commit && c <= Exec(n, ys).nodes[b].commit
    ensures var x, y := Exec(n, xs).nodes[a].log, Exec(n, ys).nodes[b].log;
            c <= |x| && c <= |y| && x[..c] == y[..c]
  {
    FairPrefix(n, xs, ys);
    var h := SafeRun(n, xs);
    var h' := RunFrom(n, xs, ys, h);
    assert SafeAt(Exec(n, xs), h, a) && SafeAt(Exec(n, ys), h', b);
    CommitStays(h, h', n, Exec(n, xs).nodes[a]);
    CommitsAgree(Exec(n, ys), h', Exec(n, xs).nodes[a], Exec(n, ys).nodes[b], c);
  }

  // Nothing committed is taken back.
  lemma {:induction false} NextCommits(nodes: seq<Node>, s: Step, nodes': seq<Node>, j: nat)
    requires Shaped(nodes) && nodes' == Next(nodes, s) && j < |nodes|
    ensures nodes[j].commit <= nodes'[j].commit
  {
    if Enabled(nodes, s) && s.Poll? {
      var asked := AskFirst(nodes, s.i, |nodes|);
      RaftVotes.AskFirstEffect(nodes, s.i, |nodes|, asked);
      AskedTame(nodes, s.i, asked);
      assert Tame(nodes[j], asked[j]);
    } else if Enabled(nodes, s) && !s.Campaign? {
      RaftVotes.NextQuiet(nodes, s, nodes');
      assert RaftVotes.Quiet(nodes[j], nodes'[j]);
    }
  }

  lemma {:induction false} CommitGrows(n: nat, xs: seq<Step>, ys: seq<Step>, a: nat)
    requires xs <= ys && a < n
    ensures Exec(n, xs).nodes[a].commit <= Exec(n, ys).nodes[a].commit
  {
    if xs != ys {
      var rest := ys[..|ys| - 1];
      CommitGrows(n, xs, rest, a);
      NextCommits(Exec(n, rest).nodes, ys[|ys| - 1], Exec(n, ys).nodes, a);
    }
  }

  // What a node has committed stays committed, entry by entry.
  lemma {:induction false} CommittedForever(n: nat, xs: seq<Step>, ys: seq<Step>, a: nat)
    requires RaftVotes.Fair(n, ys) && xs <= ys && a < n
    ensures var x, y := Exec(n, xs).nodes[a], Exec(n, ys).nodes[a];
            x.commit <= |x.log| && x.commit <= y.commit <= |y.log| && x.log[..x.commit] == y.log[..x.commit]
  {
    CommitGrows(n, xs, ys, a);
    StateMachineSafety(n, xs, ys, a, a, Exec(n, xs).nodes[a].commit);
    StateMachineSafety(n, ys, ys, a, a, Exec(n, ys).nodes[a].commit);
  }

  lemma {:induction false} CommitsAgree(w: World, h: History, x: Node, y: Node, c: nat)
    requires Safe(w, h) && CommitOk(h, |w.nodes|, x) && CommitOk(h, |w.nodes|, y) && c <= x.commit && c <= y.commit
    ensures c <= |x.log| && c <= |y.log| && x.log[..c] == y.log[..c]
  {
    if c > 0 {
      var t, n :| Chosen(h, |w.nodes|, t, n) && Commits(h, x, t, n);
      var s, m :| Chosen(h, |w.nodes|, s, m) && Commits(h, y, s, m);
      ChosenAgree(w, h, t, n, s, m, c);
      assert x.log[..c] == x.log[..x.commit][..c] == h.logs[t][..c];
      assert y.log[..c] == y.log[..y.commit][..c] == h.logs[s][..c];
    }
  }

  lemma {:induction false} ChosenAgree(w: World, h: History, t: nat, n: nat, s: nat, m: nat, c: nat)
    requires Safe(w, h) && Chosen(h, |w.nodes|, t, n) && Chosen(h, |w.nodes|, s, m) && c <= n && c <= m
    ensures h.logs[t][..c] == h.logs[s][..c]
  {
    if t <= s {
      ChosenInherited(w, h, t, n, s);
      assert UpTo(h, t, n)[..c] == h.logs[s][..c];
    } else {
      ChosenInherited(w, h, s, m, t);
      assert UpTo(h, s, m)[..c] == h.logs[t][..c];
    }
  }

  // ---------- Why polls must be fair ----------

  // A new leader of term 1 among three nodes, with nothing sent yet.
  ghost predicate FreshLeader(nd: Node) {
    && nd.state == Leader && nd.term == 1 && nd.log == [] && nd.commit == 0
    && nd.next == [1, 1, 1] && nd.matched == [0, 0, 0]
  }

  // A voter of term 1 that holds at most one entry, of that term.
  ghost predicate FreshVoter(nd: Node) {
    nd.active && nd.term == 1 && |nd.log| <= 1 && (forall i :: 0 <= i < |nd.log| ==> nd.log[i].term == 1)
  }

  lemma {:induction false} VoterAccepts(nd: Node, rpc: Rpc, e: Entry)
    requires FreshVoter(nd) && e.term == 1 && rpc == Rpc(1, 0, 0, [e], 0)
    ensures Handle(nd, rpc).1 && FreshVoter(Handle(nd, rpc).0)
    ensures var nd' := Handle(nd, rpc).0; nd'.next == nd.next && nd'.matched == nd.matched
  {
    assert StoreAll(nd.log, 0, [e], 0) == nd.log;
    assert StoreAll(nd.log, 0, [e], 1) == Store(nd.log, 0, e);
  }

  lemma {:induction false} OthersSkipped(x: seq<Node>, l: nat, o: nat, k: nat)
    requires Shaped(x) && |x| == 3 && {l, o} == {0, 1} && !x[o].active && k <= 2
    ensures SendAppend(x, l, k) == x
  {
    if k > 0 {
      OthersSkipped(x, l, o, k - 1);
      assert k - 1 in {l, o};
    }
  }

  // A leader with one entry reaches node 2 alone, which accepts whatever it holds.
  lemma {:induction false} SentAlone(x: seq<Node>, l: nat, o: nat, e: Entry, y: seq<Node>)
    requires Shaped(x) && |x| == 3 && {l, o} == {0, 1} && !x[o].active && FreshVoter(x[2]) && e.term == 1
    requires FreshLeader(x[l].(log := [])) && x[l].log == [e] && y == SendAppend(x, l, 3)
    ensures y[o] == x[o] && FreshVoter(y[2]) && y[l] == x[l].(next := [1, 1, 2], matched := [0, 0, 1])
  {
    OthersSkipped(x, l, o, 2);
    assert y == SendTo(x, l, 2);
    var rpc := Request(x[l], 2);
    assert rpc == Rpc(1, 0, 0, [e], 0);
    VoterAccepts(x[2], rpc, e);
    assert l != 2 && o != 2;
  }

  // Such a leader commits a command with node 2 alone.
  lemma {:induction false} CommitsAlone(nodes: seq<Node>, l: nat, o: nat, command: int, nodes': seq<Node>)
    requires Shaped(nodes) && |nodes| == 3 && {l, o} == {0, 1} && FreshLeader(nodes[l]) && !nodes[o].active
    requires FreshVoter(nodes[2]) && nodes' == Next(nodes, Command(l, command))
    ensures nodes'[l].log == [Entry(1, command)] && nodes'[l].commit == 1
    ensures nodes'[o] == nodes[o] && FreshVoter(nodes'[2])
  {
    var e := Entry(1, command);
    var x := nodes[l := Append(nodes[l], command)];
    assert l != o && l != 2;
    assert x[l].log == [e] && x[l].(log := []) == nodes[l];
    var y := SendAppend(x, l, |x|);
    SentAlone(x, l, o, e, y);
    SentCommits(y, l, o, e);
    assert nodes' == y[l := y[l].(commit := 1)];
  }

  lemma {:induction false} SentCommits(y: seq<Node>, l: nat, o: nat, e: Entry)
    requires Shaped(y) && |y| == 3 && {l, o} == {0, 1} && !y[o].active && y[2].active && y[l].matched[2] == 1
    requires y[l].log == [e] && e.term == y[l].term && y[l].commit == 0
    ensures CommitFrom(y, l, 1) == 1
  {
    assert MatchCount(y, l, 1, 0) == 0;
    assert MatchCount(y, l, 1, 1) == 0;
    assert MatchCount(y, l, 1, 2) == 0;
    assert MatchCount(y, l, 1, 3) == 1;
  }

  lemma {:induction false} TwoFreshLeaders() returns (steps: seq<Step>, v: seq<Node>)
    ensures v == Exec(3, steps).nodes && |v| == 3 && FreshLeader(v[0]) && FreshLeader(v[1]) && FreshVoter(v[2])
  {
    steps := RaftVotes.ForgottenVoteElectsTwo();
    v := Exec(3, steps).nodes;
  }

  // Leader l commits a command after the other leader has been isolated.
  lemma {:induction false} IsolateAndCommit(xs: seq<Step>, v: seq<Node>, l: nat, o: nat, command: int)
    returns (ys: seq<Step>, v': seq<Node>)
    requires v == Exec(3, xs).nodes && |v| == 3 && {l, o} == {0, 1} && FreshLeader(v[l]) && FreshVoter(v[2])
    ensures v' == Exec(3, ys).nodes && |v'| == 3 && v'[l].log == [Entry(1, command)] && v'[l].commit == 1
    ensures v'[o] == v[o].(active := false) && FreshVoter(v'[2])
  {
    var mid := Next(v, Isolate(o));
    assert l != o && mid == v[o := v[o].(active := false)];
    var zs := RaftVotes.Extend(3, xs, v, Isolate(o), mid);
    v' := Next(mid, Command(l, command));
    CommitsAlone(mid, l, o, command, v');
    ys := RaftVotes.Extend(3, zs, mid, Command(l, command), v');
  }

  // After the run of RaftVotes.ForgottenVoteElectsTwo each of the two leaders can
  // commit an entry of its own: two nodes have committed different first entries.
  lemma {:induction false} ForgottenVoteCommitsTwo() returns (steps: seq<Step>)
    ensures var a, b := Exec(3, steps).nodes[0], Exec(3, steps).nodes[1];
            a.commit == b.commit == |a.log| == |b.log| == 1 && a.log != b.log
  {
    var xs, v := TwoFreshLeaders();
    var ys, v1 := IsolateAndCommit(xs, v, 0, 1, 7);
    var v2;
    steps, v2 := IsolateAndCommit(ys, v1, 1, 0, 9);
    assert v2[0].log[0] == Entry(1, 7) && v2[1].log[0] == Entry(1, 9);
  }
}
