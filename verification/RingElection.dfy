/**
 * Leader election on a ring: every initiator sends a token around, a node
 * replaces a weaker token by its own, and the node that sees its own priority
 * come back announces itself once around the ring.
 */
module RingElection {
  import opened MessageQueue

  const MAX_MSG := 64

  datatype Node = Node(priority: int, active: bool, leader: bool, leaderId: int)

  datatype Message =
    | Election(candidate: int, priority: int, to: int)
    | Coordinator(candidate: int, priority: int, to: int)

  datatype Net = Net(nodes: seq<Node>, elected: int, inProgress: bool, queue: seq<Message>)

  // ---------- The ring ----------

  predicate IsNode(w: Net, i: int) { 0 <= i < |w.nodes| }

  function Next(n: nat, i: int): (r: int)
    requires 0 <= i < n
    ensures r == if i + 1 == n then 0 else i + 1
  {
    (i + 1) % n
  }

  // Hops from a to b.
  function Hops(n: nat, a: int, b: int): (d: int)
    requires 0 <= a < n && 0 <= b < n
    ensures 0 <= d < n && (d == 0 <==> a == b)
  {
    if a <= b then b - a else b - a + n
  }

  // A message that set out from `from` and is about to reach `to` has already been at j.
  predicate Passed(n: nat, from: int, to: int, j: int)
    requires 0 <= from < n && 0 <= to < n && 0 <= j < n
  {
    j != from && (to == from || Hops(n, from, j) < Hops(n, from, to))
  }

  lemma {:induction false} PassedOn(n: nat, from: int, to: int, j: int)
    requires 0 <= from < n && 0 <= to < n && 0 <= j < n && to != from
    ensures Passed(n, from, Next(n, to), j) <==> Passed(n, from, to, j) || j == to
  {
  }

  lemma {:induction false} PassedNone(n: nat, from: int, j: int)
    requires 0 <= from < n && 0 <= j < n
    ensures !Passed(n, from, Next(n, from), j)
  {
  }

  // ---------- The handlers ----------

  function Post(w: Net, m: Message): Net { w.(queue := Send(w.queue, m, MAX_MSG - 1)) }

  // Any node may start an election, active or not; an identifier off the ring sends nothing.
  function Start(w: Net, i: int): Net {
    var w' := w.(inProgress := true);
    if IsNode(w, i) then Post(w', Election(i, w.nodes[i].priority, Next(|w.nodes|, i))) else w'
  }

  function Handle(w: Net, m: Message): Net
    requires IsNode(w, m.to)
  {
    var i, next := m.to, Next(|w.nodes|, m.to);
    var node := w.nodes[i];
    if m.Coordinator? then
      if i == m.candidate then w else
      Post(w.(nodes := w.nodes[i := node.(leaderId := m.candidate, leader := false)], elected := m.candidate),
           m.(to := next))
    else if !node.active || m.priority > node.priority then
      Post(w, m.(to := next))
    else if m.priority < node.priority then
      Post(w, Election(i, node.priority, next))
    else
      Post(w.(nodes := w.nodes[i := node.(leader := true, leaderId := i)], elected := i, inProgress := false),
           Coordinator(i, node.priority, next))
  }

  // Deliver the oldest message.
  function Deliver(w: Net): Net
    requires w.queue != [] && IsNode(w, w.queue[0].to)
  {
    Handle(w.(queue := w.queue[1..]), w.queue[0])
  }

  // ---------- Who should win ----------

  // An active node that no other active node equals or exceeds.
  ghost predicate Best(w: Net, b: int) {
    IsNode(w, b) && w.nodes[b].active &&
    forall j :: 0 <= j < |w.nodes| && j != b && w.nodes[j].active ==> w.nodes[j].priority < w.nodes[b].priority
  }

  ghost predicate Distinct(w: Net) {
    forall i, j :: 0 <= i < j < |w.nodes| && w.nodes[i].active && w.nodes[j].active ==>
                     w.nodes[i].priority != w.nodes[j].priority
  }

  // With distinct priorities, a ring with an active node has a best one.
  lemma {:induction false} BestExists(w: Net, a: int) returns (b: int)
    requires Distinct(w) && IsNode(w, a) && w.nodes[a].active
    ensures Best(w, b)
  {
    b := a;
    var i := 0;
    while i < |w.nodes|
      invariant 0 <= i <= |w.nodes| && IsNode(w, b) && w.nodes[b].active
      invariant forall j :: 0 <= j < i && j != b && w.nodes[j].active ==> w.nodes[j].priority < w.nodes[b].priority
    {
      if w.nodes[i].active && w.nodes[i].priority > w.nodes[b].priority {
        b := i;
      }
      i := i + 1;
    }
  }

  // The first active node to see i's token with at least i's priority is j: every
  // active node between them is weaker.
  ghost predicate Catches(w: Net, i: int, j: int) {
    && IsNode(w, i) && IsNode(w, j) && w.nodes[j].active && w.nodes[j].priority >= w.nodes[i].priority
    && WeakerUpTo(w, i, j)
  }

  ghost predicate WeakerUpTo(w: Net, i: int, to: int)
    requires IsNode(w, i) && IsNode(w, to)
  {
    forall k :: 0 <= k < |w.nodes| && Passed(|w.nodes|, i, to, k) && w.nodes[k].active ==>
                  w.nodes[k].priority < w.nodes[i].priority
  }

  // That node, found by walking the ring once from i's successor to i, or -1.
  function Catcher(w: Net, i: int): (j: int)
    requires IsNode(w, i)
    ensures j == -1 || Catches(w, i, j)
    ensures j == -1 ==>
              forall k :: 0 <= k < |w.nodes| && w.nodes[k].active ==> w.nodes[k].priority < w.nodes[i].priority
  {
    FreshPassed(w, i);
    CatcherFrom(w, i, Next(|w.nodes|, i))
  }

  function CatcherFrom(w: Net, i: int, to: int): (j: int)
    requires IsNode(w, i) && IsNode(w, to) && WeakerUpTo(w, i, to)
    ensures j == -1 || Catches(w, i, j)
    ensures j == -1 ==>
              forall k :: 0 <= k < |w.nodes| && w.nodes[k].active ==> w.nodes[k].priority < w.nodes[i].priority
    decreases Hops(|w.nodes|, to, i)
  {
    if w.nodes[to].active && w.nodes[to].priority >= w.nodes[i].priority then to
    else if to == i then
      assert forall k :: 0 <= k < |w.nodes| && k != i ==> Passed(|w.nodes|, i, to, k);
      -1
    else
      WeakerOn(w, i, to);
      CatcherFrom(w, i, Next(|w.nodes|, to))
  }

  lemma {:induction false} FreshPassed(w: Net, i: int)
    requires IsNode(w, i)
    ensures WeakerUpTo(w, i, Next(|w.nodes|, i))
  {
    forall k | 0 <= k < |w.nodes| ensures !Passed(|w.nodes|, i, Next(|w.nodes|, i), k) {
      PassedNone(|w.nodes|, i, k);
    }
  }

  lemma {:induction false} WeakerOn(w: Net, i: int, to: int)
    requires IsNode(w, i) && IsNode(w, to) && to != i && WeakerUpTo(w, i, to)
    requires w.nodes[to].active ==> w.nodes[to].priority < w.nodes[i].priority
    ensures WeakerUpTo(w, i, Next(|w.nodes|, to))
  {
    forall k | 0 <= k < |w.nodes| && Passed(|w.nodes|, i, Next(|w.nodes|, to), k) && w.nodes[k].active
      ensures w.nodes[k].priority < w.nodes[i].priority
    {
      PassedOn(|w.nodes|, i, to, k);
    }
  }

  lemma {:induction false} OneCatcher(w: Net, i: int, j: int, j': int)
    requires Catches(w, i, j) && Catches(w, i, j')
    ensures j == j'
  {
    assert !Passed(|w.nodes|, i, j, j') && !Passed(|w.nodes|, i, j', j);
  }

  // Whether an election started at i elects the best node, decided before the call.
  ghost predicate Sound(w: Net, i: int) {
    && IsNode(w, i)
    && var j := Catcher(w, i);
       j >= 0 && (w.nodes[j].priority > w.nodes[i].priority || Best(w, j))
  }

  // Every active initiator is sound.
  lemma {:induction false} ActiveIsSound(w: Net, i: int)
    requires Distinct(w) && IsNode(w, i) && w.nodes[i].active
    ensures Sound(w, i)
  {
    var j, n := Catcher(w, i), |w.nodes|;
    if w.nodes[j].priority == w.nodes[i].priority {
      assert j == i;
      assert forall k :: 0 <= k < n && k != i ==> Passed(n, i, i, k);
    }
  }

  predicate Follows(w: Net, b: int, j: int)
    requires IsNode(w, j)
  {
    w.nodes[j].leaderId == b && w.nodes[j].leader == (j == b)
  }

  // The election is over: everybody follows b.
  ghost predicate Done(w: Net, b: int) {
    w.elected == b && forall j :: 0 <= j < |w.nodes| ==> Follows(w, b, j)
  }

  // ---------- The invariant ----------

  // Whoever first stops a token of candidate c either replaces it or is b.
  ghost predicate EndsWell(w: Net, b: int, c: int)
    requires IsNode(w, b) && IsNode(w, c)
  {
    && w.nodes[c].priority <= w.nodes[b].priority
    && forall j :: 0 <= j < |w.nodes| && Catches(w, c, j) ==> j == b || w.nodes[j].priority > w.nodes[c].priority
  }

  // A token has only been at inactive or weaker nodes since its candidate sent
  // it; an announcement names b and everybody it has been at follows b.
  ghost predicate MessageOk(w: Net, b: int, m: Message) {
    && IsNode(w, b) && IsNode(w, m.candidate) && IsNode(w, m.to)
    && if m.Election? then
         && m.priority == w.nodes[m.candidate].priority && EndsWell(w, b, m.candidate)
         && WeakerUpTo(w, m.candidate, m.to)
       else
         && m.candidate == b == w.elected
         && Follows(w, b, b)
         && forall j :: 0 <= j < |w.nodes| && Passed(|w.nodes|, b, m.to, j) ==> Follows(w, b, j)
  }

  ghost predicate Inv(w: Net, b: int) {
    Best(w, b) && Distinct(w) && |w.queue| < MAX_MSG && forall k :: 0 <= k < |w.queue| ==> MessageOk(w, b, w.queue[k])
  }

  // Something is on its way, or the election is over.
  ghost predicate Progress(w: Net, b: int) { w.queue != [] || Done(w, b) }

  // Only b has become leader between two states.
  ghost predicate OnlyBest(w: Net, w': Net, b: int) {
    && |w'.nodes| == |w.nodes|
    && (w'.elected == w.elected || w'.elected == b)
    && forall j :: 0 <= j < |w.nodes| ==>
                     && w'.nodes[j].priority == w.nodes[j].priority && w'.nodes[j].active == w.nodes[j].active
                     && (w'.nodes[j].leader ==> w.nodes[j].leader || j == b)
                     && (w'.nodes[j].leaderId == w.nodes[j].leaderId || w'.nodes[j].leaderId == b)
  }

  // A step only moves nodes towards following b, so messages in flight stay good.
  ghost predicate Nearer(w: Net, w': Net, b: int) {
    && OnlyBest(w, w', b)
    && forall j :: 0 <= j < |w.nodes| && Follows(w, b, j) ==> Follows(w', b, j)
  }

  lemma {:induction false} SameCatches(w: Net, w': Net, b: int, i: int, j: int)
    requires OnlyBest(w, w', b) && IsNode(w, i) && IsNode(w, j)
    ensures WeakerUpTo(w, i, j) <==> WeakerUpTo(w', i, j)
    ensures Catches(w, i, j) <==> Catches(w', i, j)
  {
  }

  lemma {:induction false} StaysOk(w: Net, w': Net, b: int, m: Message)
    requires Nearer(w, w', b) && MessageOk(w, b, m)
    ensures MessageOk(w', b, m)
  {
    if m.Election? {
      SameCatches(w, w', b, m.candidate, m.to);
      forall j | 0 <= j < |w.nodes| && Catches(w', m.candidate, j)
        ensures j == b || w'.nodes[j].priority > w'.nodes[m.candidate].priority
      {
        SameCatches(w, w', b, m.candidate, j);
      }
    }
  }

  lemma {:induction false} ForwardOk(w: Net, b: int, m: Message)
    requires Best(w, b) && MessageOk(w, b, m) && m.Election?
    requires !w.nodes[m.to].active || m.priority > w.nodes[m.to].priority
    ensures m.to != b && MessageOk(w, b, m.(to := Next(|w.nodes|, m.to)))
  {
    assert WeakerUpTo(w, m.candidate, m.to) && w.nodes[b].priority >= m.priority;
    assert m.to != m.candidate by { assert b != m.to && !Passed(|w.nodes|, m.candidate, m.to, b); }
    WeakerOn(w, m.candidate, m.to);
  }

  // The token of a sound initiator is good.
  lemma {:induction false} FreshOk(w: Net, b: int, i: int)
    requires Best(w, b) && Distinct(w) && Sound(w, i)
    ensures MessageOk(w, b, Election(i, w.nodes[i].priority, Next(|w.nodes|, i)))
  {
    FreshPassed(w, i);
    var j := Catcher(w, i);
    forall k | 0 <= k < |w.nodes| && Catches(w, i, k) ensures k == b || w.nodes[k].priority > w.nodes[i].priority {
      OneCatcher(w, i, j, k);
    }
  }

  lemma {:induction false} AnnounceOk(w: Net, b: int, to: int, p: int)
    requires IsNode(w, b) && w.elected == b && Follows(w, b, b) && IsNode(w, to)
    requires to == b || Follows(w, b, to)
    requires to != b ==> forall j :: 0 <= j < |w.nodes| && Passed(|w.nodes|, b, to, j) ==> Follows(w, b, j)
    ensures MessageOk(w, b, Coordinator(b, p, Next(|w.nodes|, to)))
  {
    forall j | 0 <= j < |w.nodes| && Passed(|w.nodes|, b, Next(|w.nodes|, to), j)
      ensures Follows(w, b, j)
    {
      if to == b {
        PassedNone(|w.nodes|, b, j);
      } else {
        PassedOn(|w.nodes|, b, to, j);
      }
    }
  }

  // What handling a message does: it moves nodes towards b, sends at most one
  // message, a good and closer one, and sends none only when all follow b.
  ghost predicate GoodStep(w: Net, w': Net, b: int, m: Message)
    requires IsNode(w, b) && IsNode(w, m.to)
  {
    && Nearer(w, w', b)
    && ((w'.queue == w.queue && Done(w', b)) || exists m' :: GoodReply(w, w', b, m, m'))
  }

  ghost predicate GoodReply(w: Net, w': Net, b: int, m: Message, m': Message)
    requires IsNode(w, b) && IsNode(w, m.to)
  {
    w'.queue == w.queue + [m'] && MessageOk(w', b, m') && IsNode(w, m'.to) &&
    Rank(|w.nodes|, b, m') < Rank(|w.nodes|, b, m)
  }

  lemma {:induction false} CoordinatorEffect(w: Net, b: int, m: Message)
    requires MessageOk(w, b, m) && m.Coordinator? && |w.queue| < MAX_MSG - 1
    ensures GoodStep(w, Handle(w, m), b, m)
  {
    var w', n := Handle(w, m), |w.nodes|;
    if m.to == b {
      assert forall j :: 0 <= j < n && j != b ==> Passed(n, b, m.to, j);
      assert Done(w', b);
    } else {
      AnnounceOk(w', b, m.to, m.priority);
      assert GoodReply(w, w', b, m, m.(to := Next(n, m.to)));
    }
  }

  // A token that is passed on, replaced, or answered by the announcement of b.
  lemma {:induction false} ForwardEffect(w: Net, b: int, m: Message, w': Net)
    requires Best(w, b) && MessageOk(w, b, m) && m.Election? && |w.queue| < MAX_MSG - 1 && w' == Handle(w, m)
    requires !w.nodes[m.to].active || m.priority > w.nodes[m.to].priority
    ensures GoodStep(w, w', b, m)
  {
    var m' := m.(to := Next(|w.nodes|, m.to));
    ForwardOk(w, b, m);
    StaysOk(w, w', b, m');
    assert GoodReply(w, w', b, m, m');
  }

  lemma {:induction false} ReplaceEffect(w: Net, b: int, m: Message, w': Net)
    requires Best(w, b) && Distinct(w) && MessageOk(w, b, m) && m.Election?
    requires |w.queue| < MAX_MSG - 1 && w' == Handle(w, m)
    requires w.nodes[m.to].active && m.priority < w.nodes[m.to].priority
    ensures GoodStep(w, w', b, m)
  {
    var m' := Election(m.to, w.nodes[m.to].priority, Next(|w.nodes|, m.to));
    ActiveIsSound(w, m.to);
    FreshOk(w, b, m.to);
    StaysOk(w, w', b, m');
    assert GoodReply(w, w', b, m, m');
  }

  lemma {:induction false} DeclareEffect(w: Net, b: int, m: Message, w': Net)
    requires Best(w, b) && MessageOk(w, b, m) && m.Election? && |w.queue| < MAX_MSG - 1 && w' == Handle(w, m)
    requires w.nodes[m.to].active && m.priority == w.nodes[m.to].priority
    ensures GoodStep(w, w', b, m)
  {
    assert Catches(w, m.candidate, m.to) && m.to == b;
    AnnounceOk(w', b, b, m.priority);
    assert GoodReply(w, w', b, m, Coordinator(b, m.priority, Next(|w.nodes|, b)));
  }

  lemma {:induction false} TokenEffect(w: Net, b: int, m: Message, w': Net)
    requires Best(w, b) && Distinct(w) && MessageOk(w, b, m) && m.Election?
    requires |w.queue| < MAX_MSG - 1 && w' == Handle(w, m)
    ensures GoodStep(w, w', b, m)
  {
    if !w.nodes[m.to].active || m.priority > w.nodes[m.to].priority {
      ForwardEffect(w, b, m, w');
    } else if m.priority < w.nodes[m.to].priority {
      ReplaceEffect(w, b, m, w');
    } else {
      DeclareEffect(w, b, m, w');
    }
  }

  // ---------- Termination ----------

  // Hops a message may still cause on a ring of n nodes, those of its
  // replacements included.
  ghost function Rank(n: nat, b: int, m: Message): nat
    requires 0 <= b < n && 0 <= m.to < n
  {
    if m.Coordinator? then 1 + Hops(n, m.to, b)
    else if m.candidate == b then n + 1 + Hops(n, m.to, b)
    else 2 * n + 1 + Hops(n, m.to, b)
  }

  ghost predicate Routed(n: nat, q: seq<Message>) { forall k :: 0 <= k < |q| ==> 0 <= q[k].to < n }

  ghost function RankSum(n: nat, b: int, q: seq<Message>): nat
    requires 0 <= b < n && Routed(n, q)
  {
    if q == [] then 0 else RankSum(n, b, q[..|q| - 1]) + Rank(n, b, q[|q| - 1])
  }

  lemma {:induction false} RankSumHead(n: nat, b: int, q: seq<Message>)
    requires 0 <= b < n && q != [] && Routed(n, q)
    ensures RankSum(n, b, q) == Rank(n, b, q[0]) + RankSum(n, b, q[1..])
  {
    if |q| > 1 {
      RankSumHead(n, b, q[..|q| - 1]);
      assert q[1..][..|q[1..]| - 1] == q[..|q| - 1][1..];
    }
  }

  lemma {:induction false} RankSumSnoc(n: nat, b: int, q: seq<Message>, m: Message)
    requires 0 <= b < n && Routed(n, q) && 0 <= m.to < n
    ensures RankSum(n, b, q + [m]) == RankSum(n, b, q) + Rank(n, b, m)
  {
    assert (q + [m])[..|q|] == q;
  }

  // ---------- Every step keeps the invariant ----------

  lemma {:induction false} StartKeeps(w: Net, b: int, i: int)
    requires Inv(w, b) && Sound(w, i)
    ensures Inv(Start(w, i), b) && Progress(Start(w, i), b) && Nearer(w, Start(w, i), b)
  {
    var w' := Start(w, i);
    FreshOk(w, b, i);
    forall k | 0 <= k < |w'.queue| ensures MessageOk(w', b, w'.queue[k]) {
      StaysOk(w, w', b, w'.queue[k]);
    }
  }

  lemma {:induction false} NearerKeeps(w: Net, w': Net, b: int, q: seq<Message>)
    requires Best(w, b) && Distinct(w) && Nearer(w, w', b)
    requires forall k :: 0 <= k < |q| ==> MessageOk(w, b, q[k])
    ensures Best(w', b) && Distinct(w')
    ensures forall k :: 0 <= k < |q| ==> MessageOk(w', b, q[k])
  {
    forall k | 0 <= k < |q| ensures MessageOk(w', b, q[k]) {
      StaysOk(w, w', b, q[k]);
    }
  }

  // What delivering the head of the queue did.
  lemma {:induction false} HeadEffect(w: Net, b: int, rest: Net, w': Net)
    requires Inv(w, b) && w.queue != [] && rest == w.(queue := w.queue[1..]) && w' == Deliver(w)
    ensures GoodStep(rest, w', b, w.queue[0]) && Nearer(w, w', b)
  {
    var m := w.queue[0];
    assert MessageOk(w, b, m);
    StaysOk(w, rest, b, m);
    if m.Coordinator? { CoordinatorEffect(rest, b, m); } else { TokenEffect(rest, b, m, w'); }
  }

  // A queue without its head and with at most one good and closer reply.
  lemma {:induction false} ReplyQueue(w: Net, b: int, q: seq<Message>, m: Message, m': Message)
    requires IsNode(w, b) && IsNode(w, m.to) && MessageOk(w, b, m')
    requires Rank(|w.nodes|, b, m') < Rank(|w.nodes|, b, m)
    requires forall k :: 0 <= k < |q| ==> MessageOk(w, b, q[k])
    ensures forall k :: 0 <= k < |q + [m']| ==> MessageOk(w, b, (q + [m'])[k])
    ensures Routed(|w.nodes|, q) && Routed(|w.nodes|, q + [m'])
    ensures RankSum(|w.nodes|, b, q + [m']) < Rank(|w.nodes|, b, m) + RankSum(|w.nodes|, b, q)
  {
    assert forall k :: 0 <= k < |q| ==> MessageOk(w, b, q[k]) && 0 <= q[k].to < |w.nodes|;
    RankSumSnoc(|w.nodes|, b, q, m');
  }

  lemma {:induction false} QueueRouted(w: Net, b: int)
    requires Inv(w, b)
    ensures Routed(|w.nodes|, w.queue)
  {
    forall k | 0 <= k < |w.queue| ensures 0 <= w.queue[k].to < |w.nodes| {
      assert MessageOk(w, b, w.queue[k]);
    }
  }

  lemma {:induction false} DeliverKeeps(w: Net, b: int)
    requires Inv(w, b) && w.queue != []
    ensures Inv(Deliver(w), b) && Progress(Deliver(w), b) && Nearer(w, Deliver(w), b)
    ensures Routed(|w.nodes|, w.queue) && Routed(|w.nodes|, Deliver(w).queue)
    ensures RankSum(|w.nodes|, b, Deliver(w).queue) < RankSum(|w.nodes|, b, w.queue)
  {
    QueueRouted(w, b);
    DeliverStep(w, b, w.(queue := w.queue[1..]), Deliver(w));
  }

  lemma {:induction false} DeliverStep(w: Net, b: int, rest: Net, w': Net)
    requires Inv(w, b) && w.queue != [] && rest == w.(queue := w.queue[1..]) && w' == Deliver(w)
    requires Routed(|w.nodes|, w.queue)
    ensures Inv(w', b) && Progress(w', b) && Nearer(w, w', b) && Routed(|w.nodes|, w'.queue)
    ensures RankSum(|w.nodes|, b, w'.queue) < RankSum(|w.nodes|, b, w.queue)
  {
    var q, m, n := rest.queue, w.queue[0], |w.nodes|;
    HeadEffect(w, b, rest, w');
    NearerKeeps(w, w', b, q);
    RankSumHead(n, b, w.queue);
    if w'.queue != q {
      var m' :| GoodReply(rest, w', b, m, m');
      ReplyQueue(w', b, q, m, m');
    }
  }

  // ---------- Runs ----------

  datatype Event = Starts(node: int) | Delivers

  // With no message there is nothing to deliver.
  function Step(w: Net, e: Event): Net {
    if e.Starts? then Start(w, e.node)
    else if w.queue != [] && IsNode(w, w.queue[0].to) then Deliver(w) else w
  }

  function Exec(w: Net, es: seq<Event>): Net {
    if es == [] then w else Step(Exec(w, es[..|es| - 1]), es[|es| - 1])
  }

  // Before any election: any flags left over from earlier, and no message.
  ghost predicate Initial(w: Net) { Distinct(w) && w.queue == [] }

  // Every initiator on the ring is sound; active ones always are.
  ghost predicate SoundStarts(w: Net, es: seq<Event>) {
    forall k :: 0 <= k < |es| && StartsAt(w, es[k]) ==> Sound(w, es[k].node)
  }

  lemma {:induction false} StaysSound(w: Net, v: Net, b: int, i: int)
    requires OnlyBest(w, v, b) && Sound(w, i)
    ensures Sound(v, i)
  {
    var j, j' := Catcher(w, i), Catcher(v, i);
    SameCatches(w, v, b, i, j);
    if j' >= 0 {
      OneCatcher(v, i, j, j');
    }
  }

  lemma {:induction false} StepKeeps(w: Net, v: Net, b: int, e: Event, v': Net)
    requires Inv(v, b) && OnlyBest(w, v, b) && v' == Step(v, e)
    requires StartsAt(w, e) ==> Sound(w, e.node)
    ensures Inv(v', b) && OnlyBest(w, v', b)
    ensures Progress(v, b) || StartsAt(w, e) ==> Progress(v', b)
  {
    if e.Starts? {
      if IsNode(w, e.node) {
        StaysSound(w, v, b, e.node);
        StartKeeps(v, b, e.node);
      } else {
        NearerKeeps(v, v', b, v.queue);
      }
    } else if v.queue != [] {
      DeliverKeeps(v, b);
    }
  }

  // On the way, nobody but the best active node is ever declared leader, and once
  // an election has started either a message is in flight or it is over.
  lemma {:induction false} NoOtherLeader(w: Net, b: int, es: seq<Event>, v: Net)
    requires Initial(w) && Best(w, b) && SoundStarts(w, es) && v == Exec(w, es)
    ensures Inv(v, b) && OnlyBest(w, v, b)
    ensures Started(w, es) ==> Progress(v, b)
    decreases |es|
  {
    if es != [] {
      var rest, e := es[..|es| - 1], es[|es| - 1];
      var u := Exec(w, rest);
      LastEvent(w, es, rest, e);
      NoOtherLeader(w, b, rest, u);
      StepKeeps(w, u, b, e, v);
    }
  }

  // Some node on the ring has started an election.
  ghost predicate Started(w: Net, es: seq<Event>) { exists k :: 0 <= k < |es| && StartsAt(w, es[k]) }

  predicate StartsAt(w: Net, e: Event) { e.Starts? && IsNode(w, e.node) }

  lemma {:induction false} LastEvent(w: Net, es: seq<Event>, rest: seq<Event>, e: Event)
    requires es != [] && rest == es[..|es| - 1] && e == es[|es| - 1]
    ensures Started(w, es) ==> Started(w, rest) || StartsAt(w, e)
    ensures SoundStarts(w, es) ==> SoundStarts(w, rest) && (StartsAt(w, e) ==> Sound(w, e.node))
  {
    if Started(w, es) {
      var k :| 0 <= k < |es| && StartsAt(w, es[k]);
      assert k < |rest| ==> StartsAt(w, rest[k]);
    }
  }

  // Deliver until the queue is empty; the rank bounds the number of deliveries.
  function Drain(w: Net, ghost b: int): Net
    requires Inv(w, b)
    decreases RankSum(|w.nodes|, b, w.queue)
  {
    if w.queue == [] then w else
    DeliverKeeps(w, b);
    Drain(Deliver(w), b)
  }

  lemma {:induction false} DrainElects(w: Net, b: int)
    requires Inv(w, b) && Progress(w, b)
    ensures Done(Drain(w, b), b) && Drain(w, b).queue == [] && OnlyBest(w, Drain(w, b), b)
    decreases RankSum(|w.nodes|, b, w.queue)
  {
    if w.queue != [] {
      DeliverKeeps(w, b);
      DrainElects(Deliver(w), b);
    }
  }

  // Total correctness: in any run with sound initiators, delivering the remaining
  // messages ends with every node following the active node of highest priority,
  // and only that node was ever declared leader.
  lemma {:induction false} RingElectionCorrect(w: Net, es: seq<Event>, k: nat) returns (b: int)
    requires Initial(w) && SoundStarts(w, es) && k < |es| && StartsAt(w, es[k])
    ensures Best(w, b) && Inv(Exec(w, es), b)
    ensures Done(Drain(Exec(w, es), b), b) && OnlyBest(w, Drain(Exec(w, es), b), b)
  {
    b := BestExists(w, Catcher(w, es[k].node));
    NoOtherLeader(w, b, es, Exec(w, es));
    DrainElects(Exec(w, es), b);
  }

  // ---------- Exactly when one election works ----------

  function Deliveries(k: nat): seq<Event> { seq(k, _ => Delivers) }

  // Delivering empties the queue.
  ghost predicate Drains(w: Net) { exists k: nat :: Exec(w, Deliveries(k)).queue == [] }

  // Delivering empties the queue with everybody following b.
  ghost predicate Elects(w: Net, b: int) {
    exists k: nat :: Exec(w, Deliveries(k)).queue == [] && Done(Exec(w, Deliveries(k)), b)
  }

  lemma {:induction false} DeliverFirst(w: Net, k: nat)
    ensures Exec(Step(w, Delivers), Deliveries(k)) == Exec(w, Deliveries(k + 1))
  {
    assert Deliveries(k + 1)[..k] == Deliveries(k);
    if k == 0 {
      assert Exec(w, Deliveries(0)) == w;
    } else {
      DeliverFirst(w, k - 1);
      assert Deliveries(k)[..k - 1] == Deliveries(k - 1);
    }
  }

  lemma {:induction false} ElectsFirst(w: Net, b: int)
    requires Elects(Step(w, Delivers), b)
    ensures Elects(w, b)
  {
    var k: nat :| Exec(Step(w, Delivers), Deliveries(k)).queue == [] && Done(Exec(Step(w, Delivers), Deliveries(k)), b);
    DeliverFirst(w, k);
  }

  // An empty queue stays empty, so at most one node is elected.
  lemma {:induction false} StaysEmpty(w: Net, k: nat, m: nat)
    requires k <= m && Exec(w, Deliveries(k)).queue == []
    ensures Exec(w, Deliveries(m)) == Exec(w, Deliveries(k))
  {
    if k < m {
      StaysEmpty(w, k, m - 1);
      assert Deliveries(m)[..m - 1] == Deliveries(m - 1);
    }
  }

  lemma {:induction false} ElectsOne(w: Net, a: int, b: int)
    requires Elects(w, a) && Elects(w, b)
    ensures a == b
  {
    var k: nat :| Exec(w, Deliveries(k)).queue == [] && Done(Exec(w, Deliveries(k)), a);
    var m: nat :| Exec(w, Deliveries(m)).queue == [] && Done(Exec(w, Deliveries(m)), b);
    if k <= m { StaysEmpty(w, k, m); } else { StaysEmpty(w, m, k); }
  }

  lemma {:induction false} DrainIsRun(w: Net, b: int)
    requires Inv(w, b) && Done(Drain(w, b), b)
    ensures Elects(w, b)
    decreases RankSum(|w.nodes|, b, w.queue)
  {
    if w.queue == [] {
      assert Exec(w, Deliveries(0)) == w;
    } else {
      DeliverKeeps(w, b);
      DrainIsRun(Deliver(w), b);
      ElectsFirst(w, b);
    }
  }

  // An announcement on its own goes round and elects its candidate.
  lemma {:induction false} AnnouncementElects(w: Net, j: int, m: Message)
    requires w.queue == [m] && m.Coordinator? && MessageOk(w, j, m)
    ensures Elects(w, j)
    decreases Hops(|w.nodes|, m.to, j)
  {
    var rest, w' := w.(queue := []), Deliver(w);
    assert w.queue[1..] == [] && Step(w, Delivers) == w' == Handle(rest, m);
    assert MessageOk(rest, j, m);
    CoordinatorEffect(rest, j, m);
    if w'.queue == [] {
      assert Exec(w', Deliveries(0)) == w';
    } else {
      var m' :| GoodReply(rest, w', j, m, m');
      assert w'.queue == [m'] && m'.Coordinator?;
      AnnouncementElects(w', j, m');
    }
    ElectsFirst(w, j);
  }

  // A token on its own that reaches an equal before anybody stronger elects that node.
  lemma {:induction false} EqualElects(w: Net, m: Message, j: int)
    requires w.queue == [m] && m.Election? && IsNode(w, m.candidate) && IsNode(w, m.to)
    requires Catches(w, m.candidate, j) && m.priority == w.nodes[m.candidate].priority == w.nodes[j].priority
    requires WeakerUpTo(w, m.candidate, m.to) && !Passed(|w.nodes|, m.candidate, m.to, j)
    ensures Elects(w, j)
    decreases Hops(|w.nodes|, m.to, j)
  {
    var n, w' := |w.nodes|, Deliver(w);
    assert w.queue[1..] == [] && Step(w, Delivers) == w';
    if m.to == j {
      var m' := Coordinator(j, m.priority, Next(n, j));
      assert w'.queue == [m'];
      AnnounceOk(w', j, j, m.priority);
      AnnouncementElects(w', j, m');
    } else {
      NotYet(n, m.candidate, m.to, j);
      var m' := m.(to := Next(n, m.to));
      assert w' == w.(queue := [m']);
      WeakerOn(w, m.candidate, m.to);
      SameCatches(w, w', j, m.candidate, j);
      SameCatches(w, w', j, m.candidate, m'.to);
      PassedOn(n, m.candidate, m.to, j);
      EqualElects(w', m', j);
    }
    ElectsFirst(w, j);
  }

  // A message that has not been at j yet passes m.to on its way there.
  lemma {:induction false} NotYet(n: nat, from: int, to: int, j: int)
    requires 0 <= from < n && 0 <= to < n && 0 <= j < n && to != j && !Passed(n, from, to, j)
    ensures to != from && Passed(n, from, j, to) && Hops(n, Next(n, to), j) < Hops(n, to, j)
  {
  }

  // A token stronger than every active node.
  ghost predicate Orphan(w: Net, m: Message) {
    && IsNode(w, m.to) && m.Election?
    && forall j :: 0 <= j < |w.nodes| && w.nodes[j].active ==> w.nodes[j].priority < m.priority
  }

  // Such a token is never absorbed: no number of deliveries empties the queue.
  lemma {:induction false} OrphanRunsForever(w: Net, m: Message, k: nat)
    requires w.queue == [m] && Orphan(w, m)
    ensures exists m' :: Exec(w, Deliveries(k)) == w.(queue := [m']) && Orphan(w, m')
  {
    if k == 0 {
      assert Exec(w, Deliveries(0)) == w.(queue := [m]);
    } else {
      OrphanRunsForever(w, m, k - 1);
      var m' :| Exec(w, Deliveries(k - 1)) == w.(queue := [m']) && Orphan(w, m');
      assert Deliveries(k)[..k - 1] == Deliveries(k - 1);
      var v := w.(queue := [m']);
      assert v.queue[1..] == [];
      assert Deliver(v) == w.(queue := [m'.(to := Next(|w.nodes|, m'.to))]);
      assert Orphan(w, m'.(to := Next(|w.nodes|, m'.to)));
    }
  }

  lemma {:induction false} UncaughtNeverDrains(w: Net, i: int)
    requires w.queue == [] && IsNode(w, i) && Catcher(w, i) < 0
    ensures !Drains(Start(w, i))
  {
    var v := Start(w, i);
    forall k: nat ensures Exec(v, Deliveries(k)).queue != [] {
      OrphanRunsForever(v, v.queue[0], k);
    }
  }

  lemma {:induction false} EqualCatcherWins(w: Net, i: int)
    requires w.queue == [] && IsNode(w, i) && Catcher(w, i) >= 0
    requires w.nodes[Catcher(w, i)].priority == w.nodes[i].priority
    ensures Elects(Start(w, i), Catcher(w, i))
  {
    var v, j := Start(w, i), Catcher(w, i);
    FreshPassed(w, i);
    PassedNone(|w.nodes|, i, j);
    SameCatches(w, v, j, i, j);
    SameCatches(w, v, j, i, Next(|w.nodes|, i));
    EqualElects(v, v.queue[0], j);
  }

  lemma {:induction false} SoundElects(w: Net, i: int, b: int)
    requires Initial(w) && Best(w, b) && Sound(w, i)
    ensures Elects(Start(w, i), b)
  {
    StartKeeps(w, b, i);
    DrainElects(Start(w, i), b);
    DrainIsRun(Start(w, i), b);
  }

  // One election, started at any node: it ends if and only if some active node has
  // at least the initiator's priority, and it elects the best node if and only if
  // the first such node is stronger than the initiator or is the best node itself.
  lemma {:induction false} OneElectionExactly(w: Net, i: int, b: int)
    requires Initial(w) && Best(w, b) && IsNode(w, i)
    ensures Drains(Start(w, i)) <==> Catcher(w, i) >= 0
    ensures Elects(Start(w, i), b) <==> Sound(w, i)
  {
    var j := Catcher(w, i);
    if j < 0 {
      UncaughtNeverDrains(w, i);
    } else if Sound(w, i) {
      SoundElects(w, i, b);
    } else {
      EqualCatcherWins(w, i);
      if Elects(Start(w, i), b) {
        ElectsOne(Start(w, i), b, j);
      }
    }
  }

  // Two inputs on which an inactive initiator breaks the election: one that never
  // ends, and one that elects node 1 although node 2 is the best.
  lemma {:induction false} InactiveInitiatorNeverEnds() returns (w: Net)
    ensures Initial(w) && Best(w, 1) && !Drains(Start(w, 0))
  {
    w := Net([Node(9, false, false, -1), Node(5, true, false, -1)], -1, false, []);
    OneElectionExactly(w, 0, 1);
  }

  lemma {:induction false} InactiveInitiatorElectsWrongly() returns (w: Net)
    ensures Initial(w) && Best(w, 2) && Elects(Start(w, 0), 1) && !Elects(Start(w, 0), 2)
  {
    w := Net([Node(5, false, false, -1), Node(5, true, false, -1), Node(9, true, false, -1)], -1, false, []);
    assert Catches(w, 0, 1);
    OneCatcher(w, 0, 1, Catcher(w, 0));
    EqualCatcherWins(w, 0);
    OneElectionExactly(w, 0, 2);
  }

  // ---------- The network ----------

  class RingNetwork {
    var nodes: seq<Node>
    var order: seq<int>
    var elected: int
    var inProgress: bool
    const queue: Queue<Message>

    ghost predicate Valid()
      reads this, queue
    {
      && queue.Valid() && queue.slots.Length == MAX_MSG
      && |order| == |nodes| && forall i :: 0 <= i < |order| ==> order[i] == i
    }

    ghost function View(): Net
      requires Valid()
      reads this, queue, queue.slots
    {
      Net(nodes, elected, inProgress, queue.Contents())
    }

    constructor (priorities: seq<int>)
      ensures Valid() && fresh(queue) && fresh(queue.slots) && |nodes| == |priorities|
      ensures forall i :: 0 <= i < |nodes| ==> nodes[i] == Node(priorities[i], true, false, -1)
      ensures View().queue == [] && elected == -1 && !inProgress
    {
      nodes := seq(|priorities|, i requires 0 <= i < |priorities| => Node(priorities[i], true, false, -1));
      order := seq(|priorities|, i => i);
      elected, inProgress := -1, false;
      queue := new Queue<Message>(MAX_MSG);
    }

    method NextRingNode(i: int) returns (r: int)
      requires Valid()
      ensures 0 <= i < |nodes| ==> r == Next(|nodes|, i)
      ensures !(0 <= i < |nodes|) ==> r == -1
    {
      var k := 0;
      while k < |order|
        invariant 0 <= k <= |order| && !(0 <= i < k)
      {
        if order[k] == i {
          return order[(k + 1) % |order|];
        }
        k := k + 1;
      }
      r := -1;
    }

    method StartElection(i: int)
      requires Valid()
      modifies this, queue, queue.slots
      ensures Valid() && View() == Start(old(View()), i)
    {
      inProgress := true;
      var next := NextRingNode(i);
      if next < 0 {
        return;
      }
      queue.Enqueue(Election(i, nodes[i].priority, next));
    }

    method HandleElection(m: Message)
      requires Valid() && m.Election? && 0 <= m.to < |nodes|
      modifies this, queue, queue.slots
      ensures Valid() && View() == Handle(old(View()), m)
    {
      var node := nodes[m.to];
      var next := NextRingNode(m.to);
      if !node.active || m.priority > node.priority {
        queue.Enqueue(m.(to := next));
      } else if m.priority < node.priority {
        queue.Enqueue(Election(m.to, node.priority, next));
      } else {
        nodes := nodes[m.to := node.(leader := true, leaderId := m.to)];
        elected, inProgress := m.to, false;
        queue.Enqueue(Coordinator(m.to, node.priority, next));
      }
    }

    method HandleCoordinator(m: Message)
      requires Valid() && m.Coordinator? && 0 <= m.to < |nodes|
      modifies this, queue, queue.slots
      ensures Valid() && View() == Handle(old(View()), m)
    {
      if m.to == m.candidate {
        return;
      }
      nodes := nodes[m.to := nodes[m.to].(leaderId := m.candidate, leader := false)];
      elected := m.candidate;
      var next := NextRingNode(m.to);
      queue.Enqueue(m.(to := next));
    }

    method ProcessOne() returns (ok: bool, ghost before: Net)
      requires Valid() && forall k :: 0 <= k < |View().queue| ==> IsNode(View(), View().queue[k].to)
      modifies this, queue, queue.slots
      ensures Valid() && before == old(View()) && ok == (before.queue != [])
      ensures View() == if ok then Deliver(before) else before
    {
      before := View();
      var m;
      ok, m := queue.Dequeue();
      if !ok {
        return;
      }
      assert m == before.queue[0] && View() == before.(queue := before.queue[1..]);
      if m.Election? { HandleElection(m); } else { HandleCoordinator(m); }
    }

    // The message loop terminates and elects the best active node everywhere.
    method ProcessMessages(ghost b: int)
      requires Valid() && Inv(View(), b)
      modifies this, queue, queue.slots
      ensures Valid() && View() == Drain(old(View()), b) && View().queue == []
      ensures OnlyBest(old(View()), View(), b)
      ensures old(Progress(View(), b)) ==> Done(View(), b)
    {
      ghost var w := View();
      ghost var v := w;
      var more := true;
      while more
        invariant Valid() && v == View() && Inv(v, b) && Drain(w, b) == Drain(v, b)
        invariant OnlyBest(w, v, b) && (Progress(w, b) ==> Progress(v, b))
        invariant !more ==> v.queue == []
        decreases RankSum(|v.nodes|, b, v.queue), more
      {
        ghost var before;
        more, before := ProcessOne();
        if more {
          DeliverKeeps(v, b);
        }
        v := View();
      }
    }
  }
}
