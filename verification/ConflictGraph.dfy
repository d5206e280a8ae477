/**
 * Cycle detection in the conflict graph of a schedule: the edges are packed into
 * an adjacency array by counting out-degrees and prefix sums, and a depth-first
 * search looks for an edge back to the stack.
 */
module ConflictGraph {

  type Id = nat

  datatype Edge = Edge(fromTxn: Id, toTxn: Id)

  // ---------- The conflict graph ----------

  // An edge leaving a listed transaction.
  ghost predicate Conflict(edges: seq<Edge>, txns: seq<Id>, a: Id, b: Id) {
    a in txns && Edge(a, b) in edges
  }

  ghost predicate Path(edges: seq<Edge>, txns: seq<Id>, p: seq<Id>) {
    forall k :: 0 <= k < |p| - 1 ==> Conflict(edges, txns, p[k], p[k + 1])
  }

  ghost predicate Cycle(edges: seq<Edge>, txns: seq<Id>, p: seq<Id>) {
    |p| >= 2 && p[0] == p[|p| - 1] && Path(edges, txns, p)
  }

  ghost predicate HasCycle(edges: seq<Edge>, txns: seq<Id>) { exists p :: Cycle(edges, txns, p) }

  // The edges of listed transactions lead to listed transactions.
  ghost predicate Closed(edges: seq<Edge>, txns: seq<Id>) {
    forall i :: 0 <= i < |edges| && edges[i].fromTxn in txns ==> edges[i].toTxn in txns
  }

  // The first position of a transaction in the list, or its length.
  function First(txns: seq<Id>, a: Id): (r: nat)
    ensures r <= |txns| && (r < |txns| <==> a in txns) && (r < |txns| ==> txns[r] == a)
    ensures forall k :: 0 <= k < r ==> txns[k] != a
  {
    FirstFrom(txns, a, 0)
  }

  function FirstFrom(txns: seq<Id>, a: Id, i: nat): (r: nat)
    requires i <= |txns| && forall k :: 0 <= k < i ==> txns[k] != a
    ensures r <= |txns| && (r < |txns| <==> a in txns) && (r < |txns| ==> txns[r] == a)
    ensures forall k :: 0 <= k < r ==> txns[k] != a
    decreases |txns| - i
  {
    if i == |txns| || txns[i] == a then i else FirstFrom(txns, a, i + 1)
  }

  // A serial order lists every position of txns once and respects every conflict.
  ghost predicate SerialOrder(edges: seq<Edge>, txns: seq<Id>, order: seq<nat>) {
    && |order| == |txns|
    && (forall i, j :: 0 <= i < j < |order| ==> order[i] != order[j])
    && (forall v :: 0 <= v < |txns| ==> v in order)
    && forall i, j, a, b :: 0 <= i < |order| && 0 <= j < |order| && Conflict(edges, txns, a, b) &&
                            order[i] == First(txns, a) && order[j] == First(txns, b) ==>
                              i < j
  }

  // A graph with a serial order has no cycle: positions grow along every path.
  lemma {:induction false} PathAscends(edges: seq<Edge>, txns: seq<Id>, order: seq<nat>, p: seq<Id>, i: nat, j: nat)
    requires SerialOrder(edges, txns, order) && Closed(edges, txns) && Path(edges, txns, p) && |p| >= 2
    requires i < |order| && j < |order| && order[i] == First(txns, p[0]) && order[j] == First(txns, p[|p| - 1])
    ensures i < j
  {
    if |p| > 2 {
      var q := p[..|p| - 1];
      assert Conflict(edges, txns, p[|p| - 2], p[|p| - 1]);
      assert First(txns, p[|p| - 2]) in order;
      var k :| 0 <= k < |order| && order[k] == First(txns, p[|p| - 2]);
      PathAscends(edges, txns, order, q, i, k);
    } else {
      assert Conflict(edges, txns, p[0], p[1]);
    }
  }

  lemma {:induction false} SerialMeansAcyclic(edges: seq<Edge>, txns: seq<Id>, order: seq<nat>)
    requires SerialOrder(edges, txns, order) && Closed(edges, txns)
    ensures !HasCycle(edges, txns)
  {
    if HasCycle(edges, txns) {
      var p :| Cycle(edges, txns, p);
      assert Conflict(edges, txns, p[0], p[1]);
      assert First(txns, p[0]) in order;
      var i :| 0 <= i < |order| && order[i] == First(txns, p[0]);
      PathAscends(edges, txns, order, p, i, i);
    }
  }

  // ---------- The packed graph ----------

  datatype Graph = Graph(adj: seq<nat>, offsets: seq<nat>, nodes: nat) {
    ghost predicate Valid() {
      && |offsets| == nodes + 1 && offsets[nodes] == |adj|
      && (forall v, w :: 0 <= v <= w <= nodes ==> offsets[v] <= offsets[w])
      && forall e :: 0 <= e < |adj| ==> adj[e] < nodes
    }

    ghost function Neighbours(v: nat): seq<nat>
      requires Valid() && v < nodes
    {
      adj[offsets[v]..offsets[v + 1]]
    }

    ghost predicate Arc(v: nat, w: nat)
      requires Valid()
    {
      v < nodes && w in Neighbours(v)
    }

    ghost predicate Walk(p: seq<nat>)
      requires Valid()
    {
      forall k :: 0 <= k < |p| - 1 ==> Arc(p[k], p[k + 1])
    }

    ghost predicate Cyclic()
      requires Valid()
    {
      exists p :: |p| >= 2 && p[0] == p[|p| - 1] && Walk(p)
    }
  }

  // The listed targets of the edges that leave node v, in the order of the edge list.
  function Targets(edges: seq<Edge>, txns: seq<Id>, v: nat): seq<nat> {
    if edges == [] then [] else
    Targets(edges[..|edges| - 1], txns, v) + TargetOf(edges[|edges| - 1], txns, v)
  }

  function TargetOf(e: Edge, txns: seq<Id>, v: nat): seq<nat> {
    if First(txns, e.fromTxn) == v && e.toTxn in txns then [First(txns, e.toTxn)] else []
  }

  // The number of edges that leave node v, to listed transactions or not.
  function Leaving(edges: seq<Edge>, txns: seq<Id>, v: nat): nat {
    if edges == [] then 0 else
    Leaving(edges[..|edges| - 1], txns, v) + if First(txns, edges[|edges| - 1].fromTxn) == v then 1 else 0
  }

  // Edge e leaves node v and leads to a transaction that is not listed.
  ghost predicate Strays(e: Edge, txns: seq<Id>, v: nat) { First(txns, e.fromTxn) == v && e.toTxn !in txns }

  // The targets fill the counted room exactly when no edge strays.
  lemma {:induction false} RoomMeaning(edges: seq<Edge>, txns: seq<Id>, v: nat)
    ensures |Targets(edges, txns, v)| <= Leaving(edges, txns, v)
    ensures |Targets(edges, txns, v)| < Leaving(edges, txns, v) <==> exists e :: e in edges && Strays(e, txns, v)
  {
    if edges != [] {
      var rest, last := edges[..|edges| - 1], edges[|edges| - 1];
      RoomMeaning(rest, txns, v);
      assert edges == rest + [last];
      if Strays(last, txns, v) {
        assert last in edges;
      }
    }
  }

  lemma {:induction false} ClosedFills(edges: seq<Edge>, txns: seq<Id>, v: nat)
    requires Closed(edges, txns) && v < |txns|
    ensures |Targets(edges, txns, v)| == Leaving(edges, txns, v)
  {
    RoomMeaning(edges, txns, v);
  }

  lemma {:induction false} TargetsMeaning(edges: seq<Edge>, txns: seq<Id>, v: nat, w: nat)
    ensures w in Targets(edges, txns, v) <==>
            w < |txns| && exists e :: e in edges && First(txns, e.fromTxn) == v && First(txns, e.toTxn) == w
  {
    if edges != [] {
      var rest, last := edges[..|edges| - 1], edges[|edges| - 1];
      TargetsMeaning(rest, txns, v, w);
      assert edges == rest + [last];
      if First(txns, last.fromTxn) == v && First(txns, last.toTxn) == w {
        assert last in edges;
      }
    }
  }

  // Each node's slice of the adjacency array holds exactly its edges.
  ghost predicate Packed(g: Graph, edges: seq<Edge>, txns: seq<Id>) {
    && g.Valid() && g.nodes == |txns|
    && forall v :: 0 <= v < g.nodes ==> g.Neighbours(v) == Targets(edges, txns, v)
  }

  lemma {:induction false} ArcMeaning(g: Graph, edges: seq<Edge>, txns: seq<Id>, v: nat, w: nat)
    requires Packed(g, edges, txns) && g.Arc(v, w)
    ensures v < |txns| && w < |txns| && Conflict(edges, txns, txns[v], txns[w])
  {
    TargetsMeaning(edges, txns, v, w);
    var e :| e in edges && First(txns, e.fromTxn) == v && First(txns, e.toTxn) == w;
    assert e == Edge(txns[v], txns[w]);
  }

  lemma {:induction false} ConflictMeaning(g: Graph, edges: seq<Edge>, txns: seq<Id>, a: Id, b: Id)
    requires Packed(g, edges, txns) && Conflict(edges, txns, a, b) && b in txns
    ensures g.Arc(First(txns, a), First(txns, b))
  {
    TargetsMeaning(edges, txns, First(txns, a), First(txns, b));
    assert Edge(a, b) in edges;
  }

  lemma {:induction false} CyclicMeansCycle(g: Graph, edges: seq<Edge>, txns: seq<Id>)
    requires Packed(g, edges, txns) && g.Cyclic()
    ensures HasCycle(edges, txns)
  {
    var p :| |p| >= 2 && p[0] == p[|p| - 1] && g.Walk(p);
    forall k | 0 <= k < |p| ensures p[k] < |txns| {
      WalkBounded(g, edges, txns, p, k);
    }
    var ids := Named(txns, p);
    forall k | 0 <= k < |ids| - 1 ensures Conflict(edges, txns, ids[k], ids[k + 1]) {
      ArcMeaning(g, edges, txns, p[k], p[k + 1]);
    }
    assert Cycle(edges, txns, ids);
  }

  lemma {:induction false} WalkBounded(g: Graph, edges: seq<Edge>, txns: seq<Id>, p: seq<nat>, k: nat)
    requires Packed(g, edges, txns) && |p| >= 2 && g.Walk(p) && k < |p|
    ensures p[k] < |txns|
  {
    var i := if k < |p| - 1 then k else k - 1;
    ArcMeaning(g, edges, txns, p[i], p[i + 1]);
  }

  // The transactions at the given positions.
  ghost function Named(txns: seq<Id>, p: seq<nat>): (ids: seq<Id>)
    requires forall k :: 0 <= k < |p| ==> p[k] < |txns|
    ensures |ids| == |p| && forall k :: 0 <= k < |p| ==> ids[k] == txns[p[k]]
  {
    seq(|p|, k requires 0 <= k < |p| => txns[p[k]])
  }

  // ---------- Depth-first search ----------

  // What the search knows: the stack is a walk, a finished node's arcs all lead
  // to nodes that finished before it, and the flags say which node is where.
  ghost predicate State(g: Graph, visited: seq<bool>, onStack: seq<bool>, stack: seq<nat>, finished: seq<nat>) {
    && g.Valid() && |visited| == |onStack| == g.nodes
    && (forall v :: v in stack || v in finished ==> v < g.nodes)
    && (forall v :: 0 <= v < g.nodes ==> visited[v] == (v in stack || v in finished))
    && (forall v :: 0 <= v < g.nodes ==> onStack[v] == (v in stack))
    && (forall v :: v in stack ==> v !in finished)
    && g.Walk(stack)
    && FinishedOrder(g, finished)
  }

  ghost predicate FinishedOrder(g: Graph, finished: seq<nat>)
    requires g.Valid()
  {
    && (forall i, j :: 0 <= i < j < |finished| ==> finished[i] != finished[j])
    && forall i, w :: 0 <= i < |finished| && g.Arc(finished[i], w) ==> w in finished[..i]
  }

  lemma {:induction false} Push(g: Graph, visited: seq<bool>, onStack: seq<bool>, stack: seq<nat>, finished: seq<nat>,
                                v: nat)
    requires State(g, visited, onStack, stack, finished) && v < g.nodes && !visited[v] && g.Walk(stack + [v])
    ensures State(g, visited[v := true], onStack[v := true], stack + [v], finished)
  {
  }

  lemma {:induction false} Pop(g: Graph, visited: seq<bool>, onStack: seq<bool>, stack: seq<nat>, finished: seq<nat>,
                               v: nat)
    requires v < g.nodes && v !in stack && State(g, visited, onStack, stack + [v], finished)
    requires forall w :: g.Arc(v, w) ==> w in finished
    ensures State(g, visited, onStack[v := false], stack, finished + [v])
  {
    assert forall k :: 0 <= k < |stack| ==> (stack + [v])[k] == stack[k];
    assert v in stack + [v];
    assert forall w :: w in stack ==> w in stack + [v];
    var finished' := finished + [v];
    forall i, w | 0 <= i < |finished'| && g.Arc(finished'[i], w)
      ensures w in finished'[..i]
    {
      assert finished'[..i] == finished[..i];
      if i == |finished| { assert finished[..i] == finished; }
    }
  }

  // An arc back to the stack closes a cycle.
  lemma {:induction false} BackArc(g: Graph, stack: seq<nat>, w: nat)
    requires g.Valid() && g.Walk(stack) && stack != [] && g.Arc(stack[|stack| - 1], w) && w in stack
    ensures g.Cyclic()
  {
    var k :| 0 <= k < |stack| && stack[k] == w;
    var p := stack[k..] + [w];
    assert g.Walk(p);
    assert |p| >= 2 && p[0] == p[|p| - 1];
  }

  ghost function Unvisited(visited: seq<bool>): set<nat> { set v: nat | v < |visited| && !visited[v] }

  method Dfs(g: Graph, node: nat, visited: array<bool>, onStack: array<bool>, ghost stack: seq<nat>,
             ghost finished: seq<nat>)
    returns (found: bool, ghost finished': seq<nat>)
    requires visited != onStack && State(g, visited[..], onStack[..], stack, finished)
    requires node < g.nodes && !visited[node] && g.Walk(stack + [node])
    modifies visited, onStack
    ensures found ==> g.Cyclic()
    ensures !found ==> State(g, visited[..], onStack[..], stack, finished') && finished <= finished'
    ensures !found ==> node in finished'
    decreases Unvisited(visited[..])
  {
    ghost var v0, s0 := visited[..], onStack[..];
    finished' := finished;
    visited[node] := true;
    onStack[node] := true;
    assert visited[..] == v0[node := true] && onStack[..] == s0[node := true];
    Push(g, v0, s0, stack, finished, node);
    var start := g.offsets[node];
    var end := if node + 1 < g.nodes then g.offsets[node + 1] else |g.adj|;
    var e := start;
    while e < end
      invariant start <= e <= end == g.offsets[node + 1]
      invariant State(g, visited[..], onStack[..], stack + [node], finished') && finished <= finished'
      invariant forall k :: start <= k < e ==> g.adj[k] in finished'
    {
      var w := g.adj[e];
      assert w == g.Neighbours(node)[e - start] && g.Arc(node, w);
      if !visited[w] {
        Smaller(g, v0, s0, visited[..], onStack[..], stack, finished, finished', node);
        found, finished' := Dfs(g, w, visited, onStack, stack + [node], finished');
        if found {
          return;
        }
      } else if onStack[w] {
        BackArc(g, stack + [node], w);
        return true, finished';
      }
      e := e + 1;
    }
    ghost var v1, s1 := visited[..], onStack[..];
    onStack[node] := false;
    assert visited[..] == v1 && onStack[..] == s1[node := false];
    Pop(g, v1, s1, stack, finished', node);
    finished' := finished' + [node];
    found := false;
  }

  // The search only adds visited nodes.
  lemma {:induction false} Smaller(g: Graph, v0: seq<bool>, s0: seq<bool>, v: seq<bool>, s: seq<bool>,
                stack: seq<nat>, finished: seq<nat>, finished': seq<nat>, node: nat)
    requires State(g, v0, s0, stack, finished) && State(g, v, s, stack + [node], finished') && finished <= finished'
    requires node < g.nodes && !v0[node]
    ensures Unvisited(v) < Unvisited(v0)
  {
    assert node in stack + [node];
    assert node in Unvisited(v0) && node !in Unvisited(v);
  }

  // ---------- Packing the edges ----------

  method FirstIndex(txns: seq<Id>, a: Id) returns (j: nat)
    ensures j == First(txns, a)
  {
    j := 0;
    while j < |txns| && txns[j] != a
      invariant j <= |txns| && forall k :: 0 <= k < j ==> txns[k] != a
    {
      j := j + 1;
    }
  }

  // Before edge i is placed, its node still has room.
  lemma {:induction false} RoomLeft(edges: seq<Edge>, txns: seq<Id>, v: nat, i: nat)
    requires i <= |edges|
    ensures Leaving(edges[..i], txns, v) <= Leaving(edges, txns, v)
    ensures i < |edges| && First(txns, edges[i].fromTxn) == v ==>
              Leaving(edges[..i], txns, v) < Leaving(edges, txns, v)
    decreases |edges| - i
  {
    if i == |edges| {
      assert edges[..i] == edges;
    } else {
      assert edges[..i + 1][..i] == edges[..i];
      RoomLeft(edges, txns, v, i + 1);
    }
  }

  ghost predicate AreSizes(sizes: seq<nat>, edges: seq<Edge>, txns: seq<Id>) {
    |sizes| == |txns| && forall v :: 0 <= v < |txns| ==> sizes[v] == Leaving(edges, txns, v)
  }

  method CountDegrees(edges: seq<Edge>, txns: seq<Id>) returns (degrees: array<nat>)
    ensures fresh(degrees) && AreSizes(degrees[..], edges, txns)
  {
    degrees := new nat[|txns|](_ => 0);
    var i := 0;
    while i < |edges|
      invariant 0 <= i <= |edges|
      invariant forall v :: 0 <= v < |txns| ==> degrees[v] == Leaving(edges[..i], txns, v)
    {
      assert edges[..i + 1][..i] == edges[..i];
      var j := FirstIndex(txns, edges[i].fromTxn);
      if j < |txns| {
        degrees[j] := degrees[j] + 1;
      }
      i := i + 1;
    }
    assert edges[..i] == edges;
  }

  // Consecutive slices of the given sizes, one per node.
  ghost predicate Spaced(offsets: seq<nat>, sizes: seq<nat>) {
    && |offsets| == |sizes| + 1 && offsets[0] == 0
    && (forall v :: 0 <= v < |sizes| ==> Follows(offsets, sizes, v))
    && forall v, w :: 0 <= v < w < |offsets| ==> offsets[v] + sizes[v] <= offsets[w]
  }

  ghost predicate Follows(offsets: seq<nat>, sizes: seq<nat>, v: nat)
    requires v < |sizes| && |offsets| == |sizes| + 1
  {
    offsets[v + 1] == offsets[v] + sizes[v]
  }

  method PrefixSums(degrees: array<nat>) returns (offsets: array<nat>)
    ensures fresh(offsets) && Spaced(offsets[..], degrees[..])
  {
    var n := degrees.Length;
    offsets := new nat[n + 1](_ => 0);
    var i := 1;
    while i <= n
      invariant 1 <= i <= n + 1 && offsets[0] == 0
      invariant forall v :: 0 <= v < i - 1 ==> offsets[v + 1] == offsets[v] + degrees[v]
      invariant forall v, w :: 0 <= v < w < i ==> offsets[v] + degrees[v] <= offsets[w]
    {
      offsets[i] := offsets[i - 1] + degrees[i - 1];
      i := i + 1;
    }
  }

  // The packing under way: each node's slice starts with the targets placed so far.
  datatype Packing = Packing(adj: seq<nat>, degrees: seq<nat>, offsets: seq<nat>, sizes: seq<nat>) {
    ghost predicate Shaped() {
      |degrees| == |sizes| && Spaced(offsets, sizes) && |adj| == offsets[|sizes|]
    }

    ghost predicate Holds(v: nat, bucket: seq<nat>)
      requires Shaped() && v < |sizes|
    {
      degrees[v] <= sizes[v] && offsets[v] + sizes[v] <= |adj| && adj[offsets[v]..offsets[v] + degrees[v]] == bucket
    }

    ghost predicate Filled(edges: seq<Edge>, txns: seq<Id>) {
      Shaped() && |sizes| == |txns| && forall v :: 0 <= v < |txns| ==> Holds(v, Targets(edges, txns, v))
    }

    // Node k goes to the next free slot of node j.
    ghost function Place(j: nat, k: nat): Packing
      requires Shaped() && j < |sizes| && offsets[j] + degrees[j] < |adj|
    {
      this.(adj := adj[offsets[j] + degrees[j] := k], degrees := degrees[j := degrees[j] + 1])
    }
  }

  lemma {:induction false} Room(p: Packing, j: nat, bucket: seq<nat>)
    requires p.Shaped() && j < |p.sizes| && p.Holds(j, bucket) && |bucket| < p.sizes[j]
    ensures p.degrees[j] < p.sizes[j] && p.offsets[j] + p.degrees[j] < |p.adj|
  {
  }

  lemma {:induction false} PlacedSlice(p: Packing, q: Packing, j: nat, k: nat, bucket: seq<nat>)
    requires p.Shaped() && j < |p.sizes| && p.Holds(j, bucket) && p.degrees[j] < p.sizes[j]
    requires q == p.Place(j, k)
    ensures q.Shaped() && q.Holds(j, bucket + [k])
  {
    var start, at := p.offsets[j], p.offsets[j] + p.degrees[j];
    assert q.adj[start..at + 1] == p.adj[start..at] + [k];
  }

  lemma {:induction false} OtherSlice(p: Packing, q: Packing, j: nat, k: nat, v: nat, bucket: seq<nat>)
    requires p.Shaped() && j < |p.sizes| && v < |p.sizes| && v != j && p.Holds(v, bucket)
    requires p.degrees[j] < p.sizes[j] && p.offsets[j] + p.degrees[j] < |p.adj| && q == p.Place(j, k)
    ensures q.Shaped() && q.Holds(v, bucket)
  {
    var start, end := p.offsets[v], p.offsets[v] + p.degrees[v];
    assert q.adj[start..end] == p.adj[start..end];
  }

  // One more edge: its target joins the slice of its source.
  lemma {:induction false} NextTargets(edges: seq<Edge>, txns: seq<Id>, i: nat, v: nat)
    requires i < |edges|
    ensures Targets(edges[..i + 1], txns, v) == Targets(edges[..i], txns, v) + TargetOf(edges[i], txns, v)
  {
    assert edges[..i + 1][..i] == edges[..i];
  }

  lemma {:induction false} RoomForEdge(p: Packing, edges: seq<Edge>, txns: seq<Id>, i: nat, j: nat)
    requires i < |edges| && p.Filled(edges[..i], txns) && AreSizes(p.sizes, edges, txns)
    requires j == First(txns, edges[i].fromTxn) < |txns|
    ensures p.degrees[j] < p.sizes[j] && p.offsets[j] + p.degrees[j] < |p.adj|
  {
    RoomLeft(edges, txns, j, i);
    RoomMeaning(edges[..i], txns, j);
    Room(p, j, Targets(edges[..i], txns, j));
  }

  lemma {:induction false} FillNext(p: Packing, q: Packing, edges: seq<Edge>, txns: seq<Id>, i: nat, j: nat, k: nat)
    requires i < |edges| && p.Filled(edges[..i], txns) && AreSizes(p.sizes, edges, txns)
    requires j == First(txns, edges[i].fromTxn) < |txns| && k == First(txns, edges[i].toTxn) < |txns|
    requires p.degrees[j] < p.sizes[j] && p.offsets[j] + p.degrees[j] < |p.adj| && q == p.Place(j, k)
    ensures q.Filled(edges[..i + 1], txns)
  {
    var placed := edges[..i + 1];
    forall v | 0 <= v < |txns| ensures q.Holds(v, Targets(placed, txns, v)) {
      NextTargets(edges, txns, i, v);
      if v == j {
        PlacedSlice(p, q, j, k, Targets(edges[..i], txns, j));
      } else {
        OtherSlice(p, q, j, k, v, Targets(edges[..i], txns, v));
      }
    }
  }

  // An edge without a listed end leaves everything as it is.
  lemma {:induction false} SkipNext(p: Packing, edges: seq<Edge>, txns: seq<Id>, i: nat)
    requires i < |edges| && p.Filled(edges[..i], txns)
    requires edges[i].fromTxn !in txns || edges[i].toTxn !in txns
    ensures p.Filled(edges[..i + 1], txns)
  {
    var placed := edges[..i + 1];
    forall v | 0 <= v < |txns| ensures p.Holds(v, Targets(placed, txns, v)) {
      NextTargets(edges, txns, i, v);
    }
  }

  // Every slice starts with the listed targets of its node, in edge order. A node
  // keeps unwritten slots exactly when one of its edges leads to no listed transaction.
  method FillAdjacency(edges: seq<Edge>, txns: seq<Id>, offsets: array<nat>, degrees: array<nat>, junk: nat -> nat)
    returns (adj: array<nat>)
    requires offsets != degrees && Spaced(offsets[..], degrees[..]) && AreSizes(degrees[..], edges, txns)
    modifies degrees
    ensures fresh(adj)
    ensures Packing(adj[..], degrees[..], offsets[..], old(degrees[..])).Filled(edges, txns)
    ensures forall v :: 0 <= v < |txns| ==>
      (degrees[v] < old(degrees[v]) <==> exists e :: e in edges && Strays(e, txns, v))
  {
    ghost var sizes, starts := degrees[..], offsets[..];
    adj := new nat[offsets[|txns|]](junk);
    ClearDegrees(degrees);
    NothingFilled(Packing(adj[..], degrees[..], starts, sizes), txns);
    var i := 0;
    while i < |edges|
      invariant 0 <= i <= |edges| && offsets[..] == starts
      invariant Packing(adj[..], degrees[..], starts, sizes).Filled(edges[..i], txns)
    {
      PlaceEdge(edges, txns, i, adj, degrees, offsets, sizes);
      i := i + 1;
    }
    assert edges[..i] == edges;
    FillsUnlessStray(Packing(adj[..], degrees[..], starts, sizes), edges, txns);
  }

  lemma {:induction false} NothingFilled(p: Packing, txns: seq<Id>)
    requires p.Shaped() && |p.sizes| == |txns| && forall v :: 0 <= v < |txns| ==> p.degrees[v] == 0
    ensures p.Filled([], txns)
  {
  }

  lemma {:induction false} FillsUnlessStray(p: Packing, edges: seq<Edge>, txns: seq<Id>)
    requires p.Filled(edges, txns) && AreSizes(p.sizes, edges, txns)
    ensures forall v :: 0 <= v < |txns| ==>
      (p.degrees[v] < p.sizes[v] <==> exists e :: e in edges && Strays(e, txns, v))
  {
    forall v | 0 <= v < |txns|
      ensures p.degrees[v] < p.sizes[v] <==> exists e :: e in edges && Strays(e, txns, v)
    {
      RoomMeaning(edges, txns, v);
      assert p.Holds(v, Targets(edges, txns, v));
    }
  }

  method PlaceEdge(edges: seq<Edge>, txns: seq<Id>, i: nat, adj: array<nat>, degrees: array<nat>, offsets: array<nat>,
                   ghost sizes: seq<nat>)
    requires adj != degrees && offsets != degrees && offsets != adj && i < |edges| && AreSizes(sizes, edges, txns)
    requires Packing(adj[..], degrees[..], offsets[..], sizes).Filled(edges[..i], txns)
    modifies adj, degrees
    ensures Packing(adj[..], degrees[..], offsets[..], sizes).Filled(edges[..i + 1], txns)
  {
    ghost var p := Packing(adj[..], degrees[..], offsets[..], sizes);
    var k := |txns|;
    var j := FirstIndex(txns, edges[i].fromTxn);
    if j < |txns| {
      k := FirstIndex(txns, edges[i].toTxn);
    }
    if k < |txns| {
      RoomForEdge(p, edges, txns, i, j);
      var pos := offsets[j] + degrees[j];
      adj[pos] := k;
      degrees[j] := degrees[j] + 1;
      ghost var q := Packing(adj[..], degrees[..], offsets[..], sizes);
      assert q == p.Place(j, k);
      FillNext(p, q, edges, txns, i, j, k);
    } else {
      SkipNext(p, edges, txns, i);
    }
  }

  method ClearDegrees(degrees: array<nat>)
    modifies degrees
    ensures forall v :: 0 <= v < degrees.Length ==> degrees[v] == 0
  {
    var i := 0;
    while i < degrees.Length
      invariant 0 <= i <= degrees.Length && forall v :: 0 <= v < i ==> degrees[v] == 0
    {
      degrees[i] := 0;
      i := i + 1;
    }
  }

  // A slice with all its edges is full.
  lemma {:induction false} SliceFull(p: Packing, v: nat, bucket: seq<nat>)
    requires p.Shaped() && v < |p.sizes| && p.Holds(v, bucket) && |bucket| == p.sizes[v]
    ensures p.offsets[v] <= p.offsets[v + 1] <= |p.adj| && p.adj[p.offsets[v]..p.offsets[v + 1]] == bucket
  {
    assert Follows(p.offsets, p.sizes, v);
  }

  // When no edge strays, the adjacency array is fully written.
  lemma {:induction false} SliceOfNode(p: Packing, edges: seq<Edge>, txns: seq<Id>, v: nat)
    requires Closed(edges, txns) && AreSizes(p.sizes, edges, txns) && p.Filled(edges, txns) && v < |txns|
    ensures p.offsets[v] <= p.offsets[v + 1] <= |p.adj|
    ensures p.adj[p.offsets[v]..p.offsets[v + 1]] == Targets(edges, txns, v)
  {
    ClosedFills(edges, txns, v);
    assert p.Holds(v, Targets(edges, txns, v));
    SliceFull(p, v, Targets(edges, txns, v));
  }

  lemma {:induction false} SlotBounded(p: Packing, edges: seq<Edge>, txns: seq<Id>, e: nat)
    requires Closed(edges, txns) && AreSizes(p.sizes, edges, txns) && p.Filled(edges, txns) && e < |p.adj|
    ensures p.adj[e] < |txns|
  {
    var v := SliceOf(p.offsets, e);
    SliceOfNode(p, edges, txns, v);
    assert p.adj[e] == p.adj[p.offsets[v]..p.offsets[v + 1]][e - p.offsets[v]];
    TargetsMeaning(edges, txns, v, p.adj[e]);
  }

  lemma {:induction false} FilledPacked(p: Packing, g: Graph, edges: seq<Edge>, txns: seq<Id>)
    requires Closed(edges, txns) && AreSizes(p.sizes, edges, txns) && p.Filled(edges, txns)
    requires g == Graph(p.adj, p.offsets, |txns|)
    ensures Packed(g, edges, txns)
  {
    forall e | 0 <= e < |g.adj| ensures g.adj[e] < |txns| {
      SlotBounded(p, edges, txns, e);
    }
    forall v, w | 0 <= v <= w <= |txns| ensures g.offsets[v] <= g.offsets[w] {
      assert v < w ==> p.offsets[v] + p.sizes[v] <= p.offsets[w];
    }
    forall v | 0 <= v < |txns| ensures g.Neighbours(v) == Targets(edges, txns, v) {
      SliceOfNode(p, edges, txns, v);
    }
  }

  // Every slot belongs to some node's slice.
  lemma {:induction false} SliceOf(offsets: seq<nat>, e: nat) returns (v: nat)
    requires |offsets| >= 1 && offsets[0] == 0 && e < offsets[|offsets| - 1]
    ensures v + 1 < |offsets| && offsets[v] <= e < offsets[v + 1]
  {
    v := 0;
    while offsets[v + 1] <= e
      invariant v + 1 < |offsets| && offsets[v] <= e
      decreases |offsets| - v
    {
      v := v + 1;
    }
  }

  // ---------- Detection ----------

  // Sound and complete: true exactly when the conflict graph has a cycle, and
  // otherwise the reverse finishing order is a serial order.
  method DetectCycle(edges: seq<Edge>, txns: seq<Id>, junk: nat -> nat) returns (cyclic: bool, ghost order: seq<nat>)
    requires Closed(edges, txns)
    ensures cyclic <==> HasCycle(edges, txns)
    ensures !cyclic ==> SerialOrder(edges, txns, order)
  {
    if |edges| == 0 || |txns| == 0 {
      order := seq(|txns|, i => i);
      forall v | 0 <= v < |txns| ensures v in order {
        assert order[v] == v;
      }
      SerialMeansAcyclic(edges, txns, order);
      return false, order;
    }
    var degrees := CountDegrees(edges, txns);
    var offsets := PrefixSums(degrees);
    ghost var sizes := degrees[..];
    var adj := FillAdjacency(edges, txns, offsets, degrees, junk);
    var g := Graph(adj[..], offsets[..], |txns|);
    FilledPacked(Packing(adj[..], degrees[..], offsets[..], sizes), g, edges, txns);
    ghost var finished;
    cyclic, finished := Search(g);
    order := Reversed(finished);
    if cyclic {
      CyclicMeansCycle(g, edges, txns);
    } else {
      FinishedSerial(g, edges, txns, finished);
      SerialMeansAcyclic(edges, txns, order);
    }
  }

  method Search(g: Graph) returns (cyclic: bool, ghost finished: seq<nat>)
    requires g.Valid()
    ensures cyclic ==> g.Cyclic()
    ensures !cyclic ==> FinishedOrder(g, finished) && forall v: nat :: v < g.nodes <==> v in finished
  {
    var visited := new bool[g.nodes](_ => false);
    var onStack := new bool[g.nodes](_ => false);
    cyclic, finished := false, [];
    var i := 0;
    while i < g.nodes && !cyclic
      invariant 0 <= i <= g.nodes
      invariant cyclic ==> g.Cyclic()
      invariant !cyclic ==> State(g, visited[..], onStack[..], [], finished)
      invariant !cyclic ==> forall v :: 0 <= v < i ==> v in finished
    {
      if !visited[i] {
        cyclic, finished := Dfs(g, i, visited, onStack, [], finished);
      }
      i := i + 1;
    }
  }

  ghost function Reversed(s: seq<nat>): (r: seq<nat>)
    ensures |r| == |s| && forall i :: 0 <= i < |s| ==> r[i] == s[|s| - 1 - i]
  {
    seq(|s|, i requires 0 <= i < |s| => s[|s| - 1 - i])
  }

  lemma {:induction false} FinishedSerial(g: Graph, edges: seq<Edge>, txns: seq<Id>, finished: seq<nat>)
    requires Packed(g, edges, txns) && FinishedOrder(g, finished)
    requires forall v: nat :: v < g.nodes <==> v in finished
    ensures SerialOrder(edges, txns, Reversed(finished))
  {
    var order, n := Reversed(finished), |finished|;
    DistinctCount(finished, |txns|);
    forall v | 0 <= v < |txns| ensures v in order {
      InReversed(finished, v);
    }
    forall a, b, i, j | Conflict(edges, txns, a, b) && 0 <= i < n && 0 <= j < n
                        && order[i] == First(txns, a) && order[j] == First(txns, b)
      ensures i < j
    {
      assert order[j] in finished;
      ConflictMeaning(g, edges, txns, a, b);
      ArcsRunForward(g, finished, i, j);
    }
  }

  lemma {:induction false} InReversed(s: seq<nat>, v: nat)
    requires v in s
    ensures v in Reversed(s)
  {
    var i :| 0 <= i < |s| && s[i] == v;
    assert Reversed(s)[|s| - 1 - i] == v;
  }

  lemma {:induction false} ArcsRunForward(g: Graph, finished: seq<nat>, i: nat, j: nat)
    requires g.Valid() && FinishedOrder(g, finished) && i < |finished| && j < |finished|
    requires g.Arc(Reversed(finished)[i], Reversed(finished)[j])
    ensures i < j
  {
    var n := |finished|;
    var v, w := finished[n - 1 - i], finished[n - 1 - j];
    assert g.Arc(v, w) && w in finished[..n - 1 - i];
    var k :| 0 <= k < n - 1 - i && finished[k] == w;
    assert k == n - 1 - j;
  }

  // A list that holds each number below n exactly once has n elements.
  lemma {:induction false} DistinctCount(s: seq<nat>, n: nat)
    requires forall i, j :: 0 <= i < j < |s| ==> s[i] != s[j]
    requires forall v: nat :: v < n <==> v in s
    ensures |s| == n
  {
    if n == 0 {
      assert forall k :: 0 <= k < |s| ==> s[k] in s;
    } else {
      assert n - 1 in s;
      var k :| 0 <= k < |s| && s[k] == n - 1;
      var t := s[..k] + s[k + 1..];
      forall v: nat ensures v < n - 1 <==> v in t {
        if v < n - 1 {
          assert v in s;
          var m :| 0 <= m < |s| && s[m] == v;
          assert v == t[if m < k then m else m - 1];
        }
        if v in t {
          var m :| 0 <= m < |t| && t[m] == v;
          assert v == s[if m < k then m else m + 1] && v in s;
        }
      }
      DistinctCount(t, n - 1);
    }
  }
}
