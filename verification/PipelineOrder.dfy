/** When the run queue of a pipeline runs every node after all its predecessors. */
module PipelineOrder {
  import opened Finite
  import opened Options
  import opened PipelineGraph

  // ---- Distances from the sources --------------------------------------------------------------

  /** The successor map of a graph and the nodes that nothing points to. */
  datatype Graph = Graph(next: map<NodeId, NodeId>, sources: set<NodeId>)

  function GraphOf(nodes: seq<Node>): Graph {
    Graph(NextById(nodes), set v | v in Known(nodes) && !HasPredecessor(nodes, v))
  }

  /** Some source leads to v in k steps. */
  ghost predicate At(g: Graph, v: NodeId, k: nat) {
    exists s :: s in g.sources && Follow(g.next, s, k) == Some(v)
  }

  ghost predicate Reached(g: Graph, v: NodeId) {
    exists k: nat :: At(g, v, k)
  }

  ghost predicate Nearest(g: Graph, v: NodeId, d: nat) {
    At(g, v, d) && forall j: nat :: At(g, v, j) ==> d <= j
  }

  lemma {:induction false} SomeNearest(g: Graph, v: NodeId, k: nat, low: nat) returns (d: nat)
    requires At(g, v, k) && low <= k && forall j: nat :: At(g, v, j) ==> low <= j
    ensures Nearest(g, v, d)
    decreases k - low
  {
    if At(g, v, low) {
      d := low;
    } else {
      d := SomeNearest(g, v, k, low + 1);
    }
  }

  /** The distance of a node from its nearest source. */
  ghost function Distance(g: Graph, v: NodeId): (d: nat)
    ensures Reached(g, v) ==> Nearest(g, v, d)
  {
    if exists d: nat :: Nearest(g, v, d) then
      var d: nat :| Nearest(g, v, d);
      d
    else
      NearestExists(g, v);
      0
  }

  lemma {:induction false} NearestExists(g: Graph, v: NodeId)
    ensures Reached(g, v) ==> exists d: nat :: Nearest(g, v, d)
  {
    if Reached(g, v) {
      var k: nat :| At(g, v, k);
      var d := SomeNearest(g, v, k, 0);
    }
  }

  /** What all nodes have in an accepted graph. */
  ghost predicate Sound(nodes: seq<Node>) {
    Distinct(Ids(nodes)) && NodesOk(nodes, |nodes|) && WalksEnd(nodes)
  }

  lemma {:induction false} AtNext(g: Graph, v: NodeId, k: nat)
    requires At(g, v, k) && v in g.next
    ensures At(g, g.next[v], k + 1)
  {
    var s :| s in g.sources && Follow(g.next, s, k) == Some(v);
    FollowSplit(g.next, s, k, 1);
  }

  lemma {:induction false} AtBefore(g: Graph, v: NodeId, k: nat) returns (w: NodeId)
    requires At(g, v, k + 1)
    ensures w in g.next && g.next[w] == v && At(g, w, k)
  {
    var s :| s in g.sources && Follow(g.next, s, k + 1) == Some(v);
    FollowSplit(g.next, s, k, 1);
    w := Follow(g.next, s, k).value;
  }

  lemma {:induction false} AllAreReached(nodes: seq<Node>)
    requires Sound(nodes)
    ensures forall v :: v in Known(nodes) ==> Reached(GraphOf(nodes), v)
  {
    var g := GraphOf(nodes);
    ghost var reached := set v | v in Known(nodes) && Reached(g, v);
    forall v | v in g.sources ensures Reached(g, v) {
      assert Follow(g.next, v, 0) == Some(v);
      assert At(g, v, 0);
    }
    forall n | n in nodes && n.id in reached && n.next != "" ensures n.next in reached {
      NextOf(nodes, n);
      var k: nat :| At(g, n.id, k);
      AtNext(g, n.id, k);
      InGraph(nodes, n);
    }
    AllReached(nodes, reached);
  }

  lemma {:induction false} InGraph(nodes: seq<Node>, n: Node)
    requires NodesOk(nodes, |nodes|) && n in nodes
    ensures n.id in Known(nodes) && (n.next != "" ==> n.next in Known(nodes))
  {
    var i :| 0 <= i < |nodes| && nodes[i] == n;
  }

  lemma {:induction false} SourcesAtZero(g: Graph, v: NodeId)
    ensures At(g, v, 0) <==> v in g.sources
  {
    if v in g.sources {
      assert Follow(g.next, v, 0) == Some(v);
    }
  }

  lemma {:induction false} NearestIs(g: Graph, v: NodeId, k: nat)
    requires At(g, v, k)
    ensures Distance(g, v) <= k && At(g, v, Distance(g, v)) && forall j: nat :: j < Distance(g, v) ==> !At(g, v, j)
  {
    assert Reached(g, v);
  }

  lemma {:induction false} DistanceAt(nodes: seq<Node>, v: NodeId)
    requires Sound(nodes) && v in Known(nodes)
    ensures At(GraphOf(nodes), v, Distance(GraphOf(nodes), v))
  {
    AllAreReached(nodes);
  }

  lemma {:induction false} NextIsNearer(nodes: seq<Node>, n: Node)
    requires Sound(nodes) && n in nodes && n.next != ""
    ensures var g := GraphOf(nodes); 0 < Distance(g, n.next) <= Distance(g, n.id) + 1
  {
    var g := GraphOf(nodes);
    InGraph(nodes, n);
    DistanceAt(nodes, n.id);
    NextOf(nodes, n);
    AtNext(g, n.id, Distance(g, n.id));
    NearestIs(g, n.next, Distance(g, n.id) + 1);
    assert HasPredecessor(nodes, n.next);
    SourcesAtZero(g, n.next);
  }

  lemma {:induction false} NodeBefore(nodes: seq<Node>, w: NodeId) returns (n: Node)
    requires w in NextById(nodes)
    ensures n in nodes && n.id == w && n.next == NextById(nodes)[w] != ""
  {
    NextByIdEntries(nodes);
    n :| n in nodes && n.id == w && n.next == NextById(nodes)[w] != "";
  }

  lemma {:induction false} NearestPredecessor(nodes: seq<Node>, v: NodeId) returns (n: Node)
    requires Sound(nodes) && v in Known(nodes) && Distance(GraphOf(nodes), v) > 0
    ensures n in nodes && n.next == v != "" && Distance(GraphOf(nodes), n.id) + 1 == Distance(GraphOf(nodes), v)
  {
    var g := GraphOf(nodes);
    DistanceAt(nodes, v);
    var w := AtBefore(g, v, Distance(g, v) - 1);
    n := NodeBefore(nodes, w);
    NearestIs(g, w, Distance(g, v) - 1);
    NextIsNearer(nodes, n);
  }

  // ---- The promise and its condition -----------------------------------------------------------

  /** Every node runs after all nodes that point to it. */
  predicate InOrder(nodes: seq<Node>, order: seq<NodeId>) {
    forall i, n :: 0 <= i < |order| && n in nodes && n.next == order[i] != "" ==> n.id in order[..i]
  }

  /** All nodes that point to the same node are equally far from their nearest sources. */
  ghost predicate Level(nodes: seq<Node>) {
    forall m, n :: m in nodes && n in nodes && m.next == n.next != "" ==>
      Distance(GraphOf(nodes), m.id) == Distance(GraphOf(nodes), n.id)
  }

  lemma {:induction false} LevelStep(nodes: seq<Node>, n: Node)
    requires Sound(nodes) && Level(nodes) && n in nodes && n.next != ""
    ensures Distance(GraphOf(nodes), n.next) == Distance(GraphOf(nodes), n.id) + 1
  {
    NextIsNearer(nodes, n);
    InGraph(nodes, n);
    var m := NearestPredecessor(nodes, n.next);
  }

  // ---- Level graphs run in order ---------------------------------------------------------------

  ghost predicate Upward(g: Graph, queue: seq<NodeId>) {
    forall i, j :: 0 <= i <= j < |queue| ==> Distance(g, queue[i]) <= Distance(g, queue[j]) <= Distance(g, queue[0]) + 1
  }

  lemma {:induction false} GoesUp(g: Graph, queue: seq<NodeId>, more: seq<NodeId>)
    requires Upward(g, queue) && queue != [] && |more| <= 1
    requires more != [] ==> Distance(g, more[0]) == Distance(g, queue[0]) + 1
    ensures Upward(g, queue[1..] + more)
  {
    var later := queue[1..] + more;
    forall i, j | 0 <= i <= j < |later|
      ensures Distance(g, later[i]) <= Distance(g, later[j]) <= Distance(g, later[0]) + 1
    {
      assert i + 1 < |queue| ==> later[i] == queue[i + 1];
      assert j + 1 < |queue| ==> later[j] == queue[j + 1];
      assert |queue| > 1 ==> later[0] == queue[1];
    }
  }

  /** The queue goes up in distance, by one at most, and nothing that is due is missing. */
  ghost predicate Layered(nodes: seq<Node>, queue: seq<NodeId>, order: seq<NodeId>) {
    var g := GraphOf(nodes);
    && InOrder(nodes, order)
    && (forall v :: v in queue ==> v in Known(nodes))
    && Upward(g, queue)
    && (forall v :: v in g.sources ==> v in order || v in queue)
    && (forall n :: n in nodes && n.id in order && n.next != "" ==> n.next in order || n.next in queue)
  }

  /** What is nearer than the head of the queue has run. */
  lemma {:induction false} NearerHasRun(nodes: seq<Node>, queue: seq<NodeId>, order: seq<NodeId>, v: NodeId)
    requires Sound(nodes) && Layered(nodes, queue, order) && queue != [] && v in Known(nodes)
    requires Distance(GraphOf(nodes), v) < Distance(GraphOf(nodes), queue[0])
    ensures v in order
    decreases Distance(GraphOf(nodes), v)
  {
    var g := GraphOf(nodes);
    if Distance(g, v) == 0 {
      DistanceAt(nodes, v);
      SourcesAtZero(g, v);
    } else {
      var n := NearestPredecessor(nodes, v);
      InGraph(nodes, n);
      NearerHasRun(nodes, queue, order, n.id);
    }
  }

  lemma {:induction false} LayeredSkip(nodes: seq<Node>, queue: seq<NodeId>, order: seq<NodeId>)
    requires Layered(nodes, queue, order) && queue != [] && queue[0] in order
    ensures Layered(nodes, queue[1..], order)
  {
  }

  lemma {:induction false} RunsInOrder(nodes: seq<Node>, queue: seq<NodeId>, order: seq<NodeId>)
    requires Sound(nodes) && Level(nodes) && Layered(nodes, queue, order) && queue != []
    ensures InOrder(nodes, order + [queue[0]])
  {
    var order' := order + [queue[0]];
    forall i, n | 0 <= i < |order'| && n in nodes && n.next == order'[i] != "" ensures n.id in order'[..i] {
      if i < |order| {
        assert order'[..i] == order[..i];
      } else {
        LevelStep(nodes, n);
        InGraph(nodes, n);
        NearerHasRun(nodes, queue, order, n.id);
        assert order'[..i] == order;
      }
    }
  }

  lemma {:induction false} LayeredRun(nodes: seq<Node>, queue: seq<NodeId>, order: seq<NodeId>, n: Node)
    requires Sound(nodes) && Level(nodes) && Layered(nodes, queue, order) && queue != []
    requires n in nodes && n.id == queue[0] && n.id !in order
    ensures Layered(nodes, queue[1..] + Owed(NextById(nodes), order + [n.id], n.id), order + [n.id])
  {
    var g, order' := GraphOf(nodes), order + [n.id];
    var later := queue[1..] + Owed(NextById(nodes), order', n.id);
    RunsInOrder(nodes, queue, order);
    NextOf(nodes, n);
    InGraph(nodes, n);
    if n.next != "" {
      LevelStep(nodes, n);
    }
    GoesUp(g, queue, Owed(NextById(nodes), order', n.id));
    assert queue == [queue[0]] + queue[1..];
    forall m | m in nodes && m.id in order' && m.next != "" ensures m.next in order' || m.next in later {
      if m.id == n.id {
        SameId(nodes, m, n);
      }
    }
  }

  lemma {:induction false} ServedInOrder(nodes: seq<Node>, queue: seq<NodeId>, order: seq<NodeId>)
    requires Sound(nodes) && Level(nodes) && Layered(nodes, queue, order)
    ensures InOrder(nodes, Served(NextById(nodes), queue, order))
    decreases |NextById(nodes).Keys - Elements(order)|, |queue|
  {
    if queue != [] {
      var next, v := NextById(nodes), queue[0];
      if v in order {
        LayeredSkip(nodes, queue, order);
        ServedInOrder(nodes, queue[1..], order);
      } else {
        var n :| n in nodes && n.id == v;
        LayeredRun(nodes, queue, order, n);
        ServedEnds(next, order, v);
        ServedInOrder(nodes, queue[1..] + Owed(next, order + [v], v), order + [v]);
      }
    }
  }

  lemma {:induction false} LevelRunsInOrder(nodes: seq<Node>)
    requires Sound(nodes) && Level(nodes)
    ensures InOrder(nodes, RunOrder(nodes))
  {
    SourcesAreLayered(nodes);
    ServedInOrder(nodes, SourcesUpTo(nodes, |nodes|), []);
  }

  lemma {:induction false} SourcesAreLayered(nodes: seq<Node>)
    ensures Layered(nodes, SourcesUpTo(nodes, |nodes|), [])
  {
    var g, queue := GraphOf(nodes), SourcesUpTo(nodes, |nodes|);
    SourcesEntries(nodes, |nodes|);
    assert nodes[..|nodes|] == nodes;
    forall i | 0 <= i < |queue| ensures Distance(g, queue[i]) == 0 {
      SourceIsNear(g, queue[i]);
    }
  }

  lemma {:induction false} SourceIsNear(g: Graph, v: NodeId)
    requires v in g.sources
    ensures Distance(g, v) == 0
  {
    SourcesAtZero(g, v);
    NearestIs(g, v, 0);
  }

  // ---- Other graphs have an order of their nodes that does not -----------------------------------

  ghost predicate Within(g: Graph, v: NodeId, k: int) {
    exists j: nat :: j <= k && At(g, v, j)
  }

  ghost predicate AllAt(g: Graph, s: seq<NodeId>, k: nat) {
    forall v :: v in s ==> At(g, v, k)
  }

  ghost predicate AllWithin(g: Graph, s: seq<NodeId>, k: int) {
    forall v :: v in s ==> Within(g, v, k)
  }

  /** Serving what is left of a layer adds to the next one and runs nothing farther away. */
  lemma {:induction false} ServeLayer(g: Graph, a: seq<NodeId>, b: seq<NodeId>, order: seq<NodeId>, k: nat)
    returns (b': seq<NodeId>, order': seq<NodeId>)
    requires AllAt(g, a, k) && AllAt(g, b, k + 1) && AllWithin(g, order, k)
    ensures Served(g.next, a + b, order) == Served(g.next, b', order')
    ensures b <= b' && AllAt(g, b', k + 1) && AllWithin(g, order', k)
    decreases |a|
  {
    if a == [] {
      b', order' := b, order;
      assert a + b == b;
    } else {
      var v := a[0];
      assert a == [v] + a[1..];
      if v in order {
        assert (a + b)[1..] == a[1..] + b;
        b', order' := ServeLayer(g, a[1..], b, order, k);
      } else {
        var more := Owed(g.next, order + [v], v);
        if v in g.next {
          AtNext(g, v, k);
        }
        assert At(g, v, k);
        b', order' := ServeLayer(g, a[1..], b + more, order + [v], k);
        assert (a + b)[1..] + more == a[1..] + (b + more);
      }
    }
  }

  /** The nearest nodes on a shortest walk are served first in their layers. */
  ghost predicate AtLayer(g: Graph, queue: seq<NodeId>, order: seq<NodeId>, v: NodeId, k: nat) {
    && queue != [] && queue[0] == v && AllAt(g, queue, k) && AllWithin(g, order, k as int - 1)
  }

  lemma {:induction false} NotYet(g: Graph, order: seq<NodeId>, v: NodeId, k: nat)
    requires AllWithin(g, order, k as int - 1) && Reached(g, v) && Distance(g, v) >= k
    ensures v !in order
  {
    if v in order {
      WithinIsNear(g, v, k as int - 1);
    }
  }

  lemma {:induction false} WithinIsNear(g: Graph, v: NodeId, k: int)
    requires Within(g, v, k)
    ensures Distance(g, v) <= k
  {
    var j: nat :| j <= k && At(g, v, j);
    NearestIs(g, v, j);
  }

  lemma {:induction false} NextLayer(g: Graph, queue: seq<NodeId>, order: seq<NodeId>, v: NodeId, k: nat)
    returns (queue': seq<NodeId>, order': seq<NodeId>)
    requires AtLayer(g, queue, order, v, k) && Distance(g, v) == k
    requires v in g.next && Distance(g, g.next[v]) == k + 1
    ensures Served(g.next, queue, order) == Served(g.next, queue', order')
    ensures AtLayer(g, queue', order', g.next[v], k + 1)
  {
    assert At(g, v, k);
    NotYet(g, order, v, k);
    var w := g.next[v];
    AtNext(g, v, k);
    RunsWithin(g, order, v, k);
    NotYet(g, order + [v], w, k + 1);
    queue', order' := ServeLayer(g, queue[1..], [w], order + [v], k);
    assert queue'[0] == [w][0];
  }

  lemma {:induction false} RunsWithin(g: Graph, order: seq<NodeId>, v: NodeId, k: nat)
    requires AllWithin(g, order, k as int - 1) && At(g, v, k)
    ensures AllWithin(g, order + [v], k)
  {
    forall x | x in order ensures Within(g, x, k) {
      var j: nat :| j <= k as int - 1 && At(g, x, j);
    }
  }

  /** A walk from a source along which the distance grows with every step. */
  ghost predicate Shortest(g: Graph, s: NodeId, v: NodeId, k: nat) {
    s in g.sources && Follow(g.next, s, k) == Some(v) && Distance(g, v) == k
  }

  lemma {:induction false} ShortestBefore(g: Graph, s: NodeId, v: NodeId, k: nat) returns (w: NodeId)
    requires Shortest(g, s, v, k + 1)
    ensures w in g.next && g.next[w] == v && Shortest(g, s, w, k)
  {
    FollowSplit(g.next, s, k, 1);
    w := Follow(g.next, s, k).value;
    assert At(g, w, k) && At(g, v, k + 1);
    NearestIs(g, w, k);
    NearestIs(g, v, k + 1);
    AtNext(g, w, Distance(g, w));
  }

  lemma {:induction false} ReachLayer(g: Graph, queue: seq<NodeId>, s: NodeId, v: NodeId, k: nat)
    returns (queue': seq<NodeId>, order': seq<NodeId>)
    requires AtLayer(g, queue, [], s, 0) && Shortest(g, s, v, k)
    ensures Served(g.next, queue, []) == Served(g.next, queue', order') && AtLayer(g, queue', order', v, k)
    decreases k
  {
    if k == 0 {
      queue', order' := queue, [];
    } else {
      var w := ShortestBefore(g, s, v, k - 1);
      queue', order' := ReachLayer(g, queue, s, w, k - 1);
      queue', order' := NextLayer(g, queue', order', w, k - 1);
    }
  }

  /** With its nearest source in front, a node runs before a predecessor that is no nearer than the node itself. */
  lemma {:induction false} RunsTooEarly(nodes: seq<Node>, s: NodeId, v: NodeId, p: Node)
    requires Sound(nodes) && nodes != [] && nodes[0].id == s && p in nodes && p.next == v != ""
    requires Shortest(GraphOf(nodes), s, v, Distance(GraphOf(nodes), v))
    requires Distance(GraphOf(nodes), p.id) >= Distance(GraphOf(nodes), v)
    ensures !InOrder(nodes, RunOrder(nodes))
  {
    var g, queue, k := GraphOf(nodes), SourcesUpTo(nodes, |nodes|), Distance(GraphOf(nodes), v);
    FirstLayer(nodes, s);
    var later, order := ReachLayer(g, queue, s, v, k);
    AllAreReached(nodes);
    InGraph(nodes, p);
    NotYet(g, order, v, k);
    NotYet(g, order, p.id, k);
    ServedNext(g.next, later, order);
    RunsBefore(nodes, RunOrder(nodes), order, p);
  }

  lemma {:induction false} FirstLayer(nodes: seq<Node>, s: NodeId)
    requires nodes != [] && nodes[0].id == s && s in GraphOf(nodes).sources
    ensures AtLayer(GraphOf(nodes), SourcesUpTo(nodes, |nodes|), [], s, 0)
  {
    FirstSource(nodes, |nodes|);
    SourcesEntries(nodes, |nodes|);
    assert nodes[..|nodes|] == nodes;
    forall x | x in SourcesUpTo(nodes, |nodes|) ensures At(GraphOf(nodes), x, 0) {
      SourcesAtZero(GraphOf(nodes), x);
    }
  }

  lemma {:induction false} RunsBefore(nodes: seq<Node>, all: seq<NodeId>, order: seq<NodeId>, p: Node)
    requires p in nodes && p.next != "" && order + [p.next] <= all && p.id !in order
    ensures !InOrder(nodes, all)
  {
    assert all[..|order|] == order && all[|order|] == p.next;
  }

  lemma {:induction false} FirstSource(nodes: seq<Node>, n: nat)
    requires 0 < n <= |nodes| && !HasPredecessor(nodes, nodes[0].id)
    ensures SourcesUpTo(nodes, n) != [] && SourcesUpTo(nodes, n)[0] == nodes[0].id
  {
    if n > 1 {
      FirstSource(nodes, n - 1);
    }
  }

  // ---- All orders of the nodes -----------------------------------------------------------------

  predicate Reordered(nodes: seq<Node>, nodes': seq<Node>) {
    multiset(nodes) == multiset(nodes')
  }

  lemma {:induction false} SameMembers(nodes: seq<Node>, nodes': seq<Node>)
    requires Reordered(nodes, nodes')
    ensures |nodes| == |nodes'| && Known(nodes') == Known(nodes) && forall n :: n in nodes <==> n in nodes'
    ensures forall v :: HasPredecessor(nodes, v) <==> HasPredecessor(nodes', v)
  {
    assert |multiset(nodes)| == |nodes| && |multiset(nodes')| == |nodes'|;
    forall n ensures n in nodes <==> n in nodes' {
      assert n in nodes <==> n in multiset(nodes);
      assert n in nodes' <==> n in multiset(nodes');
    }
  }

  lemma {:induction false} SameNext(nodes: seq<Node>, nodes': seq<Node>)
    requires Distinct(Ids(nodes)) && Distinct(Ids(nodes')) && forall n :: n in nodes <==> n in nodes'
    ensures NextById(nodes') == NextById(nodes)
  {
    NextByIdEntries(nodes);
    NextByIdEntries(nodes');
    forall v | v in NextById(nodes) || v in NextById(nodes')
      ensures v in NextById(nodes) && v in NextById(nodes') && NextById(nodes)[v] == NextById(nodes')[v]
    {
      var n: Node;
      if v in NextById(nodes) {
        n := NodeBefore(nodes, v);
      } else {
        n := NodeBefore(nodes', v);
      }
      NextOf(nodes, n);
      NextOf(nodes', n);
    }
  }

  /** The order of the nodes is no part of the graph. */
  lemma {:induction false} SameGraph(nodes: seq<Node>, nodes': seq<Node>)
    requires Sound(nodes) && Reordered(nodes, nodes')
    ensures Sound(nodes') && GraphOf(nodes') == GraphOf(nodes) && (Level(nodes) <==> Level(nodes'))
  {
    SameMembers(nodes, nodes');
    StillDistinct(nodes, nodes');
    SameNext(nodes, nodes');
    assert NodesOk(nodes', |nodes'|) by {
      forall i | 0 <= i < |nodes'| ensures TypeKnown(nodes'[i]) && NextKnown(nodes', nodes'[i]) {
        assert nodes'[i] in nodes;
      }
    }
    assert GraphOf(nodes') == GraphOf(nodes);
  }

  lemma {:induction false} StillDistinct(nodes: seq<Node>, nodes': seq<Node>)
    requires |nodes| == |nodes'| && Known(nodes) == Known(nodes') && Distinct(Ids(nodes))
    ensures Distinct(Ids(nodes'))
  {
    DistinctExactly(Ids(nodes));
    DistinctExactly(Ids(nodes'));
    KnownAreIds(nodes);
    KnownAreIds(nodes');
  }

  lemma {:induction false} ToFront(nodes: seq<Node>, i: nat) returns (nodes': seq<Node>)
    requires i < |nodes|
    ensures Reordered(nodes, nodes') && nodes' != [] && nodes'[0] == nodes[i]
  {
    nodes' := [nodes[i]] + nodes[..i] + nodes[i + 1..];
    assert nodes == nodes[..i] + [nodes[i]] + nodes[i + 1..];
  }

  lemma {:induction false} UnevenRunsTooEarly(nodes: seq<Node>, m: Node, n: Node) returns (nodes': seq<Node>)
    requires Sound(nodes) && m in nodes && n in nodes && m.next == n.next != ""
    requires Distance(GraphOf(nodes), m.id) < Distance(GraphOf(nodes), n.id)
    ensures Reordered(nodes, nodes') && !InOrder(nodes', RunOrder(nodes'))
  {
    var g, v := GraphOf(nodes), n.next;
    NextIsNearer(nodes, m);
    InGraph(nodes, m);
    DistanceAt(nodes, v);
    var s :| s in g.sources && Follow(g.next, s, Distance(g, v)) == Some(v);
    var i :| 0 <= i < |nodes| && nodes[i].id == s;
    nodes' := ToFront(nodes, i);
    SameGraph(nodes, nodes');
    SameMembers(nodes, nodes');
    RunsTooEarly(nodes', s, v, n);
  }

  ghost predicate AlwaysInOrder(nodes: seq<Node>) {
    forall nodes' {:trigger RunOrder(nodes')} :: Reordered(nodes, nodes') ==> InOrder(nodes', RunOrder(nodes'))
  }

  /** Whatever the order of its nodes, an accepted pipeline runs every node after all its predecessors if and only if
      all predecessors of any node are equally far from their nearest sources. */
  lemma {:induction false} InOrderExactly(nodes: seq<Node>)
    requires IsPipeline(nodes)
    ensures AlwaysInOrder(nodes) <==> Level(nodes)
  {
    WalksEndIfAcyclic(nodes);
    if Level(nodes) {
      forall nodes' | Reordered(nodes, nodes') ensures InOrder(nodes', RunOrder(nodes')) {
        SameGraph(nodes, nodes');
        LevelRunsInOrder(nodes');
      }
    } else {
      var m, n :| m in nodes && n in nodes && m.next == n.next != ""
                  && Distance(GraphOf(nodes), m.id) != Distance(GraphOf(nodes), n.id);
      if Distance(GraphOf(nodes), m.id) < Distance(GraphOf(nodes), n.id) {
        var early := UnevenRunsTooEarly(nodes, m, n);
      } else {
        var early := UnevenRunsTooEarly(nodes, n, m);
      }
    }
  }

  // ---- Walks without a cycle end ---------------------------------------------------------------

  lemma {:induction false} FollowKnown(nodes: seq<Node>, v: NodeId, k: nat)
    requires NodesOk(nodes, |nodes|) && v in Known(nodes)
    ensures Follow(NextById(nodes), v, k) != None ==> Follow(NextById(nodes), v, k).value in Known(nodes)
    decreases k
  {
    if k > 0 && v in NextById(nodes) {
      var n := NodeBefore(nodes, v);
      InGraph(nodes, n);
      FollowKnown(nodes, n.next, k - 1);
    }
  }

  lemma {:induction false} WalksEndIfAcyclic(nodes: seq<Node>)
    requires IsPipeline(nodes)
    ensures Sound(nodes)
  {
    forall v | v in Known(nodes) ensures Ends(NextById(nodes), v) {
      if !Ends(NextById(nodes), v) {
        EndlessRepeats(nodes, v);
      }
    }
  }

  lemma {:induction false} EndlessRepeats(nodes: seq<Node>, v: NodeId)
    requires Distinct(Ids(nodes)) && NodesOk(nodes, |nodes|) && v in Known(nodes) && !Ends(NextById(nodes), v)
    ensures !Acyclic(nodes)
  {
    var next := NextById(nodes);
    assert forall k: nat :: Follow(next, v, k) != None;
    var walk := seq(|nodes| + 1, k requires 0 <= k => Follow(next, v, k).value);
    forall x | x in Elements(walk) ensures x in Known(nodes) {
      var k :| 0 <= k < |walk| && walk[k] == x;
      FollowKnown(nodes, v, k);
    }
    SubsetSize(Elements(walk), Known(nodes));
    KnownAreIds(nodes);
    DistinctSize(Ids(nodes));
    DistinctExactly(walk);
    var i, j :| 0 <= i < j < |walk| && walk[i] == walk[j];
    FollowSplit(next, v, i, j - i);
    assert Follow(next, walk[i], j - i) == Some(walk[i]);
    assert walk[i] in Elements(walk) && OnCycle(next, walk[i]);
  }

  // ---- A detour --------------------------------------------------------------------------------

  /** a and c lead to d, and b leads to c. */
  function Detour(a: NodeId, b: NodeId, c: NodeId, d: NodeId): seq<Node> {
    [Node(a, "fetcher", d, None), Node(b, "fetcher", c, None), Node(c, "parser", d, None),
     Node(d, "indexer", "", None)]
  }

  lemma {:induction false} NextByIdLast(nodes: seq<Node>, n: Node)
    ensures NextById(nodes + [n]) == if n.next != "" then NextById(nodes)[n.id := n.next] else NextById(nodes)
  {
    assert (nodes + [n])[..|nodes|] == nodes;
  }

  lemma {:induction false} DetourNext(a: NodeId, b: NodeId, c: NodeId, d: NodeId)
    requires Distinct([a, b, c, d, ""])
    ensures NextById(Detour(a, b, c, d)) == map[a := d, b := c, c := d]
  {
    var nodes, ids := Detour(a, b, c, d), [a, b, c, d, ""];
    assert ids[2] != ids[4] && ids[3] != ids[4];
    NextByIdLast([], nodes[0]);
    NextByIdLast([nodes[0]], nodes[1]);
    NextByIdLast([nodes[0], nodes[1]], nodes[2]);
    NextByIdLast([nodes[0], nodes[1], nodes[2]], nodes[3]);
    assert [] + [nodes[0]] == [nodes[0]] && [nodes[0]] + [nodes[1]] == [nodes[0], nodes[1]];
    assert [nodes[0], nodes[1]] + [nodes[2]] == [nodes[0], nodes[1], nodes[2]];
    assert [nodes[0], nodes[1], nodes[2]] + [nodes[3]] == nodes;
  }

  lemma {:induction false} DetourSources(a: NodeId, b: NodeId, c: NodeId, d: NodeId)
    requires Distinct([a, b, c, d, ""])
    ensures SourcesUpTo(Detour(a, b, c, d), 4) == [a, b]
  {
    var nodes, ids := Detour(a, b, c, d), [a, b, c, d, ""];
    assert ids[0] != ids[2] && ids[0] != ids[3] && ids[1] != ids[2] && ids[1] != ids[3];
    assert ids[0] != ids[4] && ids[1] != ids[4] && ids[2] != ids[4] && ids[3] != ids[4];
    assert nodes[1] in nodes && nodes[2] in nodes;
    assert HasPredecessor(nodes, c) && HasPredecessor(nodes, d);
    assert !HasPredecessor(nodes, a) && !HasPredecessor(nodes, b);
    assert SourcesUpTo(nodes, 1) == SourcesUpTo(nodes, 0) + [a] == [a];
    assert SourcesUpTo(nodes, 2) == [a] + [b] == [a, b];
    assert SourcesUpTo(nodes, 3) == [a, b] + [] == [a, b];
  }

  lemma {:induction false} DetourIsPipeline(a: NodeId, b: NodeId, c: NodeId, d: NodeId)
    requires Distinct([a, b, c, d, ""])
    ensures IsPipeline(Detour(a, b, c, d)) && Points(Detour(a, b, c, d), c, d)
  {
    var nodes, next, ids := Detour(a, b, c, d), map[a := d, b := c, c := d], [a, b, c, d, ""];
    assert ids[0] == a && ids[1] == b && ids[2] == c && ids[3] == d && ids[4] == "";
    assert Ids(nodes) == ids[..4];
    assert nodes[2] in nodes && nodes[2].id == c && nodes[2].next == d != "";
    DetourNext(a, b, c, d);
    assert d !in next;
    StepEnds(next, d);
    StepEnds(next, c);
    StepEnds(next, a);
    StepEnds(next, b);
    forall v | v in Known(nodes) ensures !OnCycle(next, v) {
      EndsNotOnCycle(next, v);
    }
    assert nodes[0] in nodes && nodes[1] in nodes && nodes[3] in nodes;
  }

  lemma {:induction false} DetourServed(a: NodeId, b: NodeId, c: NodeId, d: NodeId, next: map<NodeId, NodeId>)
    requires Distinct([a, b, c, d]) && next == map[a := d, b := c, c := d]
    ensures Served(next, [a, b], []) == [a, b, d, c]
  {
    var ids := [a, b, c, d];
    assert ids[0] == a && ids[1] == b && ids[2] == c && ids[3] == d;
    assert Served(next, [a, b], []) == Served(next, [b, d], [a]) by {
      assert [a, b][1..] + Owed(next, [] + [a], a) == [b, d] && [] + [a] == [a];
    }
    assert Served(next, [b, d], [a]) == Served(next, [d, c], [a, b]) by {
      assert [b, d][1..] + Owed(next, [a] + [b], b) == [d, c] && [a] + [b] == [a, b];
    }
    assert Served(next, [d, c], [a, b]) == Served(next, [c], [a, b, d]) by {
      assert [d, c][1..] + Owed(next, [a, b] + [d], d) == [c] && [a, b] + [d] == [a, b, d];
    }
    assert Served(next, [c], [a, b, d]) == Served(next, [], [a, b, d, c]) by {
      assert [c][1..] + Owed(next, [a, b, d] + [c], c) == [] && [a, b, d] + [c] == [a, b, d, c];
    }
  }

  /** Of four nodes that the validator accepts, the last one runs before one that leads to it. */
  lemma {:induction false} DetourRunsTooEarly(a: NodeId, b: NodeId, c: NodeId, d: NodeId)
    requires Distinct([a, b, c, d, ""])
    ensures var nodes := Detour(a, b, c, d);
            IsPipeline(nodes) && RunOrder(nodes) == [a, b, d, c] && Points(nodes, c, d)
  {
    DetourIsPipeline(a, b, c, d);
    DetourNext(a, b, c, d);
    DetourSources(a, b, c, d);
    assert [a, b, c, d] == [a, b, c, d, ""][..4];
    DetourServed(a, b, c, d, map[a := d, b := c, c := d]);
  }
}
