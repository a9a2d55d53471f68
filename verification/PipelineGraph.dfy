/** The ingestion pipeline: the graph validator, the queue that runs an accepted graph, and a node's retries. */
module PipelineGraph {
  import opened Finite
  import opened Options

  type NodeId = string

  const NODE_TYPES := {"fetcher", "parser", "chunker", "enricher", "enhancer", "indexer"}

  /** `next == ""` means that the node has no successor. `stopOnError` is the setting the node carries, if any. */
  datatype Node = Node(id: NodeId, kind: string, next: NodeId, stopOnError: Option<bool>)

  datatype Verdict = Accepted | Empty | DuplicateId | UnknownType(index: nat) | UnknownNext(index: nat) | Cyclic

  function Ids(nodes: seq<Node>): seq<NodeId> {
    seq(|nodes|, i requires 0 <= i < |nodes| => nodes[i].id)
  }

  function Known(nodes: seq<Node>): set<NodeId> {
    set n | n in nodes :: n.id
  }

  /** The successor map: one entry for each node with a successor. Later nodes win, as in a dictionary display. */
  function NextById(nodes: seq<Node>): map<NodeId, NodeId> {
    if nodes == [] then map[]
    else
      var n, rest := nodes[|nodes| - 1], NextById(nodes[..|nodes| - 1]);
      if n.next != "" then rest[n.id := n.next] else rest
  }

  /** Where k steps along the successor map lead. */
  function Follow(next: map<NodeId, NodeId>, v: NodeId, k: nat): Option<NodeId>
    decreases k
  {
    if k == 0 then Some(v)
    else if v !in next then None
    else Follow(next, next[v], k - 1)
  }

  ghost predicate OnCycle(next: map<NodeId, NodeId>, v: NodeId) {
    exists k: nat :: k > 0 && Follow(next, v, k) == Some(v)
  }

  ghost predicate Ends(next: map<NodeId, NodeId>, v: NodeId) {
    exists k: nat :: Follow(next, v, k) == None
  }

  lemma {:induction false} FollowSplit(next: map<NodeId, NodeId>, v: NodeId, j: nat, k: nat)
    ensures Follow(next, v, j + k) == match Follow(next, v, j) case None => None case Some(w) => Follow(next, w, k)
    decreases j
  {
    if j > 0 && v in next {
      FollowSplit(next, next[v], j - 1, k);
    }
  }

  lemma {:induction false} CycleRepeats(next: map<NodeId, NodeId>, v: NodeId, k: nat, times: nat)
    requires k > 0 && Follow(next, v, k) == Some(v)
    ensures times * k >= times && Follow(next, v, times * k) == Some(v)
  {
    if times > 0 {
      CycleRepeats(next, v, k, times - 1);
      FollowSplit(next, v, (times - 1) * k, k);
      assert times * k == (times - 1) * k + k;
    }
  }

  /** A walk that ends meets no cycle. */
  lemma {:induction false} EndsNotOnCycle(next: map<NodeId, NodeId>, v: NodeId)
    requires Ends(next, v)
    ensures !OnCycle(next, v)
  {
    var e: nat :| Follow(next, v, e) == None;
    if OnCycle(next, v) {
      var k: nat :| k > 0 && Follow(next, v, k) == Some(v);
      CycleRepeats(next, v, k, e);
      FollowSplit(next, v, e, e * k - e);
    }
  }

  lemma {:induction false} StepEnds(next: map<NodeId, NodeId>, v: NodeId)
    requires v in next ==> Ends(next, next[v])
    ensures Ends(next, v)
  {
    if v in next {
      var k: nat :| Follow(next, next[v], k) == None;
      assert Follow(next, v, k + 1) == None;
    } else {
      assert Follow(next, v, 1) == None;
    }
  }

  /** The depth-first search of the validator; `visiting` and `visited` are the sets its closure shares. */
  class CycleSearch {
    const next: map<NodeId, NodeId>
    ghost const known: set<NodeId>
    var visiting: set<NodeId>
    var visited: set<NodeId>

    ghost predicate Valid()
      reads this
    {
      && next.Keys <= known && next.Values <= known
      && visiting <= known && visited <= known && visiting !! visited
      && (forall v :: v in visited ==> Ends(next, v))
    }

    constructor (nodes: seq<Node>)
      requires forall n :: n in nodes && n.next != "" ==> n.next in Known(nodes)
      ensures next == NextById(nodes) && known == Known(nodes)
      ensures Valid() && visiting == {} && visited == {}
    {
      NextByIdEntries(nodes);
      next, known := NextById(nodes), Known(nodes);
      visiting, visited := {}, {};
    }

    /** Every node on the current call path leads to `node`. */
    ghost predicate Leads(node: NodeId)
      reads this
    {
      forall v :: v in visiting ==> exists k: nat :: k > 0 && Follow(next, v, k) == Some(node)
    }

    /** Returns false where the source raises its cyclic-dependency error. */
    method Visit(node: NodeId) returns (ok: bool)
      requires Valid() && node in known && Leads(node)
      modifies this
      ensures Valid()
      ensures ok ==> visiting == old(visiting) && visited >= old(visited) + {node}
      ensures !ok ==> exists v :: v in known && OnCycle(next, v)
      decreases known - visiting
    {
      if node in visiting {
        assert OnCycle(next, node);
        return false;
      }
      if node in visited {
        return true;
      }
      visiting := visiting + {node};
      if node in next {
        forall v | v in visiting ensures exists k: nat :: k > 0 && Follow(next, v, k) == Some(next[node]) {
          if v == node {
            assert Follow(next, v, 1) == Some(next[node]);
          } else {
            var k: nat :| k > 0 && Follow(next, v, k) == Some(node);
            FollowSplit(next, v, k, 1);
            assert Follow(next, v, k + 1) == Some(next[node]);
          }
        }
        assert next[node] in next.Values;
        ok := Visit(next[node]);
        if !ok {
          return;
        }
      }
      StepEnds(next, node);
      visiting := visiting - {node};
      visited := visited + {node};
      return true;
    }
  }

  lemma {:induction false} NextByIdEntries(nodes: seq<Node>)
    ensures forall v :: v in NextById(nodes) ==>
              exists n :: n in nodes && n.id == v && n.next == NextById(nodes)[v] != ""
    ensures forall n :: n in nodes && n.next != "" ==> n.id in NextById(nodes)
    ensures NextById(nodes).Keys <= Known(nodes)
    ensures (forall n :: n in nodes && n.next != "" ==> n.next in Known(nodes)) ==>
              NextById(nodes).Values <= Known(nodes)
  {
    if nodes != [] {
      var front, last := nodes[..|nodes| - 1], nodes[|nodes| - 1];
      NextByIdEntries(front);
      assert nodes == front + [last];
      forall v | v in NextById(nodes)
        ensures exists n :: n in nodes && n.id == v && n.next == NextById(nodes)[v] != ""
      {
        if v == last.id && last.next != "" {
          assert last in nodes;
        } else {
          var n :| n in front && n.id == v && n.next == NextById(front)[v] != "";
          assert n in nodes;
        }
      }
    }
  }

  /** The first fault of one node, in the order of the source's tests. */
  predicate TypeKnown(n: Node) {
    n.kind in NODE_TYPES
  }

  predicate NextKnown(nodes: seq<Node>, n: Node) {
    n.next == "" || n.next in Known(nodes)
  }

  predicate NodesOk(nodes: seq<Node>, upTo: nat)
    requires upTo <= |nodes|
  {
    forall i :: 0 <= i < upTo ==> TypeKnown(nodes[i]) && NextKnown(nodes, nodes[i])
  }

  ghost predicate Acyclic(nodes: seq<Node>) {
    forall v :: v in Known(nodes) ==> !OnCycle(NextById(nodes), v)
  }

  /** What the validator is there to establish. */
  ghost predicate IsPipeline(nodes: seq<Node>) {
    && nodes != [] && Distinct(Ids(nodes)) && NodesOk(nodes, |nodes|) && Acyclic(nodes)
  }

  /** The checks of one node after the other. */
  method CheckNodes(nodes: seq<Node>) returns (verdict: Verdict)
    ensures verdict == Accepted <==> NodesOk(nodes, |nodes|)
    ensures verdict == Accepted || verdict.UnknownType? || verdict.UnknownNext?
    ensures verdict.UnknownType? ==>
              verdict.index < |nodes| && NodesOk(nodes, verdict.index) && !TypeKnown(nodes[verdict.index])
    ensures verdict.UnknownNext? ==> verdict.index < |nodes| && NodesOk(nodes, verdict.index)
                                     && TypeKnown(nodes[verdict.index]) && !NextKnown(nodes, nodes[verdict.index])
  {
    for i := 0 to |nodes|
      invariant NodesOk(nodes, i)
    {
      if nodes[i].kind !in NODE_TYPES {
        return UnknownType(i);
      }
      if nodes[i].next != "" && nodes[i].next !in Known(nodes) {
        return UnknownNext(i);
      }
    }
    return Accepted;
  }

  /** The search for a cycle, from every node. */
  method SearchCycles(nodes: seq<Node>) returns (ok: bool)
    requires NodesOk(nodes, |nodes|)
    ensures ok <==> Acyclic(nodes)
    ensures ok ==> WalksEnd(nodes)
  {
    var search := new CycleSearch(nodes);
    for i := 0 to |nodes|
      invariant search.Valid() && search.visiting == {} && search.next == NextById(nodes)
      invariant search.known == Known(nodes)
      invariant fresh(search)
      invariant forall j :: 0 <= j < i ==> nodes[j].id in search.visited
    {
      assert nodes[i].id in Known(nodes);
      ok := search.Visit(nodes[i].id);
      if !ok {
        return;
      }
    }
    forall v | v in Known(nodes) ensures Ends(NextById(nodes), v) && !OnCycle(NextById(nodes), v) {
      var j :| 0 <= j < |nodes| && nodes[j].id == v;
      EndsNotOnCycle(NextById(nodes), v);
    }
    ok := true;
  }

  method ValidatePipelineGraph(nodes: seq<Node>) returns (verdict: Verdict)
    ensures verdict == Accepted <==> IsPipeline(nodes)
    ensures verdict == Accepted ==> WalksEnd(nodes)
    ensures verdict == Empty <==> nodes == []
    ensures verdict == DuplicateId <==> nodes != [] && !Distinct(Ids(nodes))
    ensures verdict.UnknownType? ==> Distinct(Ids(nodes)) && verdict.index < |nodes| && NodesOk(nodes, verdict.index)
                                     && !TypeKnown(nodes[verdict.index])
    ensures verdict.UnknownNext? ==> Distinct(Ids(nodes)) && verdict.index < |nodes| && NodesOk(nodes, verdict.index)
                                     && TypeKnown(nodes[verdict.index]) && !NextKnown(nodes, nodes[verdict.index])
    ensures verdict == Cyclic <==> nodes != [] && Distinct(Ids(nodes)) && NodesOk(nodes, |nodes|) && !Acyclic(nodes)
  {
    if nodes == [] {
      return Empty;
    }
    var ids := Ids(nodes);
    DistinctExactly(ids);
    if |ids| != |Elements(ids)| {
      return DuplicateId;
    }
    verdict := CheckNodes(nodes);
    if verdict != Accepted {
      return;
    }
    var ok := SearchCycles(nodes);
    verdict := if ok then Accepted else Cyclic;
  }

  // Running an accepted graph.

  predicate HasPredecessor(nodes: seq<Node>, v: NodeId) {
    v != "" && exists n :: n in nodes && n.next == v
  }

  lemma {:induction false} FollowStays(next: map<NodeId, NodeId>, u: set<NodeId>, v: NodeId, k: nat)
    requires v in u && forall x :: x in u ==> x in next && next[x] in u
    ensures Follow(next, v, k) != None
    decreases k
  {
    if k > 0 {
      FollowStays(next, u, next[v], k - 1);
    }
  }

  /** No finite set of nodes of an ended-walk map is its own image: some member has no predecessor in the set. */
  lemma {:induction false} NotSelfFed(next: map<NodeId, NodeId>, rest: set<NodeId>)
    requires forall v :: v in rest ==> Ends(next, v)
    requires forall y :: y in rest ==> exists x :: x in rest && x in next && next[x] == y
    ensures rest == {}
  {
    var inside := set x | x in rest && x in next && next[x] in rest;
    assert inside <= next.Keys && inside <= rest;
    forall y | y in rest ensures exists x :: x in inside && next[x] == y {
      var x :| x in rest && x in next && next[x] == y;
      assert x in inside;
    }
    ImageSize(next, inside, rest);
    SubsetSize(inside, rest);
    assert inside == rest;
    StaysForever(next, rest);
  }

  lemma {:induction false} StaysForever(next: map<NodeId, NodeId>, rest: set<NodeId>)
    requires forall v :: v in rest ==> Ends(next, v)
    requires forall x :: x in rest ==> x in next && next[x] in rest
    ensures rest == {}
  {
    if v :| v in rest {
      var k: nat :| Follow(next, v, k) == None;
      FollowStays(next, rest, v, k);
    }
  }

  ghost predicate WalksEnd(nodes: seq<Node>) {
    forall v :: v in Known(nodes) ==> Ends(NextById(nodes), v)
  }

  /** In a graph whose walks all end, a set that has every source and every successor of its members has everything. */
  lemma {:induction false} AllReached(nodes: seq<Node>, reached: set<NodeId>)
    requires Distinct(Ids(nodes)) && WalksEnd(nodes) && reached <= Known(nodes)
    requires forall v :: v in Known(nodes) && !HasPredecessor(nodes, v) ==> v in reached
    requires forall n :: n in nodes && n.id in reached && n.next != "" ==> n.next in reached
    ensures reached == Known(nodes)
  {
    var next, rest := NextById(nodes), Known(nodes) - reached;
    forall y | y in rest ensures exists x :: x in rest && x in next && next[x] == y {
      var n :| n in nodes && n.next == y;
      NextOf(nodes, n);
      assert n.id in Known(nodes);
    }
    NotSelfFed(next, rest);
    assert forall v :: v in Known(nodes) ==> v !in rest;
  }

  /** With distinct ids the successor map gives back each node's own successor. */
  lemma {:induction false} NextOf(nodes: seq<Node>, n: Node)
    requires Distinct(Ids(nodes)) && n in nodes
    ensures n.next != "" ==> n.id in NextById(nodes) && NextById(nodes)[n.id] == n.next
    ensures n.next == "" ==> n.id !in NextById(nodes)
  {
    NextByIdEntries(nodes);
    if n.id in NextById(nodes) {
      var m :| m in nodes && m.id == n.id && m.next == NextById(nodes)[n.id] != "";
      SameId(nodes, m, n);
    }
  }

  lemma {:induction false} SameId(nodes: seq<Node>, m: Node, n: Node)
    requires Distinct(Ids(nodes)) && m in nodes && n in nodes && m.id == n.id
    ensures m == n
  {
    var i :| 0 <= i < |nodes| && nodes[i] == m;
    var j :| 0 <= j < |nodes| && nodes[j] == n;
    assert Ids(nodes)[i] == Ids(nodes)[j];
  }

  datatype RunStatus = Rejected(why: Verdict) | Success | NodeFailed(node: NodeId) | Unreachable

  function NodeMap(nodes: seq<Node>): map<NodeId, Node> {
    if nodes == [] then map[] else NodeMap(nodes[..|nodes| - 1])[nodes[|nodes| - 1].id := nodes[|nodes| - 1]]
  }

  lemma {:induction false} NodeMapEntries(nodes: seq<Node>)
    ensures NodeMap(nodes).Keys == Known(nodes)
    ensures forall v :: v in NodeMap(nodes) ==> NodeMap(nodes)[v] in nodes && NodeMap(nodes)[v].id == v
  {
    if nodes != [] {
      var front, last := nodes[..|nodes| - 1], nodes[|nodes| - 1];
      assert nodes == front + [last];
      NodeMapEntries(front);
    }
  }

  /** The `stop_on_error` setting after the nodes of `order` ran: the latest one that a node carried, at first true. */
  function StopFlag(nodes: seq<Node>, order: seq<NodeId>): bool {
    if order == [] then true
    else
      var last := order[|order| - 1];
      if last in NodeMap(nodes) && NodeMap(nodes)[last].stopOnError.Some?
      then NodeMap(nodes)[last].stopOnError.value
      else StopFlag(nodes, order[..|order| - 1])
  }

  lemma {:induction false} StopStep(nodes: seq<Node>, order: seq<NodeId>, v: NodeId)
    requires v in NodeMap(nodes)
    ensures StopFlag(nodes, order + [v]) ==
            if NodeMap(nodes)[v].stopOnError.Some? then NodeMap(nodes)[v].stopOnError.value else StopFlag(nodes, order)
  {
    assert (order + [v])[..|order|] == order;
  }

  lemma {:induction false} PredecessorStep(nodes: seq<Node>, i: nat)
    requires i < |nodes|
    ensures forall v :: HasPredecessor(nodes[..i + 1], v) <==>
              HasPredecessor(nodes[..i], v) || (v != "" && nodes[i].next == v)
  {
    var front := nodes[..i];
    assert nodes[..i + 1] == front + [nodes[i]];
    forall v
      ensures HasPredecessor(front + [nodes[i]], v) <==> HasPredecessor(front, v) || (v != "" && nodes[i].next == v)
    {
      assert nodes[i] in front + [nodes[i]];
      assert forall n :: n in front + [nodes[i]] <==> n in front || n == nodes[i];
    }
  }

  method CountIncoming(nodes: seq<Node>) returns (incoming: map<NodeId, nat>)
    requires NodesOk(nodes, |nodes|)
    ensures incoming.Keys == Known(nodes)
    ensures forall v :: v in incoming ==> (incoming[v] > 0 <==> HasPredecessor(nodes, v))
  {
    incoming := map v | v in Known(nodes) :: 0;
    for i := 0 to |nodes|
      invariant incoming.Keys == Known(nodes)
      invariant forall v :: v in incoming ==> (incoming[v] > 0 <==> HasPredecessor(nodes[..i], v))
    {
      PredecessorStep(nodes, i);
      if nodes[i].next != "" {
        incoming := incoming[nodes[i].next := incoming[nodes[i].next] + 1];
      }
    }
    assert nodes[..|nodes|] == nodes;
  }

  /** Those of the first n nodes that nothing points to. */
  function SourcesUpTo(nodes: seq<Node>, n: nat): seq<NodeId>
    requires n <= |nodes|
  {
    if n == 0 then []
    else SourcesUpTo(nodes, n - 1) + if HasPredecessor(nodes, nodes[n - 1].id) then [] else [nodes[n - 1].id]
  }

  lemma {:induction false} SourcesEntries(nodes: seq<Node>, n: nat)
    requires n <= |nodes|
    ensures forall v :: v in SourcesUpTo(nodes, n) <==> v in Known(nodes[..n]) && !HasPredecessor(nodes, v)
  {
    if n > 0 {
      SourcesEntries(nodes, n - 1);
      var last := nodes[n - 1];
      assert nodes[..n] == nodes[..n - 1] + [last];
      assert Known(nodes[..n]) == Known(nodes[..n - 1]) + {last.id};
    }
  }

  /** Nodes that nothing points to, in node order. */
  method Sources(nodes: seq<Node>) returns (queue: seq<NodeId>)
    requires NodesOk(nodes, |nodes|)
    ensures queue == SourcesUpTo(nodes, |nodes|)
    ensures forall v :: v in queue <==> v in Known(nodes) && !HasPredecessor(nodes, v)
  {
    var incoming := CountIncoming(nodes);
    queue := [];
    for i := 0 to |nodes|
      invariant queue == SourcesUpTo(nodes, i)
    {
      assert nodes[i].id in Known(nodes);
      if incoming[nodes[i].id] == 0 {
        queue := queue + [nodes[i].id];
      }
    }
    SourcesEntries(nodes, |nodes|);
    assert nodes[..|nodes|] == nodes;
  }

  /** Nothing ran before a predecessor of it did. */
  ghost predicate PredecessorFirst(nodes: seq<Node>, order: seq<NodeId>) {
    forall i :: 0 <= i < |order| && HasPredecessor(nodes, order[i]) ==>
      exists j :: 0 <= j < i && Points(nodes, order[j], order[i])
  }

  ghost predicate Points(nodes: seq<Node>, from: NodeId, to: NodeId) {
    exists n :: n in nodes && n.id == from && n.next == to != ""
  }

  /** A failure that did not stop the run came while the setting said to go on. */
  ghost predicate FailuresTolerated(nodes: seq<Node>, order: seq<NodeId>, fails: NodeId -> bool) {
    forall i :: 0 <= i < |order| && fails(order[i]) ==> !StopFlag(nodes, order[..i + 1])
  }

  ghost predicate LastFailure(order: seq<NodeId>, fails: NodeId -> bool, status: RunStatus) {
    match status
    case Success => forall v :: v in order ==> !fails(v)
    case NodeFailed(v) => exists i :: 0 <= i < |order| && order[i] == v && fails(v)
                                      && forall j :: i < j < |order| ==> !fails(order[j])
    case _ => false
  }

  /** The run queue so far: what was visited, and what is still owed a visit. */
  ghost predicate Queued(nodes: seq<Node>, order: seq<NodeId>, queue: seq<NodeId>) {
    && Distinct(order) && Elements(order) <= Known(nodes) && PredecessorFirst(nodes, order)
    && (forall v :: v in queue ==> v in Known(nodes))
    && (forall v :: v in queue && HasPredecessor(nodes, v) ==>
         exists j :: 0 <= j < |order| && Points(nodes, order[j], v))
    && (forall v :: v in Known(nodes) && !HasPredecessor(nodes, v) ==> v in order || v in queue)
    && (forall n :: n in nodes && n.id in order && n.next != "" ==> n.next in order || n.next in queue)
  }

  lemma {:induction false} QueueSkip(nodes: seq<Node>, order: seq<NodeId>, queue: seq<NodeId>)
    requires Queued(nodes, order, queue) && queue != [] && queue[0] in order
    ensures Queued(nodes, order, queue[1..])
  {
  }

  lemma {:induction false} QueueRun(nodes: seq<Node>, order: seq<NodeId>, queue: seq<NodeId>, n: Node,
                                    queue': seq<NodeId>)
    requires Distinct(Ids(nodes)) && NodesOk(nodes, |nodes|)
    requires Queued(nodes, order, queue) && queue != [] && queue[0] == n.id && n.id !in order && n in nodes
    requires queue' == if n.next != "" && n.next !in order + [n.id] then queue[1..] + [n.next] else queue[1..]
    ensures Queued(nodes, order + [n.id], queue')
  {
    var order' := order + [n.id];
    assert queue == [n.id] + queue[1..];
    forall i | 0 <= i < |order'| && HasPredecessor(nodes, order'[i])
      ensures exists j :: 0 <= j < i && Points(nodes, order'[j], order'[i])
    {
      var j :| 0 <= j < |order| && (i < |order| ==> j < i) && Points(nodes, order[j], order'[i]);
      assert order'[j] == order[j];
    }
    forall v | v in queue'
      ensures v in Known(nodes)
      ensures HasPredecessor(nodes, v) ==> exists j :: 0 <= j < |order'| && Points(nodes, order'[j], v)
    {
      if v in queue {
        if HasPredecessor(nodes, v) {
          var j :| 0 <= j < |order| && Points(nodes, order[j], v);
          assert order'[j] == order[j];
        }
      } else {
        assert Points(nodes, n.id, v) && order'[|order|] == n.id;
      }
    }
    forall m | m in nodes && m.id in order' && m.next != "" ensures m.next in order' || m.next in queue' {
      if m.id == n.id {
        SameId(nodes, m, n);
      }
    }
  }

  /** What a node that has run adds to the queue. */
  function Owed(next: map<NodeId, NodeId>, order: seq<NodeId>, v: NodeId): seq<NodeId> {
    if v in next && next[v] !in order then [next[v]] else []
  }

  /** The order in which a queue is served if no failure stops it. */
  function Served(next: map<NodeId, NodeId>, queue: seq<NodeId>, order: seq<NodeId>): seq<NodeId>
    decreases |next.Keys - Elements(order)|, |queue|
  {
    if queue == [] then order
    else
      var v := queue[0];
      if v in order then Served(next, queue[1..], order)
      else
        ServedEnds(next, order, v);
        Served(next, queue[1..] + Owed(next, order + [v], v), order + [v])
  }

  lemma {:induction false} ServedEnds(next: map<NodeId, NodeId>, order: seq<NodeId>, v: NodeId)
    requires v !in order
    ensures |next.Keys - Elements(order + [v])| <= |next.Keys - Elements(order)|
    ensures v in next ==> |next.Keys - Elements(order + [v])| < |next.Keys - Elements(order)|
  {
    var now, before := next.Keys - Elements(order + [v]), next.Keys - Elements(order);
    SubsetSize(now, before);
    if v in next {
      assert v in before && v in Elements(order + [v]);
    }
  }

  lemma {:induction false} ServedGrows(next: map<NodeId, NodeId>, queue: seq<NodeId>, order: seq<NodeId>)
    ensures order <= Served(next, queue, order)
    decreases |next.Keys - Elements(order)|, |queue|
  {
    if queue != [] {
      var v := queue[0];
      if v in order {
        ServedGrows(next, queue[1..], order);
      } else {
        ServedEnds(next, order, v);
        ServedGrows(next, queue[1..] + Owed(next, order + [v], v), order + [v]);
      }
    }
  }

  /** The order in which the nodes run if no failure stops them. */
  function RunOrder(nodes: seq<Node>): seq<NodeId> {
    Served(NextById(nodes), SourcesUpTo(nodes, |nodes|), [])
  }

  lemma {:induction false} ServedNext(next: map<NodeId, NodeId>, queue: seq<NodeId>, order: seq<NodeId>)
    requires queue != [] && queue[0] !in order
    ensures order + [queue[0]] <= Served(next, queue, order)
  {
    var v := queue[0];
    ServedGrows(next, queue[1..] + Owed(next, order + [v], v), order + [v]);
  }

  /** Serving the queue to its end keeps what holds of the queue. */
  lemma {:induction false} ServedKeeps(nodes: seq<Node>, queue: seq<NodeId>, order: seq<NodeId>)
    requires Distinct(Ids(nodes)) && NodesOk(nodes, |nodes|) && Queued(nodes, order, queue)
    ensures Queued(nodes, Served(NextById(nodes), queue, order), [])
    decreases |NextById(nodes).Keys - Elements(order)|, |queue|
  {
    if queue != [] {
      var next, v := NextById(nodes), queue[0];
      if v in order {
        QueueSkip(nodes, order, queue);
        ServedKeeps(nodes, queue[1..], order);
      } else {
        var n :| n in nodes && n.id == v;
        NextOf(nodes, n);
        var queue' := queue[1..] + Owed(next, order + [v], v);
        assert queue[1..] + [] == queue[1..];
        QueueRun(nodes, order, queue, n, queue');
        ServedEnds(next, order, v);
        ServedKeeps(nodes, queue', order + [v]);
      }
    }
  }

  /** In an accepted graph all nodes are served, once each, and none before some predecessor of it. */
  lemma {:induction false} RunOrderIsComplete(nodes: seq<Node>)
    requires Distinct(Ids(nodes)) && NodesOk(nodes, |nodes|) && WalksEnd(nodes)
    ensures Distinct(RunOrder(nodes)) && PredecessorFirst(nodes, RunOrder(nodes))
    ensures Elements(RunOrder(nodes)) == Known(nodes) && |RunOrder(nodes)| == |nodes|
  {
    SourcesEntries(nodes, |nodes|);
    assert nodes[..|nodes|] == nodes;
    ServedKeeps(nodes, SourcesUpTo(nodes, |nodes|), []);
    AllReached(nodes, Elements(RunOrder(nodes)));
    AllCounted(nodes, RunOrder(nodes));
  }

  /** What has run when a run is stopped. */
  lemma {:induction false} RunPrefix(nodes: seq<Node>, order: seq<NodeId>)
    requires Distinct(Ids(nodes)) && NodesOk(nodes, |nodes|) && WalksEnd(nodes) && order <= RunOrder(nodes)
    ensures Distinct(order) && PredecessorFirst(nodes, order) && Elements(order) <= Known(nodes)
  {
    RunOrderIsComplete(nodes);
    var all := RunOrder(nodes);
    forall i | 0 <= i < |order| && HasPredecessor(nodes, order[i])
      ensures exists j :: 0 <= j < i && Points(nodes, order[j], order[i])
    {
      var j :| 0 <= j < i && Points(nodes, all[j], all[i]);
      assert order[j] == all[j];
    }
    forall v | v in Elements(order) ensures v in Known(nodes) {
      var i :| 0 <= i < |order| && order[i] == v;
      assert all[i] in Elements(all);
    }
  }

  function StatusAfter(status: RunStatus, v: NodeId, fails: NodeId -> bool): RunStatus {
    if fails(v) then NodeFailed(v) else status
  }

  lemma {:induction false} LastFailureStep(order: seq<NodeId>, v: NodeId, fails: NodeId -> bool, status: RunStatus)
    requires LastFailure(order, fails, status)
    ensures LastFailure(order + [v], fails, StatusAfter(status, v, fails))
  {
    var order' := order + [v];
    if fails(v) {
      assert order'[|order|] == v;
    } else if status.NodeFailed? {
      var i :| 0 <= i < |order| && order[i] == status.node && fails(status.node)
               && forall j :: i < j < |order| ==> !fails(order[j]);
      assert order'[i] == status.node;
    }
  }

  lemma {:induction false} TolerateStep(nodes: seq<Node>, order: seq<NodeId>, v: NodeId, fails: NodeId -> bool)
    requires FailuresTolerated(nodes, order, fails) && (fails(v) ==> !StopFlag(nodes, order + [v]))
    ensures FailuresTolerated(nodes, order + [v], fails)
  {
    var order' := order + [v];
    forall i | 0 <= i < |order'| && fails(order'[i]) ensures !StopFlag(nodes, order'[..i + 1]) {
      if i < |order| {
        assert order'[..i + 1] == order[..i + 1];
      } else {
        assert order'[..i + 1] == order';
      }
    }
  }

  lemma {:induction false} AllCounted(nodes: seq<Node>, order: seq<NodeId>)
    requires Distinct(Ids(nodes)) && Distinct(order) && Elements(order) == Known(nodes)
    ensures |order| == |nodes|
  {
    DistinctSize(order);
    DistinctSize(Ids(nodes));
    KnownAreIds(nodes);
  }

  /** Where the run stands between two nodes. */
  ghost predicate Running(nodes: seq<Node>, order: seq<NodeId>, queue: seq<NodeId>, fails: NodeId -> bool,
                          status: RunStatus) {
    && RunOrder(nodes) == Served(NextById(nodes), queue, order)
    && FailuresTolerated(nodes, order, fails) && LastFailure(order, fails, status)
  }

  /** The next node of the queue that has not run yet is one of the graph. */
  lemma {:induction false} RunNext(nodes: seq<Node>, order: seq<NodeId>, queue: seq<NodeId>)
    requires Distinct(Ids(nodes)) && NodesOk(nodes, |nodes|) && WalksEnd(nodes)
    requires RunOrder(nodes) == Served(NextById(nodes), queue, order) && queue != [] && queue[0] !in order
    ensures order + [queue[0]] <= RunOrder(nodes) && queue[0] in Known(nodes) && |order| < |nodes|
  {
    ServedNext(NextById(nodes), queue, order);
    RunOrderIsComplete(nodes);
    RunPrefix(nodes, order + [queue[0]]);
    assert queue[0] in Elements(order + [queue[0]]);
  }

  lemma {:induction false} RunStep(nodes: seq<Node>, order: seq<NodeId>, queue: seq<NodeId>, n: Node,
                                   queue': seq<NodeId>, fails: NodeId -> bool, status: RunStatus)
    requires Distinct(Ids(nodes)) && n in nodes && queue != [] && queue[0] == n.id && n.id !in order
    requires Running(nodes, order, queue, fails, status) && (fails(n.id) ==> !StopFlag(nodes, order + [n.id]))
    requires queue' == if n.next != "" && n.next !in order + [n.id] then queue[1..] + [n.next] else queue[1..]
    ensures Running(nodes, order + [n.id], queue', fails, StatusAfter(status, n.id, fails))
  {
    NextOf(nodes, n);
    assert queue[1..] + [] == queue[1..];
    LastFailureStep(order, n.id, fails, status);
    TolerateStep(nodes, order, n.id, fails);
  }

  ghost predicate RanToTheEnd(nodes: seq<Node>, order: seq<NodeId>, fails: NodeId -> bool) {
    order == RunOrder(nodes) && Elements(order) == Known(nodes) && FailuresTolerated(nodes, order, fails)
  }

  ghost predicate StoppedByFailure(nodes: seq<Node>, order: seq<NodeId>, fails: NodeId -> bool) {
    && order != [] && Elements(order) <= Known(nodes) && fails(order[|order| - 1]) && StopFlag(nodes, order)
    && FailuresTolerated(nodes, order[..|order| - 1], fails)
  }

  /** What the caller learns when a failure stops the run. */
  lemma {:induction false} RunStopped(nodes: seq<Node>, order: seq<NodeId>, v: NodeId, fails: NodeId -> bool,
                                      status: RunStatus)
    requires FailuresTolerated(nodes, order, fails) && LastFailure(order, fails, status)
    requires fails(v) && StopFlag(nodes, order + [v]) && Elements(order + [v]) <= Known(nodes)
    ensures StoppedByFailure(nodes, order + [v], fails) && LastFailure(order + [v], fails, NodeFailed(v))
    ensures exists w :: w in Known(nodes) && fails(w)
  {
    var o := order + [v];
    assert o[..|o| - 1] == order && o[|o| - 1] in Elements(o);
    LastFailureStep(order, v, fails, status);
  }

  /** What the caller learns when the queue runs dry. */
  lemma {:induction false} RunEnd(nodes: seq<Node>, order: seq<NodeId>, fails: NodeId -> bool, status: RunStatus)
    requires Distinct(Ids(nodes)) && NodesOk(nodes, |nodes|) && WalksEnd(nodes)
    requires Running(nodes, order, [], fails, status)
    ensures RanToTheEnd(nodes, order, fails) && |order| == |nodes|
    ensures status == Success <==> forall v :: v in Known(nodes) ==> !fails(v)
  {
    RunOrderIsComplete(nodes);
  }

  /** The queue loop of the engine over an accepted graph; `fails(v)` is the outcome of node v after its retries. */
  method RunQueue(nodes: seq<Node>, fails: NodeId -> bool) returns (status: RunStatus, order: seq<NodeId>)
    requires Distinct(Ids(nodes)) && NodesOk(nodes, |nodes|) && WalksEnd(nodes)
    ensures order <= RunOrder(nodes) && Distinct(order) && PredecessorFirst(nodes, order)
    ensures RanToTheEnd(nodes, order, fails) || StoppedByFailure(nodes, order, fails)
    ensures LastFailure(order, fails, status)
    ensures status == Success <==> forall v :: v in Known(nodes) ==> !fails(v)
  {
    var nodeMap := NodeMap(nodes);
    NodeMapEntries(nodes);
    var queue := Sources(nodes);
    var stopOnError := true;
    order, status := [], Success;
    while queue != []
      invariant Running(nodes, order, queue, fails, status)
      invariant stopOnError == StopFlag(nodes, order)
      decreases |nodes| - |order|, |queue|
    {
      var v := queue[0];
      if v in order {
        queue := queue[1..];
        continue;
      }
      RunNext(nodes, order, queue);
      ghost var order0, queue0, status0 := order, queue, status;
      var n := nodeMap[v];
      queue := queue[1..];
      order := order + [v];
      StopStep(nodes, order0, v);
      if n.stopOnError.Some? {
        stopOnError := n.stopOnError.value;
      }
      if fails(v) {
        status := NodeFailed(v);
        if stopOnError {
          RunPrefix(nodes, order);
          RunStopped(nodes, order0, v, fails, status0);
          return;
        }
      }
      if n.next != "" && n.next !in order {
        queue := queue + [n.next];
      }
      RunStep(nodes, order0, queue0, n, queue, fails, status0);
    }
    RunEnd(nodes, order, fails, status);
    RunPrefix(nodes, order);
    if status == Success && |order| != |nodes| {
      status := Unreachable;
    }
  }

  /** The latest node that carries the setting decides. */
  lemma {:induction false} LatestSetting(nodes: seq<Node>, order: seq<NodeId>, j: nat)
    requires j < |order| && order[j] in NodeMap(nodes) && NodeMap(nodes)[order[j]].stopOnError.Some?
    requires forall i :: j < i < |order| && order[i] in NodeMap(nodes) ==> NodeMap(nodes)[order[i]].stopOnError.None?
    ensures StopFlag(nodes, order) == NodeMap(nodes)[order[j]].stopOnError.value
  {
    if j < |order| - 1 {
      LatestSetting(nodes, order[..|order| - 1], j);
    }
  }

  lemma {:induction false} StopsByDefault(nodes: seq<Node>, order: seq<NodeId>)
    requires forall n :: n in nodes ==> n.stopOnError.None?
    ensures StopFlag(nodes, order)
  {
    NodeMapEntries(nodes);
    if order != [] {
      StopsByDefault(nodes, order[..|order| - 1]);
    }
  }

  /** If no node carries the setting, a run ends at its first failing node. */
  lemma {:induction false} FirstFailureEnds(nodes: seq<Node>, order: seq<NodeId>, fails: NodeId -> bool)
    requires RanToTheEnd(nodes, order, fails) || StoppedByFailure(nodes, order, fails)
    requires forall n :: n in nodes ==> n.stopOnError.None?
    ensures forall i :: 0 <= i < |order| && fails(order[i]) ==> i == |order| - 1
  {
    forall i | 0 <= i < |order| && fails(order[i]) ensures i == |order| - 1 {
      assert i < |order| - 1 ==> order[..|order| - 1][..i + 1] == order[..i + 1];
      StopsByDefault(nodes, order[..i + 1]);
    }
  }

  /** Validation and run together: the engine never reports unreachable nodes, and succeeds exactly when the
      pipeline is well formed and no node fails; then every node ran exactly once. */
  method Execute(nodes: seq<Node>, fails: NodeId -> bool) returns (status: RunStatus, order: seq<NodeId>)
    ensures status == Success <==> IsPipeline(nodes) && forall v :: v in Known(nodes) ==> !fails(v)
    ensures status == Success ==> multiset(order) == multiset(Ids(nodes))
    ensures status.Rejected? <==> !IsPipeline(nodes)
    ensures status != Unreachable
    ensures status.Rejected? ==> order == []
  {
    var verdict := ValidatePipelineGraph(nodes);
    if verdict != Accepted {
      return Rejected(verdict), [];
    }
    status, order := RunQueue(nodes, fails);
    if status == Success {
      KnownAreIds(nodes);
      SameElements(order, Ids(nodes));
    }
  }

  lemma {:induction false} KnownAreIds(nodes: seq<Node>)
    ensures Elements(Ids(nodes)) == Known(nodes)
  {
    forall n | n in nodes ensures n.id in Ids(nodes) {
      var i :| 0 <= i < |nodes| && nodes[i] == n;
      assert Ids(nodes)[i] == n.id;
    }
  }

  // One node: attempts with a bounded number of retries.

  const DEFAULT_RETRIES: map<string, int> :=
    map["fetcher" := 2, "parser" := 1, "chunker" := 0, "enricher" := 2, "enhancer" := 2, "indexer" := 0]

  function MaxRetries(kind: string, configured: Option<int>): (r: nat)
    requires kind in NODE_TYPES
    ensures r <= 5
  {
    var wanted := if configured.Some? then configured.value else DEFAULT_RETRIES[kind];
    if wanted < 0 then 0 else if wanted > 5 then 5 else wanted
  }

  /** A setting from 0 to 5 is kept, any other is moved to the nearest; without one the kind of the node decides. */
  lemma {:induction false} RetriesAsAsked(kind: string, wanted: int)
    requires kind in NODE_TYPES
    ensures 0 <= wanted <= 5 ==> MaxRetries(kind, Some(wanted)) == wanted
    ensures wanted < 0 ==> MaxRetries(kind, Some(wanted)) == 0
    ensures wanted > 5 ==> MaxRetries(kind, Some(wanted)) == 5
    ensures MaxRetries(kind, None) == DEFAULT_RETRIES[kind]
  {
  }

  /** `works(k)` says whether attempt k returns without error, timeout or exception. */
  method RunNode(kind: string, configured: Option<int>, works: nat -> bool) returns (ok: bool, attempt: nat)
    requires kind in NODE_TYPES
    ensures 1 <= attempt <= MaxRetries(kind, configured) + 1
    ensures ok ==> works(attempt)
    ensures forall k :: 1 <= k < attempt ==> !works(k)
    ensures !ok ==> attempt == MaxRetries(kind, configured) + 1 && !works(attempt)
  {
    var maxRetries := MaxRetries(kind, configured);
    for a := 1 to maxRetries + 2
      invariant forall k :: 1 <= k < a ==> !works(k)
    {
      if works(a) {
        return true, a;
      }
    }
    return false, maxRetries + 1;
  }
}
