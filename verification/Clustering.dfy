/** Clustering of failed queries: the worklist DBSCAN over a label array. */
module Clustering {
  import opened Finite
  import opened Cosine

  /** An instance: n points, the closeness test `distance <= eps`, and min_samples. */
  datatype Space = Space(n: nat, near: (nat, nat) -> bool, minSamples: int)

  ghost predicate Symmetric(sp: Space) {
    forall i: nat, j: nat :: sp.near(i, j) == sp.near(j, i)
  }

  /** The space that an analyser builds over a list of embeddings. */
  function SpaceOf(embeddings: seq<seq<real>>, eps: real, sqrt: real -> real, minSamples: int): Space {
    Space(|embeddings|,
          (i: nat, j: nat) => i < |embeddings| && j < |embeddings|
                              && CosineDistance(embeddings[i], embeddings[j], sqrt) <= eps,
          minSamples)
  }

  lemma {:induction false} SpaceOfSymmetric(embeddings: seq<seq<real>>, eps: real, sqrt: real -> real, minSamples: int)
    ensures Symmetric(SpaceOf(embeddings, eps, sqrt, minSamples))
  {
    forall i: nat, j: nat
      ensures SpaceOf(embeddings, eps, sqrt, minSamples).near(i, j)
           == SpaceOf(embeddings, eps, sqrt, minSamples).near(j, i)
    {
      if i < |embeddings| && j < |embeddings| {
        CosineDistanceSymmetric(embeddings[i], embeddings[j], sqrt);
      }
    }
  }

  predicate Adjacent(sp: Space, i: nat, j: nat) {
    i < sp.n && j < sp.n && i != j && sp.near(i, j)
  }

  function Neighbours(sp: Space, i: nat): set<nat> {
    set j: nat | j < sp.n && Adjacent(sp, i, j)
  }

  /** The test that lets a point start a cluster. */
  predicate Core(sp: Space, i: nat) {
    |Neighbours(sp, i)| + 1 >= sp.minSamples
  }

  /** The stricter test that lets a reached point extend a cluster. */
  predicate StrongCore(sp: Space, i: nat) {
    |Neighbours(sp, i)| >= sp.minSamples
  }

  method RegionQuery(sp: Space, index: nat) returns (neighbours: seq<nat>)
    requires index < sp.n
    ensures Distinct(neighbours)
    ensures Elements(neighbours) == Neighbours(sp, index)
    ensures |neighbours| == |Neighbours(sp, index)|
  {
    neighbours := [];
    for j := 0 to sp.n
      invariant forall x: nat :: x in neighbours <==> x < j && Adjacent(sp, index, x)
      invariant Distinct(neighbours)
    {
      if j != index && sp.near(index, j) {
        assert j !in neighbours;
        neighbours := neighbours + [j];
      }
    }
    DistinctSize(neighbours);
    assert Elements(neighbours) == Neighbours(sp, index);
  }

  /** What a finished clustering says about its input. `seeds[c - 1]` is the point that started cluster c. */
  datatype Clustering = Clustering(labels: seq<int>, seeds: seq<nat>)

  ghost predicate Wellformed(sp: Space, c: Clustering) {
    && |c.labels| == sp.n
    && (forall i :: 0 <= i < sp.n ==> -1 <= c.labels[i] <= |c.seeds|)
    && (forall k :: 0 <= k < |c.seeds| ==> c.seeds[k] < sp.n && c.labels[c.seeds[k]] == k + 1)
  }

  /** A point whose neighbours were put on the worklist of its cluster. */
  ghost predicate Expands(sp: Space, c: Clustering, i: nat)
    requires Wellformed(sp, c)
  {
    i < sp.n && c.labels[i] > 0 && (StrongCore(sp, i) || c.seeds[c.labels[i] - 1] == i)
  }

  /** A walk from the seed of cluster k to `last`: near steps, every point before the last expands cluster k. */
  ghost predicate Chain(sp: Space, c: Clustering, k: int, path: seq<nat>, last: nat)
    requires Wellformed(sp, c)
  {
    && 1 <= k <= |c.seeds|
    && path != [] && path[0] == c.seeds[k - 1] && path[|path| - 1] == last
    && (forall i :: 0 <= i < |path| ==> path[i] < sp.n && c.labels[path[i]] == k)
    && (forall i :: 0 <= i < |path| - 1 ==> Adjacent(sp, path[i], path[i + 1]) && Expands(sp, c, path[i]))
  }

  /** Everything adjacent to an expanding point is in its cluster or an older one. */
  ghost predicate Closed(sp: Space, c: Clustering)
    requires Wellformed(sp, c)
  {
    forall u: nat, v: nat :: Expands(sp, c, u) && Adjacent(sp, u, v) ==> 0 < c.labels[v] <= c.labels[u]
  }

  ghost predicate Reached(sp: Space, c: Clustering, v: nat)
    requires Wellformed(sp, c) && v < sp.n
  {
    exists path :: Chain(sp, c, c.labels[v], path, v)
  }

  ghost predicate Linked(sp: Space, c: Clustering)
    requires Wellformed(sp, c)
  {
    forall v: nat {:trigger Reached(sp, c, v)} :: v < sp.n && c.labels[v] > 0 ==> Reached(sp, c, v)
  }

  /** Noise was refused as a cluster start; seeds were accepted and came in index order. */
  ghost predicate Ordered(sp: Space, c: Clustering)
    requires Wellformed(sp, c)
  {
    && (forall i: nat :: i < sp.n && c.labels[i] == 0 ==> !Core(sp, i))
    && (forall k :: 0 <= k < |c.seeds| ==> Core(sp, c.seeds[k]))
    && (forall k, i: nat :: 0 <= k < |c.seeds| && i < c.seeds[k] && Core(sp, i) ==> 0 < c.labels[i] <= k)
  }

  /** The contract of the clustering: all that its callers may rely on. */
  ghost predicate IsClustering(sp: Space, c: Clustering) {
    && Wellformed(sp, c)
    && (forall i :: 0 <= i < sp.n ==> c.labels[i] >= 0)
    && Closed(sp, c) && Linked(sp, c) && Ordered(sp, c)
  }

  /** A worklist `work` with its walked part `work[..j]`; `via[t]` put `work[t]` on the list. */
  ghost predicate Worklist(sp: Space, c: Clustering, work: seq<nat>, j: nat, via: seq<nat>)
    requires Wellformed(sp, c)
  {
    && j <= |work| && |via| == |work| && Distinct(work)
    && (forall t :: 0 <= t < |work| ==> work[t] < sp.n)
    && (forall t :: 0 <= t < j ==> c.labels[work[t]] > 0)
    && (forall t :: 0 <= t < |work| ==>
          Adjacent(sp, via[t], work[t]) && Expands(sp, c, via[t]) && c.labels[via[t]] == |c.seeds|)
  }

  /** `trail[v]` leads from the seed of v's cluster to v. */
  ghost predicate Trails(sp: Space, c: Clustering, trail: seq<seq<nat>>)
    requires Wellformed(sp, c)
  {
    |trail| == sp.n && forall v: nat {:trigger trail[v]} :: v < sp.n && c.labels[v] > 0 ==>
      Chain(sp, c, c.labels[v], trail[v], v)
  }

  /** Older clusters are closed; the youngest one is, up to what is still on the worklist. */
  ghost predicate ClosedUpTo(sp: Space, c: Clustering, work: seq<nat>)
    requires Wellformed(sp, c)
  {
    forall u: nat, v: nat :: Expands(sp, c, u) && Adjacent(sp, u, v) ==>
      if c.labels[u] == |c.seeds| then v in work else 0 < c.labels[v] <= c.labels[u]
  }

  ghost predicate Growing(sp: Space, c: Clustering, work: seq<nat>, j: nat, via: seq<nat>, trail: seq<seq<nat>>) {
    && Wellformed(sp, c) && c.seeds != []
    && Worklist(sp, c, work, j, via) && Trails(sp, c, trail) && ClosedUpTo(sp, c, work) && Ordered(sp, c)
  }

  /** Between two clusters: every cluster so far is finished. */
  ghost predicate Settled(sp: Space, c: Clustering, trail: seq<seq<nat>>) {
    Wellformed(sp, c) && Trails(sp, c, trail) && Ordered(sp, c) && Closed(sp, c)
  }

  /** The youngest cluster has its seed, and `work` holds the neighbours of that seed. */
  ghost predicate Opened(sp: Space, c: Clustering, trail: seq<seq<nat>>, work: seq<nat>) {
    && Wellformed(sp, c) && c.seeds != [] && Trails(sp, c, trail) && Ordered(sp, c) && ClosedUpTo(sp, c, work)
    && Distinct(work) && Elements(work) == Neighbours(sp, c.seeds[|c.seeds| - 1])
  }

  /** c' carries on from c: what was in a cluster stays there, and only the youngest cluster gains points. */
  ghost predicate Extends(c: Clustering, c': Clustering) {
    && |c'.labels| == |c.labels|
    && forall x :: 0 <= x < |c.labels| && c'.labels[x] != c.labels[x] ==>
         c.labels[x] <= 0 <= c'.labels[x] && (c'.labels[x] == 0 || c'.labels[x] == |c'.seeds|)
  }

  lemma {:induction false} ChainStable(sp: Space, c: Clustering, c': Clustering, k: int, path: seq<nat>, last: nat)
    requires Wellformed(sp, c) && Wellformed(sp, c') && Extends(c, c') && c.seeds <= c'.seeds
    requires Chain(sp, c, k, path, last)
    ensures Chain(sp, c', k, path, last)
  {
    forall i | 0 <= i < |path| - 1 ensures Expands(sp, c', path[i]) {
      assert Expands(sp, c, path[i]);
    }
  }

  lemma {:induction false} ChainExtend(sp: Space, c: Clustering, k: int, path: seq<nat>, p: nat, q: nat)
    requires Wellformed(sp, c) && Chain(sp, c, k, path, p)
    requires Expands(sp, c, p) && Adjacent(sp, p, q) && c.labels[q] == k
    ensures Chain(sp, c, k, path + [q], q)
  {
    var path' := path + [q];
    forall i | 0 <= i < |path'| - 1
      ensures Adjacent(sp, path'[i], path'[i + 1]) && Expands(sp, c, path'[i])
    {
      if i < |path| - 1 {
        assert path'[i] == path[i] && path'[i + 1] == path[i + 1];
      }
    }
  }

  /** Python's `seed_set.extend(nb for nb in found if nb not in seed_set)`. */
  method ExtendWork(work: seq<nat>, found: seq<nat>) returns (work': seq<nat>)
    requires Distinct(work)
    ensures Distinct(work') && work <= work'
    ensures Elements(work') == Elements(work) + Elements(found)
    ensures forall t :: |work| <= t < |work'| ==> work'[t] in found
  {
    work' := work;
    for i := 0 to |found|
      invariant Distinct(work') && work <= work'
      invariant forall x :: x in work' <==> x in work || x in found[..i]
      invariant forall t :: |work| <= t < |work'| ==> work'[t] in found
    {
      if found[i] !in work' {
        work' := work' + [found[i]];
      }
    }
  }

  /** What `ExtendWork` is called with for entry q: its neighbours if it is a fresh strong core, else nothing. */
  ghost predicate WorkAfter(sp: Space, c: Clustering, q: nat, work: seq<nat>, work': seq<nat>)
    requires Wellformed(sp, c) && q < sp.n
  {
    if c.labels[q] == -1 && StrongCore(sp, q)
    then work <= work' && Distinct(work') && Elements(work') == Elements(work) + Neighbours(sp, q)
         && forall t :: |work| <= t < |work'| ==> work'[t] in Neighbours(sp, q)
    else work' == work
  }

  lemma {:induction false} GrowWorklist(sp: Space, c: Clustering, c': Clustering, work: seq<nat>, j: nat, via: seq<nat>,
                                        work': seq<nat>)
    returns (via': seq<nat>)
    requires Wellformed(sp, c) && c.seeds != [] && Worklist(sp, c, work, j, via) && j < |work|
    requires c.labels[work[j]] <= 0 && c' == c.(labels := c.labels[work[j] := |c.seeds|]) && Wellformed(sp, c')
    requires WorkAfter(sp, c, work[j], work, work')
    ensures Worklist(sp, c', work', j + 1, via')
  {
    var q := work[j];
    via' := via + seq(|work'| - |work|, _ => q);
    forall t | 0 <= t < |work'|
      ensures work'[t] < sp.n && Adjacent(sp, via'[t], work'[t]) && Expands(sp, c', via'[t])
              && c'.labels[via'[t]] == |c.seeds|
    {
      if t < |work| {
        assert work'[t] == work[t] && Expands(sp, c, via[t]);
      } else {
        assert work'[t] in Neighbours(sp, q);
      }
    }
    forall t | 0 <= t < j + 1 ensures c'.labels[work'[t]] > 0 {
      assert work'[t] == work[t];
    }
  }

  lemma {:induction false} GrowTrails(sp: Space, c: Clustering, c': Clustering, q: nat, p: nat, trail: seq<seq<nat>>)
    returns (trail': seq<seq<nat>>)
    requires Wellformed(sp, c) && c.seeds != [] && Trails(sp, c, trail) && q < sp.n
    requires Adjacent(sp, p, q) && Expands(sp, c, p) && c.labels[p] == |c.seeds|
    requires c.labels[q] <= 0 && c' == c.(labels := c.labels[q := |c.seeds|]) && Wellformed(sp, c')
    ensures Trails(sp, c', trail')
  {
    trail' := trail[q := trail[p] + [q]];
    assert Extends(c, c');
    assert Chain(sp, c', |c.seeds|, trail[p] + [q], q) by {
      ChainStable(sp, c, c', |c.seeds|, trail[p], p);
      assert Expands(sp, c', p);
      ChainExtend(sp, c', |c.seeds|, trail[p], p, q);
    }
    TrailsKept(sp, c, c', q, trail, trail');
  }

  lemma {:induction false} TrailsKept(sp: Space, c: Clustering, c': Clustering, q: nat, trail: seq<seq<nat>>,
                                      trail': seq<seq<nat>>)
    requires Wellformed(sp, c) && Wellformed(sp, c') && Extends(c, c') && c.seeds <= c'.seeds && q < sp.n
    requires Trails(sp, c, trail) && |trail'| == sp.n
    requires c'.labels[q] > 0 ==> Chain(sp, c', c'.labels[q], trail'[q], q)
    requires forall v: nat :: v < sp.n && v != q ==> trail'[v] == trail[v] && c'.labels[v] == c.labels[v]
    ensures Trails(sp, c', trail')
  {
    forall v: nat | v < sp.n && c'.labels[v] > 0
      ensures Chain(sp, c', c'.labels[v], trail'[v], v)
    {
      if v != q {
        ChainStable(sp, c, c', c.labels[v], trail[v], v);
      }
    }
  }

  lemma {:induction false} GrowClosed(sp: Space, c: Clustering, c': Clustering, q: nat, work: seq<nat>, work': seq<nat>)
    requires Wellformed(sp, c) && c.seeds != [] && q < sp.n && ClosedUpTo(sp, c, work) && Ordered(sp, c)
    requires c.labels[q] <= 0 && c' == c.(labels := c.labels[q := |c.seeds|]) && Wellformed(sp, c')
    requires WorkAfter(sp, c, q, work, work')
    ensures ClosedUpTo(sp, c', work')
  {
    forall u: nat, v: nat | Expands(sp, c', u) && Adjacent(sp, u, v)
      ensures if c'.labels[u] == |c.seeds| then v in work' else 0 < c'.labels[v] <= c'.labels[u]
    {
      if u == q {
        assert v in Neighbours(sp, q);
        assert c.seeds[|c.seeds| - 1] != q;
        assert v in Elements(work');
      } else {
        assert Expands(sp, c, u);
      }
    }
  }

  lemma {:induction false} GrowOrdered(sp: Space, c: Clustering, c': Clustering, q: nat)
    requires Wellformed(sp, c) && c.seeds != [] && q < sp.n && Ordered(sp, c)
    requires c.labels[q] <= 0 && c' == c.(labels := c.labels[q := |c.seeds|]) && Wellformed(sp, c')
    ensures Ordered(sp, c')
  {
  }

  /** A younger cluster is opened at i: everything said of the older ones still holds. */
  lemma {:induction false} OpenCluster(sp: Space, c: Clustering, i: nat, trail: seq<seq<nat>>, c': Clustering,
                                       trail': seq<seq<nat>>, work: seq<nat>)
    requires Settled(sp, c, trail) && i < sp.n && c.labels[i] == -1 && Core(sp, i)
    requires forall x: nat :: x < i ==> c.labels[x] >= 0
    requires c' == Clustering(c.labels[i := |c.seeds| + 1], c.seeds + [i]) && trail' == trail[i := [i]]
    requires Distinct(work) && Elements(work) == Neighbours(sp, i)
    ensures Opened(sp, c', trail', work)
  {
    OpenWellformed(sp, c, i, c');
    OpenOrdered(sp, c, i, c');
    assert Extends(c, c');
    TrailsKept(sp, c, c', i, trail, trail');
    OpenClosed(sp, c, i, c', work);
  }

  lemma {:induction false} OpenOrdered(sp: Space, c: Clustering, i: nat, c': Clustering)
    requires Wellformed(sp, c) && Ordered(sp, c) && i < sp.n && c.labels[i] == -1 && Core(sp, i)
    requires forall x: nat :: x < i ==> c.labels[x] >= 0
    requires c' == Clustering(c.labels[i := |c.seeds| + 1], c.seeds + [i]) && Wellformed(sp, c')
    ensures Ordered(sp, c')
  {
  }

  lemma {:induction false} OpenWellformed(sp: Space, c: Clustering, i: nat, c': Clustering)
    requires Wellformed(sp, c) && i < sp.n && c.labels[i] == -1
    requires c' == Clustering(c.labels[i := |c.seeds| + 1], c.seeds + [i])
    ensures Wellformed(sp, c')
  {
  }

  lemma {:induction false} OldExpands(sp: Space, c: Clustering, i: nat, c': Clustering, u: nat)
    requires Wellformed(sp, c) && Wellformed(sp, c') && i < sp.n && c.labels[i] == -1
    requires c' == Clustering(c.labels[i := |c.seeds| + 1], c.seeds + [i]) && u != i && Expands(sp, c', u)
    ensures Expands(sp, c, u) && c'.labels[u] == c.labels[u] <= |c.seeds|
  {
  }

  lemma {:induction false} OpenClosed(sp: Space, c: Clustering, i: nat, c': Clustering, work: seq<nat>)
    requires Wellformed(sp, c) && Wellformed(sp, c') && Closed(sp, c) && i < sp.n && c.labels[i] == -1
    requires c' == Clustering(c.labels[i := |c.seeds| + 1], c.seeds + [i])
    requires Elements(work) == Neighbours(sp, i)
    ensures ClosedUpTo(sp, c', work)
  {
    forall u: nat, v: nat | Expands(sp, c', u) && Adjacent(sp, u, v)
      ensures if c'.labels[u] == |c'.seeds| then v in work else 0 < c'.labels[v] <= c'.labels[u]
    {
      if u == i {
        assert v in Neighbours(sp, i);
        assert v in Elements(work);
      } else {
        OldExpands(sp, c, i, c', u);
      }
    }
  }

  /** Walking one worklist entry, whatever its label was, keeps the invariant. */
  lemma {:induction false} GrowStep(sp: Space, c: Clustering, c': Clustering, work: seq<nat>, j: nat, via: seq<nat>,
                                    trail: seq<seq<nat>>, work': seq<nat>)
    returns (via': seq<nat>, trail': seq<seq<nat>>)
    requires Growing(sp, c, work, j, via, trail) && j < |work|
    requires c'.seeds == c.seeds
    requires c'.labels == if c.labels[work[j]] <= 0 then c.labels[work[j] := |c.seeds|] else c.labels
    requires WorkAfter(sp, c, work[j], work, work')
    ensures Growing(sp, c', work', j + 1, via', trail')
    ensures Extends(c, c')
  {
    var q := work[j];
    if c.labels[q] <= 0 {
      assert c' == c.(labels := c.labels[q := |c.seeds|]);
      via' := GrowWorklist(sp, c, c', work, j, via, work');
      trail' := GrowTrails(sp, c, c', q, via[j], trail);
      GrowClosed(sp, c, c', q, work, work');
      GrowOrdered(sp, c, c', q);
    } else {
      assert c' == c;
      via', trail' := via, trail;
    }
  }

  lemma {:induction false} GrowStart(sp: Space, c: Clustering, work: seq<nat>, trail: seq<seq<nat>>)
    returns (via: seq<nat>)
    requires Opened(sp, c, trail, work)
    ensures Growing(sp, c, work, 0, via, trail)
  {
    var i := c.seeds[|c.seeds| - 1];
    via := seq(|work|, _ => i);
    assert Expands(sp, c, i);
    forall t | 0 <= t < |work| ensures work[t] < sp.n && Adjacent(sp, via[t], work[t]) {
      assert work[t] in Elements(work);
    }
  }

  lemma {:induction false} GrowEnd(sp: Space, c: Clustering, work: seq<nat>, via: seq<nat>, trail: seq<seq<nat>>)
    requires Growing(sp, c, work, |work|, via, trail)
    ensures Settled(sp, c, trail)
  {
    forall u: nat, v: nat | Expands(sp, c, u) && Adjacent(sp, u, v)
      ensures 0 < c.labels[v] <= c.labels[u]
    {
      if c.labels[u] == |c.seeds| {
        var t :| 0 <= t < |work| && work[t] == v;
      }
    }
  }

  lemma {:induction false} ExtendsTransitive(a: Clustering, b: Clustering, c: Clustering)
    requires Extends(a, b) && Extends(b, c) && b.seeds == c.seeds
    ensures Extends(a, c)
  {
  }

  /** One entry of the worklist: the body of the inner `while` of the source. */
  method Walk(sp: Space, labels: array<int>, seedSet: seq<nat>, j: nat, clusterId: int, ghost seeds: seq<nat>)
    returns (seedSet': seq<nat>)
    requires labels.Length == sp.n && Wellformed(sp, Clustering(labels[..], seeds)) && clusterId == |seeds|
    requires Distinct(seedSet) && j < |seedSet| && seedSet[j] < sp.n
    modifies labels
    ensures WorkAfter(sp, Clustering(old(labels[..]), seeds), seedSet[j], seedSet, seedSet')
    ensures labels[..] == if old(labels[seedSet[j]]) <= 0 then old(labels[..])[seedSet[j] := clusterId]
                          else old(labels[..])
  {
    var q := seedSet[j];
    seedSet' := seedSet;
    if labels[q] == 0 {
      labels[q] := clusterId;
    } else if labels[q] == -1 {
      labels[q] := clusterId;
      var found := RegionQuery(sp, q);
      if |found| >= sp.minSamples {
        seedSet' := ExtendWork(seedSet, found);
        forall t | |seedSet| <= t < |seedSet'| ensures seedSet'[t] in Neighbours(sp, q) {
          assert seedSet'[t] in Elements(found);
        }
      }
    }
  }

  /** Grows the youngest cluster until its worklist is walked: the inner `while` of the source. */
  method Expand(sp: Space, labels: array<int>, neighbours: seq<nat>, clusterId: int,
                ghost seeds: seq<nat>, ghost trail: seq<seq<nat>>)
    returns (ghost trail': seq<seq<nat>>)
    requires labels.Length == sp.n && clusterId == |seeds|
    requires Opened(sp, Clustering(labels[..], seeds), trail, neighbours)
    modifies labels
    ensures Settled(sp, Clustering(labels[..], seeds), trail')
    ensures Extends(Clustering(old(labels[..]), seeds), Clustering(labels[..], seeds))
  {
    var seedSet, j := neighbours, 0;
    ghost var start := Clustering(labels[..], seeds);
    ghost var via := GrowStart(sp, start, seedSet, trail);
    ghost var c := start;
    trail' := trail;
    while j < |seedSet|
      invariant c == Clustering(labels[..], seeds) && Growing(sp, c, seedSet, j, via, trail')
      invariant Extends(start, c)
      decreases sp.n - j
    {
      DistinctBound(seedSet, sp.n);
      ghost var before := seedSet;
      seedSet := Walk(sp, labels, seedSet, j, clusterId, seeds);
      ghost var c' := Clustering(labels[..], seeds);
      via, trail' := GrowStep(sp, c, c', before, j, via, trail', seedSet);
      ExtendsTransitive(start, c, c');
      c, j := c', j + 1;
    }
    GrowEnd(sp, c, seedSet, via, trail');
  }

  /** Labels i and, if it may start a cluster, grows that cluster: the body of the outer loop of the source. */
  method Process(sp: Space, labels: array<int>, i: nat, clusterId: int, ghost seeds: seq<nat>,
                 ghost trail: seq<seq<nat>>)
    returns (clusterId': int, ghost seeds': seq<nat>, ghost trail': seq<seq<nat>>)
    requires labels.Length == sp.n && clusterId == |seeds| && i < sp.n && labels[i] == -1
    requires Settled(sp, Clustering(labels[..], seeds), trail)
    requires forall x :: 0 <= x < i ==> labels[x] >= 0
    modifies labels
    ensures clusterId' == |seeds'| && Settled(sp, Clustering(labels[..], seeds'), trail')
    ensures forall x :: 0 <= x <= i ==> labels[x] >= 0
  {
    ghost var c := Clustering(labels[..], seeds);
    clusterId', seeds', trail' := clusterId, seeds, trail;
    var neighbours := RegionQuery(sp, i);
    if |neighbours| + 1 < sp.minSamples {
      labels[i] := 0;
      assert labels[..] == c.labels[i := 0];
      NoiseKept(sp, c, i, Clustering(labels[..], seeds), trail);
    } else {
      clusterId' := clusterId + 1;
      labels[i] := clusterId';
      seeds' := seeds + [i];
      ghost var c' := Clustering(labels[..], seeds');
      assert labels[..] == c.labels[i := clusterId'];
      OpenCluster(sp, c, i, trail, c', trail[i := [i]], neighbours);
      trail' := Expand(sp, labels, neighbours, clusterId', seeds', trail[i := [i]]);
      assert forall x :: 0 <= x <= i ==> c'.labels[x] >= 0;
    }
  }

  /** The labels of all points (0 is noise), and, for the proof, the point that started each cluster. */
  method ClusterLabels(sp: Space) returns (labels: seq<int>, ghost seeds: seq<nat>)
    ensures IsClustering(sp, Clustering(labels, seeds))
  {
    var a := new int[sp.n](_ => -1);
    var clusterId := 0;
    seeds := [];
    ghost var trail: seq<seq<nat>> := seq(sp.n, _ => []);
    NothingSettled(sp, Clustering(a[..], seeds), trail);
    for i := 0 to sp.n
      invariant clusterId == |seeds| && Settled(sp, Clustering(a[..], seeds), trail)
      invariant forall x :: 0 <= x < i ==> a[x] >= 0
    {
      if a[i] == -1 {
        clusterId, seeds, trail := Process(sp, a, i, clusterId, seeds, trail);
      }
    }
    labels := a[..];
    assert forall i :: 0 <= i < sp.n ==> labels[i] >= 0;
    SettledClustering(sp, Clustering(labels, seeds), trail);
  }

  lemma {:induction false} NothingSettled(sp: Space, c: Clustering, trail: seq<seq<nat>>)
    requires |c.labels| == sp.n == |trail| && c.seeds == [] && forall i :: 0 <= i < sp.n ==> c.labels[i] == -1
    ensures Settled(sp, c, trail)
  {
  }

  lemma {:induction false} SettledClustering(sp: Space, c: Clustering, trail: seq<seq<nat>>)
    requires Settled(sp, c, trail) && forall i :: 0 <= i < sp.n ==> c.labels[i] >= 0
    ensures IsClustering(sp, c)
  {
    forall v: nat | v < sp.n && c.labels[v] > 0 ensures Reached(sp, c, v) {
      assert Chain(sp, c, c.labels[v], trail[v], v);
    }
  }

  /** Marking a point as noise disturbs nothing. */
  lemma {:induction false} NoiseKept(sp: Space, c: Clustering, i: nat, c': Clustering, trail: seq<seq<nat>>)
    requires Settled(sp, c, trail)
    requires i < sp.n && c.labels[i] == -1 && !Core(sp, i) && c' == c.(labels := c.labels[i := 0])
    ensures Settled(sp, c', trail)
  {
    assert Extends(c, c');
    TrailsKept(sp, c, c', i, trail, trail);
    NoiseClosed(sp, c, i, c');
  }

  lemma {:induction false} NoiseClosed(sp: Space, c: Clustering, i: nat, c': Clustering)
    requires Wellformed(sp, c) && Wellformed(sp, c') && Closed(sp, c)
    requires i < sp.n && c.labels[i] == -1 && c' == c.(labels := c.labels[i := 0])
    ensures Closed(sp, c')
  {
    forall u: nat, v: nat | Expands(sp, c', u) && Adjacent(sp, u, v) ensures 0 < c'.labels[v] <= c'.labels[u] {
      assert Expands(sp, c, u);
    }
  }

  // Consequences of the contract, for every input.

  /** Adjacent strong cores share a cluster. */
  lemma {:induction false} StrongCoresTogether(sp: Space, c: Clustering, u: nat, v: nat)
    requires Symmetric(sp) && IsClustering(sp, c)
    requires Adjacent(sp, u, v) && StrongCore(sp, u) && StrongCore(sp, v)
    ensures c.labels[u] == c.labels[v] > 0
  {
    assert Core(sp, u) && Core(sp, v);
    assert Expands(sp, c, u) && Expands(sp, c, v);
    assert Adjacent(sp, v, u);
  }

  /** A point is noise exactly when it is no core and no neighbour of it extended a cluster. */
  lemma {:induction false} NoiseExactly(sp: Space, c: Clustering, v: nat)
    requires Symmetric(sp) && IsClustering(sp, c) && v < sp.n
    ensures c.labels[v] == 0 <==> !Core(sp, v) && forall u: nat :: Adjacent(sp, u, v) ==> !Expands(sp, c, u)
    ensures c.labels[v] == 0 ==> forall u: nat :: Adjacent(sp, u, v) ==> !StrongCore(sp, u)
  {
    if c.labels[v] > 0 {
      var u := Predecessor(sp, c, v);
      assert u == v ==> Core(sp, v);
    } else {
      forall u: nat | Adjacent(sp, u, v) ensures !Expands(sp, c, u) && !StrongCore(sp, u) {
        NoiseNeighbour(sp, c, u, v);
      }
    }
  }

  lemma {:induction false} NoiseNeighbour(sp: Space, c: Clustering, u: nat, v: nat)
    requires IsClustering(sp, c) && Adjacent(sp, u, v) && c.labels[v] == 0
    ensures !Expands(sp, c, u) && !StrongCore(sp, u)
  {
    assert c.labels[u] == 0 ==> !Core(sp, u);
  }

  /** A clustered point is its cluster's seed or adjacent to a point that extended the cluster. */
  lemma {:induction false} Predecessor(sp: Space, c: Clustering, v: nat) returns (u: nat)
    requires Wellformed(sp, c) && Linked(sp, c) && v < sp.n && c.labels[v] > 0
    ensures u < sp.n && c.labels[u] == c.labels[v] && Expands(sp, c, u)
    ensures u == v == c.seeds[c.labels[v] - 1] || Adjacent(sp, u, v)
  {
    assert Reached(sp, c, v);
    var path :| Chain(sp, c, c.labels[v], path, v);
    if |path| == 1 {
      u := v;
    } else {
      u := path[|path| - 2];
      assert Adjacent(sp, path[|path| - 2], path[|path| - 1]);
    }
  }

  /** Two points of a cluster reach each other through its seed by near steps through points that extend it. */
  lemma {:induction false} ClusterConnected(sp: Space, c: Clustering, u: nat, v: nat)
    requires IsClustering(sp, c) && u < sp.n && v < sp.n && c.labels[u] == c.labels[v] > 0
    ensures exists p, q :: Chain(sp, c, c.labels[u], p, u) && Chain(sp, c, c.labels[u], q, v) && p[0] == q[0]
  {
    assert Reached(sp, c, u) && Reached(sp, c, v);
    var p :| Chain(sp, c, c.labels[u], p, u);
    var q :| Chain(sp, c, c.labels[v], q, v);
    assert p[0] == q[0];
  }

  // The contract leaves no choice.

  /** The first n clusters of c and d are the same. */
  ghost predicate AgreeUpTo(c: Clustering, d: Clustering, n: nat) {
    && |c.labels| == |d.labels| && n <= |c.seeds| && n <= |d.seeds| && c.seeds[..n] == d.seeds[..n]
    && forall v :: 0 <= v < |c.labels| && (0 < c.labels[v] <= n || 0 < d.labels[v] <= n) ==> c.labels[v] == d.labels[v]
  }

  lemma {:induction false} SeedNotLater(sp: Space, c: Clustering, d: Clustering, n: nat)
    requires IsClustering(sp, c) && IsClustering(sp, d) && AgreeUpTo(c, d, n) && n < |c.seeds|
    ensures n < |d.seeds| && d.seeds[n] <= c.seeds[n]
  {
    var s := c.seeds[n];
    assert Core(sp, s) && c.labels[s] == n + 1;
    assert d.labels[s] > n;
  }

  lemma {:induction false} SameSeed(sp: Space, c: Clustering, d: Clustering, n: nat)
    requires IsClustering(sp, c) && IsClustering(sp, d) && AgreeUpTo(c, d, n) && n < |c.seeds|
    ensures n < |d.seeds| && d.seeds[n] == c.seeds[n]
  {
    SeedNotLater(sp, c, d, n);
    SeedNotLater(sp, d, c, n);
  }

  /** A walk that makes a point a member of cluster n + 1 in c makes it one in d. */
  lemma {:induction false} SameAlong(sp: Space, c: Clustering, d: Clustering, n: nat, path: seq<nat>, v: nat, i: nat)
    requires IsClustering(sp, c) && IsClustering(sp, d) && AgreeUpTo(c, d, n) && n < |c.seeds| && n < |d.seeds|
    requires c.seeds[n] == d.seeds[n] && Chain(sp, c, n + 1, path, v) && i < |path|
    ensures path[i] < sp.n && d.labels[path[i]] == n + 1
  {
    if i == 0 {
      assert path[0] == d.seeds[n];
    } else {
      var p, q := path[i - 1], path[i];
      SameAlong(sp, c, d, n, path, v, i - 1);
      assert Adjacent(sp, path[i - 1], path[i - 1 + 1]) && Expands(sp, c, p);
      assert Expands(sp, d, p);
      assert 0 < d.labels[q] <= n + 1;
    }
  }

  lemma {:induction false} SameMember(sp: Space, c: Clustering, d: Clustering, n: nat, v: nat)
    requires IsClustering(sp, c) && IsClustering(sp, d) && AgreeUpTo(c, d, n) && n < |c.seeds| && n < |d.seeds|
    requires c.seeds[n] == d.seeds[n] && v < sp.n && c.labels[v] == n + 1
    ensures d.labels[v] == n + 1
  {
    assert Reached(sp, c, v);
    var path :| Chain(sp, c, c.labels[v], path, v);
    SameAlong(sp, c, d, n, path, v, |path| - 1);
  }

  lemma {:induction false} SameLabel(sp: Space, c: Clustering, d: Clustering, n: nat, v: nat)
    requires IsClustering(sp, c) && IsClustering(sp, d) && AgreeUpTo(c, d, n) && n < |c.seeds| && n < |d.seeds|
    requires c.seeds[n] == d.seeds[n] && v < sp.n && (0 < c.labels[v] <= n + 1 || 0 < d.labels[v] <= n + 1)
    ensures c.labels[v] == d.labels[v]
  {
    if c.labels[v] == n + 1 {
      SameMember(sp, c, d, n, v);
    } else if d.labels[v] == n + 1 {
      SameMember(sp, d, c, n, v);
    }
  }

  lemma {:induction false} AgreeMore(c: Clustering, d: Clustering, n: nat)
    requires AgreeUpTo(c, d, n) && n < |c.seeds| && n < |d.seeds| && c.seeds[n] == d.seeds[n]
    requires forall v :: 0 <= v < |c.labels| && (0 < c.labels[v] <= n + 1 || 0 < d.labels[v] <= n + 1) ==>
               c.labels[v] == d.labels[v]
    ensures AgreeUpTo(c, d, n + 1)
  {
    assert c.seeds[..n + 1] == c.seeds[..n] + [c.seeds[n]] && d.seeds[..n + 1] == d.seeds[..n] + [d.seeds[n]];
  }

  lemma {:induction false} AgreeNext(sp: Space, c: Clustering, d: Clustering, n: nat)
    requires IsClustering(sp, c) && IsClustering(sp, d) && AgreeUpTo(c, d, n) && n < |c.seeds|
    ensures AgreeUpTo(c, d, n + 1)
  {
    SameSeed(sp, c, d, n);
    forall v | 0 <= v < |c.labels| && (0 < c.labels[v] <= n + 1 || 0 < d.labels[v] <= n + 1)
      ensures c.labels[v] == d.labels[v]
    {
      SameLabel(sp, c, d, n, v);
    }
    AgreeMore(c, d, n);
  }

  lemma {:induction false} AgreeAll(sp: Space, c: Clustering, d: Clustering, n: nat)
    requires IsClustering(sp, c) && IsClustering(sp, d) && n <= |c.seeds|
    ensures AgreeUpTo(c, d, n)
  {
    if n > 0 {
      AgreeAll(sp, c, d, n - 1);
      AgreeNext(sp, c, d, n - 1);
    }
  }

  /** Every input has one clustering: the contract fixes all labels and all seeds. */
  lemma {:induction false} ClusteringUnique(sp: Space, c: Clustering, d: Clustering)
    requires IsClustering(sp, c) && IsClustering(sp, d)
    ensures c == d
  {
    var n := |c.seeds|;
    AgreeAll(sp, c, d, n);
    if n < |d.seeds| {
      SeedNotLater(sp, d, c, n);
      assert false;
    }
    assert c.seeds == c.seeds[..n] && d.seeds == d.seeds[..n];
    forall v | 0 <= v < sp.n ensures c.labels[v] == d.labels[v] {
      assert 0 <= c.labels[v] <= n && 0 <= d.labels[v] <= n;
    }
    assert c.labels == d.labels;
  }
}
