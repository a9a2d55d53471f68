/** Points that only pass the weaker core test, which lets them start a cluster but not extend one. */
module ClusterSplits {
  import opened Finite
  import opened Clustering
  import opened Cosine

  ghost predicate Together(sp: Space, u: nat, v: nat)
    requires u < sp.n && v < sp.n
  {
    forall c :: IsClustering(sp, c) ==> c.labels[u] == c.labels[v]
  }

  ghost predicate Apart(sp: Space, u: nat, v: nat)
    requires u < sp.n && v < sp.n
  {
    forall c :: IsClustering(sp, c) ==> c.labels[u] != c.labels[v]
  }

  ghost predicate AdjacentCores(sp: Space, u: nat, v: nat) {
    Adjacent(sp, u, v) && Core(sp, u) && Core(sp, v)
  }

  // ---- With a threshold of at most two ---------------------------------------------------------

  lemma {:induction false} SmallThreshold(sp: Space, c: Clustering, u: nat, v: nat)
    requires sp.minSamples <= 2 && Symmetric(sp) && IsClustering(sp, c) && Adjacent(sp, u, v)
    ensures 0 < c.labels[v] <= c.labels[u]
  {
    assert Adjacent(sp, v, u);
    HasNeighbour(sp, u, v);
    HasNeighbour(sp, v, u);
    if !Expands(sp, c, u) {
      var p := Predecessor(sp, c, u);
      OnlyNeighbour(sp, u, p, v);
    }
  }

  lemma {:induction false} HasNeighbour(sp: Space, u: nat, v: nat)
    requires sp.minSamples <= 2 && Adjacent(sp, u, v)
    ensures Core(sp, u)
  {
    assert v in Neighbours(sp, u);
  }

  lemma {:induction false} OnlyNeighbour(sp: Space, u: nat, p: nat, v: nat)
    requires sp.minSamples <= 2 && Symmetric(sp) && !StrongCore(sp, u) && Adjacent(sp, p, u) && Adjacent(sp, u, v)
    ensures p == v
  {
    assert Adjacent(sp, u, p);
    SubsetSize({p, v}, Neighbours(sp, u));
  }

  // ---- A caterpillar ---------------------------------------------------------------------------

  /** A path 0 - 1 - 2 whose points have leaves enough for m - 1 neighbours each: point i > 0 hangs on a lower one. */
  function Parent(m: int, i: nat): (p: nat)
    requires m >= 3 && 0 < i < 3 * m - 4
    ensures p < i && p < 3
  {
    if i < 3 then i - 1 else if i < m + 1 then 0 else if i < 2 * m - 2 then 1 else 2
  }

  predicate HangsOn(m: int, i: nat, j: nat)
    requires m >= 3
  {
    0 < i < 3 * m - 4 && Parent(m, i) == j
  }

  predicate Joined(m: int, i: nat, j: nat)
    requires m >= 3
  {
    HangsOn(m, i, j) || HangsOn(m, j, i)
  }

  ghost predicate IsCaterpillar(sp: Space, m: int) {
    m >= 3 && sp.n == 3 * m - 4 && sp.minSamples == m
    && forall i: nat, j: nat :: Adjacent(sp, i, j) <==> Joined(m, i, j)
  }

  lemma {:induction false} SpineNeighbours(sp: Space, m: int, i: nat, spine: set<nat>, lo: nat, size: nat)
    requires IsCaterpillar(sp, m) && i < 3 && spine == if i == 1 then {0, 2} else {1}
    requires lo == if i == 0 then 3 else if i == 1 then m + 1 else 2 * m - 2
    requires size == if i == 1 then m - 3 else m - 2
    ensures Neighbours(sp, i) == spine + Range(lo, size)
  {
    forall j: nat ensures j in Neighbours(sp, i) <==> j in spine + Range(lo, size) {
      assert j in Neighbours(sp, i) <==> Joined(m, i, j);
      assert j >= 3 ==> !HangsOn(m, i, j);
    }
  }

  lemma {:induction false} SpineSize(all: set<nat>, spine: set<nat>, lo: nat, size: nat)
    requires all == spine + Range(lo, size) && forall x :: x in spine ==> x < lo
    ensures |all| == |spine| + size
  {
    RangeSize(lo, size);
    assert spine !! Range(lo, size);
  }

  lemma {:induction false} SpineDegree(sp: Space, m: int, i: nat)
    requires IsCaterpillar(sp, m) && i < 3
    ensures |Neighbours(sp, i)| == m - 1
  {
    var lo := if i == 0 then 3 else if i == 1 then m + 1 else 2 * m - 2;
    var size := if i == 1 then m - 3 else m - 2;
    var spine: set<nat> := if i == 1 then {0, 2} else {1};
    assert |spine| == if i == 1 then 2 else 1;
    SpineNeighbours(sp, m, i, spine, lo, size);
    SpineSize(Neighbours(sp, i), spine, lo, size);
  }

  lemma {:induction false} LeafDegree(sp: Space, m: int, i: nat)
    requires IsCaterpillar(sp, m) && 3 <= i < sp.n
    ensures |Neighbours(sp, i)| == 1
  {
    forall j: nat ensures j in Neighbours(sp, i) <==> j == Parent(m, i) {
      assert j in Neighbours(sp, i) <==> Joined(m, i, j);
    }
    assert Neighbours(sp, i) == {Parent(m, i)};
  }

  lemma {:induction false} CaterpillarDegrees(sp: Space, m: int)
    requires IsCaterpillar(sp, m)
    ensures forall i: nat :: i < sp.n ==> !StrongCore(sp, i) && (Core(sp, i) <==> i < 3)
  {
    forall i: nat | i < sp.n ensures !StrongCore(sp, i) && (Core(sp, i) <==> i < 3) {
      if i < 3 {
        SpineDegree(sp, m, i);
      } else {
        LeafDegree(sp, m, i);
      }
    }
  }

  lemma {:induction false} CaterpillarSplits(sp: Space, m: int, c: Clustering)
    requires IsCaterpillar(sp, m) && IsClustering(sp, c)
    ensures AdjacentCores(sp, 1, 2) && c.labels[1] != c.labels[2]
  {
    CaterpillarDegrees(sp, m);
    assert Joined(m, 0, 1) && Joined(m, 1, 2) && !Joined(m, 0, 2);
    SecondCoreJoinsFirst(sp, c);
    ThirdCoreSplits(sp, c);
  }

  lemma {:induction false} SecondCoreJoinsFirst(sp: Space, c: Clustering)
    requires IsClustering(sp, c) && sp.n >= 3 && Core(sp, 0) && Core(sp, 1) && Adjacent(sp, 0, 1)
    ensures c.labels[1] == c.labels[0] > 0 && c.seeds[c.labels[0] - 1] == 0
  {
    FirstCoreSeeds(sp, c, 0);
    assert Expands(sp, c, 0);
    assert 0 < c.labels[1] <= c.labels[0];
    var s1 := c.seeds[c.labels[1] - 1];
    assert Core(sp, s1);
    assert s1 <= 1;
  }

  lemma {:induction false} ThirdCoreSplits(sp: Space, c: Clustering)
    requires IsClustering(sp, c) && sp.n >= 3 && !Adjacent(sp, 0, 2)
    requires forall i: nat :: i < sp.n ==> !StrongCore(sp, i)
    requires c.labels[1] > 0 && c.seeds[c.labels[1] - 1] == 0
    ensures c.labels[2] != c.labels[1]
  {
    if c.labels[2] == c.labels[1] {
      JoinsOnlySeed(sp, c, 2);
    }
  }

  /** Where nothing is a strong core, a cluster is its seed and neighbours of its seed. */
  lemma {:induction false} JoinsOnlySeed(sp: Space, c: Clustering, v: nat)
    requires Wellformed(sp, c) && Linked(sp, c) && v < sp.n && c.labels[v] > 0
    requires forall i: nat :: i < sp.n ==> !StrongCore(sp, i)
    ensures var s := c.seeds[c.labels[v] - 1]; v == s || Adjacent(sp, s, v)
  {
    var u := Predecessor(sp, c, v);
    assert !StrongCore(sp, u);
  }

  /** The lowest core starts its own cluster. */
  lemma {:induction false} FirstCoreSeeds(sp: Space, c: Clustering, i: nat)
    requires IsClustering(sp, c) && i < sp.n && Core(sp, i) && forall x: nat :: x < i ==> !Core(sp, x)
    ensures c.labels[i] > 0 && c.seeds[c.labels[i] - 1] == i
  {
    assert Core(sp, c.seeds[c.labels[i] - 1]);
  }

  // ---- Embeddings that are a caterpillar -------------------------------------------------------

  /** One coordinate for each point: 1 for the point itself and for what hangs on it. */
  function Bits(m: int, v: nat): (bits: seq<real>)
    requires m >= 3
    ensures |bits| == 3 * m - 4
  {
    seq(3 * m - 4, i requires 0 <= i < 3 * m - 4 => if i == v || HangsOn(m, i, v) then 1.0 else 0.0)
  }

  /** One more coordinate for each point, for its own use. */
  function Rest(n: nat, v: nat, x: real): (rest: seq<real>)
    ensures |rest| == n
  {
    seq(n, i requires 0 <= i < n => if i == v then x else 0.0)
  }

  /** The coordinate of its own gives every point the same length. */
  function Vector(m: int, v: nat, sqrt: real -> real): seq<real>
    requires m >= 3
  {
    var n := 3 * m - 4;
    Bits(m, v) + Rest(n, v, sqrt(n as real - Dot(Bits(m, v), Bits(m, v))))
  }

  function Vectors(m: int, sqrt: real -> real): (embeddings: seq<seq<real>>)
    requires m >= 3
  {
    seq(3 * m - 4, v requires 0 <= v < 3 * m - 4 => Vector(m, v, sqrt))
  }

  lemma {:induction false} DotAppend(a: seq<real>, b: seq<real>, a': seq<real>, b': seq<real>)
    requires |a| == |b| && |a'| == |b'|
    ensures Dot(a + a', b + b') == Dot(a, b) + Dot(a', b')
  {
    if a == [] {
      assert a + a' == a' && b + b' == b';
    } else {
      assert (a + a')[1..] == a[1..] + a' && (b + b')[1..] == b[1..] + b';
      DotAppend(a[1..], b[1..], a', b');
    }
  }

  lemma {:induction false} DotNone(a: seq<real>, b: seq<real>)
    requires |a| == |b| && forall i :: 0 <= i < |a| ==> a[i] == 0.0 || b[i] == 0.0
    ensures Dot(a, b) == 0.0
  {
    if a != [] {
      DotNone(a[1..], b[1..]);
    }
  }

  lemma {:induction false} DotOne(a: seq<real>, b: seq<real>, k: nat)
    requires |a| == |b| && k < |a| && forall i :: 0 <= i < |a| && i != k ==> a[i] == 0.0 || b[i] == 0.0
    ensures Dot(a, b) == a[k] * b[k]
  {
    if k == 0 {
      DotNone(a[1..], b[1..]);
    } else {
      DotOne(a[1..], b[1..], k - 1);
    }
  }

  lemma {:induction false} DotBits(a: seq<real>)
    requires forall i :: 0 <= i < |a| ==> a[i] == 0.0 || a[i] == 1.0
    ensures 0.0 <= Dot(a, a) <= |a| as real
  {
    if a != [] {
      DotBits(a[1..]);
    }
  }

  lemma {:induction false} RestLength(n: nat, v: nat, x: real)
    requires v < n
    ensures Dot(Rest(n, v, x), Rest(n, v, x)) == x * x
  {
    DotOne(Rest(n, v, x), Rest(n, v, x), v);
  }

  lemma {:induction false} SameLength(m: int, v: nat, sqrt: real -> real)
    requires m >= 3 && IsSquareRoot(sqrt) && v < 3 * m - 4
    ensures var x := Vector(m, v, sqrt); Dot(x, x) == (3 * m - 4) as real
  {
    var n, bits := 3 * m - 4, Bits(m, v);
    DotBits(bits);
    var pad := n as real - Dot(bits, bits);
    var rest := Rest(n, v, sqrt(pad));
    RestLength(n, v, sqrt(pad));
    DotAppend(bits, bits, rest, rest);
  }

  lemma {:induction false} Overlap(m: int, u: nat, v: nat)
    requires m >= 3 && u < 3 * m - 4 && v < 3 * m - 4 && u != v
    ensures Dot(Bits(m, u), Bits(m, v)) == if Joined(m, u, v) then 1.0 else 0.0
  {
    var a, b := Bits(m, u), Bits(m, v);
    forall i | 0 <= i < |a| && a[i] != 0.0 && b[i] != 0.0
      ensures (i == u && HangsOn(m, u, v)) || (i == v && HangsOn(m, v, u))
    {
    }
    if HangsOn(m, u, v) {
      DotOne(a, b, u);
    } else if HangsOn(m, v, u) {
      DotOne(a, b, v);
    } else {
      DotNone(a, b);
    }
  }

  lemma {:induction false} VectorsMeet(m: int, u: nat, v: nat, sqrt: real -> real)
    requires m >= 3 && u < 3 * m - 4 && v < 3 * m - 4 && u != v
    ensures |Vector(m, u, sqrt)| == |Vector(m, v, sqrt)|
    ensures Dot(Vector(m, u, sqrt), Vector(m, v, sqrt)) == if Joined(m, u, v) then 1.0 else 0.0
  {
    var n, a, b := 3 * m - 4, Bits(m, u), Bits(m, v);
    var x, y := Rest(n, u, sqrt(n as real - Dot(a, a))), Rest(n, v, sqrt(n as real - Dot(b, b)));
    Overlap(m, u, v);
    DotNone(x, y);
    DotAppend(a, b, x, y);
  }

  /** The radius that tells neighbours from others. */
  function Radius(m: int): real
    requires m >= 3
  {
    1.0 - 1.0 / (3 * m - 4) as real
  }

  lemma {:induction false} DistanceAtLength(dot: real, norm: real, n: real)
    requires norm * norm == n > 0.0
    ensures DistanceAt(dot, norm, norm) == 1.0 - dot / n
  {
  }

  lemma {:induction false} Closeness(m: int, u: nat, v: nat, sqrt: real -> real)
    requires m >= 3 && IsSquareRoot(sqrt) && u < 3 * m - 4 && v < 3 * m - 4 && u != v
    ensures CosineDistance(Vector(m, u, sqrt), Vector(m, v, sqrt), sqrt) <= Radius(m) <==> Joined(m, u, v)
  {
    var a, b, n := Vector(m, u, sqrt), Vector(m, v, sqrt), (3 * m - 4) as real;
    SameLength(m, u, sqrt);
    SameLength(m, v, sqrt);
    VectorsMeet(m, u, v, sqrt);
    DistanceAtLength(Dot(a, b), sqrt(n), n);
    Shares(n);
  }

  lemma {:induction false} Shares(n: real)
    requires n > 0.0
    ensures 1.0 / n > 0.0 && 0.0 / n == 0.0
  {
  }

  lemma {:induction false} VectorsAreCaterpillar(m: int, sqrt: real -> real)
    requires m >= 3 && IsSquareRoot(sqrt)
    ensures IsCaterpillar(SpaceOf(Vectors(m, sqrt), Radius(m), sqrt, m), m)
  {
    var sp := SpaceOf(Vectors(m, sqrt), Radius(m), sqrt, m);
    forall i: nat, j: nat ensures Adjacent(sp, i, j) <==> Joined(m, i, j) {
      if i < sp.n && j < sp.n && i != j {
        Closeness(m, i, j, sqrt);
      }
    }
  }

  /** DBSCAN promises that adjacent cores share a cluster. Here that holds for every input exactly when min_samples is
      at most 2; from 3 on there are embeddings on which every run separates two of them. */
  lemma {:induction false} AdjacentCoresTogetherExactly(m: int, sqrt: real -> real)
    requires IsSquareRoot(sqrt)
    ensures m <= 2 ==> forall embeddings, eps, u: nat, v: nat ::
              var sp := SpaceOf(embeddings, eps, sqrt, m); AdjacentCores(sp, u, v) ==> Together(sp, u, v)
    ensures m >= 3 ==> exists embeddings, eps, u: nat, v: nat ::
              var sp := SpaceOf(embeddings, eps, sqrt, m); AdjacentCores(sp, u, v) && Apart(sp, u, v)
  {
    if m <= 2 {
      forall embeddings, eps, u: nat, v: nat, c |
        AdjacentCores(SpaceOf(embeddings, eps, sqrt, m), u, v) && IsClustering(SpaceOf(embeddings, eps, sqrt, m), c)
        ensures c.labels[u] == c.labels[v]
      {
        var sp := SpaceOf(embeddings, eps, sqrt, m);
        SpaceOfSymmetric(embeddings, eps, sqrt, m);
        assert Adjacent(sp, v, u);
        SmallThreshold(sp, c, u, v);
        SmallThreshold(sp, c, v, u);
      }
    } else {
      var sp := SpaceOf(Vectors(m, sqrt), Radius(m), sqrt, m);
      VectorsAreCaterpillar(m, sqrt);
      forall c | IsClustering(sp, c) ensures c.labels[1] != c.labels[2] {
        CaterpillarSplits(sp, m, c);
      }
      CaterpillarDegrees(sp, m);
      assert Joined(m, 1, 2);
      assert AdjacentCores(sp, 1, 2) && Apart(sp, 1, 2);
    }
  }
}
