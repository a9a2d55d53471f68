/** The monitoring API: one page over two sources of jobs, and counts per time bucket. */
module Monitoring {

  /** A row of either source; `created` is the instant it is sorted by. */
  datatype Item = Item(id: string, created: int)

  ghost predicate Descending(s: seq<Item>) {
    forall i, j :: 0 <= i < j < |s| ==> s[i].created >= s[j].created
  }

  function Insert(x: Item, s: seq<Item>): seq<Item> {
    if s == [] || x.created >= s[0].created then [x] + s else [s[0]] + Insert(x, s[1..])
  }

  /** `sort(reverse=True)`: latest first, and rows of one instant in the order they came. */
  function StableSort(s: seq<Item>): seq<Item> {
    if s == [] then [] else Insert(s[0], StableSort(s[1..]))
  }

  function Take(s: seq<Item>, n: nat): seq<Item> {
    if n < |s| then s[..n] else s
  }

  /** The slice of a page, counted from 1. */
  function Page(s: seq<Item>, page: nat, limit: nat): seq<Item>
    requires page >= 1
  {
    var start := (page - 1) * limit;
    if start >= |s| then [] else Take(s[start..], limit)
  }

  const FETCH_CAP: nat := 1000

  function FetchLimit(page: nat, limit: nat): nat {
    if page * limit < FETCH_CAP then page * limit else FETCH_CAP
  }

  /** What the endpoint returns: each source cut to the fetch limit, the union sorted, the page sliced. */
  function ListJobs(jobs: seq<Item>, tasks: seq<Item>, page: nat, limit: nat): seq<Item>
    requires page >= 1
  {
    var fetch := FetchLimit(page, limit);
    Page(StableSort(Take(jobs, fetch) + Take(tasks, fetch)), page, limit)
  }

  /** What it stands for: the page of everything there is. */
  function WholePage(jobs: seq<Item>, tasks: seq<Item>, page: nat, limit: nat): seq<Item>
    requires page >= 1
  {
    Page(StableSort(jobs + tasks), page, limit)
  }

  // Sorting the union of two sorted sources is merging them.

  function Merge(a: seq<Item>, b: seq<Item>): seq<Item>
    decreases |a| + |b|
  {
    if a == [] then b
    else if b == [] then a
    else if a[0].created >= b[0].created then [a[0]] + Merge(a[1..], b)
    else [b[0]] + Merge(a, b[1..])
  }

  lemma {:induction false} SortSorted(s: seq<Item>)
    requires Descending(s)
    ensures StableSort(s) == s
  {
    if s != [] {
      SortSorted(s[1..]);
      assert s == [s[0]] + s[1..];
    }
  }

  lemma {:induction false} SortStable(s: seq<Item>, instant: int)
    ensures AtInstant(StableSort(s), instant) == AtInstant(s, instant)
  {
    if s != [] {
      var sorted := StableSort(s[1..]);
      SortStable(s[1..], instant);
      InsertStable(s[0], sorted, instant);
      assert ([s[0]] + sorted)[1..] == sorted;
    }
  }

  lemma {:induction false} SortPermutes(s: seq<Item>)
    ensures Descending(StableSort(s)) && multiset(StableSort(s)) == multiset(s)
  {
    if s != [] {
      SortPermutes(s[1..]);
      InsertPermutes(s[0], StableSort(s[1..]));
      InsertDescends(s[0], StableSort(s[1..]));
      assert s == [s[0]] + s[1..];
    }
  }

  /** The sort is one: a permutation, latest first, that keeps rows of one instant in the order they came. */
  lemma {:induction false} StableSortSorts(s: seq<Item>, instant: int)
    ensures Descending(StableSort(s)) && multiset(StableSort(s)) == multiset(s)
    ensures AtInstant(StableSort(s), instant) == AtInstant(s, instant)
  {
    SortPermutes(s);
    SortStable(s, instant);
  }

  function AtInstant(s: seq<Item>, instant: int): seq<Item> {
    if s == [] then [] else (if s[0].created == instant then [s[0]] else []) + AtInstant(s[1..], instant)
  }

  lemma {:induction false} InsertPermutes(x: Item, s: seq<Item>)
    ensures multiset(Insert(x, s)) == multiset(s) + multiset{x}
  {
    if s != [] && x.created < s[0].created {
      InsertPermutes(x, s[1..]);
      assert s == [s[0]] + s[1..];
    }
  }

  lemma {:induction false} InsertBelow(x: Item, s: seq<Item>, top: int)
    requires x.created <= top && forall i :: 0 <= i < |s| ==> s[i].created <= top
    ensures forall i :: 0 <= i < |Insert(x, s)| ==> Insert(x, s)[i].created <= top
  {
    if s != [] && x.created < s[0].created {
      InsertBelow(x, s[1..], top);
    }
  }

  lemma {:induction false} InsertDescends(x: Item, s: seq<Item>)
    requires Descending(s)
    ensures Descending(Insert(x, s))
  {
    if s != [] && x.created < s[0].created {
      InsertDescends(x, s[1..]);
      InsertBelow(x, s[1..], s[0].created);
    }
  }

  lemma {:induction false} InsertStable(x: Item, s: seq<Item>, instant: int)
    ensures AtInstant(Insert(x, s), instant) == AtInstant([x] + s, instant)
  {
    assert ([x] + s)[1..] == s;
    if s != [] && x.created < s[0].created {
      InsertStable(x, s[1..], instant);
      assert ([x] + s[1..])[1..] == s[1..];
      assert ([s[0]] + Insert(x, s[1..]))[1..] == Insert(x, s[1..]);
    }
  }

  lemma {:induction false} MergeHead(a: seq<Item>, b: seq<Item>, bound: int)
    requires a != [] ==> a[0].created <= bound
    requires b != [] ==> b[0].created <= bound
    ensures Merge(a, b) != [] ==> Merge(a, b)[0].created <= bound
  {
  }

  lemma {:induction false} InsertMerged(x: Item, a: seq<Item>, b: seq<Item>)
    requires Descending([x] + a) && Descending(b)
    ensures Insert(x, Merge(a, b)) == Merge([x] + a, b)
    decreases |b|
  {
    assert ([x] + a)[1..] == a;
    assert a != [] ==> ([x] + a)[0] == x && ([x] + a)[1] == a[0];
    if b == [] || x.created >= b[0].created {
      MergeHead(a, b, x.created);
      assert b == [] ==> Merge(a, b) == a;
    } else {
      InsertMerged(x, a, b[1..]);
      assert Merge(a, b) == [b[0]] + Merge(a, b[1..]) by { assert b == [b[0]] + b[1..]; }
      assert Merge(a, b)[1..] == Merge(a, b[1..]);
    }
  }

  lemma {:induction false} SortUnion(a: seq<Item>, b: seq<Item>)
    requires Descending(a) && Descending(b)
    ensures StableSort(a + b) == Merge(a, b)
  {
    if a == [] {
      assert a + b == b;
      SortSorted(b);
    } else {
      assert (a + b)[1..] == a[1..] + b;
      SortUnion(a[1..], b);
      assert a == [a[0]] + a[1..];
      InsertMerged(a[0], a[1..], b);
    }
  }

  /** The first n rows of the merge only need the first n rows of each source. */
  lemma {:induction false} MergeFront(a: seq<Item>, b: seq<Item>, f: nat, g: nat, n: nat)
    requires n <= f && n <= g
    ensures Take(Merge(Take(a, f), Take(b, g)), n) == Take(Merge(a, b), n)
    decreases |a| + |b|
  {
    if n == 0 {
      TakeNone(Merge(Take(a, f), Take(b, g)), Merge(a, b));
    } else if a != [] && b != [] {
      if a[0].created >= b[0].created {
        MergeFront(a[1..], b, f - 1, g, n - 1);
        FrontLeft(a, b, f, g, n);
      } else {
        MergeFront(a, b[1..], f, g - 1, n - 1);
        FrontRight(a, b, f, g, n);
      }
    } else if a == [] {
      TakeTake(b, g, n);
    } else if b == [] {
      TakeTake(a, f, n);
    }
  }

  lemma {:induction false} TakeNone(s: seq<Item>, u: seq<Item>)
    ensures Take(s, 0) == Take(u, 0) == []
  {
  }

  lemma {:induction false} TakeTake(s: seq<Item>, f: nat, n: nat)
    requires n <= f
    ensures Take(Take(s, f), n) == Take(s, n)
  {
  }

  lemma {:induction false} FrontLeft(a: seq<Item>, b: seq<Item>, f: nat, g: nat, n: nat)
    requires 0 < n <= f && n <= g && a != [] && b != [] && a[0].created >= b[0].created
    requires Take(Merge(Take(a[1..], f - 1), Take(b, g)), n - 1) == Take(Merge(a[1..], b), n - 1)
    ensures Take(Merge(Take(a, f), Take(b, g)), n) == Take(Merge(a, b), n)
  {
    MergeLeft(a, b, n);
    TakeCons(a, f);
    TakeCons(b, g);
    MergeLeft(Take(a, f), Take(b, g), n);
  }

  lemma {:induction false} FrontRight(a: seq<Item>, b: seq<Item>, f: nat, g: nat, n: nat)
    requires 0 < n <= f && n <= g && a != [] && b != [] && a[0].created < b[0].created
    requires Take(Merge(Take(a, f), Take(b[1..], g - 1)), n - 1) == Take(Merge(a, b[1..]), n - 1)
    ensures Take(Merge(Take(a, f), Take(b, g)), n) == Take(Merge(a, b), n)
  {
    MergeRight(a, b, n);
    TakeCons(a, f);
    TakeCons(b, g);
    MergeRight(Take(a, f), Take(b, g), n);
  }

  lemma {:induction false} MergeLeft(a: seq<Item>, b: seq<Item>, n: nat)
    requires a != [] && b != [] && a[0].created >= b[0].created && n > 0
    ensures Take(Merge(a, b), n) == [a[0]] + Take(Merge(a[1..], b), n - 1)
  {
    TakeOfCons(a[0], Merge(a[1..], b), n);
  }

  lemma {:induction false} MergeRight(a: seq<Item>, b: seq<Item>, n: nat)
    requires a != [] && b != [] && a[0].created < b[0].created && n > 0
    ensures Take(Merge(a, b), n) == [b[0]] + Take(Merge(a, b[1..]), n - 1)
  {
    TakeOfCons(b[0], Merge(a, b[1..]), n);
  }

  lemma {:induction false} TakeCons(s: seq<Item>, n: nat)
    requires n > 0 && s != []
    ensures Take(s, n) == [s[0]] + Take(s[1..], n - 1) && Take(s, n)[1..] == Take(s[1..], n - 1)
  {
  }

  lemma {:induction false} TakeOfCons(x: Item, s: seq<Item>, n: nat)
    requires n > 0
    ensures Take([x] + s, n) == [x] + Take(s, n - 1)
  {
  }

  lemma {:induction false} PageOfFront(s: seq<Item>, t: seq<Item>, page: nat, limit: nat)
    requires page >= 1 && Take(s, page * limit) == Take(t, page * limit)
    ensures Page(s, page, limit) == Page(t, page, limit)
  {
    var start, end := (page - 1) * limit, page * limit;
    assert end == start + limit;
    PageInFront(s, start, limit);
    PageInFront(t, start, limit);
  }

  lemma {:induction false} PageInFront(s: seq<Item>, start: nat, limit: nat)
    ensures (if start >= |s| then [] else Take(s[start..], limit))
         == (if start >= |Take(s, start + limit)| then [] else Take(s, start + limit)[start..])
  {
  }

  lemma {:induction false} TakeDescending(s: seq<Item>, n: nat)
    requires Descending(s)
    ensures Descending(Take(s, n))
  {
  }

  lemma {:induction false} PageIsExact(jobs: seq<Item>, tasks: seq<Item>, page: nat, limit: nat)
    requires Descending(jobs) && Descending(tasks) && page >= 1 && page * limit <= FETCH_CAP
    ensures ListJobs(jobs, tasks, page, limit) == WholePage(jobs, tasks, page, limit)
  {
    var fetch := FetchLimit(page, limit);
    TakeDescending(jobs, fetch);
    TakeDescending(tasks, fetch);
    SortUnion(jobs, tasks);
    SortUnion(Take(jobs, fetch), Take(tasks, fetch));
    MergeFront(jobs, tasks, fetch, fetch, fetch);
    PageOfFront(Merge(Take(jobs, fetch), Take(tasks, fetch)), Merge(jobs, tasks), page, limit);
  }

  /** A table: its ids are keys, and it is read latest first. */
  ghost predicate Table(s: seq<Item>) {
    Descending(s) && forall i, j :: 0 <= i < j < |s| ==> s[i].id != s[j].id
  }

  function Name(n: nat): (id: string)
    ensures |id| == n
  {
    seq(n, _ => 'x')
  }

  /** A table long enough to fill the page. */
  function Filler(n: nat): seq<Item> {
    seq(n, i requires i >= 0 => Item(Name(i), 0))
  }

  lemma {:induction false} FillerIsTable(n: nat)
    ensures Table(Filler(n))
  {
    forall i, j | 0 <= i < j < n ensures Filler(n)[i].id != Filler(n)[j].id {
      assert |Filler(n)[i].id| == i && |Filler(n)[j].id| == j;
    }
  }

  lemma {:induction false} PageSize(s: seq<Item>, page: nat, limit: nat, start: nat)
    requires page >= 1 && start == (page - 1) * limit
    ensures |Page(s, page, limit)| == if start >= |s| then 0 else if |s| - start < limit then |s| - start else limit
  {
  }

  lemma {:induction false} OneSource(s: seq<Item>)
    requires Descending(s)
    ensures StableSort(s + []) == s
  {
    assert s + [] == s;
    SortSorted(s);
  }

  lemma {:induction false} PageFallsShort(page: nat, limit: nat)
    requires page >= 1 && limit >= 1 && page * limit > FETCH_CAP
    ensures Table(Filler(page * limit)) && Table([])
    ensures ListJobs(Filler(page * limit), [], page, limit) != WholePage(Filler(page * limit), [], page, limit)
  {
    var all := Filler(page * limit);
    var cut := Take(all, FETCH_CAP);
    FillerIsTable(page * limit);
    var start := (page - 1) * limit;
    assert start + limit == page * limit;
    OneSource(all);
    OneSource(cut);
    PageSize(all, page, limit, start);
    PageSize(cut, page, limit, start);
  }

  ghost predicate AlwaysExact(page: nat, limit: nat)
    requires page >= 1
  {
    forall jobs, tasks :: Table(jobs) && Table(tasks) ==>
      ListJobs(jobs, tasks, page, limit) == WholePage(jobs, tasks, page, limit)
  }

  /** Paging is exact, whatever the two tables hold, if and only if the page ends within the first 1000 rows. */
  lemma {:induction false} PagingExactly(page: nat, limit: nat)
    requires page >= 1 && limit >= 1
    ensures AlwaysExact(page, limit) <==> page * limit <= FETCH_CAP
  {
    if page * limit <= FETCH_CAP {
      forall jobs, tasks | Table(jobs) && Table(tasks)
        ensures ListJobs(jobs, tasks, page, limit) == WholePage(jobs, tasks, page, limit)
      {
        PageIsExact(jobs, tasks, page, limit);
      }
    } else {
      PageFallsShort(page, limit);
    }
  }

  // Reading on from page to page.

  /** Pages 1 to p, one after the other. */
  function Pages(s: seq<Item>, p: nat, limit: nat): seq<Item> {
    if p == 0 then [] else Pages(s, p - 1, limit) + Page(s, p, limit)
  }

  /** What the endpoint returns for pages 1 to p. */
  function Listed(jobs: seq<Item>, tasks: seq<Item>, p: nat, limit: nat): seq<Item> {
    if p == 0 then [] else Listed(jobs, tasks, p - 1, limit) + ListJobs(jobs, tasks, p, limit)
  }

  lemma {:induction false} TakeFurther(s: seq<Item>, start: nat, limit: nat)
    ensures Take(s, start + limit) == Take(s, start) + if start >= |s| then [] else Take(s[start..], limit)
  {
  }

  /** The pages of a list tile it: together they are its first rows, none twice, none left out. */
  lemma {:induction false} PagesTile(s: seq<Item>, p: nat, limit: nat)
    ensures Pages(s, p, limit) == Take(s, p * limit)
  {
    if p > 0 {
      PagesTile(s, p - 1, limit);
      TakeFurther(s, (p - 1) * limit, limit);
      assert p * limit == (p - 1) * limit + limit;
    }
  }

  lemma {:induction false} ListedArePages(jobs: seq<Item>, tasks: seq<Item>, p: nat, limit: nat)
    requires Descending(jobs) && Descending(tasks) && p * limit <= FETCH_CAP
    ensures Listed(jobs, tasks, p, limit) == Pages(Merge(jobs, tasks), p, limit)
  {
    if p > 0 {
      assert p * limit == (p - 1) * limit + limit;
      ListedArePages(jobs, tasks, p - 1, limit);
      PageIsExact(jobs, tasks, p, limit);
      SortUnion(jobs, tasks);
    }
  }

  /** Who reads pages 1 to p within the first 1000 rows gets the first rows of the merge, each once and in order. */
  lemma {:induction false} ListedTile(jobs: seq<Item>, tasks: seq<Item>, p: nat, limit: nat)
    requires Descending(jobs) && Descending(tasks) && p * limit <= FETCH_CAP
    ensures Listed(jobs, tasks, p, limit) == Take(Merge(jobs, tasks), p * limit)
  {
    ListedArePages(jobs, tasks, p, limit);
    PagesTile(Merge(jobs, tasks), p, limit);
  }

  // Time series.

  /** The bucket of an instant, none before the window; the last bucket takes what lies at or past its end. */
  function BucketOf(offset: real, width: real, buckets: nat): int
    requires width > 0.0 && buckets >= 1
  {
    if offset < 0.0 then -1
    else if (offset / width).Floor < buckets - 1 then (offset / width).Floor else buckets - 1
  }

  function CountIn(offsets: seq<real>, width: real, buckets: nat, bucket: int): nat
    requires width > 0.0 && buckets >= 1
  {
    if offsets == [] then 0
    else CountIn(offsets[..|offsets| - 1], width, buckets, bucket)
         + if BucketOf(offsets[|offsets| - 1], width, buckets) == bucket then 1 else 0
  }

  function Sum(s: seq<nat>): nat {
    if s == [] then 0 else Sum(s[..|s| - 1]) + s[|s| - 1]
  }

  function InWindow(offsets: seq<real>): nat {
    if offsets == [] then 0 else InWindow(offsets[..|offsets| - 1]) + if offsets[|offsets| - 1] >= 0.0 then 1 else 0
  }

  lemma {:induction false} BucketRange(offset: real, width: real, buckets: nat)
    requires width > 0.0 && buckets >= 1
    ensures offset < 0.0 ==> BucketOf(offset, width, buckets) == -1
    ensures offset >= 0.0 ==> 0 <= BucketOf(offset, width, buckets) < buckets
  {
    if offset >= 0.0 {
      assert offset / width >= 0.0;
    }
  }

  /** Where bucket b starts. */
  function Begin(b: int, width: real): real {
    b as real * width
  }

  lemma {:induction false} BeginsInOrder(a: int, b: int, width: real)
    requires a <= b && width > 0.0
    ensures Begin(a, width) <= Begin(b, width)
  {
    Widths(b as real - a as real, width, Begin(b, width) - Begin(a, width));
  }

  lemma {:induction false} Widths(n: real, width: real, length: real)
    requires n >= 0.0 && width > 0.0 && length == n * width
    ensures length >= 0.0 && (n > 0.0 ==> length > 0.0)
  {
  }

  lemma {:induction false} QuotientFloor(offset: real, width: real)
    requires width > 0.0
    ensures var f := (offset / width).Floor; Begin(f, width) <= offset < Begin(f + 1, width)
  {
    var q := offset / width;
    var f := q.Floor;
    assert q * width == offset && f as real <= q < (f + 1) as real;
    Widths(q - f as real, width, offset - Begin(f, width));
    Widths((f + 1) as real - q, width, Begin(f + 1, width) - offset);
  }

  /** A bucket holds the instants from its start up to the next one's; the last one holds all later ones, too. */
  lemma {:induction false} BucketExactly(offset: real, width: real, buckets: nat, b: nat)
    requires width > 0.0 && buckets >= 1 && b < buckets && offset >= 0.0
    ensures BucketOf(offset, width, buckets) == b
            <==> Begin(b, width) <= offset && (b == buckets - 1 || offset < Begin(b + 1, width))
  {
    var f := (offset / width).Floor;
    BucketRange(offset, width, buckets);
    QuotientFloor(offset, width);
    if b < f {
      BeginsInOrder(b, f, width);
      BeginsInOrder(b + 1, f, width);
    } else if f < b {
      BeginsInOrder(f + 1, b, width);
    }
  }

  lemma {:induction false} SumAfterIncrement(s: seq<nat>, i: nat)
    requires i < |s|
    ensures Sum(s[i := s[i] + 1]) == Sum(s) + 1
  {
    var t := s[i := s[i] + 1];
    if i == |s| - 1 {
      assert t[..|t| - 1] == s[..|s| - 1];
    } else {
      assert t[..|t| - 1] == s[..|s| - 1][i := s[i] + 1];
      SumAfterIncrement(s[..|s| - 1], i);
    }
  }

  lemma {:induction false} SumOfZeros(s: seq<nat>)
    requires forall i :: 0 <= i < |s| ==> s[i] == 0
    ensures Sum(s) == 0
  {
    if s != [] {
      SumOfZeros(s[..|s| - 1]);
    }
  }

  /** Counting into the series: each bucket counts its rows, and together they count every row in the window once. */
  method CountBuckets(offsets: seq<real>, width: real, series: array<nat>)
    requires width > 0.0 && series.Length >= 1 && forall i :: 0 <= i < series.Length ==> series[i] == 0
    modifies series
    ensures forall i :: 0 <= i < series.Length ==> series[i] == CountIn(offsets, width, series.Length, i)
    ensures Sum(series[..]) == InWindow(offsets)
  {
    SumOfZeros(series[..]);
    for k := 0 to |offsets|
      invariant forall i :: 0 <= i < series.Length ==> series[i] == CountIn(offsets[..k], width, series.Length, i)
      invariant Sum(series[..]) == InWindow(offsets[..k])
    {
      assert offsets[..k + 1][..k] == offsets[..k];
      BucketRange(offsets[k], width, series.Length);
      var idx := BucketOf(offsets[k], width, series.Length);
      if idx >= 0 {
        SumAfterIncrement(series[..], idx);
        ghost var before := series[..];
        series[idx] := series[idx] + 1;
        assert series[..] == before[idx := before[idx] + 1];
      }
    }
    assert offsets[..|offsets|] == offsets;
  }
}
