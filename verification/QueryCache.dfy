/** The query embedding cache: a bounded LRU in front of provider calls that concurrent callers share. */
module QueryCache {
  import opened Finite
  import opened Options
  import opened LruSpec

  const CAPACITY: nat := 256

  datatype Key = Key(baseUrl: string, model: string, text: string)

  type Vector = seq<real>

  datatype Entry = Entry(key: Key, vector: Vector)

  datatype Status = Running | Done(vector: Vector) | Failed

  /** A provider call. `discardDue` holds from its end until the deferred discard has run. */
  datatype Task = Task(key: Key, status: Status, discardDue: bool)

  /** The module-level state: the ordered cache, the table of shared calls, and all calls ever made. */
  datatype Shared = Shared(cache: seq<Entry>, inflight: map<Key, nat>, tasks: seq<Task>)

  function Keys(cache: seq<Entry>): seq<Key> {
    if cache == [] then [] else [cache[0].key] + Keys(cache[1..])
  }

  function Get(cache: seq<Entry>, k: Key): Option<Vector> {
    if cache == [] then None else if cache[0].key == k then Some(cache[0].vector) else Get(cache[1..], k)
  }

  function Drop(cache: seq<Entry>, k: Key): seq<Entry> {
    if cache == [] then [] else if cache[0].key == k then Drop(cache[1..], k) else [cache[0]] + Drop(cache[1..], k)
  }

  /** What a lookup under the lock comes to. */
  datatype Answer = Cached(vector: Vector) | Join(task: nat)

  /** First lock section: a hit becomes the most recent entry; a miss joins the registered call or starts one. */
  function Lookup(s: Shared, k: Key): (Shared, Answer) {
    match Get(s.cache, k)
    case Some(v) => (s.(cache := Drop(s.cache, k) + [Entry(k, v)]), Cached(v))
    case None =>
      if k in s.inflight then (s, Join(s.inflight[k]))
      else (s.(tasks := s.tasks + [Task(k, Running, false)], inflight := s.inflight[k := |s.tasks|]), Join(|s.tasks|))
  }

  /** Second lock section: the vector becomes the most recent entry; the oldest entries beyond the capacity go. */
  function Store(s: Shared, k: Key, v: Vector): Shared {
    s.(cache := LastN(Drop(s.cache, k) + [Entry(k, v)], CAPACITY))
  }

  /** A call ends, well or not, and its discard falls due. */
  function Finish(s: Shared, t: nat, outcome: Status): Shared
    requires t < |s.tasks|
  {
    s.(tasks := s.tasks[t := Task(s.tasks[t].key, outcome, true)])
  }

  /** The deferred discard: unregisters call t if it is still the registered one for its key. */
  function Discard(s: Shared, t: nat): Shared
    requires t < |s.tasks|
  {
    var k := s.tasks[t].key;
    s.(tasks := s.tasks[t := s.tasks[t].(discardDue := false)],
       inflight := if k in s.inflight && s.inflight[k] == t then s.inflight - {k} else s.inflight)
  }

  /** The same sections on mutable state, as the module runs them. */
  class EmbeddingQueries {
    var cache: seq<Entry>
    var inflight: map<Key, nat>
    var tasks: seq<Task>

    function State(): Shared
      reads this
    {
      Shared(cache, inflight, tasks)
    }

    constructor ()
      ensures State() == Shared([], map[], [])
    {
      cache, inflight, tasks := [], map[], [];
    }

    method MoveToEnd(k: Key, v: Vector)
      modifies this`cache
      ensures cache == Drop(old(cache), k) + [Entry(k, v)]
    {
      cache := Drop(cache, k) + [Entry(k, v)];
    }

    method LookUp(k: Key) returns (answer: Answer)
      modifies this
      ensures (State(), answer) == Lookup(old(State()), k)
    {
      var cached := Get(cache, k);
      if cached.Some? {
        MoveToEnd(k, cached.value);
        return Cached(cached.value);
      }
      if k !in inflight {
        tasks := tasks + [Task(k, Running, false)];
        inflight := inflight[k := |tasks| - 1];
      }
      return Join(inflight[k]);
    }

    method Save(k: Key, v: Vector)
      modifies this`cache
      ensures State() == Store(old(State()), k, v)
    {
      MoveToEnd(k, v);
      ghost var full, dropped := cache, 0;
      while |cache| > CAPACITY
        invariant dropped <= |full| && cache == full[dropped..]
        invariant dropped > 0 ==> |cache| >= CAPACITY
      {
        cache, dropped := cache[1..], dropped + 1;
      }
    }

    method DiscardInflight(t: nat)
      requires t < |tasks|
      modifies this
      ensures State() == Discard(old(State()), t)
    {
      var k := tasks[t].key;
      if k in inflight && inflight[k] == t {
        inflight := inflight - {k};
      }
      tasks := tasks[t := tasks[t].(discardDue := false)];
    }
  }

  // The protocol: callers, calls and discards in any interleaving.

  /** Where a caller of `embed_query` is. `Got` is between its two lock sections. */
  datatype Caller = Waiting(key: Key, task: nat) | Got(key: Key, vector: Vector)
                  | Returned(key: Key, vector: Vector) | Raised(key: Key) | Cancelled(key: Key)

  /** `log` records the touches of the cache: hits and stores. */
  datatype World = World(shared: Shared, callers: map<nat, Caller>, log: seq<Key>)

  const START := World(Shared([], map[], []), map[], [])

  datatype Event = Begin(caller: nat, key: Key) | Ends(task: nat, outcome: Status) | Discards(task: nat)
                 | Wake(caller: nat) | Saves(caller: nat) | Cancel(caller: nat)

  predicate Enabled(w: World, e: Event) {
    match e
    case Begin(c, _) => c !in w.callers
    case Ends(t, outcome) => t < |w.shared.tasks| && w.shared.tasks[t].status == Running && outcome != Running
    case Discards(t) => t < |w.shared.tasks| && w.shared.tasks[t].discardDue
    case Wake(c) => c in w.callers && w.callers[c].Waiting? && w.callers[c].task < |w.shared.tasks|
                    && w.shared.tasks[w.callers[c].task].status != Running
    case Saves(c) => c in w.callers && w.callers[c].Got?
    case Cancel(c) => c in w.callers && (w.callers[c].Waiting? || w.callers[c].Got?)
  }

  function Apply(w: World, e: Event): World
    requires Enabled(w, e)
  {
    match e
    case Begin(c, k) =>
      var (s, answer) := Lookup(w.shared, k);
      if answer.Cached? then World(s, w.callers[c := Returned(k, answer.vector)], w.log + [k])
      else World(s, w.callers[c := Waiting(k, answer.task)], w.log)
    case Ends(t, outcome) => w.(shared := Finish(w.shared, t, outcome))
    case Discards(t) => w.(shared := Discard(w.shared, t))
    case Wake(c) =>
      var k := w.callers[c].key;
      (match w.shared.tasks[w.callers[c].task].status
       case Done(v) => w.(callers := w.callers[c := Got(k, v)])
       case _ => w.(callers := w.callers[c := Raised(k)]))
    case Saves(c) =>
      var k, v := w.callers[c].key, w.callers[c].vector;
      World(Store(w.shared, k, v), w.callers[c := Returned(k, v)], w.log + [k])
    case Cancel(c) => w.(callers := w.callers[c := Cancelled(w.callers[c].key)])
  }

  /** A run: every event was enabled when it happened. */
  predicate Run(from: World, events: seq<Event>, to: World)
    decreases |events|
  {
    if events == [] then from == to
    else Enabled(from, events[0]) && Run(Apply(from, events[0]), events[1..], to)
  }

  // What holds of every reachable world.

  /** v is what some call for k returned. */
  ghost predicate Produced(s: Shared, k: Key, v: Vector) {
    exists t :: 0 <= t < |s.tasks| && s.tasks[t].key == k && s.tasks[t].status == Done(v)
  }

  /** The registered call of a key is a call for that key, and still runs or awaits its discard. */
  ghost predicate RegisteredOk(s: Shared) {
    forall k :: k in s.inflight ==>
      s.inflight[k] < |s.tasks| && s.tasks[s.inflight[k]].key == k
      && (s.tasks[s.inflight[k]].status == Running || s.tasks[s.inflight[k]].discardDue)
  }

  /** A call that runs or awaits its discard is the registered one of its key. */
  ghost predicate SingleFlight(s: Shared) {
    forall t :: 0 <= t < |s.tasks| && (s.tasks[t].status == Running || s.tasks[t].discardDue) ==>
      s.tasks[t].key in s.inflight && s.inflight[s.tasks[t].key] == t
  }

  /** No discard is due while its call runs. */
  ghost predicate DueAfterEnd(s: Shared) {
    forall t :: 0 <= t < |s.tasks| && s.tasks[t].discardDue ==> s.tasks[t].status != Running
  }

  ghost predicate CacheProduced(s: Shared) {
    forall i :: 0 <= i < |s.cache| ==> Produced(s, s.cache[i].key, s.cache[i].vector)
  }

  /** A caller waits for a call for its own key, and was given what such a call returned. */
  ghost predicate CallerOk(s: Shared, c: Caller) {
    match c
    case Waiting(k, t) => t < |s.tasks| && s.tasks[t].key == k
    case Got(k, v) => Produced(s, k, v)
    case Returned(k, v) => Produced(s, k, v)
    case _ => true
  }

  ghost predicate CallersOk(w: World) {
    forall c :: c in w.callers ==> CallerOk(w.shared, w.callers[c])
  }

  /** The ordered keys of the cache are those of an LRU cache with the same touches. */
  ghost predicate RefinesLru(w: World) {
    Keys(w.shared.cache) == LastN(Recent(w.log), CAPACITY)
  }

  ghost predicate Inv(w: World) {
    && RegisteredOk(w.shared) && SingleFlight(w.shared) && DueAfterEnd(w.shared) && CacheProduced(w.shared)
    && CallersOk(w) && RefinesLru(w)
  }

  lemma {:induction false} KeysAppend(a: seq<Entry>, b: seq<Entry>)
    ensures Keys(a + b) == Keys(a) + Keys(b)
  {
    if a == [] {
      assert a + b == b;
    } else {
      assert (a + b)[1..] == a[1..] + b;
      KeysAppend(a[1..], b);
    }
  }

  lemma {:induction false} KeysDrop(cache: seq<Entry>, k: Key)
    ensures Keys(Drop(cache, k)) == Without(Keys(cache), k)
    ensures forall e :: e in Drop(cache, k) ==> e in cache
  {
    if cache != [] {
      KeysDrop(cache[1..], k);
      assert Keys(cache)[1..] == Keys(cache[1..]);
      if cache[0].key != k {
        KeysAppend([cache[0]], Drop(cache[1..], k));
      }
    }
  }

  lemma {:induction false} KeysLength(cache: seq<Entry>)
    ensures |Keys(cache)| == |cache|
    ensures forall i :: 0 <= i < |cache| ==> Keys(cache)[i] == cache[i].key
  {
    if cache != [] {
      KeysLength(cache[1..]);
    }
  }

  lemma {:induction false} KeysLastN(cache: seq<Entry>, n: nat)
    ensures Keys(LastN(cache, n)) == LastN(Keys(cache), n)
  {
    KeysLength(cache);
    KeysLength(LastN(cache, n));
  }

  lemma {:induction false} GetExactly(cache: seq<Entry>, k: Key)
    ensures Get(cache, k).Some? <==> k in Keys(cache)
    ensures Get(cache, k).Some? ==> Entry(k, Get(cache, k).value) in cache
  {
    if cache != [] {
      GetExactly(cache[1..], k);
    }
  }

  /** The cache after k became its most recent entry. */
  lemma {:induction false} TouchKeys(cache: seq<Entry>, k: Key, v: Vector)
    ensures Keys(Drop(cache, k) + [Entry(k, v)]) == Without(Keys(cache), k) + [k]
  {
    KeysDrop(cache, k);
    KeysAppend(Drop(cache, k), [Entry(k, v)]);
    assert Keys([Entry(k, v)]) == [k] + Keys([]);
  }

  lemma {:induction false} StoreRefines(w: World, k: Key, v: Vector)
    requires RefinesLru(w)
    ensures Keys(Store(w.shared, k, v).cache) == LastN(Recent(w.log + [k]), CAPACITY)
  {
    TouchKeys(w.shared.cache, k, v);
    KeysLastN(Drop(w.shared.cache, k) + [Entry(k, v)], CAPACITY);
    TouchHeld(w.log, k, CAPACITY);
  }

  lemma {:induction false} HitRefines(w: World, k: Key, v: Vector)
    requires RefinesLru(w) && Get(w.shared.cache, k) == Some(v)
    ensures Keys(Lookup(w.shared, k).0.cache) == LastN(Recent(w.log + [k]), CAPACITY)
  {
    var held := Keys(w.shared.cache);
    GetExactly(w.shared.cache, k);
    TouchKeys(w.shared.cache, k, v);
    TouchHeld(w.log, k, CAPACITY);
    RecentDistinct(w.log);
    WithoutLength(held, k);
  }

  /** How calls evolve: none disappears, none changes its key, and an ended call keeps its outcome. */
  ghost predicate Grows(s: Shared, s': Shared) {
    && |s.tasks| <= |s'.tasks|
    && forall t :: 0 <= t < |s.tasks| ==>
         s'.tasks[t].key == s.tasks[t].key && (s.tasks[t].status != Running ==> s'.tasks[t].status == s.tasks[t].status)
  }

  lemma {:induction false} ProducedStable(s: Shared, s': Shared, k: Key, v: Vector)
    requires Grows(s, s') && Produced(s, k, v)
    ensures Produced(s', k, v)
  {
    var t :| 0 <= t < |s.tasks| && s.tasks[t].key == k && s.tasks[t].status == Done(v);
    assert s'.tasks[t].key == k && s'.tasks[t].status == Done(v);
  }

  lemma {:induction false} CallerStable(s: Shared, s': Shared, c: Caller)
    requires CallerOk(s, c) && Grows(s, s')
    ensures CallerOk(s', c)
  {
    match c
    case Got(k, v) => ProducedStable(s, s', k, v);
    case Returned(k, v) => ProducedStable(s, s', k, v);
    case _ =>
  }

  lemma {:induction false} CacheStable(s: Shared, s': Shared)
    requires CacheProduced(s) && Grows(s, s')
    requires forall e :: e in s'.cache ==> e in s.cache || Produced(s, e.key, e.vector)
    ensures CacheProduced(s')
  {
    forall i | 0 <= i < |s'.cache| ensures Produced(s', s'.cache[i].key, s'.cache[i].vector) {
      var e := s'.cache[i];
      if e in s.cache {
        var j :| 0 <= j < |s.cache| && s.cache[j] == e;
        assert Produced(s, s.cache[j].key, s.cache[j].vector);
      }
      ProducedStable(s, s', e.key, e.vector);
    }
  }

  lemma {:induction false} RegisteredKept(w: World, e: Event)
    requires Enabled(w, e) && RegisteredOk(w.shared) && SingleFlight(w.shared)
    ensures RegisteredOk(Apply(w, e).shared)
  {
  }

  lemma {:induction false} SingleFlightKept(w: World, e: Event)
    requires Enabled(w, e) && RegisteredOk(w.shared) && SingleFlight(w.shared) && DueAfterEnd(w.shared)
    ensures SingleFlight(Apply(w, e).shared) && DueAfterEnd(Apply(w, e).shared)
  {
  }

  lemma {:induction false} CallsGrow(w: World, e: Event)
    requires Enabled(w, e)
    ensures Grows(w.shared, Apply(w, e).shared)
  {
  }

  lemma {:induction false} LookupCached(s: Shared, k: Key)
    requires CacheProduced(s)
    ensures forall e :: e in Lookup(s, k).0.cache ==> e in s.cache
    ensures Lookup(s, k).1.Cached? ==> Produced(s, k, Lookup(s, k).1.vector)
  {
    GetExactly(s.cache, k);
    KeysDrop(s.cache, k);
    if Get(s.cache, k).Some? {
      var i :| 0 <= i < |s.cache| && s.cache[i] == Entry(k, Get(s.cache, k).value);
      assert Produced(s, s.cache[i].key, s.cache[i].vector);
    }
  }

  lemma {:induction false} CacheKept(w: World, e: Event)
    requires Enabled(w, e) && Inv(w)
    ensures CacheProduced(Apply(w, e).shared) && RefinesLru(Apply(w, e))
  {
    CallsGrow(w, e);
    match e
    case Begin(c, k) =>
      LookupCached(w.shared, k);
      CacheStable(w.shared, Apply(w, e).shared);
      if Get(w.shared.cache, k).Some? {
        HitRefines(w, k, Get(w.shared.cache, k).value);
      }
    case Saves(c) =>
      var k, v := w.callers[c].key, w.callers[c].vector;
      KeysDrop(w.shared.cache, k);
      StoreRefines(w, k, v);
      CacheStable(w.shared, Apply(w, e).shared);
    case _ =>
      CacheStable(w.shared, Apply(w, e).shared);
  }

  lemma {:induction false} CallersKept(w: World, e: Event)
    requires Enabled(w, e) && CallersOk(w) && CacheProduced(w.shared) && RegisteredOk(w.shared)
    ensures CallersOk(Apply(w, e))
  {
    CallsGrow(w, e);
    var w' := Apply(w, e);
    forall c | c in w'.callers ensures CallerOk(w'.shared, w'.callers[c]) {
      if c in w.callers && w'.callers[c] == w.callers[c] {
        CallerStable(w.shared, w'.shared, w.callers[c]);
      } else {
        CallerMoved(w, e, c);
      }
    }
  }

  lemma {:induction false} CallerMoved(w: World, e: Event, c: nat)
    requires Enabled(w, e) && CallersOk(w) && CacheProduced(w.shared) && RegisteredOk(w.shared)
    requires c in Apply(w, e).callers && (c in w.callers ==> Apply(w, e).callers[c] != w.callers[c])
    ensures CallerOk(Apply(w, e).shared, Apply(w, e).callers[c])
  {
    var w' := Apply(w, e);
    CallsGrow(w, e);
    if c in w.callers {
      assert CallerOk(w.shared, w.callers[c]);
    }
    match e
    case Begin(_, k) =>
      LookupCached(w.shared, k);
      if Get(w.shared.cache, k).Some? {
        ProducedStable(w.shared, w'.shared, k, Get(w.shared.cache, k).value);
      }
    case Saves(_) =>
      ProducedStable(w.shared, w'.shared, w.callers[c].key, w.callers[c].vector);
    case _ =>
  }

  lemma {:induction false} InvKept(w: World, e: Event)
    requires Enabled(w, e) && Inv(w)
    ensures Inv(Apply(w, e))
  {
    RegisteredKept(w, e);
    SingleFlightKept(w, e);
    CacheKept(w, e);
    CallersKept(w, e);
  }

  /** Every world that any interleaving of lookups, ends, discards, wake-ups, stores and cancellations reaches. */
  lemma {:induction false} RunsKeepInv(from: World, events: seq<Event>, to: World)
    requires Inv(from) && Run(from, events, to)
    ensures Inv(to)
    decreases |events|
  {
    if events != [] {
      InvKept(from, events[0]);
      RunsKeepInv(Apply(from, events[0]), events[1..], to);
    }
  }

  lemma {:induction false} ReachableInv(events: seq<Event>, w: World)
    requires Run(START, events, w)
    ensures Inv(w)
  {
    RunsKeepInv(START, events, w);
  }

  // What the invariant gives the callers.

  /** At most one provider call per key runs, in every reachable world. */
  lemma {:induction false} OneCallPerKey(events: seq<Event>, w: World, t: nat, u: nat)
    requires Run(START, events, w) && t < |w.shared.tasks| && u < |w.shared.tasks|
    requires w.shared.tasks[t].status == w.shared.tasks[u].status == Running
    requires w.shared.tasks[t].key == w.shared.tasks[u].key
    ensures t == u
  {
    ReachableInv(events, w);
  }

  /** A lookup starts a call exactly when the key is neither held nor registered, and then no call for it runs. */
  lemma {:induction false} CallStartsExactly(events: seq<Event>, w: World, k: Key)
    requires Run(START, events, w)
    ensures |Lookup(w.shared, k).0.tasks| > |w.shared.tasks| <==> k !in Keys(w.shared.cache) && k !in w.shared.inflight
    ensures |Lookup(w.shared, k).0.tasks| > |w.shared.tasks| ==>
              forall t :: 0 <= t < |w.shared.tasks| && w.shared.tasks[t].key == k ==>
                w.shared.tasks[t].status != Running
  {
    ReachableInv(events, w);
    GetExactly(w.shared.cache, k);
  }

  /** A due discard unregisters its own call and nothing else: it never meets a newer one. */
  lemma {:induction false} DiscardTakesOnlyItsOwn(events: seq<Event>, w: World, t: nat)
    requires Run(START, events, w) && Enabled(w, Discards(t))
    ensures var k := w.shared.tasks[t].key;
            k in w.shared.inflight && w.shared.inflight[k] == t
              && Discard(w.shared, t).inflight == w.shared.inflight - {k}
  {
    ReachableInv(events, w);
  }

  /** Once nothing runs and no discard is due, nothing is registered: failed calls are not held on to. */
  lemma {:induction false} NothingLeaks(events: seq<Event>, w: World)
    requires Run(START, events, w)
    requires forall t :: 0 <= t < |w.shared.tasks| ==>
               w.shared.tasks[t].status != Running && !w.shared.tasks[t].discardDue
    ensures w.shared.inflight == map[]
  {
    ReachableInv(events, w);
    assert forall k :: k !in w.shared.inflight;
  }

  /** Whatever a caller gets, and whatever the cache holds, a call for that very key returned. */
  lemma {:induction false} VectorsAreProduced(events: seq<Event>, w: World)
    requires Run(START, events, w)
    ensures forall c :: c in w.callers && w.callers[c].Returned? ==>
              Produced(w.shared, w.callers[c].key, w.callers[c].vector)
    ensures forall e :: e in w.shared.cache ==> Produced(w.shared, e.key, e.vector)
  {
    ReachableInv(events, w);
  }

  /** In every run a key is held exactly when fewer than 256 other keys were hit or stored since its last touch. */
  lemma {:induction false} HeldInRuns(events: seq<Event>, w: World, k: Key)
    requires Run(START, events, w)
    ensures |w.shared.cache| <= CAPACITY
    ensures k in Keys(w.shared.cache) <==>
              k in w.log && |Elements(w.log[LastTouch(w.log, k) + 1..])| < CAPACITY
  {
    ReachableInv(events, w);
    KeysLength(w.shared.cache);
    HeldExactly(w.log, k, CAPACITY);
  }

  /** A retry after a failure meets the failed call again exactly until the discard of that call has run. */
  lemma {:induction false} RetryMeetsFailureExactly(events: seq<Event>, w: World, t: nat)
    requires Run(START, events, w) && t < |w.shared.tasks| && w.shared.tasks[t].status == Failed
    requires w.shared.tasks[t].key !in Keys(w.shared.cache)
    ensures Lookup(w.shared, w.shared.tasks[t].key).1 == Join(t) <==> w.shared.tasks[t].discardDue
  {
    ReachableInv(events, w);
    GetExactly(w.shared.cache, w.shared.tasks[t].key);
  }

  /** And that happens, for every key: a call is started and fails, and the next lookup joins it. */
  lemma {:induction false} FailureIsMet(k: Key)
    ensures var failed := Apply(Apply(START, Begin(0, k)), Ends(0, Failed));
            && Run(START, [Begin(0, k), Ends(0, Failed)], failed)
            && failed.shared.tasks == [Task(k, Failed, true)] && Lookup(failed.shared, k).1 == Join(0)
  {
    var begun := Apply(START, Begin(0, k));
    assert begun.shared == Shared([], map[k := 0], [Task(k, Running, false)]);
    assert [Begin(0, k), Ends(0, Failed)][1..] == [Ends(0, Failed)];
    assert [Ends(0, Failed)][1..] == [];
  }

  // Document batches.

  const BATCH_SIZE: nat := 16

  /** The batches of some texts from position i on. */
  function Batches(texts: seq<string>, i: nat): seq<seq<string>>
    decreases |texts| - i
  {
    if i >= |texts| then []
    else [texts[i..if i + BATCH_SIZE < |texts| then i + BATCH_SIZE else |texts|]] + Batches(texts, i + BATCH_SIZE)
  }

  /** What a provider says to a list of batches: all its vectors, or nothing as soon as one batch fails. */
  function Answers(batches: seq<seq<string>>, provider: seq<string> -> Option<seq<Vector>>): Option<seq<Vector>> {
    if batches == [] then Some([])
    else
      match provider(batches[0])
      case None => None
      case Some(vectors) =>
        var rest := Answers(batches[1..], provider);
        if rest.None? then None else Some(vectors + rest.value)
  }

  /** Batch after batch the vectors are appended, however many the provider returns. */
  method EmbedDocuments(texts: seq<string>, provider: seq<string> -> Option<seq<Vector>>)
    returns (r: Option<seq<Vector>>)
    ensures r == Answers(Batches(texts, 0), provider)
  {
    var all: seq<Vector> := [];
    var i := 0;
    PrependedNothing(Answers(Batches(texts, 0), provider));
    while i < |texts|
      invariant 0 <= i
      invariant Answers(Batches(texts, 0), provider) == Prepended(all, Answers(Batches(texts, i), provider))
    {
      var batch := texts[i..if i + BATCH_SIZE < |texts| then i + BATCH_SIZE else |texts|];
      AnswersStep(texts, i, provider, all);
      var vectors := provider(batch);
      if vectors.None? {
        return None;
      }
      all := all + vectors.value;
      i := i + BATCH_SIZE;
    }
    assert all + [] == all;
    r := Some(all);
  }

  lemma {:induction false} PrependedNothing(rest: Option<seq<Vector>>)
    ensures Prepended([], rest) == rest
  {
    if rest.Some? {
      assert [] + rest.value == rest.value;
    }
  }

  function Prepended(before: seq<Vector>, rest: Option<seq<Vector>>): Option<seq<Vector>> {
    if rest.None? then None else Some(before + rest.value)
  }

  lemma {:induction false} AnswersStep(texts: seq<string>, i: nat, provider: seq<string> -> Option<seq<Vector>>,
                                       before: seq<Vector>)
    requires i < |texts|
    ensures var batch := texts[i..if i + BATCH_SIZE < |texts| then i + BATCH_SIZE else |texts|];
            Prepended(before, Answers(Batches(texts, i), provider))
            == if provider(batch).None? then None
               else Prepended(before + provider(batch).value, Answers(Batches(texts, i + BATCH_SIZE), provider))
  {
    var batch := texts[i..if i + BATCH_SIZE < |texts| then i + BATCH_SIZE else |texts|];
    var later := Batches(texts, i + BATCH_SIZE);
    assert ([batch] + later)[1..] == later;
    if provider(batch).Some? && Answers(later, provider).Some? {
      assert before + (provider(batch).value + Answers(later, provider).value)
             == before + provider(batch).value + Answers(later, provider).value;
    }
  }

  function Embedded(texts: seq<string>, embed: string -> Vector): seq<Vector> {
    seq(|texts|, i requires 0 <= i < |texts| => embed(texts[i]))
  }

  /** A provider that returns one vector for each text of a batch gives one vector for each text, in order. */
  lemma {:induction false} BatchingIsInvisible(texts: seq<string>, i: nat, embed: string -> Vector,
                                               provider: seq<string> -> Option<seq<Vector>>)
    requires i <= |texts|
    requires forall batch :: batch in Batches(texts, i) ==> provider(batch) == Some(Embedded(batch, embed))
    ensures Answers(Batches(texts, i), provider) == Some(Embedded(texts[i..], embed))
    decreases |texts| - i
  {
    if i < |texts| {
      var end := if i + BATCH_SIZE < |texts| then i + BATCH_SIZE else |texts|;
      var batch, later := texts[i..end], Batches(texts, i + BATCH_SIZE);
      assert batch in Batches(texts, i);
      assert ([batch] + later)[1..] == later && later == Batches(texts, end);
      BatchingIsInvisible(texts, end, embed, provider);
      assert texts[i..] == batch + texts[end..];
      assert Embedded(texts[i..], embed) == Embedded(batch, embed) + Embedded(texts[end..], embed);
    }
  }

  /** It fails exactly if the provider fails on some batch. */
  lemma {:induction false} FailsExactly(batches: seq<seq<string>>, provider: seq<string> -> Option<seq<Vector>>)
    ensures Answers(batches, provider).None? <==> exists batch :: batch in batches && provider(batch).None?
  {
    if batches != [] {
      FailsExactly(batches[1..], provider);
      assert batches == [batches[0]] + batches[1..];
    }
  }

  function Flat(batches: seq<seq<string>>): seq<string> {
    if batches == [] then [] else batches[0] + Flat(batches[1..])
  }

  /** The batches are the texts in order; all but the last are full, and none is empty. */
  lemma {:induction false} BatchesFit(texts: seq<string>, i: nat)
    requires i <= |texts|
    ensures var batches := Batches(texts, i);
            && Flat(batches) == texts[i..]
            && (forall k :: 0 <= k < |batches| ==> 0 < |batches[k]| <= BATCH_SIZE)
            && (forall k :: 0 <= k < |batches| - 1 ==> |batches[k]| == BATCH_SIZE)
    decreases |texts| - i
  {
    if i < |texts| {
      var end := if i + BATCH_SIZE < |texts| then i + BATCH_SIZE else |texts|;
      BatchesFit(texts, end);
      assert Batches(texts, i)[1..] == Batches(texts, i + BATCH_SIZE);
      assert end == |texts| ==> Batches(texts, i + BATCH_SIZE) == [] == Batches(texts, end);
      assert texts[i..] == texts[i..end] + texts[end..];
    }
  }
}
