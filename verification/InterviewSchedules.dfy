/** What holds of interviews over all interleavings of requests that read at one time and commit at another. */
module InterviewSchedules {
  import opened Finite
  import opened Options
  import opened Interview
  import opened InterviewRuns
  import opened InterviewRaces

  /** The committed tables, the requests under way, and every id that was ever made up. */
  datatype World = World(db: Tables, flights: map<nat, Flight>, used: set<Id>)

  /** A request reads; a submission reads the profiles once it is scored; a request commits, or fails. Locks of the
      database only delay a commit, so that every order of commits that it allows is among these. */
  datatype Event = Reads(k: nat, request: Request) | ReadsProfiles(k: nat) | Commits(k: nat)

  function MadeUp(request: Request): set<Id> {
    match request
    case Start(_, id, ids, _, _) => {id} + Elements(ids)
    case SaveAnswer(_, _, _, newId, _, _, _, _) => {newId}
    case _ => {}
  }

  function IdsIn(t: Tables): set<Id> {
    t.sessions.Keys + t.questions.Keys + t.answers.Keys
  }

  ghost predicate WellMade(request: Request) {
    request.Start? ==>
      |request.questionIds| == |request.algorithms| && Distinct(request.questionIds)
        && request.id !in request.questionIds
  }

  ghost predicate Enabled(w: World, e: Event) {
    match e
    case Reads(k, request) => k !in w.flights && WellMade(request) && MadeUp(request) !! w.used
    case ReadsProfiles(k) => k in w.flights && !w.flights[k].scored
    case Commits(k) => k in w.flights && (w.flights[k].request.Submit? ==> w.flights[k].scored)
                       && WellMade(w.flights[k].request)
  }

  ghost function Apply(w: World, e: Event): World
    requires Enabled(w, e)
  {
    match e
    case Reads(k, request) =>
      World(w.db, w.flights[k := Flight(request, w.db, w.db.profiles, false)], w.used + MadeUp(request))
    case ReadsProfiles(k) =>
      w.(flights := w.flights[k := w.flights[k].(profiles := w.db.profiles, scored := true)])
    case Commits(k) => World(After(w.db, w.flights[k]), w.flights - {k}, w.used)
  }

  /** The worlds of a run, from the first on. */
  ghost predicate Runs(worlds: seq<World>, events: seq<Event>) {
    && |worlds| == |events| + 1 && worlds[0].flights == map[] && IdsIn(worlds[0].db) <= worlds[0].used
    && forall i :: 0 <= i < |events| ==> Enabled(worlds[i], events[i]) && worlds[i + 1] == Apply(worlds[i], events[i])
  }

  /** Event i is no commit, or one that keeps the invariant and every ended interview. */
  ghost predicate LawfulAt(worlds: seq<World>, events: seq<Event>, i: nat)
    requires Runs(worlds, events) && i < |events|
  {
    events[i].Commits? ==> Lawful(worlds[i].db, worlds[i + 1].db, worlds[i].flights[events[i].k].request)
  }

  /** Event i is no commit, or one that writes nothing new or finds that what it read is still true. */
  ghost predicate UndisturbedAt(worlds: seq<World>, events: seq<Event>, i: nat)
    requires Runs(worlds, events) && i < |events|
  {
    events[i].Commits? ==>
      var (t, f) := (worlds[i].db, worlds[i].flights[events[i].k]); WritesNothing(t, f) || StillTrue(t, f)
  }

  // ---- What is known at a commit ---------------------------------------------------------------

  /** New ids of a request under way are in no tables. */
  ghost predicate FlightOk(w: World, k: nat) {
    k in w.flights ==>
      var f := w.flights[k];
      && Inv(f.seen) && Evolves(f.seen, w.db) && WellMade(f.request) && MadeUp(f.request) !! IdsIn(w.db)
      && IdsIn(f.seen) <= w.used && MadeUp(f.request) <= w.used
  }

  ghost predicate Apart(w: World, j: nat, k: nat) {
    j in w.flights && k in w.flights && j != k ==> MadeUp(w.flights[j].request) !! MadeUp(w.flights[k].request)
                                                   && MadeUp(w.flights[j].request) !! IdsIn(w.flights[k].seen)
  }

  ghost predicate WorldOk(w: World) {
    && Inv(w.db) && IdsIn(w.db) <= w.used && (forall k :: FlightOk(w, k))
    && (forall j, k {:trigger Apart(w, j, k)} :: Apart(w, j, k))
  }

  lemma {:induction false} KnownAtCommit(w: World, k: nat)
    requires WorldOk(w) && k in w.flights
    ensures Known(w.db, w.flights[k])
  {
    assert FlightOk(w, k);
    var f := w.flights[k];
    match f.request
    case Start(_, id, ids, _, _) =>
      assert id in MadeUp(f.request);
      forall q | q in ids ensures q !in w.db.questions {
        assert q in MadeUp(f.request);
      }
    case SaveAnswer(_, _, _, newId, _, _, _, _) => assert newId in MadeUp(f.request);
    case _ =>
  }

  ghost predicate KeptSession(t: Tables, t': Tables, s: Id) {
    && s in t.sessions && s in t'.sessions
    && t'.sessions[s].user == t.sessions[s].user && QuestionsOf(t', s) == QuestionsOf(t, s)
  }

  /** What is in the tables after a commit was there before, the same in what identifies it, or was made up by it. */
  ghost predicate Grown(t: Tables, t': Tables, made: set<Id>) {
    && (forall a :: a in t'.answers ==> a in made || (a in t.answers && SameQuestion(t.answers[a], t'.answers[a])))
    && (forall q :: q in t'.questions ==> q in made || (q in t.questions && t'.questions[q] == t.questions[q]))
    && (forall s :: s in t'.sessions ==> s in made || KeptSession(t, t', s))
  }

  lemma {:induction false} StartGrows(t: Tables, user: UserId, id: Id, ids: seq<Id>, algorithms: seq<bool>)
    requires WellFormed(t) && |ids| == |algorithms| && Distinct(ids) && forall q :: q in ids ==> q !in t.questions
    ensures Grown(t, Started(t, user, id, ids, algorithms), {id} + Elements(ids))
  {
    NewQuestionRows(id, ids, algorithms);
    var t' := Started(t, user, id, ids, algorithms);
    forall s | s in t'.sessions && s != id ensures QuestionsOf(t', s) == QuestionsOf(t, s) {
    }
  }

  lemma {:induction false} SaveGrows(t: Tables, f: Flight)
    requires Inv(t) && Known(t, f) && f.request.SaveAnswer?
    ensures Grown(t, After(t, f), {f.request.newId})
  {
    var t' := After(t, f);
    assert t' == t.(answers := t'.answers);
    forall s | s in t'.sessions ensures KeptSession(t, t', s) {
      assert QuestionsOf(t', s) == QuestionsOf(t, s);
    }
    forall a | a in t'.answers && a != f.request.newId
      ensures a in t.answers && SameQuestion(t.answers[a], t'.answers[a])
    {
    }
  }

  lemma {:induction false} SubmitGrows(t: Tables, f: Flight)
    requires f.request.Submit?
    ensures Grown(t, After(t, f), {})
  {
    forall s ensures QuestionsOf(After(t, f), s) == QuestionsOf(t, s) {
    }
  }

  lemma {:induction false} AbandonGrows(t: Tables, f: Flight)
    requires f.request.Abandon?
    ensures Grown(t, After(t, f), {})
  {
    forall s ensures QuestionsOf(After(t, f), s) == QuestionsOf(t, s) {
    }
  }

  lemma {:induction false} ClearGrows(t: Tables, f: Flight)
    requires f.request.ClearHistory?
    ensures Grown(t, After(t, f), {})
  {
    forall s | s in After(t, f).sessions ensures QuestionsOf(After(t, f), s) == QuestionsOf(t, s) {
    }
  }

  lemma {:induction false} CommitGrows(t: Tables, f: Flight)
    requires Inv(t) && Known(t, f) && WellMade(f.request)
    ensures Grown(t, After(t, f), MadeUp(f.request))
  {
    match f.request
    case Start(user, id, ids, algorithms, _) => StartGrows(t, user, id, ids, algorithms);
    case SaveAnswer(_, _, _, _, _, _, _, _) => SaveGrows(t, f);
    case Submit(_, _, _, _) => SubmitGrows(t, f);
    case Abandon(_, _, _) => AbandonGrows(t, f);
    case ClearHistory(_, _) => ClearGrows(t, f);
  }

  lemma {:induction false} GrownIds(t: Tables, t': Tables, made: set<Id>)
    requires Grown(t, t', made)
    ensures IdsIn(t') <= IdsIn(t) + made
  {
  }

  /** What a request has read still is where the tables come from. */
  lemma {:induction false} EvolvesOn(seen: Tables, t: Tables, t': Tables, made: set<Id>)
    requires Evolves(seen, t) && Grown(t, t', made) && made !! IdsIn(seen)
    ensures Evolves(seen, t')
  {
    forall a | a in seen.answers && a in t'.answers ensures SameQuestion(seen.answers[a], t'.answers[a]) {
      assert a in IdsIn(seen);
    }
    forall q | q in seen.questions && q in t'.questions ensures seen.questions[q] == t'.questions[q] {
      assert q in IdsIn(seen);
    }
    forall s | s in seen.sessions && s in t'.sessions
      ensures seen.sessions[s].user == t'.sessions[s].user && QuestionsOf(seen, s) == QuestionsOf(t', s)
    {
      assert s in IdsIn(seen);
    }
  }

  lemma {:induction false} CommitOk(w: World, k: nat)
    requires WorldOk(w) && k in w.flights && Enabled(w, Commits(k))
    requires Lawful(w.db, After(w.db, w.flights[k]), w.flights[k].request)
    ensures WorldOk(Apply(w, Commits(k)))
  {
    var w', f := Apply(w, Commits(k)), w.flights[k];
    var made := MadeUp(f.request);
    assert FlightOk(w, k);
    KnownAtCommit(w, k);
    CommitGrows(w.db, f);
    GrownIds(w.db, w'.db, made);
    forall j ensures FlightOk(w', j) {
      if j in w'.flights {
        assert FlightOk(w, j) && Apart(w, j, k) && Apart(w, k, j);
        EvolvesOn(w.flights[j].seen, w.db, w'.db, made);
      }
    }
    forall i, j ensures Apart(w', i, j) {
      assert Apart(w, i, j);
    }
  }

  lemma {:induction false} ReadOk(w: World, k: nat, request: Request)
    requires WorldOk(w) && Enabled(w, Reads(k, request))
    ensures WorldOk(Apply(w, Reads(k, request)))
  {
    var w' := Apply(w, Reads(k, request));
    forall j ensures FlightOk(w', j) {
      assert FlightOk(w, j);
    }
    forall i, j ensures Apart(w', i, j) {
      assert Apart(w, i, j) && FlightOk(w, i) && FlightOk(w, j);
    }
  }

  lemma {:induction false} ProfilesOk(w: World, k: nat)
    requires WorldOk(w) && Enabled(w, ReadsProfiles(k))
    ensures WorldOk(Apply(w, ReadsProfiles(k)))
  {
    var w' := Apply(w, ReadsProfiles(k));
    forall j ensures FlightOk(w', j) {
      assert FlightOk(w, j);
    }
    forall i, j ensures Apart(w', i, j) {
      assert Apart(w, i, j);
    }
  }

  // ---- All schedules ---------------------------------------------------------------------------

  ghost predicate AllLawful(worlds: seq<World>, events: seq<Event>, n: nat)
    requires Runs(worlds, events) && n <= |events|
  {
    forall i: nat {:trigger LawfulAt(worlds, events, i)} :: i < n ==> LawfulAt(worlds, events, i)
  }

  ghost predicate AllUndisturbed(worlds: seq<World>, events: seq<Event>, n: nat)
    requires Runs(worlds, events) && n <= |events|
  {
    forall i: nat {:trigger UndisturbedAt(worlds, events, i)} :: i < n ==> UndisturbedAt(worlds, events, i)
  }

  lemma {:induction false} WorldsOk(worlds: seq<World>, events: seq<Event>, n: nat)
    requires Runs(worlds, events) && n <= |events| && Inv(worlds[0].db) && AllLawful(worlds, events, n)
    ensures WorldOk(worlds[n])
  {
    if n > 0 {
      assert AllLawful(worlds, events, n - 1);
      WorldsOk(worlds, events, n - 1);
      assert LawfulAt(worlds, events, n - 1);
      match events[n - 1]
      case Reads(k, request) => ReadOk(worlds[n - 1], k, request);
      case ReadsProfiles(k) => ProfilesOk(worlds[n - 1], k);
      case Commits(k) => CommitOk(worlds[n - 1], k);
    } else {
      assert forall k :: FlightOk(worlds[0], k);
    }
  }

  lemma {:induction false} LawfulAtExactly(worlds: seq<World>, events: seq<Event>, i: nat)
    requires Runs(worlds, events) && i < |events| && WorldOk(worlds[i])
    ensures LawfulAt(worlds, events, i) <==> UndisturbedAt(worlds, events, i)
  {
    if events[i].Commits? {
      var w, k := worlds[i], events[i].k;
      assert worlds[i + 1] == Apply(w, events[i]);
      KnownAtCommit(w, k);
      LawfulExactly(w.db, w.flights[k]);
    }
  }

  /** In any schedule every commit keeps the invariant and the ended interviews if and only if every commit that writes
      something new finds its session still open, and the count it read still right. */
  lemma {:induction false} SchedulesExactly(worlds: seq<World>, events: seq<Event>, n: nat)
    requires Runs(worlds, events) && n <= |events| && Inv(worlds[0].db)
    ensures AllLawful(worlds, events, n) <==> AllUndisturbed(worlds, events, n)
  {
    if n > 0 {
      SchedulesExactly(worlds, events, n - 1);
      ExtendLawful(worlds, events, n);
      ExtendUndisturbed(worlds, events, n);
      if AllLawful(worlds, events, n - 1) {
        WorldsOk(worlds, events, n - 1);
        LawfulAtExactly(worlds, events, n - 1);
      }
    }
  }

  lemma {:induction false} ExtendLawful(worlds: seq<World>, events: seq<Event>, n: nat)
    requires Runs(worlds, events) && 0 < n <= |events|
    ensures AllLawful(worlds, events, n) <==> AllLawful(worlds, events, n - 1) && LawfulAt(worlds, events, n - 1)
  {
  }

  lemma {:induction false} ExtendUndisturbed(worlds: seq<World>, events: seq<Event>, n: nat)
    requires Runs(worlds, events) && 0 < n <= |events|
    ensures AllUndisturbed(worlds, events, n)
            <==> AllUndisturbed(worlds, events, n - 1) && UndisturbedAt(worlds, events, n - 1)
  {
  }

  /** So without disturbance a profile counts the completed interviews of its user, and so on, at all times. */
  lemma {:induction false} UndisturbedKeepsInv(worlds: seq<World>, events: seq<Event>, i: nat)
    requires Runs(worlds, events) && Inv(worlds[0].db) && i < |worlds| && AllUndisturbed(worlds, events, i)
    ensures Inv(worlds[i].db)
  {
    SchedulesExactly(worlds, events, i);
    WorldsOk(worlds, events, i);
  }

  ghost predicate Clears(worlds: seq<World>, events: seq<Event>, i: nat, user: UserId)
    requires Runs(worlds, events) && i < |events|
  {
    events[i].Commits? && ClearsFor(worlds[i].flights[events[i].k].request, user)
  }

  /** From i on up to j no commit clears the history of the user. */
  ghost predicate NoClearing(worlds: seq<World>, events: seq<Event>, i: nat, j: nat, user: UserId)
    requires Runs(worlds, events) && j <= |events|
  {
    forall k: nat {:trigger Clears(worlds, events, k, user)} :: i <= k < j ==> !Clears(worlds, events, k, user)
  }

  lemma {:induction false} OneClearingLess(worlds: seq<World>, events: seq<Event>, i: nat, j: nat, user: UserId)
    requires Runs(worlds, events) && i < j <= |events| && NoClearing(worlds, events, i, j, user)
    requires AllLawful(worlds, events, j)
    ensures NoClearing(worlds, events, i, j - 1, user) && !Clears(worlds, events, j - 1, user)
    ensures AllLawful(worlds, events, j - 1) && LawfulAt(worlds, events, j - 1)
  {
    ExtendLawful(worlds, events, j);
  }

  lemma {:induction false} LawfulKeepsEnded(worlds: seq<World>, events: seq<Event>, i: nat, j: nat, id: Id,
                                            user: UserId)
    requires Runs(worlds, events) && i <= j <= |events| && AllLawful(worlds, events, j)
    requires Ended(worlds[i].db, id) && user == worlds[i].db.sessions[id].user
    requires NoClearing(worlds, events, i, j, user)
    ensures Frozen(worlds[i].db, worlds[j].db, id)
  {
    if i < j {
      OneClearingLess(worlds, events, i, j, user);
      LawfulKeepsEnded(worlds, events, i, j - 1, id, user);
      FrozenOneMore(worlds, events, i, j - 1, id);
    } else {
      FrozenAtFirst(worlds[i].db, id);
    }
  }

  lemma {:induction false} FrozenAtFirst(t: Tables, id: Id)
    requires Ended(t, id)
    ensures Frozen(t, t, id)
  {
  }

  lemma {:induction false} FrozenOneMore(worlds: seq<World>, events: seq<Event>, i: nat, j: nat, id: Id)
    requires Runs(worlds, events) && i <= j < |events| && LawfulAt(worlds, events, j)
    requires Ended(worlds[i].db, id) && Frozen(worlds[i].db, worlds[j].db, id)
    requires !Clears(worlds, events, j, worlds[i].db.sessions[id].user)
    ensures Frozen(worlds[i].db, worlds[j + 1].db, id)
  {
    FrozenEnded(worlds[i].db, worlds[j].db, id);
    StepOfRun(worlds, events, j, id);
    FrozenOn(worlds[i].db, worlds[j].db, worlds[j + 1].db, id);
  }

  lemma {:induction false} FrozenEnded(t: Tables, t': Tables, id: Id)
    requires Ended(t, id) && Frozen(t, t', id)
    ensures Ended(t', id) && t'.sessions[id].user == t.sessions[id].user
  {
  }

  lemma {:induction false} FrozenOn(t: Tables, t': Tables, t'': Tables, id: Id)
    requires Frozen(t, t', id) && Frozen(t', t'', id)
    ensures Frozen(t, t'', id)
  {
  }

  /** And an interview that has ended stays as it is until its user clears the history. */
  lemma {:induction false} UndisturbedKeepsEnded(worlds: seq<World>, events: seq<Event>, i: nat, j: nat, id: Id)
    requires Runs(worlds, events) && Inv(worlds[0].db) && i <= j <= |events| && AllUndisturbed(worlds, events, j)
    requires Ended(worlds[i].db, id) && NoClearing(worlds, events, i, j, worlds[i].db.sessions[id].user)
    ensures Frozen(worlds[i].db, worlds[j].db, id)
  {
    SchedulesExactly(worlds, events, j);
    LawfulKeepsEnded(worlds, events, i, j, id, worlds[i].db.sessions[id].user);
  }

  lemma {:induction false} StepOfRun(worlds: seq<World>, events: seq<Event>, i: nat, id: Id)
    requires Runs(worlds, events) && i < |events| && LawfulAt(worlds, events, i) && Ended(worlds[i].db, id)
    requires !Clears(worlds, events, i, worlds[i].db.sessions[id].user)
    ensures Frozen(worlds[i].db, worlds[i + 1].db, id)
  {
    assert worlds[i + 1] == Apply(worlds[i], events[i]);
  }

  /** A commit is not disturbed if since it read nobody else wrote to its session or to the profile of its user. */
  lemma {:induction false} NobodyElseWrote(t: Tables, f: Flight)
    requires ReplyTo(f.seen, f.request) == Done && WellMade(f.request)
    requires !f.request.Start? && !f.request.ClearHistory? ==>
               f.request.id in t.sessions && t.sessions[f.request.id] == f.seen.sessions[f.request.id]
    requires f.request.Submit? ==> Count(f.profiles, f.request.user) == Count(t.profiles, f.request.user)
    requires f.request.ClearHistory? ==> CompletedOf(t, f.request.user) == CompletedOf(f.seen, f.request.user)
    ensures WritesNothing(t, f) || StillTrue(t, f)
  {
  }

  // ---- Two requests that overlap ---------------------------------------------------------------

  /** A submission reads, another request reads, the submission commits, and then the other one. */
  function Overlap(submit: Request, other: Request): seq<Event> {
    [Reads(0, submit), Reads(1, other), ReadsProfiles(0), Commits(0), ReadsProfiles(1), Commits(1)]
  }

  ghost predicate CanOverlap(w: World, submit: Request, other: Request) {
    && w.flights == map[] && IdsIn(w.db) <= w.used && Inv(w.db)
    && submit.Submit? && WellMade(other) && MadeUp(other) !! w.used
  }

  ghost function Between(t: Tables, submit: Request): Tables
    requires submit.Submit?
  {
    After(t, Flight(submit, t, t.profiles, true))
  }

  ghost function AfterBoth(t: Tables, submit: Request, other: Request): Tables
    requires submit.Submit? && WellMade(other)
  {
    var between := Between(t, submit);
    After(between, Flight(other, t, between.profiles, true))
  }

  lemma {:induction false} OneMoreEvent(worlds: seq<World>, events: seq<Event>, e: Event, w: World)
    requires Runs(worlds, events) && Enabled(worlds[|events|], e) && w == Apply(worlds[|events|], e)
    ensures Runs(worlds + [w], events + [e]) && (worlds + [w])[|events + [e]|] == w
  {
    var worlds', events' := worlds + [w], events + [e];
    forall i | 0 <= i < |events'|
      ensures Enabled(worlds'[i], events'[i]) && worlds'[i + 1] == Apply(worlds'[i], events'[i])
    {
      if i < |events| {
        assert worlds'[i] == worlds[i] && worlds'[i + 1] == worlds[i + 1] && events'[i] == events[i];
      }
    }
  }

  lemma {:induction false} BothRead(w: World, submit: Request, other: Request) returns (w1: World, w2: World)
    requires CanOverlap(w, submit, other)
    ensures Enabled(w, Reads(0, submit)) && w1 == Apply(w, Reads(0, submit))
    ensures Enabled(w1, Reads(1, other)) && w2 == Apply(w1, Reads(1, other))
    ensures w2.db == w.db && w2.flights.Keys == {0, 1}
    ensures w2.flights[0] == Flight(submit, w.db, w.db.profiles, false)
    ensures w2.flights[1] == Flight(other, w.db, w.db.profiles, false)
  {
    assert MadeUp(submit) == {};
    w1 := Apply(w, Reads(0, submit));
    w2 := Apply(w1, Reads(1, other));
  }

  lemma {:induction false} FirstCommits(w: World, submit: Request, other: Request, t: Tables)
    returns (w1: World, w2: World)
    requires submit.Submit? && w.db == t && w.flights.Keys == {0, 1}
    requires w.flights[0] == Flight(submit, t, t.profiles, false) && w.flights[1] == Flight(other, t, t.profiles, false)
    ensures Enabled(w, ReadsProfiles(0)) && w1 == Apply(w, ReadsProfiles(0))
    ensures Enabled(w1, Commits(0)) && w2 == Apply(w1, Commits(0))
    ensures w2.db == Between(t, submit) && w2.flights.Keys == {1}
    ensures w2.flights[1] == Flight(other, t, t.profiles, false)
  {
    w1 := Apply(w, ReadsProfiles(0));
    assert w1.flights[0] == Flight(submit, t, t.profiles, true);
    w2 := Apply(w1, Commits(0));
  }

  lemma {:induction false} SecondCommits(w: World, submit: Request, other: Request, t: Tables)
    returns (w1: World, w2: World)
    requires submit.Submit? && WellMade(other) && w.db == Between(t, submit)
    requires w.flights.Keys == {1} && w.flights[1] == Flight(other, t, t.profiles, false)
    ensures Enabled(w, ReadsProfiles(1)) && w1 == Apply(w, ReadsProfiles(1))
    ensures Enabled(w1, Commits(1)) && w2 == Apply(w1, Commits(1)) && w2.db == AfterBoth(t, submit, other)
  {
    w1 := Apply(w, ReadsProfiles(1));
    assert w1.flights[1] == Flight(other, t, w.db.profiles, true);
    w2 := Apply(w1, Commits(1));
  }

  lemma {:induction false} OverlapStarts(w: World, submit: Request, other: Request) returns (worlds: seq<World>)
    requires CanOverlap(w, submit, other)
    ensures Runs(worlds, [Reads(0, submit), Reads(1, other), ReadsProfiles(0)]) && worlds[0] == w
    ensures Enabled(worlds[3], Commits(0))
    ensures var w4 := Apply(worlds[3], Commits(0));
            && w4.db == Between(w.db, submit) && w4.flights.Keys == {1}
            && w4.flights[1] == Flight(other, w.db, w.db.profiles, false)
  {
    var w1, w2 := BothRead(w, submit, other);
    var w3, _ := FirstCommits(w2, submit, other, w.db);
    worlds := ThreeMore([w], [], w, Reads(0, submit), w1, Reads(1, other), w2, ReadsProfiles(0), w3);
    var events := [Reads(0, submit), Reads(1, other), ReadsProfiles(0)];
    assert [] + events == events;
  }

  lemma {:induction false} OverlapRuns(w: World, submit: Request, other: Request) returns (worlds: seq<World>)
    requires CanOverlap(w, submit, other)
    ensures Runs(worlds, Overlap(submit, other)) && worlds[0] == w
    ensures worlds[4].db == Between(w.db, submit) && worlds[6].db == AfterBoth(w.db, submit, other)
  {
    var begun := OverlapStarts(w, submit, other);
    var events := [Reads(0, submit), Reads(1, other), ReadsProfiles(0)];
    var w4 := Apply(begun[3], Commits(0));
    var w5, w6 := SecondCommits(w4, submit, other, w.db);
    worlds := ThreeMore(begun, events, begun[3], Commits(0), w4, ReadsProfiles(1), w5, Commits(1), w6);
    assert Overlap(submit, other) == events + [Commits(0), ReadsProfiles(1), Commits(1)];
  }

  lemma {:induction false} ThreeMore(before: seq<World>, events: seq<Event>, w: World, e1: Event, w1: World, e2: Event,
                                     w2: World, e3: Event, w3: World)
    returns (worlds: seq<World>)
    requires Runs(before, events) && before[|events|] == w
    requires Enabled(w, e1) && w1 == Apply(w, e1) && Enabled(w1, e2) && w2 == Apply(w1, e2)
    requires Enabled(w2, e3) && w3 == Apply(w2, e3)
    ensures worlds == before + [w1, w2, w3] && Runs(worlds, events + [e1, e2, e3])
  {
    OneMoreEvent(before, events, e1, w1);
    OneMoreEvent(before + [w1], events + [e1], e2, w2);
    OneMoreEvent(before + [w1] + [w2], events + [e1] + [e2], e3, w3);
    worlds := before + [w1, w2, w3];
    assert worlds == before + [w1] + [w2] + [w3] && events + [e1, e2, e3] == events + [e1] + [e2] + [e3];
  }

  /** A submission of an open session that will do. */
  ghost predicate Submits(t: Tables, submit: Request) {
    submit.Submit? && ReplyTo(t, submit) == Done && Open(t, submit.id)
  }

  lemma {:induction false} SubmissionCounts(t: Tables, submit: Request)
    requires Inv(t) && Submits(t, submit)
    ensures var now := Between(t, submit);
            && Inv(now) && Ended(now, submit.id) && now.sessions[submit.id].status == COMPLETED
            && CanScore(now, t, now.profiles, submit.id)
            && (forall a :: a in t.answers ==> a in now.answers && now.answers[a].text == t.answers[a].text)
            && AnswersOf(now, submit.id) == AnswersOf(t, submit.id)
            && Count(now.profiles, submit.user) == Count(t.profiles, submit.user) + 1
  {
    var f := Flight(submit, t, t.profiles, true);
    SubmitOpen(t, f);
  }

  lemma {:induction false} AbandonAfterScore(t: Tables, submit: Request, abandon: Request)
    requires Inv(t) && Submits(t, submit) && abandon == Abandon(submit.user, submit.id, true)
    ensures var now := AfterBoth(t, submit, abandon);
            && submit.id in now.sessions && now.sessions[submit.id].status == ABANDONED
            && Count(now.profiles, submit.user) == |CompletedOf(now, submit.user)| + 1
  {
    SubmissionCounts(t, submit);
    var between := Between(t, submit);
    assert between.sessions[submit.id].user == submit.user;
    assert AfterBoth(t, submit, abandon) == Abandoned(between, submit.id);
    CompletionLost(between, submit.id);
  }

  lemma {:induction false} CompletionLost(t: Tables, id: Id)
    requires CountsTrue(t) && id in t.sessions && t.sessions[id].status == COMPLETED
    ensures var now, user := Abandoned(t, id), t.sessions[id].user;
            Count(now.profiles, user) == |CompletedOf(now, user)| + 1
  {
    var now, user := Abandoned(t, id), t.sessions[id].user;
    assert Count(t.profiles, user) == |CompletedOf(t, user)|;
    assert CompletedOf(t, user) == CompletedOf(now, user) + {id};
  }

  /** An interview that is given up while it is scored loses its completion, but not its place in the count. */
  lemma {:induction false} AbandonOverwrites(w: World, submit: Request, abandon: Request) returns (worlds: seq<World>)
    requires CanOverlap(w, submit, abandon) && Submits(w.db, submit)
    requires abandon == Abandon(submit.user, submit.id, true)
    ensures Runs(worlds, Overlap(submit, abandon)) && worlds[0] == w
    ensures var now := worlds[6].db;
            && submit.id in now.sessions && now.sessions[submit.id].status == ABANDONED
            && Count(now.profiles, submit.user) == |CompletedOf(now, submit.user)| + 1
  {
    worlds := OverlapRuns(w, submit, abandon);
    AbandonAfterScore(w.db, submit, abandon);
  }

  lemma {:induction false} ScoreAgain(t: Tables, seen: Tables, id: Id, scoring: Scoring)
    requires CountsTrue(t) && id in seen.sessions && CanScore(t, seen, t.profiles, id)
    requires seen.sessions[id].status != COMPLETED && t.sessions[id].status == COMPLETED
    requires forall a :: a in AnswersOf(seen, id) ==> seen.answers[a].question in scoring.reviews
    requires t.sessions[id].user == seen.sessions[id].user
    ensures var now, user := AfterSubmit(t, seen, t.profiles, id, scoring), t.sessions[id].user;
            Count(now.profiles, user) == |CompletedOf(now, user)| + 1
  {
    var now, user := AfterSubmit(t, seen, t.profiles, id, scoring), t.sessions[id].user;
    assert CompletedOf(now, user) == CompletedOf(t, user);
    assert Count(t.profiles, user) == |CompletedOf(t, user)|;
  }

  lemma {:induction false} ScoreAfterScore(t: Tables, submit: Request)
    requires Inv(t) && Submits(t, submit)
    ensures var now := AfterBoth(t, submit, submit);
            Count(now.profiles, submit.user) == |CompletedOf(now, submit.user)| + 1
  {
    SubmissionCounts(t, submit);
    ScoreAgain(Between(t, submit), t, submit.id, submit.scoring.value);
  }

  /** An interview that is submitted twice is counted twice. */
  lemma {:induction false} SubmitCountsTwice(w: World, submit: Request) returns (worlds: seq<World>)
    requires CanOverlap(w, submit, submit) && Submits(w.db, submit)
    ensures Runs(worlds, Overlap(submit, submit)) && worlds[0] == w
    ensures var now := worlds[6].db; Count(now.profiles, submit.user) == |CompletedOf(now, submit.user)| + 1
  {
    worlds := OverlapRuns(w, submit, submit);
    ScoreAfterScore(w.db, submit);
  }

  ghost predicate SavesOther(t: Tables, submit: Request, save: Request) {
    && submit.Submit? && save.SaveAnswer? && save.committed && save.user == submit.user && save.id == submit.id
    && save.question in QuestionsOf(t, save.id)
    && exists a :: a in AnswersTo(t, save.id, save.question) && save.text != t.answers[a].text
  }

  lemma {:induction false} SaveAgain(t: Tables, seen: Tables, id: Id, question: Id, newId: Id, text: string,
                                     language: Option<string>, skipped: bool, a: Id)
    requires question in seen.questions && OneAnswerEach(seen) && a in AnswersTo(seen, id, question)
    requires id in t.sessions && a in AnswersOf(t, id) && t.answers[a].text != text
    ensures !Frozen(t, AfterSave(t, seen, id, question, newId, text, language, skipped), id)
  {
    var b := TheAnswer(seen, id, question);
    assert SameQuestion(seen.answers[a], seen.answers[b]);
    assert AfterSave(t, seen, id, question, newId, text, language, skipped).answers[a].text == text;
  }

  lemma {:induction false} SaveAfterScore(t: Tables, submit: Request, save: Request)
    requires Inv(t) && Submits(t, submit) && SavesOther(t, submit, save)
    ensures var between := Between(t, submit);
            && save.id in between.sessions && between.sessions[save.id].status == COMPLETED
            && !Frozen(between, AfterBoth(t, submit, save), save.id)
  {
    SubmissionCounts(t, submit);
    var a :| a in AnswersTo(t, save.id, save.question) && save.text != t.answers[a].text;
    SaveAgain(Between(t, submit), t, save.id, save.question, save.newId, save.text, save.language, save.skipped, a);
  }

  /** An answer that is saved while its interview is scored changes after the interview is completed. */
  lemma {:induction false} AnswerChangesLate(w: World, submit: Request, save: Request) returns (worlds: seq<World>)
    requires CanOverlap(w, submit, save) && Submits(w.db, submit) && SavesOther(w.db, submit, save)
    ensures Runs(worlds, Overlap(submit, save)) && worlds[0] == w
    ensures save.id in worlds[4].db.sessions && worlds[4].db.sessions[save.id].status == COMPLETED
    ensures !Frozen(worlds[4].db, worlds[6].db, save.id)
  {
    worlds := OverlapRuns(w, submit, save);
    SaveAfterScore(w.db, submit, save);
  }

  /** One open session with one question that is answered. */
  function Answered(user: UserId, id: Id, question: Id, answer: Id): Tables {
    Tables(map[id := Session(user, IN_PROGRESS, "")], map[question := Question(id, 1, false)],
           map[answer := Answer(id, question, "first", None, false, None)], map[])
  }

  /** Such schedules are there from the first interview of a user on. */
  lemma {:induction false} RequestsCanOverlap(user: UserId, id: Id, question: Id, answer: Id, newId: Id)
    requires newId !in {id, question, answer}
    ensures var t := Answered(user, id, question, answer);
            var w := World(t, map[], IdsIn(t));
            var submit := Submit(user, id, Some(Scoring(map[question := "good"], "well done")), true);
            var save := SaveAnswer(user, id, question, newId, "second", None, false, true);
            && Submits(t, submit) && CanOverlap(w, submit, submit) && CanOverlap(w, submit, Abandon(user, id, true))
            && CanOverlap(w, submit, save) && SavesOther(t, submit, save)
  {
    var t := Answered(user, id, question, answer);
    AnsweredInv(user, id, question, answer);
    assert AnswersOf(t, id) == {answer} && QuestionsOf(t, id) == {question};
    assert answer in AnswersTo(t, id, question);
  }

  lemma {:induction false} AnsweredInv(user: UserId, id: Id, question: Id, answer: Id)
    ensures Inv(Answered(user, id, question, answer))
  {
    var t := Answered(user, id, question, answer);
    forall u ensures CompletedOf(t, u) == {} {
    }
  }

  ghost predicate NoneInScoring(t: Tables) {
    forall id :: id in t.sessions ==> t.sessions[id].status != SCORING
  }

  lemma {:induction false} CommitLeavesNoScoring(t: Tables, f: Flight)
    requires f.request.Start? ==> |f.request.questionIds| == |f.request.algorithms|
    requires NoneInScoring(t)
    ensures NoneInScoring(After(t, f))
  {
  }

  /** In no schedule a request reads a session in scoring, so that none ever meets the refusal that is meant for it. */
  lemma {:induction false} ScoringNeverSeen(worlds: seq<World>, events: seq<Event>, i: nat)
    requires Runs(worlds, events) && i < |worlds| && NoneInScoring(worlds[0].db)
    ensures NoneInScoring(worlds[i].db)
    ensures forall k :: k in worlds[i].flights ==> NoneInScoring(worlds[i].flights[k].seen)
  {
    if i > 0 {
      ScoringNeverSeen(worlds, events, i - 1);
      assert worlds[i] == Apply(worlds[i - 1], events[i - 1]);
      if events[i - 1].Commits? {
        CommitLeavesNoScoring(worlds[i - 1].db, worlds[i - 1].flights[events[i - 1].k]);
      }
    }
  }
}
