/** Interview requests that overlap: each reads, and later commits on top of what others committed in between. */
module InterviewRaces {
  import opened Finite
  import opened Options
  import opened Interview
  import opened InterviewRuns

  /** A request under way: the tables it read at first, and, for a submission, the profiles it read after scoring. */
  datatype Flight = Flight(request: Request, seen: Tables, profiles: map<UserId, nat>, scored: bool)

  predicate Open(t: Tables, id: Id) {
    id in t.sessions && t.sessions[id].status == IN_PROGRESS
  }

  // ---- What a commit writes --------------------------------------------------------------------

  ghost function TheAnswer(t: Tables, id: Id, question: Id): (a: Id)
    requires AnswersTo(t, id, question) != {}
    ensures a in AnswersTo(t, id, question)
  {
    var a :| a in AnswersTo(t, id, question);
    a
  }

  /** A new answer meets the unique constraint; an old one is updated by its key, and gone if others deleted it. */
  ghost function AfterSave(t: Tables, seen: Tables, id: Id, question: Id, newId: Id, text: string,
                           language: Option<string>, skipped: bool): Tables
    requires question in seen.questions
  {
    var language' := if seen.questions[question].algorithm then language else None;
    var given := AnswersTo(seen, id, question);
    if given == {} then
      if AnswersTo(t, id, question) != {} then t
      else t.(answers := t.answers[newId := Answer(id, question, text, language', skipped, None)])
    else
      var a := TheAnswer(seen, id, question);
      if a !in t.answers then t
      else t.(answers := t.answers[a := t.answers[a].(text := text, language := language', skipped := skipped)])
  }

  /** The row is updated by its key, whatever its status has become. */
  function AfterAbandon(t: Tables, seen: Tables, id: Id): Tables
    requires id in seen.sessions
  {
    if seen.sessions[id].status == ABANDONED || id !in t.sessions then t else Abandoned(t, id)
  }

  /** A row that is gone, or a profile that came or went, is an error. */
  predicate CanScore(t: Tables, seen: Tables, profiles: map<UserId, nat>, id: Id)
    requires id in seen.sessions
  {
    && id in t.sessions && AnswersOf(seen, id) <= t.answers.Keys
    && (seen.sessions[id].user in profiles <==> seen.sessions[id].user in t.profiles)
  }

  function AfterSubmit(t: Tables, seen: Tables, profiles: map<UserId, nat>, id: Id, scoring: Scoring): Tables
    requires id in seen.sessions
    requires forall a :: a in AnswersOf(seen, id) ==> seen.answers[a].question in scoring.reviews
  {
    if seen.sessions[id].status == COMPLETED || !CanScore(t, seen, profiles, id) then t
    else
      var user := seen.sessions[id].user;
      t.(sessions := t.sessions[id := t.sessions[id].(status := COMPLETED, summary := scoring.summary)],
         answers := map a | a in t.answers ::
           if a in AnswersOf(seen, id) then t.answers[a].(review := Some(scoring.reviews[seen.answers[a].question]))
           else t.answers[a],
         profiles := t.profiles[user := Count(profiles, user) + 1])
  }

  /** The sessions that had ended at the time of reading go, and the profile. */
  function AfterClear(t: Tables, seen: Tables, user: UserId): Tables {
    var ended := EndedOf(seen, user);
    Tables(map id | id in t.sessions && id !in ended :: t.sessions[id],
           map q | q in t.questions && t.questions[q].interview !in ended :: t.questions[q],
           map a | a in t.answers && t.answers[a].interview !in ended :: t.answers[a],
           t.profiles - {user})
  }

  /** The tables after the commit of a request; a request that fails leaves them alone. */
  ghost function After(t: Tables, f: Flight): Tables
    requires f.request.Start? ==> |f.request.questionIds| == |f.request.algorithms|
  {
    if ReplyTo(f.seen, f.request) != Done then t
    else
      match f.request
      case Start(user, id, ids, algorithms, _) => Started(t, user, id, ids, algorithms)
      case SaveAnswer(_, id, question, newId, text, language, skipped, _) =>
        AfterSave(t, f.seen, id, question, newId, text, language, skipped)
      case Submit(_, id, scoring, _) =>
        if f.seen.sessions[id].status == COMPLETED then t else AfterSubmit(t, f.seen, f.profiles, id, scoring.value)
      case Abandon(_, id, _) => AfterAbandon(t, f.seen, id)
      case ClearHistory(user, _) => AfterClear(t, f.seen, user)
  }

  // ---- When a commit writes nothing new --------------------------------------------------------

  /** Another answer came first, the old one is gone, or it is the same. */
  ghost predicate SavesNothing(t: Tables, seen: Tables, id: Id, question: Id, text: string, language: Option<string>,
                               skipped: bool)
    requires question in seen.questions
  {
    if AnswersTo(seen, id, question) == {} then AnswersTo(t, id, question) != {}
    else
      var a := TheAnswer(seen, id, question);
      a in t.answers ==>
        && t.answers[a].text == text && t.answers[a].skipped == skipped
        && t.answers[a].language == if seen.questions[question].algorithm then language else None
  }

  /** A row is gone, a profile came or went, or the very same scores were written by another submission. */
  predicate ScoresNothing(t: Tables, seen: Tables, profiles: map<UserId, nat>, id: Id, scoring: Scoring)
    requires id in seen.sessions
    requires forall a :: a in AnswersOf(seen, id) ==> seen.answers[a].question in scoring.reviews
  {
    CanScore(t, seen, profiles, id) ==>
      var user := seen.sessions[id].user;
      && t.sessions[id].status == COMPLETED && t.sessions[id].summary == scoring.summary
      && (forall a :: a in AnswersOf(seen, id) ==>
            t.answers[a].review == Some(scoring.reviews[seen.answers[a].question]))
      && user in t.profiles && t.profiles[user] == Count(profiles, user) + 1
  }

  ghost predicate WritesNothing(t: Tables, f: Flight) {
    ReplyTo(f.seen, f.request) == Done ==>
      match f.request
      case Start(_, _, _, _, _) => false
      case SaveAnswer(_, id, question, _, text, language, skipped, _) =>
        SavesNothing(t, f.seen, id, question, text, language, skipped)
      case Submit(_, id, scoring, _) =>
        f.seen.sessions[id].status == COMPLETED || ScoresNothing(t, f.seen, f.profiles, id, scoring.value)
      case Abandon(_, id, _) =>
        f.seen.sessions[id].status == ABANDONED || id !in t.sessions || t.sessions[id].status == ABANDONED
      case ClearHistory(user, _) => EndedOf(f.seen, user) !! t.sessions.Keys && user !in t.profiles
  }

  lemma {:induction false} SaveWrites(t: Tables, seen: Tables, id: Id, question: Id, newId: Id, text: string,
                                      language: Option<string>, skipped: bool)
    requires question in seen.questions && newId !in t.answers
    ensures AfterSave(t, seen, id, question, newId, text, language, skipped) == t
            <==> SavesNothing(t, seen, id, question, text, language, skipped)
  {
    var now := AfterSave(t, seen, id, question, newId, text, language, skipped);
    if AnswersTo(seen, id, question) == {} {
      assert AnswersTo(t, id, question) == {} ==> newId in now.answers;
    } else {
      var a := TheAnswer(seen, id, question);
      if a in t.answers {
        var language' := if seen.questions[question].algorithm then language else None;
        var row := t.answers[a].(text := text, language := language', skipped := skipped);
        assert now.answers[a] == row;
        assert row == t.answers[a] ==> t.answers[a := row] == t.answers;
      }
    }
  }

  lemma {:induction false} AbandonWrites(t: Tables, seen: Tables, id: Id)
    requires id in seen.sessions
    ensures AfterAbandon(t, seen, id) == t
            <==> seen.sessions[id].status == ABANDONED || id !in t.sessions || t.sessions[id].status == ABANDONED
  {
    if id in t.sessions && t.sessions[id].status == ABANDONED {
      var row := t.sessions[id].(status := ABANDONED);
      assert row == t.sessions[id];
      assert t.sessions[id := row] == t.sessions;
    }
  }

  lemma {:induction false} SubmitWrites(t: Tables, seen: Tables, profiles: map<UserId, nat>, id: Id, scoring: Scoring)
    requires id in seen.sessions
    requires forall a :: a in AnswersOf(seen, id) ==> seen.answers[a].question in scoring.reviews
    ensures AfterSubmit(t, seen, profiles, id, scoring) == t
            <==> seen.sessions[id].status == COMPLETED || ScoresNothing(t, seen, profiles, id, scoring)
  {
    if seen.sessions[id].status != COMPLETED && CanScore(t, seen, profiles, id) {
      var now := AfterSubmit(t, seen, profiles, id, scoring);
      if ScoresNothing(t, seen, profiles, id, scoring) {
        assert now.sessions == t.sessions && now.answers == t.answers && now.profiles == t.profiles;
      }
    }
  }

  lemma {:induction false} ClearWrites(t: Tables, seen: Tables, user: UserId)
    requires WellFormed(t)
    ensures AfterClear(t, seen, user) == t <==> EndedOf(seen, user) !! t.sessions.Keys && user !in t.profiles
  {
    var now, ended := AfterClear(t, seen, user), EndedOf(seen, user);
    if ended !! t.sessions.Keys && user !in t.profiles {
      forall a | a in t.answers ensures t.answers[a].interview !in ended {
        assert BelongsTo(t, t.answers[a]);
      }
      assert now.sessions == t.sessions && now.questions == t.questions && now.answers == t.answers;
      assert now.profiles == t.profiles;
    }
  }

  /** What a commit finds decides whether it writes anything new. */
  lemma {:induction false} WritesNothingExactly(t: Tables, f: Flight)
    requires Inv(t) && Known(t, f)
    ensures After(t, f) == t <==> WritesNothing(t, f)
  {
    if ReplyTo(f.seen, f.request) == Done {
      match f.request
      case Start(user, id, ids, algorithms, _) => assert id in After(t, f).sessions && id !in t.sessions;
      case SaveAnswer(_, id, question, newId, text, language, skipped, _) =>
        SaveWrites(t, f.seen, id, question, newId, text, language, skipped);
      case Submit(_, id, scoring, _) =>
        if f.seen.sessions[id].status != COMPLETED {
          SubmitWrites(t, f.seen, f.profiles, id, scoring.value);
        }
      case Abandon(_, id, _) => AbandonWrites(t, f.seen, id);
      case ClearHistory(user, _) => ClearWrites(t, f.seen, user);
    }
  }

  // ---- When a commit keeps what it must --------------------------------------------------------

  /** The invariant holds afterwards, and no interview that had ended changes, unless its user clears the history. */
  ghost predicate Lawful(t: Tables, t': Tables, request: Request) {
    && Inv(t')
    && forall id :: Ended(t, id) && !ClearsFor(request, t.sessions[id].user) ==> Frozen(t, t', id)
  }

  /** The session is still open, and the count that was read still stands; nothing was completed that a clearing
      missed. */
  ghost predicate StillTrue(t: Tables, f: Flight) {
    match f.request
    case Start(_, _, _, _, _) => true
    case SaveAnswer(_, id, _, _, _, _, _, _) => Open(t, id)
    case Submit(user, id, _, _) => Open(t, id) && Count(f.profiles, user) == Count(t.profiles, user)
    case Abandon(_, id, _) => Open(t, id)
    case ClearHistory(user, _) => CompletedOf(t, user) <= EndedOf(f.seen, user)
  }

  /** Rows keep what identifies them, and a session its questions. */
  ghost predicate Evolves(seen: Tables, t: Tables) {
    && (forall a :: a in seen.answers && a in t.answers ==> SameQuestion(seen.answers[a], t.answers[a]))
    && (forall s :: s in seen.sessions && s in t.sessions ==>
         seen.sessions[s].user == t.sessions[s].user && QuestionsOf(seen, s) == QuestionsOf(t, s))
    && (forall q :: q in seen.questions && q in t.questions ==> seen.questions[q] == t.questions[q])
  }

  /** What is known of a request at its commit: it read tables in order, and its new ids are still new. */
  ghost predicate Known(t: Tables, f: Flight) {
    Inv(f.seen) && Evolves(f.seen, t) && May(t, f.request)
  }

  lemma {:induction false} NothingWritten(t: Tables, request: Request)
    requires Inv(t)
    ensures Lawful(t, t, request)
  {
  }

  // Answers.

  lemma {:induction false} SavedRow(t: Tables, f: Flight) returns (a: Id, row: Answer)
    requires Inv(t) && Known(t, f) && f.request.SaveAnswer? && ReplyTo(f.seen, f.request) == Done && After(t, f) != t
    ensures After(t, f) == t.(answers := t.answers[a := row])
    ensures row.interview == f.request.id && row.question == f.request.question
    ensures var (id, question) := (f.request.id, f.request.question);
            if AnswersTo(t, id, question) == {} then a !in t.answers else a in AnswersTo(t, id, question)
  {
    var id, question := f.request.id, f.request.question;
    if AnswersTo(f.seen, id, question) == {} {
      a := f.request.newId;
    } else {
      a := TheAnswer(f.seen, id, question);
      assert SameQuestion(f.seen.answers[a], t.answers[a]);
      assert a in AnswersTo(t, id, question);
    }
    row := After(t, f).answers[a];
  }

  lemma {:induction false} SaveOpen(t: Tables, f: Flight)
    requires Inv(t) && Known(t, f) && f.request.SaveAnswer? && ReplyTo(f.seen, f.request) == Done
    requires Open(t, f.request.id)
    ensures Lawful(t, After(t, f), f.request)
  {
    var id, question := f.request.id, f.request.question;
    if After(t, f) == t {
      NothingWritten(t, f.request);
    } else {
      var a, row := SavedRow(t, f);
      assert question in QuestionsOf(t, id);
      SaveKeeps(t, t.sessions[id].user, id, question, a, row);
      forall s | Ended(t, s) ensures Frozen(t, After(t, f), s) {
        SaveFreezes(t, s, id, question, a, row);
      }
    }
  }

  lemma {:induction false} SaveClosed(t: Tables, f: Flight)
    requires Inv(t) && Known(t, f) && f.request.SaveAnswer? && ReplyTo(f.seen, f.request) == Done
    requires !Open(t, f.request.id) && After(t, f) != t
    ensures !Lawful(t, After(t, f), f.request)
  {
    var id := f.request.id;
    var a, row := SavedRow(t, f);
    var t' := After(t, f);
    assert t'.answers[a] == row && a in AnswersOf(t', id);
    if id in t.sessions {
      assert Ended(t, id);
      SavedChanges(t, t', id, a, row);
    } else {
      assert !BelongsTo(t', t'.answers[a]);
    }
  }

  lemma {:induction false} SavedChanges(t: Tables, t': Tables, id: Id, a: Id, row: Answer)
    requires t' == t.(answers := t.answers[a := row]) && t' != t && row.interview == id && id in t.sessions
    ensures !Frozen(t, t', id)
  {
    assert a in AnswersOf(t', id);
    assert a in t.answers && row == t.answers[a] ==> t.answers[a := row] == t.answers;
  }

  // Giving up.

  lemma {:induction false} AbandonOpen(t: Tables, f: Flight)
    requires Inv(t) && f.request.Abandon? && ReplyTo(f.seen, f.request) == Done && Open(t, f.request.id)
    ensures Lawful(t, After(t, f), f.request)
  {
    var id := f.request.id;
    if After(t, f) == t {
      NothingWritten(t, f.request);
    } else {
      var user := t.sessions[id].user;
      AbandonKeeps(t, user, id);
      forall s | Ended(t, s) ensures Frozen(t, After(t, f), s) {
        AbandonFreezes(t, user, id, s);
      }
    }
  }

  lemma {:induction false} AbandonChanges(t: Tables, id: Id)
    requires id in t.sessions && Abandoned(t, id) != t
    ensures t.sessions[id].status != ABANDONED
  {
    var session := t.sessions[id];
    assert t.sessions[id := session] == t.sessions;
  }

  lemma {:induction false} AbandonClosed(t: Tables, f: Flight)
    requires Inv(t) && f.request.Abandon? && ReplyTo(f.seen, f.request) == Done
    requires !Open(t, f.request.id) && After(t, f) != t
    ensures !Lawful(t, After(t, f), f.request)
  {
    var id := f.request.id;
    assert Ended(t, id);
    AbandonChanges(t, id);
    assert !Frozen(t, After(t, f), id);
  }

  // Scoring.

  /** Once there is an answer to every question, there is no room for another. */
  lemma {:induction false} AnswersStand(t: Tables, seen: Tables, id: Id)
    requires Inv(t) && Evolves(seen, t) && id in seen.sessions && id in t.sessions
    requires |AnswersOf(seen, id)| == |QuestionsOf(seen, id)| && AnswersOf(seen, id) <= t.answers.Keys
    ensures AnswersOf(t, id) == AnswersOf(seen, id) && QuestionsOf(t, id) == QuestionsOf(seen, id)
  {
    var before, now := AnswersOf(seen, id), AnswersOf(t, id);
    forall a | a in before ensures a in now {
      assert SameQuestion(seen.answers[a], t.answers[a]);
    }
    InjectiveSize(t, id, now);
    var answered := set a | a in now :: t.answers[a].question;
    forall q | q in answered ensures q in QuestionsOf(t, id) {
      var a :| a in now && t.answers[a].question == q;
      assert BelongsTo(t, t.answers[a]);
    }
    SubsetSize(answered, QuestionsOf(t, id));
    SubsetSize(before, now);
  }

  predicate Scores(f: Flight) {
    && f.request.Submit? && ReplyTo(f.seen, f.request) == Done && f.seen.sessions[f.request.id].status != COMPLETED
  }

  lemma {:induction false} SubmitOpen(t: Tables, f: Flight)
    requires Inv(t) && Known(t, f) && Scores(f) && StillTrue(t, f)
    ensures Lawful(t, After(t, f), f.request)
  {
    var id, user, scoring := f.request.id, f.request.user, f.request.scoring;
    if After(t, f) == t {
      NothingWritten(t, f.request);
    } else {
      AnswersStand(t, f.seen, id);
      ScoredAlike(t, f);
      assert SubmitReply(t, user, id, scoring) == Done;
      SubmitKeeps(t, user, id, scoring);
      forall s | Ended(t, s) ensures Frozen(t, After(t, f), s) {
        SubmitFreezes(t, user, id, scoring, s);
      }
    }
  }

  lemma {:induction false} SameScores(t: Tables, seen: Tables, profiles: map<UserId, nat>, id: Id, scoring: Scoring)
    requires id in seen.sessions && seen.sessions[id].status != COMPLETED && CanScore(t, seen, profiles, id)
    requires AnswersOf(t, id) == AnswersOf(seen, id) && t.sessions[id].user == seen.sessions[id].user
    requires Count(profiles, t.sessions[id].user) == Count(t.profiles, t.sessions[id].user)
    requires forall a :: a in AnswersOf(t, id) ==>
               t.answers[a].question == seen.answers[a].question && seen.answers[a].question in scoring.reviews
    ensures AfterSubmit(t, seen, profiles, id, scoring) == Scored(t, id, scoring)
  {
    var user := t.sessions[id].user;
    assert t.sessions[id].(status := COMPLETED, summary := scoring.summary)
           == Session(user, COMPLETED, scoring.summary);
  }

  /** With an open session and a true count, the commit is the scoring of the tables as they are. */
  lemma {:induction false} ScoredAlike(t: Tables, f: Flight)
    requires Inv(t) && Known(t, f) && Scores(f) && StillTrue(t, f) && After(t, f) != t
    requires AnswersOf(t, f.request.id) == AnswersOf(f.seen, f.request.id)
    ensures t.sessions[f.request.id].user == f.request.user
    ensures forall a :: a in AnswersOf(t, f.request.id) ==> t.answers[a].question in f.request.scoring.value.reviews
    ensures After(t, f) == Scored(t, f.request.id, f.request.scoring.value)
  {
    forall a | a in AnswersOf(t, f.request.id) ensures t.answers[a].question == f.seen.answers[a].question {
      assert SameQuestion(f.seen.answers[a], t.answers[a]);
    }
    SameScores(t, f.seen, f.profiles, f.request.id, f.request.scoring.value);
  }

  /** A stale count stays stale. */
  lemma {:induction false} ScoredCount(t: Tables, seen: Tables, profiles: map<UserId, nat>, id: Id, scoring: Scoring)
    requires CountsTrue(t) && Open(t, id) && id in seen.sessions && seen.sessions[id].status != COMPLETED
    requires CanScore(t, seen, profiles, id) && t.sessions[id].user == seen.sessions[id].user
    requires forall a :: a in AnswersOf(seen, id) ==> seen.answers[a].question in scoring.reviews
    requires Count(profiles, t.sessions[id].user) != Count(t.profiles, t.sessions[id].user)
    ensures !CountsTrue(AfterSubmit(t, seen, profiles, id, scoring))
  {
    var now, user := AfterSubmit(t, seen, profiles, id, scoring), t.sessions[id].user;
    assert Count(t.profiles, user) == |CompletedOf(t, user)|;
    assert CompletedOf(now, user) == CompletedOf(t, user) + {id};
    assert Count(now.profiles, user) != |CompletedOf(now, user)|;
  }

  lemma {:induction false} SubmitStale(t: Tables, f: Flight)
    requires Inv(t) && Known(t, f) && Scores(f) && !StillTrue(t, f) && After(t, f) != t
    ensures !Lawful(t, After(t, f), f.request)
  {
    var id, user, t' := f.request.id, f.request.user, After(t, f);
    assert t.sessions[id].user == user;
    if Open(t, id) {
      ScoredCount(t, f.seen, f.profiles, id, f.request.scoring.value);
    } else if Frozen(t, t', id) {
      SameButProfile(t, t', id, user);
    } else {
      assert Ended(t, id);
    }
  }

  lemma {:induction false} SameButProfile(t: Tables, t': Tables, id: Id, user: UserId)
    requires Inv(t) && id in t.sessions && t' != t && Frozen(t, t', id)
    requires t'.questions == t.questions && t'.answers.Keys == t.answers.Keys && t'.sessions.Keys == t.sessions.Keys
    requires forall s :: s in t.sessions && s != id ==> t'.sessions[s] == t.sessions[s]
    requires forall a :: a in t.answers && t.answers[a].interview != id ==> t'.answers[a] == t.answers[a]
    requires user in t'.profiles && t'.profiles == t.profiles[user := t'.profiles[user]]
    requires user in t.profiles || t'.profiles[user] > 0
    ensures !CountsTrue(t')
  {
    assert t'.sessions == t.sessions;
    forall a | a in t.answers ensures t'.answers[a] == t.answers[a] {
      assert t.answers[a].interview == id ==> a in AnswersOf(t, id);
    }
    assert t'.answers == t.answers;
    assert CompletedOf(t', user) == CompletedOf(t, user);
    assert Count(t'.profiles, user) == Count(t.profiles, user) ==> t'.profiles == t.profiles;
  }

  // Clearing.

  lemma {:induction false} ClearedRows(t: Tables, seen: Tables, user: UserId, s: Id)
    requires s in t.sessions && s !in EndedOf(seen, user)
    ensures Frozen(t, AfterClear(t, seen, user), s)
  {
  }

  lemma {:induction false} ClearBelongs(t: Tables, seen: Tables, user: UserId)
    requires WellFormed(t)
    ensures WellFormed(AfterClear(t, seen, user))
  {
    var t' := AfterClear(t, seen, user);
    forall a | a in t'.answers ensures BelongsTo(t', t'.answers[a]) {
      assert BelongsTo(t, t.answers[a]);
    }
  }

  lemma {:induction false} ClearTrue(t: Tables, f: Flight)
    requires Inv(t) && Known(t, f) && f.request.ClearHistory? && ReplyTo(f.seen, f.request) == Done && StillTrue(t, f)
    ensures Lawful(t, After(t, f), f.request)
  {
    var user, t' := f.request.user, After(t, f);
    ClearBelongs(t, f.seen, user);
    forall s | s in t'.sessions ensures Frozen(t, t', s) {
      ClearedRows(t, f.seen, user, s);
    }
    forall s | s in t'.sessions && t'.sessions[s].status == COMPLETED ensures Untouched(t, t', s) {
      assert Frozen(t, t', s);
    }
    ReviewedKept(t, t');
    forall u ensures Count(t'.profiles, u) == |CompletedOf(t', u)| {
      ClearCount(t, f, u);
    }
  }

  lemma {:induction false} ClearCount(t: Tables, f: Flight, u: UserId)
    requires Inv(t) && Known(t, f) && f.request.ClearHistory? && StillTrue(t, f)
    ensures var t' := AfterClear(t, f.seen, f.request.user); Count(t'.profiles, u) == |CompletedOf(t', u)|
  {
    var t' := AfterClear(t, f.seen, f.request.user);
    assert Count(t.profiles, u) == |CompletedOf(t, u)|;
    if u == f.request.user {
      assert CompletedOf(t', u) == {};
    } else {
      assert CompletedOf(t', u) == CompletedOf(t, u);
    }
  }

  lemma {:induction false} ClearStale(t: Tables, f: Flight)
    requires f.request.ClearHistory? && ReplyTo(f.seen, f.request) == Done && !StillTrue(t, f)
    ensures !Lawful(t, After(t, f), f.request)
  {
    var user, t' := f.request.user, After(t, f);
    var s :| s in CompletedOf(t, user) && s !in EndedOf(f.seen, user);
    assert s in CompletedOf(t', user);
    assert Count(t'.profiles, user) == 0 != |CompletedOf(t', user)|;
  }

  // All requests.

  /** A commit keeps the invariant and every ended interview if and only if it writes nothing new, or what it read is
      still true: the session is open, and the count stands. */
  lemma {:induction false} LawfulExactly(t: Tables, f: Flight)
    requires Inv(t) && Known(t, f)
    ensures Lawful(t, After(t, f), f.request) <==> WritesNothing(t, f) || StillTrue(t, f)
  {
    WritesNothingExactly(t, f);
    if After(t, f) == t {
      NothingWritten(t, f.request);
    } else {
      match f.request
      case Start(user, id, ids, algorithms, _) =>
        StartKeeps(t, user, id, ids, algorithms);
        forall s | Ended(t, s) ensures Frozen(t, After(t, f), s) {
          StartFreezes(t, user, id, ids, algorithms, s);
        }
      case SaveAnswer(_, id, _, _, _, _, _, _) => if Open(t, id) { SaveOpen(t, f); } else { SaveClosed(t, f); }
      case Submit(_, _, _, _) => if StillTrue(t, f) { SubmitOpen(t, f); } else { SubmitStale(t, f); }
      case Abandon(_, id, _) => if Open(t, id) { AbandonOpen(t, f); } else { AbandonClosed(t, f); }
      case ClearHistory(_, _) => if StillTrue(t, f) { ClearTrue(t, f); } else { ClearStale(t, f); }
    }
  }
}
