/** What holds of interviews over all runs of their handlers. */
module InterviewRuns {
  import opened Finite
  import opened Options
  import opened Interview

  function CompletedOf(t: Tables, user: UserId): set<Id> {
    set id | id in t.sessions && t.sessions[id].user == user && t.sessions[id].status == COMPLETED
  }

  /** Every row belongs to a session, and an answer to a question of its own session; no question is answered twice. */
  ghost predicate WellFormed(t: Tables) {
    && OneAnswerEach(t)
    && (forall q :: q in t.questions ==> t.questions[q].interview in t.sessions)
    && (forall a :: a in t.answers ==> BelongsTo(t, t.answers[a]))
  }

  predicate BelongsTo(t: Tables, a: Answer) {
    a.question in t.questions && t.questions[a.question].interview == a.interview
  }

  /** Each question of the session has an answer, and each answer a review. */
  ghost predicate FullyReviewed(t: Tables, id: Id) {
    && (forall q :: q in QuestionsOf(t, id) ==> AnswersTo(t, id, q) != {})
    && (forall a :: a in AnswersOf(t, id) ==> t.answers[a].review.Some?)
  }

  ghost predicate AllReviewed(t: Tables) {
    forall id {:trigger FullyReviewed(t, id)} :: id in t.sessions && t.sessions[id].status == COMPLETED ==>
      FullyReviewed(t, id)
  }

  ghost predicate CountsTrue(t: Tables) {
    forall user :: Count(t.profiles, user) == |CompletedOf(t, user)|
  }

  ghost predicate Inv(t: Tables) {
    && WellFormed(t) && AllReviewed(t) && CountsTrue(t)
    && forall id :: id in t.sessions ==> t.sessions[id].status != SCORING
  }

  /** Ids that are made up are new. */
  ghost predicate May(t: Tables, request: Request) {
    match request
    case Start(_, id, ids, algorithms, _) =>
      id !in t.sessions && |ids| == |algorithms| && Distinct(ids) && forall q :: q in ids ==> q !in t.questions
    case SaveAnswer(_, _, _, newId, _, _, _, _) => newId !in t.answers
    case _ => true
  }

  ghost predicate Step(t: Tables, t': Tables, request: Request) {
    May(t, request) && if ReplyTo(t, request) == Done then Handled(t, t', request) else t' == t
  }

  /** A session with as many answers as questions has one answer for every question. */
  lemma {:induction false} CountsForceAll(t: Tables, id: Id)
    requires WellFormed(t) && |AnswersOf(t, id)| == |QuestionsOf(t, id)|
    ensures forall q :: q in QuestionsOf(t, id) ==> AnswersTo(t, id, q) != {}
  {
    var answers := AnswersOf(t, id);
    var answered := set a | a in answers :: t.answers[a].question;
    assert answered <= QuestionsOf(t, id) by {
      forall a | a in answers ensures t.answers[a].question in QuestionsOf(t, id) {
        assert BelongsTo(t, t.answers[a]);
      }
    }
    InjectiveSize(t, id, answers);
    SubsetSize(answered, QuestionsOf(t, id));
    forall q | q in QuestionsOf(t, id) ensures AnswersTo(t, id, q) != {} {
      assert q in answered;
      var a :| a in answers && t.answers[a].question == q;
      assert a in AnswersTo(t, id, q);
    }
  }

  lemma {:induction false} InjectiveSize(t: Tables, id: Id, some: set<Id>)
    requires OneAnswerEach(t) && some <= AnswersOf(t, id)
    ensures |set a | a in some :: t.answers[a].question| == |some|
  {
    if some != {} {
      var a :| a in some;
      var rest := some - {a};
      InjectiveSize(t, id, rest);
      var few, all := set b | b in rest :: t.answers[b].question, set b | b in some :: t.answers[b].question;
      forall b | b in rest ensures t.answers[b].question != t.answers[a].question {
        assert !SameQuestion(t.answers[a], t.answers[b]);
      }
      assert all == few + {t.answers[a].question};
    }
  }

  lemma {:induction false} NewQuestionRows(interview: Id, ids: seq<Id>, algorithms: seq<bool>)
    requires |ids| == |algorithms|
    ensures NewQuestions(interview, ids, algorithms).Keys == Elements(ids)
    ensures forall q :: q in NewQuestions(interview, ids, algorithms) ==>
              NewQuestions(interview, ids, algorithms)[q].interview == interview
  {
    if ids != [] {
      var n := |ids| - 1;
      NewQuestionRows(interview, ids[..n], algorithms[..n]);
      assert ids == ids[..n] + [ids[n]];
    }
  }

  lemma {:induction false} SameSession(t: Tables, t': Tables, id: Id)
    requires QuestionsOf(t', id) == QuestionsOf(t, id) && AnswersOf(t', id) == AnswersOf(t, id)
    requires forall a :: a in AnswersOf(t, id) ==> t'.answers[a] == t.answers[a]
    requires FullyReviewed(t, id)
    ensures FullyReviewed(t', id)
  {
    forall q | q in QuestionsOf(t', id) ensures AnswersTo(t', id, q) != {} {
      var a :| a in AnswersTo(t, id, q);
      assert a in AnswersTo(t', id, q);
    }
  }

  /** A completed session was completed before, and nothing of it changed. */
  ghost predicate Untouched(t: Tables, t': Tables, s: Id) {
    && s in t.sessions && t.sessions[s].status == COMPLETED
    && QuestionsOf(t', s) == QuestionsOf(t, s) && AnswersOf(t', s) == AnswersOf(t, s)
    && forall a :: a in AnswersOf(t, s) ==> t'.answers[a] == t.answers[a]
  }

  lemma {:induction false} ReviewedKept(t: Tables, t': Tables)
    requires AllReviewed(t)
    requires forall s {:trigger Untouched(t, t', s)} :: s in t'.sessions && t'.sessions[s].status == COMPLETED ==>
               Untouched(t, t', s)
    ensures AllReviewed(t')
  {
    forall s | s in t'.sessions && t'.sessions[s].status == COMPLETED ensures FullyReviewed(t', s) {
      assert Untouched(t, t', s) && FullyReviewed(t, s);
      SameSession(t, t', s);
    }
  }

  lemma {:induction false} SameCompleted(t: Tables, t': Tables)
    requires forall user :: CompletedOf(t', user) == CompletedOf(t, user)
    requires t'.profiles == t.profiles && CountsTrue(t)
    ensures CountsTrue(t')
  {
    forall user ensures Count(t'.profiles, user) == |CompletedOf(t', user)| {
      assert Count(t.profiles, user) == |CompletedOf(t, user)|;
    }
  }

  lemma {:induction false} StartWellFormed(t: Tables, user: UserId, id: Id, ids: seq<Id>, algorithms: seq<bool>)
    requires WellFormed(t) && |ids| == |algorithms| && forall q :: q in ids ==> q !in t.questions
    ensures WellFormed(Started(t, user, id, ids, algorithms))
  {
    var now := Started(t, user, id, ids, algorithms);
    NewQuestionRows(id, ids, algorithms);
    forall a | a in now.answers ensures BelongsTo(now, now.answers[a]) {
      assert BelongsTo(t, t.answers[a]);
    }
  }

  lemma {:induction false} StartKeeps(t: Tables, user: UserId, id: Id, ids: seq<Id>, algorithms: seq<bool>)
    requires Inv(t) && id !in t.sessions && |ids| == |algorithms| && Distinct(ids)
    requires forall q :: q in ids ==> q !in t.questions
    ensures Inv(Started(t, user, id, ids, algorithms))
  {
    var now := Started(t, user, id, ids, algorithms);
    StartWellFormed(t, user, id, ids, algorithms);
    NewQuestionRows(id, ids, algorithms);
    forall s | s in now.sessions && now.sessions[s].status == COMPLETED ensures Untouched(t, now, s) {
    }
    ReviewedKept(t, now);
    forall u ensures CompletedOf(now, u) == CompletedOf(t, u) {
    }
    SameCompleted(t, now);
  }

  lemma {:induction false} SaveWellFormed(t: Tables, id: Id, question: Id, a: Id, row: Answer)
    requires WellFormed(t) && question in QuestionsOf(t, id) && row.interview == id && row.question == question
    requires if AnswersTo(t, id, question) == {} then a !in t.answers else a in AnswersTo(t, id, question)
    ensures WellFormed(t.(answers := t.answers[a := row]))
  {
    var now := t.(answers := t.answers[a := row]);
    forall b, c | b in now.answers && c in now.answers && SameQuestion(now.answers[b], now.answers[c]) ensures b == c {
      assert b == a || b !in AnswersTo(t, id, question) || c != a;
      assert c == a || c !in AnswersTo(t, id, question) || b != a;
    }
    forall b | b in now.answers ensures BelongsTo(now, now.answers[b]) {
      assert b != a ==> BelongsTo(t, t.answers[b]);
    }
  }

  lemma {:induction false} SaveKeeps(t: Tables, user: UserId, id: Id, question: Id, a: Id, row: Answer)
    requires Inv(t) && SaveReply(t, user, id, question) == Done && row.interview == id && row.question == question
    requires if AnswersTo(t, id, question) == {} then a !in t.answers else a in AnswersTo(t, id, question)
    ensures Inv(t.(answers := t.answers[a := row]))
  {
    var now := t.(answers := t.answers[a := row]);
    SaveWellFormed(t, id, question, a, row);
    forall s | s in now.sessions && now.sessions[s].status == COMPLETED ensures Untouched(t, now, s) {
    }
    ReviewedKept(t, now);
    forall u ensures CompletedOf(now, u) == CompletedOf(t, u) {
    }
    SameCompleted(t, now);
  }

  lemma {:induction false} ScoredRows(t: Tables, id: Id, scoring: Scoring, s: Id)
    requires id in t.sessions && forall a :: a in AnswersOf(t, id) ==> t.answers[a].question in scoring.reviews
    ensures var now := Scored(t, id, scoring);
            && now.answers.Keys == t.answers.Keys
            && (forall a :: a in t.answers ==> SameQuestion(now.answers[a], t.answers[a]))
            && QuestionsOf(now, s) == QuestionsOf(t, s) && AnswersOf(now, s) == AnswersOf(t, s)
            && (s != id ==> forall a :: a in AnswersOf(t, s) ==> now.answers[a] == t.answers[a])
  {
  }

  lemma {:induction false} ScoreReviews(t: Tables, id: Id, scoring: Scoring)
    requires WellFormed(t) && id in t.sessions && |AnswersOf(t, id)| == |QuestionsOf(t, id)|
    requires forall a :: a in AnswersOf(t, id) ==> t.answers[a].question in scoring.reviews
    ensures FullyReviewed(Scored(t, id, scoring), id)
  {
    var now := Scored(t, id, scoring);
    ScoredRows(t, id, scoring, id);
    CountsForceAll(t, id);
    forall q | q in QuestionsOf(now, id) ensures AnswersTo(now, id, q) != {} {
      var a :| a in AnswersTo(t, id, q);
      assert a in AnswersTo(now, id, q);
    }
  }

  lemma {:induction false} ScoreCount(t: Tables, id: Id, scoring: Scoring, user: UserId)
    requires id in t.sessions && t.sessions[id].status != COMPLETED
    requires forall a :: a in AnswersOf(t, id) ==> t.answers[a].question in scoring.reviews
    requires Count(t.profiles, user) == |CompletedOf(t, user)|
    ensures var now := Scored(t, id, scoring); Count(now.profiles, user) == |CompletedOf(now, user)|
  {
    var now := Scored(t, id, scoring);
    if user == t.sessions[id].user {
      assert CompletedOf(now, user) == CompletedOf(t, user) + {id};
    } else {
      assert CompletedOf(now, user) == CompletedOf(t, user);
    }
  }

  lemma {:induction false} ScoreWellFormed(t: Tables, id: Id, scoring: Scoring)
    requires WellFormed(t) && id in t.sessions
    requires forall a :: a in AnswersOf(t, id) ==> t.answers[a].question in scoring.reviews
    ensures WellFormed(Scored(t, id, scoring))
  {
    var now := Scored(t, id, scoring);
    ScoredRows(t, id, scoring, id);
    forall a, b | a in now.answers && b in now.answers && SameQuestion(now.answers[a], now.answers[b]) ensures a == b {
      assert SameQuestion(t.answers[a], t.answers[b]);
    }
    forall a | a in now.answers ensures BelongsTo(now, now.answers[a]) {
      assert BelongsTo(t, t.answers[a]);
    }
  }

  lemma {:induction false} SubmitKeeps(t: Tables, user: UserId, id: Id, scoring: Option<Scoring>)
    requires Inv(t) && SubmitReply(t, user, id, scoring) == Done && t.sessions[id].status != COMPLETED
    ensures Inv(Scored(t, id, scoring.value))
  {
    var now := Scored(t, id, scoring.value);
    ScoreWellFormed(t, id, scoring.value);
    ScoreReviews(t, id, scoring.value);
    forall u ensures Count(now.profiles, u) == |CompletedOf(now, u)| {
      ScoreCount(t, id, scoring.value, u);
    }
    forall s | s in now.sessions && now.sessions[s].status == COMPLETED ensures FullyReviewed(now, s) {
      if s != id {
        ScoredRows(t, id, scoring.value, s);
        SameSession(t, now, s);
      }
    }
  }

  lemma {:induction false} AbandonKeeps(t: Tables, user: UserId, id: Id)
    requires Inv(t) && AbandonReply(t, user, id) == Done
    ensures Inv(Abandoned(t, id))
  {
    var now := Abandoned(t, id);
    forall a | a in now.answers ensures BelongsTo(now, now.answers[a]) {
      assert BelongsTo(t, t.answers[a]);
    }
    forall s | s in now.sessions && now.sessions[s].status == COMPLETED ensures Untouched(t, now, s) {
    }
    ReviewedKept(t, now);
    forall u ensures CompletedOf(now, u) == CompletedOf(t, u) {
    }
    SameCompleted(t, now);
  }

  lemma {:induction false} ClearWellFormed(t: Tables, user: UserId)
    requires WellFormed(t)
    ensures WellFormed(Cleared(t, user))
  {
    var now := Cleared(t, user);
    forall a | a in now.answers ensures BelongsTo(now, now.answers[a]) {
      assert BelongsTo(t, t.answers[a]);
    }
  }

  lemma {:induction false} ClearKeeps(t: Tables, user: UserId)
    requires Inv(t)
    ensures Inv(Cleared(t, user))
  {
    var now := Cleared(t, user);
    ClearWellFormed(t, user);
    forall s | s in now.sessions && now.sessions[s].status == COMPLETED ensures Untouched(t, now, s) {
    }
    ReviewedKept(t, now);
    forall u ensures Count(now.profiles, u) == |CompletedOf(now, u)| {
      if u == user {
        assert CompletedOf(now, u) == {};
      } else {
        assert CompletedOf(now, u) == CompletedOf(t, u);
      }
    }
  }

  lemma {:induction false} StepKeeps(t: Tables, t': Tables, request: Request)
    requires Inv(t) && Step(t, t', request)
    ensures Inv(t')
  {
    if ReplyTo(t, request) == Done {
      match request
      case Start(user, id, ids, algorithms, _) => StartKeeps(t, user, id, ids, algorithms);
      case SaveAnswer(user, id, question, newId, text, language, skipped, _) =>
        var a :| (if AnswersTo(t, id, question) == {} then a == newId else a in AnswersTo(t, id, question))
                 && t' == t.(answers := t.answers[a := NewAnswer(t, a, id, question, text, language, skipped)]);
        SaveKeeps(t, user, id, question, a, NewAnswer(t, a, id, question, text, language, skipped));
      case Submit(user, id, scoring, _) =>
        if t.sessions[id].status != COMPLETED {
          SubmitKeeps(t, user, id, scoring);
        }
      case Abandon(user, id, _) => AbandonKeeps(t, user, id);
      case ClearHistory(user, _) => ClearKeeps(t, user);
    }
  }

  // ---- All runs --------------------------------------------------------------------------------

  /** The tables after each of the requests, from the first tables on. */
  ghost predicate Runs(states: seq<Tables>, requests: seq<Request>) {
    && |states| == |requests| + 1
    && forall i :: 0 <= i < |requests| ==> Step(states[i], states[i + 1], requests[i])
  }

  /** In every run a profile counts the scored interviews of its user, and a scored interview has a reviewed answer to
      every question. */
  lemma {:induction false} RunsKeepInv(states: seq<Tables>, requests: seq<Request>, i: nat)
    requires Runs(states, requests) && Inv(states[0]) && i < |states|
    ensures Inv(states[i])
  {
    if i > 0 {
      RunsKeepInv(states, requests, i - 1);
      StepKeeps(states[i - 1], states[i], requests[i - 1]);
    }
  }

  /** A completed session has one answer for every question: not more, and not less. */
  lemma {:induction false} OneAnswerPerQuestion(t: Tables, id: Id)
    requires Inv(t) && id in t.sessions && t.sessions[id].status == COMPLETED
    ensures forall q :: q in QuestionsOf(t, id) ==> exists a :: AnswersTo(t, id, q) == {a} && t.answers[a].review.Some?
    ensures |AnswersOf(t, id)| == |QuestionsOf(t, id)|
  {
    assert FullyReviewed(t, id);
    forall q | q in QuestionsOf(t, id) ensures exists a :: AnswersTo(t, id, q) == {a} && t.answers[a].review.Some? {
      var a :| a in AnswersTo(t, id, q);
      forall b | b in AnswersTo(t, id, q) ensures b == a {
        assert SameQuestion(t.answers[a], t.answers[b]);
      }
      assert AnswersTo(t, id, q) == {a};
    }
    InjectiveSize(t, id, AnswersOf(t, id));
    var answered := set a | a in AnswersOf(t, id) :: t.answers[a].question;
    forall q | q in answered ensures q in QuestionsOf(t, id) {
      var a :| a in AnswersOf(t, id) && t.answers[a].question == q;
      assert BelongsTo(t, t.answers[a]);
    }
    forall q | q in QuestionsOf(t, id) ensures q in answered {
      var a :| a in AnswersTo(t, id, q);
      assert a in AnswersOf(t, id);
    }
    assert answered == QuestionsOf(t, id);
  }

  predicate Ended(t: Tables, id: Id) {
    id in t.sessions && t.sessions[id].status in {COMPLETED, ABANDONED}
  }

  /** The session and its answers are the same. */
  ghost predicate Frozen(t: Tables, t': Tables, id: Id) {
    && id in t.sessions && id in t'.sessions && t'.sessions[id] == t.sessions[id]
    && AnswersOf(t', id) == AnswersOf(t, id) && QuestionsOf(t', id) == QuestionsOf(t, id)
    && forall a :: a in AnswersOf(t, id) ==> t'.answers[a] == t.answers[a]
  }

  predicate ClearsFor(request: Request, user: UserId) {
    request.ClearHistory? && request.user == user
  }

  lemma {:induction false} StartFreezes(t: Tables, user: UserId, started: Id, ids: seq<Id>, algorithms: seq<bool>,
                                        id: Id)
    requires WellFormed(t) && id in t.sessions && started !in t.sessions && |ids| == |algorithms|
    requires Distinct(ids) && forall q :: q in ids ==> q !in t.questions
    ensures Frozen(t, Started(t, user, started, ids, algorithms), id)
  {
    NewQuestionRows(started, ids, algorithms);
  }

  lemma {:induction false} SaveFreezes(t: Tables, id: Id, other: Id, question: Id, a: Id, row: Answer)
    requires id in t.sessions && other != id && row.interview == other
    requires if AnswersTo(t, other, question) == {} then a !in t.answers else a in AnswersTo(t, other, question)
    ensures Frozen(t, t.(answers := t.answers[a := row]), id)
  {
  }

  lemma {:induction false} SubmitFreezes(t: Tables, user: UserId, other: Id, scoring: Option<Scoring>, id: Id)
    requires SubmitReply(t, user, other, scoring) == Done && t.sessions[other].status == IN_PROGRESS && Ended(t, id)
    ensures Frozen(t, Scored(t, other, scoring.value), id)
  {
    ScoredRows(t, other, scoring.value, id);
  }

  lemma {:induction false} AbandonFreezes(t: Tables, user: UserId, other: Id, id: Id)
    requires AbandonReply(t, user, other) == Done && Ended(t, id)
    ensures Frozen(t, Abandoned(t, other), id)
  {
  }

  lemma {:induction false} ClearFreezes(t: Tables, user: UserId, id: Id)
    requires id in t.sessions && t.sessions[id].user != user
    ensures Frozen(t, Cleared(t, user), id)
  {
    assert id !in EndedOf(t, user);
  }

  lemma {:induction false} StepFreezes(t: Tables, t': Tables, request: Request, id: Id)
    requires Inv(t) && Step(t, t', request) && Ended(t, id) && !ClearsFor(request, t.sessions[id].user)
    ensures Frozen(t, t', id)
  {
    if ReplyTo(t, request) == Done {
      match request
      case Start(user, started, ids, algorithms, _) => StartFreezes(t, user, started, ids, algorithms, id);
      case SaveAnswer(_, other, question, newId, text, language, skipped, _) =>
        var a :| (if AnswersTo(t, other, question) == {} then a == newId else a in AnswersTo(t, other, question))
                 && t' == t.(answers := t.answers[a := NewAnswer(t, a, other, question, text, language, skipped)]);
        SaveFreezes(t, id, other, question, a, NewAnswer(t, a, other, question, text, language, skipped));
      case Submit(user, other, scoring, _) =>
        if t.sessions[other].status != COMPLETED {
          SubmitFreezes(t, user, other, scoring, id);
        }
      case Abandon(user, other, _) => AbandonFreezes(t, user, other, id);
      case ClearHistory(user, _) => ClearFreezes(t, user, id);
    }
  }

  /** An interview that has ended stays as it is, with all its answers, until its user clears the history. */
  lemma {:induction false} EndedStaysFrozen(states: seq<Tables>, requests: seq<Request>, i: nat, j: nat, id: Id)
    requires Runs(states, requests) && Inv(states[0]) && i <= j < |states| && Ended(states[i], id)
    requires forall k :: i <= k < j ==> !ClearsFor(requests[k], states[i].sessions[id].user)
    ensures Frozen(states[i], states[j], id)
  {
    if i < j {
      EndedStaysFrozen(states, requests, i, j - 1, id);
      RunsKeepInv(states, requests, j - 1);
      StepFreezes(states[j - 1], states[j], requests[j - 1], id);
    }
  }

  lemma {:induction false} EmptyInv()
    ensures Inv(Tables(map[], map[], map[], map[]))
  {
    var t := Tables(map[], map[], map[], map[]);
    forall user ensures Count(t.profiles, user) == |CompletedOf(t, user)| {
      assert CompletedOf(t, user) == {};
    }
  }
}
