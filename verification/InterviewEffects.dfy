/** What the requests of the interview API change, and what they leave alone. */
module InterviewEffects {
  import opened Finite
  import opened Options
  import opened Interview
  import opened InterviewRuns

  /** The new questions stand in the order in which they were made, numbered from 1. */
  lemma {:induction false} QuestionsAreNumbered(t: Tables, user: UserId, id: Id, ids: seq<Id>, algorithms: seq<bool>,
                                                i: nat)
    requires |ids| == |algorithms| && Distinct(ids) && i < |ids|
    ensures ids[i] in Started(t, user, id, ids, algorithms).questions
    ensures Started(t, user, id, ids, algorithms).questions[ids[i]] == Question(id, i + 1, algorithms[i])
  {
    NumberedFrom(id, ids, algorithms, i);
  }

  lemma {:induction false} NumberedFrom(id: Id, ids: seq<Id>, algorithms: seq<bool>, i: nat)
    requires |ids| == |algorithms| && Distinct(ids) && i < |ids|
    ensures ids[i] in NewQuestions(id, ids, algorithms)
    ensures NewQuestions(id, ids, algorithms)[ids[i]] == Question(id, i + 1, algorithms[i])
  {
    var n := |ids| - 1;
    if i < n {
      NumberedFrom(id, ids[..n], algorithms[..n], i);
    }
  }

  /** A new session is open, belongs to its user, and has these questions only; nothing else changes. */
  lemma {:induction false} StartedExactly(t: Tables, user: UserId, id: Id, ids: seq<Id>, algorithms: seq<bool>)
    requires WellFormed(t) && id !in t.sessions && |ids| == |algorithms| && forall q :: q in ids ==> q !in t.questions
    ensures var now := Started(t, user, id, ids, algorithms);
            && id in now.sessions && now.sessions[id] == Session(user, IN_PROGRESS, "")
            && QuestionsOf(now, id) == Elements(ids) && AnswersOf(now, id) == {}
            && (forall s :: s in t.sessions ==>
                  s in now.sessions && now.sessions[s] == t.sessions[s] && QuestionsOf(now, s) == QuestionsOf(t, s))
            && now.answers == t.answers && now.profiles == t.profiles
  {
    NewQuestionRows(id, ids, algorithms);
    assert forall a :: a in t.answers ==> BelongsTo(t, t.answers[a]);
  }

  /** Saving sets text and skip mark of the one answer to the question, and its language only for an algorithm; a review
      stays, and so do all other answers. */
  lemma {:induction false} SavedExactly(t: Tables, t': Tables, id: Id, question: Id, newId: Id, text: string,
                                        language: Option<string>, skipped: bool) returns (a: Id)
    requires question in t.questions && newId !in t.answers && OneAnswerEach(t)
    requires Saved(t, t', id, question, newId, text, language, skipped)
    ensures a in t'.answers && AnswersTo(t', id, question) == {a}
    ensures t'.answers[a].text == text && t'.answers[a].skipped == skipped
    ensures t'.answers[a].language == (if t.questions[question].algorithm then language else None)
    ensures t'.answers[a].review == if a in t.answers then t.answers[a].review else None
    ensures forall b :: b != a ==>
              (b in t'.answers <==> b in t.answers) && (b in t.answers ==> t'.answers[b] == t.answers[b])
    ensures t'.sessions == t.sessions && t'.questions == t.questions && t'.profiles == t.profiles
  {
    a :| (if AnswersTo(t, id, question) == {} then a == newId else a in AnswersTo(t, id, question))
         && t' == t.(answers := t.answers[a := NewAnswer(t, a, id, question, text, language, skipped)]);
    forall b | b in AnswersTo(t', id, question) ensures b == a {
      assert b != a ==> b in AnswersTo(t, id, question);
    }
  }

  /** Scoring gives every answer of the session the review of its question, and the session its summary; nothing but the
      count changes beside. */
  lemma {:induction false} ScoredExactly(t: Tables, id: Id, scoring: Scoring)
    requires id in t.sessions && forall a :: a in AnswersOf(t, id) ==> t.answers[a].question in scoring.reviews
    ensures var now, user := Scored(t, id, scoring), t.sessions[id].user;
            && now.sessions == t.sessions[id := Session(user, COMPLETED, scoring.summary)]
            && now.questions == t.questions && now.answers.Keys == t.answers.Keys
            && (forall a :: a in AnswersOf(t, id) ==>
                  now.answers[a] == t.answers[a].(review := Some(scoring.reviews[t.answers[a].question])))
            && (forall a :: a in t.answers && t.answers[a].interview != id ==> now.answers[a] == t.answers[a])
            && Count(now.profiles, user) == Count(t.profiles, user) + 1
            && (forall u :: u != user ==> Count(now.profiles, u) == Count(t.profiles, u))
  {
  }

  predicate IsOver(session: Session, user: UserId) {
    session.user == user && (session.status == COMPLETED || session.status == ABANDONED)
  }

  /** Clearing takes away exactly the ended sessions of the user, with their questions and answers, and the profile. */
  lemma {:induction false} ClearedExactly(t: Tables, user: UserId)
    requires WellFormed(t)
    ensures var now := Cleared(t, user);
            && (forall s :: s in now.sessions <==> s in t.sessions && !IsOver(t.sessions[s], user))
            && (forall s :: s in now.sessions ==>
                  && now.sessions[s] == t.sessions[s] && QuestionsOf(now, s) == QuestionsOf(t, s)
                  && AnswersOf(now, s) == AnswersOf(t, s)
                  && forall a :: a in AnswersOf(t, s) ==> now.answers[a] == t.answers[a])
            && (forall q :: q in now.questions ==> now.questions[q].interview in now.sessions)
            && (forall a :: a in now.answers ==> now.answers[a].interview in now.sessions)
            && user !in now.profiles && forall u :: u != user ==> Count(now.profiles, u) == Count(t.profiles, u)
  {
    assert forall a :: a in t.answers ==> BelongsTo(t, t.answers[a]);
  }
}
