/** Mock interviews: answers are saved until the interview is scored or given up, and a profile counts the scored
    ones. */
module Interview {
  import opened Finite
  import opened Options

  type Id = string
  type UserId = string

  datatype Status = IN_PROGRESS | SCORING | COMPLETED | ABANDONED

  datatype Session = Session(user: UserId, status: Status, summary: string)

  datatype Question = Question(interview: Id, sequence: nat, algorithm: bool)

  datatype Answer = Answer(interview: Id, question: Id, text: string, language: Option<string>, skipped: bool,
                           review: Option<string>)

  /** The tables of the database; `profiles` holds the interview count of a user. */
  datatype Tables = Tables(sessions: map<Id, Session>, questions: map<Id, Question>, answers: map<Id, Answer>,
                           profiles: map<UserId, nat>)

  datatype Reply = Done | NotFound | Conflict | Failed

  /** What the scoring agent says: a review for some of the questions, and a summary. */
  datatype Scoring = Scoring(reviews: map<Id, string>, summary: string)

  /** A request; ids for new rows and the results of calls outside come with it. `committed` is the fate of its
      transaction. */
  datatype Request = Start(user: UserId, id: Id, questionIds: seq<Id>, algorithms: seq<bool>, committed: bool)
                   | SaveAnswer(user: UserId, id: Id, question: Id, newId: Id, text: string, language: Option<string>,
                                skipped: bool, committed: bool)
                   | Submit(user: UserId, id: Id, scoring: Option<Scoring>, committed: bool)
                   | Abandon(user: UserId, id: Id, committed: bool)
                   | ClearHistory(user: UserId, committed: bool)

  predicate Owned(t: Tables, id: Id, user: UserId) {
    id in t.sessions && t.sessions[id].user == user
  }

  function QuestionsOf(t: Tables, interview: Id): set<Id> {
    set q | q in t.questions && t.questions[q].interview == interview
  }

  function AnswersOf(t: Tables, interview: Id): set<Id> {
    set a | a in t.answers && t.answers[a].interview == interview
  }

  function AnswersTo(t: Tables, interview: Id, question: Id): set<Id> {
    set a | a in AnswersOf(t, interview) && t.answers[a].question == question
  }

  function Count(profiles: map<UserId, nat>, user: UserId): nat {
    if user in profiles then profiles[user] else 0
  }

  function EndedOf(t: Tables, user: UserId): set<Id> {
    set id | id in t.sessions && t.sessions[id].user == user && t.sessions[id].status in {COMPLETED, ABANDONED}
  }

  // ---- The specification -----------------------------------------------------------------------

  function NewQuestions(interview: Id, ids: seq<Id>, algorithms: seq<bool>): map<Id, Question>
    requires |ids| == |algorithms|
  {
    if ids == [] then map[]
    else
      var n := |ids| - 1;
      NewQuestions(interview, ids[..n], algorithms[..n])[ids[n] := Question(interview, n + 1, algorithms[n])]
  }

  function Started(t: Tables, user: UserId, id: Id, ids: seq<Id>, algorithms: seq<bool>): Tables
    requires |ids| == |algorithms|
  {
    t.(sessions := t.sessions[id := Session(user, IN_PROGRESS, "")],
       questions := t.questions + NewQuestions(id, ids, algorithms))
  }

  predicate SameQuestion(a: Answer, b: Answer) {
    a.interview == b.interview && a.question == b.question
  }

  /** The unique constraint on answers. */
  ghost predicate OneAnswerEach(t: Tables) {
    forall a, b :: a in t.answers && b in t.answers && SameQuestion(t.answers[a], t.answers[b]) ==> a == b
  }

  function SaveReply(t: Tables, user: UserId, id: Id, question: Id): Reply {
    if !Owned(t, id, user) then NotFound
    else if t.sessions[id].status != IN_PROGRESS then Conflict
    else if question !in QuestionsOf(t, id) then NotFound
    else Done
  }

  /** A later answer to a question replaces an earlier one, but for its review. */
  ghost predicate Saved(t: Tables, t': Tables, id: Id, question: Id, newId: Id, text: string, language: Option<string>,
                        skipped: bool)
    requires question in t.questions
  {
    exists a :: (if AnswersTo(t, id, question) == {} then a == newId else a in AnswersTo(t, id, question))
                && t' == t.(answers := t.answers[a := NewAnswer(t, a, id, question, text, language, skipped)])
  }

  function NewAnswer(t: Tables, a: Id, id: Id, question: Id, text: string, language: Option<string>,
                     skipped: bool): Answer
    requires question in t.questions
  {
    Answer(id, question, text, if t.questions[question].algorithm then language else None, skipped,
           if a in t.answers then t.answers[a].review else None)
  }

  predicate AllReviewedIn(t: Tables, id: Id, reviews: map<Id, string>) {
    forall a :: a in AnswersOf(t, id) ==> t.answers[a].question in reviews
  }

  function SubmitReply(t: Tables, user: UserId, id: Id, scoring: Option<Scoring>): Reply {
    if !Owned(t, id, user) then NotFound
    else if t.sessions[id].status == COMPLETED then Done
    else if t.sessions[id].status != IN_PROGRESS then Conflict
    else if |AnswersOf(t, id)| != |QuestionsOf(t, id)| then Conflict
    else if scoring.None? || !AllReviewedIn(t, id, scoring.value.reviews) then Failed
    else Done
  }

  function Scored(t: Tables, id: Id, scoring: Scoring): Tables
    requires id in t.sessions && forall a :: a in AnswersOf(t, id) ==> t.answers[a].question in scoring.reviews
  {
    var user := t.sessions[id].user;
    t.(sessions := t.sessions[id := Session(user, COMPLETED, scoring.summary)],
       answers := map a | a in t.answers ::
         if a in AnswersOf(t, id) then t.answers[a].(review := Some(scoring.reviews[t.answers[a].question]))
         else t.answers[a],
       profiles := t.profiles[user := Count(t.profiles, user) + 1])
  }

  function AbandonReply(t: Tables, user: UserId, id: Id): Reply {
    if !Owned(t, id, user) then NotFound
    else if t.sessions[id].status == COMPLETED || t.sessions[id].status == SCORING then Conflict
    else Done
  }

  function Abandoned(t: Tables, id: Id): Tables
    requires id in t.sessions
  {
    t.(sessions := t.sessions[id := t.sessions[id].(status := ABANDONED)])
  }

  function Cleared(t: Tables, user: UserId): Tables {
    var ended := EndedOf(t, user);
    Tables(map id | id in t.sessions && id !in ended :: t.sessions[id],
           map q | q in t.questions && t.questions[q].interview !in ended :: t.questions[q],
           map a | a in t.answers && t.answers[a].interview !in ended :: t.answers[a],
           t.profiles - {user})
  }

  // ---- The handlers ----------------------------------------------------------------------------

  /** The handlers of the interview API over the tables of the current transaction. */
  class InterviewApi {
    var db: Tables

    constructor ()
      ensures db == Tables(map[], map[], map[], map[])
    {
      db := Tables(map[], map[], map[], map[]);
    }

    method StartInterview(user: UserId, id: Id, ids: seq<Id>, algorithms: seq<bool>)
      requires |ids| == |algorithms|
      modifies this
      ensures db == Started(old(db), user, id, ids, algorithms)
    {
      db := db.(sessions := db.sessions[id := Session(user, IN_PROGRESS, "")]);
      ghost var questions := db.questions;
      for i := 0 to |ids|
        invariant db == old(db).(sessions := old(db).sessions[id := Session(user, IN_PROGRESS, "")],
                                 questions := questions + NewQuestions(id, ids[..i], algorithms[..i]))
      {
        assert ids[..i + 1][..i] == ids[..i] && algorithms[..i + 1][..i] == algorithms[..i];
        db := db.(questions := db.questions[ids[i] := Question(id, i + 1, algorithms[i])]);
      }
      assert ids[..|ids|] == ids && algorithms[..|ids|] == algorithms;
    }

    method SaveOne(user: UserId, id: Id, question: Id, newId: Id, text: string, language: Option<string>, skipped: bool)
      returns (reply: Reply)
      modifies this
      ensures reply == SaveReply(old(db), user, id, question)
      ensures if reply == Done then Saved(old(db), db, id, question, newId, text, language, skipped) else db == old(db)
    {
      if !Owned(db, id, user) {
        return NotFound;
      }
      if db.sessions[id].status != IN_PROGRESS {
        return Conflict;
      }
      if question !in db.questions || db.questions[question].interview != id {
        return NotFound;
      }
      var given := AnswersTo(db, id, question);
      var a := newId;
      if given != {} {
        a :| a in given;
      }
      var row := NewAnswer(db, a, id, question, text, language, skipped);
      db := db.(answers := db.answers[a := row]);
      reply := Done;
    }

    /** The loop that writes the reviews. A missing review is an exception. */
    method WriteReviews(id: Id, reviews: map<Id, string>) returns (ok: bool)
      modifies this
      ensures ok <==> forall a :: a in AnswersOf(old(db), id) ==> old(db).answers[a].question in reviews
      ensures ok ==> db == old(db).(answers := map a | a in old(db).answers ::
                if a in AnswersOf(old(db), id)
                then old(db).answers[a].(review := Some(reviews[old(db).answers[a].question]))
                else old(db).answers[a])
    {
      ghost var before := db.answers;
      var rows := AnswersOf(db, id);
      var todo := rows;
      while todo != {}
        invariant todo <= rows && db == old(db).(answers := db.answers) && db.answers.Keys == before.Keys
        invariant forall a :: a in rows && a !in todo ==> before[a].question in reviews
        invariant forall a :: a in before ==>
                    db.answers[a] == if a in rows && a !in todo
                                     then before[a].(review := Some(reviews[before[a].question])) else before[a]
      {
        var a :| a in todo;
        if db.answers[a].question !in reviews {
          return false;
        }
        db := db.(answers := db.answers[a := db.answers[a].(review := Some(reviews[db.answers[a].question]))]);
        todo := todo - {a};
      }
      ok := true;
    }

    method SubmitInterview(user: UserId, id: Id, scoring: Option<Scoring>) returns (reply: Reply)
      modifies this
      ensures reply == SubmitReply(old(db), user, id, scoring)
      ensures reply == Done ==>
                db == if old(db).sessions[id].status == COMPLETED then old(db) else Scored(old(db), id, scoring.value)
    {
      if !Owned(db, id, user) {
        return NotFound;
      }
      if db.sessions[id].status == COMPLETED {
        return Done;
      }
      if db.sessions[id].status != IN_PROGRESS {
        return Conflict;
      }
      if |AnswersOf(db, id)| != |QuestionsOf(db, id)| {
        return Conflict;
      }
      db := db.(sessions := db.sessions[id := db.sessions[id].(status := SCORING)]);
      if scoring.None? {
        return Failed;
      }
      var ok := WriteReviews(id, scoring.value.reviews);
      if !ok {
        return Failed;
      }
      db := db.(sessions := db.sessions[id := Session(db.sessions[id].user, COMPLETED, scoring.value.summary)]);
      UpdateProfile(user);
      reply := Done;
    }

    method UpdateProfile(user: UserId)
      modifies this
      ensures db == old(db).(profiles := old(db).profiles[user := Count(old(db).profiles, user) + 1])
    {
      if user !in db.profiles {
        db := db.(profiles := db.profiles[user := 0]);
      }
      db := db.(profiles := db.profiles[user := db.profiles[user] + 1]);
    }

    method AbandonInterview(user: UserId, id: Id) returns (reply: Reply)
      modifies this
      ensures reply == AbandonReply(old(db), user, id)
      ensures db == if reply == Done then Abandoned(old(db), id) else old(db)
    {
      if !Owned(db, id, user) {
        return NotFound;
      }
      if db.sessions[id].status == COMPLETED || db.sessions[id].status == SCORING {
        return Conflict;
      }
      if db.sessions[id].status != ABANDONED {
        db := db.(sessions := db.sessions[id := db.sessions[id].(status := ABANDONED)]);
      }
      reply := Done;
    }

    method ClearInterviewHistory(user: UserId)
      modifies this
      ensures db == Cleared(old(db), user)
    {
      var ended := EndedOf(db, user);
      if ended != {} {
        db := db.(answers := map a | a in db.answers && db.answers[a].interview !in ended :: db.answers[a]);
        db := db.(questions := map q | q in db.questions && db.questions[q].interview !in ended :: db.questions[q]);
        db := db.(sessions := db.sessions - ended);
      }
      db := db.(profiles := db.profiles - {user});
    }

    /** One request in its transaction: only a request that is answered and committed leaves anything behind. */
    method Handle(request: Request) returns (reply: Reply)
      requires request.Start? ==> |request.questionIds| == |request.algorithms|
      modifies this
      ensures reply == ReplyTo(old(db), request)
      ensures if reply == Done then Handled(old(db), db, request) else db == old(db)
    {
      var before := db;
      match request {
        case Start(user, id, ids, algorithms, _) =>
          StartInterview(user, id, ids, algorithms);
          reply := Done;
        case SaveAnswer(user, id, question, newId, text, language, skipped, _) =>
          reply := SaveOne(user, id, question, newId, text, language, skipped);
        case Submit(user, id, scoring, _) =>
          reply := SubmitInterview(user, id, scoring);
        case Abandon(user, id, _) =>
          reply := AbandonInterview(user, id);
        case ClearHistory(user, _) =>
          ClearInterviewHistory(user);
          reply := Done;
      }
      if reply == Done && !request.committed {
        reply := Failed;
      }
      if reply != Done {
        db := before;
      }
    }
  }

  function ReplyTo(t: Tables, request: Request): Reply {
    var reply := match request
      case Start(_, _, _, _, _) => Done
      case SaveAnswer(user, id, question, _, _, _, _, _) => SaveReply(t, user, id, question)
      case Submit(user, id, scoring, _) => SubmitReply(t, user, id, scoring)
      case Abandon(user, id, _) => AbandonReply(t, user, id)
      case ClearHistory(_, _) => Done;
    if reply == Done && !request.committed then Failed else reply
  }

  /** The tables before and after a request that is done. */
  ghost predicate Handled(t: Tables, t': Tables, request: Request)
    requires ReplyTo(t, request) == Done && (request.Start? ==> |request.questionIds| == |request.algorithms|)
  {
    match request
    case Start(user, id, ids, algorithms, _) => t' == Started(t, user, id, ids, algorithms)
    case SaveAnswer(user, id, question, newId, text, language, skipped, _) =>
      Saved(t, t', id, question, newId, text, language, skipped)
    case Submit(user, id, scoring, _) =>
      t' == if t.sessions[id].status == COMPLETED then t else Scored(t, id, scoring.value)
    case Abandon(user, id, _) => t' == Abandoned(t, id)
    case ClearHistory(user, _) => t' == Cleared(t, user)
  }
}
