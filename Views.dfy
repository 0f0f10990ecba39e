/**
  The request logic of aptitude/views.py as functions of the database
  contents: who may see a page (the `login_required` and `boss_required`
  gates), what each page shows (the read-only queries), and, for every
  POST, the response together with the database the action leaves behind
  (an `Outcome`). The imperative handlers in module Handlers perform these
  actions through the ORM calls of module Storage and are proved to reach
  exactly these outcomes; the lemmas here state what the outcomes mean.
 */
module Views {
  import opened Tables
  import opened Models
  import opened Storage

  // ----- requests and responses -----

  /** Who sends the request: nobody signed in, or the session of the user with this key. */
  datatype Visitor = Anonymous | SignedIn(id: int)

  /** Where a redirect points (the named URL and its arguments). */
  datatype Target =
    | ToHome
    | ToDashboard
    | ToSubtopicPhase(topic: int)
    | ToQuestionPhase(subtopic: int, filter: string)
    | ToPractice(subtopic: int, difficulty: string, qIndex: int)
    | ToPracticeNew(subtopic: int, difficulty: string, qIndex: int)

  /** The dashboard's counters. */
  datatype Stats = Stats(subtopics: nat, questions: nat, students: nat)

  /** One line of `subtopic_data`. */
  datatype SubtopicRow = SubtopicRow(subtopic: Subtopic, easy: nat, medium: nat, hard: nat, total: nat)

  /** One line of `question_data`. */
  datatype QuestionRow = QuestionRow(question: Question, options: seq<Option>)

  /** The counters of `practice_new_view`. */
  datatype Progress = Progress(total: nat, solved: nat, remaining: int)

  /** A response: an error status, a redirect, or a rendered page with its context. */
  datatype Response =
    | LoginRedirect
    | Forbidden
    | NotFound
    | ServerError
    | Redirect(to: Target)
    | SignupPage(usernameTaken: bool, emailTaken: bool)
    | HomePage(common: seq<Topic>, it: seq<Topic>, govt: seq<Topic>)
    | DashboardPage(topics: seq<Topic>, stats: Stats, error: Maybe<string>)
    | SubtopicPhasePage(topic: Topic, subtopicData: seq<SubtopicRow>, error: Maybe<string>)
    | QuestionPhasePage(subtopic: Subtopic, filter: string, questionData: seq<QuestionRow>)
    | NoQuestionsPage(subtopic: Subtopic, difficulty: string)
    | CompletedPage(subtopic: Subtopic, difficulty: string)
    | PracticePage(subtopic: Subtopic, question: Question, options: seq<Option>, qIndex: int,
                   progress: Maybe<Progress>)

  /** What a request returns and the database it leaves behind. */
  datatype Outcome = Outcome(response: Response, db: Db)

  const DeleteTopicError: string := "Cannot delete topic. Subtopics exist."
  const DeleteSubtopicError: string := "Cannot delete subtopic. Questions exist."

  // ----- the gates -----

  /** `request.user`: the signed-in user's row; a session whose user is gone is anonymous. */
  function CurrentUser(db: Db, v: Visitor): (r: Maybe<User>)
    ensures r.Some? <==> v.SignedIn? && v.id in Ids(db.users, UserId)
    ensures r.Some? ==> r.value in db.users && r.value.id == v.id
  {
    if v.Anonymous? then None
    else
      match Find(db.users, UserId, v.id)
      case None => None
      case Some(i) => Some(db.users[i])
  }

  /** A gate lets the request through with its user, or answers it itself. */
  datatype Gate = Admit(user: User) | Deny(response: Response)

  /** `@login_required`: anonymous visitors are sent to the login page. */
  function LoginRequired(db: Db, v: Visitor): (g: Gate)
    ensures g.Admit? <==> CurrentUser(db, v).Some?
    ensures g.Admit? ==> g.user == CurrentUser(db, v).value
    ensures g.Deny? ==> g.response == LoginRedirect
  {
    match CurrentUser(db, v)
    case None => Deny(LoginRedirect)
    case Some(u) => Admit(u)
  }

  /** `boss_required` (aptitude/views.py): `login_required` first, then anyone whose role is not boss is refused. */
  function BossRequired(db: Db, v: Visitor): (g: Gate)
    ensures g.Admit? <==> CurrentUser(db, v).Some? && CurrentUser(db, v).value.role == Boss
    ensures g.Admit? ==> g.user == CurrentUser(db, v).value
    ensures g.Deny? ==> g.response == (if CurrentUser(db, v).None? then LoginRedirect else Forbidden)
  {
    match LoginRequired(db, v)
    case Deny(r) => Deny(r)
    case Admit(u) => if u.role != Boss then Deny(Forbidden) else Admit(u)
  }

  // ----- row selections (the WHERE clauses of the views) -----

  function OfTopic(t: int): Subtopic -> bool { (s: Subtopic) => s.topic == t }
  function InSubtopic(s: int): Question -> bool { (q: Question) => q.subtopic == s }
  /** `Question.objects.filter(subtopic=s, difficulty=name)`: `name` is compared with the stored string. */
  function InQuiz(s: int, name: string): Question -> bool
  { (q: Question) => q.subtopic == s && DifficultyName(q.difficulty) == name }
  function AtLevel(s: int, d: Difficulty): Question -> bool
  { (q: Question) => q.subtopic == s && q.difficulty == d }
  function OfQuestion(q: int): Option -> bool { (o: Option) => o.question == q }
  /** `UserAnswer.objects.filter(user=u, question__in=qids)`. */
  function AnswerIn(u: int, qids: set<int>): UserAnswer -> bool
  { (a: UserAnswer) => a.user == u && a.question in qids }
  function IsStudent(): User -> bool { (u: User) => u.role == Student }

  // ----- display order on insert -----

  /**
    `(Max(display_order) or 0) + 1` over `rows`: Python's `or` reads both a
    missing maximum (no rows) and a maximum of 0 as 0. Either way the new
    order is one above the largest existing one, and 1 on an empty table.
   */
  function NextDisplayOrder<T>(rows: seq<T>, order: T -> int): (r: int)
    ensures forall i :: 0 <= i < |rows| ==> order(rows[i]) < r
    ensures rows == [] ==> r == 1
    ensures rows != [] ==> exists i :: 0 <= i < |rows| && order(rows[i]) == r - 1
  {
    var m := MaxBy(rows, order);
    (if m.None? || m.value == 0 then 0 else m.value) + 1
  }

  // ----- the learner's pages -----

  /** The denylist of `home_view`. */
  const ExcludedTopics: set<string> := {"Number Theory", "Data Science", "Intensive Data Analysis"}

  function Listed(c: Category): Topic -> bool
  { (t: Topic) => t.category == c && t.name !in ExcludedTopics }

  /** One category column of the home page, ordered by display_order. */
  function CategoryList(db: Db, c: Category): (r: seq<Topic>)
    ensures SortedBy(r, TopicOrder)
    ensures forall t :: t in r <==> t in db.topics && t.category == c && t.name !in ExcludedTopics
    ensures multiset(r) == multiset(Filter(db.topics, Listed(c)))
  {
    SortBy(Filter(db.topics, Listed(c)), TopicOrder)
  }

  /** `home_view`. */
  function HomeOutcome(db: Db, v: Visitor): Outcome
  {
    match LoginRequired(db, v)
    case Deny(r) => Outcome(r, db)
    case Admit(_) =>
      Outcome(HomePage(CategoryList(db, Common), CategoryList(db, ItSpecific), CategoryList(db, GovtSpecific)), db)
  }

  /** The questions of one practice run, in ascending id order. */
  function QuizQuestions(db: Db, s: int, difficulty: string): seq<Question>
  {
    Filter(db.questions, InQuiz(s, difficulty))
  }

  /** Where position `qIndex` of a practice run falls. */
  datatype Step = NoQuestions | Completed | At(question: Question)

  /** `questions.exists()` and then `questions[q_index]`, whose IndexError means the run is over. */
  function StepAt(qs: seq<Question>, qIndex: nat): (r: Step)
    ensures r == NoQuestions <==> qs == []
    ensures r == Completed <==> qs != [] && qIndex >= |qs|
    ensures r.At? <==> qIndex < |qs|
    ensures r.At? ==> r.question == qs[qIndex]
  {
    if qs == [] then NoQuestions
    else if qIndex < |qs| then At(qs[qIndex])
    else Completed
  }

  /** The counters of `practice_new_view`: `solved` counts answer rows, not distinct questions. */
  function ProgressOf(db: Db, u: int, qs: seq<Question>): (p: Progress)
    ensures p.remaining == p.total - p.solved
  {
    var total := |qs|;
    var solved := |Filter(db.answers, AnswerIn(u, Ids(qs, QuestionId)))|;
    Progress(total, solved, total - solved)
  }

  /** The two practice views differ only in the progress counters and in where they redirect. */
  datatype Variant = Plain | WithProgress

  /** A POST of the practice form: the chosen option's key and the optional `time_taken`. */
  datatype Submission = Submission(optionId: int, timeTaken: Maybe<int>)

  /** `time_taken` defaults to 0 when the form leaves it out. */
  const DefaultTimeTaken: int := 0

  function NextTarget(variant: Variant, s: int, difficulty: string, qIndex: int): Target
  {
    match variant
    case Plain => ToPractice(s, difficulty, qIndex)
    case WithProgress => ToPracticeNew(s, difficulty, qIndex)
  }

  /** The database with one more answer row, whose correctness is copied from the option. */
  function Answered(db: Db, u: int, q: int, o: Option, timeTaken: int): Db
  {
    db.(answers := db.answers + [UserAnswer(db.nextAnswer, u, q, o.id, o.isCorrect, timeTaken)],
        nextAnswer := db.nextAnswer + 1)
  }

  /**
    `practice_view` and `practice_new_view`: the subtopic (404 when missing),
    then the step of the run at `qIndex`.
   */
  function PracticeOutcome(db: Db, v: Visitor, variant: Variant, s: int, difficulty: string, qIndex: nat,
                           post: Maybe<Submission>): Outcome
  {
    match LoginRequired(db, v)
    case Deny(r) => Outcome(r, db)
    case Admit(user) =>
      match Find(db.subtopics, SubtopicId, s)
      case None => Outcome(NotFound, db)
      case Some(i) => PracticeStepOutcome(db, user, variant, db.subtopics[i], difficulty, qIndex, post)
  }

  /**
    The run's questions, the step at `qIndex`, and on a POST the chosen
    option, looked up by key alone (404 when missing), recorded as an answer.
   */
  function PracticeStepOutcome(db: Db, user: User, variant: Variant, subtopic: Subtopic, difficulty: string,
                               qIndex: nat, post: Maybe<Submission>): Outcome
  {
    var qs := QuizQuestions(db, subtopic.id, difficulty);
    match StepAt(qs, qIndex)
    case NoQuestions => Outcome(NoQuestionsPage(subtopic, difficulty), db)
    case Completed => Outcome(CompletedPage(subtopic, difficulty), db)
    case At(q) =>
      if post.None? then
        var progress := if variant == WithProgress then Some(ProgressOf(db, user.id, qs)) else None;
        Outcome(PracticePage(subtopic, q, Filter(db.options, OfQuestion(q.id)), qIndex, progress), db)
      else
        match Find(db.options, OptionId, post.value.optionId)
        case None => Outcome(NotFound, db)
        case Some(j) =>
          var t := if post.value.timeTaken.Some? then post.value.timeTaken.value else DefaultTimeTaken;
          Outcome(Redirect(NextTarget(variant, subtopic.id, difficulty, qIndex + 1)),
                  Answered(db, user.id, q.id, db.options[j], t))
  }

  // ----- signup -----

  /** The fields of the signup form (the password goes to the hasher and is not modelled). */
  datatype SignupForm = SignupForm(username: string, email: string)

  /**
    `signup_view`: both uniqueness checks run on the form's values as sent,
    and a new user is always a student. `create_user` then normalises the
    email and can still fail, on an empty username or on an email that is
    taken only once its domain is lower-cased: a server error.
   */
  function SignupOutcome(db: Db, post: Maybe<SignupForm>): Outcome
  {
    if post.None? then Outcome(SignupPage(false, false), db)
    else
      var f := post.value;
      var nameTaken := UsernameTaken(db.users, f.username);
      var emailTaken := EmailTaken(db.users, f.email);
      if nameTaken || emailTaken then Outcome(SignupPage(nameTaken, emailTaken), db)
      else if CreateUserFails(db.users, f.username, f.email) then Outcome(ServerError, db)
      else Outcome(Redirect(ToHome),
                   db.(users := db.users + [User(db.nextUser, f.username, NormalizeEmail(f.email), Student)],
                       nextUser := db.nextUser + 1))
  }

  // ----- the dashboard -----

  function StatsOf(db: Db): Stats
  {
    Stats(|db.subtopics|, |db.questions|, |Filter(db.users, IsStudent())|)
  }

  datatype DashboardAction =
    | TopicAdd(name: string, category: Category)
    | TopicEdit(topicId: int, name: string, category: Category)
    | TopicDelete(topicId: int)
    | OtherDashboardAction

  /** `add_topic`: the new topic goes after every existing one, authored by the curator. */
  function TopicAdded(db: Db, name: string, c: Category, user: int): Db
  {
    var t := Topic(db.nextTopic, name, c, NextDisplayOrder(db.topics, TopicOrder), Some(user), None);
    db.(topics := db.topics + [t], nextTopic := db.nextTopic + 1)
  }

  /** `topic.delete()`: CASCADE from that one topic. */
  function TopicDeleted(db: Db, id: int): Db
  {
    Purged(db, Cascade({id}, {}, {}, {}, db.subtopics, db.questions, db.options))
  }

  /** `boss_dashboard`. A missing topic makes `Topic.objects.get` raise: a server error. */
  function DashboardOutcome(db: Db, v: Visitor, post: Maybe<DashboardAction>): Outcome
  {
    match BossRequired(db, v)
    case Deny(r) => Outcome(r, db)
    case Admit(user) =>
      var topics := SortBy(db.topics, TopicOrder);
      if post.None? then Outcome(DashboardPage(topics, StatsOf(db), None), db)
      else
        match post.value
        case TopicAdd(name, c) => Outcome(Redirect(ToDashboard), TopicAdded(db, name, c, user.id))
        case TopicEdit(id, name, c) =>
          (match Find(db.topics, TopicId, id)
           case None => Outcome(ServerError, db)
           case Some(i) =>
             Outcome(Redirect(ToDashboard),
                     db.(topics := db.topics[i := db.topics[i].(name := name, category := c)])))
        case TopicDelete(id) =>
          (match Find(db.topics, TopicId, id)
           case None => Outcome(ServerError, db)
           case Some(_) =>
             if Filter(db.subtopics, OfTopic(id)) != [] then Outcome(DashboardPage(topics, StatsOf(db), Some(DeleteTopicError)), db)
             else Outcome(Redirect(ToDashboard), TopicDeleted(db, id)))
        case OtherDashboardAction => Outcome(Redirect(ToDashboard), db)
  }

  // ----- the subtopic page of a topic -----

  function LevelCount(questions: seq<Question>, s: int, d: Difficulty): nat
  {
    |Filter(questions, AtLevel(s, d))|
  }

  /** One line of `subtopic_data`: the per-difficulty counts and their sum. */
  function RowOf(db: Db, s: Subtopic): SubtopicRow
  {
    var e := LevelCount(db.questions, s.id, Easy);
    var m := LevelCount(db.questions, s.id, Medium);
    var h := LevelCount(db.questions, s.id, Hard);
    SubtopicRow(s, e, m, h, e + m + h)
  }

  /** The subtopics of topic `t`, ordered by display_order. */
  function SubtopicsOf(db: Db, t: int): (r: seq<Subtopic>)
    ensures SortedBy(r, SubtopicOrder)
    ensures forall s :: s in r <==> s in db.subtopics && s.topic == t
    ensures multiset(r) == multiset(Filter(db.subtopics, OfTopic(t)))
  {
    SortBy(Filter(db.subtopics, OfTopic(t)), SubtopicOrder)
  }

  /** `subtopic_data`: the counted line of every subtopic of `t`, in display order. */
  function SubtopicTable(db: Db, t: int): seq<SubtopicRow>
  {
    var subs := SubtopicsOf(db, t);
    seq(|subs|, k requires 0 <= k < |subs| => RowOf(db, subs[k]))
  }

  datatype SubtopicAction =
    | SubtopicAdd(name: string)
    | SubtopicEdit(subtopicId: int, name: string)
    | SubtopicDelete(subtopicId: int)
    | OtherSubtopicAction

  /** `add_subtopic`: ordered after the other subtopics of the same topic only. */
  function SubtopicAdded(db: Db, t: int, name: string, user: int): Db
  {
    var s := Subtopic(db.nextSubtopic, t, name, NextDisplayOrder(Filter(db.subtopics, OfTopic(t)), SubtopicOrder),
                      Some(user), None);
    db.(subtopics := db.subtopics + [s], nextSubtopic := db.nextSubtopic + 1)
  }

  /** `subtopic.delete()`: CASCADE from that one subtopic. */
  function SubtopicDeleted(db: Db, id: int): Db
  {
    Purged(db, Cascade({}, {id}, {}, {}, db.subtopics, db.questions, db.options))
  }

  /**
    `subtopic_phase_view`: `rows` is `subtopic_data`, computed before the
    action. The subtopic an edit or delete names need not belong to `t`.
   */
  function SubtopicPhaseOutcome(db: Db, v: Visitor, t: int, rows: seq<SubtopicRow>,
                                post: Maybe<SubtopicAction>): Outcome
  {
    match BossRequired(db, v)
    case Deny(r) => Outcome(r, db)
    case Admit(user) =>
      match Find(db.topics, TopicId, t)
      case None => Outcome(NotFound, db)
      case Some(k) =>
        if post.None? then Outcome(SubtopicPhasePage(db.topics[k], rows, None), db)
        else
          match post.value
          case SubtopicAdd(name) => Outcome(Redirect(ToSubtopicPhase(t)), SubtopicAdded(db, t, name, user.id))
          case SubtopicEdit(id, name) =>
            (match Find(db.subtopics, SubtopicId, id)
             case None => Outcome(NotFound, db)
             case Some(i) =>
               Outcome(Redirect(ToSubtopicPhase(t)),
                       db.(subtopics := db.subtopics[i := db.subtopics[i].(name := name)])))
          case SubtopicDelete(id) =>
            (match Find(db.subtopics, SubtopicId, id)
             case None => Outcome(NotFound, db)
             case Some(_) =>
               if Filter(db.questions, InSubtopic(id)) != [] then Outcome(SubtopicPhasePage(db.topics[k], rows, Some(DeleteSubtopicError)), db)
               else Outcome(Redirect(ToSubtopicPhase(t)), SubtopicDeleted(db, id)))
          case OtherSubtopicAction => Outcome(Redirect(ToSubtopicPhase(t)), db)
  }

  // ----- the question page of a subtopic -----

  /** The four option fields of the question form, in the order 1..4. */
  datatype OptionTexts = OptionTexts(option1: string, option2: string, option3: string, option4: string)

  function TextsOf(o: OptionTexts): seq<string> { [o.option1, o.option2, o.option3, o.option4] }

  /** The `correct_option` value that marks each option position correct. */
  const Choices: seq<string> := ["1", "2", "3", "4"]

  /** The four options `options_data` creates, with consecutive keys from `first`. */
  function OptionRows(first: int, q: int, texts: seq<string>, correct: string): seq<Option>
    requires |texts| <= |Choices|
  {
    seq(|texts|, k requires 0 <= k < |texts| => Option(first + k, q, texts[k], correct == Choices[k]))
  }

  /** One more form field adds one more option row, numbered next. */
  lemma OptionRowsSnoc(first: int, q: int, texts: seq<string>, k: nat, correct: string)
    requires k < |texts| <= |Choices|
    ensures OptionRows(first, q, texts[..k + 1], correct)
            == OptionRows(first, q, texts[..k], correct) + [Option(first + k, q, texts[k], correct == Choices[k])]
  {
    var a := OptionRows(first, q, texts[..k + 1], correct);
    var b := OptionRows(first, q, texts[..k], correct) + [Option(first + k, q, texts[k], correct == Choices[k])];
    assert |a| == |b|;
    forall j | 0 <= j < |a| ensures a[j] == b[j] {
      assert texts[..k + 1][j] == texts[j];
    }
  }

  /** `time_limit` defaults to 60 seconds when the form leaves it out. */
  const DefaultTimeLimit: int := 60

  function TimeLimitOf(t: Maybe<int>): int { if t.Some? then t.value else DefaultTimeLimit }

  datatype QuestionAction =
    | QuestionAdd(text: string, difficulty: Difficulty, timeLimit: Maybe<int>, texts: OptionTexts, correct: string)
    | QuestionEdit(questionId: int, text: string, difficulty: Difficulty, timeLimit: Maybe<int>,
                   texts: OptionTexts, correct: string)
    | QuestionDelete(questionId: int)
    | OtherQuestionAction

  /** The database with the four options of question `q` appended. */
  function OptionsAdded(db: Db, q: int, texts: OptionTexts, correct: string): Db
  {
    db.(options := db.options + OptionRows(db.nextOption, q, TextsOf(texts), correct),
        nextOption := db.nextOption + 4)
  }

  /** `add_question`: one question, then its four options. */
  function QuestionAdded(db: Db, s: int, text: string, d: Difficulty, timeLimit: Maybe<int>, user: int,
                         texts: OptionTexts, correct: string): Db
  {
    var q := Question(db.nextQuestion, s, d, text, TimeLimitOf(timeLimit), Some(user));
    OptionsAdded(db.(questions := db.questions + [q], nextQuestion := db.nextQuestion + 1), q.id, texts, correct)
  }

  /** The keys of the options of question `q`. */
  function OptionIdsOf(db: Db, q: int): set<int>
  {
    Ids(Filter(db.options, OfQuestion(q)), OptionId)
  }

  /**
    `edit_question` on the question at position `i`: save the new fields,
    delete its options (CASCADE takes the answers that chose them), create
    four new ones.
   */
  function QuestionEdited(db: Db, i: nat, text: string, d: Difficulty, timeLimit: Maybe<int>,
                          texts: OptionTexts, correct: string): Db
    requires i < |db.questions|
  {
    var q := db.questions[i];
    var saved := db.(questions := db.questions[i := q.(text := text, difficulty := d, timeLimit := TimeLimitOf(timeLimit))]);
    var cleared := Purged(saved, Cascade({}, {}, {}, OptionIdsOf(saved, q.id), saved.subtopics, saved.questions, saved.options));
    OptionsAdded(cleared, q.id, texts, correct)
  }

  /** `question.delete()`: CASCADE from that one question. */
  function QuestionDeleted(db: Db, id: int): Db
  {
    Purged(db, Cascade({}, {}, {id}, {}, db.subtopics, db.questions, db.options))
  }

  /** The `difficulty` query parameter, `all` when absent. */
  function FilterOf(p: Maybe<string>): string { if p.Some? then p.value else "all" }

  /** The questions `question_phase_view` lists, in ascending id order. */
  function PhaseQuestions(db: Db, s: int, filter: string): seq<Question>
  {
    if filter == "all" then Filter(db.questions, InSubtopic(s)) else Filter(db.questions, InQuiz(s, filter))
  }

  /** `question_data`. */
  function QuestionRows(db: Db, qs: seq<Question>): (r: seq<QuestionRow>)
    ensures |r| == |qs|
    ensures forall k :: 0 <= k < |qs| ==> r[k].question == qs[k]
    ensures forall k :: 0 <= k < |qs| ==> forall o :: o in r[k].options <==> o in db.options && o.question == qs[k].id
  {
    seq(|qs|, k requires 0 <= k < |qs| => QuestionRow(qs[k], Filter(db.options, OfQuestion(qs[k].id))))
  }

  /** `question_phase_view`. The question an edit or delete names need not belong to `s`. */
  function QuestionPhaseOutcome(db: Db, v: Visitor, s: int, param: Maybe<string>,
                                post: Maybe<QuestionAction>): Outcome
  {
    match BossRequired(db, v)
    case Deny(r) => Outcome(r, db)
    case Admit(user) =>
      match Find(db.subtopics, SubtopicId, s)
      case None => Outcome(NotFound, db)
      case Some(k) =>
        var filter := FilterOf(param);
        if post.None? then
          Outcome(QuestionPhasePage(db.subtopics[k], filter, QuestionRows(db, PhaseQuestions(db, s, filter))), db)
        else
          var back := Redirect(ToQuestionPhase(s, filter));
          match post.value
          case QuestionAdd(text, d, tl, texts, correct) =>
            Outcome(back, QuestionAdded(db, s, text, d, tl, user.id, texts, correct))
          case QuestionEdit(id, text, d, tl, texts, correct) =>
            (match Find(db.questions, QuestionId, id)
             case None => Outcome(NotFound, db)
             case Some(i) => Outcome(back, QuestionEdited(db, i, text, d, tl, texts, correct)))
          case QuestionDelete(id) =>
            (match Find(db.questions, QuestionId, id)
             case None => Outcome(NotFound, db)
             case Some(_) => Outcome(back, QuestionDeleted(db, id)))
          case OtherQuestionAction => Outcome(back, db)
  }

  // ===== what the outcomes mean =====

  // ----- the gates -----

  /** A curator page run by anyone but a boss answers with the gate's response and changes nothing. */
  lemma CuratorPagesNeedBoss(db: Db, v: Visitor, pd: Maybe<DashboardAction>, t: int, rows: seq<SubtopicRow>,
                             ps: Maybe<SubtopicAction>, s: int, param: Maybe<string>, pq: Maybe<QuestionAction>)
    requires !(CurrentUser(db, v).Some? && CurrentUser(db, v).value.role == Boss)
    ensures var r := if CurrentUser(db, v).None? then LoginRedirect else Forbidden;
            && DashboardOutcome(db, v, pd) == Outcome(r, db)
            && SubtopicPhaseOutcome(db, v, t, rows, ps) == Outcome(r, db)
            && QuestionPhaseOutcome(db, v, s, param, pq) == Outcome(r, db)
  {
  }

  /** A signed-in student is refused every curator page. */
  lemma StudentsAreForbidden(db: Db, v: Visitor)
    requires CurrentUser(db, v).Some? && CurrentUser(db, v).value.role == Student
    ensures BossRequired(db, v) == Deny(Forbidden)
  {
  }

  /** The learner pages send anonymous visitors to the login page and change nothing. */
  lemma LearnerPagesNeedLogin(db: Db, v: Visitor, variant: Variant, s: int, difficulty: string, qIndex: nat,
                              post: Maybe<Submission>)
    requires CurrentUser(db, v).None?
    ensures HomeOutcome(db, v) == Outcome(LoginRedirect, db)
    ensures PracticeOutcome(db, v, variant, s, difficulty, qIndex, post) == Outcome(LoginRedirect, db)
  {
  }

  // ----- the home page -----

  /**
    The three home lists together show every topic whose name is not on the
    denylist, each in the list of its own category and in no other.
   */
  lemma HomeListsPartitionTopics(db: Db, v: Visitor)
    requires CurrentUser(db, v).Some?
    ensures var p := HomeOutcome(db, v).response;
            && p.HomePage?
            && (forall t :: t in db.topics ==> (t in p.common || t in p.it || t in p.govt <==> t.name !in ExcludedTopics))
            && (forall t :: t in p.common ==> t.category == Common && t !in p.it && t !in p.govt)
            && (forall t :: t in p.it ==> t.category == ItSpecific && t !in p.govt)
            && (forall t :: t in p.govt ==> t.category == GovtSpecific)
  {
    var p := HomeOutcome(db, v).response;
    forall t | t in db.topics && t.name !in ExcludedTopics ensures t in p.common || t in p.it || t in p.govt {
      match t.category
      case Common => assert t in CategoryList(db, Common);
      case ItSpecific => assert t in CategoryList(db, ItSpecific);
      case GovtSpecific => assert t in CategoryList(db, GovtSpecific);
    }
  }

  // ----- practice runs -----

  /** A run lists exactly the subtopic's questions of that difficulty, in ascending id order. */
  lemma QuizInIdOrder(db: Db, s: int, difficulty: string)
    requires db.Ok()
    ensures IncreasingBy(QuizQuestions(db, s, difficulty), QuestionId)
    ensures forall q :: q in QuizQuestions(db, s, difficulty) <==>
                        q in db.questions && q.subtopic == s && DifficultyName(q.difficulty) == difficulty
  {
    FilterIncreasing(db.questions, InQuiz(s, difficulty), QuestionId);
  }

  /** A difficulty that is not one of the three choices matches no question: every index shows "no questions". */
  lemma UnknownDifficultyHasNoQuestions(db: Db, v: Visitor, variant: Variant, s: int, difficulty: string,
                                        qIndex: nat, post: Maybe<Submission>)
    requires difficulty !in DifficultyNames
    requires CurrentUser(db, v).Some? && s in Ids(db.subtopics, SubtopicId)
    ensures QuizQuestions(db, s, difficulty) == []
    ensures var o := PracticeOutcome(db, v, variant, s, difficulty, qIndex, post);
            o.response.NoQuestionsPage? && o.db == db
  {
    forall q | q in db.questions ensures !InQuiz(s, difficulty)(q) {
      assert DifficultyName(q.difficulty) in DifficultyNames;
    }
    FilterKeepsNone(db.questions, InQuiz(s, difficulty));
  }

  /** Once a run is completed it stays completed, and every position before that shows its own question. */
  lemma RunVisitsEachQuestionOnce(qs: seq<Question>, qIndex: nat)
    ensures StepAt(qs, qIndex) == Completed ==> StepAt(qs, qIndex + 1) == Completed
    ensures StepAt(qs, qIndex) == NoQuestions ==> StepAt(qs, qIndex + 1) == NoQuestions
    ensures qs != [] ==> seq(|qs|, (i: int) requires 0 <= i < |qs| => StepAt(qs, i).question) == qs
  {
  }

  /**
    A submitted answer at a position of the run is recorded once, for the
    signed-in user and that question, with the correctness of the option
    chosen, looked up by its key alone: it need not be an option of that
    question. The user then goes on to the next position.
   */
  lemma SubmissionRecordsOneAnswer(db: Db, v: Visitor, variant: Variant, s: int, difficulty: string,
                                   qIndex: nat, sub: Submission)
    requires CurrentUser(db, v).Some? && s in Ids(db.subtopics, SubtopicId)
    requires qIndex < |QuizQuestions(db, s, difficulty)|
    requires sub.optionId in Ids(db.options, OptionId)
    ensures var o := PracticeOutcome(db, v, variant, s, difficulty, qIndex, Some(sub));
            var q := QuizQuestions(db, s, difficulty)[qIndex];
            && o.response == Redirect(NextTarget(variant, s, difficulty, qIndex + 1))
            && exists opt :: opt in db.options && opt.id == sub.optionId
                 && o.db == db.(answers := db.answers + [UserAnswer(db.nextAnswer, v.id, q.id, sub.optionId, opt.isCorrect,
                                                                   if sub.timeTaken.Some? then sub.timeTaken.value else 0)],
                                nextAnswer := db.nextAnswer + 1)
  {
    var j := Find(db.options, OptionId, sub.optionId).value;
    assert db.options[j] in db.options;
  }

  /** An answer naming an option that does not exist is refused with 404 and records nothing. */
  lemma UnknownOptionRecordsNothing(db: Db, v: Visitor, variant: Variant, s: int, difficulty: string,
                                    qIndex: nat, sub: Submission)
    requires CurrentUser(db, v).Some? && s in Ids(db.subtopics, SubtopicId)
    requires qIndex < |QuizQuestions(db, s, difficulty)|
    requires sub.optionId !in Ids(db.options, OptionId)
    ensures PracticeOutcome(db, v, variant, s, difficulty, qIndex, Some(sub)) == Outcome(NotFound, db)
  {
  }

  /** Past the end of the run, or in a run without questions, a POST changes nothing. */
  lemma NoAnswerOutsideRun(db: Db, v: Visitor, variant: Variant, s: int, difficulty: string,
                           qIndex: nat, post: Maybe<Submission>)
    requires qIndex >= |QuizQuestions(db, s, difficulty)|
    ensures PracticeOutcome(db, v, variant, s, difficulty, qIndex, post).db == db
  {
  }

  /** An answer adds one to `solved` exactly when it is the user's and its question is in the run. */
  lemma SolvedCountsAnswerRows(db: Db, u: int, qs: seq<Question>, a: UserAnswer)
    ensures var after := ProgressOf(db.(answers := db.answers + [a]), u, qs);
            && after.total == ProgressOf(db, u, qs).total
            && after.solved == ProgressOf(db, u, qs).solved + (if a.user == u && a.question in Ids(qs, QuestionId) then 1 else 0)
  {
    FilterAppend(db.answers, a, AnswerIn(u, Ids(qs, QuestionId)));
  }

  /** Answering the only question of a run twice leaves "remaining" at -1. */
  lemma RepeatAnswersMakeRemainingNegative(db: Db, u: int, q: Question, a1: UserAnswer, a2: UserAnswer)
    requires db.answers == [a1, a2]
    requires a1.user == u && a2.user == u && a1.question == q.id && a2.question == q.id
    ensures ProgressOf(db, u, [q]) == Progress(1, 2, -1)
  {
    var keep := AnswerIn(u, Ids([q], QuestionId));
    assert q in [q] && QuestionId(q) == q.id;
    assert [a1, a2] == [a1] + [a2];
    assert [] + [a1] == [a1];
    FilterAppend([], a1, keep);
    FilterAppend([a1], a2, keep);
  }

  // ----- signup -----

  /**
    A signup changes nothing exactly when the username or the email is
    already taken as sent, or `create_user` fails: an empty username, or an
    email taken once normalised. The first case shows the form again with
    each of the two flagged, the second is a server error, and otherwise
    one student is appended, with the email normalised, and the visitor
    goes home.
   */
  lemma SignupRefusesTakenNames(db: Db, f: SignupForm)
    ensures var o := SignupOutcome(db, Some(f));
            var taken := UsernameTaken(db.users, f.username) || EmailTaken(db.users, f.email);
            var fails := f.username == "" || EmailTaken(db.users, NormalizeEmail(f.email));
            && (o.db == db <==> taken || fails)
            && (taken ==> o.response == SignupPage(UsernameTaken(db.users, f.username), EmailTaken(db.users, f.email)))
            && (!taken && fails ==> o.response == ServerError)
            && (!taken && !fails ==> && o.response == Redirect(ToHome)
                                     && o.db == db.(users := db.users + [User(db.nextUser, f.username, NormalizeEmail(f.email), Student)],
                                                    nextUser := db.nextUser + 1))
  {
    var o := SignupOutcome(db, Some(f));
    if !(UsernameTaken(db.users, f.username) || EmailTaken(db.users, f.email)) {
      if f.username == "" || EmailTaken(db.users, NormalizeEmail(f.email)) {
        assert CreateUserFails(db.users, f.username, f.email);
      } else {
        assert !CreateUserFails(db.users, f.username, f.email);
        assert |o.db.users| == |db.users| + 1;
      }
    }
  }

  /**
    An address the form's check lets through can still clash once its
    domain is lower-cased: the INSERT then fails and no user is added.
   */
  lemma DomainCaseClashIsServerError(db: Db)
    requires db.users == [User(1, "ann", "ann@example.com", Student)]
    ensures SignupOutcome(db, Some(SignupForm("bob", "ann@EXAMPLE.com"))) == Outcome(ServerError, db)
  {
    DomainCaseFolded();
    assert !EmailTaken(db.users, "ann@EXAMPLE.com") by {
      assert "ann@example.com" != "ann@EXAMPLE.com" by { assert "ann@example.com"[4] != "ann@EXAMPLE.com"[4]; }
    }
    assert !UsernameTaken(db.users, "bob");
    assert db.users[0].email == NormalizeEmail("ann@EXAMPLE.com");
  }

  /** A signup keeps every key and UNIQUE constraint of the database. */
  lemma SignupKeepsIntegrity(db: Db, post: Maybe<SignupForm>)
    requires db.Ok()
    ensures SignupOutcome(db, post).db.Ok()
  {
    if post.Some? && !UsernameTaken(db.users, post.value.username) && !EmailTaken(db.users, post.value.email)
       && !CreateUserFails(db.users, post.value.username, post.value.email) {
      var f := post.value;
      var u := User(db.nextUser, f.username, NormalizeEmail(f.email), Student);
      AppendKeyed(db.users, u, UserId, db.nextUser);
      AppendUnique(db.users, u, UserEmail);
      AppendUnique(db.users, u, UserNameOf);
    }
  }

  /** A successful signup adds one to the dashboard's student count, and the new account is no curator. */
  lemma SignupMakesOneStudent(db: Db, f: SignupForm)
    requires db.Ok()
    requires !UsernameTaken(db.users, f.username) && !EmailTaken(db.users, f.email)
    requires f.username != "" && !EmailTaken(db.users, NormalizeEmail(f.email))
    ensures var after := SignupOutcome(db, Some(f)).db;
            && StatsOf(after).students == StatsOf(db).students + 1
            && BossRequired(after, SignedIn(db.nextUser)) == Deny(Forbidden)
  {
    var u := User(db.nextUser, f.username, NormalizeEmail(f.email), Student);
    assert !CreateUserFails(db.users, f.username, f.email);
    var after := SignupOutcome(db, Some(f)).db;
    assert after.users == db.users + [u];
    FilterAppend(db.users, u, IsStudent());
    AppendKeyed(db.users, u, UserId, db.nextUser);
    var me := CurrentUser(after, SignedIn(db.nextUser));
    assert me.Some?;
    assert me.value == u;
  }

  // ----- the dashboard -----

  /**
    `add_topic` appends one topic authored by the curator and never edited,
    ordered after every existing topic, one above the largest order there
    is (1 on an empty table); nothing else changes.
   */
  lemma AddedTopicGoesLast(db: Db, v: Visitor, name: string, c: Category)
    requires BossRequired(db, v).Admit?
    ensures var o := DashboardOutcome(db, v, Some(TopicAdd(name, c)));
            && o.response == Redirect(ToDashboard)
            && |o.db.topics| == |db.topics| + 1
            && var t := o.db.topics[|db.topics|];
            && o.db == db.(topics := db.topics + [t], nextTopic := db.nextTopic + 1)
            && t.id == db.nextTopic && t.name == name && t.category == c
            && t.createdBy == Some(v.id) && t.updatedBy == None
            && (forall x :: x in db.topics ==> x.displayOrder < t.displayOrder)
            && (db.topics == [] ==> t.displayOrder == 1)
            && (db.topics != [] ==> exists x :: x in db.topics && x.displayOrder == t.displayOrder - 1)
  {
    var n := NextDisplayOrder(db.topics, TopicOrder);
    if db.topics != [] {
      var i :| 0 <= i < |db.topics| && TopicOrder(db.topics[i]) == n - 1;
      assert db.topics[i] in db.topics;
    }
  }

  /** Renaming a topic rewrites that one row in place; its author and last editor stay as they were. */
  lemma EditedTopicKeepsItsPlace(db: Db, v: Visitor, id: int, name: string, c: Category)
    requires BossRequired(db, v).Admit? && id in Ids(db.topics, TopicId)
    ensures var o := DashboardOutcome(db, v, Some(TopicEdit(id, name, c)));
            && o.response == Redirect(ToDashboard)
            && exists i :: 0 <= i < |db.topics| && db.topics[i].id == id
                 && o.db == db.(topics := db.topics[i := Topic(id, name, c, db.topics[i].displayOrder,
                                                               db.topics[i].createdBy, db.topics[i].updatedBy)])
  {
    var i := Find(db.topics, TopicId, id).value;
    assert db.topics[i].id == id;
  }

  /** A topic that still has subtopics is not deleted: the dashboard is shown again with the error. */
  lemma DeleteTopicRefusedWhileSubtopicsExist(db: Db, v: Visitor, id: int)
    requires BossRequired(db, v).Admit? && id in Ids(db.topics, TopicId)
    requires exists s :: s in db.subtopics && s.topic == id
    ensures DashboardOutcome(db, v, Some(TopicDelete(id)))
            == Outcome(DashboardPage(SortBy(db.topics, TopicOrder), StatsOf(db), Some(DeleteTopicError)), db)
  {
    var s :| s in db.subtopics && s.topic == id;
    assert s in Filter(db.subtopics, OfTopic(id));
  }

  /** CASCADE from a topic without subtopics reaches no other row. */
  lemma TopicDeletedDropsOneRow(db: Db, id: int, i: nat)
    requires IncreasingBy(db.topics, TopicId) && i < |db.topics| && db.topics[i].id == id
    requires forall s :: s in db.subtopics ==> s.topic != id
    ensures TopicDeleted(db, id) == db.(topics := db.topics[..i] + db.topics[i + 1..])
  {
    var d := Cascade({id}, {}, {}, {}, db.subtopics, db.questions, db.options);
    assert d == Doomed({id}, {}, {}, {});
    PurgeTouchesOnly(db, d);
    forall j | 0 <= j < |db.topics| && j != i ensures KeepTopic(d)(db.topics[j]) {
      assert j < i ==> db.topics[j].id < id;
      assert j > i ==> db.topics[j].id > id;
    }
    FilterDropsOne(db.topics, KeepTopic(d), i);
  }

  /** Deleting a topic without subtopics removes that one row and touches no other table. */
  lemma DeleteTopicRemovesOnlyIt(db: Db, v: Visitor, id: int)
    requires IncreasingBy(db.topics, TopicId) && BossRequired(db, v).Admit? && id in Ids(db.topics, TopicId)
    requires forall s :: s in db.subtopics ==> s.topic != id
    ensures var o := DashboardOutcome(db, v, Some(TopicDelete(id)));
            && o.response == Redirect(ToDashboard)
            && exists i :: 0 <= i < |db.topics| && db.topics[i].id == id
                 && o.db == db.(topics := db.topics[..i] + db.topics[i + 1..])
  {
    FilterKeepsNone(db.subtopics, OfTopic(id));
    assert DashboardOutcome(db, v, Some(TopicDelete(id))) == Outcome(Redirect(ToDashboard), TopicDeleted(db, id));
    var i := Find(db.topics, TopicId, id).value;
    TopicDeletedDropsOneRow(db, id, i);
  }

  // ----- the subtopic page -----

  /** The three per-difficulty counts of a subtopic add up to all its questions. */
  lemma {:induction false} LevelCountsPartition(questions: seq<Question>, s: int)
    ensures LevelCount(questions, s, Easy) + LevelCount(questions, s, Medium) + LevelCount(questions, s, Hard)
            == |Filter(questions, InSubtopic(s))|
    decreases |questions|
  {
    if questions != [] {
      LevelCountsPartition(questions[1..], s);
    }
  }

  /** A line of `subtopic_data` counts every question of its subtopic in `total`, each difficulty apart. */
  lemma RowCountsEveryQuestion(db: Db, sub: Subtopic)
    ensures var r := RowOf(db, sub);
            && r.subtopic == sub
            && r.total == |Filter(db.questions, InSubtopic(sub.id))|
            && r.easy == |Filter(db.questions, AtLevel(sub.id, Easy))|
            && r.medium == |Filter(db.questions, AtLevel(sub.id, Medium))|
            && r.hard == |Filter(db.questions, AtLevel(sub.id, Hard))|
  {
    LevelCountsPartition(db.questions, sub.id);
  }

  /**
    `add_subtopic` appends one subtopic of topic `t`, authored by the
    curator, ordered after the other subtopics of `t` only (1 when it is
    the first), one above their largest order; nothing else changes.
   */
  lemma AddedSubtopicGoesLastInItsTopic(db: Db, v: Visitor, t: int, rows: seq<SubtopicRow>, name: string)
    requires BossRequired(db, v).Admit? && t in Ids(db.topics, TopicId)
    ensures var o := SubtopicPhaseOutcome(db, v, t, rows, Some(SubtopicAdd(name)));
            && o.response == Redirect(ToSubtopicPhase(t))
            && |o.db.subtopics| == |db.subtopics| + 1
            && var s := o.db.subtopics[|db.subtopics|];
            && o.db == db.(subtopics := db.subtopics + [s], nextSubtopic := db.nextSubtopic + 1)
            && s.id == db.nextSubtopic && s.topic == t && s.name == name
            && s.createdBy == Some(v.id) && s.updatedBy == None
            && (forall x :: x in db.subtopics && x.topic == t ==> x.displayOrder < s.displayOrder)
            && ((forall x :: x in db.subtopics ==> x.topic != t) ==> s.displayOrder == 1)
            && ((exists x :: x in db.subtopics && x.topic == t) ==>
                  exists x :: x in db.subtopics && x.topic == t && x.displayOrder == s.displayOrder - 1)
  {
    assert SubtopicPhaseOutcome(db, v, t, rows, Some(SubtopicAdd(name)))
           == Outcome(Redirect(ToSubtopicPhase(t)), SubtopicAdded(db, t, name, v.id));
    SiblingOrder(db.subtopics, t);
  }

  /** The display order `add_subtopic` picks, against the subtopics of `t` only. */
  lemma SiblingOrder(subs: seq<Subtopic>, t: int)
    ensures var n := NextDisplayOrder(Filter(subs, OfTopic(t)), SubtopicOrder);
            && (forall x :: x in subs && x.topic == t ==> x.displayOrder < n)
            && ((forall x :: x in subs ==> x.topic != t) ==> n == 1)
            && ((exists x :: x in subs && x.topic == t) ==> exists x :: x in subs && x.topic == t && x.displayOrder == n - 1)
  {
    var sibs := Filter(subs, OfTopic(t));
    var n := NextDisplayOrder(sibs, SubtopicOrder);
    forall x | x in subs && x.topic == t ensures x.displayOrder < n {
      assert x in sibs;
    }
    if forall x :: x in subs ==> x.topic != t {
      FilterKeepsNone(subs, OfTopic(t));
    }
    if exists x :: x in subs && x.topic == t {
      var x :| x in subs && x.topic == t;
      assert x in sibs;
      var i :| 0 <= i < |sibs| && SubtopicOrder(sibs[i]) == n - 1;
      assert sibs[i] in sibs;
    }
  }

  /** Renaming a subtopic rewrites that one row in place, whichever topic it belongs to. */
  lemma EditedSubtopicKeepsItsPlace(db: Db, v: Visitor, t: int, rows: seq<SubtopicRow>, id: int, name: string)
    requires BossRequired(db, v).Admit? && t in Ids(db.topics, TopicId) && id in Ids(db.subtopics, SubtopicId)
    ensures var o := SubtopicPhaseOutcome(db, v, t, rows, Some(SubtopicEdit(id, name)));
            && o.response == Redirect(ToSubtopicPhase(t))
            && exists i :: 0 <= i < |db.subtopics| && db.subtopics[i].id == id
                 && o.db == db.(subtopics := db.subtopics[i := db.subtopics[i].(name := name)])
  {
    var i := Find(db.subtopics, SubtopicId, id).value;
    assert db.subtopics[i].id == id;
  }

  /** A subtopic that still has questions is not deleted: the page is shown again with the error. */
  lemma DeleteSubtopicRefusedWhileQuestionsExist(db: Db, v: Visitor, t: int, rows: seq<SubtopicRow>, id: int)
    requires BossRequired(db, v).Admit? && t in Ids(db.topics, TopicId) && id in Ids(db.subtopics, SubtopicId)
    requires exists q :: q in db.questions && q.subtopic == id
    ensures var o := SubtopicPhaseOutcome(db, v, t, rows, Some(SubtopicDelete(id)));
            && o.db == db
            && o.response.SubtopicPhasePage? && o.response.topic.id == t && o.response.topic in db.topics
            && o.response.subtopicData == rows && o.response.error == Some(DeleteSubtopicError)
  {
    var q :| q in db.questions && q.subtopic == id;
    assert q in Filter(db.questions, InSubtopic(id));
    var k := Find(db.topics, TopicId, t).value;
    assert db.topics[k] in db.topics;
  }

  /** CASCADE from a subtopic without questions takes its lessons, notes and resources and nothing else. */
  lemma SubtopicDeletedDropsItsLessons(db: Db, id: int, i: nat)
    requires IncreasingBy(db.subtopics, SubtopicId) && i < |db.subtopics| && db.subtopics[i].id == id
    requires forall q :: q in db.questions ==> q.subtopic != id
    ensures var after := SubtopicDeleted(db, id);
            && after.subtopics == db.subtopics[..i] + db.subtopics[i + 1..]
            && (forall x :: x in after.videos <==> x in db.videos && x.subtopic != id)
            && (forall x :: x in after.notes <==> x in db.notes && x.subtopic != id)
            && (forall x :: x in after.resources <==> x in db.resources && x.subtopic != id)
            && after == db.(subtopics := after.subtopics, videos := after.videos, notes := after.notes,
                            resources := after.resources)
  {
    var d := Cascade({}, {id}, {}, {}, db.subtopics, db.questions, db.options);
    assert d == Doomed({}, {id}, {}, {});
    PurgeTouchesOnly(db, d);
    FilterDropsOne(db.subtopics, KeepSubtopic(d), i);
  }

  /** The delete action of the subtopic page on a subtopic without questions is `subtopic.delete()`. */
  lemma SubtopicDeleteRuns(db: Db, v: Visitor, t: int, rows: seq<SubtopicRow>, id: int)
    requires BossRequired(db, v).Admit? && t in Ids(db.topics, TopicId) && id in Ids(db.subtopics, SubtopicId)
    requires forall q :: q in db.questions ==> q.subtopic != id
    ensures SubtopicPhaseOutcome(db, v, t, rows, Some(SubtopicDelete(id)))
            == Outcome(Redirect(ToSubtopicPhase(t)), SubtopicDeleted(db, id))
  {
    FilterKeepsNone(db.questions, InSubtopic(id));
  }

  /** Deleting a subtopic without questions removes that one row, in place of it nothing. */
  lemma DeleteSubtopicRemovesItsRow(db: Db, v: Visitor, t: int, rows: seq<SubtopicRow>, id: int)
    requires IncreasingBy(db.subtopics, SubtopicId)
    requires BossRequired(db, v).Admit? && t in Ids(db.topics, TopicId) && id in Ids(db.subtopics, SubtopicId)
    requires forall q :: q in db.questions ==> q.subtopic != id
    ensures var o := SubtopicPhaseOutcome(db, v, t, rows, Some(SubtopicDelete(id)));
            && o.response == Redirect(ToSubtopicPhase(t))
            && exists i :: 0 <= i < |db.subtopics| && db.subtopics[i].id == id
                 && o.db.subtopics == db.subtopics[..i] + db.subtopics[i + 1..]
  {
    SubtopicDeleteRuns(db, v, t, rows, id);
    var i := Find(db.subtopics, SubtopicId, id).value;
    SubtopicDeletedDropsItsLessons(db, id, i);
  }

  /**
    Deleting a subtopic without questions takes exactly its video lessons,
    notes and resources with it; no table but these and the subtopics changes.
   */
  lemma DeleteSubtopicCascadesToLessons(db: Db, v: Visitor, t: int, rows: seq<SubtopicRow>, id: int)
    requires IncreasingBy(db.subtopics, SubtopicId)
    requires BossRequired(db, v).Admit? && t in Ids(db.topics, TopicId) && id in Ids(db.subtopics, SubtopicId)
    requires forall q :: q in db.questions ==> q.subtopic != id
    ensures var after := SubtopicPhaseOutcome(db, v, t, rows, Some(SubtopicDelete(id))).db;
            && (forall x :: x in after.videos <==> x in db.videos && x.subtopic != id)
            && (forall x :: x in after.notes <==> x in db.notes && x.subtopic != id)
            && (forall x :: x in after.resources <==> x in db.resources && x.subtopic != id)
            && after == db.(subtopics := after.subtopics, videos := after.videos, notes := after.notes,
                            resources := after.resources)
  {
    SubtopicDeleteRuns(db, v, t, rows, id);
    var i := Find(db.subtopics, SubtopicId, id).value;
    SubtopicDeletedDropsItsLessons(db, id, i);
  }

  // ----- the question page -----

  /**
    The four options of the form: keys `first`..`first + 3`, all of question
    `q`, with the four texts in order, and at most one correct; one is
    correct exactly when `correct_option` names a position 1 to 4.
   */
  lemma FormOptionsHaveOneAnswer(first: int, q: int, texts: OptionTexts, correct: string)
    ensures var r := OptionRows(first, q, TextsOf(texts), correct);
            && |r| == 4
            && r[0].text == texts.option1 && r[1].text == texts.option2
            && r[2].text == texts.option3 && r[3].text == texts.option4
            && (forall k :: 0 <= k < 4 ==> r[k].id == first + k && r[k].question == q)
            && (forall i, j :: 0 <= i < j < 4 ==> !(r[i].isCorrect && r[j].isCorrect))
            && ((exists k :: 0 <= k < 4 && r[k].isCorrect) <==> correct in {"1", "2", "3", "4"})
  {
    var r := OptionRows(first, q, TextsOf(texts), correct);
    if correct in {"1", "2", "3", "4"} {
      var k := if correct == "1" then 0 else if correct == "2" then 1 else if correct == "3" then 2 else 3;
      assert r[k].isCorrect;
    }
  }

  /** The add action of the question page is `add_question`. */
  lemma QuestionAddRuns(db: Db, v: Visitor, s: int, param: Maybe<string>, text: string, d: Difficulty,
                        tl: Maybe<int>, texts: OptionTexts, correct: string)
    requires BossRequired(db, v).Admit? && s in Ids(db.subtopics, SubtopicId)
    ensures QuestionPhaseOutcome(db, v, s, param, Some(QuestionAdd(text, d, tl, texts, correct)))
            == Outcome(Redirect(ToQuestionPhase(s, FilterOf(param))), QuestionAdded(db, s, text, d, tl, v.id, texts, correct))
  {
  }

  /**
    `add_question` appends one question of subtopic `s` authored by the
    curator (time limit 60 when the form leaves it out), whose options are
    then exactly the four of the form; the options of every other question
    stay as they were, and no other table changes.
   */
  lemma AddedQuestionGetsFormOptions(db: Db, v: Visitor, s: int, param: Maybe<string>, text: string, d: Difficulty,
                                     tl: Maybe<int>, texts: OptionTexts, correct: string)
    requires db.Ok() && BossRequired(db, v).Admit? && s in Ids(db.subtopics, SubtopicId)
    ensures var o := QuestionPhaseOutcome(db, v, s, param, Some(QuestionAdd(text, d, tl, texts, correct)));
            var q := Question(db.nextQuestion, s, d, text, if tl.Some? then tl.value else 60, Some(v.id));
            && o.response == Redirect(ToQuestionPhase(s, FilterOf(param)))
            && o.db.questions == db.questions + [q]
            && Filter(o.db.options, OfQuestion(q.id)) == OptionRows(db.nextOption, q.id, TextsOf(texts), correct)
            && (forall k :: k != q.id ==> Filter(o.db.options, OfQuestion(k)) == Filter(db.options, OfQuestion(k)))
            && o.db == db.(questions := o.db.questions, nextQuestion := db.nextQuestion + 1,
                           options := o.db.options, nextOption := db.nextOption + 4)
  {
    QuestionAddRuns(db, v, s, param, text, d, tl, texts, correct);
    var id := db.nextQuestion;
    forall x | x in db.options ensures x.question != id {
      assert x.question in Ids(db.questions, QuestionId);
    }
    AppendedOptionsOfQuestion(db.options, OptionRows(db.nextOption, id, TextsOf(texts), correct), id);
  }

  /**
    Options appended for a question no earlier option belongs to are that
    question's options, and every other question keeps its own.
   */
  lemma AppendedOptionsOfQuestion(options: seq<Option>, rows: seq<Option>, id: int)
    requires forall x :: x in options ==> x.question != id
    requires forall x :: x in rows ==> x.question == id
    ensures Filter(options + rows, OfQuestion(id)) == rows
    ensures forall k :: k != id ==> Filter(options + rows, OfQuestion(k)) == Filter(options, OfQuestion(k))
  {
    FilterConcat(options, rows, OfQuestion(id));
    FilterKeepsNone(options, OfQuestion(id));
    FilterKeepsAll(rows, OfQuestion(id));
    forall k | k != id ensures Filter(options + rows, OfQuestion(k)) == Filter(options, OfQuestion(k)) {
      FilterConcat(options, rows, OfQuestion(k));
      FilterKeepsNone(rows, OfQuestion(k));
    }
  }

  /** The keys of the options of question `q` are those of its rows in the options table. */
  lemma OptionIdsOfMeans(db: Db, q: int)
    requires IncreasingBy(db.options, OptionId)
    ensures forall o :: o in db.options ==> (o.id in OptionIdsOf(db, q) <==> o.question == q)
  {
    IncreasingUnique(db.options, OptionId);
    forall o | o in db.options && o.id in OptionIdsOf(db, q) ensures o.question == q {
      var y :| y in Filter(db.options, OfQuestion(q)) && OptionId(y) == o.id;
    }
    forall o | o in db.options && o.question == q ensures o.id in OptionIdsOf(db, q) {
      assert o in Filter(db.options, OfQuestion(q));
    }
  }

  /** CASCADE from one question reaches exactly its options. */
  lemma CascadeFromQuestion(db: Db, id: int)
    requires IncreasingBy(db.options, OptionId)
    ensures Cascade({}, {}, {id}, {}, db.subtopics, db.questions, db.options) == Doomed({}, {}, {id}, OptionIdsOf(db, id))
  {
    var d := Cascade({}, {}, {id}, {}, db.subtopics, db.questions, db.options);
    assert d.topics == {} && d.subtopics == {} && d.questions == {id};
    OptionIdsOfMeans(db, id);
    assert d.options == OptionIdsOf(db, id);
  }

  /**
    CASCADE from one question takes its options, and the answers given to it
    or choosing one of its options; no other table changes.
   */
  lemma QuestionDeletedTakesItsOptions(db: Db, id: int, i: nat)
    requires IncreasingBy(db.questions, QuestionId) && IncreasingBy(db.options, OptionId)
    requires i < |db.questions| && db.questions[i].id == id
    ensures var after := QuestionDeleted(db, id);
            && after.questions == db.questions[..i] + db.questions[i + 1..]
            && (forall x :: x in after.options <==> x in db.options && x.question != id)
            && (forall a :: a in after.answers <==> a in db.answers && a.question != id && a.option !in OptionIdsOf(db, id))
            && after == db.(questions := after.questions, options := after.options, answers := after.answers)
  {
    var d := Doomed({}, {}, {id}, OptionIdsOf(db, id));
    CascadeFromQuestion(db, id);
    assert QuestionDeleted(db, id) == Purged(db, d);
    PurgeTouchesOnly(db, d);
    forall j | 0 <= j < |db.questions| && j != i ensures KeepQuestion(d)(db.questions[j]) {
      assert j < i ==> db.questions[j].id < id;
      assert j > i ==> db.questions[j].id > id;
    }
    FilterDropsOne(db.questions, KeepQuestion(d), i);
  }

  /** The delete action of the question page is `question.delete()`. */
  lemma QuestionDeleteRuns(db: Db, v: Visitor, s: int, param: Maybe<string>, id: int)
    requires BossRequired(db, v).Admit? && s in Ids(db.subtopics, SubtopicId) && id in Ids(db.questions, QuestionId)
    ensures QuestionPhaseOutcome(db, v, s, param, Some(QuestionDelete(id)))
            == Outcome(Redirect(ToQuestionPhase(s, FilterOf(param))), QuestionDeleted(db, id))
  {
  }

  /**
    Deleting a question removes that row, its options and every answer
    given to it or choosing one of its options; nothing else changes.
   */
  lemma DeleteQuestionCascades(db: Db, v: Visitor, s: int, param: Maybe<string>, id: int)
    requires IncreasingBy(db.questions, QuestionId) && IncreasingBy(db.options, OptionId)
    requires BossRequired(db, v).Admit? && s in Ids(db.subtopics, SubtopicId) && id in Ids(db.questions, QuestionId)
    ensures var o := QuestionPhaseOutcome(db, v, s, param, Some(QuestionDelete(id)));
            && o.response == Redirect(ToQuestionPhase(s, FilterOf(param)))
            && (exists i :: 0 <= i < |db.questions| && db.questions[i].id == id
                  && o.db.questions == db.questions[..i] + db.questions[i + 1..])
            && (forall x :: x in o.db.options <==> x in db.options && x.question != id)
            && (forall a :: a in o.db.answers <==> a in db.answers && a.question != id && a.option !in OptionIdsOf(db, id))
            && o.db == db.(questions := o.db.questions, options := o.db.options, answers := o.db.answers)
  {
    QuestionDeleteRuns(db, v, s, param, id);
    var i := Find(db.questions, QuestionId, id).value;
    QuestionDeletedTakesItsOptions(db, id, i);
  }

  /**
    Dropping the options whose keys are `ids`, exactly those of question
    `id`, and appending `rows` of question `id` gives that question the
    options `rows` and leaves those of every other question alone.
   */
  lemma ReplacedOptions(options: seq<Option>, id: int, ids: set<int>, rows: seq<Option>)
    requires IncreasingBy(options, OptionId)
    requires forall o :: o in options ==> (o.id in ids <==> o.question == id)
    requires forall r :: r in rows ==> r.question == id
    ensures var after := Filter(options, KeepOption(Doomed({}, {}, {}, ids))) + rows;
            && Filter(after, OfQuestion(id)) == rows
            && forall k :: k != id ==> Filter(after, OfQuestion(k)) == Filter(options, OfQuestion(k))
  {
    var keep := KeepOption(Doomed({}, {}, {}, ids));
    var kept := Filter(options, keep);
    FilterConcat(kept, rows, OfQuestion(id));
    FilterKeepsNone(kept, OfQuestion(id));
    FilterKeepsAll(rows, OfQuestion(id));
    forall k | k != id ensures Filter(kept + rows, OfQuestion(k)) == Filter(options, OfQuestion(k)) {
      FilterConcat(kept, rows, OfQuestion(k));
      FilterKeepsNone(rows, OfQuestion(k));
      FilterTwice(options, keep, OfQuestion(k), OfQuestion(k));
      assert Filter(kept, OfQuestion(k)) + [] == Filter(kept, OfQuestion(k));
    }
  }

  /** The first two steps of `edit_question`: the save, then the delete of the old options. */
  lemma OldOptionsCleared(db: Db, i: nat, text: string, d: Difficulty, tl: Maybe<int>)
    requires i < |db.questions|
    ensures var q := db.questions[i];
            var saved := db.(questions := db.questions[i := q.(text := text, difficulty := d, timeLimit := TimeLimitOf(tl))]);
            var dd := Doomed({}, {}, {}, OptionIdsOf(db, q.id));
            Purged(saved, Cascade({}, {}, {}, OptionIdsOf(saved, q.id), saved.subtopics, saved.questions, saved.options))
            == saved.(options := Filter(db.options, KeepOption(dd)), answers := Filter(db.answers, KeepAnswer(dd)))
  {
    var q := db.questions[i];
    var saved := db.(questions := db.questions[i := q.(text := text, difficulty := d, timeLimit := TimeLimitOf(tl))]);
    var ids := OptionIdsOf(db, q.id);
    assert OptionIdsOf(saved, q.id) == ids;
    var dd := Cascade({}, {}, {}, ids, saved.subtopics, saved.questions, saved.options);
    CascadeFromOptions(ids, saved.subtopics, saved.questions, saved.options);
    PurgeTouchesOnly(saved, dd);
  }

  /**
    `edit_question` on the question at position `i` saves its new fields in
    place, gives it exactly the four options of the form, leaves the options
    of every other question alone, and drops the answers that chose one of
    its old options. No other table changes.
   */
  lemma QuestionEditedRebuildsOptions(db: Db, i: nat, text: string, d: Difficulty, tl: Maybe<int>,
                                      texts: OptionTexts, correct: string)
    requires IncreasingBy(db.options, OptionId) && i < |db.questions|
    ensures var after := QuestionEdited(db, i, text, d, tl, texts, correct);
            var id := db.questions[i].id;
            && after.questions == db.questions[i := db.questions[i].(text := text, difficulty := d, timeLimit := TimeLimitOf(tl))]
            && Filter(after.options, OfQuestion(id)) == OptionRows(db.nextOption, id, TextsOf(texts), correct)
            && (forall k :: k != id ==> Filter(after.options, OfQuestion(k)) == Filter(db.options, OfQuestion(k)))
            && (forall a :: a in after.answers <==> a in db.answers && a.option !in OptionIdsOf(db, id))
            && after == db.(questions := after.questions, options := after.options, nextOption := db.nextOption + 4,
                            answers := after.answers)
  {
    var q := db.questions[i];
    var ids := OptionIdsOf(db, q.id);
    OldOptionsCleared(db, i, text, d, tl);
    OptionIdsOfMeans(db, q.id);
    ReplacedOptions(db.options, q.id, ids, OptionRows(db.nextOption, q.id, TextsOf(texts), correct));
  }

  /** The edit action of the question page is `edit_question` on the row with that key. */
  lemma QuestionEditRuns(db: Db, v: Visitor, s: int, param: Maybe<string>, id: int, text: string, d: Difficulty,
                         tl: Maybe<int>, texts: OptionTexts, correct: string)
    requires BossRequired(db, v).Admit? && s in Ids(db.subtopics, SubtopicId) && id in Ids(db.questions, QuestionId)
    ensures var i := Find(db.questions, QuestionId, id).value;
            && db.questions[i].id == id
            && QuestionPhaseOutcome(db, v, s, param, Some(QuestionEdit(id, text, d, tl, texts, correct)))
               == Outcome(Redirect(ToQuestionPhase(s, FilterOf(param))), QuestionEdited(db, i, text, d, tl, texts, correct))
  {
  }

  /**
    Editing a question from the question page saves its fields in place,
    gives it exactly the four options of the form, keeps every other
    question's options, and drops the answers that chose one of its old
    options; the page then redirects to itself with the same filter.
   */
  lemma EditQuestionRebuildsOptions(db: Db, v: Visitor, s: int, param: Maybe<string>, id: int, text: string,
                                    d: Difficulty, tl: Maybe<int>, texts: OptionTexts, correct: string)
    requires IncreasingBy(db.options, OptionId)
    requires BossRequired(db, v).Admit? && s in Ids(db.subtopics, SubtopicId) && id in Ids(db.questions, QuestionId)
    ensures var o := QuestionPhaseOutcome(db, v, s, param, Some(QuestionEdit(id, text, d, tl, texts, correct)));
            && o.response == Redirect(ToQuestionPhase(s, FilterOf(param)))
            && (exists i :: 0 <= i < |db.questions| && db.questions[i].id == id
                  && o.db.questions == db.questions[i := db.questions[i].(text := text, difficulty := d, timeLimit := TimeLimitOf(tl))])
            && Filter(o.db.options, OfQuestion(id)) == OptionRows(db.nextOption, id, TextsOf(texts), correct)
            && (forall k :: k != id ==> Filter(o.db.options, OfQuestion(k)) == Filter(db.options, OfQuestion(k)))
            && (forall a :: a in o.db.answers <==> a in db.answers && a.option !in OptionIdsOf(db, id))
            && o.db == db.(questions := o.db.questions, options := o.db.options, nextOption := db.nextOption + 4,
                           answers := o.db.answers)
  {
    QuestionEditRuns(db, v, s, param, id, text, d, tl, texts, correct);
    var i := Find(db.questions, QuestionId, id).value;
    QuestionEditedRebuildsOptions(db, i, text, d, tl, texts, correct);
  }

  /** An edit or delete naming a missing topic makes `Topic.objects.get` raise: a server error, and nothing changes. */
  lemma DashboardMissingTopicIsServerError(db: Db, v: Visitor, pd: DashboardAction)
    requires BossRequired(db, v).Admit?
    requires (pd.TopicEdit? || pd.TopicDelete?) && pd.topicId !in Ids(db.topics, TopicId)
    ensures DashboardOutcome(db, v, Some(pd)) == Outcome(ServerError, db)
  {
  }

  /** The subtopic page of a missing topic, or an edit or delete of a missing subtopic, is a 404 that changes nothing. */
  lemma SubtopicPageMissingRowsAreNotFound(db: Db, v: Visitor, t: int, rows: seq<SubtopicRow>,
                                           post: Maybe<SubtopicAction>, ps: SubtopicAction)
    requires BossRequired(db, v).Admit?
    ensures t !in Ids(db.topics, TopicId) ==> SubtopicPhaseOutcome(db, v, t, rows, post) == Outcome(NotFound, db)
    ensures (ps.SubtopicEdit? || ps.SubtopicDelete?) && ps.subtopicId !in Ids(db.subtopics, SubtopicId)
            ==> SubtopicPhaseOutcome(db, v, t, rows, Some(ps)) == Outcome(NotFound, db)
  {
  }

  /** The question page of a missing subtopic, or an edit or delete of a missing question, is a 404 that changes nothing. */
  lemma QuestionPageMissingRowsAreNotFound(db: Db, v: Visitor, s: int, param: Maybe<string>,
                                           post: Maybe<QuestionAction>, pq: QuestionAction)
    requires BossRequired(db, v).Admit?
    ensures s !in Ids(db.subtopics, SubtopicId) ==> QuestionPhaseOutcome(db, v, s, param, post) == Outcome(NotFound, db)
    ensures (pq.QuestionEdit? || pq.QuestionDelete?) && pq.questionId !in Ids(db.questions, QuestionId)
            ==> QuestionPhaseOutcome(db, v, s, param, Some(pq)) == Outcome(NotFound, db)
  {
  }

  // ----- what the pages show -----

  /** The dashboard lists every topic once, by display order, with the three counters. */
  lemma DashboardListsAllTopics(db: Db, v: Visitor)
    requires BossRequired(db, v).Admit?
    ensures var o := DashboardOutcome(db, v, None);
            && o.db == db && o.response.DashboardPage? && o.response.error == None
            && SortedBy(o.response.topics, TopicOrder) && multiset(o.response.topics) == multiset(db.topics)
            && o.response.stats.subtopics == |db.subtopics| && o.response.stats.questions == |db.questions|
            && (forall u :: u in Filter(db.users, IsStudent()) <==> u in db.users && u.role == Student)
            && o.response.stats.students == |Filter(db.users, IsStudent())|
  {
  }

  /**
    The question page lists the subtopic's questions in ascending key order,
    all of them under the filter `all` and those whose stored difficulty is
    the filter otherwise, each with exactly its own options.
   */
  lemma QuestionPageListsQuestionsWithOptions(db: Db, v: Visitor, s: int, param: Maybe<string>)
    requires db.Ok() && BossRequired(db, v).Admit? && s in Ids(db.subtopics, SubtopicId)
    ensures var p := QuestionPhaseOutcome(db, v, s, param, None).response;
            var f := FilterOf(param);
            && p.QuestionPhasePage? && p.subtopic.id == s && p.filter == f
            && (forall i, j :: 0 <= i < j < |p.questionData| ==> p.questionData[i].question.id < p.questionData[j].question.id)
            && (forall k :: 0 <= k < |p.questionData| ==>
                  var q := p.questionData[k].question;
                  && q in db.questions && q.subtopic == s && (f == "all" || DifficultyName(q.difficulty) == f)
                  && forall o :: o in p.questionData[k].options <==> o in db.options && o.question == q.id)
            && (forall q :: q in db.questions && q.subtopic == s && (f == "all" || DifficultyName(q.difficulty) == f) ==>
                  exists k :: 0 <= k < |p.questionData| && p.questionData[k].question == q)
  {
    var f := FilterOf(param);
    var qs := PhaseQuestions(db, s, f);
    if f == "all" {
      FilterIncreasing(db.questions, InSubtopic(s), QuestionId);
    } else {
      FilterIncreasing(db.questions, InQuiz(s, f), QuestionId);
    }
    var p := QuestionPhaseOutcome(db, v, s, param, None).response;
    assert p.questionData == QuestionRows(db, qs);
    forall q | q in db.questions && q.subtopic == s && (f == "all" || DifficultyName(q.difficulty) == f)
      ensures exists k :: 0 <= k < |p.questionData| && p.questionData[k].question == q
    {
      assert q in qs;
      var k :| 0 <= k < |qs| && qs[k] == q;
      assert p.questionData[k].question == q;
    }
  }

  /**
    A practice page shows the question at `qIndex` with exactly its options;
    with progress, `total` is the run's length and `solved` the number of
    the user's answer rows for questions of the run.
   */
  lemma PracticePageShowsQuestion(db: Db, v: Visitor, variant: Variant, s: int, difficulty: string, qIndex: nat)
    requires CurrentUser(db, v).Some? && s in Ids(db.subtopics, SubtopicId)
    requires qIndex < |QuizQuestions(db, s, difficulty)|
    ensures var o := PracticeOutcome(db, v, variant, s, difficulty, qIndex, None);
            var qs := QuizQuestions(db, s, difficulty);
            && o.db == db && o.response.PracticePage?
            && o.response.subtopic.id == s && o.response.question == qs[qIndex] && o.response.qIndex == qIndex
            && (forall x :: x in o.response.options <==> x in db.options && x.question == qs[qIndex].id)
            && (o.response.progress.Some? <==> variant == WithProgress)
            && (variant == WithProgress ==>
                  && o.response.progress.value.total == |qs|
                  && o.response.progress.value.solved
                     == |Filter(db.answers, (a: UserAnswer) => a.user == v.id && a.question in Ids(qs, QuestionId))|)
  {
    var qs := QuizQuestions(db, s, difficulty);
    FilterAgree(db.answers, AnswerIn(v.id, Ids(qs, QuestionId)),
                (a: UserAnswer) => a.user == v.id && a.question in Ids(qs, QuestionId));
  }
}
