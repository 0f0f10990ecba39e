/**
  The views of aptitude/views.py as they run: each handler reads the
  request's data from its arguments, runs the ORM calls of module Storage
  on the one shared `Store` in the order the view makes them, and returns
  the response. Each is proved to leave the store valid and to reach
  exactly the outcome module Views describes, so every lemma there holds of
  the handler too.
 */
module Handlers {
  import opened Tables
  import opened Models
  import opened Storage
  import opened Views

  // ----- the loops of the views -----

  /** The `for subtopic in subtopics` loop of `subtopic_phase_view`: one counted line per subtopic. */
  method CountByDifficulty(db: Db, subs: seq<Subtopic>) returns (rows: seq<SubtopicRow>)
    ensures |rows| == |subs|
    ensures forall k :: 0 <= k < |subs| ==> rows[k] == RowOf(db, subs[k])
  {
    rows := [];
    for i := 0 to |subs|
      invariant |rows| == i
      invariant forall k :: 0 <= k < i ==> rows[k] == RowOf(db, subs[k])
    {
      var easy := LevelCount(db.questions, subs[i].id, Easy);
      var medium := LevelCount(db.questions, subs[i].id, Medium);
      var hard := LevelCount(db.questions, subs[i].id, Hard);
      rows := rows + [SubtopicRow(subs[i], easy, medium, hard, easy + medium + hard)];
    }
  }

  /** The `for question in questions` loop of `question_phase_view`: each question with its options. */
  method CollectOptions(db: Db, qs: seq<Question>) returns (rows: seq<QuestionRow>)
    ensures |rows| == |qs|
    ensures forall k :: 0 <= k < |qs| ==> rows[k].question == qs[k]
    ensures forall k :: 0 <= k < |qs| ==> forall o :: o in rows[k].options <==> o in db.options && o.question == qs[k].id
    ensures rows == QuestionRows(db, qs)
  {
    rows := [];
    for i := 0 to |qs|
      invariant |rows| == i
      invariant forall k :: 0 <= k < i ==> rows[k] == QuestionRow(qs[k], Filter(db.options, OfQuestion(qs[k].id)))
    {
      rows := rows + [QuestionRow(qs[i], Filter(db.options, OfQuestion(qs[i].id)))];
    }
  }

  /**
    The `for option_text, is_correct in options_data` loop: four
    `Option.objects.create` calls, the k-th correct when `correct_option` is
    the string k + 1.
   */
  method CreateFormOptions(store: Store, q: int, texts: OptionTexts, correct: string)
    requires store.Valid() && q in Ids(store.db.questions, QuestionId)
    modifies store
    ensures store.Valid()
    ensures store.db == OptionsAdded(old(store.db), q, texts, correct)
  {
    var data := TextsOf(texts);
    ghost var db0 := store.db;
    for k := 0 to 4
      invariant store.Valid() && q in Ids(store.db.questions, QuestionId)
      invariant store.db == db0.(options := db0.options + OptionRows(db0.nextOption, q, data[..k], correct),
                                 nextOption := db0.nextOption + k)
    {
      var id := store.CreateOption(q, data[k], correct == Choices[k]);
      OptionRowsSnoc(db0.nextOption, q, data, k, correct);
    }
    assert data[..4] == data;
  }

  // ----- the learner's views -----

  /** `home_view` (it only reads). */
  method Home(store: Store, v: Visitor) returns (r: Response)
    requires store.Valid()
    ensures Outcome(r, store.db) == HomeOutcome(store.db, v)
  {
    var gate := LoginRequired(store.db, v);
    if gate.Deny? {
      return gate.response;
    }
    var common := CategoryList(store.db, Common);
    var it := CategoryList(store.db, ItSpecific);
    var govt := CategoryList(store.db, GovtSpecific);
    r := HomePage(common, it, govt);
  }

  /** `signup_view`. */
  method Signup(store: Store, post: Maybe<SignupForm>) returns (r: Response)
    requires store.Valid()
    modifies store
    ensures store.Valid()
    ensures Outcome(r, store.db) == SignupOutcome(old(store.db), post)
  {
    if post.None? {
      return SignupPage(false, false);
    }
    var f := post.value;
    var nameTaken := UsernameTaken(store.db.users, f.username);
    var emailTaken := EmailTaken(store.db.users, f.email);
    if nameTaken || emailTaken {
      return SignupPage(nameTaken, emailTaken);
    }
    var id := store.CreateUser(f.username, f.email, Student);
    if id.None? {
      return ServerError;
    }
    r := Redirect(ToHome);
  }

  /** `practice_view` (variant Plain) and `practice_new_view` (variant WithProgress). */
  method Practice(store: Store, v: Visitor, variant: Variant, s: int, difficulty: string, qIndex: nat,
                  post: Maybe<Submission>) returns (r: Response)
    requires store.Valid()
    modifies store
    ensures store.Valid()
    ensures Outcome(r, store.db) == PracticeOutcome(old(store.db), v, variant, s, difficulty, qIndex, post)
  {
    var gate := LoginRequired(store.db, v);
    if gate.Deny? {
      return gate.response;
    }
    var user := gate.user;
    var found := Find(store.db.subtopics, SubtopicId, s);
    if found.None? {
      return NotFound;
    }
    r := PracticeStep(store, user, variant, store.db.subtopics[found.value], difficulty, qIndex, post);
  }

  /** The part of the two practice views after the subtopic is found. */
  method PracticeStep(store: Store, user: User, variant: Variant, subtopic: Subtopic, difficulty: string, qIndex: nat,
                      post: Maybe<Submission>) returns (r: Response)
    requires store.Valid() && user in store.db.users
    modifies store
    ensures store.Valid()
    ensures Outcome(r, store.db) == PracticeStepOutcome(old(store.db), user, variant, subtopic, difficulty, qIndex, post)
  {
    var s := subtopic.id;
    var questions := QuizQuestions(store.db, s, difficulty);
    if questions == [] {
      return NoQuestionsPage(subtopic, difficulty);
    }
    if qIndex >= |questions| {
      return CompletedPage(subtopic, difficulty);
    }
    var question := questions[qIndex];
    var options := Filter(store.db.options, OfQuestion(question.id));
    var progress := None;
    if variant == WithProgress {
      progress := Some(ProgressOf(store.db, user.id, questions));
    }
    if post.None? {
      return PracticePage(subtopic, question, options, qIndex, progress);
    }
    var selected := Find(store.db.options, OptionId, post.value.optionId);
    if selected.None? {
      return NotFound;
    }
    var option := store.db.options[selected.value];
    var timeTaken := if post.value.timeTaken.Some? then post.value.timeTaken.value else DefaultTimeTaken;
    assert UserId(user) in Ids(store.db.users, UserId);
    assert QuestionId(question) in Ids(store.db.questions, QuestionId);
    assert OptionId(option) in Ids(store.db.options, OptionId);
    var _ := store.CreateAnswer(user.id, question.id, option.id, option.isCorrect, timeTaken);
    r := Redirect(NextTarget(variant, s, difficulty, qIndex + 1));
  }

  // ----- the curator's views -----

  /** `boss_dashboard`. */
  method BossDashboard(store: Store, v: Visitor, post: Maybe<DashboardAction>) returns (r: Response)
    requires store.Valid()
    modifies store
    ensures store.Valid()
    ensures Outcome(r, store.db) == DashboardOutcome(old(store.db), v, post)
  {
    var gate := BossRequired(store.db, v);
    if gate.Deny? {
      return gate.response;
    }
    if post.None? {
      return DashboardPage(SortBy(store.db.topics, TopicOrder), StatsOf(store.db), None);
    }
    match post.value
    case TopicAdd(name, c) => r := AddTopic(store, v, name, c);
    case TopicEdit(id, name, c) => r := EditTopic(store, v, id, name, c);
    case TopicDelete(id) => r := DeleteTopic(store, v, id);
    case OtherDashboardAction => r := Redirect(ToDashboard);
  }

  /** The `add_topic` action. */
  method AddTopic(store: Store, v: Visitor, name: string, c: Category) returns (r: Response)
    requires store.Valid() && BossRequired(store.db, v).Admit?
    modifies store
    ensures store.Valid()
    ensures Outcome(r, store.db) == DashboardOutcome(old(store.db), v, Some(TopicAdd(name, c)))
  {
    var user := BossRequired(store.db, v).user;
    var order := NextDisplayOrder(store.db.topics, TopicOrder);
    assert UserId(user) in Ids(store.db.users, UserId);
    var _ := store.CreateTopic(name, c, order, Some(user.id));
    r := Redirect(ToDashboard);
  }

  /** The `edit_topic` action: `Topic.objects.get` raises on a missing key. */
  method EditTopic(store: Store, v: Visitor, id: int, name: string, c: Category) returns (r: Response)
    requires store.Valid() && BossRequired(store.db, v).Admit?
    modifies store
    ensures store.Valid()
    ensures Outcome(r, store.db) == DashboardOutcome(old(store.db), v, Some(TopicEdit(id, name, c)))
  {
    var found := Find(store.db.topics, TopicId, id);
    if found.None? {
      return ServerError;
    }
    store.SaveTopic(found.value, name, c);
    r := Redirect(ToDashboard);
  }

  /** The `delete_topic` action: refused while the topic has subtopics. */
  method DeleteTopic(store: Store, v: Visitor, id: int) returns (r: Response)
    requires store.Valid() && BossRequired(store.db, v).Admit?
    modifies store
    ensures store.Valid()
    ensures Outcome(r, store.db) == DashboardOutcome(old(store.db), v, Some(TopicDelete(id)))
  {
    var found := Find(store.db.topics, TopicId, id);
    if found.None? {
      return ServerError;
    }
    if Filter(store.db.subtopics, OfTopic(id)) != [] {
      return DashboardPage(SortBy(store.db.topics, TopicOrder), StatsOf(store.db), Some(DeleteTopicError));
    }
    var _ := store.Purge({id}, {}, {}, {});
    r := Redirect(ToDashboard);
  }

  /** `subtopic_phase_view`. */
  method SubtopicPhase(store: Store, v: Visitor, t: int, post: Maybe<SubtopicAction>) returns (r: Response)
    requires store.Valid()
    modifies store
    ensures store.Valid()
    ensures Outcome(r, store.db) == SubtopicPhaseOutcome(old(store.db), v, t, SubtopicTable(old(store.db), t), post)
  {
    var gate := BossRequired(store.db, v);
    if gate.Deny? {
      return gate.response;
    }
    var found := Find(store.db.topics, TopicId, t);
    if found.None? {
      return NotFound;
    }
    var rows := CountByDifficulty(store.db, SubtopicsOf(store.db, t));
    assert rows == SubtopicTable(store.db, t);
    if post.None? {
      return SubtopicPhasePage(store.db.topics[found.value], rows, None);
    }
    r := SubtopicPost(store, v, t, rows, post.value);
  }

  /** A POST to the subtopic page, dispatched on its `action` field. */
  method SubtopicPost(store: Store, v: Visitor, t: int, rows: seq<SubtopicRow>, a: SubtopicAction) returns (r: Response)
    requires store.Valid() && BossRequired(store.db, v).Admit? && t in Ids(store.db.topics, TopicId)
    modifies store
    ensures store.Valid()
    ensures Outcome(r, store.db) == SubtopicPhaseOutcome(old(store.db), v, t, rows, Some(a))
  {
    match a
    case SubtopicAdd(name) => r := AddSubtopic(store, v, t, rows, name);
    case SubtopicEdit(id, name) => r := EditSubtopic(store, v, t, rows, id, name);
    case SubtopicDelete(id) => r := DeleteSubtopic(store, v, t, rows, id);
    case OtherSubtopicAction => r := Redirect(ToSubtopicPhase(t));
  }

  /** The `add_subtopic` action. */
  method AddSubtopic(store: Store, v: Visitor, t: int, rows: seq<SubtopicRow>, name: string) returns (r: Response)
    requires store.Valid() && BossRequired(store.db, v).Admit? && t in Ids(store.db.topics, TopicId)
    modifies store
    ensures store.Valid()
    ensures Outcome(r, store.db) == SubtopicPhaseOutcome(old(store.db), v, t, rows, Some(SubtopicAdd(name)))
  {
    var user := BossRequired(store.db, v).user;
    var order := NextDisplayOrder(Filter(store.db.subtopics, OfTopic(t)), SubtopicOrder);
    assert UserId(user) in Ids(store.db.users, UserId);
    var _ := store.CreateSubtopic(t, name, order, Some(user.id));
    r := Redirect(ToSubtopicPhase(t));
  }

  /** The `edit_subtopic` action. */
  method EditSubtopic(store: Store, v: Visitor, t: int, rows: seq<SubtopicRow>, id: int, name: string)
    returns (r: Response)
    requires store.Valid() && BossRequired(store.db, v).Admit? && t in Ids(store.db.topics, TopicId)
    modifies store
    ensures store.Valid()
    ensures Outcome(r, store.db) == SubtopicPhaseOutcome(old(store.db), v, t, rows, Some(SubtopicEdit(id, name)))
  {
    var found := Find(store.db.subtopics, SubtopicId, id);
    if found.None? {
      return NotFound;
    }
    store.SaveSubtopic(found.value, name);
    r := Redirect(ToSubtopicPhase(t));
  }

  /** The `delete_subtopic` action: refused while the subtopic has questions. */
  method DeleteSubtopic(store: Store, v: Visitor, t: int, rows: seq<SubtopicRow>, id: int) returns (r: Response)
    requires store.Valid() && BossRequired(store.db, v).Admit? && t in Ids(store.db.topics, TopicId)
    modifies store
    ensures store.Valid()
    ensures Outcome(r, store.db) == SubtopicPhaseOutcome(old(store.db), v, t, rows, Some(SubtopicDelete(id)))
  {
    var found := Find(store.db.subtopics, SubtopicId, id);
    if found.None? {
      return NotFound;
    }
    if Filter(store.db.questions, InSubtopic(id)) != [] {
      var topic := store.db.topics[Find(store.db.topics, TopicId, t).value];
      return SubtopicPhasePage(topic, rows, Some(DeleteSubtopicError));
    }
    var _ := store.Purge({}, {id}, {}, {});
    r := Redirect(ToSubtopicPhase(t));
  }

  /** `question_phase_view`. */
  method QuestionPhase(store: Store, v: Visitor, s: int, param: Maybe<string>, post: Maybe<QuestionAction>)
    returns (r: Response)
    requires store.Valid()
    modifies store
    ensures store.Valid()
    ensures Outcome(r, store.db) == QuestionPhaseOutcome(old(store.db), v, s, param, post)
  {
    var gate := BossRequired(store.db, v);
    if gate.Deny? {
      return gate.response;
    }
    var found := Find(store.db.subtopics, SubtopicId, s);
    if found.None? {
      return NotFound;
    }
    var filter := FilterOf(param);
    var data := CollectOptions(store.db, PhaseQuestions(store.db, s, filter));
    if post.None? {
      return QuestionPhasePage(store.db.subtopics[found.value], filter, data);
    }
    r := QuestionPost(store, v, s, param, post.value);
  }

  /** A POST to the question page, dispatched on its `action` field. */
  method QuestionPost(store: Store, v: Visitor, s: int, param: Maybe<string>, a: QuestionAction) returns (r: Response)
    requires store.Valid() && BossRequired(store.db, v).Admit? && s in Ids(store.db.subtopics, SubtopicId)
    modifies store
    ensures store.Valid()
    ensures Outcome(r, store.db) == QuestionPhaseOutcome(old(store.db), v, s, param, Some(a))
  {
    match a
    case QuestionAdd(text, d, tl, texts, correct) => r := AddQuestion(store, v, s, param, text, d, tl, texts, correct);
    case QuestionEdit(id, text, d, tl, texts, correct) =>
      r := EditQuestion(store, v, s, param, id, text, d, tl, texts, correct);
    case QuestionDelete(id) => r := DeleteQuestion(store, v, s, param, id);
    case OtherQuestionAction => r := Redirect(ToQuestionPhase(s, FilterOf(param)));
  }

  /** The `add_question` action: the question, then its four options. */
  method AddQuestion(store: Store, v: Visitor, s: int, param: Maybe<string>, text: string, d: Difficulty,
                     tl: Maybe<int>, texts: OptionTexts, correct: string) returns (r: Response)
    requires store.Valid() && BossRequired(store.db, v).Admit? && s in Ids(store.db.subtopics, SubtopicId)
    modifies store
    ensures store.Valid()
    ensures Outcome(r, store.db) == QuestionPhaseOutcome(old(store.db), v, s, param, Some(QuestionAdd(text, d, tl, texts, correct)))
  {
    var user := BossRequired(store.db, v).user;
    assert UserId(user) in Ids(store.db.users, UserId);
    var q := store.CreateQuestion(s, d, text, TimeLimitOf(tl), Some(user.id));
    CreateFormOptions(store, q, texts, correct);
    r := Redirect(ToQuestionPhase(s, FilterOf(param)));
  }

  /** The `edit_question` action: save, delete the old options, create four new ones. */
  method EditQuestion(store: Store, v: Visitor, s: int, param: Maybe<string>, id: int, text: string, d: Difficulty,
                      tl: Maybe<int>, texts: OptionTexts, correct: string) returns (r: Response)
    requires store.Valid() && BossRequired(store.db, v).Admit? && s in Ids(store.db.subtopics, SubtopicId)
    modifies store
    ensures store.Valid()
    ensures Outcome(r, store.db)
            == QuestionPhaseOutcome(old(store.db), v, s, param, Some(QuestionEdit(id, text, d, tl, texts, correct)))
  {
    var found := Find(store.db.questions, QuestionId, id);
    if found.None? {
      return NotFound;
    }
    QuestionEditRuns(store.db, v, s, param, id, text, d, tl, texts, correct);
    SaveQuestionForm(store, found.value, text, d, tl, texts, correct);
    r := Redirect(ToQuestionPhase(s, FilterOf(param)));
  }

  /** `question.save()` with the form's fields, then its options replaced by the form's four. */
  method SaveQuestionForm(store: Store, i: nat, text: string, d: Difficulty, tl: Maybe<int>, texts: OptionTexts,
                          correct: string)
    requires store.Valid() && i < |store.db.questions|
    modifies store
    ensures store.Valid()
    ensures store.db == QuestionEdited(old(store.db), i, text, d, tl, texts, correct)
  {
    var id := store.db.questions[i].id;
    store.SaveQuestion(i, text, d, TimeLimitOf(tl));
    assert store.db.questions[i] in store.db.questions && QuestionId(store.db.questions[i]) == id;
    ReplaceOptions(store, id, texts, correct);
  }

  /** `Option.objects.filter(question=question).delete()`, then the four options of the form. */
  method ReplaceOptions(store: Store, q: int, texts: OptionTexts, correct: string)
    requires store.Valid() && q in Ids(store.db.questions, QuestionId)
    modifies store
    ensures store.Valid()
    ensures store.db == OptionsAdded(Purged(old(store.db), Cascade({}, {}, {}, OptionIdsOf(old(store.db), q),
                                                                   old(store.db.subtopics), old(store.db.questions),
                                                                   old(store.db.options))), q, texts, correct)
  {
    ghost var before := store.db;
    CascadeFromOptions(OptionIdsOf(store.db, q), store.db.subtopics, store.db.questions, store.db.options);
    var doomed := store.Purge({}, {}, {}, OptionIdsOf(store.db, q));
    PurgeTouchesOnly(before, doomed);
    CreateFormOptions(store, q, texts, correct);
  }

  /** The `delete_question` action. */
  method DeleteQuestion(store: Store, v: Visitor, s: int, param: Maybe<string>, id: int) returns (r: Response)
    requires store.Valid() && BossRequired(store.db, v).Admit? && s in Ids(store.db.subtopics, SubtopicId)
    modifies store
    ensures store.Valid()
    ensures Outcome(r, store.db) == QuestionPhaseOutcome(old(store.db), v, s, param, Some(QuestionDelete(id)))
  {
    var found := Find(store.db.questions, QuestionId, id);
    if found.None? {
      return NotFound;
    }
    QuestionDeleteRuns(store.db, v, s, param, id);
    var _ := store.Purge({}, {}, {id}, {});
    r := Redirect(ToQuestionPhase(s, FilterOf(param)));
  }
}
