# A verified model of the aptitude-website request logic

aptitude-website is a Django site for aptitude-test practice. A *boss* (a
curator) maintains a catalogue on three pages:

- the dashboard lists topics;
- the subtopic page lists a topic's subtopics, with question counts per difficulty;
- the question page lists a subtopic's multiple-choice questions, each with four options.

A *student* signs up, browses the topics of the home page, and works through
practice runs. A run is the questions of one subtopic at one difficulty, in
key order. Every submitted answer is stored.

The model is in five modules:

- `Tables` (Tables.dfy) holds generic table operations on sequences of rows:
  filtering, stable sorting, key lookup, and the key and foreign-key predicates.
- `Models` (Models.dfy) is the schema of `aptitude/models.py`:
  - the choice lists as datatypes, with their stored strings and parsers;
  - one row datatype per model;
  - the `on_delete` rules. `Cascade` computes the keys one delete removes.
    The `Keep*` and `Unlink*` functions apply CASCADE and SET_NULL to each
    dependent table.
- `Storage` (Storage.dfy) is the database. `Db` is its contents and `Db.Ok()`
  its integrity:
  - primary keys in ascending order below the auto-increment counter;
  - the UNIQUE columns;
  - every foreign key naming an existing row.

  Class `Store` holds the current `Db` and offers the ORM calls the views make:
  create, save, and delete with CASCADE or SET_NULL. Each call keeps `Valid()`
  and states the whole new state.
- `Views` (Views.dfy) is `aptitude/views.py` as functions:
  - the `login_required` and `boss_required` gates;
  - the read-only queries behind each page;
  - for every request, an `Outcome`: the response, together with the database
    the request leaves behind.

  The lemmas there state what these outcomes mean.
- `Handlers` (Handlers.dfy) holds the views as imperative methods over a `Store`:
  - the `for` loops that build `subtopic_data`, `question_data` and the four
    options of the question form;
  - one method per POST action.

  Each method is proved to leave exactly the response and database that the
  `Views` function names. So every lemma about an outcome also holds of the
  handler, and every handler keeps the database valid.

Requests come in as typed values:
- a `Visitor` for the session;
- an optional action datatype for the POST body;
- plain integers for URL keys.

A difficulty in a practice URL or in the question-page filter stays a string.
It is compared with the stored string, as the ORM does.

## Model

| member | source | states |
|---|---|---|
| Models.RoleName | aptitude/models.py:12-16 | every role is stored as one of the two choice strings |
| Models.ParseRole | aptitude/models.py:12-16 | a stored role string parses exactly when it is a choice, and parsing inverts `RoleName` |
| Models.CategoryName | aptitude/models.py:31-35 | every category is stored as one of the three choice strings |
| Models.ParseCategory | aptitude/models.py:31-35 | a category string parses exactly when it is a choice, and parsing inverts `CategoryName` |
| Models.DifficultyName | aptitude/models.py:88-92 | every difficulty is stored as one of the three choice strings |
| Models.ParseDifficulty | aptitude/models.py:88-92 | a difficulty string parses exactly when it is a choice, and parsing inverts `DifficultyName` |
| Models.Cascade | aptitude/models.py:45-104 | the delete set holds the named rows and is closed under Subtopic.topic, Question.subtopic and Option.question (CASCADE). Each level is exactly the named rows plus the children of the level above |
| Models.CascadeIsLeast | aptitude/models.py:45-104 | CASCADE deletes no more than it must: every closed set holding the named rows holds Cascade's |
| Models.CascadeFromOptions | aptitude/models.py:101-104 | deleting options reaches no topic, subtopic or question |
| Storage.PurgeKeepsIntegrity | aptitude/models.py:45-117 | once everything CASCADE reaches is gone, every key, UNIQUE constraint and foreign key still holds: no survivor points at a deleted row |
| Storage.PurgeTouchesOnly | aptitude/models.py:45-117 | a table that the delete reaches nothing in keeps all its rows |
| Storage.UsersAfterDelete | aptitude/models.py:11-21 | deleting a user removes exactly its key, and email and username stay unique |
| Storage.ContentAfterUnlink | aptitude/models.py:39-97 | SET_NULL on created_by / updated_by leaves the topics, subtopics and questions with valid keys and references |
| Storage.LessonsAfterUnlink | aptitude/models.py:55-84 | SET_NULL leaves the video lessons, notes and resources valid |
| Storage.ActivityAfterDelete | aptitude/models.py:111-129 | the answers, streaks and notification settings left after a user's CASCADE keep their keys, the one-setting-per-user rule and their references, now against the remaining users |
| Storage.DeleteUserKeepsIntegrity | aptitude/models.py:11-129 | deleting a user with all its CASCADE and SET_NULL rules keeps the whole database valid |
| Storage.DeletedUserLeavesNoTrace | aptitude/models.py:39-127 | after a user is deleted, no row names it. Topics, subtopics, questions, video lessons, notes and resources keep every row; only the authorship that named that user becomes null. The user's answers, streaks and settings are gone, and everyone else's stay |
| Storage.Purged | aptitude/models.py:45-117 | the database after a delete: every row the delete set dooms, directly or through CASCADE to lessons, notes, resources and answers, is filtered out. Its meaning is stated by PurgeKeepsIntegrity and PurgeTouchesOnly |
| Storage.UserDeleted | aptitude/models.py:11-129 | the database after a user is deleted, with CASCADE and SET_NULL. Its meaning is stated by DeleteUserKeepsIntegrity and DeletedUserLeavesNoTrace |
| Storage.NormalizeEmail | aptitude/views.py:46-51 | the model's version of the email normalisation `create_user` applies (an ASCII fold of the domain, without the strip); its meaning is stated by NormalizeEmailAt, NormalizedFoldsCase and NormalizeEmailOnlyFoldsCase |
| Storage.NormalizeEmailAt | aptitude/views.py:46-51 | character by character: the model's normalisation keeps everything up to the last '@' and lower-cases each character after it |
| Storage.NormalizedFoldsCase | aptitude/views.py:46-51 | the model's normalisation leaves every character after the last '@' in lower case, and the address and its normalisation lower-case alike |
| Storage.NormalizeEmailOnlyFoldsCase | aptitude/views.py:46-51 | the model's normalisation (an ASCII fold of the domain, without the strip) keeps the length and changes letter case only. It keeps everything up to the last '@' and leaves the part after it in lower case; an address without '@' is left as it is. Normalising twice is normalising once |
| Storage.CreateUserFails | aptitude/views.py:46-51 | when `create_user` refuses: an empty username (ValueError), or a username or normalised email already stored (a UNIQUE violation); its meaning is stated by Store.CreateUser and Views.SignupRefusesTakenNames |
| Storage.UsernameTaken | aptitude/views.py:38 | `User.objects.filter(username=...).exists()`; its meaning is stated by Views.SignupRefusesTakenNames |
| Storage.EmailTaken | aptitude/views.py:40 | `User.objects.filter(email=...).exists()`; its meaning is stated by Views.SignupRefusesTakenNames |
| Storage.DomainCaseFolded | aptitude/views.py:46-51 | "ann@EXAMPLE.com" is stored as "ann@example.com" |
| Storage.Store.constructor | aptitude/models.py:11-129 | a new store is the empty, valid database |
| Storage.Store.CreateUser | aptitude/views.py:46-51 | `create_user` fails, changing nothing, exactly on an empty username or a username or normalised email already stored. Otherwise it appends one user with the next key and the normalised email |
| Storage.Store.CreateTopic | aptitude/views.py:264-269 | appends one topic with the next key; nothing else changes |
| Storage.Store.SaveTopic | aptitude/views.py:276-279 | rewrites name and category of one topic in place |
| Storage.Store.CreateSubtopic | aptitude/views.py:334-339 | appends one subtopic of an existing topic with the next key |
| Storage.Store.SaveSubtopic | aptitude/views.py:345-347 | rewrites one subtopic's name in place |
| Storage.Store.CreateQuestion | aptitude/views.py:405-411 | appends one question of an existing subtopic with the next key |
| Storage.Store.SaveQuestion | aptitude/views.py:441-445 | rewrites one question's text, difficulty and time limit in place |
| Storage.Store.CreateOption | aptitude/views.py:422-426 | appends one option of an existing question with the next key |
| Storage.Store.CreateAnswer | aptitude/views.py:154-160 | appends one answer naming an existing user, question and option |
| Storage.Store.CreateNotificationSetting | aptitude/models.py:126-129 | refused exactly when the user already has a setting (one-to-one); `enabled` defaults to true |
| Storage.Store.Purge | aptitude/models.py:45-117 | `.delete()` removes exactly what CASCADE reaches, and keeps the database valid |
| Storage.Store.DeleteUser | aptitude/models.py:39-127 | deleting a user applies CASCADE and SET_NULL, and keeps the database valid |
| Views.CurrentUser | aptitude/views.py:233-235 | a session has a user exactly when its key names an existing user row |
| Views.LoginRequired | aptitude/views.py:65-66 | admits exactly the visitors with a user; anyone else is sent to login |
| Views.BossRequired | aptitude/views.py:232-238 | admits exactly signed-in bosses; anonymous visitors get the login redirect and other users 403 |
| Views.NextDisplayOrder | aptitude/views.py:261-262 | the new order is above every existing one, exactly one above the largest, and 1 on an empty table |
| Views.CategoryList | aptitude/views.py:70-72 | a category's home list is sorted by display_order. It is a permutation of that category's topics that are not on the denylist |
| Views.StepAt | aptitude/views.py:131-145 | a run without questions, a completed run (index past the end) and a question at the index are told apart exactly |
| Views.ProgressOf | aptitude/views.py:198-201 | remaining is total minus solved |
| Views.SubtopicsOf | aptitude/views.py:307 | a topic's subtopics sorted by display_order: a permutation of exactly the subtopics of that topic |
| Views.QuestionRows | aptitude/views.py:382-388 | one line per listed question, in order, each holding exactly the option rows of that question |
| Views.HomeOutcome | aptitude/views.py:65-79 | the reference definition of `home_view`; its meaning is stated by LearnerPagesNeedLogin and HomeListsPartitionTopics |
| Views.PracticeOutcome | aptitude/views.py:127-228 | the reference definition of both practice views; its meaning is stated by LearnerPagesNeedLogin, UnknownDifficultyHasNoQuestions, SubmissionRecordsOneAnswer, UnknownOptionRecordsNothing, NoAnswerOutsideRun and PracticePageShowsQuestion |
| Views.PracticeStepOutcome | aptitude/views.py:177-228 | a practice view once the subtopic is found; stated through PracticeOutcome's lemmas |
| Views.Answered | aptitude/views.py:154-160 | the recorded answer; stated by SubmissionRecordsOneAnswer and SolvedCountsAnswerRows |
| Views.StatsOf | aptitude/views.py:249-251 | the dashboard counters; stated by DashboardListsAllTopics and SignupMakesOneStudent |
| Views.TopicAdded | aptitude/views.py:256-269 | the database after add_topic; stated by AddedTopicGoesLast |
| Views.TopicDeleted | aptitude/views.py:292 | the database after `topic.delete()`; stated by TopicDeletedDropsOneRow |
| Views.DashboardOutcome | aptitude/views.py:244-301 | the reference definition of `boss_dashboard`; stated by CuratorPagesNeedBoss, AddedTopicGoesLast, EditedTopicKeepsItsPlace, DeleteTopicRefusedWhileSubtopicsExist, DeleteTopicRemovesOnlyIt, DashboardMissingTopicIsServerError and DashboardListsAllTopics |
| Views.RowOf | aptitude/views.py:311-322 | one line of subtopic_data; stated by RowCountsEveryQuestion |
| Views.SubtopicTable | aptitude/views.py:310-322 | subtopic_data; the loop of Handlers.CountByDifficulty computes it |
| Views.SubtopicAdded | aptitude/views.py:327-339 | the database after add_subtopic; stated by AddedSubtopicGoesLastInItsTopic |
| Views.SubtopicDeleted | aptitude/views.py:358 | the database after `subtopic.delete()`; stated by SubtopicDeletedDropsItsLessons |
| Views.SubtopicPhaseOutcome | aptitude/views.py:305-365 | the reference definition of `subtopic_phase_view`; stated by CuratorPagesNeedBoss, the subtopic lemmas below and SubtopicPageMissingRowsAreNotFound |
| Views.QuestionAdded | aptitude/views.py:393-426 | the database after add_question; stated by AddedQuestionGetsFormOptions |
| Views.QuestionEdited | aptitude/views.py:428-462 | the database after edit_question; stated by QuestionEditedRebuildsOptions |
| Views.QuestionDeleted | aptitude/views.py:464-467 | the database after `question.delete()`; stated by QuestionDeletedTakesItsOptions |
| Views.QuestionPhaseOutcome | aptitude/views.py:369-469 | the reference definition of `question_phase_view`; stated by CuratorPagesNeedBoss, the question lemmas below, QuestionPageMissingRowsAreNotFound and QuestionPageListsQuestionsWithOptions |
| Views.PhaseQuestions | aptitude/views.py:373-379 | the question page's queryset, by subtopic and filter, in key order; its meaning is stated by QuestionPageListsQuestionsWithOptions |
| Views.CuratorPagesNeedBoss | aptitude/views.py:232-238 | the three curator pages, for anyone but a boss, return the gate's response and change nothing |
| Views.StudentsAreForbidden | aptitude/views.py:235-236 | a signed-in student gets 403 |
| Views.LearnerPagesNeedLogin | aptitude/views.py:126-127 | home and both practice views send anonymous visitors to login and change nothing |
| Views.HomeListsPartitionTopics | aptitude/views.py:66-79 | the three home lists together hold every topic not on the denylist, each in the list of its own category and no other |
| Views.QuizQuestions | aptitude/views.py:177 | the practice queryset `filter(subtopic, difficulty).order_by('id')`, the same in both practice views (also line 129); its meaning is stated by QuizInIdOrder |
| Views.QuizInIdOrder | aptitude/views.py:177 | a run holds exactly the subtopic's questions whose stored difficulty is the URL's, in ascending key order |
| Views.UnknownDifficultyHasNoQuestions | aptitude/views.py:177-184 | a difficulty that is not a choice gives no questions, at every index, and changes nothing |
| Views.RunVisitsEachQuestionOnce | aptitude/views.py:186-193 | positions 0..n-1 show the run's questions in order; once completed, the run stays completed |
| Views.SubmissionRecordsOneAnswer | aptitude/views.py:203-217 | a POST records exactly one answer, for the user and the question at the index, copying the chosen option's correctness, then redirects to the next index |
| Views.UnknownOptionRecordsNothing | aptitude/views.py:204-205 | a POST naming a missing option is 404 and records nothing |
| Views.NoAnswerOutsideRun | aptitude/views.py:179-193 | outside the run a POST changes nothing |
| Views.SolvedCountsAnswerRows | aptitude/views.py:198-200 | one more answer row adds one to solved exactly when it is the user's and its question is in the run |
| Views.RepeatAnswersMakeRemainingNegative | aptitude/views.py:198-201 | answering the only question of a run twice gives solved 2 and remaining -1 |
| Views.SignupOutcome | aptitude/views.py:31-56 | the reference definition of `signup_view`; its meaning is stated by SignupRefusesTakenNames, SignupKeepsIntegrity and SignupMakesOneStudent |
| Views.SignupRefusesTakenNames | aptitude/views.py:31-54 | the database is unchanged exactly when the username or email is taken as sent, or `create_user` fails. When taken, the page flags each one; a failure is a server error; otherwise one student is appended with the normalised email and the visitor goes home |
| Views.DomainCaseClashIsServerError | aptitude/views.py:38-51 | an email that differs from a stored one only in the domain's case passes the form's check, then fails UNIQUE: a server error, and no user is added |
| Views.SignupKeepsIntegrity | aptitude/views.py:38-51 | a signup keeps every key and UNIQUE constraint |
| Views.SignupMakesOneStudent | aptitude/views.py:46-51 | a signup that `create_user` accepts adds one to the dashboard's student count; the new account is refused the curator pages |
| Views.AddedTopicGoesLast | aptitude/views.py:256-269 | adds one topic, authored by the curator, ordered after every existing one (1 on an empty table); nothing else changes |
| Views.EditedTopicKeepsItsPlace | aptitude/views.py:271-279 | rewrites one row; keeps its key, order and authorship |
| Views.DeleteTopicRefusedWhileSubtopicsExist | aptitude/views.py:281-291 | a topic with subtopics is kept; the dashboard is shown again with the error |
| Views.TopicDeletedDropsOneRow | aptitude/views.py:292 | CASCADE from a topic without subtopics removes only that row |
| Views.DeleteTopicRemovesOnlyIt | aptitude/views.py:281-294 | deleting a topic without subtopics removes that one row, touches no other table, and redirects |
| Views.LevelCountsPartition | aptitude/views.py:312-321 | the easy, medium and hard counts add up to all the subtopic's questions |
| Views.RowCountsEveryQuestion | aptitude/views.py:311-322 | each subtopic_data line counts each difficulty and, in total, every question of its subtopic |
| Views.AddedSubtopicGoesLastInItsTopic | aptitude/views.py:327-339 | adds one subtopic of the topic, authored by the curator. It is ordered after the other subtopics of that topic only (1 when it is the first); nothing else changes |
| Views.EditedSubtopicKeepsItsPlace | aptitude/views.py:341-347 | rewrites only the name of that row, whatever topic it belongs to |
| Views.DeleteSubtopicRefusedWhileQuestionsExist | aptitude/views.py:349-357 | a subtopic with questions is kept; the page is shown again with the precomputed subtopic_data and the error |
| Views.SubtopicDeletedDropsItsLessons | aptitude/models.py:55-84 | CASCADE from a subtopic without questions removes that row and exactly its video lessons, notes and resources |
| Views.SubtopicDeleteRuns | aptitude/views.py:349-360 | the delete action on a subtopic without questions is `subtopic.delete()` followed by the redirect |
| Views.DeleteSubtopicRemovesItsRow | aptitude/views.py:349-360 | deleting such a subtopic removes exactly its row from the subtopic table |
| Views.DeleteSubtopicCascadesToLessons | aptitude/views.py:358 | deleting such a subtopic takes exactly its lessons, notes and resources; no other table changes |
| Views.FormOptionsHaveOneAnswer | aptitude/views.py:414-419 | the form's four options carry the four texts in order, with consecutive keys. At most one is correct, and one is correct exactly when correct_option is "1" to "4" |
| Views.QuestionAddRuns | aptitude/views.py:393-428 | the add action is `add_question` followed by the redirect to the same filter |
| Views.AddedQuestionGetsFormOptions | aptitude/views.py:393-426 | appends one question; its options are exactly the form's four; every other question keeps its options |
| Views.OptionIdsOfMeans | aptitude/views.py:448 | the keys selected by `Option.objects.filter(question=q)` are exactly those of q's option rows |
| Views.CascadeFromQuestion | aptitude/models.py:101-102 | CASCADE from one question reaches exactly its options |
| Views.QuestionDeletedTakesItsOptions | aptitude/models.py:101-114 | CASCADE from a question removes it, its options, and the answers to it or choosing one of its options; nothing else |
| Views.QuestionDeleteRuns | aptitude/views.py:464-469 | the delete action is `question.delete()` followed by the redirect |
| Views.DeleteQuestionCascades | aptitude/views.py:464-469 | deleting a question removes that row, its options and their answers; no other table changes |
| Views.ReplacedOptions | aptitude/views.py:448-462 | dropping a question's options and appending new ones gives it exactly the new ones and leaves every other question's options alone |
| Views.OldOptionsCleared | aptitude/views.py:441-448 | save, then the delete of the options, touches only options and answers after the save |
| Views.QuestionEditedRebuildsOptions | aptitude/views.py:440-462 | `edit_question`: the fields are saved in place. The question's options are exactly the form's four, and other questions keep theirs. The answers that chose an old option are dropped, and no other table changes |
| Views.QuestionEditRuns | aptitude/views.py:428-469 | the edit action is `edit_question` on the row with that key, then the redirect |
| Views.EditQuestionRebuildsOptions | aptitude/views.py:428-469 | the edit action, seen from the page: redirect to the same filter, the fields saved, options rebuilt, other options kept, affected answers gone |
| Views.DashboardMissingTopicIsServerError | aptitude/views.py:271-283 | editing or deleting a missing topic is a server error (`Topic.objects.get` raises) and changes nothing |
| Views.SubtopicPageMissingRowsAreNotFound | aptitude/views.py:305-351 | a missing topic, or an edit or delete of a missing subtopic, is a 404 and changes nothing |
| Views.QuestionPageMissingRowsAreNotFound | aptitude/views.py:369-466 | a missing subtopic, or an edit or delete of a missing question, is a 404 and changes nothing |
| Views.DashboardListsAllTopics | aptitude/views.py:246-301 | the dashboard lists every topic once, by display order, with the subtopic, question and student counts |
| Views.QuestionPageListsQuestionsWithOptions | aptitude/views.py:372-388 | the question page lists the subtopic's questions in ascending key order, all under `all` and those of the filter's difficulty otherwise, each with exactly its options |
| Views.PracticePageShowsQuestion | aptitude/views.py:195-228 | the practice page shows the question at the index with exactly its options. With progress, total is the run's length and solved the user's answer rows for the run |
| Handlers.CountByDifficulty | aptitude/views.py:310-322 | the loop builds one counted line per subtopic, in order |
| Handlers.CollectOptions | aptitude/views.py:382-388 | the loop pairs every question with exactly its options |
| Handlers.CreateFormOptions | aptitude/views.py:421-426 | the loop appends the four options of the form, with consecutive keys, keeping the store valid |
| Handlers.Home | aptitude/views.py:65-79 | `home_view` returns the outcome `HomeOutcome` names |
| Handlers.Signup | aptitude/views.py:31-56 | `signup_view` reaches `SignupOutcome` and keeps the store valid |
| Handlers.Practice | aptitude/views.py:127-228 | `practice_view` and `practice_new_view` reach `PracticeOutcome` and keep the store valid |
| Handlers.PracticeStep | aptitude/views.py:177-217 | the run, the step and the answer reach `PracticeStepOutcome` |
| Handlers.BossDashboard | aptitude/views.py:244-301 | `boss_dashboard` reaches `DashboardOutcome` and keeps the store valid |
| Handlers.AddTopic | aptitude/views.py:256-269 | the add_topic action reaches its outcome |
| Handlers.EditTopic | aptitude/views.py:271-279 | the edit_topic action reaches its outcome |
| Handlers.DeleteTopic | aptitude/views.py:281-292 | the delete_topic action reaches its outcome |
| Handlers.SubtopicPhase | aptitude/views.py:305-365 | `subtopic_phase_view` reaches `SubtopicPhaseOutcome`, with subtopic_data computed before the action |
| Handlers.SubtopicPost | aptitude/views.py:325-351 | a POST to the subtopic page, dispatched on `action`, reaches `SubtopicPhaseOutcome` for that action and keeps the store valid |
| Handlers.AddSubtopic | aptitude/views.py:327-339 | the add_subtopic action reaches its outcome |
| Handlers.EditSubtopic | aptitude/views.py:341-347 | the edit_subtopic action reaches its outcome |
| Handlers.DeleteSubtopic | aptitude/views.py:349-358 | the delete_subtopic action reaches its outcome |
| Handlers.QuestionPhase | aptitude/views.py:369-469 | `question_phase_view` reaches `QuestionPhaseOutcome` and keeps the store valid |
| Handlers.QuestionPost | aptitude/views.py:391-467 | a POST to the question page, dispatched on `action`, reaches `QuestionPhaseOutcome` for that action and keeps the store valid |
| Handlers.AddQuestion | aptitude/views.py:393-426 | the add_question action reaches its outcome |
| Handlers.EditQuestion | aptitude/views.py:428-462 | the edit_question action reaches its outcome |
| Handlers.SaveQuestionForm | aptitude/views.py:439-458 | `question.save()` with the form's fields, then the options replaced by the form's four, leaves exactly `QuestionEdited` |
| Handlers.ReplaceOptions | aptitude/views.py:447-462 | deleting a question's options, then creating the form's four, gives the CASCADE purge followed by the four appended options |
| Handlers.DeleteQuestion | aptitude/views.py:464-467 | the delete_question action reaches its outcome |

## Left out

- Authentication itself is out. `login_view` and `logout_view`, password hashing, and the `login()` after signup are not modelled. A session is a `Visitor` value naming a user key.
- The REST API (the serializers and the JWT routes) is not part of this model. Neither are the page templates, the messages, or static and media files.
- `subtopics_view`, `video_lesson_view`, `analytics_view` and `contests_view` are not modelled. They are read-only pages outside the curator and practice flows.
- POST fields arrive already parsed. A missing or non-numeric `time_limit`, `option_id` or `time_taken` is not modelled: in the code, `int()` would raise and give a server error.
- Category and difficulty sent to a curator form are typed values. A string outside the choices cannot be stored in the model, while Django's `objects.create` stores it unvalidated.
- The practice URL's difficulty and the question-page filter are kept as strings and compared with the stored name.
- Timestamps (`created_at`, `updated_at`, `answered_at`, `last_login`), `duration`, note files, `reminder_time` as a time of day, and streak dates are plain fields or left out. No core view reads them.
- No core view creates video lessons, notes, resources or streaks. Their tables exist only so that the CASCADE and SET_NULL rules reaching them can be stated.
- Concurrency and transactions are out: each request runs alone and completes. In the code, `add_question` and `edit_question` are not atomic.
- Storage.Store.CreateUser: the username's uniqueness comes from Django's AbstractUser, which is not part of this model; it is stated as a UNIQUE column like the email.
- Storage.Store.CreateUser / Views.SignupRefusesTakenNames / Storage.NormalizeEmail: Django's `UserManager` is not part of this model. Of what it does, the model covers the ValueError on an empty username and the lower-casing of the email's domain. It leaves out three things:
  - the NFKC normalisation of the username: the username is stored as sent, so a name that NFKC folds onto a stored one is not refused here;
  - the stripping of surrounding whitespace from an address that contains '@', which shortens it;
  - lower-casing beyond the ASCII letters, which with `str.lower` can also change the length (a dotted capital I becomes two code points).
- Storage.NormalizeEmailOnlyFoldsCase: states its facts of the model's normalisation, an ASCII fold of the domain without the strip. Django's `normalize_email` first strips surrounding whitespace, and lower-cases with `str.lower`; either can change the length, so "keeps the length" and "changes letter case only" do not carry over to it.
- Integers are unbounded in the model. In the source, `display_order` (the `max + 1`), `time_limit`, `time_taken` and the auto-increment keys are database integer columns, whose width depends on the database; a value out of range raises instead of being stored. The model also does not capture what happens when a huge `q_index` from the URL makes `questions[q_index]` overflow: it simply reads as a completed run.
- Views.DeleteTopicRemovesOnlyIt, Views.DeleteSubtopicRemovesItsRow, Views.DeleteSubtopicCascadesToLessons, Views.DeleteQuestionCascades and Views.EditQuestionRebuildsOptions require only ascending keys in the tables they touch, not full integrity.

Where the code differs from what its pages suggest, the model follows the code:

- The answer's option is looked up by key alone. It need not be an option of the question shown (Views.SubmissionRecordsOneAnswer).
- `solved_count` counts answer rows, not distinct questions. Answering again makes `remaining` go down past zero (Views.RepeatAnswersMakeRemainingNegative).
- `edit_question` deletes the old options. CASCADE then removes every answer that chose one of them (Views.QuestionEditedRebuildsOptions).
- The edit and delete actions do not check that the row belongs to the page's topic or subtopic.
- `edit_topic` and the other saves leave `updated_by` unchanged.
- A missing topic on the dashboard makes `Topic.objects.get` raise, which is a server error and not a 404.
- The signup form's check compares the email as sent, but `create_user` stores it with its domain lower-cased. An address that differs from a stored one only in the domain's case passes the check and then fails UNIQUE, which is a server error (Views.DomainCaseClashIsServerError).
