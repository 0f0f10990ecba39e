/**
  The schema of aptitude/models.py: one row datatype per model, the choice
  lists as enumerations (with the strings the database stores for them),
  and the `on_delete` rules (CASCADE and SET_NULL) as functions that say
  which rows one delete removes and how surviving rows are rewritten.
  Primary and foreign keys are integers; a nullable foreign key is a
  `Maybe<int>`.
 */
module Models {
  import opened Tables

  // ----- choice lists -----

  /** User.ROLE_CHOICES. */
  datatype Role = Boss | Student

  /** Topic.CATEGORY_CHOICES. */
  datatype Category = Common | ItSpecific | GovtSpecific

  /** Question.DIFFICULTY_CHOICES. */
  datatype Difficulty = Easy | Medium | Hard

  const RoleNames: set<string> := {"boss", "student"}
  const CategoryNames: set<string> := {"Common", "IT-specific", "Govt-specific"}
  const DifficultyNames: set<string> := {"easy", "medium", "hard"}

  /** The string stored in the `role` column. */
  function RoleName(r: Role): (s: string)
    ensures s in RoleNames
  {
    match r
    case Boss => "boss"
    case Student => "student"
  }

  /** The choice a stored `role` string stands for, if it is one. */
  function ParseRole(s: string): (r: Maybe<Role>)
    ensures r.Some? <==> s in RoleNames
    ensures r.Some? ==> RoleName(r.value) == s
    ensures forall x :: RoleName(x) == s ==> r == Some(x)
  {
    if s == "boss" then Some(Boss)
    else if s == "student" then Some(Student)
    else None
  }

  /** The string stored in the `category` column. */
  function CategoryName(c: Category): (s: string)
    ensures s in CategoryNames
  {
    match c
    case Common => "Common"
    case ItSpecific => "IT-specific"
    case GovtSpecific => "Govt-specific"
  }

  /** The choice a stored `category` string stands for, if it is one. */
  function ParseCategory(s: string): (r: Maybe<Category>)
    ensures r.Some? <==> s in CategoryNames
    ensures r.Some? ==> CategoryName(r.value) == s
    ensures forall x :: CategoryName(x) == s ==> r == Some(x)
  {
    if s == "Common" then Some(Common)
    else if s == "IT-specific" then Some(ItSpecific)
    else if s == "Govt-specific" then Some(GovtSpecific)
    else None
  }

  /** The string stored in the `difficulty` column. */
  function DifficultyName(d: Difficulty): (s: string)
    ensures s in DifficultyNames
  {
    match d
    case Easy => "easy"
    case Medium => "medium"
    case Hard => "hard"
  }

  /** The choice a `difficulty` string (a URL segment or a query parameter) stands for, if it is one. */
  function ParseDifficulty(s: string): (r: Maybe<Difficulty>)
    ensures r.Some? <==> s in DifficultyNames
    ensures r.Some? ==> DifficultyName(r.value) == s
    ensures forall x :: DifficultyName(x) == s ==> r == Some(x)
  {
    if s == "easy" then Some(Easy)
    else if s == "medium" then Some(Medium)
    else if s == "hard" then Some(Hard)
    else None
  }

  // ----- rows -----

  datatype User = User(id: int, username: string, email: string, role: Role)

  datatype Topic = Topic(id: int, name: string, category: Category, displayOrder: int,
                         createdBy: Maybe<int>, updatedBy: Maybe<int>)

  datatype Subtopic = Subtopic(id: int, topic: int, name: string, displayOrder: int,
                               createdBy: Maybe<int>, updatedBy: Maybe<int>)

  datatype VideoLesson = VideoLesson(id: int, subtopic: int, title: string, videoUrl: string,
                                     duration: int, createdBy: Maybe<int>, updatedBy: Maybe<int>)

  datatype Note = Note(id: int, subtopic: int, heading: string, content: string,
                       fileUrl: Maybe<string>, createdBy: Maybe<int>, updatedBy: Maybe<int>)

  datatype Resource = Resource(id: int, subtopic: int, description: string, link: string,
                               createdBy: Maybe<int>, updatedBy: Maybe<int>)

  datatype Question = Question(id: int, subtopic: int, difficulty: Difficulty, text: string,
                               timeLimit: int, createdBy: Maybe<int>)

  datatype Option = Option(id: int, question: int, text: string, isCorrect: bool)

  datatype UserAnswer = UserAnswer(id: int, user: int, question: int, option: int,
                                   isCorrect: bool, timeTaken: int)

  datatype UserStreak = UserStreak(id: int, user: int, date: int, streakCount: int)

  datatype NotificationSetting = NotificationSetting(id: int, user: int, reminderTime: int, enabled: bool)

  /** NotificationSetting.enabled has `default=True`. */
  const EnabledByDefault: bool := true

  // ----- columns, as functions (keys and foreign keys) -----

  function UserId(u: User): int { u.id }
  function UserEmail(u: User): string { u.email }
  function UserNameOf(u: User): string { u.username }
  function TopicId(t: Topic): int { t.id }
  function TopicOrder(t: Topic): int { t.displayOrder }
  function TopicCreator(t: Topic): Maybe<int> { t.createdBy }
  function TopicUpdater(t: Topic): Maybe<int> { t.updatedBy }
  function SubtopicId(s: Subtopic): int { s.id }
  function SubtopicTopic(s: Subtopic): int { s.topic }
  function SubtopicOrder(s: Subtopic): int { s.displayOrder }
  function SubtopicCreator(s: Subtopic): Maybe<int> { s.createdBy }
  function SubtopicUpdater(s: Subtopic): Maybe<int> { s.updatedBy }
  function VideoId(v: VideoLesson): int { v.id }
  function VideoSubtopic(v: VideoLesson): int { v.subtopic }
  function VideoCreator(v: VideoLesson): Maybe<int> { v.createdBy }
  function VideoUpdater(v: VideoLesson): Maybe<int> { v.updatedBy }
  function NoteId(n: Note): int { n.id }
  function NoteSubtopic(n: Note): int { n.subtopic }
  function NoteCreator(n: Note): Maybe<int> { n.createdBy }
  function NoteUpdater(n: Note): Maybe<int> { n.updatedBy }
  function ResourceId(r: Resource): int { r.id }
  function ResourceSubtopic(r: Resource): int { r.subtopic }
  function ResourceCreator(r: Resource): Maybe<int> { r.createdBy }
  function ResourceUpdater(r: Resource): Maybe<int> { r.updatedBy }
  function QuestionId(q: Question): int { q.id }
  function QuestionSubtopic(q: Question): int { q.subtopic }
  function QuestionCreator(q: Question): Maybe<int> { q.createdBy }
  function OptionId(o: Option): int { o.id }
  function OptionQuestion(o: Option): int { o.question }
  function AnswerId(a: UserAnswer): int { a.id }
  function AnswerUser(a: UserAnswer): int { a.user }
  function AnswerQuestion(a: UserAnswer): int { a.question }
  function AnswerOption(a: UserAnswer): int { a.option }
  function StreakId(s: UserStreak): int { s.id }
  function StreakUser(s: UserStreak): int { s.user }
  function SettingId(n: NotificationSetting): int { n.id }
  function SettingUser(n: NotificationSetting): int { n.user }

  // ----- CASCADE: what one delete removes -----

  /** The keys of the rows one delete removes, per table reached by CASCADE. */
  datatype Doomed = Doomed(topics: set<int>, subtopics: set<int>, questions: set<int>, options: set<int>)

  /**
    Deleting the topics, subtopics, questions and options named by the four
    sets, and everything CASCADE reaches from them: a subtopic goes with its
    topic (Subtopic.topic), a question with its subtopic (Question.subtopic),
    an option with its question (Option.question). Lessons, notes, resources
    and answers hang off these and are removed by the Keep* filters below.
   */
  function Cascade(topics0: set<int>, subtopics0: set<int>, questions0: set<int>, options0: set<int>,
                   subtopics: seq<Subtopic>, questions: seq<Question>, options: seq<Option>): (d: Doomed)
    ensures d.topics == topics0
    ensures subtopics0 <= d.subtopics && questions0 <= d.questions && options0 <= d.options
    ensures forall s :: s in subtopics && s.topic in d.topics ==> s.id in d.subtopics
    ensures forall q :: q in questions && q.subtopic in d.subtopics ==> q.id in d.questions
    ensures forall o :: o in options && o.question in d.questions ==> o.id in d.options
    ensures d.subtopics == subtopics0 + (set s | s in subtopics && s.topic in topics0 :: s.id)
    ensures d.questions == questions0 + (set q | q in questions && q.subtopic in d.subtopics :: q.id)
    ensures d.options == options0 + (set o | o in options && o.question in d.questions :: o.id)
  {
    var s := subtopics0 + (set x | x in subtopics && x.topic in topics0 :: x.id);
    var q := questions0 + (set x | x in questions && x.subtopic in s :: x.id);
    var o := options0 + (set x | x in options && x.question in q :: x.id);
    Doomed(topics0, s, q, o)
  }

  /**
    CASCADE deletes no more than it must: any set of rows that holds the
    named ones and is closed under the three CASCADE keys holds all of them.
   */
  lemma CascadeIsLeast(topics0: set<int>, subtopics0: set<int>, questions0: set<int>, options0: set<int>,
                       subtopics: seq<Subtopic>, questions: seq<Question>, options: seq<Option>, e: Doomed)
    requires topics0 <= e.topics && subtopics0 <= e.subtopics && questions0 <= e.questions && options0 <= e.options
    requires forall s :: s in subtopics && s.topic in e.topics ==> s.id in e.subtopics
    requires forall q :: q in questions && q.subtopic in e.subtopics ==> q.id in e.questions
    requires forall o :: o in options && o.question in e.questions ==> o.id in e.options
    ensures var d := Cascade(topics0, subtopics0, questions0, options0, subtopics, questions, options);
            d.topics <= e.topics && d.subtopics <= e.subtopics && d.questions <= e.questions && d.options <= e.options
  {
  }

  /** Options have nothing that CASCADEs from them in these four tables. */
  lemma CascadeFromOptions(options0: set<int>, subtopics: seq<Subtopic>, questions: seq<Question>, options: seq<Option>)
    ensures Cascade({}, {}, {}, options0, subtopics, questions, options) == Doomed({}, {}, {}, options0)
  {
    var d := Cascade({}, {}, {}, options0, subtopics, questions, options);
    assert d.subtopics == {};
    assert d.questions == {};
  }

  function KeepTopic(d: Doomed): Topic -> bool { (t: Topic) => t.id !in d.topics }
  function KeepSubtopic(d: Doomed): Subtopic -> bool { (s: Subtopic) => s.id !in d.subtopics }
  /** VideoLesson.subtopic is CASCADE. */
  function KeepVideo(d: Doomed): VideoLesson -> bool { (v: VideoLesson) => v.subtopic !in d.subtopics }
  /** Note.subtopic is CASCADE. */
  function KeepNote(d: Doomed): Note -> bool { (n: Note) => n.subtopic !in d.subtopics }
  /** Resource.subtopic is CASCADE. */
  function KeepResource(d: Doomed): Resource -> bool { (r: Resource) => r.subtopic !in d.subtopics }
  function KeepQuestion(d: Doomed): Question -> bool { (q: Question) => q.id !in d.questions }
  function KeepOption(d: Doomed): Option -> bool { (o: Option) => o.id !in d.options }
  /** UserAnswer.question and UserAnswer.option are both CASCADE. */
  function KeepAnswer(d: Doomed): UserAnswer -> bool { (a: UserAnswer) => a.question !in d.questions && a.option !in d.options }

  // ----- deleting a user: CASCADE on activity, SET_NULL on authorship -----

  function OtherUser(u: int): User -> bool { (x: User) => x.id != u }
  /** UserAnswer.user is CASCADE. */
  function AnswerOfOther(u: int): UserAnswer -> bool { (a: UserAnswer) => a.user != u }
  /** UserStreak.user is CASCADE. */
  function StreakOfOther(u: int): UserStreak -> bool { (s: UserStreak) => s.user != u }
  /** NotificationSetting.user is a CASCADE one-to-one key. */
  function SettingOfOther(u: int): NotificationSetting -> bool { (n: NotificationSetting) => n.user != u }

  /** SET_NULL: a reference to the deleted user becomes null, any other reference stays. */
  function Unset(r: Maybe<int>, u: int): Maybe<int>
  {
    if r == Some(u) then None else r
  }

  function UnlinkTopic(u: int): Topic -> Topic
  { (t: Topic) => t.(createdBy := Unset(t.createdBy, u), updatedBy := Unset(t.updatedBy, u)) }
  function UnlinkSubtopic(u: int): Subtopic -> Subtopic
  { (s: Subtopic) => s.(createdBy := Unset(s.createdBy, u), updatedBy := Unset(s.updatedBy, u)) }
  function UnlinkVideo(u: int): VideoLesson -> VideoLesson
  { (v: VideoLesson) => v.(createdBy := Unset(v.createdBy, u), updatedBy := Unset(v.updatedBy, u)) }
  function UnlinkNote(u: int): Note -> Note
  { (n: Note) => n.(createdBy := Unset(n.createdBy, u), updatedBy := Unset(n.updatedBy, u)) }
  function UnlinkResource(u: int): Resource -> Resource
  { (r: Resource) => r.(createdBy := Unset(r.createdBy, u), updatedBy := Unset(r.updatedBy, u)) }
  function UnlinkQuestion(u: int): Question -> Question
  { (q: Question) => q.(createdBy := Unset(q.createdBy, u)) }
}
