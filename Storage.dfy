/**
  The relational store behind the views: one table per model of
  aptitude/models.py, each a sequence of rows in ascending primary-key
  order, with an auto-increment counter for every table the views insert
  into. `Valid()` is what the database guarantees about its contents:
  primary keys, the UNIQUE constraints (User.email, User.username, one
  NotificationSetting per user) and every foreign key pointing at an
  existing row. The methods are the ORM calls the views make: create, save
  (an in-place update of one row) and delete, with delete running the
  CASCADE and SET_NULL rules of the schema.
 */
module Storage {
  import opened Tables
  import opened Models

  // ----- integrity of each table, given the keys of the tables it references -----

  predicate UsersOk(users: seq<User>, next: int)
  {
    Keyed(users, UserId, next) && UniqueBy(users, UserEmail) && UniqueBy(users, UserNameOf)
  }

  predicate TopicsOk(topics: seq<Topic>, next: int, uids: set<int>)
  {
    Keyed(topics, TopicId, next)
    && NullableRefsIn(topics, TopicCreator, uids) && NullableRefsIn(topics, TopicUpdater, uids)
  }

  predicate SubtopicsOk(subtopics: seq<Subtopic>, next: int, tids: set<int>, uids: set<int>)
  {
    Keyed(subtopics, SubtopicId, next) && RefsIn(subtopics, SubtopicTopic, tids)
    && NullableRefsIn(subtopics, SubtopicCreator, uids) && NullableRefsIn(subtopics, SubtopicUpdater, uids)
  }

  predicate LessonsOk(videos: seq<VideoLesson>, notes: seq<Note>, resources: seq<Resource>,
                      sids: set<int>, uids: set<int>)
  {
    && IncreasingBy(videos, VideoId) && RefsIn(videos, VideoSubtopic, sids)
    && NullableRefsIn(videos, VideoCreator, uids) && NullableRefsIn(videos, VideoUpdater, uids)
    && IncreasingBy(notes, NoteId) && RefsIn(notes, NoteSubtopic, sids)
    && NullableRefsIn(notes, NoteCreator, uids) && NullableRefsIn(notes, NoteUpdater, uids)
    && IncreasingBy(resources, ResourceId) && RefsIn(resources, ResourceSubtopic, sids)
    && NullableRefsIn(resources, ResourceCreator, uids) && NullableRefsIn(resources, ResourceUpdater, uids)
  }

  predicate QuestionsOk(questions: seq<Question>, next: int, sids: set<int>, uids: set<int>)
  {
    Keyed(questions, QuestionId, next) && RefsIn(questions, QuestionSubtopic, sids)
    && NullableRefsIn(questions, QuestionCreator, uids)
  }

  predicate OptionsOk(options: seq<Option>, next: int, qids: set<int>)
  {
    Keyed(options, OptionId, next) && RefsIn(options, OptionQuestion, qids)
  }

  predicate AnswersOk(answers: seq<UserAnswer>, next: int, uids: set<int>, qids: set<int>, oids: set<int>)
  {
    Keyed(answers, AnswerId, next) && RefsIn(answers, AnswerUser, uids)
    && RefsIn(answers, AnswerQuestion, qids) && RefsIn(answers, AnswerOption, oids)
  }

  predicate StreaksOk(streaks: seq<UserStreak>, uids: set<int>)
  {
    IncreasingBy(streaks, StreakId) && RefsIn(streaks, StreakUser, uids)
  }

  predicate SettingsOk(settings: seq<NotificationSetting>, next: int, uids: set<int>)
  {
    Keyed(settings, SettingId, next) && RefsIn(settings, SettingUser, uids) && UniqueBy(settings, SettingUser)
  }

  /** The contents of the whole database at one moment: every table and every auto-increment counter. */
  datatype Db = Db(users: seq<User>, topics: seq<Topic>, subtopics: seq<Subtopic>,
                   videos: seq<VideoLesson>, notes: seq<Note>, resources: seq<Resource>,
                   questions: seq<Question>, options: seq<Option>, answers: seq<UserAnswer>,
                   streaks: seq<UserStreak>, settings: seq<NotificationSetting>,
                   nextUser: int, nextTopic: int, nextSubtopic: int, nextQuestion: int,
                   nextOption: int, nextAnswer: int, nextSetting: int)
  {
    /** Every primary key, UNIQUE constraint and foreign key of the schema holds. */
    ghost predicate Ok()
    {
      var uids := Ids(users, UserId);
      var sids := Ids(subtopics, SubtopicId);
      var qids := Ids(questions, QuestionId);
      && UsersOk(users, nextUser)
      && TopicsOk(topics, nextTopic, uids)
      && SubtopicsOk(subtopics, nextSubtopic, Ids(topics, TopicId), uids)
      && LessonsOk(videos, notes, resources, sids, uids)
      && QuestionsOk(questions, nextQuestion, sids, uids)
      && OptionsOk(options, nextOption, qids)
      && AnswersOk(answers, nextAnswer, uids, qids, Ids(options, OptionId))
      && StreaksOk(streaks, uids)
      && SettingsOk(settings, nextSetting, uids)
    }
  }

  /** The database after the rows doomed by `d` have been deleted. */
  function Purged(db: Db, d: Doomed): Db
  {
    db.(topics := Filter(db.topics, KeepTopic(d)),
        subtopics := Filter(db.subtopics, KeepSubtopic(d)),
        videos := Filter(db.videos, KeepVideo(d)),
        notes := Filter(db.notes, KeepNote(d)),
        resources := Filter(db.resources, KeepResource(d)),
        questions := Filter(db.questions, KeepQuestion(d)),
        options := Filter(db.options, KeepOption(d)),
        answers := Filter(db.answers, KeepAnswer(d)))
  }

  /**
    CASCADE is complete: once every row it reaches is gone, no surviving row
    points at a deleted one, and every key and UNIQUE constraint still holds.
   */
  lemma PurgeKeepsIntegrity(db: Db, d: Doomed)
    requires db.Ok()
    requires forall s :: s in db.subtopics && s.topic in d.topics ==> s.id in d.subtopics
    requires forall q :: q in db.questions && q.subtopic in d.subtopics ==> q.id in d.questions
    requires forall o :: o in db.options && o.question in d.questions ==> o.id in d.options
    ensures Purged(db, d).Ok()
  {
    FilterKeyed(db.topics, KeepTopic(d), TopicId, db.nextTopic);
    FilterKeyed(db.subtopics, KeepSubtopic(d), SubtopicId, db.nextSubtopic);
    FilterKeyed(db.questions, KeepQuestion(d), QuestionId, db.nextQuestion);
    FilterKeyed(db.options, KeepOption(d), OptionId, db.nextOption);
    FilterKeyed(db.answers, KeepAnswer(d), AnswerId, db.nextAnswer);
    FilterIncreasing(db.videos, KeepVideo(d), VideoId);
    FilterIncreasing(db.notes, KeepNote(d), NoteId);
    FilterIncreasing(db.resources, KeepResource(d), ResourceId);
    RefsAfterDelete(db.topics, TopicId, KeepTopic(d), db.subtopics, SubtopicTopic, KeepSubtopic(d));
    RefsAfterDelete(db.subtopics, SubtopicId, KeepSubtopic(d), db.videos, VideoSubtopic, KeepVideo(d));
    RefsAfterDelete(db.subtopics, SubtopicId, KeepSubtopic(d), db.notes, NoteSubtopic, KeepNote(d));
    RefsAfterDelete(db.subtopics, SubtopicId, KeepSubtopic(d), db.resources, ResourceSubtopic, KeepResource(d));
    RefsAfterDelete(db.subtopics, SubtopicId, KeepSubtopic(d), db.questions, QuestionSubtopic, KeepQuestion(d));
    RefsAfterDelete(db.questions, QuestionId, KeepQuestion(d), db.options, OptionQuestion, KeepOption(d));
    RefsAfterDelete(db.questions, QuestionId, KeepQuestion(d), db.answers, AnswerQuestion, KeepAnswer(d));
    RefsAfterDelete(db.options, OptionId, KeepOption(d), db.answers, AnswerOption, KeepAnswer(d));
  }

  /** The tables a delete reaches nothing in stay as they were. */
  lemma PurgeTouchesOnly(db: Db, d: Doomed)
    ensures d.topics == {} ==> Purged(db, d).topics == db.topics
    ensures d.subtopics == {} ==> && Purged(db, d).subtopics == db.subtopics && Purged(db, d).videos == db.videos
                                  && Purged(db, d).notes == db.notes && Purged(db, d).resources == db.resources
    ensures d.questions == {} ==> Purged(db, d).questions == db.questions
    ensures d.options == {} ==> Purged(db, d).options == db.options
    ensures d.questions == {} && d.options == {} ==> Purged(db, d).answers == db.answers
    ensures Purged(db, d) == db.(topics := Purged(db, d).topics, subtopics := Purged(db, d).subtopics,
                                 videos := Purged(db, d).videos, notes := Purged(db, d).notes,
                                 resources := Purged(db, d).resources, questions := Purged(db, d).questions,
                                 options := Purged(db, d).options, answers := Purged(db, d).answers)
  {
    if d.topics == {} { FilterKeepsAll(db.topics, KeepTopic(d)); }
    if d.subtopics == {} {
      FilterKeepsAll(db.subtopics, KeepSubtopic(d));
      FilterKeepsAll(db.videos, KeepVideo(d));
      FilterKeepsAll(db.notes, KeepNote(d));
      FilterKeepsAll(db.resources, KeepResource(d));
    }
    if d.questions == {} { FilterKeepsAll(db.questions, KeepQuestion(d)); }
    if d.options == {} { FilterKeepsAll(db.options, KeepOption(d)); }
    if d.questions == {} && d.options == {} { FilterKeepsAll(db.answers, KeepAnswer(d)); }
  }

  /** The database after user `u` has been deleted. */
  function UserDeleted(db: Db, u: int): Db
  {
    db.(users := Filter(db.users, OtherUser(u)),
        topics := MapRows(db.topics, UnlinkTopic(u)),
        subtopics := MapRows(db.subtopics, UnlinkSubtopic(u)),
        videos := MapRows(db.videos, UnlinkVideo(u)),
        notes := MapRows(db.notes, UnlinkNote(u)),
        resources := MapRows(db.resources, UnlinkResource(u)),
        questions := MapRows(db.questions, UnlinkQuestion(u)),
        answers := Filter(db.answers, AnswerOfOther(u)),
        streaks := Filter(db.streaks, StreakOfOther(u)),
        settings := Filter(db.settings, SettingOfOther(u)))
  }

  /** Deleting a user removes exactly its key from the user table. */
  lemma UsersAfterDelete(users: seq<User>, next: int, u: int)
    requires UsersOk(users, next)
    ensures UsersOk(Filter(users, OtherUser(u)), next)
    ensures Ids(Filter(users, OtherUser(u)), UserId) == Ids(users, UserId) - {u}
  {
    var us := Filter(users, OtherUser(u));
    FilterKeyed(users, OtherUser(u), UserId, next);
    forall k | k in Ids(users, UserId) - {u} ensures k in Ids(us, UserId) {
      var x :| x in users && x.id == k;
      assert x in us;
    }
    IdsOfFilter(users, OtherUser(u), UserId);
  }

  /** SET_NULL keeps the authored content's keys and references valid once the user is gone. */
  lemma ContentAfterUnlink(db: Db, u: int)
    requires db.Ok()
    ensures var after := UserDeleted(db, u);
            var uids := Ids(db.users, UserId) - {u};
            && TopicsOk(after.topics, db.nextTopic, uids)
            && Ids(after.topics, TopicId) == Ids(db.topics, TopicId)
            && SubtopicsOk(after.subtopics, db.nextSubtopic, Ids(db.topics, TopicId), uids)
            && Ids(after.subtopics, SubtopicId) == Ids(db.subtopics, SubtopicId)
            && QuestionsOk(after.questions, db.nextQuestion, Ids(db.subtopics, SubtopicId), uids)
            && Ids(after.questions, QuestionId) == Ids(db.questions, QuestionId)
  {
    var oldU := Ids(db.users, UserId);
    MapKeyed(db.topics, UnlinkTopic(u), TopicId, db.nextTopic);
    MapNullsRefs(db.topics, UnlinkTopic(u), TopicCreator, oldU, u);
    MapNullsRefs(db.topics, UnlinkTopic(u), TopicUpdater, oldU, u);
    MapKeyed(db.subtopics, UnlinkSubtopic(u), SubtopicId, db.nextSubtopic);
    MapRefs(db.subtopics, UnlinkSubtopic(u), SubtopicTopic, Ids(db.topics, TopicId));
    MapNullsRefs(db.subtopics, UnlinkSubtopic(u), SubtopicCreator, oldU, u);
    MapNullsRefs(db.subtopics, UnlinkSubtopic(u), SubtopicUpdater, oldU, u);
    MapKeyed(db.questions, UnlinkQuestion(u), QuestionId, db.nextQuestion);
    MapRefs(db.questions, UnlinkQuestion(u), QuestionSubtopic, Ids(db.subtopics, SubtopicId));
    MapNullsRefs(db.questions, UnlinkQuestion(u), QuestionCreator, oldU, u);
  }

  /** SET_NULL keeps the lessons, notes and resources valid once the user is gone. */
  lemma LessonsAfterUnlink(db: Db, u: int)
    requires db.Ok()
    ensures var after := UserDeleted(db, u);
            LessonsOk(after.videos, after.notes, after.resources,
                      Ids(db.subtopics, SubtopicId), Ids(db.users, UserId) - {u})
  {
    var oldU := Ids(db.users, UserId);
    var sids := Ids(db.subtopics, SubtopicId);
    MapIncreasing(db.videos, UnlinkVideo(u), VideoId);
    MapRefs(db.videos, UnlinkVideo(u), VideoSubtopic, sids);
    MapNullsRefs(db.videos, UnlinkVideo(u), VideoCreator, oldU, u);
    MapNullsRefs(db.videos, UnlinkVideo(u), VideoUpdater, oldU, u);
    MapIncreasing(db.notes, UnlinkNote(u), NoteId);
    MapRefs(db.notes, UnlinkNote(u), NoteSubtopic, sids);
    MapNullsRefs(db.notes, UnlinkNote(u), NoteCreator, oldU, u);
    MapNullsRefs(db.notes, UnlinkNote(u), NoteUpdater, oldU, u);
    MapIncreasing(db.resources, UnlinkResource(u), ResourceId);
    MapRefs(db.resources, UnlinkResource(u), ResourceSubtopic, sids);
    MapNullsRefs(db.resources, UnlinkResource(u), ResourceCreator, oldU, u);
    MapNullsRefs(db.resources, UnlinkResource(u), ResourceUpdater, oldU, u);
  }

  /**
    After the CASCADE from a user, the answers, streaks and notification
    settings that remain keep their keys, their one-setting-per-user rule and
    their references, now against the remaining users.
   */
  lemma ActivityAfterDelete(db: Db, u: int)
    requires db.Ok()
    ensures var after := UserDeleted(db, u);
            var uids := Ids(after.users, UserId);
            && AnswersOk(after.answers, db.nextAnswer, uids, Ids(db.questions, QuestionId), Ids(db.options, OptionId))
            && StreaksOk(after.streaks, uids)
            && SettingsOk(after.settings, db.nextSetting, uids)
  {
    FilterKeyed(db.answers, AnswerOfOther(u), AnswerId, db.nextAnswer);
    RefsAfterDelete(db.users, UserId, OtherUser(u), db.answers, AnswerUser, AnswerOfOther(u));
    FilterIncreasing(db.streaks, StreakOfOther(u), StreakId);
    RefsAfterDelete(db.users, UserId, OtherUser(u), db.streaks, StreakUser, StreakOfOther(u));
    FilterKeyed(db.settings, SettingOfOther(u), SettingId, db.nextSetting);
    RefsAfterDelete(db.users, UserId, OtherUser(u), db.settings, SettingUser, SettingOfOther(u));
  }

  /** Deleting a user, with its CASCADE and SET_NULL rules, keeps every integrity rule. */
  lemma DeleteUserKeepsIntegrity(db: Db, u: int)
    requires db.Ok()
    ensures UserDeleted(db, u).Ok()
  {
    UsersAfterDelete(db.users, db.nextUser, u);
    ContentAfterUnlink(db, u);
    LessonsAfterUnlink(db, u);
    ActivityAfterDelete(db, u);
  }

  /**
    After a user is deleted nothing refers to it: its answers, streaks and
    notification setting are gone, and the topics, subtopics, questions,
    video lessons, notes and resources stay row for row with every author or
    editor reference to it set to null and every other reference kept.
   */
  lemma DeletedUserLeavesNoTrace(db: Db, u: int)
    ensures var after := UserDeleted(db, u);
            && u !in Ids(after.users, UserId)
            && (forall a :: a in after.answers <==> a in db.answers && a.user != u)
            && (forall s :: s in after.streaks <==> s in db.streaks && s.user != u)
            && (forall n :: n in after.settings <==> n in db.settings && n.user != u)
            && |after.topics| == |db.topics| && |after.subtopics| == |db.subtopics| && |after.questions| == |db.questions|
            && |after.videos| == |db.videos| && |after.notes| == |db.notes| && |after.resources| == |db.resources|
            && (forall i :: 0 <= i < |db.topics| ==>
                  after.topics[i] == db.topics[i].(createdBy := Unset(db.topics[i].createdBy, u),
                                                   updatedBy := Unset(db.topics[i].updatedBy, u))
                  && after.topics[i].createdBy != Some(u) && after.topics[i].updatedBy != Some(u))
            && (forall i :: 0 <= i < |db.subtopics| ==>
                  after.subtopics[i] == db.subtopics[i].(createdBy := Unset(db.subtopics[i].createdBy, u),
                                                         updatedBy := Unset(db.subtopics[i].updatedBy, u))
                  && after.subtopics[i].createdBy != Some(u) && after.subtopics[i].updatedBy != Some(u))
            && (forall i :: 0 <= i < |db.questions| ==>
                  after.questions[i] == db.questions[i].(createdBy := Unset(db.questions[i].createdBy, u))
                  && after.questions[i].createdBy != Some(u))
            && (forall i :: 0 <= i < |db.videos| ==>
                  after.videos[i] == db.videos[i].(createdBy := Unset(db.videos[i].createdBy, u),
                                                   updatedBy := Unset(db.videos[i].updatedBy, u))
                  && after.videos[i].createdBy != Some(u) && after.videos[i].updatedBy != Some(u))
            && (forall i :: 0 <= i < |db.notes| ==>
                  after.notes[i] == db.notes[i].(createdBy := Unset(db.notes[i].createdBy, u),
                                                 updatedBy := Unset(db.notes[i].updatedBy, u))
                  && after.notes[i].createdBy != Some(u) && after.notes[i].updatedBy != Some(u))
            && (forall i :: 0 <= i < |db.resources| ==>
                  after.resources[i] == db.resources[i].(createdBy := Unset(db.resources[i].createdBy, u),
                                                         updatedBy := Unset(db.resources[i].updatedBy, u))
                  && after.resources[i].createdBy != Some(u) && after.resources[i].updatedBy != Some(u))
  {
  }

  // ----- what UserManager.create_user does with its arguments -----

  /** `str.lower` on one character, for the ASCII letters; every other character is kept. */
  function LowerChar(c: char): char
  {
    if 'A' <= c <= 'Z' then (c as int + 32) as char else c
  }

  /** Lower-casing twice is lower-casing once, and it never makes or removes an '@'. */
  lemma LowerCharFacts(c: char)
    ensures LowerChar(LowerChar(c)) == LowerChar(c)
    ensures LowerChar(c) == '@' <==> c == '@'
  {
  }

  /** Where the last '@' of `s` is, if it has one (`rsplit("@", 1)`). */
  function LastAt(s: string): (r: Maybe<nat>)
    ensures r.Some? ==> r.value < |s| && s[r.value] == '@' && forall k :: r.value < k < |s| ==> s[k] != '@'
    ensures r.None? ==> forall k :: 0 <= k < |s| ==> s[k] != '@'
    decreases |s|
  {
    if s == [] then None
    else if s[|s| - 1] == '@' then Some(|s| - 1)
    else LastAt(s[..|s| - 1])
  }

  /**
    `normalize_email`: the domain, everything after the last '@', is
    lower-cased; an address without '@' is kept as it is.
   */
  function NormalizeEmail(e: string): string
  {
    match LastAt(e)
    case None => e
    case Some(i) => e[..i + 1] + LowerAll(e[i + 1..])
  }

  function LowerAll(s: string): string
  {
    seq(|s|, k requires 0 <= k < |s| => LowerChar(s[k]))
  }

  /** The last '@' is the one no other '@' follows. */
  lemma LastAtIs(s: string, i: nat)
    requires i < |s| && s[i] == '@' && forall k :: i < k < |s| ==> s[k] != '@'
    ensures LastAt(s) == Some(i)
  {
  }

  /** The characters of a normalised address, one by one. */
  lemma NormalizeEmailAt(e: string, i: nat)
    requires LastAt(e) == Some(i)
    ensures var r := NormalizeEmail(e);
            && |r| == |e|
            && r[..i + 1] == e[..i + 1]
            && (forall k :: 0 <= k <= i ==> r[k] == e[k])
            && (forall k :: i < k < |e| ==> r[k] == LowerChar(e[k]))
  {
    var r := NormalizeEmail(e);
    var d := LowerAll(e[i + 1..]);
    assert r == e[..i + 1] + d;
    assert r[..i + 1] == e[..i + 1];
    forall k | 0 <= k <= i ensures r[k] == e[k] {
      assert r[k] == e[..i + 1][k];
    }
    forall k | i < k < |e| ensures r[k] == LowerChar(e[k]) {
      assert r[k] == d[k - (i + 1)];
      assert e[i + 1..][k - (i + 1)] == e[k];
    }
  }

  /**
    Normalising changes an address in letter case only, keeps everything up
    to the last '@' as it was, and a second normalisation changes nothing.
   */
  lemma NormalizeEmailOnlyFoldsCase(e: string)
    ensures var r := NormalizeEmail(e);
            && |r| == |e|
            && LowerAll(r) == LowerAll(e)
            && (match LastAt(e)
                case None => r == e
                case Some(i) => r[..i + 1] == e[..i + 1] && LowerAll(r[i + 1..]) == r[i + 1..])
            && NormalizeEmail(r) == r
  {
    match LastAt(e)
    case None => NormalizeEmailWithoutAt(e);
    case Some(i) => NormalizeEmailWithAt(e, i);
  }

  /** An address without '@' is kept as it is. */
  lemma NormalizeEmailWithoutAt(e: string)
    requires LastAt(e).None?
    ensures NormalizeEmail(e) == e
  {
  }

  /** The same, for an address whose last '@' is at `i`. */
  lemma NormalizeEmailWithAt(e: string, i: nat)
    requires LastAt(e) == Some(i)
    ensures var r := NormalizeEmail(e);
            && |r| == |e|
            && LowerAll(r) == LowerAll(e)
            && r[..i + 1] == e[..i + 1]
            && LowerAll(r[i + 1..]) == r[i + 1..]
            && NormalizeEmail(r) == r
  {
    NormalizeEmailAt(e, i);
    NormalizedFoldsCase(e, i);
    DomainLowered(NormalizeEmail(e), i);
    NormalizedKeepsLastAt(e, i);
    NormalizedIsFixed(NormalizeEmail(e), i);
  }

  /** A part after `i` whose every letter is its own lower case is left as it is by lower-casing. */
  lemma DomainLowered(r: string, i: nat)
    requires i < |r|
    requires forall k :: i < k < |r| ==> LowerChar(r[k]) == r[k]
    ensures LowerAll(r[i + 1..]) == r[i + 1..]
  {
    var d := r[i + 1..];
    forall k | 0 <= k < |d| ensures LowerAll(d)[k] == d[k] {
      assert d[k] == r[i + 1 + k];
    }
  }

  /** Normalising keeps every letter up to case, and leaves the domain lower-cased. */
  lemma NormalizedFoldsCase(e: string, i: nat)
    requires LastAt(e) == Some(i)
    ensures var r := NormalizeEmail(e);
            && |r| == |e|
            && LowerAll(r) == LowerAll(e)
            && (forall k :: i < k < |r| ==> LowerChar(r[k]) == r[k])
  {
    NormalizeEmailAt(e, i);
    var r := NormalizeEmail(e);
    forall k | 0 <= k < |e| ensures LowerChar(r[k]) == LowerChar(e[k]) && (i < k ==> LowerChar(r[k]) == r[k]) {
      LowerCharFacts(e[k]);
    }
    assert LowerAll(r) == LowerAll(e);
  }

  /** Normalising leaves the last '@' where it was. */
  lemma NormalizedKeepsLastAt(e: string, i: nat)
    requires LastAt(e) == Some(i)
    ensures LastAt(NormalizeEmail(e)) == Some(i)
  {
    NormalizeEmailAt(e, i);
    var r := NormalizeEmail(e);
    forall k | i < k < |r| ensures r[k] != '@' {
      LowerCharFacts(e[k]);
    }
    LastAtIs(r, i);
  }

  /** An address whose domain is already lower-cased is its own normalisation. */
  lemma NormalizedIsFixed(r: string, i: nat)
    requires LastAt(r) == Some(i)
    requires forall k :: i < k < |r| ==> LowerChar(r[k]) == r[k]
    ensures NormalizeEmail(r) == r
  {
    NormalizeEmailAt(r, i);
    var rr := NormalizeEmail(r);
    assert forall k :: 0 <= k < |r| ==> rr[k] == r[k];
  }

  /** An address whose domain is written in capitals is stored with the domain in lower case. */
  lemma DomainCaseFolded()
    ensures NormalizeEmail("ann@EXAMPLE.com") == "ann@example.com"
  {
    var e := "ann@EXAMPLE.com";
    LastAtIs(e, 3);
    NormalizeEmailAt(e, 3);
    var r := NormalizeEmail(e);
    assert r[4] == 'e' && r[5] == 'x' && r[6] == 'a' && r[7] == 'm' && r[8] == 'p' && r[9] == 'l' && r[10] == 'e';
    assert r == "ann@example.com";
  }

  /**
    `create_user` refuses to create the user: an empty username raises
    ValueError, and a username or normalised email already stored makes
    the INSERT violate a UNIQUE column.
   */
  predicate CreateUserFails(users: seq<User>, username: string, email: string)
  {
    username == "" || UsernameTaken(users, username) || EmailTaken(users, NormalizeEmail(email))
  }

  /** `User.objects.filter(username=name).exists()`. */
  predicate UsernameTaken(users: seq<User>, name: string) { exists u :: u in users && u.username == name }

  /** `User.objects.filter(email=email).exists()`. */
  predicate EmailTaken(users: seq<User>, email: string) { exists u :: u in users && u.email == email }

  /** The empty database every auto-increment counter of which starts at 1. */
  const Empty: Db := Db([], [], [], [], [], [], [], [], [], [], [], 1, 1, 1, 1, 1, 1, 1)

  /**
    The database connection: its one field is the current content, which each
    ORM call replaces. Every method keeps `Valid()` and says exactly which
    tables and counters it changes; the rest of `db` stays as it was.
   */
  class Store {
    var db: Db

    ghost predicate Valid()
      reads this
    {
      db.Ok()
    }

    /** An empty database. */
    constructor ()
      ensures Valid() && db == Empty
    {
      db := Empty;
    }

    // ----- inserts -----

    /**
      `User.objects.create_user`: the user is stored with its email
      normalised, or, when `create_user` fails, nothing changes.
     */
    method CreateUser(username: string, email: string, role: Role) returns (id: Maybe<int>)
      requires Valid()
      modifies this
      ensures Valid()
      ensures id.None? <==> CreateUserFails(old(db.users), username, email)
      ensures id.None? ==> db == old(db)
      ensures id.Some? ==> id.value == old(db.nextUser)
      ensures id.Some? ==> db == old(db).(users := old(db.users) + [User(id.value, username, NormalizeEmail(email), role)],
                                          nextUser := id.value + 1)
      ensures id.Some? ==> Ids(db.users, UserId) == old(Ids(db.users, UserId)) + {id.value}
    {
      if CreateUserFails(db.users, username, email) {
        return None;
      }
      var u := User(db.nextUser, username, NormalizeEmail(email), role);
      AppendKeyed(db.users, u, UserId, db.nextUser);
      AppendUnique(db.users, u, UserEmail);
      AppendUnique(db.users, u, UserNameOf);
      id := Some(db.nextUser);
      db := db.(users := db.users + [u], nextUser := db.nextUser + 1);
    }

    /** `Topic.objects.create`. */
    method CreateTopic(name: string, category: Category, displayOrder: int, creator: Maybe<int>)
      returns (id: int)
      requires Valid()
      requires creator.None? || creator.value in Ids(db.users, UserId)
      modifies this
      ensures Valid()
      ensures id == old(db.nextTopic)
      ensures db == old(db).(topics := old(db.topics) + [Topic(id, name, category, displayOrder, creator, None)],
                             nextTopic := id + 1)
      ensures Ids(db.topics, TopicId) == old(Ids(db.topics, TopicId)) + {id}
    {
      var t := Topic(db.nextTopic, name, category, displayOrder, creator, None);
      AppendKeyed(db.topics, t, TopicId, db.nextTopic);
      id := db.nextTopic;
      db := db.(topics := db.topics + [t], nextTopic := db.nextTopic + 1);
    }

    /** `topic.save()` after changing its name and category. */
    method SaveTopic(i: nat, name: string, category: Category)
      requires Valid() && i < |db.topics|
      modifies this
      ensures Valid()
      ensures db == old(db).(topics := old(db.topics)[i := old(db.topics)[i].(name := name, category := category)])
      ensures Ids(db.topics, TopicId) == old(Ids(db.topics, TopicId))
    {
      var t := db.topics[i].(name := name, category := category);
      UpdateKeyed(db.topics, i, t, TopicId, db.nextTopic);
      db := db.(topics := db.topics[i := t]);
    }

    /** `Subtopic.objects.create`. */
    method CreateSubtopic(topic: int, name: string, displayOrder: int, creator: Maybe<int>)
      returns (id: int)
      requires Valid()
      requires topic in Ids(db.topics, TopicId)
      requires creator.None? || creator.value in Ids(db.users, UserId)
      modifies this
      ensures Valid()
      ensures id == old(db.nextSubtopic)
      ensures db == old(db).(subtopics := old(db.subtopics) + [Subtopic(id, topic, name, displayOrder, creator, None)],
                             nextSubtopic := id + 1)
      ensures Ids(db.subtopics, SubtopicId) == old(Ids(db.subtopics, SubtopicId)) + {id}
    {
      var s := Subtopic(db.nextSubtopic, topic, name, displayOrder, creator, None);
      AppendKeyed(db.subtopics, s, SubtopicId, db.nextSubtopic);
      id := db.nextSubtopic;
      db := db.(subtopics := db.subtopics + [s], nextSubtopic := db.nextSubtopic + 1);
    }

    /** `subtopic.save()` after changing its name. */
    method SaveSubtopic(i: nat, name: string)
      requires Valid() && i < |db.subtopics|
      modifies this
      ensures Valid()
      ensures db == old(db).(subtopics := old(db.subtopics)[i := old(db.subtopics)[i].(name := name)])
      ensures Ids(db.subtopics, SubtopicId) == old(Ids(db.subtopics, SubtopicId))
    {
      var s := db.subtopics[i].(name := name);
      UpdateKeyed(db.subtopics, i, s, SubtopicId, db.nextSubtopic);
      db := db.(subtopics := db.subtopics[i := s]);
    }

    /** `Question.objects.create`. */
    method CreateQuestion(subtopic: int, difficulty: Difficulty, text: string, timeLimit: int,
                          creator: Maybe<int>) returns (id: int)
      requires Valid()
      requires subtopic in Ids(db.subtopics, SubtopicId)
      requires creator.None? || creator.value in Ids(db.users, UserId)
      modifies this
      ensures Valid()
      ensures id == old(db.nextQuestion)
      ensures db == old(db).(questions := old(db.questions) + [Question(id, subtopic, difficulty, text, timeLimit, creator)],
                             nextQuestion := id + 1)
      ensures Ids(db.questions, QuestionId) == old(Ids(db.questions, QuestionId)) + {id}
    {
      var q := Question(db.nextQuestion, subtopic, difficulty, text, timeLimit, creator);
      AppendKeyed(db.questions, q, QuestionId, db.nextQuestion);
      id := db.nextQuestion;
      db := db.(questions := db.questions + [q], nextQuestion := db.nextQuestion + 1);
    }

    /** `question.save()` after changing its text, difficulty and time limit. */
    method SaveQuestion(i: nat, text: string, difficulty: Difficulty, timeLimit: int)
      requires Valid() && i < |db.questions|
      modifies this
      ensures Valid()
      ensures db == old(db).(questions := old(db.questions)[i := old(db.questions)[i].(text := text, difficulty := difficulty,
                                                                                       timeLimit := timeLimit)])
      ensures Ids(db.questions, QuestionId) == old(Ids(db.questions, QuestionId))
    {
      var q := db.questions[i].(text := text, difficulty := difficulty, timeLimit := timeLimit);
      UpdateKeyed(db.questions, i, q, QuestionId, db.nextQuestion);
      db := db.(questions := db.questions[i := q]);
    }

    /** `Option.objects.create`. */
    method CreateOption(question: int, text: string, isCorrect: bool) returns (id: int)
      requires Valid()
      requires question in Ids(db.questions, QuestionId)
      modifies this
      ensures Valid()
      ensures id == old(db.nextOption)
      ensures db == old(db).(options := old(db.options) + [Option(id, question, text, isCorrect)], nextOption := id + 1)
      ensures Ids(db.options, OptionId) == old(Ids(db.options, OptionId)) + {id}
    {
      var o := Option(db.nextOption, question, text, isCorrect);
      AppendKeyed(db.options, o, OptionId, db.nextOption);
      id := db.nextOption;
      db := db.(options := db.options + [o], nextOption := db.nextOption + 1);
    }

    /** `UserAnswer.objects.create`. */
    method CreateAnswer(user: int, question: int, option: int, isCorrect: bool, timeTaken: int)
      returns (id: int)
      requires Valid()
      requires user in Ids(db.users, UserId)
      requires question in Ids(db.questions, QuestionId)
      requires option in Ids(db.options, OptionId)
      modifies this
      ensures Valid()
      ensures id == old(db.nextAnswer)
      ensures db == old(db).(answers := old(db.answers) + [UserAnswer(id, user, question, option, isCorrect, timeTaken)],
                             nextAnswer := id + 1)
    {
      var a := UserAnswer(db.nextAnswer, user, question, option, isCorrect, timeTaken);
      AppendKeyed(db.answers, a, AnswerId, db.nextAnswer);
      id := db.nextAnswer;
      db := db.(answers := db.answers + [a], nextAnswer := db.nextAnswer + 1);
    }

    /**
      `NotificationSetting.objects.create`: refused (the one-to-one key is
      UNIQUE) when the user already has a setting; `enabled` defaults to true.
     */
    method CreateNotificationSetting(user: int, reminderTime: int, enabled: Maybe<bool>)
      returns (id: Maybe<int>)
      requires Valid()
      requires user in Ids(db.users, UserId)
      modifies this
      ensures Valid()
      ensures id.None? <==> user in old(Ids(db.settings, SettingUser))
      ensures id.None? ==> db == old(db)
      ensures id.Some? ==> id.value == old(db.nextSetting)
      ensures id.Some? ==>
        db == old(db).(settings := old(db.settings) + [NotificationSetting(id.value, user, reminderTime,
                                                         if enabled.Some? then enabled.value else EnabledByDefault)],
                       nextSetting := id.value + 1)
    {
      if Find(db.settings, SettingUser, user).Some? {
        id := None;
      } else {
        var n := NotificationSetting(db.nextSetting, user, reminderTime,
                                     if enabled.Some? then enabled.value else EnabledByDefault);
        AppendKeyed(db.settings, n, SettingId, db.nextSetting);
        AppendUnique(db.settings, n, SettingUser);
        id := Some(db.nextSetting);
        db := db.(settings := db.settings + [n], nextSetting := db.nextSetting + 1);
      }
    }

    // ----- deletes -----

    /**
      `.delete()` on the topics, subtopics, questions and options named by the
      four sets: the rows CASCADE reaches (Models.Cascade) leave every table,
      and every other row stays where it was.
     */
    method Purge(topics0: set<int>, subtopics0: set<int>, questions0: set<int>, options0: set<int>)
      returns (d: Doomed)
      requires Valid()
      modifies this
      ensures Valid()
      ensures d == Cascade(topics0, subtopics0, questions0, options0,
                           old(db.subtopics), old(db.questions), old(db.options))
      ensures db == Purged(old(db), d)
    {
      d := Cascade(topics0, subtopics0, questions0, options0, db.subtopics, db.questions, db.options);
      PurgeKeepsIntegrity(db, d);
      db := Purged(db, d);
    }

    /**
      Deleting a user: the rows that CASCADE from it (its answers, streaks and
      notification setting) go, and every created_by / updated_by that named it
      becomes null (SET_NULL); the content itself stays.
     */
    method DeleteUser(u: int)
      requires Valid()
      modifies this
      ensures Valid()
      ensures db == UserDeleted(old(db), u)
    {
      DeleteUserKeepsIntegrity(db, u);
      db := UserDeleted(db, u);
    }
  }
}
