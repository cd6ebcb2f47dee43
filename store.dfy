// The persisted progress store (src/store/useStore.js): a single state
// record with three parts — the user profile, the progress aggregate and the
// ephemeral current session. Every action builds a whole new state from the
// old one, so each is a function State -> State here; the process-wide
// singleton that holds the current value is the class StoreCell.
module Store {
  import opened Js
  import opened Seqs

  datatype Mode = Study | Simulate

  datatype Settings = Settings(extendedTime: bool, darkMode: bool)

  datatype User = User(
    name: string,
    avatar: Option<string>,
    targetScore: int,
    testDate: Option<string>,
    settings: Settings)

  /** One answer log entry. The application writes no `section` and no
      `category` into an entry; the queries nevertheless read both, so the
      fields are kept, as absent or present. */
  datatype AnswerEntry = AnswerEntry(
    questionId: string,
    answer: string,
    isCorrect: bool,
    timeSpent: int,
    timestamp: int,
    mode: Option<Mode>,
    section: Option<string>,
    category: Option<string>)

  /** One finished mock test. The composite score is NaN for an empty deck. */
  datatype MockTestRecord = MockTestRecord(
    date: string,
    section: string,
    questionsTotal: nat,
    questionsCorrect: nat,
    compositeScore: Number)

  datatype FlashcardReview = FlashcardReview(cardId: string, known: bool, timestamp: int)

  datatype Progress = Progress(
    lessonsCompleted: seq<string>,
    questionsAnswered: seq<AnswerEntry>,
    mockTestsTaken: seq<MockTestRecord>,
    flashcardsReviewed: seq<FlashcardReview>,
    totalStudyTime: int)

  datatype Session = Session(
    mode: Option<Mode>,
    section: Option<string>,
    category: Option<string>,
    questionIndex: int,
    answers: map<string, string>,
    flaggedQuestions: seq<string>,
    startTime: Option<int>,
    timeRemaining: Option<int>)

  datatype State = State(user: User, progress: Progress, currentSession: Session)

  /** The fields a setUser call may carry; an absent field is left as it was. */
  datatype UserPatch = UserPatch(
    name: Option<string>,
    avatar: Option<Option<string>>,
    targetScore: Option<int>,
    testDate: Option<Option<string>>,
    settings: Option<Settings>)

  datatype SettingsPatch = SettingsPatch(extendedTime: Option<bool>, darkMode: Option<bool>)

  /** Lessons the overall-progress figure divides by (eight weeks of seven days). */
  const TotalLessons: nat := 56

  const EmptySession := Session(None, None, None, 0, map[], [], None, None)

  const Initial := State(
    User("Student", None, 32, None, Settings(false, false)),
    Progress([], [], [], [], 0),
    EmptySession)

  function Patched<T>(field: Option<T>, current: T): T
  {
    if field.Some? then field.value else current
  }

  // ---- user ----

  function SetUser(s: State, patch: UserPatch): (r: State)
    ensures r.progress == s.progress && r.currentSession == s.currentSession
    ensures patch.name.None? ==> r.user.name == s.user.name
    ensures patch.name.Some? ==> r.user.name == patch.name.value
    ensures patch.targetScore.None? ==> r.user.targetScore == s.user.targetScore
    ensures patch.targetScore.Some? ==> r.user.targetScore == patch.targetScore.value
    ensures patch.avatar.None? ==> r.user.avatar == s.user.avatar
    ensures patch.avatar.Some? ==> r.user.avatar == patch.avatar.value
    ensures patch.testDate.None? ==> r.user.testDate == s.user.testDate
    ensures patch.testDate.Some? ==> r.user.testDate == patch.testDate.value
    ensures patch.settings.None? ==> r.user.settings == s.user.settings
    ensures patch.settings.Some? ==> r.user.settings == patch.settings.value
  {
    s.(user := User(
      Patched(patch.name, s.user.name),
      Patched(patch.avatar, s.user.avatar),
      Patched(patch.targetScore, s.user.targetScore),
      Patched(patch.testDate, s.user.testDate),
      Patched(patch.settings, s.user.settings)))
  }

  function UpdateSettings(s: State, patch: SettingsPatch): (r: State)
    ensures r.progress == s.progress && r.currentSession == s.currentSession
    ensures r.user == s.user.(settings := r.user.settings)
    ensures patch.extendedTime.None? ==> r.user.settings.extendedTime == s.user.settings.extendedTime
    ensures patch.extendedTime.Some? ==> r.user.settings.extendedTime == patch.extendedTime.value
    ensures patch.darkMode.None? ==> r.user.settings.darkMode == s.user.settings.darkMode
    ensures patch.darkMode.Some? ==> r.user.settings.darkMode == patch.darkMode.value
  {
    s.(user := s.user.(settings := Settings(
      Patched(patch.extendedTime, s.user.settings.extendedTime),
      Patched(patch.darkMode, s.user.settings.darkMode))))
  }

  function ToggleDarkMode(s: State): (r: State)
    ensures r.user.settings.darkMode == !s.user.settings.darkMode
    ensures r.user.settings.extendedTime == s.user.settings.extendedTime
    ensures r.user == s.user.(settings := r.user.settings)
    ensures r.progress == s.progress && r.currentSession == s.currentSession
  {
    UpdateSettings(s, SettingsPatch(None, Some(!s.user.settings.darkMode)))
  }

  // ---- progress ----

  /** Idempotent insert: an id already present leaves the list as it is, a
      new id goes to the end. */
  function CompleteLesson(s: State, lessonId: string): (r: State)
    ensures r.user == s.user && r.currentSession == s.currentSession
    ensures r.progress == s.progress.(lessonsCompleted := r.progress.lessonsCompleted)
    ensures lessonId in s.progress.lessonsCompleted ==>
              r.progress.lessonsCompleted == s.progress.lessonsCompleted
    ensures lessonId !in s.progress.lessonsCompleted ==>
              r.progress.lessonsCompleted == s.progress.lessonsCompleted + [lessonId]
  {
    var done := s.progress.lessonsCompleted;
    s.(progress := s.progress.(lessonsCompleted := if lessonId in done then done else done + [lessonId]))
  }

  /** Appends one log entry stamped with the session's mode; the entry has
      no section and no category. */
  function RecordAnswer(s: State, questionId: string, answer: string, isCorrect: bool,
                        timeSpent: int, now: int): (r: State)
    ensures r.user == s.user && r.currentSession == s.currentSession
    ensures r.progress == s.progress.(questionsAnswered := r.progress.questionsAnswered)
    ensures |r.progress.questionsAnswered| == |s.progress.questionsAnswered| + 1
    ensures r.progress.questionsAnswered[..|s.progress.questionsAnswered|] == s.progress.questionsAnswered
    ensures Last(r.progress.questionsAnswered) ==
              AnswerEntry(questionId, answer, isCorrect, timeSpent, now, s.currentSession.mode, None, None)
  {
    var entry := AnswerEntry(questionId, answer, isCorrect, timeSpent, now, s.currentSession.mode, None, None);
    s.(progress := s.progress.(questionsAnswered := s.progress.questionsAnswered + [entry]))
  }

  function Last<T>(s: seq<T>): T
    requires s != []
  {
    s[|s| - 1]
  }

  function RecordMockTest(s: State, testData: MockTestRecord): (r: State)
    ensures r.user == s.user && r.currentSession == s.currentSession
    ensures r.progress == s.progress.(mockTestsTaken := r.progress.mockTestsTaken)
    ensures r.progress.mockTestsTaken == s.progress.mockTestsTaken + [testData]
  {
    s.(progress := s.progress.(mockTestsTaken := s.progress.mockTestsTaken + [testData]))
  }

  function ReviewFlashcard(s: State, cardId: string, known: bool, now: int): (r: State)
    ensures r.user == s.user && r.currentSession == s.currentSession
    ensures r.progress == s.progress.(flashcardsReviewed := r.progress.flashcardsReviewed)
    ensures r.progress.flashcardsReviewed == s.progress.flashcardsReviewed + [FlashcardReview(cardId, known, now)]
  {
    s.(progress := s.progress.(flashcardsReviewed :=
      s.progress.flashcardsReviewed + [FlashcardReview(cardId, known, now)]))
  }

  function AddStudyTime(s: State, minutes: int): (r: State)
    ensures r.user == s.user && r.currentSession == s.currentSession
    ensures r.progress == s.progress.(totalStudyTime := r.progress.totalStudyTime)
    ensures r.progress.totalStudyTime - s.progress.totalStudyTime == minutes
  {
    s.(progress := s.progress.(totalStudyTime := s.progress.totalStudyTime + minutes))
  }

  // ---- session ----

  function StartSession(s: State, mode: Mode, section: Option<string>, category: Option<string>,
                        now: int): (r: State)
    ensures r.user == s.user && r.progress == s.progress
    ensures r.currentSession.mode == Some(mode)
    ensures r.currentSession.section == section && r.currentSession.category == category
    ensures r.currentSession.questionIndex == 0
    ensures r.currentSession.answers == map[] && r.currentSession.flaggedQuestions == []
    ensures r.currentSession.startTime == Some(now) && r.currentSession.timeRemaining.None?
  {
    s.(currentSession := Session(Some(mode), section, category, 0, map[], [], Some(now), None))
  }

  function SetQuestionIndex(s: State, index: int): (r: State)
    ensures r.user == s.user && r.progress == s.progress
    ensures r.currentSession == s.currentSession.(questionIndex := index)
  {
    s.(currentSession := s.currentSession.(questionIndex := index))
  }

  /** Overwrites the answer for one question and nothing else. */
  function SetAnswer(s: State, questionId: string, answer: string): (r: State)
    ensures r.user == s.user && r.progress == s.progress
    ensures r.currentSession == s.currentSession.(answers := r.currentSession.answers)
    ensures r.currentSession.answers.Keys == s.currentSession.answers.Keys + {questionId}
    ensures r.currentSession.answers[questionId] == answer
    ensures forall q :: q in s.currentSession.answers && q != questionId ==>
              r.currentSession.answers[q] == s.currentSession.answers[q]
  {
    s.(currentSession := s.currentSession.(answers := s.currentSession.answers[questionId := answer]))
  }

  function ToggleFlag(s: State, questionId: string): (r: State)
    ensures r.user == s.user && r.progress == s.progress
    ensures r.currentSession == s.currentSession.(flaggedQuestions := r.currentSession.flaggedQuestions)
    ensures questionId in r.currentSession.flaggedQuestions <==> questionId !in s.currentSession.flaggedQuestions
    ensures forall q :: q != questionId ==>
              (q in r.currentSession.flaggedQuestions <==> q in s.currentSession.flaggedQuestions)
  {
    s.(currentSession := s.currentSession.(flaggedQuestions := Toggle(s.currentSession.flaggedQuestions, questionId)))
  }

  function SetTimeRemaining(s: State, time: int): (r: State)
    ensures r.user == s.user && r.progress == s.progress
    ensures r.currentSession == s.currentSession.(timeRemaining := Some(time))
  {
    s.(currentSession := s.currentSession.(timeRemaining := Some(time)))
  }

  function EndSession(s: State): (r: State)
    ensures r.user == s.user && r.progress == s.progress
    ensures r.currentSession == Initial.currentSession
  {
    s.(currentSession := EmptySession)
  }

  // ---- every action, for statements about all of them ----

  datatype Action =
    | SetUserAction(patch: UserPatch)
    | UpdateSettingsAction(settingsPatch: SettingsPatch)
    | ToggleDarkModeAction
    | CompleteLessonAction(lessonId: string)
    | RecordAnswerAction(questionId: string, answer: string, isCorrect: bool, timeSpent: int, now: int)
    | RecordMockTestAction(testData: MockTestRecord)
    | ReviewFlashcardAction(cardId: string, known: bool, reviewedAt: int)
    | StartSessionAction(mode: Mode, section: Option<string>, category: Option<string>, startedAt: int)
    | SetQuestionIndexAction(index: int)
    | SetAnswerAction(answerFor: string, chosen: string)
    | ToggleFlagAction(flagFor: string)
    | SetTimeRemainingAction(time: int)
    | EndSessionAction
    | AddStudyTimeAction(minutes: int)

  function Apply(s: State, a: Action): State
  {
    match a
    case SetUserAction(p) => SetUser(s, p)
    case UpdateSettingsAction(p) => UpdateSettings(s, p)
    case ToggleDarkModeAction => ToggleDarkMode(s)
    case CompleteLessonAction(id) => CompleteLesson(s, id)
    case RecordAnswerAction(q, ans, ok, t, now) => RecordAnswer(s, q, ans, ok, t, now)
    case RecordMockTestAction(d) => RecordMockTest(s, d)
    case ReviewFlashcardAction(c, k, now) => ReviewFlashcard(s, c, k, now)
    case StartSessionAction(m, sec, cat, now) => StartSession(s, m, sec, cat, now)
    case SetQuestionIndexAction(i) => SetQuestionIndex(s, i)
    case SetAnswerAction(q, ans) => SetAnswer(s, q, ans)
    case ToggleFlagAction(q) => ToggleFlag(s, q)
    case SetTimeRemainingAction(t) => SetTimeRemaining(s, t)
    case EndSessionAction => EndSession(s)
    case AddStudyTimeAction(m) => AddStudyTime(s, m)
  }

  function ApplyAll(s: State, actions: seq<Action>): State
    decreases |actions|
  {
    if actions == [] then s else ApplyAll(Apply(s, actions[0]), actions[1..])
  }

  /** Only the answer log and the mock-test list grow, and only at the end:
      no action rewrites or removes a recorded answer or test. */
  lemma {:induction false} LogsAreAppendOnly(s: State, actions: seq<Action>)
    ensures s.progress.questionsAnswered <= ApplyAll(s, actions).progress.questionsAnswered
    ensures s.progress.mockTestsTaken <= ApplyAll(s, actions).progress.mockTestsTaken
    ensures s.progress.lessonsCompleted <= ApplyAll(s, actions).progress.lessonsCompleted
    decreases |actions|
  {
    if actions != [] {
      LogsAreAppendOnly(Apply(s, actions[0]), actions[1..]);
    }
  }

  /** No answer log entry carries a section or a category. */
  predicate UntaggedLog(log: seq<AnswerEntry>)
  {
    forall i :: 0 <= i < |log| ==> log[i].section.None? && log[i].category.None?
  }

  /** Whatever the application does from its initial state, the answer log
      stays untagged, because recordAnswer is the only writer. */
  lemma {:induction false} ActionsKeepLogUntagged(s: State, actions: seq<Action>)
    requires UntaggedLog(s.progress.questionsAnswered)
    ensures UntaggedLog(ApplyAll(s, actions).progress.questionsAnswered)
    decreases |actions|
  {
    if actions != [] {
      var next := Apply(s, actions[0]);
      assert UntaggedLog(next.progress.questionsAnswered);
      ActionsKeepLogUntagged(next, actions[1..]);
    }
  }

  /** Lessons are never listed twice. */
  lemma {:induction false} ActionsKeepLessonsDistinct(s: State, actions: seq<Action>)
    requires Distinct(s.progress.lessonsCompleted)
    ensures Distinct(ApplyAll(s, actions).progress.lessonsCompleted)
    decreases |actions|
  {
    if actions != [] {
      var next := Apply(s, actions[0]);
      assert Distinct(next.progress.lessonsCompleted);
      ActionsKeepLessonsDistinct(next, actions[1..]);
    }
  }

  /** The mode stamped on answers: recordAnswer stamps the session's mode,
      so without a startSession call the session mode stays null and every
      answer logged meanwhile carries a null mode. */
  lemma {:induction false} ModeWithoutStartSession(s: State, actions: seq<Action>)
    requires s.currentSession.mode.None?
    requires forall i :: 0 <= i < |s.progress.questionsAnswered| ==> s.progress.questionsAnswered[i].mode.None?
    requires forall i :: 0 <= i < |actions| ==> !actions[i].StartSessionAction?
    ensures ApplyAll(s, actions).currentSession.mode.None?
    ensures var log := ApplyAll(s, actions).progress.questionsAnswered;
            forall i :: 0 <= i < |log| ==> log[i].mode.None?
    decreases |actions|
  {
    if actions != [] {
      var next := Apply(s, actions[0]);
      assert next.currentSession.mode.None?;
      assert forall i :: 0 <= i < |next.progress.questionsAnswered| ==> next.progress.questionsAnswered[i].mode.None?;
      ModeWithoutStartSession(next, actions[1..]);
    }
  }

  /** What persists across a reload: user and progress, never the session. */
  function Persisted(s: State): (User, Progress)
  {
    (s.user, s.progress)
  }

  /** The session-only actions leave the persisted part untouched. */
  lemma SessionActionsNotPersisted(s: State, a: Action)
    requires a.StartSessionAction? || a.SetQuestionIndexAction? || a.SetAnswerAction?
          || a.ToggleFlagAction? || a.SetTimeRemainingAction? || a.EndSessionAction?
    ensures Persisted(Apply(s, a)) == Persisted(s)
  {
  }

  // ---- queries ----

  /** Math.round(|lessonsCompleted| / 56 * 100). */
  function GetOverallProgress(s: State): (r: int)
    ensures |s.progress.lessonsCompleted| <= TotalLessons ==> 0 <= r <= 100
    ensures s.progress.lessonsCompleted == [] ==> r == 0
  {
    var n := |s.progress.lessonsCompleted|;
    RoundDivBetween(100 * n, TotalLessons, 0, if n <= TotalLessons then 100 else 100 * n);
    RoundDiv(100 * n, TotalLessons)
  }

  /** Completing a lesson never lowers overall progress, and completing the
      same lesson a second time changes nothing. */
  lemma {:induction false} CompleteLessonProgress(s: State, lessonId: string)
    ensures GetOverallProgress(s) <= GetOverallProgress(CompleteLesson(s, lessonId))
    ensures CompleteLesson(CompleteLesson(s, lessonId), lessonId) == CompleteLesson(s, lessonId)
  {
    var n := |s.progress.lessonsCompleted|;
    var m := |CompleteLesson(s, lessonId).progress.lessonsCompleted|;
    RoundDivMonotone(100 * n, 100 * m, TotalLessons);
  }

  predicate InSection(section: string, e: AnswerEntry) { e.section == Some(section) }

  function CorrectCount(log: seq<AnswerEntry>): (n: nat)
    ensures n <= |log|
  {
    |Filter((e: AnswerEntry) => e.isCorrect, log)|
  }

  /** Percentage of correct answers among entries tagged with the section,
      or null (None) when there are none. */
  function GetScoreBySection(s: State, section: string): (r: Option<int>)
    ensures r.None? <==> forall i :: 0 <= i < |s.progress.questionsAnswered| ==>
                           !InSection(section, s.progress.questionsAnswered[i])
    ensures r.Some? ==> 0 <= r.value <= 100
  {
    var log := s.progress.questionsAnswered;
    var tagged := Filter(e => InSection(section, e), log);
    FilterMembers(e => InSection(section, e), log);
    if |tagged| == 0 then
      FilterNoneKeptIff(e => InSection(section, e), log);
      None
    else
      assert tagged[0] in log;
      var correct := CorrectCount(tagged);
      RoundDivBetween(100 * correct, |tagged|, 0, 100);
      Some(RoundDiv(100 * correct, |tagged|))
  }

  lemma FilterNoneKeptIff(p: AnswerEntry -> bool, log: seq<AnswerEntry>)
    requires Filter(p, log) == []
    ensures forall i :: 0 <= i < |log| ==> !p(log[i])
  {
    FilterMembers(p, log);
    forall i | 0 <= i < |log| ensures !p(log[i]) {
      assert log[i] in log;
    }
  }

  /** On every log the application can build, getScoreBySection is null for
      every section. */
  lemma {:induction false} ScoreBySectionAlwaysNull(s: State, actions: seq<Action>, section: string)
    requires UntaggedLog(s.progress.questionsAnswered)
    ensures GetScoreBySection(ApplyAll(s, actions), section).None?
  {
    ActionsKeepLogUntagged(s, actions);
  }

  /** The composite score of the latest mock test, or null when none. */
  function GetEstimatedScore(s: State): (r: Option<Number>)
    ensures r.None? <==> s.progress.mockTestsTaken == []
    ensures r.Some? ==> exists i :: 0 <= i < |s.progress.mockTestsTaken| &&
                          s.progress.mockTestsTaken[i].compositeScore == r.value
  {
    var tests := s.progress.mockTestsTaken;
    if tests == [] then None else Some(tests[|tests| - 1].compositeScore)
  }

  /** recordMockTest followed by getEstimatedScore returns the score just recorded. */
  lemma EstimatedScoreIsLatest(s: State, testData: MockTestRecord)
    ensures GetEstimatedScore(RecordMockTest(s, testData)) == Some(testData.compositeScore)
  {
  }

  // ---- category performance ----

  /** An entry counts toward a category when its category is present and
      not the empty string (a JavaScript falsy value is skipped). */
  predicate HasCategory(e: AnswerEntry) { e.category.Some? && e.category.value != "" }

  /** Distinct categories in order of first appearance: the key order of
      the `byCategory` object. */
  function CategoryKeys(log: seq<AnswerEntry>): (keys: seq<string>)
    decreases |log|
  {
    if log == [] then []
    else
      var keys := CategoryKeys(log[..|log| - 1]);
      var e := log[|log| - 1];
      if HasCategory(e) && e.category.value !in keys then keys + [e.category.value] else keys
  }

  function CategoryTotal(log: seq<AnswerEntry>, c: string): nat
    decreases |log|
  {
    if log == [] then 0
    else CategoryTotal(log[..|log| - 1], c) + (if log[|log| - 1].category == Some(c) then 1 else 0)
  }

  function CategoryCorrect(log: seq<AnswerEntry>, c: string): nat
    decreases |log|
  {
    if log == [] then 0
    else
      var e := log[|log| - 1];
      CategoryCorrect(log[..|log| - 1], c) + (if e.category == Some(c) && e.isCorrect then 1 else 0)
  }

  lemma {:induction false} CategoryCorrectAtMostTotal(log: seq<AnswerEntry>, c: string)
    ensures CategoryCorrect(log, c) <= CategoryTotal(log, c)
    decreases |log|
  {
    if log != [] {
      CategoryCorrectAtMostTotal(log[..|log| - 1], c);
    }
  }

  /** The keys are exactly the non-empty categories of the log, each once,
      and each has at least one entry. */
  lemma {:induction false} CategoryKeysExact(log: seq<AnswerEntry>)
    ensures Distinct(CategoryKeys(log))
    ensures forall c :: c in CategoryKeys(log) <==> c != "" && CategoryTotal(log, c) > 0
    decreases |log|
  {
    if log != [] {
      CategoryKeysExact(log[..|log| - 1]);
    }
  }

  datatype CategoryRow = CategoryRow(category: string, percentage: int, total: nat)

  function CategoryRowOf(log: seq<AnswerEntry>, c: string): CategoryRow
    requires CategoryTotal(log, c) > 0
  {
    CategoryRow(c, RoundDiv(100 * CategoryCorrect(log, c), CategoryTotal(log, c)), CategoryTotal(log, c))
  }

  /** The rows getCategoryPerformance returns, one per key, in key order. */
  function CategoryRows(log: seq<AnswerEntry>): (rows: seq<CategoryRow>)
    ensures |rows| == |CategoryKeys(log)|
  {
    var keys := CategoryKeys(log);
    CategoryKeysExact(log);
    seq(|keys|, i requires 0 <= i < |keys| => CategoryRowOf(log, keys[i]))
  }

  /** Each row is a distinct non-empty category that occurs in the log, with
      at least one attempt, no more correct than attempted and a
      percentage in [0, 100]; entries without a category are skipped. */
  lemma CategoryRowsSound(log: seq<AnswerEntry>)
    ensures forall i :: 0 <= i < |CategoryRows(log)| ==>
              var row := CategoryRows(log)[i];
              row.category != "" && 1 <= row.total &&
              CategoryCorrect(log, row.category) <= row.total &&
              0 <= row.percentage <= 100
    ensures forall i, j :: 0 <= i < j < |CategoryRows(log)| ==>
              CategoryRows(log)[i].category != CategoryRows(log)[j].category
    ensures UntaggedLog(log) ==> CategoryRows(log) == []
  {
    var keys := CategoryKeys(log);
    CategoryKeysExact(log);
    forall i | 0 <= i < |keys|
      ensures 0 <= CategoryRows(log)[i].percentage <= 100
      ensures CategoryCorrect(log, keys[i]) <= CategoryTotal(log, keys[i])
    {
      CategoryCorrectAtMostTotal(log, keys[i]);
      RoundDivBetween(100 * CategoryCorrect(log, keys[i]), CategoryTotal(log, keys[i]), 0, 100);
    }
    if UntaggedLog(log) && keys != [] {
      UntaggedHasNoCategory(log, keys[0]);
    }
  }

  lemma {:induction false} UntaggedHasNoCategory(log: seq<AnswerEntry>, c: string)
    requires UntaggedLog(log)
    ensures CategoryTotal(log, c) == 0
    decreases |log|
  {
    if log != [] {
      UntaggedHasNoCategory(log[..|log| - 1], c);
    }
  }

  datatype Tally = Tally(correct: nat, total: nat)

  /** getCategoryPerformance: one pass over the log counting per category,
      then one row per category in first-appearance order. */
  method GetCategoryPerformance(s: State) returns (rows: seq<CategoryRow>)
    ensures rows == CategoryRows(s.progress.questionsAnswered)
  {
    var log := s.progress.questionsAnswered;
    var order: seq<string> := [];
    var byCategory: map<string, Tally> := map[];
    var i := 0;
    while i < |log|
      invariant 0 <= i <= |log|
      invariant order == CategoryKeys(log[..i])
      invariant forall c :: c in byCategory <==> c in order
      invariant forall c :: c in byCategory ==>
                  byCategory[c] == Tally(CategoryCorrect(log[..i], c), CategoryTotal(log[..i], c))
    {
      assert log[..i + 1][..i] == log[..i];
      CategoryKeysExact(log[..i]);
      var e := log[i];
      if HasCategory(e) {
        var c := e.category.value;
        if c !in byCategory {
          CategoryCorrectAtMostTotal(log[..i], c);
          byCategory := byCategory[c := Tally(0, 0)];
          order := order + [c];
        }
        var t := byCategory[c];
        byCategory := byCategory[c := Tally(if e.isCorrect then t.correct + 1 else t.correct, t.total + 1)];
      }
      i := i + 1;
    }
    assert log[..|log|] == log;
    CategoryKeysExact(log);
    rows := [];
    var k := 0;
    while k < |order|
      invariant 0 <= k <= |order|
      invariant rows == CategoryRows(log)[..k]
    {
      var t := byCategory[order[k]];
      rows := rows + [CategoryRow(order[k], RoundDiv(100 * t.correct, t.total), t.total)];
      k := k + 1;
    }
  }

  /** The process-wide store holding the current state; pages replace its
      value through the action functions above. */
  class StoreCell {
    var state: State

    constructor ()
      ensures state == Initial
    {
      state := Initial;
    }
  }
}
