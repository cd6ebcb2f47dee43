// The profile page (src/pages/Profile.jsx): what it derives from the store
// for display, and the three store writes it makes (name, extended time,
// target score). Its own state is the name editor, the fields of
// ProfilePage.
module Profile {
  import opened Js
  import opened Seqs
  import Store
  import SimulateTest

  const ProfileSections: seq<string> := ["english", "math", "reading", "science"]

  /** Rows of the category breakdown shown, at most. */
  const BreakdownLimit: nat := 10

  /** Mock tests listed in the history, at most. */
  const HistoryLimit: nat := 5

  /** Target score used when the typed value does not parse, or parses to 0. */
  const FallbackTargetScore: int := 30

  // ---- section performance ----

  datatype SectionRow = SectionRow(section: string, correct: nat, total: nat, percentage: int)

  /** One row of the section panel: the entries tagged with the section,
      how many were right, and the rounded percentage (0 with no entries). */
  function SectionRowOf(log: seq<Store.AnswerEntry>, section: string): (row: SectionRow)
    ensures row.section == section
    ensures row.correct <= row.total
    ensures row.total == 0 <==> forall i :: 0 <= i < |log| ==> !Store.InSection(section, log[i])
    ensures 0 <= row.percentage <= 100
    ensures row.total == 0 ==> row.percentage == 0
  {
    var tagged := Filter(e => Store.InSection(section, e), log);
    FilterMembers(e => Store.InSection(section, e), log);
    var correct := Store.CorrectCount(tagged);
    if |tagged| > 0 then
      assert tagged[0] in log;
      RoundDivBetween(100 * correct, |tagged|, 0, 100);
      SectionRow(section, correct, |tagged|, RoundDiv(100 * correct, |tagged|))
    else
      Store.FilterNoneKeptIff(e => Store.InSection(section, e), log);
      SectionRow(section, correct, 0, 0)
  }

  /** The four rows of the section panel, in its fixed order. */
  function SectionPerformance(log: seq<Store.AnswerEntry>): (rows: seq<SectionRow>)
    ensures |rows| == |ProfileSections|
    ensures forall i :: 0 <= i < |rows| ==> rows[i].section == ProfileSections[i]
  {
    seq(|ProfileSections|, i requires 0 <= i < |ProfileSections| => SectionRowOf(log, ProfileSections[i]))
  }

  /** The panel and the store's getScoreBySection agree: a row has data
      exactly when the store has a score for the section, and then the
      percentages are equal. */
  lemma SectionRowAgreesWithStore(s: Store.State, section: string)
    ensures var row := SectionRowOf(s.progress.questionsAnswered, section);
            (row.total == 0 <==> Store.GetScoreBySection(s, section).None?) &&
            (row.total > 0 ==> Store.GetScoreBySection(s, section) == Some(row.percentage))
  {
  }

  /** On every log the application can build, every section row reads
      "No data". */
  lemma SectionPanelAlwaysEmpty(s: Store.State, actions: seq<Store.Action>)
    requires Store.UntaggedLog(s.progress.questionsAnswered)
    ensures forall i :: 0 <= i < |ProfileSections| ==>
              SectionPerformance(Store.ApplyAll(s, actions).progress.questionsAnswered)[i] ==
              SectionRow(ProfileSections[i], 0, 0, 0)
  {
    var log := Store.ApplyAll(s, actions).progress.questionsAnswered;
    Store.ActionsKeepLogUntagged(s, actions);
    forall i | 0 <= i < |ProfileSections|
      ensures SectionPerformance(log)[i] == SectionRow(ProfileSections[i], 0, 0, 0)
    {
      FilterNoneKept(e => Store.InSection(ProfileSections[i], e), log);
    }
  }

  // ---- stats ----

  /** Study time in whole hours, rounded from minutes. */
  function StudyHours(totalMinutes: int): (hours: int)
    ensures -30 <= totalMinutes - 60 * hours < 30
    ensures totalMinutes >= 0 ==> hours >= 0
  {
    RoundDiv(totalMinutes, 60)
  }

  datatype Stats = Stats(questionsAnswered: nat, lessonsCompleted: nat, mockTestsTaken: nat, studyHours: int)

  /** The four stat cards: the lengths of the three logs and the study time
      rounded to whole hours. */
  function ProfileStats(s: Store.State): (stats: Stats)
    ensures stats.questionsAnswered == |s.progress.questionsAnswered|
    ensures stats.lessonsCompleted == |s.progress.lessonsCompleted|
    ensures stats.mockTestsTaken == |s.progress.mockTestsTaken|
    ensures -30 <= s.progress.totalStudyTime - 60 * stats.studyHours < 30
  {
    Stats(|s.progress.questionsAnswered|, |s.progress.lessonsCompleted|, |s.progress.mockTestsTaken|,
          StudyHours(s.progress.totalStudyTime))
  }

  /** The three counters never go down, whatever the store is asked to do. */
  lemma StatsNeverDecrease(s: Store.State, actions: seq<Store.Action>)
    ensures var before, after := ProfileStats(s), ProfileStats(Store.ApplyAll(s, actions));
            before.questionsAnswered <= after.questionsAnswered &&
            before.lessonsCompleted <= after.lessonsCompleted &&
            before.mockTestsTaken <= after.mockTestsTaken
  {
    Store.LogsAreAppendOnly(s, actions);
  }

  // ---- estimated score ----

  /** What `{estimatedScore && <card/>}` renders: nothing for null, the card
      for a non-zero score, and the bare number for the falsy scores 0 and
      NaN. */
  datatype EstimateView = Hidden | ScoreCard(score: int) | StrayText(value: Number)

  function EstimatedScoreView(score: Option<Number>): (v: EstimateView)
    ensures v.Hidden? <==> score.None?
    ensures v.ScoreCard? <==> score.Some? && score.value.Finite? && score.value.value != 0
    ensures v.ScoreCard? ==> score == Some(Finite(v.score))
    ensures v.StrayText? ==> score == Some(v.value) && (v.value == NaN || v.value == Finite(0))
  {
    match score
    case None => Hidden
    case Some(NaN) => StrayText(NaN)
    case Some(Finite(n)) => if n == 0 then StrayText(Finite(0)) else ScoreCard(n)
  }

  /** A mock test submitted with an empty deck leaves the text "NaN" where
      the estimate card would be. */
  lemma EmptyMockTestShowsNaN(s: Store.State, date: string, section: string)
    ensures var record := Store.MockTestRecord(date, section, 0, 0, SimulateTest.CompositeScore(0, 0));
            EstimatedScoreView(Store.GetEstimatedScore(Store.RecordMockTest(s, record))) == StrayText(NaN)
  {
  }

  // ---- category breakdown ----

  predicate SortedByPercentage(rows: seq<Store.CategoryRow>)
  {
    forall i, j :: 0 <= i < j < |rows| ==> rows[i].percentage <= rows[j].percentage
  }

  function PercentageIs(p: int): Store.CategoryRow -> bool
  {
    (row: Store.CategoryRow) => row.percentage == p
  }

  /** Places x before the first row whose percentage is not below its own. */
  function InsertRow(x: Store.CategoryRow, rows: seq<Store.CategoryRow>): (r: seq<Store.CategoryRow>)
    ensures multiset(r) == multiset(rows) + multiset{x}
    ensures |r| == |rows| + 1
  {
    if rows == [] || x.percentage <= rows[0].percentage then [x] + rows
    else
      assert rows == [rows[0]] + rows[1..];
      [rows[0]] + InsertRow(x, rows[1..])
  }

  lemma {:induction false} InsertRowSorted(x: Store.CategoryRow, rows: seq<Store.CategoryRow>)
    requires SortedByPercentage(rows)
    ensures SortedByPercentage(InsertRow(x, rows))
  {
    if rows == [] || x.percentage <= rows[0].percentage {
      ConsSorted(x, rows);
    } else {
      InsertRowSorted(x, rows[1..]);
      InsertRowAtLeast(x, rows[1..], rows[0].percentage);
      ConsSorted(rows[0], InsertRow(x, rows[1..]));
    }
  }

  /** A row no larger than the head of a sorted list can go in front. */
  lemma ConsSorted(y: Store.CategoryRow, rows: seq<Store.CategoryRow>)
    requires SortedByPercentage(rows)
    requires rows == [] || y.percentage <= rows[0].percentage
    ensures SortedByPercentage([y] + rows)
  {
    var r := [y] + rows;
    forall i, j | 0 <= i < j < |r| ensures r[i].percentage <= r[j].percentage {
      assert r[j] == rows[j - 1];
      if i > 0 {
        assert r[i] == rows[i - 1];
      }
    }
  }

  /** Inserting keeps a lower bound that x and every row respect. */
  lemma InsertRowAtLeast(x: Store.CategoryRow, rows: seq<Store.CategoryRow>, lo: int)
    requires SortedByPercentage(rows) && lo <= x.percentage
    requires rows == [] || lo <= rows[0].percentage
    ensures var r := InsertRow(x, rows); r != [] && lo <= r[0].percentage
  {
  }

  /** The sort `(a, b) => a.percentage - b.percentage`: ascending by
      percentage, and stable, as Array.prototype.sort is. */
  function SortByPercentage(rows: seq<Store.CategoryRow>): (r: seq<Store.CategoryRow>)
    ensures multiset(r) == multiset(rows)
    ensures SortedByPercentage(r)
  {
    if rows == [] then []
    else
      assert rows == [rows[0]] + rows[1..];
      var rest := SortByPercentage(rows[1..]);
      InsertRowSorted(rows[0], rest);
      InsertRow(rows[0], rest)
  }

  lemma {:induction false} InsertRowStable(x: Store.CategoryRow, rows: seq<Store.CategoryRow>, p: int)
    ensures Filter(PercentageIs(p), InsertRow(x, rows)) ==
            (if x.percentage == p then [x] else []) + Filter(PercentageIs(p), rows)
  {
    var keep := PercentageIs(p);
    if rows != [] && x.percentage > rows[0].percentage {
      InsertRowStable(x, rows[1..], p);
      FilterCons(keep, rows[0], InsertRow(x, rows[1..]));
      FilterCons(keep, rows[0], rows[1..]);
      assert rows == [rows[0]] + rows[1..];
    } else {
      FilterCons(keep, x, rows);
    }
  }

  /** Stability: rows of equal percentage keep their original order. */
  lemma {:induction false} SortIsStable(rows: seq<Store.CategoryRow>, p: int)
    ensures Filter(PercentageIs(p), SortByPercentage(rows)) == Filter(PercentageIs(p), rows)
  {
    if rows != [] {
      SortIsStable(rows[1..], p);
      InsertRowStable(rows[0], SortByPercentage(rows[1..]), p);
    }
  }

  /** A prefix of a sorted list is sorted and holds its smallest elements. */
  lemma SortedPrefixIsLeast(sorted: seq<Store.CategoryRow>, k: nat)
    requires SortedByPercentage(sorted) && k <= |sorted|
    ensures SortedByPercentage(sorted[..k])
    ensures multiset(sorted[..k]) <= multiset(sorted)
    ensures multiset(sorted) - multiset(sorted[..k]) == multiset(sorted[k..])
    ensures forall i, y :: 0 <= i < k && y in multiset(sorted[k..]) ==> sorted[..k][i].percentage <= y.percentage
  {
    assert sorted == sorted[..k] + sorted[k..];
    forall i, y | 0 <= i < k && y in multiset(sorted[k..])
      ensures sorted[..k][i].percentage <= y.percentage
    {
      var j :| 0 <= j < |sorted[k..]| && sorted[k..][j] == y;
      assert sorted[k + j] == y;
    }
  }

  lemma SameLength(a: seq<Store.CategoryRow>, b: seq<Store.CategoryRow>)
    requires multiset(a) == multiset(b)
    ensures |a| == |b|
  {
    assert |multiset(a)| == |a| && |multiset(b)| == |b|;
  }

  /** The breakdown panel: the ten weakest categories, weakest first. */
  function Breakdown(rows: seq<Store.CategoryRow>): (shown: seq<Store.CategoryRow>)
    ensures |shown| == if |rows| < BreakdownLimit then |rows| else BreakdownLimit
    ensures SortedByPercentage(shown)
    ensures multiset(shown) <= multiset(rows)
    ensures forall i, y :: 0 <= i < |shown| && y in multiset(rows) - multiset(shown) ==>
              shown[i].percentage <= y.percentage
  {
    var sorted := SortByPercentage(rows);
    var k := if |sorted| < BreakdownLimit then |sorted| else BreakdownLimit;
    SortedPrefixIsLeast(sorted, k);
    SameLength(sorted, rows);
    var shown := sorted[..k];
    assert multiset(rows) - multiset(shown) == multiset(sorted[k..]);
    shown
  }

  // ---- mock test history ----

  /** `mockTestsTaken.slice(-5).reverse()`: the latest five, newest first. */
  function MockHistory(tests: seq<Store.MockTestRecord>): (shown: seq<Store.MockTestRecord>)
    ensures |shown| == if |tests| < HistoryLimit then |tests| else HistoryLimit
    ensures forall i :: 0 <= i < |shown| ==> shown[i] == tests[|tests| - 1 - i]
  {
    var k := if |tests| < HistoryLimit then |tests| else HistoryLimit;
    Reverse(tests[|tests| - k..])
  }

  /** The test just recorded heads the history. */
  lemma RecordedTestHeadsHistory(s: Store.State, record: Store.MockTestRecord)
    ensures var shown := MockHistory(Store.RecordMockTest(s, record).progress.mockTestsTaken);
            shown != [] && shown[0] == record
  {
  }

  function HistoryTitle(section: string): (title: string)
    ensures section == "all" ==> title == "Full Test"
    ensures section != "all" ==> title == section
  {
    if section == "all" then "Full Test" else section
  }

  // ---- target score ----

  /** `parseInt(value) || 30`: the typed number, or 30 when it does not parse
      or is 0. The input's 1..36 bounds do not constrain what is stored. */
  function TargetScoreFromInput(text: string): (score: int)
    ensures score != 0
    ensures ParseInt(text).None? ==> score == FallbackTargetScore
    ensures ParseInt(text).Some? && ParseInt(text).value == 0 ==> score == FallbackTargetScore
    ensures ParseInt(text).Some? && ParseInt(text).value != 0 ==> score == ParseInt(text).value
  {
    var n := ParseInt(text);
    if n.None? || n.value == 0 then FallbackTargetScore else n.value
  }

  /** Typing a positive number stores that number; typing 0 or clearing the
      field stores 30. */
  lemma TargetScoreTyped(n: nat)
    ensures n > 0 ==> TargetScoreFromInput(NatToString(n)) == n
    ensures TargetScoreFromInput("0") == FallbackTargetScore
    ensures TargetScoreFromInput("") == FallbackTargetScore
  {
    ParseIntOfNatToString(n, []);
    assert NatToString(n) + [] == NatToString(n);
    ParseIntOfNatToString(0, []);
    assert "0" == NatToString(0) + [];
  }

  class ProfilePage {
    const store: Store.StoreCell
    var editingName: bool
    var tempName: string

    constructor (store: Store.StoreCell)
      ensures this.store == store
      ensures !editingName && tempName == store.state.user.name
    {
      this.store := store;
      editingName := false;
      tempName := store.state.user.name;
    }

    /** Clicking the name opens the editor with the last typed text. */
    method StartEditing()
      modifies this`editingName
      ensures editingName
    {
      editingName := true;
    }

    method TypeName(text: string)
      requires editingName
      modifies this`tempName
      ensures tempName == text
    {
      tempName := text;
    }

    /** Save: the typed name becomes the user's name; nothing else changes. */
    method SaveName()
      requires editingName
      modifies store, this`editingName
      ensures !editingName
      ensures store.state == Store.SetUser(old(store.state), Store.UserPatch(Some(tempName), None, None, None, None))
      ensures store.state.user.name == tempName
    {
      store.state := Store.SetUser(store.state, Store.UserPatch(Some(tempName), None, None, None, None));
      editingName := false;
    }

    /** The extended-time checkbox. */
    method SetExtendedTime(checked: bool)
      modifies store
      ensures store.state == Store.UpdateSettings(old(store.state), Store.SettingsPatch(Some(checked), None))
      ensures store.state.user.settings.extendedTime == checked
    {
      store.state := Store.UpdateSettings(store.state, Store.SettingsPatch(Some(checked), None));
    }

    /** The target-score field. */
    method SetTargetScore(text: string)
      modifies store
      ensures store.state == Store.SetUser(old(store.state),
                Store.UserPatch(None, None, Some(TargetScoreFromInput(text)), None, None))
      ensures store.state.user.targetScore != 0
    {
      store.state := Store.SetUser(store.state,
        Store.UserPatch(None, None, Some(TargetScoreFromInput(text)), None, None));
    }

    /** The breakdown panel's rows, from getCategoryPerformance. */
    method CategoryBreakdown() returns (shown: seq<Store.CategoryRow>)
      ensures shown == Breakdown(Store.CategoryRows(store.state.progress.questionsAnswered))
    {
      var rows := Store.GetCategoryPerformance(store.state);
      shown := Breakdown(rows);
    }
  }
}
