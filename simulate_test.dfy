// The timed mock test page (src/pages/SimulateTest.jsx): a four-step
// machine setup -> test -> review -> results whose state variables are the
// fields of MockTestPage. The once-per-second interval is the Tick method;
// it does nothing outside the test step, which is what clearing the
// interval on leaving that step amounts to.
module SimulateTest {
  import opened Js
  import opened Seqs
  import opened Catalog
  import Store

  datatype Step = Setup | Test | Review | Results

  /** Minutes used when a section has no entry, or a zero one, in the table. */
  const DefaultSectionMinutes: nat := 35

  const SwipeThreshold: int := 50

  const CompositeMax: nat := 36

  // ---- timing ----

  function SumTimes(table: seq<TimingEntry>): (total: nat)
    ensures forall i :: 0 <= i < |table| ==> table[i].time <= total
  {
    if table == [] then 0 else table[0].time + SumTimes(table[1..])
  }

  /** `config[section]?.time`: the entry for the section, if any. */
  function LookupTime(table: seq<TimingEntry>, section: string): (t: Option<nat>)
    ensures t.None? <==> forall i :: 0 <= i < |table| ==> table[i].section != section
    ensures t.Some? ==> exists i :: 0 <= i < |table| && table[i] == TimingEntry(section, t.value)
  {
    if table == [] then None
    else if table[0].section == section then Some(table[0].time)
    else
      var t := LookupTime(table[1..], section);
      if t.Some? then assert table[1..][0..] == table[1..]; t else t
  }

  function TableFor(config: TimingConfig, exam: Option<ExamType>): seq<TimingEntry>
  {
    if exam == Some(Enhanced) then config.enhanced else config.legacy
  }

  /** getTiming: minutes for the whole test ('all', the sum of the table)
      or for one section (its entry, 35 when missing or zero). */
  function GetTiming(config: TimingConfig, exam: Option<ExamType>, section: string): (minutes: nat)
    ensures section == "all" ==> minutes == SumTimes(TableFor(config, exam))
    ensures section != "all" ==> minutes > 0
    ensures section != "all" ==>
              (minutes == DefaultSectionMinutes <==>
                 (LookupTime(TableFor(config, exam), section) in {None, Some(0), Some(DefaultSectionMinutes)}))
    ensures section != "all" && LookupTime(TableFor(config, exam), section).Some? && minutes != DefaultSectionMinutes ==>
              LookupTime(TableFor(config, exam), section) == Some(minutes)
  {
    var table := TableFor(config, exam);
    if section == "all" then SumTimes(table)
    else
      var t := LookupTime(table, section);
      if t.Some? && t.value != 0 then t.value else DefaultSectionMinutes
  }

  /** The start budget in seconds: 60 per minute, 1.5 times as much with
      extended time. */
  function TimeBudget(minutes: nat, extendedTime: bool): (seconds: nat)
    ensures !extendedTime ==> seconds == 60 * minutes
    ensures extendedTime ==> 2 * seconds == 3 * (60 * minutes)
  {
    if extendedTime then 90 * minutes else 60 * minutes
  }

  /** The setup screen's "Total time: N minutes", the start budget rounded
      to whole minutes. */
  function TotalMinutesLabel(minutes: nat, extendedTime: bool): (shown: int)
    ensures shown == RoundDiv(TimeBudget(minutes, extendedTime), 60)
  {
    var shown := if extendedTime then RoundDiv(3 * minutes, 2) else minutes;
    assert RoundDiv(TimeBudget(minutes, extendedTime), 60) == shown by {
      if extendedTime {
        assert (2 * (90 * minutes) + 60) / 120 == (3 * minutes + 1) / 2;
        assert (2 * (3 * minutes) + 2) / 4 == (3 * minutes + 1) / 2;
      } else {
        assert (2 * (60 * minutes) + 60) / 120 == minutes;
      }
    }
    shown
  }

  lemma ExtendedBudgetExample()
    ensures TimeBudget(35, true) == 3150 && TimeBudget(35, false) == 2100
    ensures TotalMinutesLabel(35, true) == 53
  {
  }

  // ---- the clock display ----

  /** formatTime: whole minutes, a colon, seconds on two digits. */
  function FormatTime(seconds: nat): (r: string)
    ensures |r| >= 4 && r[|r| - 3] == ':'
  {
    ClockText(seconds / 60, seconds % 60)
  }

  function ClockText(minutes: nat, secs: nat): string
  {
    NatToString(minutes) + ":" + PadStart2(NatToString(secs))
  }

  /** Reading the clock back: the part before the colon is the minutes, the
      two digits after it the seconds below 60, and together they give the
      time formatted. */
  lemma FormatTimeReadsBack(seconds: nat)
    ensures var r := FormatTime(seconds);
            AllDigits(r[..|r| - 3]) && AllDigits(r[|r| - 2..]) &&
            DigitsValue(r[|r| - 2..]) < 60 &&
            60 * DigitsValue(r[..|r| - 3]) + DigitsValue(r[|r| - 2..]) == seconds
  {
    var q, rem := seconds / 60, seconds % 60;
    assert seconds == 60 * q + rem && rem < 60;
    ClockReadsBack(q, rem);
  }

  /** The clock text for given minutes and seconds below 60 reads back as
      those two numbers. */
  lemma ClockReadsBack(minutes: nat, secs: nat)
    requires secs < 60
    ensures var r := ClockText(minutes, secs);
            |r| >= 4 &&
            AllDigits(r[..|r| - 3]) && AllDigits(r[|r| - 2..]) &&
            DigitsValue(r[..|r| - 3]) == minutes && DigitsValue(r[|r| - 2..]) == secs
  {
    NatToStringRoundTrip(minutes);
    SecondsField(secs);
    ClockFields(NatToString(minutes), PadStart2(NatToString(secs)));
  }

  /** Splitting `m:ss` at the colon gives back both fields. */
  lemma ClockFields(m: string, sec: string)
    requires |sec| == 2
    ensures var r := m + ":" + sec; r[..|r| - 3] == m && r[|r| - 2..] == sec
  {
    var r := m + ":" + sec;
    assert r[..|m|] == m;
    assert r[|m| + 1..] == sec;
  }

  /** The seconds field: two digits that read back as the seconds. */
  lemma SecondsField(n: nat)
    requires n < 60
    ensures var f := PadStart2(NatToString(n));
            |f| == 2 && AllDigits(f) && DigitsValue(f) == n
  {
    var t := NatToString(n);
    NatToStringRoundTrip(n);
    if n < 10 {
      LeadingZeroValue(t);
      assert PadStart2(t) == ['0'] + t;
    } else {
      assert t == NatToString(n / 10) + [DigitChar(n % 10)];
    }
  }

  // ---- scoring ----

  /** Whether the answer recorded for q is its correct label. */
  predicate AnsweredCorrectly(q: Question, answers: map<string, string>)
  {
    q.id in answers && answers[q.id] == q.correctAnswer
  }

  /** The number of deck questions answered correctly. */
  function Correct(qs: seq<Question>, answers: map<string, string>): (n: nat)
    ensures n <= |qs|
    ensures n == |qs| <==> forall i :: 0 <= i < |qs| ==> AnsweredCorrectly(qs[i], answers)
    decreases |qs|
  {
    if qs == [] then 0
    else Correct(qs[..|qs| - 1], answers) + (if AnsweredCorrectly(qs[|qs| - 1], answers) then 1 else 0)
  }

  /** submitTest's forEach loop. */
  method CountCorrect(qs: seq<Question>, answers: map<string, string>) returns (correct: nat)
    ensures correct == Correct(qs, answers)
  {
    correct := 0;
    var i := 0;
    while i < |qs|
      invariant 0 <= i <= |qs|
      invariant correct == Correct(qs[..i], answers)
    {
      assert qs[..i + 1][..i] == qs[..i];
      if qs[i].id in answers && answers[qs[i].id] == qs[i].correctAnswer {
        correct := correct + 1;
      }
      i := i + 1;
    }
    assert qs[..|qs|] == qs;
  }

  /** compositeScore = Math.round(correct / total * 36): NaN for an empty
      deck, otherwise in [0, 36], 0 for none right and 36 for all right. */
  function CompositeScore(correct: nat, total: nat): (score: Number)
    requires correct <= total
    ensures score.NaN? <==> total == 0
    ensures score.Finite? ==> 0 <= score.value <= CompositeMax
    ensures total > 0 && correct == 0 ==> score == Finite(0)
    ensures total > 0 && correct == total ==> score == Finite(CompositeMax)
  {
    ScaledRound(correct, total, CompositeMax)
  }

  /** The results screen's score: rounded from the already rounded
      percentage. */
  function DisplayedScore(correct: nat, total: nat): (score: Number)
    requires correct <= total
    ensures score.NaN? <==> total == 0
    ensures score.Finite? ==> 0 <= score.value <= CompositeMax
  {
    RoundNumber(ScaledRound(correct, total, 100), CompositeMax, 100)
  }

  lemma CompositeScoreExamples()
    ensures CompositeScore(0, 10) == Finite(0)
    ensures CompositeScore(5, 10) == Finite(18)
    ensures CompositeScore(10, 10) == Finite(36)
  {
  }

  /** Rounding twice can show a score other than the one recorded: 6 right
      of 29 records 7 and shows 8. */
  lemma DisplayedScoreDiffersFromRecorded()
    ensures CompositeScore(6, 29) == Finite(7)
    ensures ScaledRound(6, 29, 100) == Finite(21)
    ensures DisplayedScore(6, 29) == Finite(8)
  {
  }

  // ---- navigation ----

  /** Next (button or swipe left): Math.min(len - 1, i + 1). */
  function NextIndex(i: int, len: nat): (j: int)
    requires 0 <= i < len
    ensures 0 <= j < len
    ensures i < len - 1 ==> j == i + 1
    ensures i == len - 1 ==> j == i
  {
    if i + 1 < len - 1 then i + 1 else len - 1
  }

  /** Previous (button or swipe right): Math.max(0, i - 1). */
  function PreviousIndex(i: int): (j: int)
    requires 0 <= i
    ensures 0 <= j <= i
    ensures i > 0 ==> j == i - 1
  {
    if i - 1 > 0 then i - 1 else 0
  }

  datatype Swipe = SwipeNext | SwipePrevious | NoSwipe

  /** handleDragEnd: a drag further than 50 to the left is next, to the
      right previous, anything shorter nothing. */
  function SwipeOf(dx: int): (s: Swipe)
    ensures s == SwipeNext <==> dx < -SwipeThreshold
    ensures s == SwipePrevious <==> dx > SwipeThreshold
  {
    if dx < -SwipeThreshold then SwipeNext
    else if dx > SwipeThreshold then SwipePrevious
    else NoSwipe
  }

  /** The position of the first question with the id (findIndex), or -1. */
  function IndexOfId(qs: seq<Question>, id: string): (k: int)
    ensures -1 <= k < |qs|
    ensures k == -1 <==> id !in DeckIds(qs)
    ensures k >= 0 ==> qs[k].id == id && forall j :: 0 <= j < k ==> qs[j].id != id
  {
    if qs == [] then -1
    else if qs[0].id == id then 0
    else
      var k := IndexOfId(qs[1..], id);
      assert DeckIds(qs) == {qs[0].id} + DeckIds(qs[1..]) by {
        forall x | x in DeckIds(qs) ensures x in {qs[0].id} + DeckIds(qs[1..]) {
          var i :| 0 <= i < |qs| && qs[i].id == x;
          if i > 0 { assert qs[1..][i - 1].id == x; }
        }
        forall x | x in DeckIds(qs[1..]) ensures x in DeckIds(qs) {
          var i :| 0 <= i < |qs[1..]| && qs[1..][i].id == x;
          assert qs[i + 1].id == x;
        }
      }
      if k == -1 then -1 else k + 1
  }

  /** The questions of a test: all of them for 'all', else those of the section. */
  predicate InTest(section: string, q: Question)
  {
    section == "all" || q.section == section
  }

  /** The deck of a test drawn from the bank for a section choice. */
  function SectionDeck(questions: seq<Question>, section: string): (deck: seq<Question>)
    ensures forall q :: q in deck <==> q in questions && InTest(section, q)
    ensures IsSubsequence(deck, questions)
  {
    FilterMembers(q => InTest(section, q), questions);
    FilterIsSubsequence(q => InTest(section, q), questions);
    Filter(q => InTest(section, q), questions)
  }

  /** The review screen's counts: answered, the number of answer keys, never
      exceeds the deck, and it equals the deck length exactly when every
      deck question has an answer. */
  lemma ReviewCountsBounded(qs: seq<Question>, answers: map<string, string>)
    requires UniqueIds(qs) && answers.Keys <= DeckIds(qs)
    ensures |answers.Keys| <= |qs|
    ensures |answers.Keys| == |qs| <==> forall i :: 0 <= i < |qs| ==> qs[i].id in answers
  {
    UniqueIdsCardinality(qs);
    SubsetCardinality(answers.Keys, DeckIds(qs));
    if |answers.Keys| == |qs| {
      assert answers.Keys == DeckIds(qs) by {
        SubsetCardinality(answers.Keys, DeckIds(qs));
      }
    }
    if forall i :: 0 <= i < |qs| ==> qs[i].id in answers {
      assert DeckIds(qs) <= answers.Keys;
      assert answers.Keys == DeckIds(qs);
    }
  }

  class MockTestPage {
    const store: Store.StoreCell
    const questions: seq<Question>
    const timing: TimingConfig

    var step: Step
    var selectedExam: Option<ExamType>
    var selectedSection: string
    var extendedTime: bool
    var testQuestions: seq<Question>
    var currentIndex: int
    var answers: map<string, string>
    var flagged: seq<string>
    var timeRemaining: nat
    var testStarted: bool

    /** The page invariant: the index is a position of the deck (or 0 for an
        empty one), answers and flags name deck questions only, no question
        is flagged twice, and the setup step starts from a clean slate. */
    ghost predicate Valid()
      reads this
    {
      UniqueIds(questions) && UniqueIds(testQuestions) &&
      0 <= currentIndex && (currentIndex < |testQuestions| || currentIndex == 0) &&
      answers.Keys <= DeckIds(testQuestions) &&
      (forall i :: 0 <= i < |flagged| ==> flagged[i] in DeckIds(testQuestions)) &&
      Distinct(flagged) &&
      (step == Setup ==> answers == map[] && flagged == [] && currentIndex == 0) &&
      (step != Setup ==> testStarted)
    }

    /** Test screen shown: in the test step with a current question. */
    predicate OnQuestion()
      reads this
    {
      step == Test && 0 <= currentIndex < |testQuestions|
    }

    constructor (store: Store.StoreCell, questions: seq<Question>, timing: TimingConfig)
      requires UniqueIds(questions)
      ensures Valid()
      ensures this.store == store && this.questions == questions && this.timing == timing
      ensures step == Setup && selectedExam.None? && selectedSection == "all"
      ensures extendedTime == store.state.user.settings.extendedTime
      ensures testQuestions == [] && currentIndex == 0 && answers == map[] && flagged == []
      ensures timeRemaining == 0 && !testStarted
    {
      this.store := store;
      this.questions := questions;
      this.timing := timing;
      step := Setup;
      selectedExam := None;
      selectedSection := "all";
      extendedTime := store.state.user.settings.extendedTime;
      testQuestions := [];
      currentIndex := 0;
      answers := map[];
      flagged := [];
      timeRemaining := 0;
      testStarted := false;
    }

    // ---- setup ----

    method SelectExam(exam: ExamType)
      requires Valid() && step == Setup
      modifies this`selectedExam
      ensures Valid() && selectedExam == Some(exam)
    {
      selectedExam := Some(exam);
    }

    method SelectSection(section: string)
      requires Valid() && step == Setup
      modifies this`selectedSection
      ensures Valid() && selectedSection == section
    {
      selectedSection := section;
    }

    method SetExtendedTime(on: bool)
      requires Valid() && step == Setup
      modifies this`extendedTime
      ensures Valid() && extendedTime == on
    {
      extendedTime := on;
    }

    /** Start Test: disabled until an exam is chosen; then the deck is the
        bank filtered by section, the clock is set to the budget and the
        test step begins. */
    method StartTest()
      requires Valid() && step == Setup
      modifies this`testQuestions, this`timeRemaining, this`testStarted, this`step
      ensures Valid()
      ensures old(selectedExam).None? ==> unchanged(this)
      ensures old(selectedExam).Some? ==>
                testQuestions == SectionDeck(questions, selectedSection) &&
                timeRemaining == TimeBudget(GetTiming(timing, selectedExam, selectedSection), extendedTime) &&
                testStarted && step == Test
    {
      if selectedExam.Some? {
        var section := selectedSection;
        FilterKeepsUniqueIds(q => InTest(section, q), questions);
        testQuestions := SectionDeck(questions, section);
        timeRemaining := TimeBudget(GetTiming(timing, selectedExam, selectedSection), extendedTime);
        testStarted := true;
        step := Test;
      }
    }

    // ---- the clock ----

    /** One interval tick: counts down while the test step runs, and at the
        last second sets 0 and moves to review. */
    method Tick()
      requires Valid()
      modifies this`timeRemaining, this`step
      ensures Valid()
      ensures !(old(testStarted) && old(step) == Test) ==> unchanged(this)
      ensures old(testStarted) && old(step) == Test && old(timeRemaining) > 1 ==>
                timeRemaining == old(timeRemaining) - 1 && step == Test
      ensures old(testStarted) && old(step) == Test && old(timeRemaining) <= 1 ==>
                timeRemaining == 0 && step == Review
    {
      if testStarted && step == Test {
        if timeRemaining <= 1 {
          timeRemaining := 0;
          step := Review;
        } else {
          timeRemaining := timeRemaining - 1;
        }
      }
    }

    // ---- the test screen ----

    /** End Test, once confirmed. */
    method EndTest()
      requires Valid() && OnQuestion()
      modifies this`step
      ensures Valid() && step == Review
    {
      step := Review;
    }

    /** Choosing an option overwrites the current question's answer only. */
    method HandleAnswer(choice: string)
      requires Valid() && OnQuestion()
      modifies this`answers
      ensures Valid()
      ensures answers == old(answers)[testQuestions[currentIndex].id := choice]
    {
      answers := answers[testQuestions[currentIndex].id := choice];
    }

    /** The flag button toggles the current question in the flagged list. */
    method HandleFlag()
      requires Valid() && OnQuestion()
      modifies this`flagged
      ensures Valid()
      ensures flagged == Toggle(old(flagged), testQuestions[currentIndex].id)
    {
      var qId := testQuestions[currentIndex].id;
      ToggleDistinct(flagged, qId);
      var next := Toggle(flagged, qId);
      forall i | 0 <= i < |next| ensures next[i] in DeckIds(testQuestions) {
        if next[i] != qId {
          assert next[i] in flagged;
          var k :| 0 <= k < |flagged| && flagged[k] == next[i];
        }
      }
      flagged := next;
    }

    method Previous()
      requires Valid() && OnQuestion()
      modifies this`currentIndex
      ensures Valid() && OnQuestion()
      ensures currentIndex == PreviousIndex(old(currentIndex))
    {
      currentIndex := PreviousIndex(currentIndex);
    }

    /** Next; on the last question the button reads "Review" but only
        clamps the index, so neither index nor step changes. */
    method Next()
      requires Valid() && OnQuestion()
      modifies this`currentIndex
      ensures Valid() && OnQuestion()
      ensures currentIndex == NextIndex(old(currentIndex), |testQuestions|)
    {
      currentIndex := NextIndex(currentIndex, |testQuestions|);
    }

    method HandleDragEnd(dx: int)
      requires Valid() && OnQuestion()
      modifies this`currentIndex
      ensures Valid() && OnQuestion()
      ensures SwipeOf(dx) == SwipeNext ==> currentIndex == NextIndex(old(currentIndex), |testQuestions|)
      ensures SwipeOf(dx) == SwipePrevious ==> currentIndex == PreviousIndex(old(currentIndex))
      ensures SwipeOf(dx) == NoSwipe ==> currentIndex == old(currentIndex)
    {
      match SwipeOf(dx)
      case SwipeNext => currentIndex := NextIndex(currentIndex, |testQuestions|);
      case SwipePrevious => currentIndex := PreviousIndex(currentIndex);
      case NoSwipe =>
    }

    /** The question navigator's numbered buttons. */
    method JumpTo(i: int)
      requires Valid() && OnQuestion() && 0 <= i < |testQuestions|
      modifies this`currentIndex
      ensures Valid() && OnQuestion() && currentIndex == i
    {
      currentIndex := i;
    }

    // ---- the review screen ----

    /** Answered and unanswered counts shown on the review screen. */
    function ReviewCounts(): (counts: (nat, int))
      reads this
      requires Valid()
      ensures counts.0 == |answers.Keys|
      ensures 0 <= counts.1 && counts.0 + counts.1 == |testQuestions|
      ensures counts.1 == 0 <==> forall i :: 0 <= i < |testQuestions| ==> testQuestions[i].id in answers
    {
      ReviewCountsBounded(testQuestions, answers);
      (|answers.Keys|, |testQuestions| - |answers.Keys|)
    }

    method BackToTest()
      requires Valid() && step == Review
      modifies this`step
      ensures Valid() && step == Test
    {
      step := Test;
    }

    /** A flagged question's button: back into the test at that question. */
    method JumpToFlagged(qId: string)
      requires Valid() && step == Review && qId in flagged
      modifies this`currentIndex, this`step
      ensures Valid() && OnQuestion()
      ensures testQuestions[currentIndex].id == qId
    {
      currentIndex := IndexOfId(testQuestions, qId);
      step := Test;
    }

    /** Submit Test: scores the deck, records one mock test in the store and
        shows the results; only the review screen offers it, and it leaves
        that screen, so each test is recorded once. */
    method SubmitTest(date: string)
      requires Valid() && step == Review
      modifies this`step, store
      ensures Valid() && step == Results
      ensures var correct := Correct(testQuestions, answers);
              store.state == Store.RecordMockTest(old(store.state),
                Store.MockTestRecord(date, selectedSection, |testQuestions|, correct,
                                     CompositeScore(correct, |testQuestions|)))
    {
      var correct := CountCorrect(testQuestions, answers);
      var record := Store.MockTestRecord(date, selectedSection, |testQuestions|, correct,
                                         CompositeScore(correct, |testQuestions|));
      store.state := Store.RecordMockTest(store.state, record);
      step := Results;
    }

    // ---- the results screen ----

    /** Correct count, rounded percentage and the score the results screen
        shows (recomputed from the rounded percentage). */
    function ResultsView(): (view: (nat, Number, Number))
      reads this
      requires step == Results
      ensures view.0 == Correct(testQuestions, answers)
      ensures view.1 == ScaledRound(view.0, |testQuestions|, 100)
      ensures view.2 == DisplayedScore(view.0, |testQuestions|)
    {
      var correct := Correct(testQuestions, answers);
      (correct, ScaledRound(correct, |testQuestions|, 100), DisplayedScore(correct, |testQuestions|))
    }

    /** New Test: back to setup with no answers, no flags, index 0. */
    method NewTest()
      requires Valid() && step == Results
      modifies this`step, this`answers, this`flagged, this`currentIndex
      ensures Valid()
      ensures step == Setup && answers == map[] && flagged == [] && currentIndex == 0
    {
      step := Setup;
      answers := map[];
      flagged := [];
      currentIndex := 0;
    }
  }
}
