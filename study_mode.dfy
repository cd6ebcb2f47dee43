// Untimed practice with immediate feedback (src/pages/StudyMode.jsx). The
// page's state variables are the fields of StudyPage. The effect that
// refilters the deck whenever the section or category changes runs, as
// React runs it, after the handler that changed them: each handler ends
// with FilterEffect, which refilters only when the pair changed and a
// section is chosen. Nothing here resets the index or the explanation
// beyond what the handlers do, so the page keeps the source's stale-state
// behaviour: a category changed through the back arrow keeps the old
// index, and New Session keeps the last explanation shown.
module StudyMode {
  import opened Js
  import opened Seqs
  import opened Catalog
  import Store

  datatype StudyStep = Select | Category | Practice | ResultsStep

  /** The four section cards of the first screen. */
  const StudySections: seq<string> := ["english", "math", "reading", "science"]

  /** One answered question of the session. */
  datatype StudyResult = StudyResult(questionId: string, isCorrect: bool)

  /** JavaScript truthiness of a string that may be null. */
  predicate Truthy(s: Option<string>) { s.Some? && s.value != "" }

  /** The deck for a section and category: the section's questions, narrowed
      to the category unless it is unset, empty or 'all'. */
  function StudyDeck(questions: seq<Question>, section: string, category: Option<string>): (deck: seq<Question>)
    ensures forall q :: q in deck <==>
              q in questions && q.section == section &&
              (Truthy(category) && category.value != "all" ==> q.category == category.value)
    ensures IsSubsequence(deck, questions)
  {
    var bySection := Filter((q: Question) => q.section == section, questions);
    FilterMembers((q: Question) => q.section == section, questions);
    FilterIsSubsequence((q: Question) => q.section == section, questions);
    if Truthy(category) && category.value != "all" then
      var c := category.value;
      FilterMembers((q: Question) => q.category == c, bySection);
      FilterIsSubsequence((q: Question) => q.category == c, bySection);
      SubsequenceTransitive(Filter((q: Question) => q.category == c, bySection), bySection, questions);
      Filter((q: Question) => q.category == c, bySection)
    else
      bySection
  }

  /** The deck keeps every copy of a matching question and no copy of any
      other: it is the matching part of the bank as a multiset. */
  lemma StudyDeckCounts(questions: seq<Question>, section: string, category: Option<string>)
    ensures forall q :: multiset(StudyDeck(questions, section, category))[q] ==
              if q.section == section && (Truthy(category) && category.value != "all" ==> q.category == category.value)
              then multiset(questions)[q] else 0
  {
    var bySection := Filter((q: Question) => q.section == section, questions);
    FilterCounts((q: Question) => q.section == section, questions);
    if Truthy(category) && category.value != "all" {
      var c := category.value;
      FilterCounts((q: Question) => q.category == c, bySection);
    }
  }

  /** A category deck is a sub-deck of the section's 'All Categories' deck. */
  lemma CategoryDeckWithinAll(questions: seq<Question>, section: string, category: string)
    ensures IsSubsequence(StudyDeck(questions, section, Some(category)),
                          StudyDeck(questions, section, Some("all")))
  {
    var all := StudyDeck(questions, section, Some("all"));
    if category != "" && category != "all" {
      FilterIsSubsequence((q: Question) => q.category == category, all);
    } else {
      IsSubsequenceReflexive(all);
    }
  }

  /** The number keys 1..4 choose options A..D; any other key chooses none. */
  function KeyLabel(key: string): (option: Option<string>)
    ensures option.Some? <==> key in {"1", "2", "3", "4"}
    ensures option.Some? ==> |option.value| == 1 && key[0] as int - '1' as int == option.value[0] as int - 'A' as int
  {
    if key == "1" then Some("A")
    else if key == "2" then Some("B")
    else if key == "3" then Some("C")
    else if key == "4" then Some("D")
    else None
  }

  function CountCorrectResults(results: seq<StudyResult>): (n: nat)
    ensures n <= |results|
    ensures n == |results| <==> forall i :: 0 <= i < |results| ==> results[i].isCorrect
    ensures n == 0 <==> forall i :: 0 <= i < |results| ==> !results[i].isCorrect
  {
    if results == [] then 0
    else CountCorrectResults(results[1..]) + (if results[0].isCorrect then 1 else 0)
  }

  /** The results screen: correct count and rounded percentage, NaN when the
      session holds no results. */
  function SessionSummary(results: seq<StudyResult>): (summary: (nat, Number))
    ensures summary.0 <= |results|
    ensures summary.1.NaN? <==> results == []
    ensures summary.1.Finite? ==> 0 <= summary.1.value <= 100
    ensures results != [] && summary.0 == |results| ==> summary.1 == Finite(100)
    ensures results != [] && summary.0 == 0 ==> summary.1 == Finite(0)
  {
    var correct := CountCorrectResults(results);
    (correct, ScaledRound(correct, |results|, 100))
  }

  class StudyPage {
    const store: Store.StoreCell
    const questions: seq<Question>

    var step: StudyStep
    var selectedSection: Option<string>
    var selectedCategory: Option<string>
    var filteredQuestions: seq<Question>
    var currentIndex: int
    var selectedAnswer: Option<string>
    var showExplanation: bool
    var results: seq<StudyResult>

    /** The page invariant: the deck always matches the chosen section and
        category, the explanation is shown exactly when an answer is
        selected, and the category and practice screens have a section. */
    ghost predicate Valid()
      reads this
    {
      0 <= currentIndex &&
      (showExplanation <==> selectedAnswer.Some?) &&
      (Truthy(selectedSection) ==>
         filteredQuestions == StudyDeck(questions, selectedSection.value, selectedCategory)) &&
      (step == Category || step == Practice ==>
         selectedSection.Some? && selectedSection.value in StudySections) &&
      (step == Practice ==> selectedCategory.Some?) &&
      (step == ResultsStep ==> showExplanation)
    }

    /** The practice screen shows a question (otherwise "No questions
        available"). */
    predicate HasCurrentQuestion()
      reads this
    {
      step == Practice && 0 <= currentIndex < |filteredQuestions|
    }

    constructor (store: Store.StoreCell, questions: seq<Question>)
      ensures Valid()
      ensures this.store == store && this.questions == questions
      ensures step == Select && selectedSection.None? && selectedCategory.None?
      ensures filteredQuestions == [] && currentIndex == 0
      ensures selectedAnswer.None? && !showExplanation && results == []
    {
      this.store := store;
      this.questions := questions;
      step := Select;
      selectedSection := None;
      selectedCategory := None;
      filteredQuestions := [];
      currentIndex := 0;
      selectedAnswer := None;
      showExplanation := false;
      results := [];
    }

    /** The filter effect, run after a handler: refilters when the section or
        the category changed and a section is chosen. */
    method FilterEffect(prevSection: Option<string>, prevCategory: Option<string>)
      modifies this`filteredQuestions
      ensures (selectedSection != prevSection || selectedCategory != prevCategory) && Truthy(selectedSection) ==>
                filteredQuestions == StudyDeck(questions, selectedSection.value, selectedCategory)
      ensures !((selectedSection != prevSection || selectedCategory != prevCategory) && Truthy(selectedSection)) ==>
                filteredQuestions == old(filteredQuestions)
    {
      if (selectedSection != prevSection || selectedCategory != prevCategory) && Truthy(selectedSection) {
        filteredQuestions := StudyDeck(questions, selectedSection.value, selectedCategory);
      }
    }

    /** A section card: choose it and go to the category screen. */
    method ChooseSection(id: string)
      requires Valid() && step == Select && id in StudySections
      modifies this`selectedSection, this`step, this`filteredQuestions
      ensures Valid()
      ensures selectedSection == Some(id) && step == Category
      ensures filteredQuestions == StudyDeck(questions, id, selectedCategory)
    {
      var prevSection, prevCategory := selectedSection, selectedCategory;
      selectedSection := Some(id);
      step := Category;
      FilterEffect(prevSection, prevCategory);
    }

    /** A category button, or 'All Categories' with category "all". */
    method ChooseCategory(category: string)
      requires Valid() && step == Category
      modifies this`selectedCategory, this`step, this`filteredQuestions
      ensures Valid()
      ensures selectedCategory == Some(category) && step == Practice
      ensures filteredQuestions == StudyDeck(questions, selectedSection.value, Some(category))
    {
      var prevSection, prevCategory := selectedSection, selectedCategory;
      selectedCategory := Some(category);
      step := Practice;
      FilterEffect(prevSection, prevCategory);
    }

    /** The category screen's back arrow; the section stays chosen. */
    method BackToSections()
      requires Valid() && step == Category
      modifies this`step
      ensures Valid() && step == Select
    {
      step := Select;
    }

    /** The practice header's back arrow: index, answer and results stay. */
    method BackToCategories()
      requires Valid() && HasCurrentQuestion()
      modifies this`step
      ensures Valid() && step == Category
    {
      step := Category;
    }

    /** "Go Back" on the empty-deck screen. */
    method GoBack()
      requires Valid() && step == Practice && !HasCurrentQuestion()
      modifies this`step
      ensures Valid() && step == Select
    {
      step := Select;
    }

    /** Answering: ignored while the explanation is shown; otherwise the
        answer is shown as chosen, one result is appended and one entry is
        logged in the store with time spent 0. */
    method HandleAnswerSelect(answer: string, now: int)
      requires Valid() && step == Practice && (showExplanation || HasCurrentQuestion())
      modifies this`selectedAnswer, this`showExplanation, this`results, store
      ensures Valid()
      ensures old(showExplanation) ==>
                selectedAnswer == old(selectedAnswer) && showExplanation && results == old(results) &&
                store.state == old(store.state)
      ensures !old(showExplanation) ==>
                var q := filteredQuestions[currentIndex];
                selectedAnswer == Some(answer) && showExplanation &&
                results == old(results) + [StudyResult(q.id, answer == q.correctAnswer)] &&
                store.state == Store.RecordAnswer(old(store.state), q.id, answer, answer == q.correctAnswer, 0, now)
    {
      if !showExplanation {
        var q := filteredQuestions[currentIndex];
        selectedAnswer := Some(answer);
        showExplanation := true;
        var isCorrect := answer == q.correctAnswer;
        results := results + [StudyResult(q.id, isCorrect)];
        store.state := Store.RecordAnswer(store.state, q.id, answer, isCorrect, 0, now);
      }
    }

    /** Next / Finish, offered once the explanation shows: the following
        question with a clean slate, or the results screen after the last
        one. */
    method HandleNext()
      requires Valid() && step == Practice && showExplanation
      modifies this`currentIndex, this`selectedAnswer, this`showExplanation, this`step
      ensures Valid()
      ensures old(currentIndex) < |filteredQuestions| - 1 ==>
                currentIndex == old(currentIndex) + 1 && selectedAnswer.None? && !showExplanation &&
                step == Practice
      ensures old(currentIndex) >= |filteredQuestions| - 1 ==>
                currentIndex == old(currentIndex) && selectedAnswer == old(selectedAnswer) &&
                showExplanation == old(showExplanation) && step == ResultsStep
    {
      if currentIndex < |filteredQuestions| - 1 {
        currentIndex := currentIndex + 1;
        selectedAnswer := None;
        showExplanation := false;
      } else {
        step := ResultsStep;
      }
    }

    /** Previous: the preceding question with a clean slate; nothing on the
        first. */
    method HandlePrevious()
      requires Valid() && step == Practice
      modifies this`currentIndex, this`selectedAnswer, this`showExplanation
      ensures Valid()
      ensures old(currentIndex) > 0 ==>
                currentIndex == old(currentIndex) - 1 && selectedAnswer.None? && !showExplanation
      ensures old(currentIndex) == 0 ==> unchanged(this)
    {
      if currentIndex > 0 {
        currentIndex := currentIndex - 1;
        selectedAnswer := None;
        showExplanation := false;
      }
    }

    /** The flag button toggles the current question in the store's session. */
    method Flag()
      requires Valid() && HasCurrentQuestion()
      modifies store
      ensures store.state == Store.ToggleFlag(old(store.state), filteredQuestions[currentIndex].id)
    {
      store.state := Store.ToggleFlag(store.state, filteredQuestions[currentIndex].id);
    }

    /** The keyboard: outside practice nothing; 1..4 answer A..D (ignored
        while the explanation shows, otherwise the page needs a current
        question); ArrowRight goes on once the explanation shows; ArrowLeft
        goes back; any other key does nothing. */
    method KeyDown(key: string, now: int)
      requires Valid()
      requires step == Practice && KeyLabel(key).Some? && !showExplanation ==> HasCurrentQuestion()
      modifies this`currentIndex, this`selectedAnswer, this`showExplanation, this`step, this`results, store
      ensures Valid()
      ensures old(step) != Practice ==> unchanged(this) && store.state == old(store.state)
      ensures old(step) == Practice && KeyLabel(key).Some? && old(showExplanation) ==>
                unchanged(this) && store.state == old(store.state)
      ensures old(step) == Practice && KeyLabel(key).Some? && !old(showExplanation) ==>
                var q := old(filteredQuestions[currentIndex]);
                var answer := KeyLabel(key).value;
                currentIndex == old(currentIndex) && step == Practice &&
                selectedAnswer == Some(answer) && showExplanation &&
                results == old(results) + [StudyResult(q.id, answer == q.correctAnswer)] &&
                store.state == Store.RecordAnswer(old(store.state), q.id, answer, answer == q.correctAnswer, 0, now)
      ensures old(step) == Practice && key == "ArrowRight" && old(showExplanation) ==>
                results == old(results) && store.state == old(store.state) &&
                (old(currentIndex) < |filteredQuestions| - 1 ==>
                   currentIndex == old(currentIndex) + 1 && selectedAnswer.None? && !showExplanation &&
                   step == Practice) &&
                (old(currentIndex) >= |filteredQuestions| - 1 ==>
                   currentIndex == old(currentIndex) && selectedAnswer == old(selectedAnswer) &&
                   showExplanation && step == ResultsStep)
      ensures old(step) == Practice && key == "ArrowRight" && !old(showExplanation) ==>
                unchanged(this) && store.state == old(store.state)
      ensures old(step) == Practice && key == "ArrowLeft" ==>
                step == Practice && results == old(results) && store.state == old(store.state) &&
                (old(currentIndex) > 0 ==>
                   currentIndex == old(currentIndex) - 1 && selectedAnswer.None? && !showExplanation) &&
                (old(currentIndex) == 0 ==> unchanged(this))
      ensures KeyLabel(key).None? && key != "ArrowRight" && key != "ArrowLeft" ==>
                unchanged(this) && store.state == old(store.state)
    {
      if step == Practice {
        var option := KeyLabel(key);
        if option.Some? {
          HandleAnswerSelect(option.value, now);
        } else if key == "ArrowRight" && showExplanation {
          HandleNext();
        } else if key == "ArrowLeft" {
          HandlePrevious();
        }
      }
    }

    /** Correct count and percentage on the results screen. */
    function Summary(): (summary: (nat, Number))
      reads this
      requires step == ResultsStep
      ensures summary == SessionSummary(results)
    {
      SessionSummary(results)
    }

    /** New Session: back to the first screen with no results and nothing
        chosen; the selected answer and the explanation flag are kept. */
    method NewSession()
      requires Valid() && step == ResultsStep
      modifies this`step, this`currentIndex, this`results, this`selectedSection, this`selectedCategory,
               this`filteredQuestions
      ensures Valid()
      ensures step == Select && currentIndex == 0 && results == []
      ensures selectedSection.None? && selectedCategory.None?
      ensures filteredQuestions == old(filteredQuestions)
    {
      var prevSection, prevCategory := selectedSection, selectedCategory;
      step := Select;
      currentIndex := 0;
      results := [];
      selectedSection := None;
      selectedCategory := None;
      FilterEffect(prevSection, prevCategory);
    }
  }

  /** New Session keeps the explanation of the last answer on, so the next
      session's first question already offers Finish: a one-question deck
      reaches the results screen with no result at all, and the percentage
      is 0/0. */
  method EmptySessionReachesResults(store: Store.StoreCell, q: Question, answer: string, now: int)
      returns (page: StudyPage)
    requires q.section == "math"
    modifies store
    ensures page.step == ResultsStep && page.results == []
    ensures page.Summary() == (0, NaN)
  {
    page := new StudyPage(store, [q]);
    page.ChooseSection("math");
    page.ChooseCategory("all");
    OneQuestionDeck(q, page.filteredQuestions);
    page.HandleAnswerSelect(answer, now);
    assert page.showExplanation && page.currentIndex == 0;
    page.HandleNext();
    assert page.step == ResultsStep;
    page.NewSession();
    assert page.showExplanation;
    page.ChooseSection("math");
    page.ChooseCategory("all");
    OneQuestionDeck(q, page.filteredQuestions);
    assert page.showExplanation && page.currentIndex == 0 && page.results == [];
    page.HandleNext();
  }

  lemma OneQuestionDeck(q: Question, deck: seq<Question>)
    requires q in deck && IsSubsequence(deck, [q])
    ensures deck == [q]
  {
    assert deck[0] == q;
    assert IsSubsequence(deck[1..], []);
  }
}
