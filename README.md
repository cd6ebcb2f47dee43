# ACT preparation app: a verified model of its store and study pages

The application is a single-page ACT preparation tool. It has five main parts:

- a Zustand store (`src/store/useStore.js`) holding the user, the progress record and the current session;
- a timed mock test (`SimulateTest.jsx`);
- untimed practice with explanations (`StudyMode.jsx`);
- flashcards (`Flashcards.jsx`);
- a profile page (`Profile.jsx`) and a lessons page (`Lessons.jsx`) that summarise the progress record.

Two data files come with it: the eight-week curriculum (`src/data/lessons.js`) and the strategy guides (`src/data/resources.js`).

This Dafny project models those parts one module per source file:

| module | source | form |
|---|---|---|
| `Js` | JavaScript built-ins used by the pages | functions |
| `Seqs` | `filter`, `reverse`, toggle-in-list | functions and lemmas |
| `Catalog` | question, flashcard and timing records | datatypes |
| `Store` | `useStore.js` | whole-state functions, plus the `StoreCell` class and the `GetCategoryPerformance` loop |
| `SimulateTest` | `SimulateTest.jsx` | class `MockTestPage` plus pure helpers |
| `StudyMode` | `StudyMode.jsx` | class `StudyPage` |
| `Flashcards` | `Flashcards.jsx` | class `FlashcardPage` and class `CardBank` |
| `Profile` | `Profile.jsx` | pure views, plus a small `ProfilePage` class |
| `LessonsPage` | `Lessons.jsx` | pure views |
| `LessonsData` | `lessons.js` | constants and lemmas |
| `Resources` | `resources.js` | constants and lemmas |

The model's conventions:

- **JavaScript numbers.** `Math.round(a / b)` on non-negative values is the exact integer `RoundDiv(a, b) = (2a + b) / (2b)`. A quotient that can be `0 / 0` is a `Number`: either `Finite(n)` or `NaN`.
- **Store actions.** Each store action maps the old `State` to the new one. The store itself is a `StoreCell` whose `state` field the pages reassign, once per `set` call.
- **Page state.** The React state variables of each page are fields of its class. Every handler is a method that names in `modifies` exactly the fields it sets.
- **Filter effect.** In StudyMode and Flashcards, the effect that refilters the deck runs after the handler that changed section or category. The model's handlers call `FilterEffect` last. It refilters only when the (section, category) pair changed and a section is chosen, which is what React's dependency list does.
- **Inputs from outside.** Random orders, dates and `Date.now()` are method parameters. Answer, drag and key events are the methods themselves.

Where the code and its documentation disagree, the model follows the code, and the resulting behaviour is proved:

- **No section or category on answers.** Answers are logged without a section or category. So `getScoreBySection` is always null (`Store.ScoreBySectionAlwaysNull`), the profile's section panel always reads "No data" (`Profile.SectionPanelAlwaysEmpty`), and the category breakdown is always empty (`Store.CategoryRowsSound`).
- **Mode always null.** No page calls `startSession`, so the mode stamped on answers stays null (`Store.ModeWithoutStartSession`).
- **Overall progress capped at 32%.** Progress divides by a fixed 56 lessons while the curriculum has 18, so it can never exceed 32% (`LessonsData.ProgressCeiling`).
- **Random Mix shows an empty deck unless the pair is already 'all'.** Flashcards' Random Mix names the section `'all'`, which no card carries. When section and category were not both `'all'` before, the filter effect runs and empties the deck (`Flashcards.RandomMixEffectDeckEmpty`, with the first branch of `Flashcards.FlashcardPage.RandomMix`'s contract at flashcards.dfy:269-270). When they already were both `'all'` (for example, a second Random Mix after Go Back from the empty deck), the effect does not run and the whole shuffled bank is shown (the second branch).
- **Results score differs from the recorded score.** The mock-test results screen rounds twice, so it can show a score other than the one recorded: 6 of 29 records 7 and shows 8 (`SimulateTest.DisplayedScoreDiffersFromRecorded`).
- **Empty study session.** StudyMode's New Session keeps the last explanation on. A later one-question session can therefore reach the results screen with no answer at all, which shows `NaN%` (`StudyMode.EmptySessionReachesResults`).
- **NaN text on the profile.** A mock test submitted with an empty deck records a NaN score. The profile then prints the text `NaN` in place of the score card (`Profile.EmptyMockTestShowsNaN`).

## Model

| member | source | states |
|---|---|---|
| Js.RoundDiv | src/store/useStore.js:187-189 | `Math.round(a / b)` is the integer nearest to a/b, with halves rounded up |
| Js.ScaledRound | src/pages/SimulateTest.jsx:466 | `Math.round(part / whole * scale)` is NaN exactly when whole is 0; otherwise it lies in 0..scale, is scale when every item counts and 0 when none does |
| Js.RoundNumber | src/pages/SimulateTest.jsx:467 | rounding keeps NaN as NaN, and scales a value in 0..div into 0..mul |
| Js.NatToString | src/pages/SimulateTest.jsx:98 | `toString` of a non-negative integer is a non-empty digit string, one digit long exactly below 10 |
| Js.NatToStringRoundTrip | src/pages/SimulateTest.jsx:98 | the digits written by `toString` read back as the same number |
| Js.PadStart2 | src/pages/SimulateTest.jsx:98 | `padStart(2, '0')` left-pads a shorter string with zeros to length 2 and leaves longer ones alone |
| Js.LeadingZeroValue | src/pages/SimulateTest.jsx:98 | a leading zero does not change a digit string's value |
| Js.DigitPrefix | src/pages/Profile.jsx:287 | `parseInt` reads the longest run of leading digits |
| Js.TrimStart | src/pages/Profile.jsx:287 | the white space `parseInt` skips: the result is a suffix, everything dropped is white space, and it starts with no white space |
| Js.ParseInt | src/pages/Profile.jsx:287 | `parseInt` gives no number exactly when no digit follows the white space and the optional sign; otherwise the value of the leading digits, negated after a '-' |
| Js.ParseIntOfNatToString | src/pages/Profile.jsx:287 | `parseInt` of a written number, followed by any non-digit text, gives that number back |
| Seqs.Toggle | src/store/useStore.js:149-151 | after a toggle the id is listed exactly when it was not listed before, and every other id keeps its membership |
| Seqs.ToggleDistinct | src/store/useStore.js:149-151 | toggling keeps a duplicate-free list duplicate-free |
| Seqs.ToggleTwice | src/store/useStore.js:145-153 | toggling the same id twice restores the set of listed ids, and restores the very list when the id was absent |
| Seqs.Reverse | src/pages/Profile.jsx:227 | `reverse` keeps the length and puts element i at position length-1-i |
| Catalog.FilterKeepsUniqueIds | src/pages/SimulateTest.jsx:64-67 | a filtered deck keeps the bank's unique question ids |
| Catalog.UniqueIdsCardinality | src/pages/SimulateTest.jsx:394-396 | a deck with unique ids has as many ids as questions |
| Store.StoreCell.constructor | src/store/useStore.js:8-38 | the store starts as the initial user (target score 32, settings off), empty progress and an empty session |
| Store.SetUser | src/store/useStore.js:41-44 | setUser overwrites exactly the user fields it is given; progress and session stay |
| Store.UpdateSettings | src/store/useStore.js:46-52 | updateSettings overwrites exactly the given settings; everything else stays |
| Store.ToggleDarkMode | src/store/useStore.js:54-64 | dark mode flips; extended time, the other user fields, progress and session stay |
| Store.CompleteLesson | src/store/useStore.js:67-75 | a listed lesson leaves the list as it is; a new one is appended at the end; nothing else changes |
| Store.CompleteLessonProgress | src/store/useStore.js:67-75 | completeLesson is idempotent and never lowers overall progress |
| Store.RecordAnswer | src/store/useStore.js:78-94 | exactly one entry is appended, with the given fields, the given timestamp and the session's mode; earlier entries and the rest of the state stay |
| Store.RecordMockTest | src/store/useStore.js:97-103 | the record is appended unchanged; nothing else changes |
| Store.ReviewFlashcard | src/store/useStore.js:106-115 | one review with the given timestamp is appended; nothing else changes |
| Store.StartSession | src/store/useStore.js:118-130 | the session is replaced by a fresh one with the given mode, section and category, index 0, no answers, no flags, no time limit and the given start time |
| Store.SetQuestionIndex | src/store/useStore.js:132-135 | only the session's question index changes |
| Store.SetAnswer | src/store/useStore.js:137-143 | the answer for one question is set; the other answers and the rest of the state stay |
| Store.ToggleFlag | src/store/useStore.js:145-153 | the id is flagged afterwards exactly when it was not flagged before; no other id changes |
| Store.SetTimeRemaining | src/store/useStore.js:155-158 | only the session's time remaining changes |
| Store.EndSession | src/store/useStore.js:160-172 | the session returns to its initial value; user and progress stay |
| Store.AddStudyTime | src/store/useStore.js:175-181 | the total study time grows by exactly the given minutes; nothing else changes |
| Store.LogsAreAppendOnly | src/store/useStore.js:67-103 | under any sequence of actions, the answer log, the mock-test list and the completed lessons only grow at the end |
| Store.ActionsKeepLessonsDistinct | src/store/useStore.js:71-73 | no sequence of actions lists a lesson twice |
| Store.ActionsKeepLogUntagged | src/store/useStore.js:84-91 | no sequence of actions puts a section or category on an answer entry |
| Store.ModeWithoutStartSession | src/store/useStore.js:118-130 | without a startSession call the session mode stays null, so every logged answer carries a null mode |
| Store.SessionActionsNotPersisted | src/store/useStore.js:229-235 | the session-only actions leave the persisted user and progress untouched |
| Store.GetOverallProgress | src/store/useStore.js:184-190 | overall progress is 0 with no lessons and lies in 0..100 while at most 56 are completed |
| Store.GetScoreBySection | src/store/useStore.js:192-200 | the score is null exactly when no entry carries the section; otherwise it is a percentage in 0..100 |
| Store.ScoreBySectionAlwaysNull | src/store/useStore.js:192-200 | on every log the application can build, getScoreBySection is null |
| Store.GetEstimatedScore | src/store/useStore.js:202-208 | the estimate is null exactly when no mock test exists; otherwise it is a recorded composite score |
| Store.EstimatedScoreIsLatest | src/store/useStore.js:202-208 | after recordMockTest the estimate is the score just recorded |
| Store.CategoryCorrectAtMostTotal | src/store/useStore.js:213-220 | a category never has more correct answers than answers |
| Store.CategoryKeysExact | src/store/useStore.js:213-222 | the keys are the non-empty categories of the log, each once |
| Store.CategoryRowsSound | src/store/useStore.js:222-226 | each row is a distinct category from the log, with its total and a percentage in 0..100; an untagged log gives no rows |
| Store.GetCategoryPerformance | src/store/useStore.js:210-227 | the counting loop returns one row per category, in order of first appearance, with its counts |
| SimulateTest.LookupTime | src/pages/SimulateTest.jsx:59 | the section's minutes are found exactly when the table has the section, and they are the table's entry |
| SimulateTest.GetTiming | src/pages/SimulateTest.jsx:51-60 | 'all' sums the chosen table; a section gets its table minutes, or 35 when it has none or 0; the enhanced table is used only for the enhanced exam |
| SimulateTest.TimeBudget | src/pages/SimulateTest.jsx:70-71 | the clock starts at 60 seconds per minute, times 1.5 with extended time |
| SimulateTest.TotalMinutesLabel | src/pages/SimulateTest.jsx:237 | the setup label shows the budget rounded to whole minutes |
| SimulateTest.ExtendedBudgetExample | src/pages/SimulateTest.jsx:237 | 35 minutes give 3150 seconds with extended time and 2100 without; the label reads 53 |
| SimulateTest.FormatTime | src/pages/SimulateTest.jsx:95-99 | the clock text is minutes, a colon and two second digits |
| SimulateTest.FormatTimeReadsBack | src/pages/SimulateTest.jsx:95-99 | the clock text's minutes and seconds read back as seconds / 60 and seconds % 60 |
| SimulateTest.ClockReadsBack | src/pages/SimulateTest.jsx:95-99 | minutes and seconds below 60, written as the clock shows them, read back as the same two numbers |
| SimulateTest.SecondsField | src/pages/SimulateTest.jsx:97-98 | a seconds value below 60 is padded to exactly two digits that read back as that value |
| SimulateTest.Correct | src/pages/SimulateTest.jsx:119-122 | the correct count is at most the deck size, and equals it exactly when every question's answer is its key |
| SimulateTest.CountCorrect | src/pages/SimulateTest.jsx:118-122 | the counting loop returns the number of questions answered with their key |
| SimulateTest.CompositeScore | src/pages/SimulateTest.jsx:124-125 | the recorded score is NaN exactly for an empty deck; otherwise it lies in 0..36, is 0 with none right and 36 with all right |
| SimulateTest.DisplayedScore | src/pages/SimulateTest.jsx:466-467 | the results screen's score is NaN exactly for an empty deck, and otherwise lies in 0..36 |
| SimulateTest.CompositeScoreExamples | src/pages/SimulateTest.jsx:124-125 | 0, 5 and 10 right out of 10 record 0, 18 and 36 |
| SimulateTest.DisplayedScoreDiffersFromRecorded | src/pages/SimulateTest.jsx:461-467 | 6 right out of 29 records 7 but the results screen shows 21% and 8 |
| SimulateTest.NextIndex | src/pages/SimulateTest.jsx:355-358 | Next moves one forward and stays on the last question |
| SimulateTest.PreviousIndex | src/pages/SimulateTest.jsx:347-348 | Previous moves one back and stays on the first question |
| SimulateTest.SwipeOf | src/pages/SimulateTest.jsx:36-48 | a drag further left than 50 is next, further right than 50 is previous, anything else is nothing |
| SimulateTest.IndexOfId | src/pages/SimulateTest.jsx:427 | findIndex gives the first question with the id, or -1 exactly when none has it |
| SimulateTest.SectionDeck | src/pages/SimulateTest.jsx:64-67 | the deck holds exactly the bank's questions of the chosen section (all of them for 'all'), in bank order |
| SimulateTest.ReviewCountsBounded | src/pages/SimulateTest.jsx:394-396 | answered never exceeds the deck size, and equals it exactly when every deck question has an answer |
| SimulateTest.MockTestPage.constructor | src/pages/SimulateTest.jsx:19-29 | the page opens on setup, with no exam, section 'all', the user's extended-time setting, and an empty deck, answers and flags |
| SimulateTest.MockTestPage.SelectExam | src/pages/SimulateTest.jsx:163-174 | choosing an exam card sets the exam |
| SimulateTest.MockTestPage.SelectSection | src/pages/SimulateTest.jsx:192-205 | choosing a section sets it |
| SimulateTest.MockTestPage.SetExtendedTime | src/pages/SimulateTest.jsx:225 | the checkbox sets the page's extended-time flag |
| SimulateTest.MockTestPage.StartTest | src/pages/SimulateTest.jsx:63-74 | with no exam chosen nothing happens (the button is disabled); otherwise the deck is the section's questions, the clock is the budget and the test step begins |
| SimulateTest.MockTestPage.Tick | src/pages/SimulateTest.jsx:77-92 | outside a running test nothing changes; otherwise the clock goes down one second, and at the last second it stops at 0 and moves to review |
| SimulateTest.MockTestPage.EndTest | src/pages/SimulateTest.jsx:260-265 | a confirmed End Test moves to review |
| SimulateTest.MockTestPage.HandleAnswer | src/pages/SimulateTest.jsx:102-107 | the current question's answer is set; the other answers stay |
| SimulateTest.MockTestPage.HandleFlag | src/pages/SimulateTest.jsx:110-115 | the current question's flag is toggled, keeping the flag list duplicate-free |
| SimulateTest.MockTestPage.Previous | src/pages/SimulateTest.jsx:347-354 | the index moves as PreviousIndex says |
| SimulateTest.MockTestPage.Next | src/pages/SimulateTest.jsx:355-363 | the index moves as NextIndex says |
| SimulateTest.MockTestPage.HandleDragEnd | src/pages/SimulateTest.jsx:36-48 | a swipe moves the index to the next or previous question, and anything else leaves it |
| SimulateTest.MockTestPage.JumpTo | src/pages/SimulateTest.jsx:370-373 | a navigator button moves to that question |
| SimulateTest.MockTestPage.ReviewCounts | src/pages/SimulateTest.jsx:394-396 | the review screen's answered and unanswered counts add up to the deck size, and none is unanswered exactly when every deck question has an answer |
| SimulateTest.MockTestPage.BackToTest | src/pages/SimulateTest.jsx:446-451 | Back to Test returns to the test step |
| SimulateTest.MockTestPage.JumpToFlagged | src/pages/SimulateTest.jsx:426-434 | a flagged-question button returns to the test on exactly that question |
| SimulateTest.MockTestPage.SubmitTest | src/pages/SimulateTest.jsx:118-137 | one mock-test record is added to the store, with the section, deck size, correct count and composite score; the page moves to results |
| SimulateTest.MockTestPage.ResultsView | src/pages/SimulateTest.jsx:461-467 | the results screen shows the correct count, the rounded percentage and the score recomputed from that percentage |
| SimulateTest.MockTestPage.NewTest | src/pages/SimulateTest.jsx:512-517 | New Test returns to setup with no answers, no flags and index 0 |
| StudyMode.StudyDeck | src/pages/StudyMode.jsx:30-38 | the deck holds exactly the section's questions, narrowed to the category unless it is unset or 'all', in bank order |
| StudyMode.StudyDeckCounts | src/pages/StudyMode.jsx:30-38 | the deck keeps every copy of each matching question and no copy of any other question |
| StudyMode.CategoryDeckWithinAll | src/pages/StudyMode.jsx:33-35 | a category deck is a sub-deck of the section's 'All Categories' deck |
| StudyMode.KeyLabel | src/pages/StudyMode.jsx:76-78 | keys 1 to 4 select answers A to D, and no other key selects one |
| StudyMode.CountCorrectResults | src/pages/StudyMode.jsx:202 | the correct count is at most the number of results: all of them exactly when every result is correct, and none exactly when none is |
| StudyMode.SessionSummary | src/pages/StudyMode.jsx:202-203 | the percentage is NaN exactly when there are no results; otherwise it lies in 0..100, is 100 when all are correct and 0 when none is |
| StudyMode.StudyPage.constructor | src/pages/StudyMode.jsx:20-27 | the page opens on section selection, with nothing chosen, an empty deck and no results |
| StudyMode.StudyPage.FilterEffect | src/pages/StudyMode.jsx:30-38 | the deck is recomputed exactly when section or category changed and a section is chosen |
| StudyMode.StudyPage.ChooseSection | src/pages/StudyMode.jsx:113-116 | a section card selects the section, moves to categories, and the deck follows the section |
| StudyMode.StudyPage.ChooseCategory | src/pages/StudyMode.jsx:181-184 | a category button (or 'All Categories', lines 155-158) selects it, moves to practice, and the deck follows |
| StudyMode.StudyPage.BackToSections | src/pages/StudyMode.jsx:140 | the category screen's back arrow returns to section selection |
| StudyMode.StudyPage.BackToCategories | src/pages/StudyMode.jsx:264 | the practice screen's back arrow returns to the categories |
| StudyMode.StudyPage.GoBack | src/pages/StudyMode.jsx:245-255 | Go Back on an empty deck returns to section selection |
| StudyMode.StudyPage.HandleAnswerSelect | src/pages/StudyMode.jsx:42-50 | while an explanation shows, answering does nothing; otherwise the answer is shown, one result is appended and one answer is recorded in the store |
| StudyMode.StudyPage.HandleNext | src/pages/StudyMode.jsx:52-61 | offered once the explanation shows (lines 391-398): goes to the next question with a clean slate, or after the last one to the results |
| StudyMode.StudyPage.HandlePrevious | src/pages/StudyMode.jsx:63-69 | goes to the previous question with a clean slate; on the first question nothing changes |
| StudyMode.StudyPage.Flag | src/pages/StudyMode.jsx:273 | the flag button toggles the current question in the store's session |
| StudyMode.StudyPage.KeyDown | src/pages/StudyMode.jsx:72-88 | outside practice a key changes nothing; keys 1 to 4 answer with A to D as HandleAnswerSelect does (nothing while the explanation shows); ArrowRight goes on as HandleNext does once the explanation shows and does nothing before; ArrowLeft goes back as HandlePrevious does; any other key changes nothing; the page invariant holds |
| StudyMode.StudyPage.Summary | src/pages/StudyMode.jsx:202-204 | the results screen shows the session summary of the results |
| StudyMode.StudyPage.NewSession | src/pages/StudyMode.jsx:222-228 | New Session returns to section selection with index 0, no results and nothing chosen; the deck and the explanation state stay |
| StudyMode.EmptySessionReachesResults | src/pages/StudyMode.jsx:222-228 | a finished session followed by New Session and a one-question deck reaches results with no result, and the percentage is NaN |
| Flashcards.CardDeck | src/pages/Flashcards.jsx:32-42 | the deck holds exactly the section's cards, narrowed to the category unless it is unset or 'all', and only cards of the bank |
| Flashcards.CardDeckOfPermutation | src/pages/Flashcards.jsx:129 | filtering a reordered bank gives a reordering of the same deck |
| Flashcards.RandomMixEffectDeckEmpty | src/pages/Flashcards.jsx:126-131 | section 'all' is no card's section, so whenever the filter effect runs after Random Mix it leaves an empty deck |
| Flashcards.GestureOf | src/pages/Flashcards.jsx:91-106 | a horizontal drag beyond 50 flips, whatever the vertical motion; otherwise up beyond 50 is next and down beyond 50 is previous |
| Flashcards.GestureOfKey | src/pages/Flashcards.jsx:73-88 | left and right arrows flip, up is next, down is previous |
| Flashcards.CardBank.constructor | src/pages/Flashcards.jsx:129 | the shared card array holds the given cards |
| Flashcards.FlashcardPage.constructor | src/pages/Flashcards.jsx:19-25 | the page opens on section selection with an empty deck, index 0, face up |
| Flashcards.FlashcardPage.FilterEffect | src/pages/Flashcards.jsx:32-42 | when section or category changed and a section is chosen, the deck is refiltered, index 0, face up; otherwise nothing changes |
| Flashcards.FlashcardPage.ChooseSection | src/pages/Flashcards.jsx:151-154 | a section card selects it and moves to categories; a new section refilters the deck |
| Flashcards.FlashcardPage.ChooseCategory | src/pages/Flashcards.jsx:220-223 | a category (or 'All Categories', lines 193-196) selects it and moves to practice; a new category refilters |
| Flashcards.FlashcardPage.RandomMix | src/pages/Flashcards.jsx:126-131 | the shared bank is reordered in place, section and category become 'all', the practice step begins; the deck is empty unless section and category were already both 'all' (e.g. after Go Back from the empty deck), in which case the whole shuffled bank is shown |
| Flashcards.FlashcardPage.BackToSections | src/pages/Flashcards.jsx:178 | the back arrow returns to section selection (also from an empty practice deck, line 244) |
| Flashcards.FlashcardPage.BackToCategories | src/pages/Flashcards.jsx:258 | the practice back arrow returns to the categories |
| Flashcards.FlashcardPage.Flip | src/pages/Flashcards.jsx:46-48 | the card turns over |
| Flashcards.FlashcardPage.Next | src/pages/Flashcards.jsx:50-56 | moves to the next card face up with direction 1; nothing on the last card |
| Flashcards.FlashcardPage.Previous | src/pages/Flashcards.jsx:58-64 | moves to the previous card face up with direction -1; nothing on the first card |
| Flashcards.FlashcardPage.ShuffleDeck | src/pages/Flashcards.jsx:66-70 | the deck becomes the given reordering of itself, at index 0, face up |
| Flashcards.AfterGesture | src/pages/Flashcards.jsx:46-64 | a flip turns the card; next and previous move one card, face up, with direction +1 or -1, when there is a card to move to, and otherwise change nothing; the index stays on the deck |
| Flashcards.GesturesUndo | src/pages/Flashcards.jsx:46-64 | next then previous returns to the same card face up, and two flips restore the view |
| Flashcards.FlashcardPage.Perform | src/pages/Flashcards.jsx:91-106 | the page's card, face and direction become what AfterGesture gives for the gesture |
| Flashcards.FlashcardPage.HandleDragEnd | src/pages/Flashcards.jsx:91-106 | a released drag moves the view as AfterGesture says for the drag's gesture, staying on a card |
| Flashcards.FlashcardPage.KeyDown | src/pages/Flashcards.jsx:73-88 | outside practice a key changes nothing; inside, the view moves as AfterGesture says for the key's gesture |
| Profile.SectionRowOf | src/pages/Profile.jsx:22-34 | a section row counts the entries tagged with the section: no data exactly when none is tagged; correct at most total; percentage in 0..100, and 0 without data |
| Profile.SectionPerformance | src/pages/Profile.jsx:22-34 | the panel has the four sections in their fixed order |
| Profile.SectionRowAgreesWithStore | src/pages/Profile.jsx:22-34 | the panel and getScoreBySection agree on which sections have data and on their percentages |
| Profile.SectionPanelAlwaysEmpty | src/pages/Profile.jsx:22-34 | on every log the application can build, all four rows read 0 of 0 |
| Profile.ProfileStats | src/pages/Profile.jsx:41-62 | the stat cards show the numbers of answers, completed lessons and mock tests, and the study time rounded to the nearest hour |
| Profile.StudyHours | src/pages/Profile.jsx:59 | study time is shown as the whole hours nearest to the minutes |
| Profile.StatsNeverDecrease | src/pages/Profile.jsx:41-62 | the answered, lessons and mock-test counters never go down under any actions |
| Profile.EstimatedScoreView | src/pages/Profile.jsx:112 | the card shows exactly for a non-zero finite estimate; null shows nothing; 0 or NaN leave the bare value as text |
| Profile.EmptyMockTestShowsNaN | src/pages/Profile.jsx:112 | after a mock test on an empty deck the profile shows the stray text NaN |
| Profile.InsertRow | src/pages/Profile.jsx:191 | inserting a row adds exactly that row |
| Profile.InsertRowSorted | src/pages/Profile.jsx:191 | inserting into a sorted list keeps it sorted |
| Profile.SortByPercentage | src/pages/Profile.jsx:191 | the sort is a permutation that is ascending by percentage |
| Profile.SortIsStable | src/pages/Profile.jsx:191 | rows with equal percentage keep their original order |
| Profile.SortedPrefixIsLeast | src/pages/Profile.jsx:192 | a prefix of a sorted list is sorted, and none of its rows is above a row left out |
| Profile.Breakdown | src/pages/Profile.jsx:190-192 | the panel shows min(10, n) rows, ascending, drawn from the categories, and no shown row is above a row left out |
| Profile.MockHistory | src/pages/Profile.jsx:227 | the history shows the latest min(5, n) tests, newest first |
| Profile.RecordedTestHeadsHistory | src/pages/Profile.jsx:227 | the test just recorded heads the history |
| Profile.HistoryTitle | src/pages/Profile.jsx:234 | a full test is titled "Full Test" and any other by its section |
| Profile.TargetScoreFromInput | src/pages/Profile.jsx:287 | the stored target is never 0: the typed number when it parses to a non-zero value, and 30 when it does not parse or parses to 0 (as "0", "-0" or "0.5" do) |
| Profile.TargetScoreTyped | src/pages/Profile.jsx:287 | typing a positive number stores it; typing 0 or clearing the field stores 30 |
| Profile.ProfilePage.constructor | src/pages/Profile.jsx:15-16 | the editor starts closed, holding the user's name |
| Profile.ProfilePage.StartEditing | src/pages/Profile.jsx:96 | clicking the name opens the editor |
| Profile.ProfilePage.TypeName | src/pages/Profile.jsx:82 | typing replaces the edited text |
| Profile.ProfilePage.SaveName | src/pages/Profile.jsx:36-39 | saving makes the typed text the user's name through setUser and closes the editor |
| Profile.ProfilePage.SetExtendedTime | src/pages/Profile.jsx:274 | the checkbox sets the stored extended-time setting through updateSettings |
| Profile.ProfilePage.SetTargetScore | src/pages/Profile.jsx:287 | the field stores the parsed target through setUser, never 0 |
| Profile.ProfilePage.CategoryBreakdown | src/pages/Profile.jsx:190-192 | the panel's rows are the breakdown of getCategoryPerformance |
| LessonsData.WeekDays | src/data/lessons.js:1068 | a week's days are exactly the lessons of that week, in list order, each as often as in the list |
| LessonsData.CurriculumOf | src/data/lessons.js:1063-1112 | the curriculum is weeks 1 to 8, each with its theme and its days |
| LessonsData.CurriculumWeeksIncrease | src/data/lessons.js:1063-1112 | the weeks are listed in strictly increasing order |
| LessonsData.WeeksPartitionLessons | src/data/lessons.js:1063-1112 | when every lesson's week is in 1..8, each lesson is in its own week and no other, and the week sizes add up to the number of lessons |
| LessonsData.LessonWeeksInRange | src/data/lessons.js:2-1061 | every lesson's week is in 1..8 |
| LessonsData.CurriculumDayCount | src/data/lessons.js:2-1112 | the eight weeks' days add up to the 18 lessons |
| LessonsData.CurriculumPlacesEachLesson | src/data/lessons.js:2-1112 | each of the 18 lessons is listed under its own week and under no other |
| LessonsData.LessonIdsDistinct | src/data/lessons.js:2-1061 | lesson ids are pairwise distinct |
| LessonsData.ProgressCeiling | src/store/useStore.js:184-190 | with distinct real lessons, overall progress is at most 32%, and exactly 32% with all 18 done |
| LessonsPage.FilteredCurriculum | src/pages/Lessons.jsx:32-37 | filtering keeps every week, in order, with its number and theme; its days are exactly those passing the filter, in order and each as often as before; 'all' changes nothing |
| LessonsPage.CompletedInWeek | src/pages/Lessons.jsx:106-108 | the week's completed count is at most its number of days: all of them exactly when every day is completed, and 0 exactly when none is |
| LessonsPage.CompletedInWeekMonotone | src/pages/Lessons.jsx:106-108 | completing more lessons never lowers a week's count |
| LessonsPage.ToggleExpanded | src/pages/Lessons.jsx:114 | clicking a week collapses it when it is expanded, and otherwise makes it the only expanded week |
| LessonsPage.ToggleExpandedTwice | src/pages/Lessons.jsx:114 | clicking the same week twice restores an expanded week, or leaves no week expanded |
| LessonsPage.PanelOf | src/pages/Lessons.jsx:134-187 | the lesson list shows exactly when the week is expanded and has days; "No lessons match" exactly when it is expanded and has none |
| LessonsPage.OpeningViewListsWeekOne | src/pages/Lessons.jsx:27-28 | the page opens with week 1 expanded, listing its lessons |
| LessonsPage.FilterEmptiesWeek | src/pages/Lessons.jsx:187 | a week with no lesson of the filtered section shows "No lessons match" when expanded |
| LessonsPage.GeneralFilterEmptiesWeekOne | src/pages/Lessons.jsx:187 | under the 'general' filter the expanded week 1 shows "No lessons match" |
| Resources.ResourcesBySection | src/data/resources.js:1586-1589 | 'all' gives the whole list unchanged; any other section gives exactly its guides, in order; the result is always a subsequence |
| Resources.UnknownSectionIsEmpty | src/data/resources.js:1588 | a section no guide carries gives the empty list |
| Resources.SectionsAreCategories | src/data/resources.js:4-10 | every guide's section is one of the five category ids |
| Resources.CategoriesPartitionResources | src/data/resources.js:1586-1589 | each guide appears under its own category as often as in the list, and under no other category |

## Left out

- **I/O and persistence.** Zustand `persist` and localStorage are not modelled. `Store.SessionActionsNotPersisted` states which part would persist.
- **Dark-mode DOM toggle.** The `document.documentElement` class toggle in toggleDarkMode is not modelled.
- **Timers, dates and randomness.** The interval timer is the `Tick` method. `Date.now()`, `new Date()` and `Math.random` orders are parameters. `window.confirm` is modelled as confirmed only.
- **Unrounded percentage.** The mock-test record's `percentage` field is a float and is not stored. The history's percentage text is therefore not modelled.
- **Floating-point detail.** Floating-point artefacts of `Math.round` are not modelled; rounding is exact rational half-up.
- **Distinct ids and sections assumed.** The model assumes that question ids are distinct: the `SimulateTest.MockTestPage` constructor requires `UniqueIds` of the bank, which the source does not check. The timing table is a sequence of pairs, and the model assumes each section appears in it once, as the keys of a JSON object do. `SimulateTest.LookupTime` returns the first entry for a section, whereas a JSON object with a repeated key keeps the last one.
- **Question and card data.** The question bank, the flashcards and the timing table are parameters. `src/data/questions.js` and `src/data/flashcards.js` are not part of this model.
- **Content.** Titles, durations, descriptions and markdown bodies of lessons and guides are not modelled.
- **Not modelled from other files.** Dashboard, Practice, Lesson and Resource views, the layout and the navigation bar are not part of this model.
- **Animation.** Direction is kept as a field; the animation it drives is not modelled.
- **reviewFlashcard.** It is modelled in the store, but no page calls it.
- **Js.ParseInt:** reads leading white space (space, tab, newline, return), one sign and the longest run of decimal digits. The `0x` prefix, which parseInt without a radix reads as hexadecimal, and other Unicode white space are not modelled. It returns no value where JavaScript returns NaN.
- **Store.CategoryKeys:** gives categories in first-appearance order. JavaScript puts integer-like keys first, and names such as `__proto__` are special; neither is modelled.
- **StudyMode.StudyPage.KeyDown:** requires a current question when a digit key arrives while no explanation shows, and StudyMode.StudyPage.HandleAnswerSelect requires the same. On an empty deck the source throws there, because reading `currentQuestion.correctAnswer` of undefined fails; the model does not cover the throw. While an explanation shows, the handler returns first and nothing happens, and the model covers that case.
- **StudyMode.StudyPage.Summary:** does not promise at least one result. New Session keeps the explanation on, so a session can end with none, as `StudyMode.EmptySessionReachesResults` shows.
- **Flashcards.FlashcardPage.RandomMix:** the in-place sort of the shared card array is a `CardBank` field that is reassigned, not an array updated element by element.
