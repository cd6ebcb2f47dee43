// The eight-week curriculum (src/data/lessons.js): the lessons' identifier,
// week, day and section, and the week records built by filtering the
// lessons on their week. Titles, durations and markdown bodies are content.
module LessonsData {
  import opened Js
  import opened Seqs
  import Store

  datatype Lesson = Lesson(id: string, week: nat, day: nat, section: string)

  datatype Week = Week(week: nat, theme: string, days: seq<Lesson>)

  const WeekCount: nat := 8

  const Lessons: seq<Lesson> := [
    Lesson("w1d1", 1, 1, "english"),
    Lesson("w1d2", 1, 2, "math"),
    Lesson("w1d3", 1, 3, "reading"),
    Lesson("w1d4", 1, 4, "science"),
    Lesson("w1d5", 1, 5, "english"),
    Lesson("w2d1", 2, 1, "math"),
    Lesson("w2d2", 2, 2, "english"),
    Lesson("w2d3", 2, 3, "english"),
    Lesson("w3d1", 3, 1, "english"),
    Lesson("w3d2", 3, 2, "math"),
    Lesson("w3d3", 3, 3, "general"),
    Lesson("w4d1", 4, 1, "reading"),
    Lesson("w4d2", 4, 2, "science"),
    Lesson("w4d3", 4, 3, "math"),
    Lesson("w5d1", 5, 1, "science"),
    Lesson("w6d1", 6, 1, "english"),
    Lesson("w7d1", 7, 1, "math"),
    Lesson("w8d1", 8, 1, "english")
  ]

  const Themes: seq<string> := [
    "Foundations", "Core Skills", "Deep Practice", "Reading & Science",
    "Advanced Skills", "Speed & Accuracy", "Advanced Topics", "Final Review"
  ]

  function InWeek(k: nat): Lesson -> bool
  {
    (l: Lesson) => l.week == k
  }

  /** `lessons.filter(l => l.week === k)`. */
  function WeekDays(lessons: seq<Lesson>, k: nat): (days: seq<Lesson>)
    ensures forall l :: l in days <==> l in lessons && l.week == k
    ensures IsSubsequence(days, lessons)
    ensures forall l :: multiset(days)[l] == if l.week == k then multiset(lessons)[l] else 0
  {
    FilterMembers(InWeek(k), lessons);
    FilterCounts(InWeek(k), lessons);
    FilterIsSubsequence(InWeek(k), lessons);
    Filter(InWeek(k), lessons)
  }

  /** The curriculum: weeks 1..8 in order, each with its theme and the
      lessons of that week. */
  function CurriculumOf(lessons: seq<Lesson>): (weeks: seq<Week>)
    ensures |weeks| == WeekCount
    ensures forall i :: 0 <= i < |weeks| ==>
              weeks[i].week == i + 1 && weeks[i].theme == Themes[i] && weeks[i].days == WeekDays(lessons, i + 1)
  {
    seq(WeekCount, i requires 0 <= i < WeekCount => Week(i + 1, Themes[i], WeekDays(lessons, i + 1)))
  }

  const Curriculum: seq<Week> := CurriculumOf(Lessons)

  /** The weeks are listed in strictly increasing order. */
  lemma CurriculumWeeksIncrease()
    ensures forall i, j :: 0 <= i < j < |Curriculum| ==> Curriculum[i].week < Curriculum[j].week
  {
  }

  // ---- every lesson exactly once ----

  /** Number of days over weeks 1..n. */
  function DaysUpTo(lessons: seq<Lesson>, n: nat): nat
  {
    if n == 0 then 0 else DaysUpTo(lessons, n - 1) + |Filter(InWeek(n), lessons)|
  }

  lemma {:induction false} DaysUpToCons(l: Lesson, rest: seq<Lesson>, n: nat)
    ensures DaysUpTo([l] + rest, n) == DaysUpTo(rest, n) + (if 1 <= l.week <= n then 1 else 0)
  {
    if n > 0 {
      DaysUpToCons(l, rest, n - 1);
      FilterCons(InWeek(n), l, rest);
    }
  }

  /** When every week is in 1..8 the weeks' days together hold each lesson
      once: a lesson sits in the week of its own number and in no other,
      and the day counts add up to the number of lessons. */
  lemma {:induction false} WeeksPartitionLessons(lessons: seq<Lesson>)
    requires forall i :: 0 <= i < |lessons| ==> 1 <= lessons[i].week <= WeekCount
    ensures DaysUpTo(lessons, WeekCount) == |lessons|
    ensures forall i, w :: 0 <= i < |lessons| && 0 <= w < WeekCount ==>
              (lessons[i] in CurriculumOf(lessons)[w].days <==> w + 1 == lessons[i].week)
  {
    if lessons != [] {
      WeeksPartitionLessons(lessons[1..]);
      DaysUpToCons(lessons[0], lessons[1..], WeekCount);
      assert [lessons[0]] + lessons[1..] == lessons;
    } else {
      NoDays(WeekCount);
    }
  }

  lemma {:induction false} NoDays(n: nat)
    ensures DaysUpTo([], n) == 0
  {
    if n > 0 {
      NoDays(n - 1);
    }
  }

  lemma LessonWeeksInRange()
    ensures forall i :: 0 <= i < |Lessons| ==> 1 <= Lessons[i].week <= WeekCount
  {
  }

  /** The eight weeks' days add up to the 18 lessons. */
  lemma CurriculumDayCount()
    ensures DaysUpTo(Lessons, WeekCount) == |Lessons| == 18
  {
    LessonWeeksInRange();
    WeeksPartitionLessons(Lessons);
  }

  /** Each lesson is listed under the week of its own number and no other. */
  lemma CurriculumPlacesEachLesson()
    ensures forall i, w :: 0 <= i < |Lessons| && 0 <= w < WeekCount ==>
              (Lessons[i] in Curriculum[w].days <==> w + 1 == Lessons[i].week)
  {
    LessonWeeksInRange();
    WeeksPartitionLessons(Lessons);
  }

  // ---- identifiers and the progress ceiling ----

  const LessonId: Lesson -> string := (l: Lesson) => l.id

  lemma LessonIdsDistinct()
    ensures Distinct(Ids(Lessons, LessonId))
  {
    LessonsHaveDistinctIds();
  }

  lemma LessonsHaveDistinctIds()
    ensures forall i, j :: 0 <= i < j < |Lessons| ==> Lessons[i].id != Lessons[j].id
  {
  }

  lemma {:induction false} DistinctWithin(s: seq<string>, universe: set<string>)
    requires Distinct(s)
    requires forall i :: 0 <= i < |s| ==> s[i] in universe
    ensures |s| <= |universe|
  {
    if s != [] {
      DistinctWithin(s[1..], universe - {s[0]});
    }
  }

  lemma {:induction false} IdSetSize(lessons: seq<Lesson>)
    ensures |set i | 0 <= i < |lessons| :: lessons[i].id| <= |lessons|
  {
    if lessons != [] {
      var rest := lessons[1..];
      IdSetSize(rest);
      var a := set i | 0 <= i < |rest| :: rest[i].id;
      var b := set i | 0 <= i < |lessons| :: lessons[i].id;
      assert b <= {lessons[0].id} + a by {
        forall x | x in b ensures x in {lessons[0].id} + a {
          var i :| 0 <= i < |lessons| && lessons[i].id == x;
          if i > 0 { assert rest[i - 1].id == x; }
        }
      }
      SubsetCardinality(b, {lessons[0].id} + a);
    }
  }

  /** With only 18 lessons against the store's fixed 56, completing every
      lesson there is shows 32%, and no completion list of real, distinct
      lessons shows more. */
  lemma ProgressCeiling(s: Store.State)
    requires Distinct(s.progress.lessonsCompleted)
    requires forall i :: 0 <= i < |s.progress.lessonsCompleted| ==>
               s.progress.lessonsCompleted[i] in set j | 0 <= j < |Lessons| :: Lessons[j].id
    ensures Store.GetOverallProgress(s) <= 32
    ensures |s.progress.lessonsCompleted| == |Lessons| ==> Store.GetOverallProgress(s) == 32
  {
    var done := s.progress.lessonsCompleted;
    IdSetSize(Lessons);
    DistinctWithin(done, set j | 0 <= j < |Lessons| :: Lessons[j].id);
    assert |done| <= 18;
    RoundDivMonotone(100 * |done|, 100 * 18, Store.TotalLessons);
    assert RoundDiv(100 * 18, Store.TotalLessons) == 32;
  }
}
