// The lessons page (src/pages/Lessons.jsx): the curriculum narrowed by a
// section filter, the per-week completion count, and the expand/collapse
// choice of a single week.
module LessonsPage {
  import opened Js
  import opened Seqs
  import opened LessonsData

  /** Whether a lesson passes the section filter ('all' passes every one). */
  predicate PassesFilter(filter: string, l: Lesson)
  {
    filter == "all" || l.section == filter
  }

  /** filteredCurriculum: every week kept, in order, with its days narrowed
      to the filter. */
  function FilteredCurriculum(curriculum: seq<Week>, filter: string): (weeks: seq<Week>)
    ensures |weeks| == |curriculum|
    ensures forall i :: 0 <= i < |weeks| ==>
              weeks[i].week == curriculum[i].week && weeks[i].theme == curriculum[i].theme &&
              IsSubsequence(weeks[i].days, curriculum[i].days) &&
              (forall l :: l in weeks[i].days <==> l in curriculum[i].days && PassesFilter(filter, l)) &&
              (forall l :: multiset(weeks[i].days)[l] ==
                 if PassesFilter(filter, l) then multiset(curriculum[i].days)[l] else 0)
    ensures filter == "all" ==> weeks == curriculum
  {
    seq(|curriculum|, i requires 0 <= i < |curriculum| => FilteredWeek(curriculum[i], filter))
  }

  function FilteredWeek(w: Week, filter: string): (r: Week)
    ensures r.week == w.week && r.theme == w.theme
    ensures IsSubsequence(r.days, w.days)
    ensures forall l :: l in r.days <==> l in w.days && PassesFilter(filter, l)
    ensures forall l :: multiset(r.days)[l] == if PassesFilter(filter, l) then multiset(w.days)[l] else 0
    ensures filter == "all" ==> r == w
  {
    var keep := (l: Lesson) => PassesFilter(filter, l);
    FilterMembers(keep, w.days);
    FilterCounts(keep, w.days);
    FilterIsSubsequence(keep, w.days);
    if filter == "all" then FilterAllKept(keep, w.days); w.(days := Filter(keep, w.days))
    else w.(days := Filter(keep, w.days))
  }

  /** completedInWeek: the shown days whose lesson is completed. */
  function CompletedInWeek(days: seq<Lesson>, completed: seq<string>): (n: nat)
    ensures n <= |days|
    ensures n == |days| <==> forall i :: 0 <= i < |days| ==> days[i].id in completed
    ensures n == 0 <==> forall i :: 0 <= i < |days| ==> days[i].id !in completed
  {
    if days == [] then 0
    else (if days[0].id in completed then 1 else 0) + CompletedInWeek(days[1..], completed)
  }

  /** Completing more lessons never lowers a week's count. */
  lemma {:induction false} CompletedInWeekMonotone(days: seq<Lesson>, completed: seq<string>, more: seq<string>)
    ensures CompletedInWeek(days, completed) <= CompletedInWeek(days, completed + more)
  {
    if days != [] {
      CompletedInWeekMonotone(days[1..], completed, more);
    }
  }

  /** Clicking a week's header: the expanded week collapses, any other week
      becomes the only expanded one. */
  function ToggleExpanded(expanded: Option<nat>, week: nat): (r: Option<nat>)
    ensures r == Some(week) <==> expanded != Some(week)
    ensures r.Some? ==> r.value == week
  {
    if expanded == Some(week) then None else Some(week)
  }

  lemma ToggleExpandedTwice(expanded: Option<nat>, week: nat)
    ensures ToggleExpanded(ToggleExpanded(expanded, week), week) ==
            (if expanded == Some(week) then Some(week) else None)
  {
  }

  datatype Panel = Collapsed | LessonList | NoMatch

  /** What a week's card shows below its header. */
  function PanelOf(expanded: Option<nat>, w: Week): (p: Panel)
    ensures p == NoMatch <==> expanded == Some(w.week) && w.days == []
    ensures p == LessonList <==> expanded == Some(w.week) && w.days != []
  {
    if expanded != Some(w.week) then Collapsed
    else if w.days == [] then NoMatch
    else LessonList
  }

  /** The page opens with week 1 expanded and every week listed, so the
      first week's lessons are shown. */
  lemma OpeningViewListsWeekOne()
    ensures PanelOf(Some(1), FilteredCurriculum(Curriculum, "all")[0]) == LessonList
  {
    assert Lessons[0] in Lessons && Lessons[0].week == 1;
    assert Lessons[0] in Curriculum[0].days;
  }

  /** A week none of whose lessons is in the filtered section shows the
      "no lessons match" message when it is expanded. */
  lemma FilterEmptiesWeek(lessons: seq<Lesson>, w: nat, filter: string)
    requires w < WeekCount && filter != "all"
    requires forall l :: l in lessons && l.week == w + 1 ==> l.section != filter
    ensures PanelOf(Some(w + 1), FilteredCurriculum(CurriculumOf(lessons), filter)[w]) == NoMatch
  {
  }

  /** Under the 'general' filter week 1 has no lesson left. */
  lemma GeneralFilterEmptiesWeekOne()
    ensures PanelOf(Some(1), FilteredCurriculum(Curriculum, "general")[0]) == NoMatch
  {
    WeekOneHasNoGeneral();
    FilterEmptiesWeek(Lessons, 0, "general");
  }

  lemma WeekOneHasNoGeneral()
    ensures forall l :: l in Lessons && l.week == 1 ==> l.section != "general"
  {
  }
}
