/** The course screen (`src/pages/CoursePage.tsx`): the course's units and
    lessons in `sort_order`, the set of completed lessons, the course
    percentage, the single "current" lesson (the first incomplete one, in unit
    order and then lesson order), the completed/current/locked state of each
    lesson tile, and the expanded unit. */
module CoursePage {
  import opened Common
  import opened Tables
  import QuizScoring

  /** The completed-lesson map built from the user's progress rows for these
      lessons: only completed rows enter it, always with the value `true`. */
  function CompletedMap(progress: map<ProgressKey, ProgressRow>, user: UserId, lessonIds: seq<LessonId>)
    : (m: map<LessonId, bool>)
    ensures forall id :: id in m <==>
              id in lessonIds && ProgressKey(user, id) in progress && progress[ProgressKey(user, id)].completed
    ensures forall id :: id in m ==> m[id]
  {
    map id | id in lessonIds && ProgressKey(user, id) in progress && progress[ProgressKey(user, id)].completed :: true
  }

  /** Only lessons of the course are counted, so at most all of them are completed. */
  lemma CompletedAtMostAll(progress: map<ProgressKey, ProgressRow>, user: UserId, lessonIds: seq<LessonId>)
    ensures |CompletedMap(progress, user, lessonIds)| <= |lessonIds|
  {
    var m := CompletedMap(progress, user, lessonIds);
    assert m.Keys <= set i | 0 <= i < |lessonIds| :: lessonIds[i];
    SubsetIsNoLarger(m.Keys, set i | 0 <= i < |lessonIds| :: lessonIds[i]);
    ElementsNoMoreThanLength(lessonIds);
  }

  /** `progressPct`: the rounded percentage of completed lessons, 0 for a course without lessons. */
  function ProgressPct(totalLessons: nat, completedLessons: nat): (pct: int)
    ensures totalLessons == 0 ==> pct == 0
    ensures completedLessons <= totalLessons ==> 0 <= pct <= 100
    ensures 0 < totalLessons == completedLessons ==> pct == 100
    ensures totalLessons > 0 ==>
              totalLessons * (2 * pct - 1) <= 200 * completedLessons < totalLessons * (2 * pct + 1)
  {
    if totalLessons > 0 then
      var p := QuizScoring.RoundedPercent(completedLessons, totalLessons);
      if completedLessons == totalLessons then
        QuizScoring.RoundingIsUnique(completedLessons, totalLessons, 100);
        p
      else p
    else 0
  }

  /** The first lesson of `ls` that is not completed. */
  function FirstIncompleteIn(ls: seq<LessonRow>, completed: map<LessonId, bool>): (r: Option<LessonId>)
    ensures r.None? <==> forall i :: 0 <= i < |ls| ==> ls[i].id in completed
    ensures r.Some? ==> exists j :: 0 <= j < |ls| && ls[j].id == r.value && ls[j].id !in completed
                          && forall i :: 0 <= i < j ==> ls[i].id in completed
    ensures r.Some? ==> r.value !in completed
  {
    if ls == [] then None
    else if ls[0].id !in completed then Some(ls[0].id)
    else
      var r := FirstIncompleteIn(ls[1..], completed);
      assert forall i :: 1 <= i < |ls| ==> ls[i] == ls[1..][i - 1];
      if r.Some? then
        var j :| 0 <= j < |ls[1..]| && ls[1..][j].id == r.value && ls[1..][j].id !in completed
                 && forall i :: 0 <= i < j ==> ls[1..][i].id in completed;
        assert ls[j + 1].id == r.value && forall i :: 0 <= i < j + 1 ==> ls[i].id in completed;
        r
      else r
  }

  /** The first incomplete lesson, unit by unit. */
  function FirstIncomplete(units: seq<UnitRow>, lessons: seq<LessonRow>, completed: map<LessonId, bool>)
    : (r: Option<LessonId>)
    ensures r.Some? ==> r.value !in completed
    ensures r.None? <==>
              forall i :: 0 <= i < |lessons| && lessons[i].unitId in UnitIds(units) ==> lessons[i].id in completed
  {
    if units == [] then None
    else
      var own := LessonsOfUnit(lessons, units[0].id);
      var r := FirstIncompleteIn(own, completed);
      assert UnitIds(units) == {units[0].id} + UnitIds(units[1..]) by {
        assert forall i :: 1 <= i < |units| ==> units[i] == units[1..][i - 1];
      }
      if r.Some? then
        var j :| 0 <= j < |own| && own[j].id == r.value && own[j].id !in completed
                 && forall i :: 0 <= i < j ==> own[i].id in completed;
        assert own[j] in lessons;
        var k :| 0 <= k < |lessons| && lessons[k] == own[j];
        assert lessons[k].unitId in UnitIds(units);
        r
      else
        FirstIncomplete(units[1..], lessons, completed)
  }

  /** All the lessons of the units, unit after unit. */
  function Ordered(units: seq<UnitRow>, lessons: seq<LessonRow>): seq<LessonRow> {
    if units == [] then [] else LessonsOfUnit(lessons, units[0].id) + Ordered(units[1..], lessons)
  }

  lemma {:induction false} FirstIncompleteInAppend(a: seq<LessonRow>, b: seq<LessonRow>, completed: map<LessonId, bool>)
    ensures FirstIncompleteIn(a + b, completed) ==
              if FirstIncompleteIn(a, completed).Some? then FirstIncompleteIn(a, completed)
              else FirstIncompleteIn(b, completed)
  {
    if a == [] {
      assert a + b == b;
    } else {
      assert (a + b)[1..] == a[1..] + b;
      FirstIncompleteInAppend(a[1..], b, completed);
    }
  }

  /** The unit-by-unit search finds the first incomplete lesson of the whole
      course in unit order, then lesson order. */
  lemma {:induction false} FirstIncompleteIsFirstInCourseOrder(units: seq<UnitRow>, lessons: seq<LessonRow>,
                                                               completed: map<LessonId, bool>)
    ensures FirstIncomplete(units, lessons, completed) == FirstIncompleteIn(Ordered(units, lessons), completed)
  {
    if units != [] {
      FirstIncompleteIsFirstInCourseOrder(units[1..], lessons, completed);
      FirstIncompleteInAppend(LessonsOfUnit(lessons, units[0].id), Ordered(units[1..], lessons), completed);
    }
  }

  /** The inner search loop over one unit's lessons. */
  method FindIncompleteInUnit(unitLessons: seq<LessonRow>, completed: map<LessonId, bool>)
    returns (first: Option<LessonId>)
    ensures first == FirstIncompleteIn(unitLessons, completed)
  {
    var j := 0;
    while j < |unitLessons|
      invariant 0 <= j <= |unitLessons|
      invariant FirstIncompleteIn(unitLessons, completed) == FirstIncompleteIn(unitLessons[j..], completed)
    {
      if unitLessons[j].id !in completed {
        return Some(unitLessons[j].id);
      }
      assert unitLessons[j..][1..] == unitLessons[j + 1..];
      j := j + 1;
    }
    return None;
  }

  /** The nested search loop: units in order, the unit's lessons in order,
      stopping at the first lesson that is not completed. */
  method FindFirstIncompleteLesson(units: seq<UnitRow>, lessons: seq<LessonRow>, completed: map<LessonId, bool>)
    returns (first: Option<LessonId>)
    ensures first == FirstIncomplete(units, lessons, completed)
  {
    var u := 0;
    while u < |units|
      invariant 0 <= u <= |units|
      invariant FirstIncomplete(units, lessons, completed) == FirstIncomplete(units[u..], lessons, completed)
    {
      first := FindIncompleteInUnit(LessonsOfUnit(lessons, units[u].id), completed);
      if first.Some? {
        return;
      }
      assert units[u..][1..] == units[u + 1..];
      u := u + 1;
    }
    return None;
  }

  /** How a lesson tile is drawn. */
  datatype LessonState = Completed | Current | Locked

  /** A lesson tile: its state and the link it always carries. */
  datatype LessonTile = LessonTile(state: LessonState, href: string)

  /** The tile of a lesson, given the completed map and the current lesson. */
  function TileOf(lesson: LessonRow, completed: map<LessonId, bool>, current: Option<LessonId>): (t: LessonTile)
    ensures t.state == Completed <==> lesson.id in completed && completed[lesson.id]
    ensures t.state == Current <==> !(lesson.id in completed && completed[lesson.id]) && current == Some(lesson.id)
    ensures t.state == Locked <==> !(lesson.id in completed && completed[lesson.id]) && current != Some(lesson.id)
    ensures t.href == "/app/lesson/" + lesson.id
  {
    var isCompleted := lesson.id in completed && completed[lesson.id];
    var isCurrent := current == Some(lesson.id);
    var state := if isCompleted then Completed else if isCurrent then Current else Locked;
    LessonTile(state, "/app/lesson/" + lesson.id)
  }

  /** With the current lesson found by the search, the current tile is never a
      completed one, and among lessons with distinct ids at most one tile is current. */
  lemma AtMostOneCurrent(units: seq<UnitRow>, lessons: seq<LessonRow>, completed: map<LessonId, bool>,
                         a: LessonRow, b: LessonRow)
    requires a.id != b.id
    ensures var cur := FirstIncomplete(units, lessons, completed);
            !(TileOf(a, completed, cur).state == Current && TileOf(b, completed, cur).state == Current)
  {
  }

  /** The lesson marked current is the first incomplete lesson of the course. */
  lemma {:induction false} CurrentIsFirstIncomplete(units: seq<UnitRow>, lessons: seq<LessonRow>,
                                                    completed: map<LessonId, bool>, l: LessonRow)
    requires TileOf(l, completed, FirstIncomplete(units, lessons, completed)).state == Current
    ensures exists j :: 0 <= j < |Ordered(units, lessons)| && Ordered(units, lessons)[j].id == l.id
              && forall i :: 0 <= i < j ==> Ordered(units, lessons)[i].id in completed
  {
    FirstIncompleteIsFirstInCourseOrder(units, lessons, completed);
  }

  /** The unit that is expanded after clicking `clicked`: the expanded unit
      collapses, any other unit expands instead. */
  function NextExpanded(expanded: Option<UnitId>, clicked: UnitId): (r: Option<UnitId>)
    ensures r == Some(clicked) <==> expanded != Some(clicked)
    ensures r != Some(clicked) ==> r == None
  {
    if expanded == Some(clicked) then None else Some(clicked)
  }

  /** Two clicks on a unit give back the original state when it was expanded or
      nothing was; with another unit expanded, they leave none. */
  lemma DoubleClick(expanded: Option<UnitId>, clicked: UnitId)
    ensures expanded == Some(clicked) || expanded == None ==>
              NextExpanded(NextExpanded(expanded, clicked), clicked) == expanded
    ensures expanded.Some? && expanded != Some(clicked) ==>
              NextExpanded(NextExpanded(expanded, clicked), clicked) == None
  {
  }

  class CourseScreen {
    const courseId: string
    const user: Option<UserId>
    const db: Backend

    var units: seq<UnitRow>
    var lessons: seq<LessonRow>
    var progress: map<LessonId, bool>
    var expandedUnit: Option<UnitId>

    constructor (courseId: string, user: Option<UserId>, db: Backend)
      ensures this.courseId == courseId && this.user == user && this.db == db
      ensures units == [] && lessons == [] && progress == map[] && expandedUnit == None
    {
      this.courseId, this.user, this.db := courseId, user, db;
      units, lessons, progress, expandedUnit := [], [], map[], None;
    }

    /** The course's units by `sort_order`; the first one starts expanded. */
    method LoadUnits()
      modifies this`units, this`expandedUnit
      ensures courseId == "" ==> units == old(units) && expandedUnit == old(expandedUnit)
      ensures courseId != "" ==>
                && units == CourseUnits(db.units, courseId)
                && expandedUnit == if |units| > 0 then Some(units[0].id) else old(expandedUnit)
    {
      if courseId == "" {
        return;
      }
      units := CourseUnits(db.units, courseId);
      if |units| > 0 {
        expandedUnit := Some(units[0].id);
      }
    }

    /** The lessons of all the units, by `sort_order`. */
    method LoadLessons()
      modifies this`lessons
      ensures |units| == 0 ==> lessons == old(lessons)
      ensures |units| > 0 ==> lessons == LessonsOfUnits(db.lessons, units)
    {
      if |units| == 0 {
        return;
      }
      lessons := LessonsOfUnits(db.lessons, units);
    }

    /** The completed-lesson map, built row by row from the user's progress
        rows for these lessons, in whatever order they arrive. */
    method LoadProgress()
      modifies this`progress
      ensures user.None? || |lessons| == 0 ==> progress == old(progress)
      ensures user.Some? && |lessons| > 0 ==> progress == CompletedMap(db.progress, user.value, LessonIds(lessons, (l: LessonRow) => l.id))
    {
      if user.None? || |lessons| == 0 {
        return;
      }
      var u := user.value;
      var ids := LessonIds(lessons, (l: LessonRow) => l.id);
      var rows := set k | k in db.progress && k.userId == u && k.lessonId in ids;
      var m: map<LessonId, bool> := map[];
      while rows != {}
        invariant rows <= set k | k in db.progress && k.userId == u && k.lessonId in ids
        invariant forall id :: id in m <==>
                    id in ids && ProgressKey(u, id) in db.progress && ProgressKey(u, id) !in rows
                    && db.progress[ProgressKey(u, id)].completed
        invariant forall id :: id in m ==> m[id]
        decreases |rows|
      {
        var k :| k in rows;
        if db.progress[k].completed {
          m := m[k.lessonId := true];
        }
        rows := rows - {k};
      }
      progress := m;
    }

    /** A click on the header of `unitId`. */
    method ToggleUnit(unitId: UnitId)
      modifies this`expandedUnit
      ensures expandedUnit == NextExpanded(old(expandedUnit), unitId)
    {
      expandedUnit := if expandedUnit == Some(unitId) then None else Some(unitId);
    }

    /** The number shown as the course's percentage. */
    function Percentage(): (pct: int)
      reads this
    {
      ProgressPct(|lessons|, |progress|)
    }

    /** The first incomplete lesson, as the screen computes it on each render. */
    method CurrentLesson() returns (current: Option<LessonId>)
      ensures current == FirstIncomplete(units, lessons, progress)
    {
      current := FindFirstIncompleteLesson(units, lessons, progress);
    }

    /** The loaded progress keeps the percentage within 0..100. */
    lemma LoadedPercentageInRange()
      requires user.Some? && progress == CompletedMap(db.progress, user.value, LessonIds(lessons, (l: LessonRow) => l.id))
      ensures 0 <= Percentage() <= 100
    {
      CompletedAtMostAll(db.progress, user.value, LessonIds(lessons, (l: LessonRow) => l.id));
    }
  }
}
