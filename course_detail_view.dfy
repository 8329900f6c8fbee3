/** The course detail view (`src/components/CourseDetailView.tsx`): the
    course's units with their lessons, in `sort_order`, handed to one module
    card each; the user's progress rows gathered into a map by lesson id; and
    the level badge computed from the stored profile. */
module CourseDetailView {
  import opened Common
  import opened Tables
  import LessonUtils
  import ModuleCard

  /** A unit with its lessons (`{ ...unit, lessons }`). */
  datatype ModuleView = ModuleView(unit: UnitRow, lessons: seq<LessonRow>)

  /** The progress map as the `reduce` leaves it: each row is stored under its
      lesson id, a later row replacing an earlier one. */
  function ProgressMapOf(rows: seq<ProgressRow>): (m: map<LessonId, ProgressRow>)
    ensures forall id :: id in m <==> exists i :: 0 <= i < |rows| && rows[i].lessonId == id
  {
    if rows == [] then map[]
    else
      var last := |rows| - 1;
      var before := ProgressMapOf(rows[..last]);
      assert forall i :: 0 <= i < last ==> rows[..last][i] == rows[i];
      before[rows[last].lessonId := rows[last]]
  }

  /** A row that no later row of the same lesson follows is the one stored:
      the later row wins. */
  lemma {:induction false} LastRowWins(rows: seq<ProgressRow>, i: nat)
    requires i < |rows|
    requires forall j :: i < j < |rows| ==> rows[j].lessonId != rows[i].lessonId
    ensures ProgressMapOf(rows)[rows[i].lessonId] == rows[i]
  {
    var last := |rows| - 1;
    if i < last {
      assert rows[..last][i] == rows[i];
      forall j | i < j < last ensures rows[..last][j].lessonId != rows[..last][i].lessonId {
        assert rows[..last][j] == rows[j];
      }
      LastRowWins(rows[..last], i);
    }
  }


  /** The `reduce` over the progress rows, one row at a time. */
  method BuildProgressMap(rows: seq<ProgressRow>) returns (acc: map<LessonId, ProgressRow>)
    ensures acc == ProgressMapOf(rows)
  {
    acc := map[];
    var i := 0;
    while i < |rows|
      invariant 0 <= i <= |rows|
      invariant acc == ProgressMapOf(rows[..i])
    {
      assert rows[..i + 1][..i] == rows[..i];
      acc := acc[rows[i].lessonId := rows[i]];
      i := i + 1;
    }
    assert rows[..|rows|] == rows;
  }

  /** The user's rows have distinct lesson ids (the table's key is the user and
      the lesson), and then every row is found under its own lesson id. */
  lemma DistinctRowsAllKept(rows: seq<ProgressRow>)
    requires forall i, j :: 0 <= i < j < |rows| ==> rows[i].lessonId != rows[j].lessonId
    ensures forall i :: 0 <= i < |rows| ==> ProgressMapOf(rows)[rows[i].lessonId] == rows[i]
  {
    forall i | 0 <= i < |rows| ensures ProgressMapOf(rows)[rows[i].lessonId] == rows[i] {
      LastRowWins(rows, i);
    }
  }

  /** The values the level badge is drawn with. */
  datatype LevelBadge = LevelBadge(level: int, xpInCurrentLevel: int, xpToNextLevel: int)

  /** The badge from the signed-in profile: the stored level (0 or absent
      reads as 1) and the stored XP (absent reads as 0); the XP in the level is
      the JavaScript remainder of the XP by `level * 100`. */
  function Badge(profile: Option<ProfileRow>): (b: LevelBadge)
    ensures profile.None? ==> b == LevelBadge(1, 0, 100)
    ensures profile.Some? ==> b.level == (if profile.value.level != 0 then profile.value.level else 1)
    ensures b.xpToNextLevel == b.level * 100
    ensures profile.Some? && profile.value.xp >= 0 && b.level > 0 ==> 0 <= b.xpInCurrentLevel < b.xpToNextLevel
    ensures profile.Some? && b.level > 0 && 0 <= profile.value.xp < b.xpToNextLevel ==>
              b.xpInCurrentLevel == profile.value.xp
    ensures profile.Some? && profile.value.xp >= 0 && b.level > 0 ==>
              profile.value.xp == (profile.value.xp / b.xpToNextLevel) * b.xpToNextLevel + b.xpInCurrentLevel
  {
    var level := if profile.Some? && profile.value.level != 0 then profile.value.level else 1;
    var xp := if profile.Some? then profile.value.xp else 0;
    var xpToNext := level * 100;
    if xp >= 0 && level > 0 then
      PositiveRemainder(xp, xpToNext);
      LevelBadge(level, JsRemainder(xp, xpToNext), xpToNext)
    else
      LevelBadge(level, JsRemainder(xp, xpToNext), xpToNext)
  }

  lemma PositiveRemainder(a: int, m: int)
    requires 0 <= a && 0 < m
    ensures 0 <= JsRemainder(a, m) < m
    ensures a < m ==> JsRemainder(a, m) == a
  {
    if a < m {
      LessonUtils.SmallRemainder(a, m);
    }
  }

  /** For a profile whose stored level matches its XP, the badge shows the same
      "XP in level" as the library's `getXpInCurrentLevel`: the whole XP. */
  lemma BadgeAgreesWithLibrary(p: ProfileRow)
    requires p.xp >= 0 && p.level == LessonUtils.CalculateLevel(p.xp)
    ensures Badge(Some(p)).level == p.level
    ensures Badge(Some(p)).xpInCurrentLevel == LessonUtils.XpInCurrentLevel(p.xp) == p.xp
  {
    LessonUtils.LevelIsPositiveAndMonotone(0, p.xp);
  }

  /** The badge trusts the stored level: a profile left at level 1 with 250 XP
      shows 50 of 100, where the recomputed level would be 3. */
  lemma BadgeUsesStoredLevel()
    ensures Badge(Some(ProfileRow("u", None, 250, 1, 0, None))) == LevelBadge(1, 50, 100)
    ensures LessonUtils.CalculateLevel(250) == 3
  {
  }

  /** The lessons of one unit as a card receives them: the rows have no
      `order_index` column. */
  function CardLessons(lessons: seq<LessonRow>): (cards: seq<ModuleCard.CardLesson>)
    ensures |cards| == |lessons|
    ensures forall i :: 0 <= i < |lessons| ==>
              cards[i] == ModuleCard.CardLesson(lessons[i].id, lessons[i].title, None, lessons[i].xpReward)
  {
    seq(|lessons|, i requires 0 <= i < |lessons| =>
          ModuleCard.CardLesson(lessons[i].id, lessons[i].title, None, lessons[i].xpReward))
  }

  /** What each module card is given. */
  datatype CardProps = CardProps(id: UnitId, title: string, moduleIndex: int, lessons: seq<ModuleCard.CardLesson>)

  /** One card per module, numbered by its position. */
  function Cards(modules: seq<ModuleView>): (cards: seq<CardProps>)
    ensures |cards| == |modules|
    ensures forall i :: 0 <= i < |modules| ==>
              cards[i] == CardProps(modules[i].unit.id, modules[i].unit.title, i, CardLessons(modules[i].lessons))
  {
    seq(|modules|, i requires 0 <= i < |modules| =>
          CardProps(modules[i].unit.id, modules[i].unit.title, i, CardLessons(modules[i].lessons)))
  }

  /** As written, no lesson shown by this view is ever locked, whatever the
      progress: every card lesson lacks `order_index`. */
  lemma DbLessonsNeverLocked(modules: seq<ModuleView>, userProgress: map<LessonId, ProgressRow>)
    ensures forall m, k :: 0 <= m < |Cards(modules)| && 0 <= k < |Cards(modules)[m].lessons| ==>
              !ModuleCard.FlagsAsWritten(Cards(modules)[m].lessons[k], userProgress, Cards(modules)[m].lessons).isLocked
  {
  }

  /** A unit of two lessons with nothing completed: the second lesson is shown
      unlocked as written, and locked with positional flags. */
  lemma SecondLessonExample(unit: UnitRow, a: LessonRow, b: LessonRow)
    ensures var cards := Cards([ModuleView(unit, [a, b])])[0].lessons;
            && !ModuleCard.FlagsAsWritten(cards[1], map[], cards).isLocked
            && ModuleCard.FlagsAt(1, map[], cards).isLocked
  {
  }

  /** The flags each card draws its lessons with, by position. */
  function CardFlags(card: CardProps, userProgress: map<LessonId, ProgressRow>): (flags: seq<ModuleCard.LessonFlags>)
    ensures |flags| == |card.lessons|
    ensures forall k :: 0 <= k < |card.lessons| ==> flags[k] == ModuleCard.FlagsAt(k, userProgress, card.lessons)
  {
    seq(|card.lessons|, k requires 0 <= k < |card.lessons| => ModuleCard.FlagsAt(k, userProgress, card.lessons))
  }

  class DetailScreen {
    const courseId: string
    const user: Option<UserId>
    const db: Backend

    var modules: seq<ModuleView>
    var userProgress: map<LessonId, ProgressRow>
    var loading: bool

    constructor (courseId: string, user: Option<UserId>, db: Backend)
      ensures this.courseId == courseId && this.user == user && this.db == db
      ensures modules == [] && userProgress == map[] && loading
    {
      this.courseId, this.user, this.db := courseId, user, db;
      modules, userProgress, loading := [], map[], true;
    }

    /** `rows` are exactly the rows of `progress` that belong to `userId`. */
    static predicate UserRowsOf(progress: map<ProgressKey, ProgressRow>, userId: UserId, rows: seq<ProgressRow>) {
      && (forall i :: 0 <= i < |rows| ==>
            rows[i].userId == userId && rows[i].Key() in progress && progress[rows[i].Key()] == rows[i])
      && (forall k :: k in progress && k.userId == userId ==> progress[k] in rows)
    }

    /** The loading effect. `progressRows` are the user's progress rows in the
        order the query returns them. Without a user it returns at once and the
        spinner stays. */
    method LoadCourseData(progressRows: seq<ProgressRow>)
      requires user.Some? ==> UserRowsOf(db.progress, user.value, progressRows)
      modifies this
      ensures user.None? ==> unchanged(this)
      ensures user.Some? ==>
                var units := CourseUnits(db.units, courseId);
                && |modules| == |units|
                && (forall i :: 0 <= i < |units| ==>
                      modules[i] == ModuleView(units[i],
                                      SortBy(LessonsOfUnit(db.lessons, units[i].id),
                                             (l: LessonRow) => l.sortOrder)))
                && userProgress == ProgressMapOf(progressRows)
                && !loading
    {
      if user.None? {
        return;
      }
      var units := CourseUnits(db.units, courseId);
      modules := seq(|units|, i requires 0 <= i < |units| reads db =>
                       ModuleView(units[i], SortBy(LessonsOfUnit(db.lessons, units[i].id),
                                                   (l: LessonRow) => l.sortOrder)));
      userProgress := BuildProgressMap(progressRows);
      loading := false;
    }
  }
}
