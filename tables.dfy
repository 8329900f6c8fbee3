/** The hosted database as the screens see it: one field per table, with the
    rows the screens read and write. Tables written by upsert are maps keyed by
    their conflict key, so a second upsert replaces a row instead of adding one;
    tables written by insert are sequences in insertion order. The ghost log
    `writes` records every write in the order it is issued. */
module Tables {
  import opened Common

  type UserId = string
  type LessonId = string
  type UnitId = string
  /** A calendar day (UTC), standing for the `YYYY-MM-DD` strings of the original. */
  type Day = int
  /** An instant, standing for `new Date().toISOString()`. */
  type Timestamp = int

  /** The conflict key `user_id,lesson_id` of `user_progress`. */
  datatype ProgressKey = ProgressKey(userId: UserId, lessonId: LessonId)

  /** A row of `user_progress`. */
  datatype ProgressRow = ProgressRow(
    userId: UserId,
    lessonId: LessonId,
    completed: bool,
    score: Option<int>,
    xpEarned: int,
    completedAt: Option<Timestamp>)
  {
    function Key(): ProgressKey {
      ProgressKey(userId, lessonId)
    }
  }

  /** A row of `profiles`. */
  datatype ProfileRow = ProfileRow(
    userId: UserId,
    name: Option<string>,
    xp: int,
    level: int,
    streak: int,
    lastActive: Option<Day>)

  /** A row of `units`. */
  datatype UnitRow = UnitRow(id: UnitId, courseId: string, title: string, sortOrder: int)

  /** A row of `lessons`. The table has no `order_index` column. */
  datatype LessonRow = LessonRow(
    id: LessonId,
    unitId: UnitId,
    title: string,
    sortOrder: int,
    xpReward: int,
    videoUrl: Option<string>,
    kind: string)

  /** One element of the JSON `questions` column of `quizzes`. */
  datatype Question = Question(question: string, options: seq<string>, correct: int)

  /** A row of `quizzes`; `lesson_id` is its conflict key. */
  datatype QuizRow = QuizRow(lessonId: LessonId, questions: seq<Question>)

  /** A row of `rewards`. */
  datatype RewardRow = RewardRow(id: string, title: string, xpCost: int, isActive: bool)

  /** A row of `redemptions`. */
  datatype RedemptionRow = RedemptionRow(userId: UserId, rewardId: string, status: string)

  /** The ids of a list of lessons, in order (`lessons.map(l => l.id)`), for
      any lesson shape whose id `id` reads. */
  function LessonIds<L>(lessons: seq<L>, id: L -> LessonId): (ids: seq<LessonId>)
    ensures |ids| == |lessons|
    ensures forall i :: 0 <= i < |lessons| ==> ids[i] == id(lessons[i])
  {
    seq(|lessons|, i requires 0 <= i < |lessons| => id(lessons[i]))
  }

  /** The lessons of `unitId` in a list of lessons, in the list's order
      (`lessons.filter(l => l.unit_id === unitId)`). */
  function LessonsOfUnit(lessons: seq<LessonRow>, unitId: UnitId): (r: seq<LessonRow>)
    ensures forall i :: 0 <= i < |r| ==> r[i] in lessons && r[i].unitId == unitId
    ensures forall i :: 0 <= i < |lessons| && lessons[i].unitId == unitId ==> lessons[i] in r
  {
    Filter(lessons, (l: LessonRow) => l.unitId == unitId)
  }

  /** The ids of the listed units (`units.map(u => u.id)`, used as a set by `.in(...)`). */
  function UnitIds(units: seq<UnitRow>): (ids: set<UnitId>)
    ensures forall i :: 0 <= i < |units| ==> units[i].id in ids
    ensures forall id :: id in ids ==> exists i :: 0 <= i < |units| && units[i].id == id
  {
    set i | 0 <= i < |units| :: units[i].id
  }

  /** The units query of a course: its units ordered by `sort_order`. */
  function CourseUnits(units: seq<UnitRow>, courseId: string): (r: seq<UnitRow>)
    ensures SortedBy(r, (u: UnitRow) => u.sortOrder)
    ensures multiset(r) == multiset(Filter(units, (u: UnitRow) => u.courseId == courseId))
  {
    SortBy(Filter(units, (u: UnitRow) => u.courseId == courseId), (u: UnitRow) => u.sortOrder)
  }

  /** The lessons query for some units: the lessons of any of them, ordered by `sort_order`. */
  function LessonsOfUnits(lessons: seq<LessonRow>, units: seq<UnitRow>): (r: seq<LessonRow>)
    ensures SortedBy(r, (l: LessonRow) => l.sortOrder)
    ensures var ids := UnitIds(units);
            multiset(r) == multiset(Filter(lessons, (l: LessonRow) => l.unitId in ids))
  {
    var ids := UnitIds(units);
    SortBy(Filter(lessons, (l: LessonRow) => l.unitId in ids), (l: LessonRow) => l.sortOrder)
  }

  /** One write request sent to the database. */
  datatype Write =
    | UpsertProgress(key: ProgressKey)
    | UpdateProfile(user: UserId)
    | InsertRedemption(row: RedemptionRow)
    | InsertUnit(unitId: UnitId)
    | DeleteLessonsOfUnit(unitId: UnitId)
    | DeleteUnit(unitId: UnitId)
    | InsertLesson(lessonId: LessonId)
    | UpdateLesson(lessonId: LessonId)
    | DeleteQuizOfLesson(lessonId: LessonId)
    | DeleteLesson(lessonId: LessonId)
    | UpsertQuiz(lessonId: LessonId)

  /** Each row of a keyed table is stored under its own key: no (user, lesson)
      pair has two progress rows and no lesson has two quizzes. */
  ghost predicate KeyedTables(
    progress: map<ProgressKey, ProgressRow>, quizzes: map<LessonId, QuizRow>)
  {
    && (forall k :: k in progress ==> progress[k].Key() == k)
    && (forall id :: id in quizzes ==> quizzes[id].lessonId == id)
  }

  class Backend {
    var progress: map<ProgressKey, ProgressRow>
    var profiles: map<UserId, ProfileRow>
    var units: seq<UnitRow>
    var lessons: seq<LessonRow>
    var quizzes: map<LessonId, QuizRow>
    var redemptions: seq<RedemptionRow>
    ghost var writes: seq<Write>

    ghost predicate Valid()
      reads this
    {
      && KeyedTables(progress, quizzes)
      && (forall id :: id in profiles ==> profiles[id].userId == id)
    }

    constructor (profiles: map<UserId, ProfileRow>)
      requires forall id :: id in profiles ==> profiles[id].userId == id
      ensures Valid()
      ensures this.profiles == profiles
      ensures progress == map[] && quizzes == map[]
      ensures units == [] && lessons == [] && redemptions == [] && writes == []
    {
      this.profiles := profiles;
      progress, quizzes := map[], map[];
      units, lessons, redemptions := [], [], [];
      writes := [];
    }

    /** `upsert` on `user_progress` with conflict key `user_id,lesson_id`. */
    method UpsertProgressRow(row: ProgressRow)
      requires Valid()
      modifies this`progress, this`writes
      ensures Valid()
      ensures progress == old(progress)[row.Key() := row]
      ensures writes == old(writes) + [UpsertProgress(row.Key())]
    {
      progress := progress[row.Key() := row];
      writes := writes + [UpsertProgress(row.Key())];
    }

    /** `update` of the profile row whose `user_id` is `user`; a missing row is left missing. */
    method UpdateProfileRow(user: UserId, row: ProfileRow)
      requires Valid() && row.userId == user
      modifies this`profiles, this`writes
      ensures Valid()
      ensures profiles == if user in old(profiles) then old(profiles)[user := row] else old(profiles)
      ensures writes == old(writes) + [UpdateProfile(user)]
    {
      if user in profiles {
        profiles := profiles[user := row];
      }
      writes := writes + [UpdateProfile(user)];
    }

    /** `insert` into `redemptions`. */
    method InsertRedemptionRow(row: RedemptionRow)
      modifies this`redemptions, this`writes
      ensures redemptions == old(redemptions) + [row]
      ensures writes == old(writes) + [InsertRedemption(row)]
    {
      redemptions := redemptions + [row];
      writes := writes + [InsertRedemption(row)];
    }

    /** `insert` into `units`. */
    method InsertUnitRow(row: UnitRow)
      modifies this`units, this`writes
      ensures units == old(units) + [row]
      ensures writes == old(writes) + [InsertUnit(row.id)]
    {
      units := units + [row];
      writes := writes + [InsertUnit(row.id)];
    }

    /** `delete` from `lessons` where `unit_id` matches. */
    method DeleteLessonsOfUnitRows(unitId: UnitId)
      modifies this`lessons, this`writes
      ensures lessons == Filter(old(lessons), (l: LessonRow) => l.unitId != unitId)
      ensures writes == old(writes) + [DeleteLessonsOfUnit(unitId)]
    {
      lessons := Filter(lessons, (l: LessonRow) => l.unitId != unitId);
      writes := writes + [DeleteLessonsOfUnit(unitId)];
    }

    /** `delete` from `units` where `id` matches. */
    method DeleteUnitRow(unitId: UnitId)
      modifies this`units, this`writes
      ensures units == Filter(old(units), (u: UnitRow) => u.id != unitId)
      ensures writes == old(writes) + [DeleteUnit(unitId)]
    {
      units := Filter(units, (u: UnitRow) => u.id != unitId);
      writes := writes + [DeleteUnit(unitId)];
    }

    /** `insert` into `lessons`. */
    method InsertLessonRow(row: LessonRow)
      modifies this`lessons, this`writes
      ensures lessons == old(lessons) + [row]
      ensures writes == old(writes) + [InsertLesson(row.id)]
    {
      lessons := lessons + [row];
      writes := writes + [InsertLesson(row.id)];
    }

    /** `update` of every lesson row whose `id` matches, with `change` applied to it. */
    method UpdateLessonRows(lessonId: LessonId, change: LessonRow -> LessonRow)
      modifies this`lessons, this`writes
      ensures |lessons| == |old(lessons)|
      ensures forall i :: 0 <= i < |lessons| ==>
                lessons[i] == if old(lessons)[i].id == lessonId then change(old(lessons)[i]) else old(lessons)[i]
      ensures writes == old(writes) + [UpdateLesson(lessonId)]
    {
      lessons := seq(|lessons|, i requires 0 <= i < |lessons| reads this =>
                       if lessons[i].id == lessonId then change(lessons[i]) else lessons[i]);
      writes := writes + [UpdateLesson(lessonId)];
    }

    /** `delete` from `quizzes` where `lesson_id` matches. */
    method DeleteQuizOfLessonRow(lessonId: LessonId)
      requires Valid()
      modifies this`quizzes, this`writes
      ensures Valid()
      ensures quizzes == old(quizzes) - {lessonId}
      ensures writes == old(writes) + [DeleteQuizOfLesson(lessonId)]
    {
      quizzes := quizzes - {lessonId};
      writes := writes + [DeleteQuizOfLesson(lessonId)];
    }

    /** `delete` from `lessons` where `id` matches. */
    method DeleteLessonRow(lessonId: LessonId)
      modifies this`lessons, this`writes
      ensures lessons == Filter(old(lessons), (l: LessonRow) => l.id != lessonId)
      ensures writes == old(writes) + [DeleteLesson(lessonId)]
    {
      lessons := Filter(lessons, (l: LessonRow) => l.id != lessonId);
      writes := writes + [DeleteLesson(lessonId)];
    }

    /** `upsert` on `quizzes` with conflict key `lesson_id`. */
    method UpsertQuizRow(row: QuizRow)
      requires Valid()
      modifies this`quizzes, this`writes
      ensures Valid()
      ensures quizzes == old(quizzes)[row.lessonId := row]
      ensures writes == old(writes) + [UpsertQuiz(row.lessonId)]
    {
      quizzes := quizzes[row.lessonId := row];
      writes := writes + [UpsertQuiz(row.lessonId)];
    }
  }
}
