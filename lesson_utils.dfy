/** The progression rules of `src/lib/lessonUtils.ts`: the lesson lock rule,
    level and XP arithmetic, and the daily streak rule. */
module LessonUtils {
  import opened Common
  import opened Tables

  /** `userProgress[id]?.completed || false`: a missing record counts as not completed. */
  predicate IsCompleted(userProgress: map<LessonId, ProgressRow>, id: LessonId) {
    id in userProgress && userProgress[id].completed
  }

  /** `isLessonLocked`: a lesson is locked unless it is the first one or the
      lesson just before it is completed. Only the `id` of each lesson of the
      unit is read, so the unit is given as its lesson ids, in order. */
  function IsLessonLocked(lessonOrderIndex: int, userProgress: map<LessonId, ProgressRow>,
                          allLessonsInModule: seq<LessonId>): (locked: bool)
    ensures lessonOrderIndex == 0 ==> !locked
    ensures !(1 <= lessonOrderIndex <= |allLessonsInModule|) ==> !locked
    ensures 1 <= lessonOrderIndex <= |allLessonsInModule| ==>
              (locked <==> !IsCompleted(userProgress, allLessonsInModule[lessonOrderIndex - 1]))
  {
    if lessonOrderIndex == 0 then false
    else if !(0 <= lessonOrderIndex - 1 < |allLessonsInModule|) then false  // no previous lesson: fail open
    else !IsCompleted(userProgress, allLessonsInModule[lessonOrderIndex - 1])
  }

  /** The lock state depends on the immediate predecessor only: progress maps
      that agree on it give the same answer, whatever else they say. */
  lemma LockDependsOnlyOnPredecessor(i: int, p1: map<LessonId, ProgressRow>,
                                     p2: map<LessonId, ProgressRow>, ids: seq<LessonId>)
    requires 1 <= i <= |ids| ==> (IsCompleted(p1, ids[i - 1]) <==> IsCompleted(p2, ids[i - 1]))
    ensures IsLessonLocked(i, p1, ids) == IsLessonLocked(i, p2, ids)
  {
  }

  /** A unit of three lessons where the first is completed and the second is
      not: the second lesson is open, the third is locked. */
  lemma ThreeLessonUnitExample(p: map<LessonId, ProgressRow>, a: LessonId, b: LessonId, c: LessonId)
    requires IsCompleted(p, a) && !IsCompleted(p, b)
    ensures !IsLessonLocked(0, p, [a, b, c])
    ensures !IsLessonLocked(1, p, [a, b, c])
    ensures IsLessonLocked(2, p, [a, b, c])
  {
  }

  /** `calculateLevel`: `Math.floor(xp / 100) + 1`. (Dafny's `/` by a positive
      divisor rounds down, as `Math.floor` does, also for negative xp.) */
  function CalculateLevel(xp: int): (level: int)
    ensures (level - 1) * 100 <= xp < level * 100
  {
    xp / 100 + 1
  }

  /** The level is at least 1 and never goes down as XP grows. */
  lemma LevelIsPositiveAndMonotone(xp1: int, xp2: int)
    requires 0 <= xp1 <= xp2
    ensures 1 <= CalculateLevel(xp1) <= CalculateLevel(xp2)
  {
  }

  lemma LevelExamples()
    ensures CalculateLevel(0) == 1 && CalculateLevel(99) == 1
    ensures CalculateLevel(100) == 2 && CalculateLevel(250) == 3
  {
  }

  /** `getXpForNextLevel`: the total XP at which the next level begins. */
  function XpForNextLevel(currentLevel: int): (threshold: int)
    ensures CalculateLevel(threshold) == currentLevel + 1
    ensures CalculateLevel(threshold - 1) == currentLevel
  {
    currentLevel * 100
  }

  /** The next-level threshold of the current level always lies above the XP,
      by at most 100. */
  lemma BelowNextLevelThreshold(xp: int)
    ensures xp < XpForNextLevel(CalculateLevel(xp)) <= xp + 100
  {
  }

  /** `getXpInCurrentLevel`: `totalXp % (level * 100)`. For `totalXp` in
      -100..-1 the level is 0 and the original divides by zero (`NaN`). For
      every non-negative XP the modulus exceeds the XP, so the "XP in the
      current level" is the whole XP, not a value in 0..99. */
  function XpInCurrentLevel(totalXp: int): (r: int)
    requires !(-100 <= totalXp < 0)
    ensures totalXp >= 0 ==> r == totalXp
    ensures totalXp >= 0 ==> 0 <= r < XpForNextLevel(CalculateLevel(totalXp))
    ensures totalXp < -100 ==> XpForNextLevel(CalculateLevel(totalXp)) < r <= 0
  {
    var level := CalculateLevel(totalXp);
    var modulus := level * 100;
    assert totalXp < -100 ==> level < 0;
    if totalXp >= 0 then
      SmallRemainder(totalXp, modulus);
      JsRemainder(totalXp, modulus)
    else
      JsRemainder(totalXp, modulus)
  }

  lemma SmallRemainder(a: int, m: int)
    requires 0 <= a < m
    ensures a % m == a
  {
  }

  /** A player with 90 XP who earns 10 reaches level 2 and is shown 100 XP in the level (not 0). */
  lemma XpInLevelAtLevelUp()
    ensures CalculateLevel(90 + 10) == 2 && XpInCurrentLevel(90 + 10) == 100
  {
  }

  /** `getXpProgressPercentage`, on exact rationals instead of floating point. */
  function XpProgressPercentage(totalXp: int): (pct: real)
    requires !(-100 <= totalXp < 0)
    ensures 0.0 <= pct < 100.0
    ensures pct * XpForNextLevel(CalculateLevel(totalXp)) as real == 100.0 * XpInCurrentLevel(totalXp) as real
    ensures totalXp >= 0 ==> pct * (CalculateLevel(totalXp) * 100) as real == 100.0 * totalXp as real
  {
    var inLevel := XpInCurrentLevel(totalXp) as real;
    var forLevel := XpForNextLevel(CalculateLevel(totalXp)) as real;
    if totalXp >= 0 then
      QuotientBelowOne(inLevel, forLevel);
      (inLevel / forLevel) * 100.0
    else
      NegativeQuotientBelowOne(inLevel, forLevel);
      (inLevel / forLevel) * 100.0
  }

  lemma QuotientBelowOne(a: real, b: real)
    requires 0.0 <= a < b
    ensures 0.0 <= a / b < 1.0
    ensures a / b * b == a
  {
  }

  /** Below level 0 both the XP in the level and the threshold are negative. */
  lemma NegativeQuotientBelowOne(a: real, b: real)
    requires b < a <= 0.0
    ensures 0.0 <= a / b < 1.0
    ensures a / b * b == a
  {
    QuotientBelowOne(-a, -b);
    assert (-a) / (-b) == a / b;
  }

  /** The result of `updateStreak`. */
  datatype StreakUpdate = StreakUpdate(newStreak: int, streakBroken: bool)

  /** `updateStreak`, with the clock passed in as `today` (yesterday is `today - 1`). */
  function UpdateStreak(lastActiveDate: Option<Day>, currentStreak: int, today: Day): (r: StreakUpdate)
    ensures lastActiveDate == Some(today) ==> r == StreakUpdate(currentStreak, false)
    ensures lastActiveDate == Some(today - 1) ==> r == StreakUpdate(currentStreak + 1, false)
    ensures r.streakBroken <==> lastActiveDate != Some(today) && lastActiveDate != Some(today - 1)
    ensures r.streakBroken ==> r.newStreak == 1
  {
    var yesterday := today - 1;
    if lastActiveDate == Some(today) then StreakUpdate(currentStreak, false)
    else if lastActiveDate == Some(yesterday) then StreakUpdate(currentStreak + 1, false)
    else StreakUpdate(1, true)
  }

  /** The scenarios: first activity ever, same day, next day, after a gap. */
  lemma StreakExamples(today: Day)
    ensures UpdateStreak(None, 0, today) == StreakUpdate(1, true)
    ensures UpdateStreak(Some(today), 5, today) == StreakUpdate(5, false)
    ensures UpdateStreak(Some(today - 1), 5, today) == StreakUpdate(6, false)
    ensures UpdateStreak(Some(today - 3), 5, today) == StreakUpdate(1, true)
  {
  }

  /** Evaluating the rule again on the same day, with `lastActive` persisted as
      today, changes nothing. */
  lemma StreakSameDayIdempotent(last: Option<Day>, streak: int, today: Day)
    ensures var once := UpdateStreak(last, streak, today);
            UpdateStreak(Some(today), once.newStreak, today).newStreak == once.newStreak
  {
  }
}
