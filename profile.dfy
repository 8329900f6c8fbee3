/** The profile screen (`src/pages/Profile.tsx`): the count and XP total of the
    completed lessons, the progress bar and the labels around it, and the menu. */
module Profile {
  import opened Common
  import opened Tables
  import LessonUtils

  /** `stats`: how many progress rows are completed and the XP they earned. */
  datatype Stats = Stats(completed: nat, totalXp: int)

  /** The XP earned over some progress rows. */
  function SumXp(rows: seq<ProgressRow>): int {
    if rows == [] then 0 else SumXp(rows[..|rows| - 1]) + rows[|rows| - 1].xpEarned
  }

  lemma {:induction false} SumXpAppend(a: seq<ProgressRow>, b: seq<ProgressRow>)
    ensures SumXp(a + b) == SumXp(a) + SumXp(b)
    decreases |b|
  {
    if b == [] {
      assert a + b == a;
    } else {
      assert (a + b)[..|a + b| - 1] == a + b[..|b| - 1];
      SumXpAppend(a, b[..|b| - 1]);
    }
  }

  /** The rows the stats query returns: the user's completed rows. */
  function CompletedRowsOf(rows: seq<ProgressRow>, user: UserId): (r: seq<ProgressRow>)
    ensures SubsequenceOf(r, rows)
    ensures forall i :: 0 <= i < |r| ==> r[i].userId == user && r[i].completed
    ensures forall i :: 0 <= i < |rows| && rows[i].userId == user && rows[i].completed ==> rows[i] in r
  {
    FilterIsSubsequence(rows, (p: ProgressRow) => p.userId == user && p.completed);
    Filter(rows, (p: ProgressRow) => p.userId == user && p.completed)
  }

  /** The stats from the query's answer; a failed query (`None`) shows zeros. */
  function StatsOf(data: Option<seq<ProgressRow>>): (s: Stats)
    ensures data.None? ==> s == Stats(0, 0)
    ensures data.Some? ==> s.completed == |data.value|
  {
    if data.None? then Stats(0, 0) else Stats(|data.value|, SumXp(data.value))
  }

  /** Each further completed row counts one more lesson and adds its XP. */
  lemma StatsGrow(rows: seq<ProgressRow>, row: ProgressRow)
    ensures StatsOf(Some(rows + [row])) == Stats(StatsOf(Some(rows)).completed + 1, StatsOf(Some(rows)).totalXp + row.xpEarned)
  {
    assert (rows + [row])[..|rows|] == rows;
  }

  /** With every row worth between 0 and `cap` XP, the total lies between 0
      and `cap` per completed lesson. */
  lemma {:induction false} TotalXpBounds(rows: seq<ProgressRow>, cap: int)
    requires forall i :: 0 <= i < |rows| ==> 0 <= rows[i].xpEarned <= cap
    ensures 0 <= StatsOf(Some(rows)).totalXp <= cap * StatsOf(Some(rows)).completed
  {
    if rows != [] {
      var init := rows[..|rows| - 1];
      assert forall i :: 0 <= i < |init| ==> init[i] == rows[i];
      TotalXpBounds(init, cap);
    }
  }

  /** Rows that are not completed (a video credit) are not counted. */
  lemma VideoCreditNotCounted(rows: seq<ProgressRow>, user: UserId, row: ProgressRow)
    requires !row.completed
    ensures CompletedRowsOf(rows + [row], user) == CompletedRowsOf(rows, user)
  {
    FilterAppend(rows, [row], (p: ProgressRow) => p.userId == user && p.completed);
    assert [row][1..] == [];
  }

  /** The level shown: the stored level, with 0 or an absent profile reading as 1. */
  function ShownLevel(profile: Option<ProfileRow>): (level: int)
    ensures profile.None? || profile.value.level == 0 ==> level == 1
    ensures profile.Some? && profile.value.level != 0 ==> level == profile.value.level
  {
    if profile.Some? && profile.value.level != 0 then profile.value.level else 1
  }

  /** The two labels over the bar: this level and the next. */
  function LevelLabels(profile: Option<ProfileRow>): (labels: (int, int))
    ensures labels.1 == labels.0 + 1
    ensures labels.0 == ShownLevel(profile)
  {
    (ShownLevel(profile), ShownLevel(profile) + 1)
  }

  /** The bar's fill and the "n/100" text: the XP remainder by 100. */
  function BarValue(profile: Option<ProfileRow>): (v: int)
    ensures profile.None? ==> v == 0
    ensures profile.Some? && profile.value.xp >= 0 ==> 0 <= v < 100
  {
    JsRemainder(if profile.Some? then profile.value.xp else 0, 100)
  }

  /** For non-negative XP, the bar shows the XP earned since the library's level
      began, which `getXpInCurrentLevel` does not. */
  lemma BarIsProgressWithinLevel(p: ProfileRow)
    requires p.xp >= 0
    ensures BarValue(Some(p)) == p.xp - (LessonUtils.CalculateLevel(p.xp) - 1) * 100
    ensures p.xp >= 100 ==> BarValue(Some(p)) != LessonUtils.XpInCurrentLevel(p.xp)
  {
  }

  /** An entry of the menu. */
  datatype MenuItem = AdminPanel | LessonsCompleted(count: nat) | Achievements | Notifications | Settings

  /** The menu: the Admin Panel entry first, for administrators only. */
  function Menu(isAdmin: bool, stats: Stats): (items: seq<MenuItem>)
    ensures AdminPanel in items <==> isAdmin
    ensures isAdmin ==> items[0] == AdminPanel
    ensures |items| == if isAdmin then 5 else 4
    ensures items[|items| - 4] == LessonsCompleted(stats.completed)
  {
    (if isAdmin then [AdminPanel] else []) + [LessonsCompleted(stats.completed), Achievements, Notifications, Settings]
  }
}
