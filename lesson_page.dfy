/** The lesson screen for database lessons (`src/pages/LessonPage.tsx`): the
    YouTube id extracted from the lesson's video URL, a quiz whose submission
    passes at 70% and grants the lesson's XP, retry, and "Mark as Complete"
    for lessons without a quiz. A completion raises the profile's XP,
    recomputes its level and applies the daily streak rule. */
module LessonPage {
  import opened Common
  import opened Tables
  import Text
  import LessonUtils
  import LessonXpTracker
  import opened QuizScoring

  const PASSING_SCORE: int := 70
  const ID_LENGTH: int := 11

  // ---------------------------------------------------------------------------
  // YouTube id extraction

  /** A character of the class `[a-zA-Z0-9_-]`. */
  predicate IdChar(c: char) {
    ('a' <= c <= 'z') || ('A' <= c <= 'Z') || ('0' <= c <= '9') || c == '_' || c == '-'
  }

  /** The three alternatives that may introduce an id. */
  const MARKERS: seq<string> := ["v=", "/embed/", "youtu.be/"]

  /** The regular expression matches at position `k` with marker `m`: the
      marker is there and is followed by eleven id characters. */
  predicate MatchesWith(url: string, k: int, m: string) {
    && Text.OccursAt(url, m, k)
    && k + |m| + ID_LENGTH <= |url|
    && forall j :: k + |m| <= j < k + |m| + ID_LENGTH ==> IdChar(url[j])
  }

  /** The captured group of a match at position `k`, trying the alternatives in order. */
  function MatchAt(url: string, k: int): (r: Option<string>)
    ensures r.Some? <==> exists i :: 0 <= i < |MARKERS| && MatchesWith(url, k, MARKERS[i])
    ensures r.Some? ==> exists i :: 0 <= i < |MARKERS| && MatchesWith(url, k, MARKERS[i])
                          && r.value == url[k + |MARKERS[i]|..k + |MARKERS[i]| + ID_LENGTH]
  {
    if MatchesWith(url, k, MARKERS[0]) then Some(url[k + 2..k + 2 + ID_LENGTH])
    else if MatchesWith(url, k, MARKERS[1]) then Some(url[k + 7..k + 7 + ID_LENGTH])
    else if MatchesWith(url, k, MARKERS[2]) then Some(url[k + 9..k + 9 + ID_LENGTH])
    else None
  }

  /** The regular-expression search, trying positions from `k` on. */
  function SearchFrom(url: string, k: nat): (r: Option<string>)
    ensures r.None? <==> forall j :: k <= j <= |url| ==> MatchAt(url, j).None?
    ensures r.Some? ==> exists j :: k <= j <= |url| && MatchAt(url, j) == r
                          && forall i :: k <= i < j ==> MatchAt(url, i).None?
    decreases |url| + 1 - k
  {
    if k > |url| then None
    else if MatchAt(url, k).Some? then MatchAt(url, k)
    else
      var r := SearchFrom(url, k + 1);
      assert r.None? ==> forall j :: k <= j <= |url| ==> MatchAt(url, j).None? by {
        if r.None? {
          forall j | k <= j <= |url|
            ensures MatchAt(url, j).None?
          {
            if j > k {
              assert k + 1 <= j;
            }
          }
        }
      }
      r
  }

  /** `getYouTubeId`: the eleven id characters after the leftmost marker that
      is followed by eleven such characters, or nothing. */
  function GetYouTubeId(url: string): (r: Option<string>)
    ensures r.Some? ==> |r.value| == ID_LENGTH && forall i :: 0 <= i < ID_LENGTH ==> IdChar(r.value[i])
    ensures r.None? <==> forall k :: 0 <= k <= |url| ==> MatchAt(url, k).None?
    ensures r.Some? ==> exists k :: 0 <= k <= |url| && MatchAt(url, k) == r
                          && forall j :: 0 <= j < k ==> MatchAt(url, j).None?
  {
    var r := SearchFrom(url, 0);
    if r.Some? then
      var k :| 0 <= k <= |url| && MatchAt(url, k) == r;
      var i :| 0 <= i < |MARKERS| && MatchesWith(url, k, MARKERS[i])
                 && r.value == url[k + |MARKERS[i]|..k + |MARKERS[i]| + ID_LENGTH];
      assert forall j :: 0 <= j < ID_LENGTH ==> r.value[j] == url[k + |MARKERS[i]| + j];
      r
    else
      r
  }

  /** The short-link form yields the id. */
  lemma ShortLinkExample()
    ensures GetYouTubeId("youtu.be/QQgOJoZduRc") == Some("QQgOJoZduRc")
  {
    var u := "youtu.be/QQgOJoZduRc";
    assert !MatchesWith(u, 0, MARKERS[0]) by { assert u[0] != 'v'; }
    assert !MatchesWith(u, 0, MARKERS[1]) by { assert u[0] != '/'; }
    assert MatchesWith(u, 0, MARKERS[2]) by {
      assert u[0..9] == "youtu.be/";
    }
    assert u[9..20] == "QQgOJoZduRc";
    assert MatchAt(u, 0) == Some("QQgOJoZduRc");
  }

  /** A marker followed by fewer than eleven id characters yields nothing. */
  lemma TooShortIdExample()
    ensures GetYouTubeId("?v=short") == None
  {
    var w := "?v=short";
    forall k | 0 <= k <= |w|
      ensures MatchAt(w, k).None?
    {
      forall i | 0 <= i < |MARKERS|
        ensures !MatchesWith(w, k, MARKERS[i])
      {
        assert k + |MARKERS[i]| + ID_LENGTH > |w|;
      }
    }
  }

  // ---------------------------------------------------------------------------
  // Awarding a completion

  /** `lesson?.xp_reward || 10`: a missing lesson or a reward of 0 gives 10. */
  function EarnedXp(lesson: Option<LessonRow>): (xp: int)
    ensures xp != 0
    ensures lesson.Some? && lesson.value.xpReward != 0 ==> xp == lesson.value.xpReward
    ensures lesson.None? || lesson.value.xpReward == 0 ==> xp == 10
  {
    if lesson.Some? && lesson.value.xpReward != 0 then lesson.value.xpReward else 10
  }

  /** The streak rule as written inline in both award paths: yesterday is
      checked first, then anything but today resets the streak to 1. */
  function InlineStreak(lastActive: Option<Day>, streak: int, today: Day): (s: int)
    ensures lastActive == Some(today) ==> s == streak
    ensures lastActive == Some(today - 1) ==> s == streak + 1
    ensures lastActive != Some(today) && lastActive != Some(today - 1) ==> s == 1
  {
    var yesterday := today - 1;
    if lastActive == Some(yesterday) then streak + 1
    else if lastActive != Some(today) then 1
    else streak
  }

  /** The inline rule is the library's `updateStreak`. */
  lemma InlineStreakIsUpdateStreak(lastActive: Option<Day>, streak: int, today: Day)
    ensures InlineStreak(lastActive, streak, today) == LessonUtils.UpdateStreak(lastActive, streak, today).newStreak
  {
  }

  /** The profile after a completion worth `earned` XP on day `today`. */
  function ProfileAfterCompletion(p: ProfileRow, earned: int, today: Day): (q: ProfileRow)
    ensures q == LessonXpTracker.Awarded(p, earned).(
                   streak := LessonUtils.UpdateStreak(p.lastActive, p.streak, today).newStreak,
                   lastActive := Some(today))
  {
    InlineStreakIsUpdateStreak(p.lastActive, p.streak, today);
    p.(xp := p.xp + earned,
       level := LessonUtils.CalculateLevel(p.xp + earned),
       streak := InlineStreak(p.lastActive, p.streak, today),
       lastActive := Some(today))
  }

  /** Completing twice on one day adds the XP twice but counts the day once. */
  lemma SameDayCompletionsAddXpNotStreak(p: ProfileRow, earned: int, today: Day)
    ensures var once := ProfileAfterCompletion(p, earned, today);
            var twice := ProfileAfterCompletion(once, earned, today);
            twice.xp == p.xp + 2 * earned && twice.streak == once.streak
            && twice.level == LessonUtils.CalculateLevel(p.xp + 2 * earned)
  {
  }

  /** The profiles table after a completion: a missing profile is left missing. */
  function CompleteIn(profiles: map<UserId, ProfileRow>, user: UserId, earned: int, today: Day): (r: map<UserId, ProfileRow>)
    ensures r.Keys == profiles.Keys
    ensures user in profiles ==> r[user] == ProfileAfterCompletion(profiles[user], earned, today)
    ensures forall u :: u in profiles && u != user ==> r[u] == profiles[u]
  {
    if user in profiles then profiles[user := ProfileAfterCompletion(profiles[user], earned, today)] else profiles
  }

  /** The answer key of a stored quiz: the `correct` field of each question. */
  function KeyOf(questions: seq<Question>): (key: seq<int>)
    ensures |key| == |questions|
    ensures forall i :: 0 <= i < |questions| ==> key[i] == questions[i].correct
  {
    seq(|questions|, i requires 0 <= i < |questions| => questions[i].correct)
  }

  /** The score of a submission, `None` standing for the `NaN` of a quiz without questions. */
  function PageScore(questions: seq<Question>, answers: map<int, int>): (pct: Option<int>)
    ensures pct.None? <==> |questions| == 0
    ensures pct.Some? ==> 0 <= pct.value <= 100
    ensures pct.Some? ==>
              var correct := CountCorrect(KeyOf(questions), answers);
              |questions| * (2 * pct.value - 1) <= 200 * correct < |questions| * (2 * pct.value + 1)
  {
    if |questions| == 0 then None
    else Some(RoundedPercent(CountCorrect(KeyOf(questions), answers), |questions|))
  }

  /** A submission passes (`pct >= PASSING_SCORE`, false for `NaN`). */
  predicate Passes(pct: Option<int>) {
    pct.Some? && pct.value >= PASSING_SCORE
  }

  /** A submission passes exactly when at least 69.5% of the questions are answered correctly. */
  lemma {:induction false} PassesIffCount(questions: seq<Question>, answers: map<int, int>)
    ensures Passes(PageScore(questions, answers)) <==>
              |questions| > 0 && 200 * CountCorrect(KeyOf(questions), answers) >= 139 * |questions|
  {
    if |questions| > 0 {
      QuizScoring.PassesIff(CountCorrect(KeyOf(questions), answers), |questions|);
    }
  }

  /** Unanswered questions never count: an empty answer sheet fails every quiz. */
  lemma {:induction false} EmptySheetFails(questions: seq<Question>)
    ensures !Passes(PageScore(questions, map[]))
  {
    NoAnswersNoneCorrect(KeyOf(questions));
    if |questions| > 0 {
      QuizScoring.PassesIff(0, |questions|);
    }
  }

  class LessonScreen {
    const lessonId: LessonId
    const user: Option<UserId>
    const db: Backend

    var lesson: Option<LessonRow>
    var quiz: Option<QuizRow>
    var answers: map<int, int>
    var submitted: bool
    /** `None` is `NaN`. */
    var score: Option<int>
    var completed: bool

    ghost predicate Valid()
      reads this, db
    {
      db.Valid()
    }

    constructor (lessonId: LessonId, user: Option<UserId>, db: Backend)
      requires db.Valid()
      ensures Valid()
      ensures this.lessonId == lessonId && this.user == user && this.db == db
      ensures lesson == None && quiz == None && answers == map[]
      ensures !submitted && score == Some(0) && !completed
    {
      this.lessonId, this.user, this.db := lessonId, user, db;
      lesson, quiz, answers := None, None, map[];
      submitted, score, completed := false, Some(0), false;
    }

    /** The questions shown: `quiz?.questions || []`. */
    function Questions(): seq<Question>
      reads this
    {
      if quiz.Some? then quiz.value.questions else []
    }

    // What the screen renders. Nothing but "Loading..." is rendered before the lesson arrives.

    predicate QuizShown()
      reads this
    {
      lesson.Some? && |Questions()| > 0
    }

    /** `allAnswered`. */
    predicate AllAnswered()
      reads this
    {
      |answers| == |Questions()|
    }

    predicate SubmitShown()
      reads this
    {
      QuizShown() && !submitted
    }

    predicate RetryShown()
      reads this
    {
      QuizShown() && submitted && score.Some? && score.value < PASSING_SCORE
    }

    predicate MarkCompleteShown()
      reads this
    {
      lesson.Some? && |Questions()| == 0 && !completed
    }

    /** Every answer belongs to a question on screen. */
    predicate AnswersInRange()
      reads this
    {
      forall k :: k in answers ==> 0 <= k < |Questions()|
    }

    /** The quiz and the no-quiz completion button are never offered together. */
    lemma QuizAndMarkCompleteExclusive()
      ensures !(QuizShown() && MarkCompleteShown())
    {
    }

    /** When submit is enabled, every question has an answer. */
    lemma {:induction false} AllAnsweredMeansEveryQuestion()
      requires AnswersInRange()
      ensures AllAnswered() ==> forall i :: 0 <= i < |Questions()| ==> i in answers
    {
      if AllAnswered() {
        FullCountMeansAllAnswered(answers, |Questions()|);
      }
    }

    /** The loading effect: the lesson and quiz by id (`.single()` yields
        nothing when no row matches), and the completed flag of the user's
        progress, which is only ever switched on. */
    method Load()
      requires Valid()
      modifies this`lesson, this`quiz, this`completed
      ensures Valid()
      ensures lessonId == "" ==> lesson == old(lesson) && quiz == old(quiz) && completed == old(completed)
      ensures lessonId != "" ==>
                && lesson == Find(db.lessons, (l: LessonRow) => l.id == lessonId)
                && quiz == (if lessonId in db.quizzes then Some(db.quizzes[lessonId]) else None)
                && completed == (old(completed) ||
                                 (user.Some? && ProgressKey(user.value, lessonId) in db.progress
                                  && db.progress[ProgressKey(user.value, lessonId)].completed))
    {
      if lessonId == "" {
        return;
      }
      lesson := Find(db.lessons, (l: LessonRow) => l.id == lessonId);
      quiz := if lessonId in db.quizzes then Some(db.quizzes[lessonId]) else None;
      if user.Some? {
        var k := ProgressKey(user.value, lessonId);
        if k in db.progress && db.progress[k].completed {
          completed := true;
        }
      }
    }

    /** Choosing option `oi` of question `qi`; ignored once submitted. */
    method SelectAnswer(qi: int, oi: int)
      requires Valid() && 0 <= qi < |Questions()|
      modifies this`answers
      ensures Valid()
      ensures answers == if old(submitted) then old(answers) else old(answers)[qi := oi]
      ensures old(AnswersInRange()) ==> AnswersInRange()
    {
      if !submitted {
        answers := answers[qi := oi];
      }
    }

    /** "Submit": scores the answers; a pass records the completion with the
        score and the lesson's XP, then raises the profile's XP, level and
        streak. The stored completed flag is not consulted, so every passing
        submission awards the XP again. A failing one writes nothing. */
    method HandleSubmitQuiz(now: Timestamp, today: Day)
      requires Valid()
      modifies this`score, this`submitted, this`completed, db`progress, db`profiles, db`writes
      ensures Valid()
      ensures quiz.None? || user.None? ==> unchanged(this) && unchanged(db)
      ensures quiz.Some? && user.Some? ==>
                var pct := PageScore(quiz.value.questions, answers);
                var k := ProgressKey(user.value, lessonId);
                var earned := EarnedXp(lesson);
                && score == pct && submitted
                && (Passes(pct) ==>
                      && completed
                      && db.progress == old(db.progress)[k := ProgressRow(user.value, lessonId, true, pct, earned, Some(now))]
                      && db.profiles == CompleteIn(old(db.profiles), user.value, earned, today)
                      && db.writes == old(db.writes) + [UpsertProgress(k)]
                                      + (if user.value in old(db.profiles) then [UpdateProfile(user.value)] else []))
                && (!Passes(pct) ==> completed == old(completed) && unchanged(db))
      ensures answers == old(answers)
    {
      if quiz.None? || user.None? {
        return;
      }
      var questions := quiz.value.questions;
      var correct := CountCorrectAnswers(KeyOf(questions), answers);
      var pct: Option<int> := if |questions| == 0 then None else Some(RoundedPercent(correct, |questions|));
      score := pct;
      submitted := true;
      if Passes(pct) {
        var xpEarned := EarnedXp(lesson);
        db.UpsertProgressRow(ProgressRow(user.value, lessonId, true, pct, xpEarned, Some(now)));
        AwardCompletion(xpEarned, today);
        completed := true;
      }
    }

    /** The profile read-modify-write shared by both award paths. */
    method AwardCompletion(earned: int, today: Day)
      requires Valid() && user.Some?
      modifies db`profiles, db`writes
      ensures Valid()
      ensures db.profiles == CompleteIn(old(db.profiles), user.value, earned, today)
      ensures db.writes == old(db.writes) +
                (if user.value in old(db.profiles) then [UpdateProfile(user.value)] else [])
    {
      var u := user.value;
      if u in db.profiles {
        db.UpdateProfileRow(u, ProfileAfterCompletion(db.profiles[u], earned, today));
      }
    }

    /** "Retry": clears the answers and the result. */
    method HandleRetry()
      modifies this`answers, this`submitted, this`score
      ensures answers == map[] && !submitted && score == Some(0)
      ensures AnswersInRange() && (QuizShown() ==> SubmitShown())
    {
      answers := map[];
      submitted := false;
      score := Some(0);
    }

    /** "Mark as Complete", for a lesson without quiz questions: awards like a
        pass. The upsert sends no score, so an existing row keeps its score
        and a new row has none. */
    method HandleMarkComplete(now: Timestamp, today: Day)
      requires Valid() && lesson.Some?
      modifies this`completed, db`progress, db`profiles, db`writes
      ensures Valid()
      ensures user.None? ==> unchanged(this) && unchanged(db)
      ensures user.Some? ==>
                var k := ProgressKey(user.value, lessonId);
                var earned := EarnedXp(lesson);
                var oldScore := if k in old(db.progress) then old(db.progress)[k].score else None;
                && completed
                && db.progress == old(db.progress)[k := ProgressRow(user.value, lessonId, true, oldScore, earned, Some(now))]
                && db.profiles == CompleteIn(old(db.profiles), user.value, earned, today)
                && db.writes == old(db.writes) + [UpsertProgress(k)]
                                + (if user.value in old(db.profiles) then [UpdateProfile(user.value)] else [])
    {
      if user.None? {
        return;
      }
      var xpEarned := EarnedXp(lesson);
      var k := ProgressKey(user.value, lessonId);
      var oldScore := if k in db.progress then db.progress[k].score else None;
      db.UpsertProgressRow(ProgressRow(user.value, lessonId, true, oldScore, xpEarned, Some(now)));
      AwardCompletion(xpEarned, today);
      completed := true;
    }
  }
}
