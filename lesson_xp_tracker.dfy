/** The XP tracker of a built-in lesson (`src/components/LessonXpTracker.tsx`):
    10 XP for marking the video watched, then a three-question quiz of which
    only a perfect score completes the lesson and grants the 15 quiz XP. The
    component's state variables are the fields of `Tracker`; its event
    handlers are the methods; the conditions under which each part of the
    screen is rendered are predicates. */
module LessonXpTracker {
  import opened Common
  import opened Tables
  import LessonUtils
  import LessonsData
  import opened QuizScoring

  /** The answer key of the default quiz. */
  const KEY: seq<int> := LessonsData.AnswerKey(LessonsData.DEFAULT_QUIZ_QUESTIONS)
  const QUESTION_COUNT: int := |LessonsData.DEFAULT_QUIZ_QUESTIONS|
  const TOTAL_LESSON_XP: int := LessonsData.VIDEO_XP + LessonsData.QUIZ_XP

  lemma KeyFacts()
    ensures KEY == [1, 2, 1] && QUESTION_COUNT == 3 && |KEY| == QUESTION_COUNT
    ensures TOTAL_LESSON_XP == 25
  {
    LessonsData.DefaultQuizWellFormed();
  }

  /** `awardXp` on one profile: the XP grows by `delta` and the level is
      recomputed from the new total. */
  function Awarded(p: ProfileRow, delta: int): (q: ProfileRow)
    ensures q.xp == p.xp + delta
    ensures q.level == LessonUtils.CalculateLevel(q.xp)
    ensures q.(xp := p.xp, level := p.level) == p
  {
    var newXp := p.xp + delta;
    p.(xp := newXp, level := LessonUtils.CalculateLevel(newXp))
  }

  /** Two awards in a row are one award of the sum. */
  lemma AwardsAdd(p: ProfileRow, a: int, b: int)
    ensures Awarded(Awarded(p, a), b) == Awarded(p, a + b)
  {
  }

  /** A non-negative award never lowers the level of a profile whose stored
      level matches its XP. */
  lemma AwardNeverLowersLevel(p: ProfileRow, delta: int)
    requires p.xp >= 0 && delta >= 0 && p.level == LessonUtils.CalculateLevel(p.xp)
    ensures Awarded(p, delta).level >= p.level
  {
    LessonUtils.LevelIsPositiveAndMonotone(p.xp, p.xp + delta);
  }

  /** The profiles table after `awardXp(delta)` for `user`: a missing profile is left missing. */
  function AwardIn(profiles: map<UserId, ProfileRow>, user: UserId, delta: int): (r: map<UserId, ProfileRow>)
    ensures r.Keys == profiles.Keys
    ensures user in profiles ==> r[user] == Awarded(profiles[user], delta)
    ensures forall u :: u in profiles && u != user ==> r[u] == profiles[u]
  {
    if user in profiles then profiles[user := Awarded(profiles[user], delta)] else profiles
  }

  /** The score shown after submitting the default quiz. */
  function TrackerScore(answers: map<int, int>): (score: int)
    ensures 0 <= score <= 100
    ensures 3 * (2 * score - 1) <= 200 * CountCorrect(KEY, answers) < 3 * (2 * score + 1)
  {
    KeyFacts();
    RoundedPercent(CountCorrect(KEY, answers), QUESTION_COUNT)
  }

  /** The score is 100 exactly when all three questions are answered with the key's option. */
  lemma {:induction false} PerfectScoreIff(answers: map<int, int>)
    ensures TrackerScore(answers) == 100 <==>
              forall i :: 0 <= i < |KEY| ==> AnsweredCorrectly(KEY, answers, i)
  {
    KeyFacts();
    PerfectIff(CountCorrect(KEY, answers), QUESTION_COUNT);
    CountCorrectIsTotalIff(KEY, answers);
  }

  /** A three-question quiz scores 0, 33, 67 or 100. */
  lemma {:induction false} TrackerScoreValues(answers: map<int, int>)
    ensures TrackerScore(answers) in {0, 33, 67, 100}
  {
    KeyFacts();
    ThreeQuestionScores();
  }

  /** The row written when the video is credited. */
  function VideoCreditRow(user: UserId, lessonId: LessonId): ProgressRow {
    ProgressRow(user, lessonId, false, None, LessonsData.VIDEO_XP, None)
  }

  /** The row written by a quiz submission scoring `pct` at instant `now`. */
  function QuizResultRow(user: UserId, lessonId: LessonId, pct: int, now: Timestamp): (row: ProgressRow)
    ensures row.completed <==> pct == 100
    ensures row.score == Some(pct)
    ensures row.xpEarned == if pct == 100 then TOTAL_LESSON_XP else LessonsData.VIDEO_XP
    ensures row.completedAt.Some? <==> pct == 100
  {
    var perfect := pct == 100;
    ProgressRow(user, lessonId, perfect, Some(pct),
                if perfect then LessonsData.VIDEO_XP + LessonsData.QUIZ_XP else LessonsData.VIDEO_XP,
                if perfect then Some(now) else None)
  }

  /** The flags `loadProgress` derives from a stored row. */
  datatype LoadedFlags = LoadedFlags(videoEarned: bool, quizCompleted: bool, quizXpEarned: bool)

  function FlagsFromRow(row: ProgressRow): (f: LoadedFlags)
    ensures f.videoEarned <==> row.completed || row.xpEarned > 0
    ensures f.quizCompleted == row.completed
    ensures f.quizXpEarned <==> row.score == Some(100)
  {
    LoadedFlags(row.completed || row.xpEarned > 0, row.completed, row.score == Some(100))
  }

  /** After a video credit or a perfect quiz, reloading the screen restores
      the session's flags. After an imperfect quiz it keeps the video credited
      but clears the `quizCompleted` flag the session had set, so the quiz can
      be started again. */
  lemma ReloadAfterWrites(user: UserId, lessonId: LessonId, pct: int, now: Timestamp)
    requires 0 <= pct <= 100
    ensures FlagsFromRow(VideoCreditRow(user, lessonId)) == LoadedFlags(true, false, false)
    ensures pct == 100 ==> FlagsFromRow(QuizResultRow(user, lessonId, pct, now)) == LoadedFlags(true, true, true)
    ensures pct != 100 ==> FlagsFromRow(QuizResultRow(user, lessonId, pct, now)) == LoadedFlags(true, false, false)
  {
  }

  class Tracker {
    const user: Option<UserId>
    const lessonId: LessonId
    const db: Backend

    var videoWatched: bool
    var videoXpEarned: bool
    var quizStarted: bool
    var quizCompleted: bool
    var quizXpEarned: bool
    var currentQuestion: int
    var answers: map<int, int>
    var showResults: bool
    var score: int
    var loading: bool

    ghost predicate Valid()
      reads this, db
    {
      && db.Valid()
      && 0 <= currentQuestion < QUESTION_COUNT
      && (forall k :: k in answers ==> 0 <= k < QUESTION_COUNT)
      && (videoXpEarned ==> videoWatched)
    }

    constructor (user: Option<UserId>, lessonId: LessonId, db: Backend)
      requires db.Valid()
      ensures Valid()
      ensures this.user == user && this.lessonId == lessonId && this.db == db
      ensures !videoWatched && !videoXpEarned && !quizStarted && !quizCompleted && !quizXpEarned
      ensures currentQuestion == 0 && answers == map[] && !showResults && score == 0 && loading
    {
      this.user, this.lessonId, this.db := user, lessonId, db;
      videoWatched, videoXpEarned, quizStarted, quizCompleted, quizXpEarned := false, false, false, false, false;
      currentQuestion, answers, showResults, score, loading := 0, map[], false, 0, true;
    }

    /** `canStartQuiz`. */
    predicate CanStartQuiz()
      reads this
    {
      videoXpEarned
    }

    // What the screen renders. Nothing but the spinner is rendered while loading.

    predicate MarkWatchedShown()
      reads this
    {
      !loading && !videoXpEarned
    }

    predicate StartQuizShown()
      reads this
    {
      !loading && CanStartQuiz() && !quizStarted && !quizCompleted
    }

    predicate ResultPanelShown()
      reads this
    {
      !loading && quizCompleted && !quizStarted
    }

    predicate RetryShown()
      reads this
    {
      ResultPanelShown() && !quizXpEarned
    }

    predicate QuestionPanelShown()
      reads this
    {
      !loading && quizStarted && !quizCompleted
    }

    predicate NextShown()
      reads this
    {
      QuestionPanelShown() && currentQuestion < QUESTION_COUNT - 1
    }

    predicate NextEnabled()
      reads this
    {
      currentQuestion in answers
    }

    predicate SubmitShown()
      reads this
    {
      QuestionPanelShown() && !(currentQuestion < QUESTION_COUNT - 1)
    }

    predicate SubmitEnabled()
      reads this
    {
      |answers| == QUESTION_COUNT
    }

    predicate LessonCompleteShown()
      reads this
    {
      !loading && videoXpEarned && quizXpEarned
    }

    /** The start button is never offered before the video is credited. */
    lemma StartNeedsVideo()
      ensures StartQuizShown() ==> videoXpEarned
    {
    }

    /** An enabled submit button means every question has an answer. */
    lemma {:induction false} SubmitEnabledMeansAllAnswered()
      requires Valid()
      ensures SubmitEnabled() ==> forall i :: 0 <= i < QUESTION_COUNT ==> i in answers
    {
      if SubmitEnabled() {
        FullCountMeansAllAnswered(answers, QUESTION_COUNT);
      }
    }

    /** The effect that runs when the screen opens: without a signed-in user or
        a lesson id it returns at once, leaving the spinner up. */
    method LoadProgress()
      requires Valid()
      modifies this
      ensures Valid()
      ensures user.None? || lessonId == "" ==> unchanged(this)
      ensures user.Some? && lessonId != "" ==>
                && !loading
                && var k := ProgressKey(user.value, lessonId);
                   if k in db.progress then
                     var f := FlagsFromRow(db.progress[k]);
                     && videoWatched == f.videoEarned && videoXpEarned == f.videoEarned
                     && quizCompleted == f.quizCompleted && quizXpEarned == f.quizXpEarned
                   else
                     && videoWatched == old(videoWatched) && videoXpEarned == old(videoXpEarned)
                     && quizCompleted == old(quizCompleted) && quizXpEarned == old(quizXpEarned)
      ensures quizStarted == old(quizStarted) && currentQuestion == old(currentQuestion)
      ensures answers == old(answers) && showResults == old(showResults) && score == old(score)
    {
      if user.None? || lessonId == "" {
        return;
      }
      loading := true;
      var k := ProgressKey(user.value, lessonId);
      if k in db.progress {
        var f := FlagsFromRow(db.progress[k]);
        videoWatched, videoXpEarned := f.videoEarned, f.videoEarned;
        quizCompleted, quizXpEarned := f.quizCompleted, f.quizXpEarned;
      }
      loading := false;
    }

    /** `awardXp`: read-modify-write of the signed-in user's profile. */
    method AwardXp(delta: int)
      requires Valid() && user.Some?
      modifies db`profiles, db`writes
      ensures Valid()
      ensures db.profiles == AwardIn(old(db.profiles), user.value, delta)
      ensures db.writes == old(db.writes) +
                (if user.value in old(db.profiles) then [UpdateProfile(user.value)] else [])
    {
      var u := user.value;
      if u in db.profiles {
        db.UpdateProfileRow(u, Awarded(db.profiles[u], delta));
      }
    }

    /** "Mark as Watched": credits the video once; a second call does nothing. */
    method HandleVideoComplete()
      requires Valid()
      modifies this, db`progress, db`profiles, db`writes
      ensures Valid()
      ensures user.None? || old(videoXpEarned) ==>
                unchanged(this) && unchanged(db)
      ensures user.Some? && !old(videoXpEarned) ==>
                && videoWatched && videoXpEarned
                && db.progress == old(db.progress)[ProgressKey(user.value, lessonId) := VideoCreditRow(user.value, lessonId)]
                && db.profiles == AwardIn(old(db.profiles), user.value, LessonsData.VIDEO_XP)
                && db.writes == old(db.writes) + [UpsertProgress(ProgressKey(user.value, lessonId))]
                                + (if user.value in old(db.profiles) then [UpdateProfile(user.value)] else [])
      ensures quizStarted == old(quizStarted) && quizCompleted == old(quizCompleted)
      ensures quizXpEarned == old(quizXpEarned) && currentQuestion == old(currentQuestion)
      ensures answers == old(answers) && showResults == old(showResults)
      ensures score == old(score) && loading == old(loading)
    {
      if user.None? || videoXpEarned {
        return;
      }
      videoWatched := true;
      videoXpEarned := true;
      db.UpsertProgressRow(VideoCreditRow(user.value, lessonId));
      AwardXp(LessonsData.VIDEO_XP);
    }

    /** Pressing "Mark as Watched" twice credits the video and its XP once. */
    method VideoCreditedOnce()
      requires Valid() && user.Some? && !videoXpEarned
      modifies this, db`progress, db`profiles, db`writes
      ensures Valid()
      ensures db.progress == old(db.progress)[ProgressKey(user.value, lessonId) := VideoCreditRow(user.value, lessonId)]
      ensures db.profiles == AwardIn(old(db.profiles), user.value, LessonsData.VIDEO_XP)
    {
      HandleVideoComplete();
      HandleVideoComplete();
    }

    /** "Start Quiz". */
    method StartQuiz()
      requires Valid() && StartQuizShown()
      modifies this`quizStarted
      ensures Valid()
      ensures quizStarted && QuestionPanelShown()
    {
      quizStarted := true;
    }

    /** Choosing an option for the current question; ignored while results are shown. */
    method HandleAnswer(answerIndex: int)
      requires Valid()
      modifies this`answers
      ensures Valid()
      ensures answers == if old(showResults) then old(answers) else old(answers)[currentQuestion := answerIndex]
    {
      if showResults {
        return;
      }
      answers := answers[currentQuestion := answerIndex];
    }

    /** "Next", offered before the last question and enabled once the current one is answered. */
    method NextQuestion()
      requires Valid() && NextShown() && NextEnabled()
      modifies this`currentQuestion
      ensures Valid()
      ensures currentQuestion == old(currentQuestion) + 1
    {
      currentQuestion := currentQuestion + 1;
    }

    /** "Previous", offered after the first question. */
    method PreviousQuestion()
      requires Valid() && QuestionPanelShown() && currentQuestion > 0
      modifies this`currentQuestion
      ensures Valid()
      ensures currentQuestion == old(currentQuestion) - 1
    {
      currentQuestion := currentQuestion - 1;
    }

    /** "Submit Quiz": scores the answers, records the attempt, and awards the
        quiz XP only for a perfect score. The question panel closes, and as
        `quizStarted` stays set the results panel stays hidden too. */
    method HandleQuizSubmit(now: Timestamp)
      requires Valid()
      modifies this, db`progress, db`profiles, db`writes
      ensures Valid()
      ensures user.None? ==> unchanged(this) && unchanged(db)
      ensures user.Some? ==>
                var pct := TrackerScore(old(answers));
                var k := ProgressKey(user.value, lessonId);
                && score == pct && showResults && quizCompleted
                && quizXpEarned == (old(quizXpEarned) || pct == 100)
                && db.progress == old(db.progress)[k := QuizResultRow(user.value, lessonId, pct, now)]
                && db.profiles == (if pct == 100 then AwardIn(old(db.profiles), user.value, LessonsData.QUIZ_XP)
                                   else old(db.profiles))
                && db.writes == old(db.writes) + [UpsertProgress(k)]
                                + (if pct == 100 && user.value in old(db.profiles) then [UpdateProfile(user.value)] else [])
                && !QuestionPanelShown()
                && (old(quizStarted) ==> !ResultPanelShown() && !StartQuizShown())
      ensures videoWatched == old(videoWatched) && videoXpEarned == old(videoXpEarned)
      ensures quizStarted == old(quizStarted) && currentQuestion == old(currentQuestion)
      ensures answers == old(answers) && loading == old(loading)
    {
      if user.None? {
        return;
      }
      KeyFacts();
      var correctCount := CountCorrectAnswers(KEY, answers);
      var scorePercentage := RoundedPercent(correctCount, QUESTION_COUNT);
      score := scorePercentage;
      showResults := true;
      var isPerfectScore := scorePercentage == 100;
      quizCompleted := true;
      if isPerfectScore {
        quizXpEarned := true;
      }
      db.UpsertProgressRow(QuizResultRow(user.value, lessonId, scorePercentage, now));
      if isPerfectScore {
        AwardXp(LessonsData.QUIZ_XP);
      }
    }

    /** "Try Again": clears the attempt. `quizCompleted` is kept, so the start
        button cannot come back and the quiz cannot be taken again in this
        session. */
    method HandleRetryQuiz()
      requires Valid()
      modifies this
      ensures Valid()
      ensures answers == map[] && !showResults && score == 0 && currentQuestion == 0 && !quizXpEarned
      ensures videoWatched == old(videoWatched) && videoXpEarned == old(videoXpEarned)
      ensures quizStarted == old(quizStarted) && quizCompleted == old(quizCompleted) && loading == old(loading)
      ensures old(quizCompleted) ==> !StartQuizShown() && !QuestionPanelShown()
    {
      answers := map[];
      showResults := false;
      score := 0;
      currentQuestion := 0;
      quizXpEarned := false;
    }
  }
}
