# Progression engine of a finance-learning app, in Dafny

This project models the progression engine of a finance-learning web app. Learners work through courses. A course is made of units, which the screens also call modules, and each unit holds lessons. A lesson has a video and possibly a quiz.

The model covers:

- **Lessons and XP.** Finishing lessons earns XP. XP gives a level at 100 XP per level. Activity on consecutive days builds a streak.
- **Lesson order.** The lesson list of a unit shows each lesson as completed, current or locked.
- **Rewards.** Rewards can be requested once the balance covers their cost.
- **Admin editor.** Administrators create and number units and lessons and edit the quiz questions.
- **List screens.** The catalogue and the user list filter with a case-insensitive search.
- **Navigation.** The two navigation bars highlight the link of the current path.

The database is modelled as in-memory tables on one `Tables.Backend` object. Its methods append to a log of the writes a screen performs. Each screen that keeps state is a class whose fields are the screen's state variables. Its event handlers are methods that change those fields and the tables. The rules those handlers follow are pure functions, and lemmas relate them to the library rules in `src/lib`.

Modules:

- `Common`: `Option`, `filter`, `find`, a JavaScript-style `%`, and `order(...)` as an insertion sort.
- `Text`: ASCII `toLowerCase`, `includes`, `startsWith`, `trim`.
- `Tables`: the rows and the database.
- `LessonUtils`: `src/lib/lessonUtils.ts`.
- `LessonsData`: `src/lib/lessons-data.ts`.
- `QuizScoring`: `Math.round` of a percentage, and answer counting.
- `LessonXpTracker`: `src/components/LessonXpTracker.tsx`.
- `LessonPage`: `src/pages/LessonPage.tsx`.
- `CoursePage`: `src/pages/CoursePage.tsx`.
- `ModuleCard`: `src/components/ModuleCard.tsx`.
- `CourseDetailView`: `src/components/CourseDetailView.tsx`.
- `Rewards`: `src/pages/Rewards.tsx`.
- `Profile`: `src/pages/Profile.tsx`.
- `Academy`: `src/pages/Academy.tsx`.
- `AdminLessons`: `src/pages/admin/AdminLessons.tsx`.
- `AdminUsers`: `src/pages/admin/AdminUsers.tsx`.
- `AdminLayout`: `src/pages/admin/AdminLayout.tsx`.
- `BottomNav`: `src/components/BottomNav.tsx`.

Dates are day numbers and instants are integers. The clock is a parameter (`today`, `now`), so "yesterday" is `today - 1`.

## Model

| member | source | states |
|---|---|---|
| LessonUtils.IsLessonLocked | src/lib/lessonUtils.ts:12-31 | lesson 0 and any index with no lesson before it are open; otherwise locked exactly when the previous lesson is not completed |
| LessonUtils.LockDependsOnlyOnPredecessor | src/lib/lessonUtils.ts:28-30 | progress maps that agree on the previous lesson give the same lock answer |
| LessonUtils.ThreeLessonUnitExample | src/lib/lessonUtils.ts:18-30 | with the first lesson done and the second not, lessons 0 and 1 are open and lesson 2 is locked |
| LessonUtils.CalculateLevel | src/lib/lessonUtils.ts:39-41 | the level is the one whose 100-XP band holds the XP: (level-1)*100 <= xp < level*100 |
| LessonUtils.LevelIsPositiveAndMonotone | src/lib/lessonUtils.ts:39-41 | for non-negative XP the level is at least 1 and never decreases as XP grows |
| LessonUtils.LevelExamples | src/lib/lessonUtils.ts:39-41 | 0 and 99 XP are level 1, 100 XP is level 2, 250 XP is level 3 |
| LessonUtils.BelowNextLevelThreshold | src/lib/lessonUtils.ts:48-50 | the next-level threshold of the current level lies above the XP, by at most 100 |
| LessonUtils.XpForNextLevel | src/lib/lessonUtils.ts:48-50 | getXpForNextLevel: the threshold is exactly the XP at which the next level begins (one XP less is still the current level); BelowNextLevelThreshold places it above the XP |
| LessonUtils.XpInCurrentLevel | src/lib/lessonUtils.ts:55-60 | for non-negative XP the "XP in level" is the whole XP, below the next-level threshold (the remainder by level*100 never wraps); below -100 XP it lies between the (negative) threshold and 0 |
| LessonUtils.XpInLevelAtLevelUp | src/lib/lessonUtils.ts:55-60 | 90 XP plus 10 gives level 2 with 100 XP shown in the level, not 0 |
| LessonUtils.XpProgressPercentage | src/lib/lessonUtils.ts:67-72 | for every XP outside -100..-1 the percentage lies in [0,100) and is 100 * (XP in level) / (next-level threshold); for non-negative XP that is 100 * xp / (level * 100) |
| LessonUtils.UpdateStreak | src/lib/lessonUtils.ts:80-97 | same day keeps the streak; yesterday adds one; anything else (including no date) breaks it and restarts at 1, and only that case reports broken |
| LessonUtils.StreakExamples | src/lib/lessonUtils.ts:80-97 | first activity, same day, next day and a gap give 1/broken, unchanged, +1 and 1/broken |
| LessonUtils.StreakSameDayIdempotent | src/lib/lessonUtils.ts:80-97 | running the rule again on the same day with the stored date leaves the streak as it is |
| LessonsData.GetCourseById | src/lib/lessons-data.ts:144-146 | a found course is in the catalogue with that id; nothing is found exactly when no course has that id |
| LessonsData.GetModuleById | src/lib/lessons-data.ts:149-153 | a module is found only inside a found course and carries the requested id; in a found course it is missing exactly when no module has the id, and otherwise is the first module with it |
| LessonsData.GetLessonById | src/lib/lessons-data.ts:155-158 | a lesson is found only inside the module the module lookup finds; in a found module it is missing exactly when no lesson has the id, and otherwise is the first lesson with it |
| LessonsData.LessonFoundInItsModule | src/lib/lessons-data.ts:155-158 | a catalogue lesson is found under its own module |
| LessonsData.LessonNotFoundUnderOtherModule | src/lib/lessons-data.ts:155-158 | the same lesson is not found under another module |
| LessonsData.ModuleOfMissingCourse | src/lib/lessons-data.ts:149-153 | an unknown course yields no module |
| LessonsData.ModuleLookups | src/lib/lessons-data.ts:149-153 | the first two modules of the built-in course are found by their ids |
| LessonsData.TotalIsSumOverAllLessons | src/lib/lessons-data.ts:161-167 | the nested reduce equals the sum of the rewards of all lessons of the course |
| LessonsData.TotalCourseXp | src/lib/lessons-data.ts:161-167 | getTotalCourseXP: the total equals the sum of the rewards of all lessons, module after module (proved by TotalIsSumOverAllLessons) |
| LessonsData.UniformRewardTotal | src/lib/lessons-data.ts:161-167 | lessons all worth r XP total r times their number |
| LessonsData.BasicsOfMoneyTotal | src/lib/lessons-data.ts:50-141 | the built-in course has six 10-XP lessons and totals 60 XP |
| LessonsData.ShouldModuleUnlock | src/lib/lessons-data.ts:170-182 | every module unlocks, for every index and progress |
| LessonsData.LockFlagsDisagreeWithUnlockRule | src/lib/lessons-data.ts:61-117 | the static flags lock modules 3 and 4 while the unlock rule opens them |
| LessonsData.DefaultQuizWellFormed | src/lib/lessons-data.ts:192-226 | three questions of four options whose correct answers index an option, key [1,2,1] |
| QuizScoring.RoundedPercent | src/pages/LessonPage.tsx:66 | the integer percentage is the nearest to 100*correct/total with halves rounded up, and lies in 0..100 |
| QuizScoring.RoundingIsUnique | src/pages/LessonPage.tsx:66 | any integer meeting the round-half-up inequalities is the rounded percentage |
| QuizScoring.PassesIff | src/pages/LessonPage.tsx:71 | the rounded score reaches 70 exactly when 200*correct >= 139*total (at least 69.5%) |
| QuizScoring.PerfectIff | src/components/LessonXpTracker.tsx:130-134 | below 200 questions the score rounds to 100 exactly when every answer is correct |
| QuizScoring.PerfectNeedsFewerThan200Questions | src/components/LessonXpTracker.tsx:130-134 | with 200 questions, 199 correct answers already round to 100 |
| QuizScoring.ThreeQuestionScores | src/components/LessonXpTracker.tsx:130 | a three-question quiz scores 0, 33, 67 or 100 for 0..3 correct |
| QuizScoring.CountCorrectIsTotalIff | src/components/LessonXpTracker.tsx:123-128 | the count equals the number of questions exactly when each is answered with the key's option |
| QuizScoring.CountCorrect | src/pages/LessonPage.tsx:63-65 | the number of questions answered with the key's option, never more than the questions; CountCorrectIsTotalIff states when it is the full count |
| QuizScoring.NoAnswersNoneCorrect | src/pages/LessonPage.tsx:62-65 | an empty answer sheet has no correct answer |
| QuizScoring.CountCorrectAnswers | src/pages/LessonPage.tsx:62-65 | the forEach loop counts exactly the questions answered with the expected option |
| QuizScoring.FullCountMeansAllAnswered | src/components/LessonXpTracker.tsx:403 | answers keyed by question indices whose count equals the number of questions cover every question |
| LessonXpTracker.KeyFacts | src/components/LessonXpTracker.tsx:36-38 | the tracker's quiz has three questions with key [1,2,1] and the lesson is worth 25 XP |
| LessonXpTracker.Awarded | src/components/LessonXpTracker.tsx:76-83 | the award adds delta to the XP, recomputes the level from the new XP and leaves every other profile field alone |
| LessonXpTracker.AwardsAdd | src/components/LessonXpTracker.tsx:76-83 | two awards in a row equal one award of the sum |
| LessonXpTracker.AwardNeverLowersLevel | src/components/LessonXpTracker.tsx:76-83 | a non-negative award never lowers a consistent profile's level |
| LessonXpTracker.AwardIn | src/components/LessonXpTracker.tsx:67-85 | only the signed-in user's profile changes; a missing profile stays missing |
| LessonXpTracker.TrackerScore | src/components/LessonXpTracker.tsx:122-130 | the tracker's score lies in 0..100 and is 100 * correct / 3 rounded half up |
| LessonXpTracker.PerfectScoreIff | src/components/LessonXpTracker.tsx:124-134 | the score is 100 exactly when all three questions carry the key's answer |
| LessonXpTracker.TrackerScoreValues | src/components/LessonXpTracker.tsx:130 | the score is one of 0, 33, 67, 100 |
| LessonXpTracker.QuizResultRow | src/components/LessonXpTracker.tsx:141-153 | the stored row is completed, time-stamped and worth 25 XP exactly when the score is 100, else worth 10; it keeps the score |
| LessonXpTracker.FlagsFromRow | src/components/LessonXpTracker.tsx:53-59 | the video counts as earned when the row is completed or has XP; the quiz XP counts as earned when the score is 100 |
| LessonXpTracker.ReloadAfterWrites | src/components/LessonXpTracker.tsx:53-59 | after a video credit or a perfect quiz, reloading restores the session's flags; after an imperfect quiz it keeps the video credited but clears the `quizCompleted` flag the session had set, so the quiz can be started again |
| LessonXpTracker.Tracker.StartNeedsVideo | src/components/LessonXpTracker.tsx:171 | the start button is offered only once the video is credited |
| LessonXpTracker.Tracker.CanStartQuiz | src/components/LessonXpTracker.tsx:171 | canStartQuiz is the video-credit flag itself; StartNeedsVideo states its effect on the start button |
| LessonXpTracker.Tracker.SubmitEnabledMeansAllAnswered | src/components/LessonXpTracker.tsx:403 | an enabled submit button means every question has an answer |
| LessonXpTracker.Tracker.LoadProgress | src/components/LessonXpTracker.tsx:40-65 | without a user or lesson id nothing changes; otherwise the flags follow the stored row, if any, and loading ends |
| LessonXpTracker.Tracker.AwardXp | src/components/LessonXpTracker.tsx:67-85 | the profiles become AwardIn of the old ones and one profile update is logged |
| LessonXpTracker.Tracker.HandleVideoComplete | src/components/LessonXpTracker.tsx:87-112 | the first call by a signed-in user writes the video-credit row and awards 10 XP; later calls and anonymous calls change nothing |
| LessonXpTracker.Tracker.VideoCreditedOnce | src/components/LessonXpTracker.tsx:88 | two presses store one credit row and award the video XP once |
| LessonXpTracker.Tracker.StartQuiz | src/components/LessonXpTracker.tsx:277-279 | starting shows the question panel |
| LessonXpTracker.Tracker.HandleAnswer | src/components/LessonXpTracker.tsx:114-117 | records the option for the current question unless results are shown |
| LessonXpTracker.Tracker.NextQuestion | src/components/LessonXpTracker.tsx:392-395 | moves to the next question |
| LessonXpTracker.Tracker.PreviousQuestion | src/components/LessonXpTracker.tsx:382-385 | moves to the previous question |
| LessonXpTracker.Tracker.HandleQuizSubmit | src/components/LessonXpTracker.tsx:119-161 | scores the answers, upserts the result row and awards 15 XP only for 100% |
| LessonXpTracker.Tracker.HandleRetryQuiz | src/components/LessonXpTracker.tsx:163-169 | clears the attempt but keeps quizCompleted, so a completed quiz cannot be restarted |
| LessonPage.MatchAt | src/pages/LessonPage.tsx:55 | a match at a position exists exactly when one of the three markers is followed there by 11 id characters |
| LessonPage.SearchFrom | src/pages/LessonPage.tsx:55 | the search fails exactly when no position from k on matches, and otherwise returns the capture of a matching position |
| LessonPage.GetYouTubeId | src/pages/LessonPage.tsx:54-57 | a result is 11 id characters captured at a matching position; none exactly when no position matches |
| LessonPage.ShortLinkExample | src/pages/LessonPage.tsx:54-57 | the short-link form yields the eleven-character id |
| LessonPage.TooShortIdExample | src/pages/LessonPage.tsx:54-57 | a marker followed by fewer than eleven id characters yields nothing |
| LessonPage.EarnedXp | src/pages/LessonPage.tsx:73 | the reward is the lesson's when it is loaded and non-zero, and 10 in every other case; never 0 |
| LessonPage.InlineStreakIsUpdateStreak | src/pages/LessonPage.tsx:101-103 | the inline streak rule gives the library's updateStreak result |
| LessonPage.InlineStreak | src/pages/LessonPage.tsx:101-103 | the streak kept on the same day, one more after yesterday, and 1 otherwise, whatever order the checks are written in; InlineStreakIsUpdateStreak relates it to updateStreak |
| LessonPage.ProfileAfterCompletion | src/pages/LessonPage.tsx:94-113 | the profile after a completion is the XP award plus the streak rule and today's date |
| LessonPage.SameDayCompletionsAddXpNotStreak | src/pages/LessonPage.tsx:94-113 | two completions on one day add the XP twice and the streak once |
| LessonPage.CompleteIn | src/pages/LessonPage.tsx:93-114 | only the user's profile changes; a missing profile stays missing |
| LessonPage.KeyOf | src/pages/LessonPage.tsx:64 | the key lists each stored question's correct option |
| LessonPage.PageScore | src/pages/LessonPage.tsx:66 | the score is NaN (None) exactly for a quiz without questions, and otherwise lies in 0..100 and is 100 * correct / questions rounded half up |
| LessonPage.PassesIffCount | src/pages/LessonPage.tsx:71 | a submission passes exactly when there are questions and at least 69.5% are answered correctly |
| LessonPage.EmptySheetFails | src/pages/LessonPage.tsx:62-71 | an empty answer sheet never passes |
| LessonPage.LessonScreen.QuizAndMarkCompleteExclusive | src/pages/LessonPage.tsx:396 | the quiz and the Mark Complete button are never shown together |
| LessonPage.LessonScreen.AllAnsweredMeansEveryQuestion | src/pages/LessonPage.tsx:179-180 | an enabled submit button means every question has an answer |
| LessonPage.LessonScreen.Load | src/pages/LessonPage.tsx:25-52 | the lesson and quiz are read by id, and completed is set only by a completed progress row |
| LessonPage.LessonScreen.SelectAnswer | src/pages/LessonPage.tsx:304-308 | records the option unless the quiz is submitted, and keeps the answers within the questions |
| LessonPage.LessonScreen.HandleSubmitQuiz | src/pages/LessonPage.tsx:59-121 | without quiz or user nothing changes; a pass upserts the completed row and applies the profile completion; a fail writes nothing |
| LessonPage.LessonScreen.AwardCompletion | src/pages/LessonPage.tsx:87-114 | the profiles become CompleteIn of the old ones and one update is logged |
| LessonPage.LessonScreen.HandleRetry | src/pages/LessonPage.tsx:123-127 | clears answers, result and score |
| LessonPage.LessonScreen.HandleMarkComplete | src/pages/LessonPage.tsx:129-173 | a signed-in user gets the completed row and the profile completion, with no score written |
| CoursePage.CompletedMap | src/pages/CoursePage.tsx:33-42 | the map holds, as true, exactly the listed lessons the user has a completed row for |
| CoursePage.CompletedAtMostAll | src/pages/CoursePage.tsx:46-48 | at most all the course's lessons count as completed |
| CoursePage.ProgressPct | src/pages/CoursePage.tsx:46-48 | 0 without lessons; otherwise 100 * completed / total rounded half up, hence within 0..100 and 100 when all are completed |
| CoursePage.FirstIncompleteIn | src/pages/CoursePage.tsx:55-60 | none exactly when every lesson is completed; otherwise an incomplete lesson preceded only by completed ones |
| CoursePage.FirstIncomplete | src/pages/CoursePage.tsx:51-62 | the unit-by-unit search: an id it returns is not completed, and it finds nothing exactly when every lesson of the listed units is completed; FirstIncompleteIsFirstInCourseOrder places it in course order |
| CoursePage.FirstIncompleteIsFirstInCourseOrder | src/pages/CoursePage.tsx:51-62 | the unit-by-unit search finds the first incomplete lesson of the course order |
| CoursePage.FindIncompleteInUnit | src/pages/CoursePage.tsx:55-60 | the inner loop over a unit's lessons returns the first one not completed, or nothing |
| CoursePage.FindFirstIncompleteLesson | src/pages/CoursePage.tsx:51-62 | the nested loop with its breaks returns the specified first incomplete lesson |
| CoursePage.TileOf | src/pages/CoursePage.tsx:106-118 | completed, current or locked exactly by the three conditions; the link is always the lesson's page |
| CoursePage.AtMostOneCurrent | src/pages/CoursePage.tsx:106-108 | two different lessons are never both current |
| CoursePage.CurrentIsFirstIncomplete | src/pages/CoursePage.tsx:106-108 | the current tile is an incomplete lesson of the course order with every lesson before it completed |
| CoursePage.NextExpanded | src/pages/CoursePage.tsx:96 | the clicked unit ends up expanded exactly when it was not; otherwise nothing is expanded |
| CoursePage.DoubleClick | src/pages/CoursePage.tsx:96 | two clicks restore the state when the clicked unit or none was open, and close another open unit |
| CoursePage.CourseScreen.LoadUnits | src/pages/CoursePage.tsx:18-25 | the course's units sorted by sort_order, with the first one expanded |
| CoursePage.CourseScreen.LoadLessons | src/pages/CoursePage.tsx:27-31 | the lessons of the loaded units sorted by sort_order; nothing happens without units |
| CoursePage.CourseScreen.LoadProgress | src/pages/CoursePage.tsx:33-42 | the loop over the rows builds CompletedMap |
| CoursePage.CourseScreen.ToggleUnit | src/pages/CoursePage.tsx:96 | the expanded unit becomes NextExpanded |
| CoursePage.CourseScreen.CurrentLesson | src/pages/CoursePage.tsx:51-62 | the current lesson is the first incomplete one |
| CoursePage.CourseScreen.LoadedPercentageInRange | src/pages/CoursePage.tsx:46-48 | with loaded progress the percentage lies in 0..100 |
| ModuleCard.CompletedCount | src/components/ModuleCard.tsx:32-34 | the count is at most the number of lessons |
| ModuleCard.CompletedCountBounds | src/components/ModuleCard.tsx:32-34 | the count is full exactly when every lesson is completed, and 0 when none is |
| ModuleCard.FlagsAsWritten | src/components/ModuleCard.tsx:82-88 | completed follows the progress record; without order_index the lesson is never locked; with it the lock rule applies |
| ModuleCard.FlagsAt | src/components/ModuleCard.tsx:82-88 | with the position given, a lesson is locked exactly when it is not first and the one before is not completed |
| ModuleCard.FlagsAtFollowOrder | src/components/ModuleCard.tsx:84-88 | lessons up to the first incomplete one are open and the one after it is locked |
| ModuleCard.AsWrittenAgreesWhenIndexed | src/components/ModuleCard.tsx:84-88 | when order_index is the position, the written flags are the positional flags |
| ModuleCard.Card.Toggle | src/components/ModuleCard.tsx:41 | a click flips the open state |
| CourseDetailView.ProgressMapOf | src/components/CourseDetailView.tsx:70-76 | the map's keys are exactly the lesson ids of the rows |
| CourseDetailView.LastRowWins | src/components/CourseDetailView.tsx:70-76 | a row no later row of the same lesson follows is the one stored |
| CourseDetailView.BuildProgressMap | src/components/CourseDetailView.tsx:70-76 | the reduce loop builds ProgressMapOf |
| CourseDetailView.DistinctRowsAllKept | src/components/CourseDetailView.tsx:64-77 | with one row per lesson, every row is found under its lesson id |
| CourseDetailView.Badge | src/components/CourseDetailView.tsx:87-90 | the stored level (1 when absent or 0), a threshold of level*100, and for non-negative XP the remainder of the XP by that threshold: within it, equal to the XP below it, and what is left after whole thresholds once a lagging stored level lets the XP pass it |
| CourseDetailView.BadgeAgreesWithLibrary | src/components/CourseDetailView.tsx:87-90 | for a consistent profile the badge's XP in level equals getXpInCurrentLevel |
| CourseDetailView.BadgeUsesStoredLevel | src/components/CourseDetailView.tsx:87-90 | a stale level 1 with 250 XP shows 50 of 100 while the recomputed level is 3 |
| CourseDetailView.CardLessons | src/components/CourseDetailView.tsx:134-141 | each card lesson copies id, title and reward and has no order_index |
| CourseDetailView.Cards | src/components/CourseDetailView.tsx:134-141 | one card per module, numbered by position |
| CourseDetailView.DbLessonsNeverLocked | src/components/ModuleCard.tsx:84-88 | as written, no lesson shown by the view is ever locked |
| CourseDetailView.SecondLessonExample | src/components/ModuleCard.tsx:84-88 | with nothing completed the second lesson is unlocked as written and locked by position |
| CourseDetailView.CardFlags | src/components/ModuleCard.tsx:81-88 | each lesson of a card gets the positional flags |
| CourseDetailView.DetailScreen.LoadCourseData | src/components/CourseDetailView.tsx:32-84 | given the user's own progress rows: without a user nothing changes; otherwise the sorted units with their sorted lessons, the progress map of those rows, and loading off |
| Rewards.Balance | src/pages/Rewards.tsx:21 | the profile's XP, 0 without a profile |
| Rewards.ActiveRewards | src/pages/Rewards.tsx:14-16 | exactly the active rewards, in table order |
| Rewards.Decide | src/pages/Rewards.tsx:19-24 | not signed in exactly without a user; refused exactly when the balance is below the cost; requested otherwise |
| Rewards.ButtonMatchesGuard | src/pages/Rewards.tsx:81 | the button is enabled exactly when the handler's guard would request |
| Rewards.RedeemDisabled | src/pages/Rewards.tsx:81 | without a profile the button is disabled exactly for rewards that cost something; a free reward is never disabled for non-negative XP; ButtonMatchesGuard ties it to handleRedeem |
| Rewards.FreeRewardAlwaysRedeemable | src/pages/Rewards.tsx:21-24 | a reward costing nothing is requested for any signed-in user with non-negative XP |
| Rewards.RewardsScreen.HandleRedeem | src/pages/Rewards.tsx:19-35 | only a request writes, appending one pending redemption; the profile XP is never deducted |
| Rewards.RewardsScreen.RedeemTwice | src/pages/Rewards.tsx:19-35 | two clicks file two identical pending requests and leave profiles unchanged |
| Profile.CompletedRowsOf | src/pages/Profile.tsx:17 | exactly the user's completed rows, in order |
| Profile.StatsOf | src/pages/Profile.tsx:15-24 | a failed query shows zeros; otherwise the count is the number of rows |
| Profile.StatsGrow | src/pages/Profile.tsx:20-21 | one more completed row counts one more lesson and adds its XP |
| Profile.TotalXpBounds | src/pages/Profile.tsx:21 | rows worth 0..cap XP total between 0 and cap per lesson |
| Profile.VideoCreditNotCounted | src/pages/Profile.tsx:17 | an uncompleted row does not change the rows counted |
| Profile.ShownLevel | src/pages/Profile.tsx:53 | the stored level, 1 when absent or 0 |
| Profile.LevelLabels | src/pages/Profile.tsx:53-54 | the second label is the first plus one |
| Profile.BarValue | src/pages/Profile.tsx:60-64 | 0 without a profile; within 0..99 for non-negative XP |
| Profile.BarIsProgressWithinLevel | src/pages/Profile.tsx:60-64 | the bar is the XP earned since the level began, which differs from getXpInCurrentLevel from 100 XP on |
| Profile.Menu | src/pages/Profile.tsx:26-32 | the Admin Panel entry is present exactly for administrators and then comes first, and the lesson count is shown |
| Academy.Filtered | src/pages/Academy.tsx:21-25 | exactly the courses matching search and category, in order |
| Academy.Kept | src/pages/Academy.tsx:22-24 | a kept course is in the chosen category unless the chip is "All"; an empty search with "All" keeps every course |
| Academy.EmptySearchKeepsAll | src/pages/Academy.tsx:21-25 | an empty search with "All" lists every course |
| Academy.LongerSearchKeepsFewer | src/pages/Academy.tsx:21-25 | extending the search never brings back an excluded course |
| Academy.CategoryIsExact | src/pages/Academy.tsx:21-25 | the category test is case-sensitive while the title search is not |
| AdminUsers.Filtered | src/pages/admin/AdminUsers.tsx:15 | exactly the users whose name contains the search, ignoring case, in order |
| AdminUsers.NameMatches | src/pages/admin/AdminUsers.tsx:15 | only a user with a name can match, and an empty search matches every named user |
| AdminUsers.Total | src/pages/admin/AdminUsers.tsx:22 | the header count is the number of users and bounds every filtered list |
| AdminUsers.EmptySearchKeepsNamed | src/pages/admin/AdminUsers.tsx:15 | the empty search lists the users with a name; a nameless user never shows |
| BottomNav.HomeOnlyOnItsOwnPath | src/components/BottomNav.tsx:20 | Home is highlighted exactly on "/app" |
| BottomNav.IsActive | src/components/BottomNav.tsx:20 | an item is highlighted only on paths that start with its own, and Home only on "/app" itself |
| BottomNav.PrefixWithoutSeparator | src/components/BottomNav.tsx:20 | "/app/rewardsX" highlights Rewards; Home is not active below "/app" |
| BottomNav.NoItemPathIsPrefixOfAnother | src/components/BottomNav.tsx:5-11 | no item path after Home is a prefix of another |
| BottomNav.AtMostOneActive | src/components/BottomNav.tsx:5-20 | at most one item is highlighted for any path |
| AdminLayout.DashboardActiveBelowAdmin | src/pages/admin/AdminLayout.tsx:47 | the Dashboard link is highlighted on every page below "/admin" |
| AdminLayout.IsActive | src/pages/admin/AdminLayout.tsx:47 | a link is highlighted only on its own path or on a path that continues it with "/" |
| AdminLayout.TwoLinksAtOnce | src/pages/admin/AdminLayout.tsx:47 | on "/admin/courses" Dashboard and Courses are both highlighted |
| AdminLayout.SeparatorMatters | src/pages/admin/AdminLayout.tsx:47 | a page below Courses highlights it and "/admin/coursesX" does not |
| AdminLayout.AtMostOneBesideDashboard | src/pages/admin/AdminLayout.tsx:8-15 | no two links after the Dashboard are highlighted together |
| AdminLayout.Slice | src/pages/admin/AdminLayout.tsx:58 | the first min(end, length) elements |
| AdminLayout.MobileBarShowsAll | src/pages/admin/AdminLayout.tsx:58 | the mobile bar shows all six links |
| AdminLayout.Render | src/pages/admin/AdminLayout.tsx:26-27 | loading text exactly while loading; the admin pages exactly for a loaded administrator |
| AdminLayout.ContentIffNoRedirect | src/pages/admin/AdminLayout.tsx:22-27 | the pages show exactly when neither loading nor redirecting; a redirect renders nothing |
| AdminLessons.InsertKeepsNumbering | src/pages/admin/AdminLessons.tsx:66-67 | appending a lesson numbered by its unit's count keeps the unit numbered 0,1,2,… |
| AdminLessons.DeleteThenInsertRepeatsSortOrder | src/pages/admin/AdminLessons.tsx:66-79 | after deleting the middle of three lessons, a new lesson gets sort_order 2, which the third already has |
| AdminLessons.LoadedSiblingCount | src/pages/admin/AdminLessons.tsx:34 | the loaded list holds as many lessons of a listed unit as the table |
| AdminLessons.QuizValidIffTrimmedNonEmpty | src/pages/admin/AdminLessons.tsx:96 | a quiz is accepted exactly when every question text and option is non-empty after trimming |
| AdminLessons.QuizValid | src/pages/admin/AdminLessons.tsx:96 | an empty quiz is accepted and an accepted quiz has no empty question text; QuizValidIffTrimmedNonEmpty gives the exact test |
| AdminLessons.TemplateBlocksSaving | src/pages/admin/AdminLessons.tsx:96 | a quiz with a blank template question cannot be saved; an empty list can |
| AdminLessons.EditorQuestions | src/pages/admin/AdminLessons.tsx:84-93 | the stored questions when non-empty, else one template question; never empty |
| AdminLessons.RemoveAt | src/pages/admin/AdminLessons.tsx:104 | the list without position i, the rest in order; out of range leaves it unchanged |
| AdminLessons.RemoveKeepsValid | src/pages/admin/AdminLessons.tsx:104 | removing a question keeps a valid quiz valid |
| Tables.UnitIds | src/pages/admin/AdminLessons.tsx:34 | exactly the ids of the listed units |
| Tables.Backend.UpsertProgressRow | src/components/LessonXpTracker.tsx:93-103 | upsert on user_progress by (user_id, lesson_id): the row at its key is replaced or added, the rest kept, and the keying invariant preserved |
| Tables.Backend.UpdateProfileRow | src/components/LessonXpTracker.tsx:80-83 | update of profiles by user_id: an existing row is replaced, a missing row stays missing |
| Tables.Backend.InsertRedemptionRow | src/pages/Rewards.tsx:25-29 | insert into redemptions: the row is appended |
| Tables.Backend.InsertUnitRow | src/pages/admin/AdminLessons.tsx:43 | insert into units: the row is appended |
| Tables.Backend.DeleteLessonsOfUnitRows | src/pages/admin/AdminLessons.tsx:53 | delete from lessons by unit_id: exactly the other units' lessons remain, in order |
| Tables.Backend.DeleteUnitRow | src/pages/admin/AdminLessons.tsx:54 | delete from units by id: exactly the other units remain, in order |
| Tables.Backend.InsertLessonRow | src/pages/admin/AdminLessons.tsx:67 | insert into lessons: the row is appended |
| Tables.Backend.UpdateLessonRows | src/pages/admin/AdminLessons.tsx:63 | update of lessons by id: every row with that id is changed in place, the others kept |
| Tables.Backend.DeleteQuizOfLessonRow | src/pages/admin/AdminLessons.tsx:78 | delete from quizzes by lesson_id: that lesson's quiz is removed, the rest kept |
| Tables.Backend.DeleteLessonRow | src/pages/admin/AdminLessons.tsx:79 | delete from lessons by id: exactly the other lessons remain, in order |
| Tables.Backend.UpsertQuizRow | src/pages/admin/AdminLessons.tsx:98 | upsert on quizzes by lesson_id: the quiz at its key is replaced or added and the keying invariant preserved |
| Tables.CourseUnits | src/pages/admin/AdminLessons.tsx:31 | the units query: the course's units, a permutation of the filtered table sorted by sort_order |
| Tables.LessonsOfUnits | src/pages/admin/AdminLessons.tsx:34 | the lessons query: the lessons whose unit is listed, a permutation of the filtered table sorted by sort_order |
| Tables.LessonsOfUnit | src/pages/admin/AdminLessons.tsx:66 | exactly the table's lessons of one unit |
| AdminLessons.Refetch | src/pages/admin/AdminLessons.tsx:27-37 | the lists a refetch leaves: unchanged without a course id; otherwise the course's units by sort_order, and the lessons of those units by sort_order only when there are units (else the old lessons stay) |
| AdminLessons.RefetchIdempotent | src/pages/admin/AdminLessons.tsx:27-37 | refetching twice from the same tables gives the same lists |
| AdminLessons.LastUnitDeletedKeepsStaleLessons | src/pages/admin/AdminLessons.tsx:33-36 | after deleting the last unit the refetch empties the units but keeps the deleted unit's lessons in the editor's `lessons` list, where nothing displays them |
| AdminLessons.Editor.FetchAll | src/pages/admin/AdminLessons.tsx:27-37 | the lists become the refetch of the tables: the sorted units, and their sorted lessons only when there are units; nothing without a course id |
| AdminLessons.Editor.CreateUnit | src/pages/admin/AdminLessons.tsx:41-48 | a blank title is refused; otherwise one unit numbered by the current count is inserted, the dialog closes and the lists are refetched |
| AdminLessons.Editor.DeleteUnit | src/pages/admin/AdminLessons.tsx:50-57 | after confirmation, the unit's lessons and then the unit are deleted and the lists refetched; the quizzes table is not touched (foreign keys not modelled, see Left out) |
| AdminLessons.Editor.SaveLesson | src/pages/admin/AdminLessons.tsx:59-74 | refused for a blank title or no unit; an edit keeps id and sort order; a new lesson is numbered by its unit's loaded count; after a save the lists are refetched |
| AdminLessons.FormOf | src/pages/admin/AdminLessons.tsx:194-197 | the form filled from a row keeps its unit, reads a null video URL as "", and saved back unchanged rewrites a row with a video URL as it was |
| AdminLessons.Editor.EditLesson | src/pages/admin/AdminLessons.tsx:192-199 | the pencil button: the lesson being edited, the form filled from its row, and the dialog open |
| AdminLessons.Editor.DeleteLesson | src/pages/admin/AdminLessons.tsx:76-82 | after confirmation, the quiz and then the lesson are deleted and the lists refetched |
| AdminLessons.Editor.OpenQuizEditor | src/pages/admin/AdminLessons.tsx:84-93 | the editor opens on that lesson's EditorQuestions |
| AdminLessons.Editor.SaveQuiz | src/pages/admin/AdminLessons.tsx:95-101 | saves exactly a valid quiz, upserting it under the lesson id and closing |
| AdminLessons.Editor.AddQuestion | src/pages/admin/AdminLessons.tsx:103 | one template question is appended |
| AdminLessons.Editor.RemoveQuestion | src/pages/admin/AdminLessons.tsx:104 | the list becomes RemoveAt, and at least one question is left when the button was shown |
| AdminLessons.Editor.SetQuestionText | src/pages/admin/AdminLessons.tsx:227-228 | only that question's text changes |
| AdminLessons.Editor.SetCorrect | src/pages/admin/AdminLessons.tsx:236 | only that question's correct option changes |
| AdminLessons.Editor.SetOption | src/pages/admin/AdminLessons.tsx:239-240 | only that option of that question changes |
| AdminLessons.Editor.NewLessonNumber | src/pages/admin/AdminLessons.tsx:66-67 | on a loaded editor the new lesson's number is its unit's count in the table |
| Common.SortBy | src/pages/CoursePage.tsx:21 | the result is ordered by the key and is a permutation of the input |
| Text.BlankIffTrimEmpty | src/pages/admin/AdminLessons.tsx:42 | the trimmed string is empty exactly when the string is all white space |
| Text.LongerSearchNarrows | src/pages/admin/AdminUsers.tsx:15 | a string matching a longer search matches its prefix |
| Text.SearchIgnoresCase | src/pages/admin/AdminUsers.tsx:15 | the search answers the same for a search typed in any case |
| Text.EmptySearchMatches | src/pages/Academy.tsx:22 | the empty search matches every string |

## Left out

- AdminLessons.Editor.DeleteUnit, AdminLessons.Editor.DeleteLesson, Tables.Backend.DeleteLessonsOfUnitRows, Tables.Backend.DeleteLessonRow: the schema's foreign keys (quizzes.lesson_id, user_progress.lesson_id, lessons.unit_id) are not enforced. A delete that the database would refuse, or would cascade, is modelled as succeeding, and the quiz and progress rows that point at the deleted lesson are left in place.
- The database is in-memory tables. Network errors, failed queries (apart from the profile stats) and the asynchronous interleaving of requests and renders are not modelled. Each handler runs to completion atomically.
- Rows that share a sort key come out of the model's `order(...)` in insertion order. The real database leaves that order unspecified.
- The clock is a parameter: dates are day numbers and timestamps are integers. ISO date strings and time zones are not modelled.
- Floating point: `getXpProgressPercentage` is computed on exact rationals, and `Math.round` of a percentage is computed on integers. Rounding errors of doubles are not modelled.
- `toLowerCase` and `trim` cover ASCII letters and ASCII white space only. There is no Unicode case folding and no Unicode white space.
- Rendering is not modelled: JSX, animations, toasts, icons, colours, the course header and the "Loading..." gates of each screen. Only the conditions under which buttons are shown or enabled are modelled.
- Navigation side effects are not modelled: the admin redirect's `navigate("/app")` is a predicate, and links are strings.
- LessonXpTracker.Tracker.HandleVideoComplete: the optional `onVideoComplete` callback into the parent is not modelled.
- LessonPage.LessonScreen.Load: the `videoWatched` state is set nowhere in the screen and is not modelled. The YouTube id is computed by `GetYouTubeId` and is not stored.
- LessonXpTracker.Awarded, LessonPage.EarnedXp: `(profile.xp || 0)` and `xp_reward || 10` treat a missing value as 0 or 10. Non-numeric values and `NaN` are not modelled.
- LessonUtils.XpInCurrentLevel: XP from -100 to -1 gives level 0 and a division by zero (`NaN`) in the original. The model requires XP outside that range instead.
- LessonUtils.XpProgressPercentage: for XP from -100 to -1 the original returns `NaN` (0 / 0 times 100). The model requires XP outside that range and says nothing about `NaN`.
- AdminLessons.Editor.SaveLesson: the transcripts of the lesson form and the `Number(...)` coercion of `xp_reward` are not modelled. The reward is an integer already.
- AdminLessons.Editor.OpenQuizEditor: a stored `questions` value that is not an array (the `Array.isArray` test) is not modelled. Stored questions are always a list.
- AdminLessons.Editor.SetQuestionText, AdminLessons.Editor.SetCorrect, AdminLessons.Editor.SetOption: the original mutates the question objects in place through a shallow copy of the list. The model replaces the question value in the list, so the aliasing between the old and new list is not captured.
- Rewards.RewardsScreen.HandleRedeem: the error branch of the insert is not modelled. The insert always succeeds.
- CoursePage.FindFirstIncompleteLesson: the outer loop's `if (firstIncompleteLessonId) break` treats an empty-string id as "not found". The model assumes ids are non-empty and does not capture that case.
- The course row of CoursePage and AdminLessons (title, colour, icon) is only displayed and is not modelled.

## Findings

| source | as written | input that shows it | evidently intended | confidence | as-written member | corrected member |
|---|---|---|---|---|---|---|
| src/components/ModuleCard.tsx:84-88 | the lock rule is given `lesson.order_index`, which the database lessons passed in by the course detail view do not have, so `isLessonLocked(undefined, …)` answers "not locked" for every lesson | a unit of two lessons with nothing completed: the second lesson is shown unlocked | the lesson's position in the unit is given to the lock rule, so a lesson opens only after the previous one is completed | not executed | ModuleCard.FlagsAsWritten (with CourseDetailView.DbLessonsNeverLocked and CourseDetailView.SecondLessonExample) | ModuleCard.FlagsAt (with ModuleCard.FlagsAtFollowOrder and CourseDetailView.CardFlags) |
