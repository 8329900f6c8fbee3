/** The built-in course catalogue of `src/lib/lessons-data.ts`: the XP
    constants, the "Basics of Money" course, the lookup helpers, the total XP
    of a course, the module unlock rule and the default quiz. Descriptions,
    icons and colours are display text and are not modelled. */
module LessonsData {
  import opened Common

  const VIDEO_XP: int := 10
  const QUIZ_XP: int := 15

  datatype Lesson = Lesson(id: string, title: string, videoId: string, duration: string, xpReward: int)

  datatype CourseModule = CourseModule(id: string, title: string, lessons: seq<Lesson>, isLocked: bool)

  datatype Course = Course(id: string, title: string, modules: seq<CourseModule>)

  const BASICS_OF_MONEY_COURSE: Course := Course(
    "basics-of-money", "Basics of Money", [
      CourseModule("module-1", "Understanding Money", [
        Lesson("lesson-1-1", "What is Money?", "VxmTTvGezro", "5:30", VIDEO_XP)
      ], false),
      CourseModule("module-2", "Savings & Goals", [
        Lesson("lesson-2-1", "Why Saving Matters", "QQgOJoZduRc", "6:15", VIDEO_XP),
        Lesson("lesson-2-2", "Savings Goals for Kids", "v-mlEQ7KW5Q", "4:45", VIDEO_XP)
      ], false),
      CourseModule("module-3", "Needs vs Wants", [
        Lesson("lesson-3-1", "Needs vs Wants", "J0GVg3-2rUY", "7:00", VIDEO_XP)
      ], true),
      CourseModule("module-4", "Advanced Concepts", [
        Lesson("lesson-4-1", "What is Compound Interest?", "d-mKp1qZjek", "8:30", VIDEO_XP),
        Lesson("lesson-4-2", "What is Inflation?", "3I81-P_lwvw", "6:45", VIDEO_XP)
      ], true)
    ])

  const COURSES: seq<Course> := [BASICS_OF_MONEY_COURSE]

  /** `getCourseById`: the first course of the catalogue with that id. */
  function GetCourseById(courseId: string): (r: Option<Course>)
    ensures r.Some? ==> r.value in COURSES && r.value.id == courseId
    ensures r.None? <==> forall i :: 0 <= i < |COURSES| ==> COURSES[i].id != courseId
  {
    Find(COURSES, (c: Course) => c.id == courseId)
  }

  /** `getModuleById`: the first module with that id in the course with that id. */
  function GetModuleById(courseId: string, moduleId: string): (r: Option<CourseModule>)
    ensures r.Some? ==> GetCourseById(courseId).Some?
                        && r.value in GetCourseById(courseId).value.modules
                        && r.value.id == moduleId
    ensures GetCourseById(courseId).None? ==> r.None?
    ensures GetCourseById(courseId).Some? ==>
              var modules := GetCourseById(courseId).value.modules;
              && (r.None? <==> forall i :: 0 <= i < |modules| ==> modules[i].id != moduleId)
              && (r.Some? ==> exists i :: 0 <= i < |modules| && modules[i] == r.value
                                        && forall j :: 0 <= j < i ==> modules[j].id != moduleId)
  {
    var course := GetCourseById(courseId);
    if course.None? then None
    else Find(course.value.modules, (m: CourseModule) => m.id == moduleId)
  }

  /** `getLessonById`: the first lesson with that id in the module found by `getModuleById`. */
  function GetLessonById(courseId: string, moduleId: string, lessonId: string): (r: Option<Lesson>)
    ensures r.Some? ==> GetModuleById(courseId, moduleId).Some?
                        && r.value in GetModuleById(courseId, moduleId).value.lessons
                        && r.value.id == lessonId
    ensures GetModuleById(courseId, moduleId).None? ==> r.None?
    ensures GetModuleById(courseId, moduleId).Some? ==>
              var lessons := GetModuleById(courseId, moduleId).value.lessons;
              && (r.None? <==> forall i :: 0 <= i < |lessons| ==> lessons[i].id != lessonId)
              && (r.Some? ==> exists i :: 0 <= i < |lessons| && lessons[i] == r.value
                                        && forall j :: 0 <= j < i ==> lessons[j].id != lessonId)
  {
    var m := GetModuleById(courseId, moduleId);
    if m.None? then None
    else Find(m.value.lessons, (l: Lesson) => l.id == lessonId)
  }

  /** A lesson is found under its own module. */
  lemma LessonFoundInItsModule()
    ensures GetLessonById("basics-of-money", "module-2", "lesson-2-2")
            == Some(Lesson("lesson-2-2", "Savings Goals for Kids", "v-mlEQ7KW5Q", "4:45", VIDEO_XP))
  {
    ModuleLookups();
    assert BASICS_OF_MONEY_COURSE.modules[1].lessons[0].id != "lesson-2-2";
  }

  /** The catalogue's lookup of a lesson by the wrong module fails. */
  lemma LessonNotFoundUnderOtherModule()
    ensures GetLessonById("basics-of-money", "module-1", "lesson-2-2") == None
  {
    ModuleLookups();
    assert BASICS_OF_MONEY_COURSE.modules[0].lessons[0].id != "lesson-2-2";
  }

  /** No module is found in a course that does not exist. */
  lemma ModuleOfMissingCourse()
    ensures GetModuleById("no-such-course", "module-1") == None
  {
  }

  /** The first two modules of the built-in course are found by their ids. */
  lemma ModuleLookups()
    ensures GetModuleById("basics-of-money", "module-1") == Some(BASICS_OF_MONEY_COURSE.modules[0])
    ensures GetModuleById("basics-of-money", "module-2") == Some(BASICS_OF_MONEY_COURSE.modules[1])
  {
    assert GetCourseById("basics-of-money") == Some(BASICS_OF_MONEY_COURSE);
    assert BASICS_OF_MONEY_COURSE.modules[0].id != "module-2";
  }

  /** The inner `reduce`: the XP of the lessons of one module. */
  function ModuleXp(lessons: seq<Lesson>): int {
    if lessons == [] then 0 else lessons[0].xpReward + ModuleXp(lessons[1..])
  }

  /** The outer `reduce` of `getTotalCourseXP`, over the modules. */
  function ModulesXp(modules: seq<CourseModule>): int {
    if modules == [] then 0 else ModuleXp(modules[0].lessons) + ModulesXp(modules[1..])
  }

  /** `getTotalCourseXP`. */
  function TotalCourseXp(course: Course): (total: int)
    ensures total == ModuleXp(AllLessons(course.modules))
  {
    TotalIsSumOverAllLessons(course.modules);
    ModulesXp(course.modules)
  }

  /** All the lessons of a course, module after module. */
  function AllLessons(modules: seq<CourseModule>): seq<Lesson> {
    if modules == [] then [] else modules[0].lessons + AllLessons(modules[1..])
  }

  lemma {:induction false} ModuleXpAppend(a: seq<Lesson>, b: seq<Lesson>)
    ensures ModuleXp(a + b) == ModuleXp(a) + ModuleXp(b)
  {
    if a == [] {
      assert a + b == b;
    } else {
      assert (a + b)[1..] == a[1..] + b;
      ModuleXpAppend(a[1..], b);
    }
  }

  /** The nested sum is the sum of the XP rewards of all the lessons of the
      course, however they are grouped into modules. */
  lemma {:induction false} TotalIsSumOverAllLessons(modules: seq<CourseModule>)
    ensures ModulesXp(modules) == ModuleXp(AllLessons(modules))
  {
    if modules != [] {
      TotalIsSumOverAllLessons(modules[1..]);
      ModuleXpAppend(modules[0].lessons, AllLessons(modules[1..]));
    }
  }

  /** When every lesson is worth the same, the total is that reward times the number of lessons. */
  lemma {:induction false} UniformRewardTotal(lessons: seq<Lesson>, reward: int)
    requires forall i :: 0 <= i < |lessons| ==> lessons[i].xpReward == reward
    ensures ModuleXp(lessons) == reward * |lessons|
  {
    if lessons != [] {
      UniformRewardTotal(lessons[1..], reward);
    }
  }

  /** The built-in course has six video lessons of 10 XP each: 60 XP in total. */
  lemma BasicsOfMoneyTotal()
    ensures |AllLessons(BASICS_OF_MONEY_COURSE.modules)| == 6
    ensures TotalCourseXp(BASICS_OF_MONEY_COURSE) == 6 * VIDEO_XP == 60
  {
    var ms := BASICS_OF_MONEY_COURSE.modules;
    assert AllLessons(ms[3..]) == ms[3].lessons by {
      assert ms[3..][1..] == [];
    }
    assert AllLessons(ms[2..]) == ms[2].lessons + ms[3].lessons by {
      assert ms[2..][1..] == ms[3..];
    }
    assert AllLessons(ms[1..]) == ms[1].lessons + ms[2].lessons + ms[3].lessons by {
      assert ms[1..][1..] == ms[2..];
    }
    var all := AllLessons(ms);
    assert all == ms[0].lessons + ms[1].lessons + ms[2].lessons + ms[3].lessons;
    TotalIsSumOverAllLessons(BASICS_OF_MONEY_COURSE.modules);
    assert forall i :: 0 <= i < |all| ==> all[i].xpReward == VIDEO_XP;
    UniformRewardTotal(all, VIDEO_XP);
  }

  /** `shouldModuleUnlock`: both branches answer `true`, so every module unlocks. */
  function ShouldModuleUnlock(moduleIndex: int, completedLessons: seq<string>): (unlock: bool)
    ensures unlock
  {
    if moduleIndex <= 1 then true else true
  }

  /** The static `isLocked` flags lock modules 3 and 4, while the unlock rule
      unlocks them even with nothing completed: the two do not agree. */
  lemma LockFlagsDisagreeWithUnlockRule()
    ensures seq(4, i requires 0 <= i < 4 => BASICS_OF_MONEY_COURSE.modules[i].isLocked)
            == [false, false, true, true]
    ensures BASICS_OF_MONEY_COURSE.modules[2].isLocked && ShouldModuleUnlock(2, [])
  {
  }

  /** A question of the default quiz; `correctAnswer` indexes `options`. */
  datatype QuizQuestion = QuizQuestion(id: string, question: string, options: seq<string>, correctAnswer: int)

  const DEFAULT_QUIZ_QUESTIONS: seq<QuizQuestion> := [
    QuizQuestion("q1", "What is money used for?", [
      "Only for buying food",
      "A medium of exchange for goods and services",
      "Only for rich people",
      "Nothing important"], 1),
    QuizQuestion("q2", "Why is saving money important?", [
      "It's not important",
      "To spend it all immediately",
      "For emergencies and future goals",
      "To impress others"], 2),
    QuizQuestion("q3", "What is the difference between a need and a want?", [
      "There is no difference",
      "Needs are essential, wants are desires",
      "Wants are more important",
      "Needs are for adults only"], 1)
  ]

  /** The answer key of a quiz: the correct option of each question, in order. */
  function AnswerKey(qs: seq<QuizQuestion>): (key: seq<int>)
    ensures |key| == |qs|
    ensures forall i :: 0 <= i < |qs| ==> key[i] == qs[i].correctAnswer
  {
    seq(|qs|, i requires 0 <= i < |qs| => qs[i].correctAnswer)
  }

  /** The default quiz has three questions of four options each, every answer
      index points at an option, and the key is 1, 2, 1. */
  lemma DefaultQuizWellFormed()
    ensures |DEFAULT_QUIZ_QUESTIONS| == 3
    ensures forall i :: 0 <= i < |DEFAULT_QUIZ_QUESTIONS| ==>
              |DEFAULT_QUIZ_QUESTIONS[i].options| == 4
              && 0 <= DEFAULT_QUIZ_QUESTIONS[i].correctAnswer < |DEFAULT_QUIZ_QUESTIONS[i].options|
    ensures AnswerKey(DEFAULT_QUIZ_QUESTIONS) == [1, 2, 1]
  {
  }
}
