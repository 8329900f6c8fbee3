/** The admin editor of one course's units, lessons and quizzes
    (`src/pages/admin/AdminLessons.tsx`). New units and lessons are numbered by
    counting their siblings; deletions remove children before parents; a quiz
    is saved only when no question and no option is blank. */
module AdminLessons {
  import opened Common
  import opened Tables
  import opened Text

  /** The blank question a new quiz starts from and "Add Question" appends. */
  const TEMPLATE_QUESTION := Question("", ["", "", "", ""], 0)

  /** The lesson form (transcripts are not part of this model). */
  datatype LessonForm = LessonForm(title: string, unitId: UnitId, videoUrl: string, xpReward: int, kind: string)

  const EMPTY_LESSON_FORM := LessonForm("", "", "", 10, "video_quiz")

  /** The form filled from a stored lesson; a missing video URL reads as "". */
  function FormOf(l: LessonRow): (f: LessonForm)
    ensures f.unitId == l.unitId
    ensures l.videoUrl.None? ==> f.videoUrl == ""
    ensures l.videoUrl.Some? ==>
              l.(title := f.title, unitId := f.unitId, videoUrl := Some(f.videoUrl),
                 xpReward := f.xpReward, kind := f.kind) == l
  {
    LessonForm(l.title, l.unitId, if l.videoUrl.Some? then l.videoUrl.value else "", l.xpReward, l.kind)
  }

  // ---------------------------------------------------------------------------
  // Numbering

  /** The rows are numbered 0, 1, 2, … in the order they stand. */
  predicate NumberedInOrder(rows: seq<LessonRow>) {
    forall i :: 0 <= i < |rows| ==> rows[i].sortOrder == i
  }

  /** The lesson rows of a unit in the database, in insertion order, stay
      numbered 0, 1, 2, … when a lesson numbered by the sibling count is added. */
  lemma InsertKeepsNumbering(lessons: seq<LessonRow>, row: LessonRow)
    requires NumberedInOrder(LessonsOfUnit(lessons, row.unitId))
    requires row.sortOrder == |LessonsOfUnit(lessons, row.unitId)|
    ensures NumberedInOrder(LessonsOfUnit(lessons + [row], row.unitId))
    ensures LessonsOfUnit(lessons + [row], row.unitId) == LessonsOfUnit(lessons, row.unitId) + [row]
  {
    FilterAppend(lessons, [row], (l: LessonRow) => l.unitId == row.unitId);
    assert [row][1..] == [];
  }

  /** Deleting a lesson does not renumber the others: after deleting the
      middle one of three, the next lesson gets the number of the last. */
  lemma DeleteThenInsertRepeatsSortOrder(u: UnitId, a: LessonRow, b: LessonRow, c: LessonRow)
    requires a.unitId == b.unitId == c.unitId == u
    requires a.id != b.id && c.id != b.id
    requires a.sortOrder == 0 && b.sortOrder == 1 && c.sortOrder == 2
    ensures LessonsOfUnit(Filter([a, b, c], (l: LessonRow) => l.id != b.id), u) == [a, c]
    ensures |LessonsOfUnit(Filter([a, b, c], (l: LessonRow) => l.id != b.id), u)| == c.sortOrder
  {
    var keep := (l: LessonRow) => l.id != b.id;
    assert [a, b, c][1..] == [b, c] && [b, c][1..] == [c] && [c][1..] == [];
    assert Filter([c], keep) == [c];
    assert Filter([b, c], keep) == [c];
    assert Filter([a, b, c], keep) == [a, c];
    var sibling := (l: LessonRow) => l.unitId == u;
    assert [a, c][1..] == [c];
    assert Filter([c], sibling) == [c];
    assert Filter([a, c], sibling) == [a, c];
  }

  /** For a loaded editor, counting the unit's lessons in its sorted list is
      counting the unit's lessons in the database. */
  lemma LoadedSiblingCount(dbLessons: seq<LessonRow>, units: seq<UnitRow>, u: UnitId)
    requires u in UnitIds(units)
    ensures |LessonsOfUnit(LessonsOfUnits(dbLessons, units), u)| == |LessonsOfUnit(dbLessons, u)|
  {
    var ids := UnitIds(units);
    var inCourse := Filter(dbLessons, (l: LessonRow) => l.unitId in ids);
    var loaded := LessonsOfUnits(dbLessons, units);
    FilterLengthPermutation(loaded, inCourse, (l: LessonRow) => l.unitId == u);
    FilterOfFilter(dbLessons, (l: LessonRow) => l.unitId in ids, (l: LessonRow) => l.unitId == u);
  }

  // ---------------------------------------------------------------------------
  // Quiz validation and the question list

  /** A question whose text and every option are filled in. */
  predicate QuestionFilled(q: Question) {
    !IsBlank(q.question) && forall o :: 0 <= o < |q.options| ==> !IsBlank(q.options[o])
  }

  /** What "Save Quiz" accepts. */
  predicate QuizValid(questions: seq<Question>): (valid: bool)
    ensures |questions| == 0 ==> valid
    ensures valid ==> forall i :: 0 <= i < |questions| ==> questions[i].question != ""
  {
    forall i :: 0 <= i < |questions| ==> QuestionFilled(questions[i])
  }

  /** The check as written: every question's text, and every option, is non-empty once trimmed. */
  lemma QuizValidIffTrimmedNonEmpty(questions: seq<Question>)
    ensures QuizValid(questions) <==>
              forall i :: 0 <= i < |questions| ==>
                Trim(questions[i].question) != "" &&
                forall o :: 0 <= o < |questions[i].options| ==> Trim(questions[i].options[o]) != ""
  {
    forall s: string ensures Trim(s) == "" <==> IsBlank(s) {
      BlankIffTrimEmpty(s);
    }
  }

  /** A quiz with a template question still in it cannot be saved, and an
      empty quiz can. */
  lemma TemplateBlocksSaving(questions: seq<Question>)
    ensures !QuizValid(questions + [TEMPLATE_QUESTION])
    ensures QuizValid([])
  {
    assert (questions + [TEMPLATE_QUESTION])[|questions|] == TEMPLATE_QUESTION;
  }

  /** The questions the editor opens with: the stored ones, or the template
      when none are stored or the stored list is empty. */
  function EditorQuestions(quizzes: map<LessonId, QuizRow>, lessonId: LessonId): (qs: seq<Question>)
    ensures |qs| >= 1
    ensures lessonId in quizzes && |quizzes[lessonId].questions| > 0 ==> qs == quizzes[lessonId].questions
    ensures !(lessonId in quizzes && |quizzes[lessonId].questions| > 0) ==> qs == [TEMPLATE_QUESTION]
  {
    if lessonId in quizzes && |quizzes[lessonId].questions| > 0 then quizzes[lessonId].questions
    else [TEMPLATE_QUESTION]
  }

  /** `filter((_, idx) => idx !== i)`: the list without position `i`. */
  function RemoveAt(qs: seq<Question>, i: int): (r: seq<Question>)
    ensures 0 <= i < |qs| ==> |r| == |qs| - 1
    ensures 0 <= i < |qs| ==> forall j :: 0 <= j < i ==> r[j] == qs[j]
    ensures 0 <= i < |qs| ==> forall j :: i <= j < |r| ==> r[j] == qs[j + 1]
    ensures 0 <= i < |qs| ==> multiset(r) + multiset{qs[i]} == multiset(qs)
    ensures !(0 <= i < |qs|) ==> r == qs
  {
    if 0 <= i < |qs| then
      assert qs == qs[..i] + [qs[i]] + qs[i + 1..];
      qs[..i] + qs[i + 1..]
    else qs
  }

  /** Removing a question keeps the validity of a valid quiz. */
  lemma RemoveKeepsValid(qs: seq<Question>, i: int)
    requires QuizValid(qs)
    ensures QuizValid(RemoveAt(qs, i))
  {
    var r := RemoveAt(qs, i);
    if 0 <= i < |qs| {
      forall j | 0 <= j < |r| ensures QuestionFilled(r[j]) {
        if j < i { assert r[j] == qs[j]; } else { assert r[j] == qs[j + 1]; }
      }
    }
  }

  // ---------------------------------------------------------------------------
  // Fetching

  /** The editor's unit and lesson lists after `fetchAll`, from the tables and
      the lists before it: nothing is fetched without a course id, and the
      lessons are fetched only when the course has units, so with none the
      previous lesson list stays. */
  function Refetch(courseId: string, dbUnits: seq<UnitRow>, dbLessons: seq<LessonRow>,
                   units: seq<UnitRow>, lessons: seq<LessonRow>): (r: (seq<UnitRow>, seq<LessonRow>))
    ensures courseId == "" ==> r == (units, lessons)
    ensures courseId != "" ==> r.0 == CourseUnits(dbUnits, courseId)
    ensures courseId != "" && |r.0| > 0 ==> r.1 == LessonsOfUnits(dbLessons, r.0)
    ensures courseId != "" && |r.0| == 0 ==> r.1 == lessons
  {
    if courseId == "" then (units, lessons)
    else
      var fetched := CourseUnits(dbUnits, courseId);
      if |fetched| > 0 then (fetched, LessonsOfUnits(dbLessons, fetched)) else (fetched, lessons)
  }

  /** Fetching again from unchanged tables changes nothing. */
  lemma RefetchIdempotent(courseId: string, dbUnits: seq<UnitRow>, dbLessons: seq<LessonRow>,
                          units: seq<UnitRow>, lessons: seq<LessonRow>)
    ensures var r := Refetch(courseId, dbUnits, dbLessons, units, lessons);
            Refetch(courseId, dbUnits, dbLessons, r.0, r.1) == r
  {
  }

  /** Deleting the only unit of a course leaves its lessons in the editor's
      lesson list, where no unit is left to display them: with no units, the
      lessons are not fetched again. */
  lemma LastUnitDeletedKeepsStaleLessons(courseId: string, u: UnitRow, l: LessonRow)
    requires courseId != "" && u.courseId == courseId && l.unitId == u.id
    ensures Refetch(courseId, Filter([u], (x: UnitRow) => x.id != u.id),
                    Filter([l], (x: LessonRow) => x.unitId != u.id), [u], [l]) == ([], [l])
  {
    assert Filter([u], (x: UnitRow) => x.id != u.id) == [];
    assert Filter([] , (x: UnitRow) => x.courseId == courseId) == [];
  }

  class Editor {
    const courseId: string
    const db: Backend

    var units: seq<UnitRow>
    var lessons: seq<LessonRow>
    var unitOpen: bool
    var unitTitle: string
    var lessonOpen: bool
    var lessonForm: LessonForm
    var editingLesson: Option<LessonRow>
    var quizOpen: bool
    var quizLessonId: LessonId
    var quizQuestions: seq<Question>

    constructor (courseId: string, db: Backend)
      ensures this.courseId == courseId && this.db == db
      ensures units == [] && lessons == [] && !unitOpen && unitTitle == ""
      ensures !lessonOpen && lessonForm == EMPTY_LESSON_FORM && editingLesson == None
      ensures !quizOpen && quizLessonId == "" && quizQuestions == [TEMPLATE_QUESTION]
    {
      this.courseId, this.db := courseId, db;
      units, lessons, unitOpen, unitTitle := [], [], false, "";
      lessonOpen, lessonForm, editingLesson := false, EMPTY_LESSON_FORM, None;
      quizOpen, quizLessonId, quizQuestions := false, "", [TEMPLATE_QUESTION];
    }

    /** The editor holds the course's units and their lessons as stored. */
    ghost predicate Loaded()
      reads this, db
    {
      && units == CourseUnits(db.units, courseId)
      && |units| > 0
      && lessons == LessonsOfUnits(db.lessons, units)
    }

    /** `fetchAll`: the course's units, then, when there are any, their lessons.
        With no units the lesson list is left as it was. */
    method FetchAll()
      modifies this`units, this`lessons
      ensures (units, lessons) == Refetch(courseId, db.units, db.lessons, old(units), old(lessons))
    {
      if courseId == "" {
        return;
      }
      units := CourseUnits(db.units, courseId);
      if |units| > 0 {
        lessons := LessonsOfUnits(db.lessons, units);
      }
    }

    /** "Create": a blank title is refused; otherwise a unit numbered by the
        count of the listed units is inserted, the dialog closes and the lists
        are fetched again. `newId` is the id the database assigns. */
    method CreateUnit(newId: UnitId) returns (created: bool)
      modifies this`units, this`lessons, this`unitOpen, this`unitTitle, db`units, db`writes
      ensures created <==> !IsBlank(old(unitTitle))
      ensures !created ==> unchanged(this) && db.units == old(db.units) && db.writes == old(db.writes)
      ensures created ==>
                && db.units == old(db.units) + [UnitRow(newId, courseId, old(unitTitle), |old(units)|)]
                && db.writes == old(db.writes) + [InsertUnit(newId)]
                && !unitOpen && unitTitle == ""
                && (units, lessons) == Refetch(courseId, db.units, db.lessons, old(units), old(lessons))
    {
      if IsBlank(unitTitle) {
        return false;
      }
      db.InsertUnitRow(UnitRow(newId, courseId, unitTitle, |units|));
      unitOpen := false;
      unitTitle := "";
      FetchAll();
      created := true;
    }

    /** "Delete" on a unit, after the confirmation `confirmed`: its lessons
        first, then the unit. The tables here do not enforce the schema's
        foreign keys, so the quizzes table is left as it was. */
    method DeleteUnit(id: UnitId, confirmed: bool)
      modifies this`units, this`lessons, db`lessons, db`units, db`writes
      ensures !confirmed ==> unchanged(this) && unchanged(db)
      ensures confirmed ==>
                && db.lessons == Filter(old(db.lessons), (l: LessonRow) => l.unitId != id)
                && db.units == Filter(old(db.units), (u: UnitRow) => u.id != id)
                && db.writes == old(db.writes) + [Write.DeleteLessonsOfUnit(id), Write.DeleteUnit(id)]
                && (units, lessons) == Refetch(courseId, db.units, db.lessons, old(units), old(lessons))
      ensures db.quizzes == old(db.quizzes)
    {
      if !confirmed {
        return;
      }
      db.DeleteLessonsOfUnitRows(id);
      db.DeleteUnitRow(id);
      FetchAll();
    }

    /** The pencil button of a lesson: the dialog opens on that lesson, with
        the form filled from its row. */
    method EditLesson(l: LessonRow)
      modifies this`editingLesson, this`lessonForm, this`lessonOpen
      ensures editingLesson == Some(l) && lessonForm == FormOf(l) && lessonOpen
    {
      editingLesson := Some(l);
      lessonForm := FormOf(l);
      lessonOpen := true;
    }

    /** "Save Lesson": a blank title or no unit is refused. An edited lesson
        gets the form's fields and keeps its id and number; a new lesson is
        numbered by the count of the listed lessons of its unit. */
    method SaveLesson(newId: LessonId) returns (saved: bool)
      modifies this`units, this`lessons, this`lessonOpen, this`editingLesson, this`lessonForm, db`lessons, db`writes
      ensures saved <==> !IsBlank(old(lessonForm).title) && old(lessonForm).unitId != ""
      ensures !saved ==> unchanged(this) && db.lessons == old(db.lessons) && db.writes == old(db.writes)
      ensures saved && old(editingLesson).None? ==>
                var f := old(lessonForm);
                && db.lessons == old(db.lessons) +
                     [LessonRow(newId, f.unitId, f.title, |LessonsOfUnit(old(lessons), f.unitId)|, f.xpReward, Some(f.videoUrl), f.kind)]
                && db.writes == old(db.writes) + [InsertLesson(newId)]
      ensures saved && old(editingLesson).Some? ==>
                var f := old(lessonForm);
                var id := old(editingLesson).value.id;
                && |db.lessons| == |old(db.lessons)|
                && (forall i :: 0 <= i < |db.lessons| ==>
                      db.lessons[i] == if old(db.lessons)[i].id == id
                                       then old(db.lessons)[i].(title := f.title, unitId := f.unitId,
                                              videoUrl := Some(f.videoUrl), xpReward := f.xpReward, kind := f.kind)
                                       else old(db.lessons)[i])
                && db.writes == old(db.writes) + [UpdateLesson(id)]
      ensures saved ==> !lessonOpen && editingLesson == None && lessonForm == EMPTY_LESSON_FORM
      ensures saved ==> (units, lessons) == Refetch(courseId, db.units, db.lessons, old(units), old(lessons))
    {
      if IsBlank(lessonForm.title) || lessonForm.unitId == "" {
        return false;
      }
      var f := lessonForm;
      if editingLesson.Some? {
        db.UpdateLessonRows(editingLesson.value.id,
          (l: LessonRow) => l.(title := f.title, unitId := f.unitId, videoUrl := Some(f.videoUrl),
                               xpReward := f.xpReward, kind := f.kind));
      } else {
        var unitLessons := LessonsOfUnit(lessons, f.unitId);
        db.InsertLessonRow(LessonRow(newId, f.unitId, f.title, |unitLessons|, f.xpReward, Some(f.videoUrl), f.kind));
      }
      lessonOpen := false;
      editingLesson := None;
      lessonForm := EMPTY_LESSON_FORM;
      FetchAll();
      saved := true;
    }

    /** "Delete" on a lesson, after the confirmation `confirmed`: its quiz
        first, then the lesson. The other lessons keep their numbers. */
    method DeleteLesson(id: LessonId, confirmed: bool)
      requires db.Valid()
      modifies this`units, this`lessons, db`lessons, db`quizzes, db`writes
      ensures db.Valid()
      ensures !confirmed ==> unchanged(this) && unchanged(db)
      ensures confirmed ==>
                && db.quizzes == old(db.quizzes) - {id}
                && db.lessons == Filter(old(db.lessons), (l: LessonRow) => l.id != id)
                && db.writes == old(db.writes) + [Write.DeleteQuizOfLesson(id), Write.DeleteLesson(id)]
                && (units, lessons) == Refetch(courseId, db.units, db.lessons, old(units), old(lessons))
    {
      if !confirmed {
        return;
      }
      db.DeleteQuizOfLessonRow(id);
      db.DeleteLessonRow(id);
      FetchAll();
    }

    /** The quiz icon of a lesson: the editor opens on that lesson's questions. */
    method OpenQuizEditor(lessonId: LessonId)
      modifies this`quizLessonId, this`quizQuestions, this`quizOpen
      ensures quizLessonId == lessonId && quizOpen
      ensures quizQuestions == EditorQuestions(db.quizzes, lessonId)
    {
      quizLessonId := lessonId;
      if lessonId in db.quizzes && |db.quizzes[lessonId].questions| > 0 {
        quizQuestions := db.quizzes[lessonId].questions;
      } else {
        quizQuestions := [TEMPLATE_QUESTION];
      }
      quizOpen := true;
    }

    /** "Save Quiz": refused while a question or an option is blank; otherwise
        the lesson's one quiz row is replaced by the edited questions. */
    method SaveQuiz() returns (saved: bool)
      requires db.Valid()
      modifies this`quizOpen, db`quizzes, db`writes
      ensures db.Valid()
      ensures saved <==> QuizValid(quizQuestions)
      ensures !saved ==> quizOpen == old(quizOpen) && unchanged(db)
      ensures saved ==>
                && db.quizzes == old(db.quizzes)[quizLessonId := QuizRow(quizLessonId, quizQuestions)]
                && db.writes == old(db.writes) + [UpsertQuiz(quizLessonId)]
                && !quizOpen
    {
      if !QuizValid(quizQuestions) {
        return false;
      }
      db.UpsertQuizRow(QuizRow(quizLessonId, quizQuestions));
      quizOpen := false;
      saved := true;
    }

    /** "Remove" is shown only while there is more than one question. */
    predicate RemoveShown()
      reads this
    {
      |quizQuestions| > 1
    }

    /** "Add Question". */
    method AddQuestion()
      modifies this`quizQuestions
      ensures quizQuestions == old(quizQuestions) + [TEMPLATE_QUESTION]
    {
      quizQuestions := quizQuestions + [TEMPLATE_QUESTION];
    }

    /** "Remove" on question `i`; offered only while there is more than one, so
        the editor always keeps a question. */
    method RemoveQuestion(i: int)
      modifies this`quizQuestions
      ensures quizQuestions == RemoveAt(old(quizQuestions), i)
      ensures old(RemoveShown()) ==> |quizQuestions| >= 1
    {
      quizQuestions := RemoveAt(quizQuestions, i);
    }

    /** Typing into the text of question `qi`. */
    method SetQuestionText(qi: nat, text: string)
      requires qi < |quizQuestions|
      modifies this`quizQuestions
      ensures quizQuestions == old(quizQuestions)[qi := old(quizQuestions)[qi].(question := text)]
    {
      quizQuestions := quizQuestions[qi := quizQuestions[qi].(question := text)];
    }

    /** Choosing option `oi` as the correct answer of question `qi`. */
    method SetCorrect(qi: nat, oi: nat)
      requires qi < |quizQuestions|
      modifies this`quizQuestions
      ensures quizQuestions == old(quizQuestions)[qi := old(quizQuestions)[qi].(correct := oi)]
    {
      quizQuestions := quizQuestions[qi := quizQuestions[qi].(correct := oi)];
    }

    /** Typing into option `oi` of question `qi`. */
    method SetOption(qi: nat, oi: nat, text: string)
      requires qi < |quizQuestions| && oi < |quizQuestions[qi].options|
      modifies this`quizQuestions
      ensures |quizQuestions| == |old(quizQuestions)|
      ensures quizQuestions[qi].options == old(quizQuestions)[qi].options[oi := text]
      ensures quizQuestions[qi].question == old(quizQuestions)[qi].question
      ensures quizQuestions[qi].correct == old(quizQuestions)[qi].correct
      ensures forall j :: 0 <= j < |quizQuestions| && j != qi ==> quizQuestions[j] == old(quizQuestions)[j]
    {
      var q := quizQuestions[qi];
      quizQuestions := quizQuestions[qi := q.(options := q.options[oi := text])];
    }

    /** On a loaded editor, a new lesson is numbered by the count of its unit's
        lessons in the database, so inserting lessons one by one numbers them
        0, 1, 2, … */
    lemma NewLessonNumber()
      requires Loaded() && lessonForm.unitId in UnitIds(units)
      ensures |LessonsOfUnit(lessons, lessonForm.unitId)| == |LessonsOfUnit(db.lessons, lessonForm.unitId)|
    {
      LoadedSiblingCount(db.lessons, units, lessonForm.unitId);
    }
  }
}
