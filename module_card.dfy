/** The card of one module of a course (`src/components/ModuleCard.tsx`): the
    number of completed lessons, the completed and locked flags of each lesson,
    and the open/closed state of the card. */
module ModuleCard {
  import opened Common
  import opened Tables
  import LessonUtils

  /** A lesson as the card expects it. `orderIndex` is `None` when the object
      has no `order_index` field, which reads as `undefined`. */
  datatype CardLesson = CardLesson(id: LessonId, title: string, orderIndex: Option<int>, xpReward: int)

  /** `completedCount`: the lessons whose progress record says completed. */
  function CompletedCount(lessons: seq<CardLesson>, userProgress: map<LessonId, ProgressRow>): (n: nat)
    ensures n <= |lessons|
  {
    |Filter(lessons, (l: CardLesson) => LessonUtils.IsCompleted(userProgress, l.id))|
  }

  /** The count is full exactly when every lesson is completed; with no
      progress it is zero. */
  lemma {:induction false} CompletedCountBounds(lessons: seq<CardLesson>, userProgress: map<LessonId, ProgressRow>)
    ensures CompletedCount(lessons, userProgress) == |lessons| <==>
              forall i :: 0 <= i < |lessons| ==> LessonUtils.IsCompleted(userProgress, lessons[i].id)
    ensures (forall i :: 0 <= i < |lessons| ==> !LessonUtils.IsCompleted(userProgress, lessons[i].id)) ==>
              CompletedCount(lessons, userProgress) == 0
  {
    var keep := (l: CardLesson) => LessonUtils.IsCompleted(userProgress, l.id);
    FilterKeepsAllIff(lessons, keep);
    var r := Filter(lessons, keep);
    if |r| > 0 {
      assert r[0] in lessons && keep(r[0]);
    }
  }

  /** The flags a lesson row of the card is drawn with. */
  datatype LessonFlags = LessonFlags(isCompleted: bool, isLocked: bool)

  /** The flags as written: the lock rule is given the lesson's `order_index`
      as its position. `isLessonLocked(undefined, …)` compares `undefined` with
      0 and then reads `lessons[NaN]`, which is missing, so it answers "not locked". */
  function FlagsAsWritten(lesson: CardLesson, userProgress: map<LessonId, ProgressRow>, lessons: seq<CardLesson>)
    : (f: LessonFlags)
    ensures f.isCompleted == LessonUtils.IsCompleted(userProgress, lesson.id)
    ensures lesson.orderIndex.None? ==> !f.isLocked
    ensures lesson.orderIndex.Some? ==>
              f.isLocked == LessonUtils.IsLessonLocked(lesson.orderIndex.value, userProgress, LessonIds(lessons, (l: CardLesson) => l.id))
  {
    var isCompleted := LessonUtils.IsCompleted(userProgress, lesson.id);
    var isLocked := match lesson.orderIndex
      case None => false
      case Some(i) => LessonUtils.IsLessonLocked(i, userProgress, LessonIds(lessons, (l: CardLesson) => l.id));
    LessonFlags(isCompleted, isLocked)
  }

  /** The flags of the lesson at position `i` of the card, with the position
      itself given to the lock rule. */
  function FlagsAt(i: nat, userProgress: map<LessonId, ProgressRow>, lessons: seq<CardLesson>): (f: LessonFlags)
    requires i < |lessons|
    ensures f.isCompleted == LessonUtils.IsCompleted(userProgress, lessons[i].id)
    ensures f.isLocked <==> i > 0 && !LessonUtils.IsCompleted(userProgress, lessons[i - 1].id)
  {
    LessonFlags(LessonUtils.IsCompleted(userProgress, lessons[i].id),
                LessonUtils.IsLessonLocked(i, userProgress, LessonIds(lessons, (l: CardLesson) => l.id)))
  }

  /** With positions, a lesson opens exactly when the one before it is
      completed: completing lessons in order unlocks them in order, and the
      first incomplete lesson is the last one open. */
  lemma {:induction false} FlagsAtFollowOrder(userProgress: map<LessonId, ProgressRow>, lessons: seq<CardLesson>, k: nat)
    requires k < |lessons|
    requires forall i :: 0 <= i < k ==> LessonUtils.IsCompleted(userProgress, lessons[i].id)
    requires !LessonUtils.IsCompleted(userProgress, lessons[k].id)
    ensures forall i :: 0 <= i <= k ==> !FlagsAt(i, userProgress, lessons).isLocked
    ensures k + 1 < |lessons| ==> FlagsAt(k + 1, userProgress, lessons).isLocked
  {
    forall i | 0 <= i <= k
      ensures !FlagsAt(i, userProgress, lessons).isLocked
    {
      if i > 0 {
        assert LessonUtils.IsCompleted(userProgress, lessons[i - 1].id);
      }
    }
  }

  /** When the card's lessons carry their positions as `order_index`, the
      written flags and the positional flags agree. */
  lemma AsWrittenAgreesWhenIndexed(userProgress: map<LessonId, ProgressRow>, lessons: seq<CardLesson>, i: nat)
    requires i < |lessons| && lessons[i].orderIndex == Some(i)
    ensures FlagsAsWritten(lessons[i], userProgress, lessons) == FlagsAt(i, userProgress, lessons)
  {
  }

  /** The open/closed state of the card. */
  class Card {
    var isOpen: bool

    constructor ()
      ensures !isOpen
    {
      isOpen := false;
    }

    /** A click on the card's header. */
    method Toggle()
      modifies this
      ensures isOpen == !old(isOpen)
    {
      isOpen := !isOpen;
    }
  }
}
