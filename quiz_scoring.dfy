/** Quiz scoring shared by the two lesson screens: counting the correct answers
    of a submission, `Math.round((correct / total) * 100)`, and what the
    pass and perfect-score tests mean in terms of the count. An answer sheet
    is a map from question index to chosen option; an unanswered question has
    no entry and never matches the key. */
module QuizScoring {
  import opened Common

  /** `Math.round((correct / total) * 100)` on exact rationals: the percentage
      rounded half up. (The original computes in floating point.) */
  function RoundedPercent(correct: nat, total: nat): (pct: int)
    requires total > 0
    ensures total * (2 * pct - 1) <= 200 * correct < total * (2 * pct + 1)
    ensures correct <= total ==> 0 <= pct <= 100
  {
    var q := (200 * correct + total) / (2 * total);
    DivisionBounds(200 * correct + total, 2 * total);
    Scale(total, q);
    if correct <= total then
      ShareInRange(correct, total, q);
      q
    else
      q
  }

  /** A share of at most the whole rounds to a percentage in 0..100. */
  lemma ShareInRange(correct: nat, total: nat, q: int)
    requires 0 < total && correct <= total
    requires 2 * (total * q) - total <= 200 * correct < 2 * (total * q) + total
    ensures 0 <= q <= 100
  {
    if q > 100 {
      MultiplyMonotone(total, 101, q);
      assert false;
    } else if q < 0 {
      MultiplyMonotone(total, q, -1);
      assert false;
    }
  }

  lemma DivisionBounds(num: int, den: int)
    requires den > 0
    ensures den * (num / den) <= num < den * (num / den) + den
  {
  }

  lemma Scale(t: int, q: int)
    ensures 2 * t * q == 2 * (t * q)
    ensures t * (2 * q - 1) == 2 * (t * q) - t
    ensures t * (2 * q + 1) == 2 * (t * q) + t
  {
  }

  lemma MultiplyMonotone(t: int, a: int, b: int)
    requires t > 0 && a <= b
    ensures t * a <= t * b
  {
  }

  /** Any two results satisfying the rounding inequalities agree: the
      inequalities determine the rounded percentage. */
  lemma {:induction false} RoundingIsUnique(correct: nat, total: nat, p: int)
    requires total > 0
    requires total * (2 * p - 1) <= 200 * correct < total * (2 * p + 1)
    ensures p == RoundedPercent(correct, total)
  {
    var q := RoundedPercent(correct, total);
  }

  /** A submission reaches 70% exactly when at least 69.5% of the answers are correct. */
  lemma {:induction false} PassesIff(correct: nat, total: nat)
    requires total > 0
    ensures RoundedPercent(correct, total) >= 70 <==> 200 * correct >= 139 * total
  {
    var p := RoundedPercent(correct, total);
    Scale(total, p);
    if p >= 70 {
      MultiplyMonotone(total, 70, p);
    } else {
      MultiplyMonotone(total, p, 69);
    }
  }

  /** With fewer than 200 questions, the score rounds to 100 exactly when every
      answer is correct. */
  lemma {:induction false} PerfectIff(correct: nat, total: nat)
    requires 0 < total < 200 && correct <= total
    ensures RoundedPercent(correct, total) == 100 <==> correct == total
  {
    var p := RoundedPercent(correct, total);
    if correct == total {
      RoundingIsUnique(correct, total, 100);
    }
  }

  /** With 200 questions, 199 correct answers already round to 100. */
  lemma PerfectNeedsFewerThan200Questions()
    ensures RoundedPercent(199, 200) == 100
  {
    RoundingIsUnique(199, 200, 100);
  }

  /** The scores a three-question quiz can produce. */
  lemma ThreeQuestionScores()
    ensures RoundedPercent(0, 3) == 0 && RoundedPercent(1, 3) == 33
    ensures RoundedPercent(2, 3) == 67 && RoundedPercent(3, 3) == 100
  {
    RoundingIsUnique(0, 3, 0);
    RoundingIsUnique(1, 3, 33);
    RoundingIsUnique(2, 3, 67);
    RoundingIsUnique(3, 3, 100);
  }

  /** Question `i` is answered, with the option the key expects. */
  predicate AnsweredCorrectly(key: seq<int>, answers: map<int, int>, i: int)
    requires 0 <= i < |key|
  {
    i in answers && answers[i] == key[i]
  }

  /** The number of questions of `key` whose answer matches, counted from the front. */
  function CountCorrect(key: seq<int>, answers: map<int, int>): (n: nat)
    ensures n <= |key|
  {
    if key == [] then 0
    else
      var last := |key| - 1;
      CountCorrect(key[..last], answers) + (if AnsweredCorrectly(key, answers, last) then 1 else 0)
  }

  /** All questions count as correct exactly when each is answered with the expected option. */
  lemma {:induction false} CountCorrectIsTotalIff(key: seq<int>, answers: map<int, int>)
    ensures CountCorrect(key, answers) == |key| <==>
              forall i :: 0 <= i < |key| ==> AnsweredCorrectly(key, answers, i)
  {
    if key != [] {
      var last := |key| - 1;
      CountCorrectIsTotalIff(key[..last], answers);
      assert forall i :: 0 <= i < last ==>
               (AnsweredCorrectly(key[..last], answers, i) <==> AnsweredCorrectly(key, answers, i));
    }
  }

  /** An empty answer sheet scores nothing. */
  lemma {:induction false} NoAnswersNoneCorrect(key: seq<int>)
    ensures CountCorrect(key, map[]) == 0
  {
    if key != [] {
      NoAnswersNoneCorrect(key[..|key| - 1]);
    }
  }

  /** The `forEach` loop of both submit handlers: one pass over the questions,
      adding one for every answer that matches the key. */
  method CountCorrectAnswers(key: seq<int>, answers: map<int, int>) returns (correct: nat)
    ensures correct == CountCorrect(key, answers)
  {
    correct := 0;
    var i := 0;
    while i < |key|
      invariant 0 <= i <= |key|
      invariant correct == CountCorrect(key[..i], answers)
    {
      assert key[..i + 1][..i] == key[..i];
      if i in answers && answers[i] == key[i] {
        correct := correct + 1;
      }
      i := i + 1;
    }
    assert key[..|key|] == key;
  }

  /** The indices 0 .. n-1. */
  function Indices(n: nat): (s: set<int>)
    ensures |s| == n
    ensures forall i :: i in s <==> 0 <= i < n
  {
    if n == 0 then {}
    else
      var s := Indices(n - 1) + {n - 1};
      assert n - 1 !in Indices(n - 1);
      s
  }

  /** The submit buttons compare the number of keys of the answer sheet with
      the number of questions. As every key is a question index, a full count
      means every question has an answer. */
  lemma {:induction false} FullCountMeansAllAnswered(answers: map<int, int>, n: nat)
    requires forall k :: k in answers ==> 0 <= k < n
    requires |answers| == n
    ensures forall i :: 0 <= i < n ==> i in answers
  {
    forall i | 0 <= i < n
      ensures i in answers
    {
      if i !in answers {
        assert answers.Keys <= Indices(n) - {i};
        SubsetIsNoLarger(answers.Keys, Indices(n) - {i});
      }
    }
  }
}
