/** The result screen's score, percentage and per-question review marks. */
module Scoring {
  import opened Wrappers
  import opened Types

  /** `answer === q.correctAnswerIndex`: a number equal to the index; `null` never is. */
  predicate IsCorrect(a: Answer, q: Question)
  {
    a.Picked? && a.option as real == q.correctAnswerIndex
  }

  /**
   * The `reduce` over the answers: one point per answer equal to the index of
   * the question at the same position. Reading a question past the end of the
   * list throws in the source, hence the precondition.
   */
  function CorrectCount(questions: seq<Question>, answers: seq<Answer>): (score: nat)
    requires |answers| <= |questions|
    ensures score <= |answers|
  {
    if answers == [] then 0
    else
      var i := |answers| - 1;
      CorrectCount(questions, answers[..i]) + if IsCorrect(answers[i], questions[i]) then 1 else 0
  }

  /** `score`: zero without a configuration. */
  function Score(config: Option<TestConfig>, answers: seq<Answer>): (score: nat)
    requires config.Some? ==> |answers| <= |config.value.questions|
    ensures config.None? ==> score == 0
    ensures score <= |answers|
  {
    if config.None? then 0 else CorrectCount(config.value.questions, answers)
  }

  /**
   * `scorePercentage`: zero without a configuration or without questions,
   * otherwise `score / n * 100` rounded half up, in exact arithmetic.
   */
  function Percentage(config: Option<TestConfig>, score: nat): nat
  {
    if config.None? || |config.value.questions| == 0 then 0
    else
      var n := |config.value.questions|;
      (200 * score + n) / (2 * n)
  }

  /** The `isCorrect` mark of each review item; an answer past the end of the answers is `undefined`. */
  function ReviewMarks(questions: seq<Question>, answers: seq<Answer>): (marks: seq<bool>)
    ensures |marks| == |questions|
    ensures forall i :: 0 <= i < |questions| ==> marks[i] == (i < |answers| && IsCorrect(answers[i], questions[i]))
  {
    seq(|questions|, i requires 0 <= i < |questions| => i < |answers| && IsCorrect(answers[i], questions[i]))
  }

  function CountTrue(marks: seq<bool>): nat
  {
    if marks == [] then 0 else CountTrue(marks[..|marks| - 1]) + if marks[|marks| - 1] then 1 else 0
  }

  /** The positions the score counts. */
  ghost function CorrectPositions(questions: seq<Question>, answers: seq<Answer>): set<nat>
    requires |answers| <= |questions|
  {
    set i: nat | i < |answers| && IsCorrect(answers[i], questions[i])
  }

  // ---------------------------------------------------------------------------

  /** The score is the number of positions whose answer equals the question's index. */
  lemma {:induction false} CorrectCountCountsPositions(questions: seq<Question>, answers: seq<Answer>)
    requires |answers| <= |questions|
    ensures CorrectCount(questions, answers) == |CorrectPositions(questions, answers)|
  {
    if answers != [] {
      var i := |answers| - 1;
      CorrectCountCountsPositions(questions, answers[..i]);
      var front := CorrectPositions(questions, answers[..i]);
      var all := CorrectPositions(questions, answers);
      if IsCorrect(answers[i], questions[i]) {
        assert all == front + {i};
      } else {
        assert all == front;
      }
    }
  }

  /** The score is full exactly when every answer is correct. */
  lemma {:induction false} FullScoreIffAllCorrect(questions: seq<Question>, answers: seq<Answer>)
    requires |answers| <= |questions|
    ensures CorrectCount(questions, answers) == |answers| <==>
            forall i :: 0 <= i < |answers| ==> IsCorrect(answers[i], questions[i])
  {
    if answers != [] {
      var i := |answers| - 1;
      FullScoreIffAllCorrect(questions, answers[..i]);
      assert forall j :: 0 <= j < i ==> answers[..i][j] == answers[j];
    }
  }

  /** Unanswered questions never score: an untouched answer sheet scores zero. */
  lemma {:induction false} UnansweredScoresZero(questions: seq<Question>, n: nat)
    requires n <= |questions|
    ensures CorrectCount(questions, AllUnanswered(n)) == 0
  {
    if n > 0 {
      UnansweredScoresZero(questions, n - 1);
      assert AllUnanswered(n)[..n - 1] == AllUnanswered(n - 1);
    }
  }

  /** Without a configuration both the score and the percentage are zero. */
  lemma NoConfigScoresZero(answers: seq<Answer>, score: nat)
    ensures Score(None, answers) == 0 && Percentage(None, score) == 0
  {
  }

  /**
   * With questions, the percentage is the integer nearest to `100 * score / n`,
   * halves rounded up, and it lies in [0, 100]. Without a test or without
   * questions it is zero.
   */
  lemma PercentageIsRounded(config: Option<TestConfig>, score: nat)
    requires config.Some? ==> score <= |config.value.questions|
    ensures var p := Percentage(config, score);
      && p <= 100
      && (config.Some? && |config.value.questions| > 0 ==>
            var n := |config.value.questions|;
            2 * n * p <= 200 * score + n < 2 * n * p + 2 * n)
      && (config.None? ==> p == 0)
      && (config.Some? && |config.value.questions| == 0 ==> p == 0)
  {
    if config.Some? && |config.value.questions| > 0 {
      var n := |config.value.questions|;
      var p := Percentage(config, score);
      assert p == (200 * score + n) / (2 * n);
      assert 200 * score + n <= 2 * n * 100 + n by {
        assert 200 * score <= 200 * n;
      }
      DivBounds(200 * score + n, 2 * n, 101);
    }
  }

  lemma DivBounds(a: nat, b: nat, m: nat)
    requires b > 0 && a < b * m
    ensures b * (a / b) <= a < b * (a / b) + b
    ensures a / b < m
  {
  }

  /**
   * The percentage is 100 exactly when the wrong answers are at most half a
   * percent of the questions. A perfect score therefore always shows 100, but
   * from 200 questions on one wrong answer can show 100 too.
   */
  lemma PercentageFull(config: Option<TestConfig>, score: nat)
    requires config.Some? && |config.value.questions| > 0 && score <= |config.value.questions|
    ensures var n := |config.value.questions|;
      && (Percentage(config, score) == 100 <==> 200 * (n - score) <= n)
      && (score == n ==> Percentage(config, score) == 100)
      && (n < 200 ==> (Percentage(config, score) == 100 <==> score == n))
  {
    PercentageIsRounded(config, score);
    RoundedIsFull(|config.value.questions|, score, Percentage(config, score));
  }

  lemma RoundedIsFull(n: nat, s: nat, p: nat)
    requires 0 < n && s <= n && p <= 100
    requires 2 * n * p <= 200 * s + n < 2 * n * p + 2 * n
    ensures p == 100 <==> 200 * (n - s) <= n
  {
    if p < 100 {
      MulMono(2 * n, p + 1, 100);
    }
  }

  lemma MulMono(a: nat, b: nat, c: nat)
    requires b <= c
    ensures a * b <= a * c
  {
  }

  /** 199 correct answers out of 200 show as 100 percent. */
  lemma NearlyPerfectShowsFull(questions: seq<Question>)
    requires |questions| == 200
    ensures Percentage(Some(TestConfig(questions, 30)), 199) == 100
  {
  }

  /** The review marks as many items correct as the score counts. */
  lemma {:induction false} ReviewAgreesWithScore(questions: seq<Question>, answers: seq<Answer>)
    requires |answers| <= |questions|
    ensures CountTrue(ReviewMarks(questions, answers)) == CorrectCount(questions, answers)
    decreases |questions|
  {
    var marks := ReviewMarks(questions, answers);
    if |questions| > |answers| {
      var front := questions[..|questions| - 1];
      ReviewAgreesWithScore(front, answers);
      assert marks[..|marks| - 1] == ReviewMarks(front, answers);
      CorrectCountOnlyReadsPrefix(questions, front, answers);
    } else if answers != [] {
      var i := |answers| - 1;
      var front := questions[..i];
      ReviewAgreesWithScore(front, answers[..i]);
      assert marks[..|marks| - 1] == ReviewMarks(front, answers[..i]);
      CorrectCountOnlyReadsPrefix(questions, front, answers[..i]);
    }
  }

  /** The score reads only the questions that have an answer. */
  lemma {:induction false} CorrectCountOnlyReadsPrefix(questions: seq<Question>, other: seq<Question>, answers: seq<Answer>)
    requires |answers| <= |questions| && |answers| <= |other|
    requires questions[..|answers|] == other[..|answers|]
    ensures CorrectCount(questions, answers) == CorrectCount(other, answers)
  {
    if answers != [] {
      var i := |answers| - 1;
      assert questions[i] == questions[..|answers|][i] == other[..|answers|][i] == other[i];
      assert questions[..i] == questions[..|answers|][..i];
      assert other[..i] == other[..|answers|][..i];
      CorrectCountOnlyReadsPrefix(questions, other, answers[..i]);
    }
  }
}
