/** The shared records of types.ts, as the values the running code actually holds. */
module Types {

  /**
   * A JSON value as `JSON.parse` produces it. Object properties that are
   * absent are simply not keys of `fields`.
   */
  datatype Json =
    | JNull
    | JBool(b: bool)
    | JNum(n: real)
    | JStr(s: string)
    | JArr(items: seq<Json>)
    | JObj(fields: map<string, Json>)

  /**
   * One multiple-choice question. The declared type promises string options
   * and a numeric index; at run time the options are whatever values the
   * producer put there and the index is any JavaScript number, so the model
   * keeps them as `Json` values and a `real`.
   */
  datatype Question = Question(question: string, options: seq<Json>, correctAnswerIndex: real)

  /** The shape every producer of questions is meant to guarantee: four options, index in [0, 4). */
  predicate WellFormed(q: Question)
  {
    |q.options| == 4 && 0.0 <= q.correctAnswerIndex < 4.0
  }

  /** What the declared type promises on top: string options and an integral index. */
  predicate Typed(q: Question)
  {
    && WellFormed(q)
    && q.correctAnswerIndex == q.correctAnswerIndex.Floor as real
    && forall i :: 0 <= i < |q.options| ==> q.options[i].JStr?
  }

  /** The live test: the questions and the time limit in minutes. */
  datatype TestConfig = TestConfig(questions: seq<Question>, timeLimit: int)

  /** `number | null`: the index of the option picked, or not answered. */
  datatype Answer = Unanswered | Picked(option: int)

  /** The screens the application routes between. */
  datatype AppState = Home | TutorLogin | TutorDashboard | StudentTest | StudentResults

  /** `Array(n).fill(null)`. */
  function AllUnanswered(n: nat): (r: seq<Answer>)
    ensures |r| == n
    ensures forall i :: 0 <= i < n ==> r[i] == Unanswered
  {
    seq(n, _ => Unanswered)
  }
}
