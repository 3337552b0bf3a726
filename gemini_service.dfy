/**
 * The checks `generateQuestions` applies around the AI request: the API key
 * precondition and the validation of the parsed response. The request, the
 * response text and `JSON.parse` are outside the model; their outcome is an
 * input (`None` when any of them failed).
 */
module GeminiService {
  import opened Wrappers
  import opened Types

  const MissingKeyMessage: string := "API_KEY environment variable not set"
  const FailureMessage: string := "Failed to generate questions. Please check the console for more details."

  /** JavaScript truthiness of a JSON value. */
  predicate Truthy(j: Json)
  {
    match j
    case JNull => false
    case JBool(b) => b
    case JNum(n) => n != 0.0
    case JStr(s) => s != ""
    case JArr(_) => true
    case JObj(_) => true
  }

  /** `j.key` for a value that is not `null`: only objects have the named properties read here. */
  function Property(j: Json, key: string): Option<Json>
  {
    if j.JObj? && key in j.fields then Some(j.fields[key]) else None
  }

  /** The filter predicate (reading a property of `null` throws instead). */
  predicate PassesFilter(q: Json)
  {
    var text, options, index := Property(q, "question"), Property(q, "options"), Property(q, "correctAnswerIndex");
    && text.Some? && text.value.JStr?
    && options.Some? && options.value.JArr? && |options.value.items| == 4
    && index.Some? && index.value.JNum? && 0.0 <= index.value.n < 4.0
  }

  /** A candidate that passed, seen as the question it is returned as. */
  function AsQuestion(q: Json): (r: Question)
    requires PassesFilter(q)
    ensures WellFormed(r)
  {
    Question(q.fields["question"].s, q.fields["options"].items, q.fields["correctAnswerIndex"].n)
  }

  /**
   * `parsed.questions.filter(...)`: the candidates that pass, in order, or
   * `None` when a `null` candidate makes the predicate throw.
   */
  function FilterCandidates(candidates: seq<Json>): (r: Option<seq<Question>>)
    ensures r.None? <==> JNull in candidates
    ensures r.Some? ==> |r.value| <= |candidates| && forall i :: 0 <= i < |r.value| ==> WellFormed(r.value[i])
  {
    if candidates == [] then Some([])
    else
      var last := candidates[|candidates| - 1];
      var front := FilterCandidates(candidates[..|candidates| - 1]);
      assert candidates == candidates[..|candidates| - 1] + [last];
      if front.None? || last == JNull then None
      else if PassesFilter(last) then Some(front.value + [AsQuestion(last)])
      else front
  }

  /**
   * The `try` block after the response is parsed: the `questions` field must
   * be an array, and every failure inside the block surfaces as the one
   * generic message.
   */
  function ValidateResponse(parsed: Json): (r: Result<seq<Question>, string>)
    ensures r.Err? ==> r.error == FailureMessage
    ensures r.Ok? ==> forall i :: 0 <= i < |r.value| ==> WellFormed(r.value[i])
  {
    var questions := Property(parsed, "questions");
    if !Truthy(parsed) || questions.None? || !questions.value.JArr? then Err(FailureMessage)
    else
      match FilterCandidates(questions.value.items)
      case None => Err(FailureMessage)
      case Some(accepted) => Ok(accepted)
  }

  /** `generateQuestions` with the API key (`None` when unset) and the parsed reply. */
  function GenerateQuestions(apiKey: Option<string>, reply: Option<Json>): (r: Result<seq<Question>, string>)
    ensures r.Err? ==> r.error == MissingKeyMessage || r.error == FailureMessage
    ensures r.Ok? ==> forall i :: 0 <= i < |r.value| ==> WellFormed(r.value[i])
  {
    if apiKey.None? || apiKey.value == "" then Err(MissingKeyMessage)
    else if reply.None? then Err(FailureMessage)
    else ValidateResponse(reply.value)
  }

  // ---------------------------------------------------------------------------

  /** The candidate indices that pass, in increasing order. */
  function AcceptedCandidates(candidates: seq<Json>): seq<nat>
  {
    if candidates == [] then []
    else
      AcceptedCandidates(candidates[..|candidates| - 1])
      + if PassesFilter(candidates[|candidates| - 1]) then [|candidates| - 1] else []
  }

  /** The k-th accepted question is the k-th passing candidate. */
  lemma {:induction false} AcceptedYieldQuestions(candidates: seq<Json>)
    requires JNull !in candidates
    ensures var qs, idx := FilterCandidates(candidates).value, AcceptedCandidates(candidates);
      && |idx| == |qs|
      && (forall k :: 0 <= k < |idx| ==>
            idx[k] < |candidates| && PassesFilter(candidates[idx[k]]) && qs[k] == AsQuestion(candidates[idx[k]]))
  {
    if candidates != [] {
      var front := candidates[..|candidates| - 1];
      assert candidates == front + [candidates[|candidates| - 1]];
      AcceptedYieldQuestions(front);
      assert forall i :: 0 <= i < |front| ==> candidates[i] == front[i];
    }
  }

  /** The passing candidates are listed in increasing order, each an index into the candidates. */
  lemma {:induction false} AcceptedIncreasing(candidates: seq<Json>)
    ensures var idx := AcceptedCandidates(candidates);
      && (forall k :: 0 <= k < |idx| ==> idx[k] < |candidates|)
      && (forall k, l :: 0 <= k < l < |idx| ==> idx[k] < idx[l])
  {
    if candidates != [] {
      var front := candidates[..|candidates| - 1];
      AcceptedIncreasing(front);
      var last: seq<nat> := if PassesFilter(candidates[|candidates| - 1]) then [|candidates| - 1] else [];
      assert AcceptedCandidates(candidates) == AcceptedCandidates(front) + last;
    }
  }

  /** A candidate is listed exactly when it passes. */
  lemma {:induction false} AcceptedComplete(candidates: seq<Json>)
    ensures forall i :: 0 <= i < |candidates| ==> (PassesFilter(candidates[i]) <==> i in AcceptedCandidates(candidates))
  {
    if candidates != [] {
      var front := candidates[..|candidates| - 1];
      AcceptedComplete(front);
      AcceptedIncreasing(front);
      var last: seq<nat> := if PassesFilter(candidates[|candidates| - 1]) then [|candidates| - 1] else [];
      assert AcceptedCandidates(candidates) == AcceptedCandidates(front) + last;
      forall i | 0 <= i < |candidates|
        ensures PassesFilter(candidates[i]) <==> i in AcceptedCandidates(candidates)
      {
        if i < |front| {
          assert candidates[i] == front[i];
          assert i in AcceptedCandidates(front) <==> PassesFilter(front[i]);
        } else {
          assert i !in AcceptedCandidates(front);
        }
      }
    }
  }

  /**
   * The accepted questions are the passing candidates in their original
   * order: the k-th comes from the k-th passing candidate, and a candidate is
   * accepted exactly when it passes.
   */
  lemma FilterSelectsInOrder(candidates: seq<Json>)
    requires JNull !in candidates
    ensures var qs, idx := FilterCandidates(candidates).value, AcceptedCandidates(candidates);
      && |idx| == |qs|
      && (forall k :: 0 <= k < |idx| ==>
            idx[k] < |candidates| && PassesFilter(candidates[idx[k]]) && qs[k] == AsQuestion(candidates[idx[k]]))
      && (forall k, l :: 0 <= k < l < |idx| ==> idx[k] < idx[l])
      && (forall i :: 0 <= i < |candidates| ==> (PassesFilter(candidates[i]) <==> i in idx))
  {
    AcceptedYieldQuestions(candidates);
    AcceptedIncreasing(candidates);
    AcceptedComplete(candidates);
  }

  /** A missing key fails before any request, with its own message. */
  lemma MissingKeyFailsFirst(apiKey: Option<string>, reply: Option<Json>)
    requires apiKey.None? || apiKey == Some("")
    ensures GenerateQuestions(apiKey, reply) == Err(MissingKeyMessage)
  {
  }

  /**
   * With a key, the call fails exactly when the request failed, the reply has
   * no `questions` array, or a candidate is `null`; every such failure carries
   * the generic message. Dropping invalid candidates never fails the call.
   */
  lemma GenerateQuestionsOutcome(apiKey: Option<string>, reply: Option<Json>)
    requires apiKey.Some? && apiKey.value != ""
    ensures var r := GenerateQuestions(apiKey, reply);
      && (r.Err? ==> r.error == FailureMessage)
      && (r.Ok? <==>
            && reply.Some? && reply.value.JObj? && "questions" in reply.value.fields
            && reply.value.fields["questions"].JArr?
            && JNull !in reply.value.fields["questions"].items)
      && (r.Ok? ==> r.value == FilterCandidates(reply.value.fields["questions"].items).value)
  {
  }

  /** The filter checks neither integrality of the index nor the type of the options. */
  lemma FractionalIndexPasses()
    ensures var q := JObj(map["question" := JStr("?"), "options" := JArr([JNum(1.0), JNull, JBool(true), JStr("")]),
                              "correctAnswerIndex" := JNum(1.5)]);
      PassesFilter(q) && WellFormed(AsQuestion(q)) && !Typed(AsQuestion(q))
  {
    var q := JObj(map["question" := JStr("?"), "options" := JArr([JNum(1.0), JNull, JBool(true), JStr("")]),
                      "correctAnswerIndex" := JNum(1.5)]);
    assert AsQuestion(q).correctAnswerIndex.Floor == 1;
  }
}
