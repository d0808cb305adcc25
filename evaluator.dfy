/** The answer evaluator (phase4_answer_evaluation/evaluator.py): the
    short-circuit for unanswered questions, the clean-up of a model's reply,
    the recovery of a JSON object from a noisy reply, the field defaults, the
    loop over candidate models and the fixed fallback result. The models and
    `json.loads` are oracles: `respond` gives the reply of the model of a
    given name, `decode` what `json.loads` makes of a text. */
module Evaluator {
  import opened Wrappers
  import opened PyStrings

  /** `EvaluationResult`: a score meant to lie in 0..10 and four texts. */
  datatype EvaluationResult = EvaluationResult(
    score: int,
    feedback: string,
    missingKeywords: seq<string>,
    improvements: string,
    idealAnswer: string)

  /** The result for an answer that was left empty or skipped. */
  const NotAnswered: EvaluationResult := EvaluationResult(
    0,
    "This question was not answered or skipped.",
    [],
    "Please provide a detailed response to receive feedback.",
    "A good answer would address the specific technical or behavioral aspects of the question.")

  /** The text the browser sends for an unanswered question, lower-cased. */
  const PlaceholderMarker: string := "no answer provided"

  const FallbackPrefix: string := "Evaluation service unavailable. Error: "

  /** The models asked, in this order. */
  const EvaluatorModels: seq<string> := ["gemini-2.0-flash", "gemini-flash-latest", "gemini-2.5-flash-lite"]

  /** A Markdown code fence. */
  const Fence: string := "```"

  /** What `str(last_error)` is before any model failed. */
  const NoError: string := "None"

  /** An answer that is empty, blank, or contains the placeholder in any case. */
  predicate IsPlaceholder(answer: string) {
    answer == "" || Strip(answer) == "" || Contains(Lower(answer), PlaceholderMarker)
  }

  /** A placeholder answer is exactly an answer made of whitespace only, or
      one whose lower-cased text contains "no answer provided". */
  lemma PlaceholderCases(answer: string)
    ensures IsPlaceholder(answer) <==>
      (forall i :: 0 <= i < |answer| ==> IsSpace(answer[i]))
      || Contains(Lower(answer), PlaceholderMarker)
  {
    StripEmptyIffBlank(answer);
  }

  /** `_fallback_evaluate(..., error_msg)` */
  function Fallback(errorMessage: string): (r: EvaluationResult)
    ensures r.score == 5 && r.missingKeywords == [] && r.idealAnswer == ""
    ensures r.improvements == "Check API Quota or Connection."
    ensures StartsWith(r.feedback, FallbackPrefix)
  {
    EvaluationResult(5, FallbackPrefix + errorMessage, [], "Check API Quota or Connection.", "")
  }

  /** The error text can be read back from the fallback's feedback. */
  lemma FallbackKeepsError(errorMessage: string)
    ensures Fallback(errorMessage).feedback[|FallbackPrefix|..] == errorMessage
  {
  }

  /** The fallback is never mistaken for the unanswered result. */
  lemma FallbackIsNotNotAnswered(errorMessage: string)
    ensures Fallback(errorMessage) != NotAnswered
  {
  }

  /** The clean-up of a reply: strip, drop a leading "```json", then a
      leading "```", then a trailing "```", strip again. */
  function Cleanup(text: string): (r: string)
    ensures IsStripped(r)
  {
    Strip(DropSuffix(DropPrefix(DropPrefix(Strip(text), Fence + "json"), Fence), Fence))
  }

  /** A reply wrapped in a ```json fence is cleaned to its stripped body. */
  lemma CleanupRemovesJsonFence(body: string)
    requires body == [] || body[0] != '`'
    ensures Cleanup(Fence + "json" + body + Fence) == Strip(body)
  {
    if body == [] {
      CleanupOfEmptyJsonFence();
    } else {
      CleanupOfJsonFence(body);
    }
  }

  lemma CleanupOfEmptyJsonFence()
    ensures Cleanup(Fence + "json" + [] + Fence) == Strip([])
  {
    var fenced := Fence + "json" + Fence;
    assert Fence + "json" + [] + Fence == fenced;
    StripOfStripped(fenced);
    DropPrefixOfConcat(Fence + "json", Fence);
    DropPrefixSelf(Fence);
    StripOfStripped([]);
  }

  lemma CleanupOfJsonFence(body: string)
    requires body != [] && body[0] != '`'
    ensures Cleanup(Fence + "json" + body + Fence) == Strip(body)
  {
    var inner := body + Fence;
    var fenced := Fence + "json" + inner;
    assert fenced == Fence + "json" + body + Fence;
    assert IsStripped(fenced);
    StripOfStripped(fenced);
    DropPrefixOfConcat(Fence + "json", inner);
    assert inner[0] == body[0];
    DropPrefixMismatch(inner, Fence);
    DropSuffixOfConcat(body, Fence);
  }

  /** A reply that is already stripped and has no fence is left as it is. */
  lemma CleanupKeepsPlainText(text: string)
    requires IsStripped(text) && !StartsWith(text, Fence) && !EndsWith(text, Fence)
    ensures Cleanup(text) == text
  {
    StripOfStripped(text);
    DropPrefixLonger(text, Fence, "json");
  }

  /** The last-resort recovery: the text from the first "{" through the last
      "}"; `None` is the `ValueError` raised when there is no "{". The check
      `end != -1` never fails, since `end` is an index plus one. */
  function BraceSlice(text: string): (r: Option<string>)
    ensures r.None? <==> forall j :: !MatchesAt(text, "{", j)
    ensures r.Some? && RFind(text, "}") >= Find(text, "{") ==>
      StartsWith(r.value, "{") && EndsWith(r.value, "}")
      && r.value == text[Find(text, "{")..RFind(text, "}") + 1]
    ensures r.Some? && RFind(text, "}") < Find(text, "{") ==> r.value == ""
  {
    var start := Find(text, "{");
    var end := RFind(text, "}") + 1;
    if start != -1 && end != -1 then Some(Slice(text, start, end)) else None
  }

  /** A recovered object is a piece of the text, between the first "{" and the last "}". */
  lemma BraceSliceOfWrapped(prefix: string, body: string, suffix: string)
    requires forall j :: 0 <= j < |prefix| ==> prefix[j] != '{'
    requires forall j :: 0 <= j < |suffix| ==> suffix[j] != '}'
    ensures BraceSlice(prefix + "{" + body + "}" + suffix) == Some("{" + body + "}")
  {
    var text := prefix + "{" + body + "}" + suffix;
    var start := |prefix|;
    var last := |prefix| + 1 + |body|;
    assert MatchesAt(text, "{", start);
    assert MatchesAt(text, "}", last);
    forall j | 0 <= j < start ensures !MatchesAt(text, "{", j) {
      assert text[j] == prefix[j];
    }
    forall j | last < j ensures !MatchesAt(text, "}", j) {
      if j < |text| {
        assert text[j] == suffix[j - last - 1];
      }
    }
    assert Find(text, "{") == start;
    assert RFind(text, "}") == last;
    assert text[start..last + 1] == "{" + body + "}";
  }

  /** The fields of a decoded JSON object that the result reads. */
  datatype EvalFields = EvalFields(
    score: Option<int>,
    feedback: Option<string>,
    missingKeywords: Option<seq<string>>,
    improvements: Option<string>,
    idealAnswer: Option<string>)

  /** What `json.loads` returns. `Rejected` is an object whose fields the
      result type refuses; `NotObject` is a list, a string or a scalar, which
      have no `get`. */
  datatype Decoded =
    | DecodeError(error: string)
    | Object(fields: EvalFields)
    | Rejected(error: string)
    | NotObject(typeName: string)

  /** The result built from a decoded object, absent fields taking their defaults. */
  function FromFields(f: EvalFields): EvaluationResult {
    EvaluationResult(
      f.score.GetOr(0),
      f.feedback.GetOr("No feedback provided."),
      f.missingKeywords.GetOr([]),
      f.improvements.GetOr("No specific improvements suggested."),
      f.idealAnswer.GetOr("No ideal answer provided."))
  }

  /** The object that carries every field of `r`. */
  function FieldsOf(r: EvaluationResult): EvalFields {
    EvalFields(Some(r.score), Some(r.feedback), Some(r.missingKeywords), Some(r.improvements), Some(r.idealAnswer))
  }

  /** Fields present in the reply are kept; a complete object gives back exactly its result. */
  lemma FromFieldsRoundTrip(r: EvaluationResult)
    ensures FromFields(FieldsOf(r)) == r
  {
  }

  /** An empty object gives the documented defaults. */
  lemma FromFieldsDefaults()
    ensures FromFields(EvalFields(None, None, None, None, None))
      == EvaluationResult(0, "No feedback provided.", [], "No specific improvements suggested.", "No ideal answer provided.")
  {
  }

  /** A model's reply: an exception, or the reply text. */
  datatype EvalReply = EvalThrew(error: string) | EvalText(text: string)

  /** What one model contributes: a result, or the exception it ended with. */
  datatype EvalAttempt = Scored(result: EvaluationResult) | EvalFailed(error: string)

  /** The outcome of a decoded object, or the exception raised on the way. */
  function OutcomeOf(d: Decoded): EvalAttempt {
    match d
    case DecodeError(e) => EvalFailed(e)
    case Object(f) => Scored(FromFields(f))
    case Rejected(e) => EvalFailed(e)
    case NotObject(t) => EvalFailed("'" + t + "' object has no attribute 'get'")
  }

  /** What the `try` block makes of a cleaned reply text: decode it, and
      on a decoding error decode the brace slice instead. */
  function ParsedAttempt(text: string, decode: string -> Decoded): EvalAttempt {
    match decode(text)
    case DecodeError(_) =>
      (match BraceSlice(text)
       case None => EvalFailed("Could not parse JSON from LLM response")
       case Some(piece) => OutcomeOf(decode(piece)))
    case other => OutcomeOf(other)
  }

  /** The body of the `try` for one model. */
  function AttemptOf(reply: EvalReply, decode: string -> Decoded): EvalAttempt {
    match reply
    case EvalThrew(e) => EvalFailed(e)
    case EvalText(raw) => ParsedAttempt(Cleanup(raw), decode)
  }

  /** A reply the decoder accepts as an object is scored from that object
      and the brace recovery is not used. */
  lemma DecodedReplyIsScored(raw: string, decode: string -> Decoded)
    requires decode(Cleanup(raw)).Object?
    ensures AttemptOf(EvalText(raw), decode) == Scored(FromFields(decode(Cleanup(raw)).fields))
  {
  }

  /** A reply the decoder refuses, with no "{" in it, fails with the parse error. */
  lemma ReplyWithoutBrace(raw: string, decode: string -> Decoded)
    requires decode(Cleanup(raw)).DecodeError?
    requires forall i :: 0 <= i < |Cleanup(raw)| ==> Cleanup(raw)[i] != '{'
    ensures AttemptOf(EvalText(raw), decode) == EvalFailed("Could not parse JSON from LLM response")
  {
    AbsentCharNotFound(Cleanup(raw), '{');
  }

  /** What each model contributes, by name, for the given models and decoder. */
  function AttemptsOf(respond: string -> EvalReply, decode: string -> Decoded): string -> EvalAttempt {
    name => AttemptOf(respond(name), decode)
  }

  /** The models from the first in `models` on, `lastError` being `str(last_error)` so far. */
  function TryEvaluators(models: seq<string>, attempt: string -> EvalAttempt, lastError: string): EvaluationResult
    decreases |models|
  {
    if models == [] then Fallback(lastError)
    else
      match attempt(models[0])
      case Scored(r) => r
      case EvalFailed(e) => TryEvaluators(models[1..], attempt, e)
  }

  /** `evaluate(question, answer)`, the API key being `apiKey`. */
  function Evaluation(answer: string, apiKey: Option<string>,
                      respond: string -> EvalReply, decode: string -> Decoded): EvaluationResult {
    if IsPlaceholder(answer) then NotAnswered
    else if apiKey.None? || apiKey.value == "" then Fallback("API Key missing")
    else TryEvaluators(EvaluatorModels, AttemptsOf(respond, decode), NoError)
  }

  /** The first model that produces a result decides it. */
  lemma {:induction false} FirstScoredWins(models: seq<string>, attempt: string -> EvalAttempt,
                                           lastError: string, k: nat)
    requires k < |models| && attempt(models[k]).Scored?
    requires forall j :: 0 <= j < k ==> attempt(models[j]).EvalFailed?
    ensures TryEvaluators(models, attempt, lastError) == attempt(models[k]).result
  {
    if k > 0 {
      var rest := models[1..];
      assert forall j :: 0 <= j < k - 1 ==> rest[j] == models[j + 1];
      FirstScoredWins(rest, attempt, attempt(models[0]).error, k - 1);
    }
  }

  /** When every model fails, the fallback carries the exception of the
      last one: each failing model overwrites `last_error`, so the initial
      `None` never shows once a model was asked. */
  lemma {:induction false} AllFailedCarriesLastError(models: seq<string>, attempt: string -> EvalAttempt,
                                                     lastError: string)
    requires models != []
    requires forall j :: 0 <= j < |models| ==> attempt(models[j]).EvalFailed?
    ensures TryEvaluators(models, attempt, lastError) == Fallback(attempt(models[|models| - 1]).error)
    decreases |models|
  {
    var rest := models[1..];
    if rest != [] {
      assert forall j :: 0 <= j < |rest| ==> rest[j] == models[j + 1];
      AllFailedCarriesLastError(rest, attempt, attempt(models[0]).error);
    }
  }

  /** A placeholder answer is scored 0 without asking any model, whatever the key and the models. */
  lemma PlaceholderScoresZero(answer: string, apiKey: Option<string>,
                              respond: string -> EvalReply, decode: string -> Decoded)
    requires IsPlaceholder(answer)
    ensures Evaluation(answer, apiKey, respond, decode).score == 0
    ensures Evaluation(answer, apiKey, respond, decode) == NotAnswered
  {
  }

  /** The clean-up steps of the `try` block, reassigning `text`. */
  method CleanReply(raw: string) returns (text: string)
    ensures text == Cleanup(raw)
  {
    text := Strip(raw);
    ghost var t0 := text;
    if StartsWith(text, Fence + "json") {
      text := text[7..];
    }
    assert text == DropPrefix(t0, Fence + "json");
    ghost var t1 := text;
    if StartsWith(text, Fence) {
      text := text[3..];
    }
    assert text == DropPrefix(t1, Fence);
    ghost var t2 := text;
    if EndsWith(text, Fence) {
      text := text[..|text| - 3];
    }
    assert text == DropSuffix(t2, Fence);
    text := Strip(text);
  }

  /** Decoding a cleaned reply, with the last-resort brace recovery. */
  method ParseReply(text: string, decode: string -> Decoded) returns (a: EvalAttempt)
    ensures a == ParsedAttempt(text, decode)
  {
    var data := decode(text);
    if data.DecodeError? {
      var start := Find(text, "{");
      var end := RFind(text, "}") + 1;
      if start != -1 && end != -1 {
        data := decode(Slice(text, start, end));
      } else {
        a := EvalFailed("Could not parse JSON from LLM response");
        return;
      }
    }
    a := OutcomeOf(data);
  }

  /** The `try` block for one model. */
  method AskEvaluator(name: string, respond: string -> EvalReply, decode: string -> Decoded)
    returns (a: EvalAttempt)
    ensures a == AttemptOf(respond(name), decode)
  {
    var reply := respond(name);
    match reply {
      case EvalThrew(e) =>
        a := EvalFailed(e);
      case EvalText(raw) =>
        var text := CleanReply(raw);
        a := ParseReply(text, decode);
    }
  }

  /** The loop over the models of `evaluate`: the result and the models asked, in order. */
  method AskInOrder(models: seq<string>, respond: string -> EvalReply, decode: string -> Decoded)
    returns (result: EvaluationResult, asked: seq<string>)
    ensures result == TryEvaluators(models, AttemptsOf(respond, decode), NoError)
    ensures asked <= models
    ensures models != [] ==> asked != []
  {
    asked := [];
    ghost var attempts := AttemptsOf(respond, decode);
    var lastError := NoError;
    var i := 0;
    while i < |models|
      invariant 0 <= i <= |models|
      invariant asked == models[..i]
      invariant TryEvaluators(models, attempts, NoError) == TryEvaluators(models[i..], attempts, lastError)
    {
      var name := models[i];
      asked := asked + [name];
      assert models[i..][0] == name && models[i..][1..] == models[i + 1..];
      var attempt := AskEvaluator(name, respond, decode);
      assert attempt == attempts(name);
      match attempt {
        case Scored(r) =>
          result := r;
          return;
        case EvalFailed(e) =>
          lastError := e;
      }
      i := i + 1;
    }
    result := Fallback(lastError);
  }

  /** `evaluate(question, answer)`: the evaluation and the models asked, in order. */
  method Evaluate(answer: string, apiKey: Option<string>, respond: string -> EvalReply, decode: string -> Decoded)
    returns (result: EvaluationResult, asked: seq<string>)
    ensures result == Evaluation(answer, apiKey, respond, decode)
    ensures IsPlaceholder(answer) || apiKey.None? || apiKey.value == "" <==> asked == []
    ensures asked <= EvaluatorModels
  {
    if IsPlaceholder(answer) {
      return NotAnswered, [];
    }
    if apiKey.None? || apiKey.value == "" {
      return Fallback("API Key missing"), [];
    }
    result, asked := AskInOrder(EvaluatorModels, respond, decode);
  }
}
