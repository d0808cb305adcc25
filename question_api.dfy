/** The decision logic of the question service's HTTP endpoints
    (phase3_backend_question_gen/main.py): request validation, the cache key,
    the three levels cache, generation and static fallback for
    `/generate_questions`, and the input check of `/evaluate_answer`. The
    cache file is a map held by the service object; the language models are
    the oracles of the generator and the evaluator. */
module QuestionApi {
  import opened Wrappers
  import opened PyStrings
  import opened Questions
  import FallbackSelection
  import QuestionGenerator
  import Evaluator

  /** The body of a `/generate_questions` request. */
  datatype QuestionRequest = QuestionRequest(
    resumeText: string,
    jobDescription: string,
    difficulty: string,
    numQuestions: int,
    autoSelectCount: bool)

  /** A response: the questions, or an HTTP error with its status and detail. */
  datatype QuestionResponse = Questions(questions: seq<Question>) | QuestionError(status: int, detail: string)

  /** The role every request is generated for. */
  const Role: string := "Software Engineer"

  /** The resume characters the cache key looks at. */
  const KeyResumeLimit: nat := 5000

  const ValidDifficulties: seq<string> := ["easy", "medium", "hard", "mixed"]

  /** `str(b)` for a boolean. */
  function BoolToStr(b: bool): string {
    if b then "True" else "False"
  }

  /** The text `get_cache_key` hashes: the first 5000 characters of the
      resume, the role, the count, the difficulty, the job description and
      the flag, with no separators. The model keys the cache by this text. */
  function CacheKeyText(resumeText: string, role: string, numQuestions: int, difficulty: string,
                        jobDescription: string, autoSelectCount: bool): string {
    Take(resumeText, KeyResumeLimit) + role + IntToStr(numQuestions) + difficulty
      + jobDescription + BoolToStr(autoSelectCount)
  }

  /** The key of a request. */
  function KeyOf(req: QuestionRequest): string {
    CacheKeyText(req.resumeText, Role, req.numQuestions, req.difficulty, req.jobDescription, req.autoSelectCount)
  }

  /** Resume characters past the 5000th never change the key. */
  lemma CacheKeyIgnoresResumeTail(a: QuestionRequest, b: QuestionRequest)
    requires KeyResumeLimit <= |a.resumeText| && KeyResumeLimit <= |b.resumeText|
    requires a.resumeText[..KeyResumeLimit] == b.resumeText[..KeyResumeLimit]
    requires a.jobDescription == b.jobDescription && a.difficulty == b.difficulty
    requires a.numQuestions == b.numQuestions && a.autoSelectCount == b.autoSelectCount
    ensures KeyOf(a) == KeyOf(b)
  {
    assert Take(a.resumeText, KeyResumeLimit) == Take(b.resumeText, KeyResumeLimit);
  }

  /** With no separators, moving text from the start of the job description
      to the end of a short resume can give the same key: two requests that
      differ in both fields share one cache entry. */
  lemma CacheKeyNoSeparators(resumeText: string, jobDescription: string, numQuestions: int,
                             difficulty: string, autoSelectCount: bool)
    requires |resumeText| + |Role| + |IntToStr(numQuestions)| + |difficulty| <= KeyResumeLimit
    ensures
      var moved := Role + IntToStr(numQuestions) + difficulty;
      var a := QuestionRequest(resumeText, moved + jobDescription, difficulty, numQuestions, autoSelectCount);
      var b := QuestionRequest(resumeText + moved, jobDescription, difficulty, numQuestions, autoSelectCount);
      a != b && KeyOf(a) == KeyOf(b)
  {
    var moved := Role + IntToStr(numQuestions) + difficulty;
    var a := QuestionRequest(resumeText, moved + jobDescription, difficulty, numQuestions, autoSelectCount);
    var b := QuestionRequest(resumeText + moved, jobDescription, difficulty, numQuestions, autoSelectCount);
    var n := IntToStr(numQuestions);
    var flag := BoolToStr(autoSelectCount);
    assert |b.resumeText| != |a.resumeText|;
    assert Take(a.resumeText, KeyResumeLimit) == resumeText;
    assert Take(b.resumeText, KeyResumeLimit) == resumeText + moved;
    var head := resumeText + moved;
    assert resumeText + Role + n + difficulty == head;
    assert KeyOf(a) == head + (moved + jobDescription) + flag;
    assert KeyOf(b) == head + moved + jobDescription + flag;
    assert head + (moved + jobDescription) == head + moved + jobDescription;
  }

  /** The validation of `/generate_questions`, in its order: the generator
      must exist, the count lie in 1..20, the difficulty be a known one. */
  function Validate(generatorReady: bool, req: QuestionRequest): (r: Option<QuestionResponse>)
    ensures r.None? <==> generatorReady && 1 <= req.numQuestions <= 20 && req.difficulty in ValidDifficulties
    ensures !generatorReady ==> r == Some(QuestionError(500, "QuestionGenerator not initialized"))
    ensures generatorReady && !(1 <= req.numQuestions <= 20) ==> r.Some? && r.value.QuestionError? && r.value.status == 400
    ensures generatorReady && req.difficulty !in ValidDifficulties ==> r.Some? && r.value.QuestionError? && r.value.status == 400
    ensures r.Some? ==> r.value.QuestionError?
  {
    if !generatorReady then Some(QuestionError(500, "QuestionGenerator not initialized"))
    else if req.numQuestions < 1 || req.numQuestions > 20 then
      Some(QuestionError(400, "num_questions must be between 1 and 20"))
    else if req.difficulty !in ValidDifficulties then
      Some(QuestionError(400, "difficulty must be one of: ['easy', 'medium', 'hard', 'mixed']"))
    else None
  }

  /** Twenty questions are accepted and twenty-one refused. */
  lemma CountBounds(req: QuestionRequest)
    requires req.difficulty == "mixed"
    ensures Validate(true, req.(numQuestions := 20)).None?
    ensures Validate(true, req.(numQuestions := 21)) == Some(QuestionError(400, "num_questions must be between 1 and 20"))
  {
  }

  /** `/generate_questions` on the cache `cache`, `generation` being what the
      generator would do with the request: the response and the new cache. */
  function Handle(generatorReady: bool, req: QuestionRequest, cache: map<string, seq<Question>>,
                  generation: QuestionGenerator.Generation): (r: (QuestionResponse, map<string, seq<Question>>))
    ensures Validate(generatorReady, req).Some? ==> r == (Validate(generatorReady, req).value, cache)
    ensures Validate(generatorReady, req).None? && KeyOf(req) in cache ==>
      r == (Questions(cache[KeyOf(req)]), cache)
    ensures Validate(generatorReady, req).None? && KeyOf(req) !in cache && generation.Returned? ==>
      r.0 == Questions(generation.questions)
      && KeyOf(req) in r.1 && r.1[KeyOf(req)] == generation.questions
      && forall k :: k != KeyOf(req) ==> (k in r.1 <==> k in cache) && (k in cache ==> r.1[k] == cache[k])
    ensures Validate(generatorReady, req).None? && KeyOf(req) !in cache && generation.Raised? ==>
      r == (Questions(FallbackSelection.Selection(req.resumeText, req.numQuestions)), cache)
  {
    var invalid := Validate(generatorReady, req);
    if invalid.Some? then (invalid.value, cache)
    else
      var key := KeyOf(req);
      if key in cache then (Questions(cache[key]), cache)
      else
        match generation
        case Returned(qs) => (Questions(qs), cache[key := qs])
        case Raised(_) => (Questions(FallbackSelection.Selection(req.resumeText, req.numQuestions)), cache)
  }

  /** A request answered by the generator is answered from the cache the
      next time, with the same questions and no change to the cache. */
  lemma RepeatedRequestHitsCache(generatorReady: bool, req: QuestionRequest,
                                 cache: map<string, seq<Question>>,
                                 first: QuestionGenerator.Generation, second: QuestionGenerator.Generation)
    requires first.Returned?
    ensures
      var (resp1, cache1) := Handle(generatorReady, req, cache, first);
      Handle(generatorReady, req, cache1, second) == (resp1, cache1)
  {
  }

  /** A failing generator yields the static fallback, which never exceeds the
      requested count and never repeats an id. */
  lemma FallbackResponseBounds(req: QuestionRequest, cache: map<string, seq<Question>>, error: string)
    requires Validate(true, req).None? && KeyOf(req) !in cache
    ensures
      var r := Handle(true, req, cache, QuestionGenerator.Raised(error)).0;
      r.Questions? && 1 <= |r.questions| <= req.numQuestions && DistinctIds(r.questions)
  {
    FallbackSelection.SelectionIsMatchedThenBehavioral(req.resumeText, req.numQuestions);
    FallbackSelection.SelectionFromBank(req.resumeText, req.numQuestions);
    FallbackSelection.BankShape();
  }

  /** The question service: the cache it persists between requests and
      whether its generator could be built (it needs an API key). */
  class QuestionService {
    var cache: map<string, seq<Question>>
    const generatorReady: bool

    constructor (generatorReady: bool, cache: map<string, seq<Question>>)
      ensures this.generatorReady == generatorReady && this.cache == cache
    {
      this.generatorReady := generatorReady;
      this.cache := cache;
    }

    /** `/generate_questions`: also returns the models the generator asked,
        none when the request is refused or served from the cache. */
    method GenerateQuestions(req: QuestionRequest, respond: string -> QuestionGenerator.Reply,
                             decode: string -> QuestionGenerator.JsonDoc)
      returns (resp: QuestionResponse, asked: seq<string>)
      modifies this
      ensures (resp, cache) == Handle(generatorReady, req, old(cache),
                                      QuestionGenerator.TryModels(QuestionGenerator.CandidateModels, respond, decode, None))
      ensures asked != [] <==> Validate(generatorReady, req).None? && KeyOf(req) !in old(cache)
    {
      asked := [];
      if !generatorReady {
        resp := QuestionError(500, "QuestionGenerator not initialized");
        return;
      }
      if req.numQuestions < 1 || req.numQuestions > 20 {
        resp := QuestionError(400, "num_questions must be between 1 and 20");
        return;
      }
      if req.difficulty !in ValidDifficulties {
        resp := QuestionError(400, "difficulty must be one of: ['easy', 'medium', 'hard', 'mixed']");
        return;
      }
      var key := KeyOf(req);
      if key in cache {
        resp := Questions(cache[key]);
        return;
      }
      var generation;
      generation, asked := QuestionGenerator.GenerateQuestions(respond, decode);
      match generation {
        case Returned(qs) =>
          cache := cache[key := qs];
          resp := Questions(qs);
        case Raised(_) =>
          var fallback := FallbackSelection.FallbackQuestions(req.resumeText, req.numQuestions);
          resp := Questions(fallback);
      }
    }
  }

  /** A response of `/evaluate_answer`. */
  datatype AnswerResponse = Evaluated(result: Evaluator.EvaluationResult) | AnswerError(status: int, detail: string)

  /** `/evaluate_answer` for the body fields `question` and `answer` (absent
      when the key is missing); `loadError` is the exception raised while
      loading the evaluator, if any. */
  function AnswerResponseOf(question: Option<string>, answer: Option<string>, loadError: Option<string>,
                            apiKey: Option<string>, respond: string -> Evaluator.EvalReply,
                            decode: string -> Evaluator.Decoded): (r: AnswerResponse)
    ensures r == AnswerError(400, "Missing question or answer") <==>
      question.None? || question.value == "" || answer.None? || answer.value == ""
    ensures r.Evaluated? <==> question.Some? && question.value != "" && answer.Some? && answer.value != "" && loadError.None?
    ensures r.Evaluated? ==> r.result == Evaluator.Evaluation(answer.value, apiKey, respond, decode)
    ensures !r.Evaluated? && r != AnswerError(400, "Missing question or answer") ==>
      loadError.Some? && r == AnswerError(500, loadError.value)
  {
    if question.None? || question.value == "" || answer.None? || answer.value == "" then
      AnswerError(400, "Missing question or answer")
    else if loadError.Some? then AnswerError(500, loadError.value)
    else Evaluated(Evaluator.Evaluation(answer.value, apiKey, respond, decode))
  }

  /** `/evaluate_answer`, calling the evaluator. */
  method EvaluateAnswer(question: Option<string>, answer: Option<string>, loadError: Option<string>,
                        apiKey: Option<string>, respond: string -> Evaluator.EvalReply,
                        decode: string -> Evaluator.Decoded)
    returns (resp: AnswerResponse)
    ensures resp == AnswerResponseOf(question, answer, loadError, apiKey, respond, decode)
  {
    if question.None? || question.value == "" || answer.None? || answer.value == "" {
      resp := AnswerError(400, "Missing question or answer");
      return;
    }
    if loadError.Some? {
      resp := AnswerError(500, loadError.value);
      return;
    }
    var result, _ := Evaluator.Evaluate(answer.value, apiKey, respond, decode);
    resp := Evaluated(result);
  }
}
