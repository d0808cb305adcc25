/** The interview session of the resume page (phase1_frontend/app/resume/page.tsx):
    one record of the page's state, updated by discrete events — the
    navigation buttons, one second of the countdown, a speech result, the
    effect that runs when a question is shown, the submission of all
    answers and the settling of its requests, the upload and generation
    round trips, and the two buttons of the results screen. The HTTP
    requests, the timer and the speech engine are outside the model: their
    results are the events' parameters. */
module SessionController {
  import opened Wrappers
  import opened PyStrings
  import opened Questions
  import Evaluator

  /** The state of the page. `timerAnswers` is the `answers` value seen by
      the countdown callback: the one of the render in which the countdown
      effect last ran. */
  datatype Session = Session(
    isLoading: bool,
    file: Option<string>,
    questions: seq<Question>,
    showConfig: bool,
    extractedText: string,
    numQuestions: int,
    timerEnabled: bool,
    timePerQuestion: int,
    timeLeft: int,
    index: int,
    answers: map<int, string>,
    evaluations: map<int, Evaluator.EvaluationResult>,
    isEvaluating: bool,
    complete: bool,
    timerAnswers: map<int, string>)

  /** The page as first rendered. */
  const Initial: Session := Session(false, None, [], false, "", 5, false, 120, 120, 0,
                                    map[], map[], false, false, map[])

  /** The values the countdown effect depends on. */
  function TimerDeps(s: Session): (bool, int, int, bool, bool) {
    (s.timerEnabled, s.index, |s.questions|, s.complete, s.isEvaluating)
  }

  /** The render after an event: the countdown effect runs again, and its
      callback sees the current answers, only when one of its dependencies changed. */
  function Commit(before: Session, after: Session): (r: Session)
    ensures r.(timerAnswers := after.timerAnswers) == after
    ensures TimerDeps(after) != TimerDeps(before) ==> r.timerAnswers == after.answers
    ensures TimerDeps(after) == TimerDeps(before) ==> r.timerAnswers == after.timerAnswers
  {
    if TimerDeps(after) != TimerDeps(before) then after.(timerAnswers := after.answers) else after
  }

  /** The session invariant: the index lies among the questions (0 when there
      are none), the configuration screen only precedes a set of questions,
      and every evaluation belongs to a question. */
  predicate Valid(s: Session) {
    0 <= s.index
    && (s.index < |s.questions| || (s.questions == [] && s.index == 0))
    && (s.showConfig ==> s.questions == [])
    && (forall i :: i in s.evaluations ==> 0 <= i < |s.questions|)
  }

  lemma InitialValid()
    ensures Valid(Initial)
  {
  }

  // ---------------------------------------------------------------- navigation

  /** `handleNext` */
  function Next(s: Session): (r: Session)
    ensures r.index == s.index + 1 <==> s.index < |s.questions| - 1
    ensures r.index != s.index ==> r.index == s.index + 1
    ensures r.(index := s.index, timerAnswers := s.timerAnswers) == s
  {
    if s.index < |s.questions| - 1 then Commit(s, s.(index := s.index + 1)) else s
  }

  /** `handlePrevious` */
  function Previous(s: Session): (r: Session)
    ensures r.index == s.index - 1 <==> s.index > 0
    ensures r.index != s.index ==> r.index == s.index - 1
    ensures r.(index := s.index, timerAnswers := s.timerAnswers) == s
  {
    if s.index > 0 then Commit(s, s.(index := s.index - 1)) else s
  }

  /** Next and Previous keep the index among the questions. */
  lemma NavigationKeepsValid(s: Session)
    requires Valid(s)
    ensures Valid(Next(s)) && Valid(Previous(s))
    ensures 0 <= Next(s).index && 0 <= Previous(s).index
    ensures s.questions != [] ==> Next(s).index < |s.questions| && Previous(s).index < |s.questions|
  {
  }

  // ---------------------------------------------------------------- submission

  /** The body of one `/evaluate_answer` request. */
  datatype EvalRequest = EvalRequest(question: string, answer: string)

  /** What the page sends for an answer it does not have. */
  const NoAnswer: string := "No answer provided."

  /** `answers[index] || "No answer provided."`: an absent or empty answer is
      replaced by the placeholder. */
  function AnswerSent(answers: map<int, string>, i: int): (r: string)
    ensures r != ""
    ensures i in answers && answers[i] != "" ==> r == answers[i]
    ensures i !in answers || answers[i] == "" ==> r == NoAnswer
  {
    if i in answers && answers[i] != "" then answers[i] else NoAnswer
  }

  /** The requests of `handleSubmitAllAnswers`, one per question, in order. */
  function Requests(questions: seq<Question>, answers: map<int, string>): (r: seq<EvalRequest>)
    ensures |r| == |questions|
    ensures forall i :: 0 <= i < |r| ==> r[i] == EvalRequest(questions[i].text, AnswerSent(answers, i))
  {
    seq(|questions|, i requires 0 <= i < |questions| => EvalRequest(questions[i].text, AnswerSent(answers, i)))
  }

  /** `questions.map(...)` building the requests. */
  method BuildRequests(questions: seq<Question>, answers: map<int, string>) returns (reqs: seq<EvalRequest>)
    ensures |reqs| == |questions|
    ensures forall i :: 0 <= i < |reqs| ==> reqs[i].question == questions[i].text && reqs[i].answer != ""
    ensures forall i :: 0 <= i < |reqs| && i in answers && answers[i] != "" ==> reqs[i].answer == answers[i]
    ensures forall i :: 0 <= i < |reqs| && (i !in answers || answers[i] == "") ==> reqs[i].answer == NoAnswer
  {
    reqs := [];
    var i := 0;
    while i < |questions|
      invariant 0 <= i <= |questions|
      invariant reqs == Requests(questions, answers)[..i]
    {
      var answer := if i in answers && answers[i] != "" then answers[i] else NoAnswer;
      reqs := reqs + [EvalRequest(questions[i].text, answer)];
      i := i + 1;
    }
    assert reqs == Requests(questions, answers);
  }

  /** The text the page sends for a missing answer, up to its final full stop. */
  const NoAnswerStem: string := "No answer provided"

  /** Any answer starting with the placeholder is scored 0 without asking a model. */
  lemma PlaceholderStemScoresZero(answer: string, apiKey: Option<string>,
                                  respond: string -> Evaluator.EvalReply, decode: string -> Evaluator.Decoded)
    requires StartsWith(answer, NoAnswerStem)
    ensures Evaluator.Evaluation(answer, apiKey, respond, decode) == Evaluator.NotAnswered
  {
    var marker := Evaluator.PlaceholderMarker;
    assert |marker| == |NoAnswerStem| == 18;
    assert LowerChar(NoAnswerStem[0]) == marker[0];
    forall i | 1 <= i < 18 ensures LowerChar(NoAnswerStem[i]) == marker[i] {
      assert NoAnswerStem[i] == marker[i];
    }
    assert Lower(answer)[..18] == marker;
    assert MatchesAt(Lower(answer), marker, 0);
  }

  /** The placeholder the page sends is scored 0 without asking a model. */
  lemma NoAnswerScoresZero(apiKey: Option<string>, respond: string -> Evaluator.EvalReply,
                           decode: string -> Evaluator.Decoded)
    ensures Evaluator.Evaluation(NoAnswer, apiKey, respond, decode) == Evaluator.NotAnswered
  {
    assert NoAnswer == NoAnswerStem + ".";
    PlaceholderStemScoresZero(NoAnswer, apiKey, respond, decode);
  }

  /** The start of `handleSubmitAllAnswers`, reading `answers` as given. */
  datatype Submission = Submission(state: Session, sent: seq<EvalRequest>)

  function SubmitWith(s: Session, answers: map<int, string>): (r: Submission)
    ensures r.state.isEvaluating
    ensures r.sent == Requests(s.questions, answers)
  {
    Submission(Commit(s, s.(isEvaluating := true)), Requests(s.questions, answers))
  }

  /** "Submit All Answers": the current answers are sent. */
  function Submit(s: Session): (r: Submission)
    ensures r.state.isEvaluating && r.state.answers == s.answers && r.state.index == s.index
    ensures |r.sent| == |s.questions|
    ensures forall i :: 0 <= i < |r.sent| ==> r.sent[i].answer == AnswerSent(s.answers, i)
    ensures r.state.(isEvaluating := s.isEvaluating, timerAnswers := s.timerAnswers) == s
  {
    SubmitWith(s, s.answers)
  }

  /** What one request produced: an ok response with its result, a response
      that is not ok, or a failure that rejects the whole batch. */
  datatype FetchOutcome = Ok(result: Evaluator.EvaluationResult) | NotOk | Rejected

  /** `newEvaluations` once every request is settled: the results of the ok responses. */
  function EvaluationsOf(outcomes: seq<FetchOutcome>): (m: map<int, Evaluator.EvaluationResult>)
    ensures forall i :: i in m <==> 0 <= i < |outcomes| && outcomes[i].Ok?
    ensures forall i :: i in m ==> m[i] == outcomes[i].result
  {
    map i | 0 <= i < |outcomes| && outcomes[i].Ok? :: outcomes[i].result
  }

  predicate AnyRejected(outcomes: seq<FetchOutcome>) {
    exists i :: 0 <= i < |outcomes| && outcomes[i].Rejected?
  }

  /** The request callbacks filling `newEvaluations` in place, and whether
      `Promise.all` rejected. */
  method CollectEvaluations(outcomes: seq<FetchOutcome>)
    returns (evaluations: map<int, Evaluator.EvaluationResult>, rejected: bool)
    ensures forall i :: i in evaluations <==> 0 <= i < |outcomes| && outcomes[i].Ok?
    ensures forall i :: i in evaluations ==> evaluations[i] == outcomes[i].result
    ensures rejected <==> AnyRejected(outcomes)
  {
    evaluations := map[];
    rejected := false;
    var i := 0;
    while i < |outcomes|
      invariant 0 <= i <= |outcomes|
      invariant evaluations == EvaluationsOf(outcomes[..i])
      invariant rejected <==> AnyRejected(outcomes[..i])
    {
      match outcomes[i] {
        case Ok(result) => evaluations := evaluations[i := result];
        case NotOk =>
        case Rejected => rejected := true;
      }
      assert outcomes[..i + 1][..i] == outcomes[..i];
      i := i + 1;
    }
    assert outcomes[..i] == outcomes;
  }

  /** The end of `handleSubmitAllAnswers`: unless the batch rejected, the
      evaluations become the ok results and the interview is complete;
      either way evaluation ends. */
  function Settle(s: Session, outcomes: seq<FetchOutcome>): (r: Session)
    ensures !r.isEvaluating
    ensures AnyRejected(outcomes) ==> r.evaluations == s.evaluations && r.complete == s.complete
    ensures !AnyRejected(outcomes) ==>
      (r.complete
       && (forall i :: i in r.evaluations <==> 0 <= i < |outcomes| && outcomes[i].Ok?)
       && (forall i :: i in r.evaluations ==> r.evaluations[i] == outcomes[i].result))
    ensures r.answers == s.answers && r.questions == s.questions && r.index == s.index
    ensures r.(evaluations := s.evaluations, complete := s.complete, isEvaluating := s.isEvaluating,
               timerAnswers := s.timerAnswers) == s
  {
    if AnyRejected(outcomes) then Commit(s, s.(isEvaluating := false))
    else Commit(s, s.(evaluations := EvaluationsOf(outcomes), complete := true, isEvaluating := false))
  }

  /** Settling the requests of a submission keeps the invariant. */
  lemma SettleKeepsValid(s: Session, outcomes: seq<FetchOutcome>)
    requires Valid(s) && |outcomes| == |s.questions|
    ensures Valid(Settle(s, outcomes))
  {
  }

  // ---------------------------------------------------------------- countdown

  /** The result of one second of the countdown, and the requests sent when
      it submits. */
  datatype TickResult = TickResult(state: Session, sent: Option<seq<EvalRequest>>)

  predicate TimerRunning(s: Session) {
    s.timerEnabled && !s.complete && |s.questions| > 0 && !s.isEvaluating
  }

  /** One second of the countdown, the submission reading `answers`. */
  function TickWith(s: Session, answers: map<int, string>): (r: TickResult)
  {
    if !TimerRunning(s) then TickResult(s, None)
    else if s.timeLeft <= 1 then
      var stopped := s.(timeLeft := 0);
      if s.index < |s.questions| - 1 then TickResult(Commit(s, stopped.(index := s.index + 1)), None)
      else
        var submission := SubmitWith(stopped, answers);
        TickResult(submission.state, Some(submission.sent))
    else TickResult(s.(timeLeft := s.timeLeft - 1), None)
  }

  /** The countdown callback as the page writes it: its submission reads the
      answers of the render in which the countdown effect last ran. */
  function TickAsWritten(s: Session): TickResult {
    TickWith(s, s.timerAnswers)
  }

  /** The countdown with the submission reading the current answers, as the
      "Submit All Answers" button does. */
  function Tick(s: Session): (r: TickResult)
    ensures !TimerRunning(s) ==> r == TickResult(s, None)
    ensures TimerRunning(s) && s.timeLeft > 1 ==>
      r == TickResult(s.(timeLeft := s.timeLeft - 1), None)
    ensures TimerRunning(s) && s.timeLeft <= 1 ==>
      r.state.timeLeft == 0 && r.state.answers == s.answers
      && (s.index < |s.questions| - 1 ==> r.state.index == s.index + 1 && !r.state.isEvaluating && r.sent.None?)
      && (s.index >= |s.questions| - 1 ==>
            (r.state.index == s.index && r.state.isEvaluating && r.sent == Some(Submit(s).sent)))
    ensures TimerRunning(s) && s.timeLeft <= 1 && s.index < |s.questions| - 1 ==>
      r == TickResult(Next(s.(timeLeft := 0)), None)
    ensures TimerRunning(s) && s.timeLeft <= 1 && s.index >= |s.questions| - 1 ==>
      r == TickResult(Submit(s.(timeLeft := 0)).state, Some(Submit(s).sent))
  {
    TickWith(s, s.answers)
  }

  /** A tick keeps the invariant. */
  lemma TickKeepsValid(s: Session)
    requires Valid(s)
    ensures Valid(Tick(s).state) && Valid(TickAsWritten(s).state)
  {
  }

  /** The last question's answer typed after the countdown restarted is
      lost when the countdown submits: the page sends the placeholder
      where the button would send the answer. */
  lemma TickAsWrittenDropsAnswer(q: Question, answer: string)
    requires answer != ""
    ensures
      var s := Initial.(questions := [q], timerEnabled := true, timeLeft := 1, answers := map[0 := answer]);
      Valid(s)
      && TickAsWritten(s).sent == Some([EvalRequest(q.text, NoAnswer)])
      && Tick(s).sent == Some([EvalRequest(q.text, answer)])
  {
    var s := Initial.(questions := [q], timerEnabled := true, timeLeft := 1, answers := map[0 := answer]);
    assert TimerRunning(s) && s.index == |s.questions| - 1;
    var stale := Requests(s.questions, s.timerAnswers);
    assert |stale| == 1 && stale[0] == EvalRequest(q.text, NoAnswer);
    assert stale == [EvalRequest(q.text, NoAnswer)];
    var current := Requests(s.questions, s.answers);
    assert |current| == 1 && current[0] == EvalRequest(q.text, answer);
    assert current == [EvalRequest(q.text, answer)];
  }

  // ---------------------------------------------------------------- answers

  /** `recognition.onresult`: the transcript is appended, after a space when
      there is text already, to the answer of the question that was shown
      when listening began. */
  function OnSpeechResult(s: Session, captured: int, transcript: string): (r: Session)
    ensures captured in r.answers
    ensures captured in s.answers && s.answers[captured] != "" ==>
      r.answers[captured] == s.answers[captured] + " " + transcript
    ensures captured !in s.answers || s.answers[captured] == "" ==> r.answers[captured] == transcript
    ensures forall i :: i != captured ==> (i in r.answers <==> i in s.answers)
    ensures forall i :: i != captured && i in s.answers ==> r.answers[i] == s.answers[i]
    ensures r.(answers := s.answers) == s
  {
    var previous := if captured in s.answers then s.answers[captured] else "";
    var separator := if previous != "" then " " else "";
    s.(answers := s.answers[captured := previous + separator + transcript])
  }

  /** Two results captured for one empty answer give both words separated by a space. */
  lemma TwoCapturesJoinWithSpace(s: Session, captured: int, first: string, second: string)
    requires captured !in s.answers || s.answers[captured] == ""
    requires first != ""
    ensures OnSpeechResult(OnSpeechResult(s, captured, first), captured, second).answers[captured]
      == first + " " + second
  {
  }

  /** Typing in the answer box of the current question. */
  function TypeAnswer(s: Session, text: string): (r: Session)
    ensures r.answers == s.answers[s.index := text]
    ensures r.(answers := s.answers) == s
  {
    s.(answers := s.answers[s.index := text])
  }

  /** A question is on screen, it is a coding question with starter code, and its answer is empty. */
  predicate StarterDue(s: Session) {
    s.questions != [] && !s.complete && 0 <= s.index < |s.questions|
    && s.questions[s.index].kind == "coding" && s.questions[s.index].initialCode != ""
    && (s.index !in s.answers || s.answers[s.index] == "")
  }

  /** The effect that runs when a question is shown: the countdown restarts
      and an empty answer to a coding question gets its starter code. */
  function OnQuestionShown(s: Session): (r: Session)
    ensures s.questions == [] || s.complete ==> r == s
    ensures s.questions != [] && !s.complete && s.timerEnabled ==> r.timeLeft == s.timePerQuestion
    ensures forall i :: i in s.answers && s.answers[i] != "" ==> i in r.answers && r.answers[i] == s.answers[i]
    ensures forall i :: i != s.index ==> (i in r.answers <==> i in s.answers)
    ensures r.(answers := s.answers, timeLeft := s.timeLeft) == s
    ensures !s.timerEnabled ==> r.timeLeft == s.timeLeft
    ensures StarterDue(s) ==> r.answers == s.answers[s.index := s.questions[s.index].initialCode]
    ensures !StarterDue(s) ==> r.answers == s.answers
  {
    if s.questions == [] || s.complete then s
    else
      var t := if s.timerEnabled then s.(timeLeft := s.timePerQuestion) else s;
      if 0 <= s.index < |s.questions| && s.questions[s.index].kind == "coding"
         && s.questions[s.index].initialCode != "" && (s.index !in s.answers || s.answers[s.index] == "")
      then t.(answers := s.answers[s.index := s.questions[s.index].initialCode])
      else t
  }

  /** An empty answer to a coding question with starter code receives that code. */
  lemma ShownCodingQuestionGetsStarter(s: Session)
    requires Valid(s) && s.questions != [] && !s.complete
    requires s.questions[s.index].kind == "coding" && s.questions[s.index].initialCode != ""
    requires s.index !in s.answers || s.answers[s.index] == ""
    ensures OnQuestionShown(s).answers[s.index] == s.questions[s.index].initialCode
  {
  }

  /** Running the effect a second time changes nothing: the starter code,
      once placed, makes the answer non-empty. */
  lemma OnQuestionShownIdempotent(s: Session)
    ensures OnQuestionShown(OnQuestionShown(s)) == OnQuestionShown(s)
  {
  }

  // ---------------------------------------------------------------- upload and generation

  /** Choosing a file. */
  function SelectFile(s: Session, name: string): (r: Session)
    ensures r == s.(file := Some(name))
  {
    s.(file := Some(name))
  }

  /** The start of `handleUpload`: nothing happens without a file. */
  function StartUpload(s: Session): (r: Session)
    ensures s.file.None? ==> r == s
    ensures s.file.Some? ==> r == s.(isLoading := true)
  {
    if s.file.None? then s else s.(isLoading := true)
  }

  /** The end of `handleUpload`: the extracted text, or `None` when the
      request failed; the configuration is shown only after a success. */
  function FinishUpload(s: Session, extracted: Option<string>): (r: Session)
    ensures !r.isLoading
    ensures extracted.Some? ==> r == s.(isLoading := false, extractedText := extracted.value, showConfig := true)
    ensures extracted.None? ==> r == s.(isLoading := false)
  {
    match extracted
    case Some(text) => s.(isLoading := false, extractedText := text, showConfig := true)
    case None => s.(isLoading := false)
  }

  /** The start of `handleGenerateQuestions`. */
  function StartGenerate(s: Session): (r: Session)
    ensures r == s.(isLoading := true)
  {
    s.(isLoading := true)
  }

  /** The end of `handleGenerateQuestions`: the questions returned, or `None`
      when the request failed; an empty list counts as a failure and keeps
      the configuration on screen. */
  function FinishGenerate(s: Session, generated: Option<seq<Question>>): (r: Session)
    ensures !r.isLoading
    ensures generated.Some? && generated.value != [] ==>
      r.questions == generated.value && !r.showConfig
    ensures generated.None? || generated.value == [] ==>
      r.questions == s.questions && r.showConfig
    ensures r.answers == s.answers && r.evaluations == s.evaluations && r.index == s.index
    ensures r.(isLoading := s.isLoading, questions := s.questions, showConfig := s.showConfig,
               timerAnswers := s.timerAnswers) == s
  {
    if generated.Some? && generated.value != [] then
      Commit(s, s.(isLoading := false, questions := generated.value, showConfig := false))
    else s.(isLoading := false, showConfig := true)
  }

  /** Uploading from the upload screen keeps the invariant. */
  lemma UploadKeepsValid(s: Session, extracted: Option<string>)
    requires Valid(s) && s.questions == []
    ensures Valid(FinishUpload(StartUpload(s), extracted))
  {
  }

  /** Generating from the configuration screen keeps the invariant. */
  lemma GenerateKeepsValid(s: Session, generated: Option<seq<Question>>)
    requires Valid(s) && s.showConfig
    ensures Valid(FinishGenerate(StartGenerate(s), generated))
  {
  }

  // ---------------------------------------------------------------- results screen

  /** "Start New Interview". */
  function StartNew(s: Session): (r: Session)
    ensures r.questions == [] && r.answers == map[] && r.evaluations == map[]
    ensures r.index == 0 && !r.complete && r.file.None? && r.extractedText == ""
    ensures r.showConfig == s.showConfig && r.isLoading == s.isLoading && r.timerEnabled == s.timerEnabled
  {
    Commit(s, s.(questions := [], answers := map[], evaluations := map[], index := 0,
                 complete := false, file := None, extractedText := ""))
  }

  /** Start New in full: the countdown restarts, seeing the cleared answers,
      exactly when the index, the question count or the completion changes. */
  lemma StartNewResets(s: Session)
    ensures StartNew(s) == s.(questions := [], answers := map[], evaluations := map[], index := 0,
                              complete := false, file := None, extractedText := "",
                              timerAnswers := if s.index != 0 || |s.questions| != 0 || s.complete then map[]
                                              else s.timerAnswers)
  {
  }

  /** "Review Answers". */
  function Review(s: Session): (r: Session)
    ensures r.index == 0 && !r.complete
    ensures r.answers == s.answers && r.evaluations == s.evaluations && r.questions == s.questions
    ensures r.(index := s.index, complete := s.complete, timerAnswers := s.timerAnswers) == s
  {
    Commit(s, s.(index := 0, complete := false))
  }

  // ---------------------------------------------------------------- derived values

  datatype View = LoadingView | UploadView | ConfigView | ResultsView | InterviewView

  /** The screen rendered, in the page's order of precedence. */
  function CurrentView(s: Session): (v: View)
    ensures v == LoadingView <==> s.isLoading
    ensures v == UploadView <==> !s.isLoading && s.questions == [] && !s.showConfig
    ensures v == ConfigView <==> !s.isLoading && !(s.questions == [] && !s.showConfig) && s.showConfig
    ensures v == ResultsView <==> !s.isLoading && s.questions != [] && !s.showConfig && s.complete
    ensures v == InterviewView <==> !s.isLoading && s.questions != [] && !s.showConfig && !s.complete
  {
    if s.isLoading then LoadingView
    else if s.questions == [] && !s.showConfig then UploadView
    else if s.showConfig then ConfigView
    else if s.complete then ResultsView
    else InterviewView
  }

  /** From the results screen, Start New returns to the upload screen and
      Review to the first question of the interview. */
  lemma ResultsButtons(s: Session)
    requires Valid(s) && CurrentView(s) == ResultsView
    ensures CurrentView(StartNew(s)) == UploadView
    ensures CurrentView(Review(s)) == InterviewView && Review(s).index == 0
    ensures Valid(StartNew(s)) && Valid(Review(s))
  {
  }

  /** The score shown for question `i`: `evaluations[i]?.score || 0`. */
  function DisplayScore(evaluations: map<int, Evaluator.EvaluationResult>, i: int): int {
    if i in evaluations then evaluations[i].score else 0
  }

  /** The sum of the scores of the evaluations of questions `0..n-1`. */
  function ScoreSum(evaluations: map<int, Evaluator.EvaluationResult>, n: nat): int {
    if n == 0 then 0 else ScoreSum(evaluations, n - 1) + DisplayScore(evaluations, n - 1)
  }

  /** The number of evaluations among questions `0..n-1`. */
  function PresentCount(evaluations: map<int, Evaluator.EvaluationResult>, n: nat): (c: nat)
    ensures c <= n
  {
    if n == 0 then 0 else PresentCount(evaluations, n - 1) + (if n - 1 in evaluations then 1 else 0)
  }

  /** The number of evaluations among questions `0..n-1` scoring 7 or more. */
  function StrongCount(evaluations: map<int, Evaluator.EvaluationResult>, n: nat): (c: nat)
    ensures c <= PresentCount(evaluations, n)
  {
    if n == 0 then 0
    else StrongCount(evaluations, n - 1) + (if n - 1 in evaluations && evaluations[n - 1].score >= 7 then 1 else 0)
  }

  /** The average score as a sum over a count; 0 over 1 when nothing was evaluated. */
  datatype Average = Average(sum: int, count: nat)

  function AverageScore(evaluations: map<int, Evaluator.EvaluationResult>, n: nat): (a: Average)
    ensures a.count >= 1
    ensures PresentCount(evaluations, n) == 0 ==> a == Average(0, 1)
    ensures PresentCount(evaluations, n) > 0 ==> a == Average(ScoreSum(evaluations, n), PresentCount(evaluations, n))
  {
    if PresentCount(evaluations, n) == 0 then Average(0, 1)
    else Average(ScoreSum(evaluations, n), PresentCount(evaluations, n))
  }

  /** The indices of `0..n-1` that have an evaluation. */
  function Evaluated(evaluations: map<int, Evaluator.EvaluationResult>, n: nat): set<int> {
    set i | 0 <= i < n && i in evaluations
  }

  /** Counting over the question indices counts every evaluation, as
      `Object.values(evaluations).length` does, since every key is a question index. */
  lemma {:induction false} PresentCountIsSize(evaluations: map<int, Evaluator.EvaluationResult>, n: nat)
    ensures PresentCount(evaluations, n) == |Evaluated(evaluations, n)|
    ensures (forall i :: i in evaluations ==> 0 <= i < n) ==> PresentCount(evaluations, n) == |evaluations.Keys|
  {
    if n > 0 {
      PresentCountIsSize(evaluations, n - 1);
      var before := Evaluated(evaluations, n - 1);
      if n - 1 in evaluations {
        assert Evaluated(evaluations, n) == before + {n - 1};
        assert n - 1 !in before;
      } else {
        assert Evaluated(evaluations, n) == before;
      }
    }
    if forall i :: i in evaluations ==> 0 <= i < n {
      assert Evaluated(evaluations, n) == evaluations.Keys;
    }
  }

  /** The indices of `0..n-1` whose evaluation scores 7 or more. */
  function StrongIndices(evaluations: map<int, Evaluator.EvaluationResult>, n: nat): set<int> {
    set i | 0 <= i < n && i in evaluations && evaluations[i].score >= 7
  }

  /** Counting over the question indices counts every strong evaluation, as
      `filter(e => e.score >= 7).length` over the map's values does. */
  lemma {:induction false} StrongCountIsSize(evaluations: map<int, Evaluator.EvaluationResult>, n: nat)
    ensures StrongCount(evaluations, n) == |StrongIndices(evaluations, n)|
    ensures (forall i :: i in evaluations ==> 0 <= i < n) ==>
      StrongCount(evaluations, n) == |set i | i in evaluations && evaluations[i].score >= 7|
  {
    if n > 0 {
      StrongCountIsSize(evaluations, n - 1);
      var before := StrongIndices(evaluations, n - 1);
      if n - 1 in evaluations && evaluations[n - 1].score >= 7 {
        assert StrongIndices(evaluations, n) == before + {n - 1};
        assert n - 1 !in before;
      } else {
        assert StrongIndices(evaluations, n) == before;
      }
    }
    if forall i :: i in evaluations ==> 0 <= i < n {
      assert StrongIndices(evaluations, n) == set i | i in evaluations && evaluations[i].score >= 7;
    }
  }

  lemma NonEmptyHasMember(keys: set<int>)
    requires keys != {}
    ensures exists k :: k in keys
  {
    if forall k :: k !in keys {
      assert false;
    }
  }

  /** Some element of a non-empty set. */
  ghost function Pick(keys: set<int>): (k: int)
    requires keys != {}
    ensures k in keys
  {
    NonEmptyHasMember(keys);
    var k :| k in keys; k
  }

  /** The sum of the scores of the evaluations of `keys`, taken in no particular
      order: the reference for `reduce((sum, e) => sum + e.score, 0)` over the map's values. */
  ghost function KeySum(evaluations: map<int, Evaluator.EvaluationResult>, keys: set<int>): int
    requires keys <= evaluations.Keys
    decreases keys
  {
    if keys == {} then 0
    else var k := Pick(keys); evaluations[k].score + KeySum(evaluations, keys - {k})
  }

  /** Any key may be taken out of the sum first. */
  lemma {:induction false} KeySumRemove(evaluations: map<int, Evaluator.EvaluationResult>, keys: set<int>, x: int)
    requires keys <= evaluations.Keys && x in keys
    ensures KeySum(evaluations, keys) == evaluations[x].score + KeySum(evaluations, keys - {x})
    decreases keys
  {
    var y := Pick(keys);
    if y != x {
      KeySumRemove(evaluations, keys - {y}, x);
      KeySumRemove(evaluations, keys - {x}, y);
      assert keys - {y} - {x} == keys - {x} - {y};
    }
  }

  /** The running sum over the question indices is the sum over the evaluated
      questions, and over the whole map once every key is a question index. */
  lemma {:induction false} ScoreSumIsKeySum(evaluations: map<int, Evaluator.EvaluationResult>, n: nat)
    ensures ScoreSum(evaluations, n) == KeySum(evaluations, Evaluated(evaluations, n))
    ensures (forall i :: i in evaluations ==> 0 <= i < n) ==>
      ScoreSum(evaluations, n) == KeySum(evaluations, evaluations.Keys)
  {
    if n > 0 {
      ScoreSumIsKeySum(evaluations, n - 1);
      var before := Evaluated(evaluations, n - 1);
      if n - 1 in evaluations {
        var now := Evaluated(evaluations, n);
        assert now == before + {n - 1};
        KeySumRemove(evaluations, now, n - 1);
        assert now - {n - 1} == before;
      } else {
        assert Evaluated(evaluations, n) == before;
      }
    }
    if forall i :: i in evaluations ==> 0 <= i < n {
      assert Evaluated(evaluations, n) == evaluations.Keys;
    }
  }

  /** With every score between 0 and 10, so is the average. */
  lemma {:induction false} AverageInRange(evaluations: map<int, Evaluator.EvaluationResult>, n: nat)
    requires forall i :: i in evaluations ==> 0 <= evaluations[i].score <= 10
    ensures 0 <= ScoreSum(evaluations, n) <= 10 * PresentCount(evaluations, n)
    ensures 0 <= AverageScore(evaluations, n).sum <= 10 * AverageScore(evaluations, n).count
  {
    if n > 0 {
      AverageInRange(evaluations, n - 1);
    }
  }

  /** `Math.min(20, Math.max(1, parseInt(value) || 1))`, `None` standing for
      a value that does not parse. */
  function ClampQuestionCount(parsed: Option<int>): (r: int)
    ensures 1 <= r <= 20
    ensures parsed.Some? && 1 <= parsed.value <= 20 ==> r == parsed.value
    ensures parsed.None? || parsed.value < 1 ==> r == 1
    ensures parsed.Some? && parsed.value > 20 ==> r == 20
  {
    var n := if parsed.None? || parsed.value == 0 then 1 else parsed.value;
    if n < 1 then 1 else if n > 20 then 20 else n
  }

  /** The typed question count. */
  function SetQuestionCount(s: Session, parsed: Option<int>): (r: Session)
    ensures 1 <= r.numQuestions <= 20
    ensures r.(numQuestions := s.numQuestions) == s
  {
    s.(numQuestions := ClampQuestionCount(parsed))
  }

  // ---------------------------------------------------------------- the page

  /** The page, its state held in fields that the event handlers update. */
  class InterviewPage {
    var isLoading: bool
    var file: Option<string>
    var questions: seq<Question>
    var showConfig: bool
    var extractedText: string
    var numQuestions: int
    var timerEnabled: bool
    var timePerQuestion: int
    var timeLeft: int
    var index: int
    var answers: map<int, string>
    var evaluations: map<int, Evaluator.EvaluationResult>
    var isEvaluating: bool
    var complete: bool
    var timerAnswers: map<int, string>

    function State(): Session
      reads this
    {
      Session(isLoading, file, questions, showConfig, extractedText, numQuestions, timerEnabled,
              timePerQuestion, timeLeft, index, answers, evaluations, isEvaluating, complete, timerAnswers)
    }

    constructor ()
      ensures State() == Initial
    {
      isLoading, file, questions, showConfig, extractedText := false, None, [], false, "";
      numQuestions, timerEnabled, timePerQuestion, timeLeft := 5, false, 120, 120;
      index, answers, evaluations := 0, map[], map[];
      isEvaluating, complete, timerAnswers := false, false, map[];
    }

    /** `handleNext` */
    method HandleNext()
      modifies this
      ensures State() == Next(old(State()))
    {
      if index < |questions| - 1 {
        index := index + 1;
        timerAnswers := answers;
      }
    }

    /** `handlePrevious` */
    method HandlePrevious()
      modifies this
      ensures State() == Previous(old(State()))
    {
      if index > 0 {
        index := index - 1;
        timerAnswers := answers;
      }
    }

    /** One second of the countdown; returns the requests sent when it submits. */
    method HandleTick() returns (sent: Option<seq<EvalRequest>>)
      modifies this
      ensures (State(), sent) == (Tick(old(State())).state, Tick(old(State())).sent)
    {
      sent := None;
      if !timerEnabled || complete || |questions| == 0 || isEvaluating {
        return;
      }
      if timeLeft <= 1 {
        timeLeft := 0;
        if index < |questions| - 1 {
          index := index + 1;
          timerAnswers := answers;
        } else {
          var reqs := SubmitAllAnswers();
          sent := Some(reqs);
        }
        return;
      }
      timeLeft := timeLeft - 1;
    }

    /** The start of `handleSubmitAllAnswers`: returns the requests sent. */
    method SubmitAllAnswers() returns (sent: seq<EvalRequest>)
      modifies this
      ensures (State(), sent) == (Submit(old(State())).state, Submit(old(State())).sent)
    {
      sent := BuildRequests(questions, answers);
      assert sent == Requests(questions, answers);
      if !isEvaluating {
        isEvaluating := true;
        timerAnswers := answers;
      }
    }

    /** The end of `handleSubmitAllAnswers`, once every request has settled. */
    method SettleEvaluations(outcomes: seq<FetchOutcome>)
      modifies this
      ensures State() == Settle(old(State()), outcomes)
    {
      var collected, rejected := CollectEvaluations(outcomes);
      assert collected == EvaluationsOf(outcomes);
      var restarted := isEvaluating || (!rejected && !complete);
      if !rejected {
        evaluations := collected;
        complete := true;
      }
      isEvaluating := false;
      if restarted {
        timerAnswers := answers;
      }
    }

    /** `recognition.onresult` for the question index captured when listening began. */
    method HandleSpeechResult(captured: int, transcript: string)
      modifies this
      ensures State() == OnSpeechResult(old(State()), captured, transcript)
    {
      var previous := if captured in answers then answers[captured] else "";
      var separator := if previous != "" then " " else "";
      answers := answers[captured := previous + separator + transcript];
    }

    /** The effect run when a question is shown. */
    method ShowQuestion()
      modifies this
      ensures State() == OnQuestionShown(old(State()))
    {
      if |questions| > 0 && !complete {
        if timerEnabled {
          timeLeft := timePerQuestion;
        }
        if 0 <= index < |questions| {
          var q := questions[index];
          if q.kind == "coding" && q.initialCode != "" && (index !in answers || answers[index] == "") {
            answers := answers[index := q.initialCode];
          }
        }
      }
    }

    /** "Start New Interview", as its three groups of setters. */
    method StartNewInterview()
      modifies this
      ensures State() == StartNew(old(State()))
    {
      ghost var before := State();
      StartNewResets(before);
      ResetProgress();
      ClearQuestions();
      ForgetFile();
    }

    /** Back to the first question of an unfinished interview; the countdown
        restarts when the index, the question count or the completion changes. */
    method ResetProgress()
      modifies this
      ensures State() == old(State()).(index := 0, complete := false,
                                       timerAnswers := if old(index) != 0 || |old(questions)| != 0 || old(complete)
                                                       then map[] else old(timerAnswers))
    {
      if index != 0 || |questions| != 0 || complete {
        timerAnswers := map[];
      }
      index, complete := 0, false;
    }

    /** No questions, answers or evaluations. */
    method ClearQuestions()
      modifies this
      ensures State() == old(State()).(questions := [], answers := map[], evaluations := map[])
    {
      questions, answers, evaluations := [], map[], map[];
    }

    /** No file and no extracted text. */
    method ForgetFile()
      modifies this
      ensures State() == old(State()).(file := None, extractedText := "")
    {
      file, extractedText := None, "";
    }

    /** "Review Answers". */
    method ReviewAnswers()
      modifies this
      ensures State() == Review(old(State()))
    {
      var restarted := index != 0 || complete;
      index, complete := 0, false;
      if restarted {
        timerAnswers := answers;
      }
    }
  }
}
