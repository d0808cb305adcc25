# AI mock interview: the decision logic, modelled in Dafny

The system is a resume-driven mock interview with four parts:

- a resume parser that turns an uploaded PDF, DOCX or text file into plain text;
- a question service that caches questions per request;
- a language-model question generator with a static question bank as its last resort;
- an answer evaluator that scores each answer with a language model or a fixed fallback.

A browser page ties them together. It uploads the resume, configures the interview, and steps through the questions. It keeps a per-question countdown and accepts typed or spoken answers. Finally it sends every answer for scoring and shows the results.

This project models the logic under that plumbing, one Dafny module per source file:

| module | file | what it holds |
|---|---|---|
| `SessionController` | `session_controller.dfy` | The interview page as one `Session` record. Each event is a function on that record: navigation, countdown tick, speech result, question shown, submit, settle, start new, review, upload and generate. The derived values are functions too: the view shown, average, strong answers and count clamp. `InterviewPage` is a class whose fields are the page's state variables; its methods apply those events in place. |
| `FallbackSelection`, `QuestionBankData` | `question_bank.dfy` | `get_fallback_questions` over the fixed bank, as loops: skill matching, then de-duplication by id, then truncation. |
| `Questions` | `questions.dfy` | The question record, and the de-duplication loop shared by the bank. |
| `QuestionApi` | `question_api.dfy` | `/generate_questions` covers validation, the pre-hash cache key, and the flow cache hit, then generate and store, then static fallback. The cache is a `map` field of `QuestionService`. `/evaluate_answer` covers the input check. |
| `QuestionGenerator` | `question_generator.dfy` | The difficulty, quantity and job-description instructions, and the loop over candidate models. |
| `Evaluator` | `evaluator.dfy` | The placeholder short-circuit, the code-fence clean-up, brace recovery, field defaults, the loop over models, and the fixed fallback result. |
| `ResumeParser` | `resume_parser.dfy` | The PDF and DOCX text joins, `os.path.splitext` and `basename`, and the choice between the traditional text, the AI deep-scan text and an error. |
| `PyStrings`, `Wrappers` | `pystrings.dfy`, `wrappers.dfy` | Python string semantics the code relies on: `strip`, `lower`, `find`, `rfind`, `in`, `startswith`, `endswith`, slicing, `join` and `str(int)`. Also `Option`. |

The language models, `json.loads`, pypdf, python-docx and the AI deep scan are not modelled. Each is an input instead: a function from model name to reply, a decoder from text to an abstract JSON value, the list of PDF pages, and the deep-scan text. Each HTTP response the page receives is an input too, either ok with a value or a failure.

## Model

| member | source | states |
|---|---|---|
| SessionController.Commit | phase1_frontend/app/resume/page.tsx:124-144 | The countdown callback sees the current answers only after a render that changed one of its dependencies. Those are the timer flag, index, question count, complete flag and evaluating flag. Otherwise it keeps the answers it saw before. Nothing else changes. |
| SessionController.InitialValid | phase1_frontend/app/resume/page.tsx:22-37 | The initial page state satisfies the session invariant: index in range, config screen without questions, evaluations only for question indices. |
| SessionController.Next | phase1_frontend/app/resume/page.tsx:243-247 | The index goes up by one exactly when it is below the last question. Otherwise it is unchanged, and nothing else changes. |
| SessionController.Previous | phase1_frontend/app/resume/page.tsx:249-253 | The index goes down by one exactly when it is above 0. Otherwise it is unchanged, and nothing else changes. |
| SessionController.NavigationKeepsValid | phase1_frontend/app/resume/page.tsx:243-253 | Next and Previous keep the index in `[0, len)` and keep the session invariant. |
| SessionController.AnswerSent | phase1_frontend/app/resume/page.tsx:264 | The answer sent for a question is never empty. It is the stored answer when that is non-empty, and "No answer provided." otherwise. |
| SessionController.Requests | phase1_frontend/app/resume/page.tsx:263-269 | One request per question, in question order, pairing the question text with the answer sent. |
| SessionController.BuildRequests | phase1_frontend/app/resume/page.tsx:263-269 | The loop over the questions builds one request per question. Each carries the question text, and the stored answer or the placeholder. |
| SessionController.PlaceholderStemScoresZero | phase1_frontend/app/resume/page.tsx:264 | Any answer starting with "No answer provided" is scored as not answered, whatever the models would say. |
| SessionController.NoAnswerScoresZero | phase1_frontend/app/resume/page.tsx:264 | The placeholder the page sends for an absent answer gets the fixed score-0 result from the evaluator. |
| SessionController.SubmitWith | phase1_frontend/app/resume/page.tsx:255-269 | Submitting sets the evaluating flag and sends the requests built from the given answers. |
| SessionController.Submit | phase1_frontend/app/resume/page.tsx:255-269 | Submitting from the page sends one request per question, in order, with the current answer or the placeholder. Nothing but the evaluating flag and the countdown's view of the answers changes. |
| SessionController.EvaluationsOf | phase1_frontend/app/resume/page.tsx:270-273 | The evaluation map has a key exactly for the ok responses, each holding its own result. |
| SessionController.CollectEvaluations | phase1_frontend/app/resume/page.tsx:263-276 | The loop fills the map for exactly the ok responses. It reports rejection exactly when some request rejected, which makes `Promise.all` reject. |
| SessionController.Settle | phase1_frontend/app/resume/page.tsx:255-284 | Evaluating always ends. If a request rejected, evaluations and the complete flag are untouched. Otherwise the evaluations are exactly the ok results and the interview is complete. No other field changes, apart from the countdown's view of the answers. |
| SessionController.SettleKeepsValid | phase1_frontend/app/resume/page.tsx:255-284 | Settling one outcome per question keeps the session invariant. |
| SessionController.Tick | phase1_frontend/app/resume/page.tsx:124-144 | Corrected countdown. It does nothing when the timer is off, the interview is complete, there are no questions, or evaluation is in flight. At more than one second left it decrements by one. At one second or less the state is that of Next, or on the last question of Submit, applied with the time clamped to 0; on the last question it sends what Submit sends from the current answers. |
| SessionController.TickKeepsValid | phase1_frontend/app/resume/page.tsx:124-144 | Both the corrected and the as-written tick keep the session invariant. |
| SessionController.TickAsWrittenDropsAnswer | phase1_frontend/app/resume/page.tsx:124-144 | A one-question session at one second left, whose answer was typed after the countdown subscribed. As written, the tick sends "No answer provided."; corrected, it sends the typed answer. |
| SessionController.OnSpeechResult | phase1_frontend/app/resume/page.tsx:92-98 | The captured index's answer becomes `old + " " + transcript` when `old` is non-empty, and the transcript otherwise. Every other answer and every other field is unchanged. |
| SessionController.TwoCapturesJoinWithSpace | phase1_frontend/app/resume/page.tsx:95-98 | Two speech results on an empty answer give `first + " " + second`. |
| SessionController.TypeAnswer | phase1_frontend/app/resume/page.tsx:727 | Typing sets the current question's answer and nothing else. |
| SessionController.OnQuestionShown | phase1_frontend/app/resume/page.tsx:105-121 | Nothing happens with no questions or when the interview is complete. With the timer on, the time resets to the per-question time, and with it off the time is kept. The answers become exactly the old ones with the starter code placed at the current index when that question is a coding question with starter code and an empty answer, and are unchanged otherwise. |
| SessionController.ShownCodingQuestionGetsStarter | phase1_frontend/app/resume/page.tsx:113-119 | Showing a coding question that has starter code and an empty answer sets the answer to the starter code. |
| SessionController.OnQuestionShownIdempotent | phase1_frontend/app/resume/page.tsx:105-121 | Running the effect twice is the same as running it once. |
| SessionController.SelectFile | phase1_frontend/app/resume/page.tsx:227-240 | Choosing a file records it and changes nothing else. |
| SessionController.StartUpload | phase1_frontend/app/resume/page.tsx:146-148 | Without a file the upload does nothing. With one, the page shows the loading view. |
| SessionController.FinishUpload | phase1_frontend/app/resume/page.tsx:160-174 | Loading ends. On success the extracted text is stored and the config screen is shown. On failure nothing else changes. |
| SessionController.StartGenerate | phase1_frontend/app/resume/page.tsx:177-178 | Generating shows the loading view. |
| SessionController.FinishGenerate | phase1_frontend/app/resume/page.tsx:194-214 | Loading ends. A non-empty list replaces the questions and hides the config screen. A failure or an empty list keeps the questions and shows the config screen. No other field changes, apart from the countdown's view of the answers. |
| SessionController.UploadKeepsValid | phase1_frontend/app/resume/page.tsx:146-175 | An upload from a state without questions keeps the session invariant, whatever the response. |
| SessionController.GenerateKeepsValid | phase1_frontend/app/resume/page.tsx:177-215 | Generation from the config screen keeps the session invariant, whatever the response. |
| SessionController.StartNew | phase1_frontend/app/resume/page.tsx:633-641 | Start New clears questions, answers, evaluations, index, complete flag, file and extracted text. Loading, config and timer settings are kept. |
| SessionController.StartNewResets | phase1_frontend/app/resume/page.tsx:633-641 | Start New is exactly those seven resets. The countdown's view of the answers is refreshed when a dependency changed. |
| SessionController.Review | phase1_frontend/app/resume/page.tsx:647-650 | Review resets the index to 0 and the complete flag to false. It keeps answers, evaluations, questions and everything else. |
| SessionController.CurrentView | phase1_frontend/app/resume/page.tsx:291-664 | The view follows the priority order loading, upload, config, results, interview. Each view is shown exactly under its condition. |
| SessionController.ResultsButtons | phase1_frontend/app/resume/page.tsx:633-650 | From the results view, Start New leads to the upload view, and Review leads to the interview at question 0. Both keep the invariant. |
| SessionController.PresentCount | phase1_frontend/app/resume/page.tsx:552-553 | The number of evaluated questions never exceeds the number of questions. |
| SessionController.StrongCount | phase1_frontend/app/resume/page.tsx:567 | The strong answers, scoring 7 or more, are at most the evaluated ones. |
| SessionController.AverageScore | phase1_frontend/app/resume/page.tsx:552-554 | With evaluations, the average is the score sum over the number of evaluated questions. With nothing evaluated it is 0 over 1. |
| SessionController.PresentCountIsSize | phase1_frontend/app/resume/page.tsx:552-553 | Counting over the question indices equals the number of keys of the evaluation map, which is `Object.values(evaluations).length`, once every key is a question index. |
| SessionController.StrongCountIsSize | phase1_frontend/app/resume/page.tsx:567 | The count over the question indices is the number of evaluations scoring 7 or more. Once every key is a question index, that is the length of `filter(e => e.score >= 7)` over the map's values. |
| SessionController.KeySumRemove | phase1_frontend/app/resume/page.tsx:553 | The sum of the scores over a set of evaluated questions does not depend on the order of the keys: any key can be taken out first. |
| SessionController.ScoreSumIsKeySum | phase1_frontend/app/resume/page.tsx:553 | The running sum over the question indices equals the sum over the evaluated questions. Once every key is a question index, that is the `reduce` over the whole map. |
| SessionController.AverageInRange | phase1_frontend/app/resume/page.tsx:552-554 | With every score in 0..10, the average lies in 0..10. |
| SessionController.ClampQuestionCount | phase1_frontend/app/resume/page.tsx:439 | The typed count is clamped to 1..20. A value in range is kept, an unparsable or too small value gives 1, and a too large value gives 20. |
| SessionController.SetQuestionCount | phase1_frontend/app/resume/page.tsx:439 | Setting the count from the number input leaves it in 1..20 and changes nothing else. |
| SessionController.InterviewPage.constructor | phase1_frontend/app/resume/page.tsx:22-37 | The page starts in the initial state. |
| SessionController.InterviewPage.HandleNext | phase1_frontend/app/resume/page.tsx:243-247 | Updates the fields as Next does. |
| SessionController.InterviewPage.HandlePrevious | phase1_frontend/app/resume/page.tsx:249-253 | Updates the fields as Previous does. |
| SessionController.InterviewPage.HandleTick | phase1_frontend/app/resume/page.tsx:127-141 | Updates the fields and returns the requests as the corrected Tick does. |
| SessionController.InterviewPage.SubmitAllAnswers | phase1_frontend/app/resume/page.tsx:255-269 | Sets the evaluating flag and returns the requests, as Submit does. |
| SessionController.InterviewPage.SettleEvaluations | phase1_frontend/app/resume/page.tsx:270-283 | Updates the fields as Settle does. |
| SessionController.InterviewPage.HandleSpeechResult | phase1_frontend/app/resume/page.tsx:92-98 | Updates the answers as OnSpeechResult does. |
| SessionController.InterviewPage.ShowQuestion | phase1_frontend/app/resume/page.tsx:105-121 | Updates the fields as OnQuestionShown does. |
| SessionController.InterviewPage.StartNewInterview | phase1_frontend/app/resume/page.tsx:633-641 | Updates the fields as StartNew does. |
| SessionController.InterviewPage.ReviewAnswers | phase1_frontend/app/resume/page.tsx:647-650 | Updates the fields as Review does. |
| Questions.DedupFrom | phase3_backend_question_gen/question_bank.py:122-127 | De-duplication keeps only questions of the input whose id was not seen, and no two kept questions share an id. |
| Questions.DedupKeepsFirstOccurrences | phase3_backend_question_gen/question_bank.py:122-127 | The first question of every id that was not seen before is kept. |
| Questions.DedupComplete | phase3_backend_question_gen/question_bank.py:122-127 | Every id of the input that was not seen before is represented among the kept questions. |
| Questions.DedupKeepsIncreasing | phase3_backend_question_gen/question_bank.py:122-127 | A list with increasing, unseen ids passes de-duplication unchanged. |
| Questions.UniqueById | phase3_backend_question_gen/question_bank.py:122-127 | The loop with the `seen_ids` set computes the de-duplication. |
| FallbackSelection.Matched | phase3_backend_question_gen/question_bank.py:113-116 | Every matched question belongs to a non-behavioral key that occurs in the lower-cased resume. |
| FallbackSelection.MatchedIncludesMatchingSkills | phase3_backend_question_gen/question_bank.py:114-116 | Every question of every matching key is selected. |
| FallbackSelection.MatchSkills | phase3_backend_question_gen/question_bank.py:113-116 | The first loop extends the selection with the questions of the matching keys, in bank order. |
| FallbackSelection.FallbackQuestions | phase3_backend_question_gen/question_bank.py:105-133 | The result has at most `num_questions` questions, all from the bank, with distinct ids. |
| FallbackSelection.BankShape | phase3_backend_question_gen/question_bank.py:6-103 | The bank has four keys. The behavioral key is last and is the only behavioral one. |
| FallbackSelection.BankIds | phase3_backend_question_gen/question_bank.py:6-103 | The ids of the k-th key increase and lie between 1000(k+1) and 1000(k+2). |
| FallbackSelection.MatchedIncreasing | phase3_backend_question_gen/question_bank.py:113-116 | The matched questions come in increasing id order. |
| FallbackSelection.CandidatesIncreasing | phase3_backend_question_gen/question_bank.py:113-119 | The matched questions followed by the behavioral ones have increasing ids, and there are at least three. |
| FallbackSelection.SelectionIsMatchedThenBehavioral | phase3_backend_question_gen/question_bank.py:113-133 | The result is the matched questions in bank order, then the behavioral ones, truncated. De-duplication removes nothing, and the empty-list branch is never taken. |
| FallbackSelection.SelectionFromBank | phase3_backend_question_gen/question_bank.py:114-133 | Every returned question is a bank question, and no two share an id. |
| FallbackSelection.NoSkillMatch | phase3_backend_question_gen/question_bank.py:119-133 | With no key in the resume, the result is the first `num_questions` behavioral questions. |
| FallbackSelection.BehavioralIncludedIff | phase3_backend_question_gen/question_bank.py:107-133 | A behavioral question is returned exactly when fewer than `num_questions` technical questions matched. |
| FallbackSelection.FewMatchesAddBehavioral | phase3_backend_question_gen/question_bank.py:118-133 | With fewer matches than requested, the first behavioral question is returned. |
| FallbackSelection.ManyMatchesExcludeBehavioral | phase3_backend_question_gen/question_bank.py:118-133 | With at least as many matches as requested, no behavioral question is returned. |
| FallbackSelection.PythonFirst | phase3_backend_question_gen/question_bank.py:113-133 | A resume mentioning Python gets the Python questions first. |
| FallbackSelection.PythonResumeHasNoBehavioral | phase3_backend_question_gen/question_bank.py:106-108 | A Python resume asked for three questions gets the three Python questions and no behavioral one, contrary to the doc comment. |
| FallbackSelection.MatchingIgnoresCase | phase3_backend_question_gen/question_bank.py:110-115 | A resume opening with "Python" matches the key "python". |
| QuestionApi.CacheKeyIgnoresResumeTail | phase3_backend_question_gen/main.py:17-20 | Resume characters past the 5000th never change the key. |
| QuestionApi.CacheKeyNoSeparators | phase3_backend_question_gen/main.py:19 | The fields are joined without separators, so two different requests can share a key. |
| QuestionApi.Validate | phase3_backend_question_gen/main.py:116-126 | A request passes exactly when the generator is ready, the count is in 1..20 and the difficulty is valid. A missing generator gives 500 before anything else. A bad count or difficulty gives 400. |
| QuestionApi.CountBounds | phase3_backend_question_gen/main.py:120-121 | 20 questions are accepted and 21 are refused with 400. |
| QuestionApi.Handle | phase3_backend_question_gen/main.py:114-169 | A refused request returns its error with the cache untouched. A cache hit returns the cached questions with the cache untouched. A successful generation is stored under the key and returned, leaving the other entries alone. A failed generation returns the static selection with the cache untouched. |
| QuestionApi.RepeatedRequestHitsCache | phase3_backend_question_gen/main.py:139-158 | After a successful generation, the same request is answered from the cache whatever the generator would do. |
| QuestionApi.FallbackResponseBounds | phase3_backend_question_gen/main.py:160-169 | The static fallback returns between 1 and `num_questions` questions with distinct ids. |
| QuestionApi.QuestionService.constructor | phase3_backend_question_gen/main.py:76-81 | The service starts with the given readiness and cache. |
| QuestionApi.QuestionService.GenerateQuestions | phase3_backend_question_gen/main.py:114-169 | The response and new cache are those of Handle on the old cache. The models are asked exactly when the request is valid and misses the cache. |
| QuestionApi.AnswerResponseOf | phase3_backend_question_gen/main.py:171-196 | A missing or empty question or answer gives 400. A failure to load the evaluator gives 500 with its message. Otherwise the result is the evaluator's. |
| QuestionApi.EvaluateAnswer | phase3_backend_question_gen/main.py:171-196 | The endpoint responds as AnswerResponseOf. |
| QuestionGenerator.DifficultyInstructionCases | phase3_backend_question_gen/question_generator.py:37-40 | "mixed" gives the mix instruction. Any other difficulty is named in "All questions should be … difficulty level." |
| QuestionGenerator.DifficultyInstructionInjective | phase3_backend_question_gen/question_generator.py:37-40 | Different difficulties give different instructions. |
| QuestionGenerator.QuantityInstructionCount | phase3_backend_question_gen/question_generator.py:43-46 | With the auto flag the count plays no part. Without it, different counts give different instructions. |
| QuestionGenerator.JobDescriptionSection | phase3_backend_question_gen/question_generator.py:49-51 | "None provided." exactly for a blank job description. Otherwise it is the description cut to its first 2000 characters, framed by `---` lines. |
| QuestionGenerator.JobDescriptionIgnoresTail | phase3_backend_question_gen/question_generator.py:51 | Characters past the 2000th never reach the prompt. |
| QuestionGenerator.Classify | phase3_backend_question_gen/question_generator.py:102-125 | A model's reply is usable exactly when it is non-empty and decodes to a list or an object with `questions`; the payload is the list, or the `questions` field. An empty reply or an object without `questions` is skipped. A decoding error is recorded with its message. A string fails, with the indexing error when it contains "questions" and the missing `keys` error otherwise; any other scalar fails too. |
| QuestionGenerator.Tried | phase3_backend_question_gen/question_generator.py:100-125 | The models asked are a prefix of the list. Only the last of them can be usable, and it is when the loop stopped early. |
| QuestionGenerator.FirstUsableWins | phase3_backend_question_gen/question_generator.py:100-117 | The first usable reply is returned, and no later model is asked. |
| QuestionGenerator.NoUsableModel | phase3_backend_question_gen/question_generator.py:100-130 | With no usable reply, the last exception is raised if there was one, and `[]` is returned otherwise. |
| QuestionGenerator.LastFailureDropFirst | phase3_backend_question_gen/question_generator.py:122-124 | An exception replaces the recorded error, and skipped replies leave it alone. |
| QuestionGenerator.AskModel | phase3_backend_question_gen/question_generator.py:102-125 | One iteration classifies the model's reply, as Classify does. |
| QuestionGenerator.TryInOrder | phase3_backend_question_gen/question_generator.py:100-130 | The loop's outcome and the models it asks follow TryModels and Tried. |
| QuestionGenerator.GenerateQuestions | phase3_backend_question_gen/question_generator.py:93-130 | Runs the loop over the four candidate models. |
| Evaluator.PlaceholderCases | phase4_answer_evaluation/evaluator.py:23 | An answer is a placeholder exactly when it is whitespace only, or its lower case contains "no answer provided". |
| Evaluator.PlaceholderScoresZero | phase4_answer_evaluation/evaluator.py:23-31 | A placeholder answer scores 0 with the fixed not-answered result, whatever the key and the models. |
| Evaluator.Fallback | phase4_answer_evaluation/evaluator.py:115-119 | The fallback scores 5 with no keywords and no ideal answer. Its improvements are "Check API Quota or Connection.", and its feedback starts "Evaluation service unavailable. Error: ". |
| Evaluator.FallbackKeepsError | phase4_answer_evaluation/evaluator.py:118 | The feedback ends with the error message. |
| Evaluator.FallbackIsNotNotAnswered | phase4_answer_evaluation/evaluator.py:25-36 | The fallback is told apart from the not-answered result. |
| Evaluator.Cleanup | phase4_answer_evaluation/evaluator.py:78-87 | The cleaned text has no surrounding whitespace. |
| Evaluator.CleanupRemovesJsonFence | phase4_answer_evaluation/evaluator.py:81-87 | A reply wrapped in a ```` ```json ```` fence gives its stripped body, whenever the body does not itself start with a backtick. |
| Evaluator.CleanupKeepsPlainText | phase4_answer_evaluation/evaluator.py:81-87 | A stripped text without fences is unchanged. |
| Evaluator.BraceSlice | phase4_answer_evaluation/evaluator.py:94-99 | Recovery fails exactly when there is no "{", so the `end != -1` guard never rejects. Otherwise it is the text from the first "{" to the last "}", or empty when the last "}" comes first. |
| Evaluator.BraceSliceOfWrapped | phase4_answer_evaluation/evaluator.py:94-97 | Text around one braced object is cut away. |
| Evaluator.FromFieldsRoundTrip | phase4_answer_evaluation/evaluator.py:101-107 | An object with every field gives back exactly its result. |
| Evaluator.FromFieldsDefaults | phase4_answer_evaluation/evaluator.py:101-107 | An object with no field gets the five defaults. |
| Evaluator.DecodedReplyIsScored | phase4_answer_evaluation/evaluator.py:90-107 | A reply that decodes to an object is scored from it without recovery. |
| Evaluator.ReplyWithoutBrace | phase4_answer_evaluation/evaluator.py:92-99 | An undecodable reply without "{" fails with "Could not parse JSON from LLM response". |
| Evaluator.FirstScoredWins | phase4_answer_evaluation/evaluator.py:49-111 | The first model that produces a result decides it. |
| Evaluator.AllFailedCarriesLastError | phase4_answer_evaluation/evaluator.py:108-113 | When every model fails, the fallback carries the last model's error. |
| Evaluator.CleanReply | phase4_answer_evaluation/evaluator.py:78-87 | The successive reassignments of `text` compute Cleanup. |
| Evaluator.ParseReply | phase4_answer_evaluation/evaluator.py:90-107 | Decoding with the last-resort brace slice. |
| Evaluator.AskEvaluator | phase4_answer_evaluation/evaluator.py:50-111 | The `try` block for one model. |
| Evaluator.AskInOrder | phase4_answer_evaluation/evaluator.py:47-113 | The loop over models computes TryEvaluators and asks a non-empty prefix of them. |
| Evaluator.Evaluate | phase4_answer_evaluation/evaluator.py:21-113 | `evaluate` returns the modelled evaluation. No model is asked exactly for a placeholder answer or a missing key, and the models asked are a prefix of the list. |
| ResumeParser.PdfTextIsJoin | phase2_resume_extraction/resume_parser.py:13-26 | The PDF text is the readable pages joined by newlines with a final newline, or "" with no readable page. |
| ResumeParser.PdfSkipsFailedPage | phase2_resume_extraction/resume_parser.py:18-22 | A page that fails adds nothing. |
| ResumeParser.ExtractPdfText | phase2_resume_extraction/resume_parser.py:13-26 | The loop accumulates the PDF text. A PDF that cannot be opened gives "". |
| ResumeParser.ExtractDocxText | phase2_resume_extraction/resume_parser.py:28-33 | The paragraphs joined by "\n". |
| ResumeParser.SplitJoin | phase2_resume_extraction/resume_parser.py:28-33 | Splitting the DOCX text at newlines gives back paragraphs that have no newline of their own. |
| ResumeParser.SplitExtShape | phase2_resume_extraction/resume_parser.py:79 | Root and extension make up the path. A non-empty extension is one "." followed by no "." or "/". |
| ResumeParser.Basename | phase2_resume_extraction/resume_parser.py:115 | The file name is everything after the last "/": it ends the path, has no "/", and is either the whole path or preceded by a "/". |
| ResumeParser.ExtensionIgnoresCase | phase2_resume_extraction/resume_parser.py:79 | "cv.PDF" has the extension ".pdf". |
| ResumeParser.HiddenFileHasNoExtension | phase2_resume_extraction/resume_parser.py:79 | ".docx" alone has no extension, so it is refused. |
| ResumeParser.DirectoryDotIgnored | phase2_resume_extraction/resume_parser.py:79 | A dot in a directory name does not start an extension. |
| ResumeParser.ChooseText | phase2_resume_extraction/resume_parser.py:92-111 | A stripped traditional text of 50 or more is kept. Below 50: an "AI_ERROR:" scan fails with its detail, and a scan longer than 50 is kept. Otherwise 0 characters fail as zero text, 1-29 as too short, and 30-49 keep the traditional text. Any kept text is stripped and at least 30 long. |
| ResumeParser.LongTextIgnoresScan | phase2_resume_extraction/resume_parser.py:95 | With 50 or more characters the deep scan plays no part. |
| ResumeParser.Parse | phase2_resume_extraction/resume_parser.py:78-117 | Only .pdf, .docx and .txt in any case are accepted; any other extension is unsupported. A parsed text is stripped and at least 30 long, with the lower-cased extension and the basename. |
| ResumeParser.ReadTraditional | phase2_resume_extraction/resume_parser.py:82-90 | The reader is chosen by the extension. |
| ResumeParser.ChooseInOrder | phase2_resume_extraction/resume_parser.py:92-111 | The decision tree computes ChooseText, and the scan runs exactly below 50 characters. |
| ResumeParser.ParseResume | phase2_resume_extraction/resume_parser.py:78-117 | `parse_resume` computes Parse. The scan runs exactly for a supported file that was read and gave fewer than 50 stripped characters. |

## Left out

- Concurrency and React scheduling are not modelled. The countdown and `Promise.all` are sequential events: a tick, then a settle over one outcome per request. The model applies no check against stale upload or generate responses, because the page applies none.
- Speech synthesis, voice selection, the listening flags and `alert` are browser capabilities; only the transcript append is modelled.
- The range slider for the question count is not modelled. It sets `parseInt` of the slider value unclamped, and the browser keeps that value in 1..20. The per-question time input (an unclamped `parseInt`) is not modelled either.
- SessionController.AverageScore: the average is a sum and a count; `toFixed(1)` and floating-point division are left out.
- SessionController.DisplayScore: a missing score showing as 0 is stated by the definition only.
- `hashlib.md5` is not modelled: the cache is keyed by the text that would be hashed, so two keys are equal exactly when those texts are.
- The cache file read, write and temp-file handling are I/O, and so is environment loading. The cache is the map field of QuestionService.
- The prompt text is not modelled beyond the three instruction fragments it embeds.
- Gemini calls, `json.loads`, pypdf, python-docx and the upload for the deep scan are inputs (oracles), not modelled code.
- `str.lower` is modelled for ASCII letters only.
- `os.path` is modelled with POSIX separators only.
- The exact text of the parser's error messages is not modelled. Each error is a constructor carrying the values the message interpolates.
- QuestionGenerator.GenerateQuestions: an empty list returned by the models is returned and cached as is. The page then treats it as a failure.
- QuestionApi.Handle: the generator's output is a well-typed list of questions in the model. The endpoint stores `questions_data` in the cache before `QuestionResponse` validates it (phase3_backend_question_gen/main.py:154-158). So a malformed payload from a model would be cached, the fallback served, and the same request would then fail with 500 on the cache hit. This path is not modelled.
- The `QuestionGenerator` constructor's check for a missing key is not modelled. The endpoint sees it only as a generator that is not ready.

## Findings

| source | as written | input that shows it | evidently intended | confidence | as-written member | corrected member |
|---|---|---|---|---|---|---|
| phase1_frontend/app/resume/page.tsx:124-144 | The countdown effect does not list `answers` in its dependencies. The auto-submit on the last question therefore sends the answers from when the countdown last subscribed. | One question and the timer on. The user types an answer while the countdown runs, and the time then runs out. The typed answer is replaced by "No answer provided." and scores 0. | Auto-submit sends the current answers, as the Submit button does. | high; not executed | SessionController.TickAsWritten, shown by SessionController.TickAsWrittenDropsAnswer | SessionController.Tick |

Two behaviours of the page that its handlers do not make obvious; the model follows the code:

- The `if (res.ok)` test at phase1_frontend/app/resume/page.tsx:270 drops a scoring request that gets a non-ok status, and the interview still completes. A request that rejects outright, such as a network error, makes `Promise.all` reject. The page then shows an alert, leaves the evaluations and the complete flag as they were, and only ends evaluation (`Settle`).
- Auto-submit on the last question does not send what the Submit button would. The finding above shows how.

The doc comment of `get_fallback_questions` promises at least one behavioral question. `PythonResumeHasNoBehavioral` and `BehavioralIncludedIff` show the promise holds only when fewer than `num_questions` technical questions matched.
