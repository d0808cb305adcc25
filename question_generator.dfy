/** The question generator (phase3_backend_question_gen/question_generator.py):
    the instruction fragments of the prompt and the loop that asks each
    candidate language model in turn. The models and the JSON decoder are
    oracles: `respond` says what the model of a given name answered to the
    prompt, `decode` what `json.loads` makes of a reply text. */
module QuestionGenerator {
  import opened Wrappers
  import opened PyStrings
  import opened Questions

  const MixedInstruction: string := "Mix of easy, medium, and hard questions."

  const AutoCountInstruction: string :=
    "Decide on an optimal number of interview questions (between 5 and 20) based on the depth of the resume and the complexity of the job description. Aim for a comprehensive evaluation."

  const NoJobDescription: string := "None provided."

  /** The number of job-description characters the prompt keeps. */
  const JobDescriptionLimit: nat := 2000

  /** The models asked, in this order. */
  const CandidateModels: seq<string> :=
    ["gemini-2.5-flash", "gemini-2.0-flash", "gemini-flash-latest", "gemini-2.5-flash-lite"]

  /** The difficulty line of the prompt's rules. */
  function DifficultyInstruction(difficulty: string): string {
    if difficulty == "mixed" then MixedInstruction
    else "All questions should be " + difficulty + " difficulty level."
  }

  /** "mixed" asks for a mix; every other difficulty is named in a fixed sentence. */
  lemma DifficultyInstructionCases(difficulty: string)
    ensures difficulty == "mixed" ==> DifficultyInstruction(difficulty) == MixedInstruction
    ensures difficulty != "mixed" ==>
      var r := DifficultyInstruction(difficulty);
      StartsWith(r, "All questions should be ")
      && EndsWith(r, " difficulty level.")
      && r[24..|r| - 18] == difficulty
  {
  }

  /** Two different difficulties never give the same instruction. */
  lemma DifficultyInstructionInjective(d1: string, d2: string)
    requires DifficultyInstruction(d1) == DifficultyInstruction(d2)
    ensures d1 == d2
  {
    DifficultyInstructionCases(d1);
    DifficultyInstructionCases(d2);
    assert (d1 == "mixed") == (DifficultyInstruction(d1)[0] == 'M');
    assert (d2 == "mixed") == (DifficultyInstruction(d2)[0] == 'M');
    if d1 != "mixed" {
      assert d1 == DifficultyInstruction(d1)[24..|DifficultyInstruction(d1)| - 18];
    }
  }

  /** The quantity line: a fixed sentence when the model picks the count,
      otherwise the exact count requested. */
  function QuantityInstruction(autoSelectCount: bool, numQuestions: int): string {
    if autoSelectCount then AutoCountInstruction
    else "Generate exactly " + IntToStr(numQuestions) + " interview questions."
  }

  /** With the automatic count the requested number plays no part; without
      it, different numbers give different instructions. */
  lemma QuantityInstructionCount(numQuestions: int, other: int)
    ensures QuantityInstruction(true, numQuestions) == QuantityInstruction(true, other)
    ensures numQuestions != other ==>
      QuantityInstruction(false, numQuestions) != QuantityInstruction(false, other)
  {
    if numQuestions != other
      && QuantityInstruction(false, numQuestions) == QuantityInstruction(false, other)
    {
      var a := QuantityInstruction(false, numQuestions);
      var prefix := "Generate exactly ";
      var suffix := " interview questions.";
      assert a[|prefix|..|a| - |suffix|] == IntToStr(numQuestions);
      assert a[|prefix|..|a| - |suffix|] == IntToStr(other);
      IntToStrInjective(numQuestions, other);
    }
  }

  /** The job-description part of the prompt. */
  function JobDescriptionSection(jobDescription: string): (r: string)
    ensures r == NoJobDescription <==> forall i :: 0 <= i < |jobDescription| ==> IsSpace(jobDescription[i])
    ensures r != NoJobDescription ==>
      StartsWith(r, "---\n") && EndsWith(r, "\n---") && |r| <= JobDescriptionLimit + 8
    ensures r != NoJobDescription ==> r == "---\n" + Take(jobDescription, JobDescriptionLimit) + "\n---"
  {
    StripEmptyIffBlank(jobDescription);
    if Strip(jobDescription) != "" then
      var t := Take(jobDescription, JobDescriptionLimit);
      Framed(t);
      "---\n" + t + "\n---"
    else NoJobDescription
  }

  /** A text between the two "---" lines is framed by them and is not the
      no-description line. */
  lemma Framed(t: string)
    ensures StartsWith("---\n" + t + "\n---", "---\n") && EndsWith("---\n" + t + "\n---", "\n---")
    ensures |"---\n" + t + "\n---"| == |t| + 8
    ensures "---\n" + t + "\n---" != NoJobDescription
  {
    var r := "---\n" + t + "\n---";
    assert r[0] == '-' && NoJobDescription[0] != '-';
  }

  /** Characters past the 2000th never reach the prompt. */
  lemma JobDescriptionIgnoresTail(a: string, b: string)
    requires JobDescriptionLimit <= |a| && JobDescriptionLimit <= |b|
    requires a[..JobDescriptionLimit] == b[..JobDescriptionLimit]
    requires Strip(a) != "" && Strip(b) != ""
    ensures JobDescriptionSection(a) == JobDescriptionSection(b)
  {
    assert Take(a, JobDescriptionLimit) == Take(b, JobDescriptionLimit);
  }

  /** A model's reply: an exception, or the reply text. */
  datatype Reply = Threw(error: string) | Replied(text: string)

  /** What `json.loads` returns, as far as the loop looks at it. Numbers,
      booleans and `null` are scalars, named by their Python type. */
  datatype JsonDoc =
    | Malformed(error: string)
    | ObjectDoc(questionsField: Option<seq<Question>>)
    | ArrayDoc(items: seq<Question>)
    | StringDoc(value: string)
    | ScalarDoc(typeName: string)

  /** What one model contributes: a usable list, nothing, or an exception. */
  datatype Attempt = Usable(questions: seq<Question>) | Skipped | Failed(error: string)

  /** The exception of `data.keys()` on a string. */
  const StrHasNoKeys: string := "'str' object has no attribute 'keys'"

  /** The body of the `try` in the loop, for one model. */
  function Classify(reply: Reply, decode: string -> JsonDoc): (a: Attempt)
    ensures reply.Threw? ==> a == Failed(reply.error)
    ensures reply == Replied("") ==> a == Skipped
    ensures a.Usable? <==>
      (reply.Replied? && reply.text != ""
       && (decode(reply.text).ArrayDoc? || (decode(reply.text).ObjectDoc? && decode(reply.text).questionsField.Some?)))
    ensures a.Usable? && decode(reply.text).ArrayDoc? ==> a.questions == decode(reply.text).items
    ensures a.Usable? && decode(reply.text).ObjectDoc? ==> a.questions == decode(reply.text).questionsField.value
    ensures a == Skipped <==>
      (reply == Replied("") || (reply.Replied? && decode(reply.text).ObjectDoc? && decode(reply.text).questionsField.None?))
    ensures reply.Replied? && reply.text != "" && decode(reply.text).Malformed? ==> a == Failed(decode(reply.text).error)
    ensures reply.Replied? && reply.text != "" && (decode(reply.text).StringDoc? || decode(reply.text).ScalarDoc?) ==> a.Failed?
    ensures reply.Replied? && reply.text != "" && decode(reply.text).StringDoc? ==>
      (a == Failed("string indices must be integers") <==> Contains(decode(reply.text).value, "questions"))
  {
    match reply
    case Threw(e) => Failed(e)
    case Replied(text) =>
      if text == "" then Skipped
      else
        match decode(text)
        case Malformed(e) => Failed(e)
        // "questions" in data
        case ObjectDoc(field) => if field.Some? then Usable(field.value) else Skipped
        // "questions" in a list of objects is false; isinstance(data, list) holds
        case ArrayDoc(items) => Usable(items)
        // "questions" in a string is a substring test; indexing a string by it
        // raises, and otherwise printing `data.keys()` raises
        case StringDoc(s) =>
          if Contains(s, "questions") then Failed("string indices must be integers")
          else Failed(StrHasNoKeys)
        // "questions" in a number, a boolean or None raises
        case ScalarDoc(t) => Failed("argument of type '" + t + "' is not iterable")
  }

  /** What `generate_questions` does with the models `models`, the exception
      recorded so far being `lastError`. */
  datatype Generation = Returned(questions: seq<Question>) | Raised(error: string)

  function TryModels(models: seq<string>, respond: string -> Reply, decode: string -> JsonDoc,
                     lastError: Option<string>): Generation
    decreases |models|
  {
    if models == [] then
      match lastError
      case Some(e) => Raised(e)
      case None => Returned([])
    else
      match Classify(respond(models[0]), decode)
      case Usable(qs) => Returned(qs)
      case Skipped => TryModels(models[1..], respond, decode, lastError)
      case Failed(e) => TryModels(models[1..], respond, decode, Some(e))
  }

  /** The models asked: every one up to and including the first usable one. */
  function Tried(models: seq<string>, respond: string -> Reply, decode: string -> JsonDoc): (t: seq<string>)
    decreases |models|
    ensures t <= models
    ensures |t| < |models| ==> t != [] && Classify(respond(t[|t| - 1]), decode).Usable?
    ensures forall j :: 0 <= j < |t| - 1 ==> !Classify(respond(t[j]), decode).Usable?
  {
    if models == [] then []
    else if Classify(respond(models[0]), decode).Usable? then [models[0]]
    else [models[0]] + Tried(models[1..], respond, decode)
  }

  /** The first usable answer is returned and no later model is asked. */
  lemma FirstUsableWins(models: seq<string>, respond: string -> Reply,
                        decode: string -> JsonDoc, lastError: Option<string>, k: nat)
    requires k < |models| && Classify(respond(models[k]), decode).Usable?
    requires forall j :: 0 <= j < k ==> !Classify(respond(models[j]), decode).Usable?
    ensures TryModels(models, respond, decode, lastError)
      == Returned(Classify(respond(models[k]), decode).questions)
    ensures Tried(models, respond, decode) == models[..k + 1]
  {
    FirstUsableReturned(models, respond, decode, lastError, k);
    FirstUsableLastAsked(models, respond, decode, k);
  }

  /** The list of the first usable answer is what is returned. */
  lemma {:induction false} FirstUsableReturned(models: seq<string>, respond: string -> Reply,
                                               decode: string -> JsonDoc, lastError: Option<string>, k: nat)
    requires k < |models| && Classify(respond(models[k]), decode).Usable?
    requires forall j :: 0 <= j < k ==> !Classify(respond(models[j]), decode).Usable?
    ensures TryModels(models, respond, decode, lastError)
      == Returned(Classify(respond(models[k]), decode).questions)
  {
    if k > 0 {
      var rest := models[1..];
      assert forall j :: 0 <= j < k - 1 ==> rest[j] == models[j + 1];
      var e := if Classify(respond(models[0]), decode).Failed?
        then Some(Classify(respond(models[0]), decode).error) else lastError;
      FirstUsableReturned(rest, respond, decode, e, k - 1);
    }
  }

  /** The models after the first usable one are not asked. */
  lemma {:induction false} FirstUsableLastAsked(models: seq<string>, respond: string -> Reply,
                                                decode: string -> JsonDoc, k: nat)
    requires k < |models| && Classify(respond(models[k]), decode).Usable?
    requires forall j :: 0 <= j < k ==> !Classify(respond(models[j]), decode).Usable?
    ensures Tried(models, respond, decode) == models[..k + 1]
  {
    if k > 0 {
      var rest := models[1..];
      assert forall j :: 0 <= j < k - 1 ==> rest[j] == models[j + 1];
      FirstUsableLastAsked(rest, respond, decode, k - 1);
      assert models[..k + 1] == [models[0]] + rest[..k];
    }
  }

  /** The exception of the last failing model among `models`, or `lastError` when none fails. */
  function LastFailure(models: seq<string>, respond: string -> Reply, decode: string -> JsonDoc,
                       lastError: Option<string>): Option<string>
    decreases |models|
  {
    if models == [] then lastError
    else
      var a := Classify(respond(models[|models| - 1]), decode);
      if a.Failed? then Some(a.error)
      else LastFailure(models[..|models| - 1], respond, decode, lastError)
  }

  /** When no model is usable, the most recent exception is raised, and an
      empty list is returned when there was none: empty and unexpected
      replies are not recorded. */
  lemma {:induction false} NoUsableModel(models: seq<string>, respond: string -> Reply,
                                         decode: string -> JsonDoc, lastError: Option<string>)
    requires forall j :: 0 <= j < |models| ==> !Classify(respond(models[j]), decode).Usable?
    ensures TryModels(models, respond, decode, lastError)
      == match LastFailure(models, respond, decode, lastError)
         case Some(e) => Raised(e)
         case None => Returned([])
    decreases |models|
  {
    if models != [] {
      var rest := models[1..];
      var e := match Classify(respond(models[0]), decode)
        case Failed(msg) => Some(msg)
        case _ => lastError;
      NoUsableModel(rest, respond, decode, e);
      LastFailureDropFirst(models, respond, decode, lastError);
    }
  }

  /** `LastFailure` read from the front: the first model's exception, if
      any, replaces the one recorded before it. */
  lemma {:induction false} LastFailureDropFirst(models: seq<string>, respond: string -> Reply,
                                                decode: string -> JsonDoc, lastError: Option<string>)
    requires models != []
    ensures LastFailure(models, respond, decode, lastError)
      == LastFailure(models[1..], respond, decode,
           match Classify(respond(models[0]), decode)
           case Failed(msg) => Some(msg)
           case _ => lastError)
    decreases |models|
  {
    if |models| > 1 {
      var init := models[..|models| - 1];
      assert init[1..] == models[1..][..|models| - 2];
      assert init[0] == models[0];
      LastFailureDropFirst(init, respond, decode, lastError);
    }
  }

  /** The body of the `try` for one model: ask it, skip an empty reply,
      decode the reply and look at its shape. */
  method AskModel(name: string, respond: string -> Reply, decode: string -> JsonDoc) returns (a: Attempt)
    ensures a == Classify(respond(name), decode)
  {
    var reply := respond(name);
    match reply {
      case Threw(e) =>
        a := Failed(e);
      case Replied(text) =>
        if text == "" {
          a := Skipped;
          return;
        }
        var data := decode(text);
        match data {
          case Malformed(e) =>
            a := Failed(e);
          case ObjectDoc(field) =>
            a := if field.Some? then Usable(field.value) else Skipped;
          case ArrayDoc(items) =>
            a := Usable(items);
          case StringDoc(s) =>
            a := if Contains(s, "questions") then Failed("string indices must be integers") else Failed(StrHasNoKeys);
          case ScalarDoc(t) =>
            a := Failed("argument of type '" + t + "' is not iterable");
        }
    }
  }

  /** Concatenation regroups; stated once so the loop below need not rediscover it. */
  lemma ConcatAssoc<T>(a: seq<T>, b: seq<T>, c: seq<T>)
    ensures a + (b + c) == (a + b) + c
  { }

  /** One model's turn: what the remaining models give, and the models asked. */
  lemma OneModel(models: seq<string>, respond: string -> Reply, decode: string -> JsonDoc, lastError: Option<string>)
    requires models != []
    ensures TryModels(models, respond, decode, lastError) ==
      match Classify(respond(models[0]), decode)
      case Usable(qs) => Returned(qs)
      case Skipped => TryModels(models[1..], respond, decode, lastError)
      case Failed(e) => TryModels(models[1..], respond, decode, Some(e))
    ensures Tried(models, respond, decode) ==
      [models[0]] + (if Classify(respond(models[0]), decode).Usable? then [] else Tried(models[1..], respond, decode))
  {
  }

  /** The candidate-model loop of `generate_questions` over `models`:
      returns what it produced and the models it asked, in order. */
  method TryInOrder(models: seq<string>, respond: string -> Reply, decode: string -> JsonDoc)
    returns (result: Generation, tried: seq<string>)
    ensures result == TryModels(models, respond, decode, None)
    ensures tried == Tried(models, respond, decode)
  {
    var lastError: Option<string> := None;
    tried := [];
    var i := 0;
    while i < |models|
      invariant 0 <= i <= |models|
      invariant TryModels(models, respond, decode, None) == TryModels(models[i..], respond, decode, lastError)
      invariant Tried(models, respond, decode) == tried + Tried(models[i..], respond, decode)
    {
      var name := models[i];
      ghost var before := tried;
      tried := tried + [name];
      assert models[i..][0] == name && models[i..][1..] == models[i + 1..];
      OneModel(models[i..], respond, decode, lastError);
      var attempt := AskModel(name, respond, decode);
      if attempt.Usable? {
        assert Tried(models[i..], respond, decode) == [name];
        return Returned(attempt.questions), tried;
      }
      ghost var rest := Tried(models[i + 1..], respond, decode);
      assert Tried(models[i..], respond, decode) == [name] + rest;
      ConcatAssoc(before, [name], rest);
      if attempt.Failed? {
        lastError := Some(attempt.error);
      }
      i := i + 1;
    }
    match lastError {
      case Some(e) => result := Raised(e);
      case None => result := Returned([]);
    }
  }

  /** `generate_questions` once the prompt is built: the candidate models in their order. */
  method GenerateQuestions(respond: string -> Reply, decode: string -> JsonDoc)
    returns (result: Generation, tried: seq<string>)
    ensures result == TryModels(CandidateModels, respond, decode, None)
    ensures tried == Tried(CandidateModels, respond, decode)
  {
    result, tried := TryInOrder(CandidateModels, respond, decode);
  }
}
