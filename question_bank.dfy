/** The static question bank (phase3_backend_question_gen/question_bank.py):
    the last resort of the question service when every language model fails. */
module QuestionBankData {
  import opened Questions

  /** One key of the bank with its questions, in dictionary insertion order. */
  datatype BankEntry = BankEntry(skill: string, questions: seq<Question>)

  /** The key whose questions are always appended after the technical ones. */
  const BehavioralKey: string := "general_behavioral"

  const QuestionBank: seq<BankEntry> := [
    BankEntry("python", [
      Question(1001,
        "Explain the difference between a list and a tuple in Python. When would you use one over the other?",
        "technical", "easy", "Core Python proficiency.", ""),
      Question(1002,
        "What are Python decorators and how do they work? Provide a simple use case.",
        "technical", "medium", "Advanced Python concepts.", ""),
      Question(1003,
        "Write a function that takes a string and returns it reversed. Example: 'hello' -> 'olleh'.",
        "coding", "easy", "Basic algorithmic thinking in Python.",
        "def reverse_string(s):\n    # Your code here\n    pass")]),
    BankEntry("javascript", [
      Question(2001,
        "What is the difference between '==' and '===' in JavaScript?",
        "technical", "easy", "JS fundamentals.", ""),
      Question(2002,
        "Explain the concept of 'closures' in JavaScript with an example.",
        "technical", "medium", "Scope and memory management in JS.", ""),
      Question(2003,
        "Write a function that filters an array of numbers to return only the even ones.",
        "coding", "easy", "Array manipulation in JS.",
        "function filterEvens(arr) {\n    // Your code here\n}")]),
    BankEntry("react", [
      Question(3001,
        "What are React Hooks? Explain useState and useEffect.",
        "technical", "easy", "Modern React development.", ""),
      Question(3002,
        "What is the Virtual DOM, and how does React use it to improve performance?",
        "technical", "medium", "React architecture.", "")]),
    BankEntry("general_behavioral", [
      Question(4001,
        "Tell me about a challenging project you worked on. What were the obstacles and how did you overcome them?",
        "behavioral", "medium", "Problem-solving and resilience.", ""),
      Question(4002,
        "Where do you see yourself in two years in terms of your career growth?",
        "behavioral", "easy", "Ambition and career alignment.", ""),
      Question(4003,
        "How do you handle disagreement with a teammate or supervisor?",
        "behavioral", "easy", "Conflict resolution and teamwork.", "")])
  ]

  /** `QUESTION_BANK["general_behavioral"]` */
  const Behavioral: seq<Question> := QuestionBank[3].questions

}

/** `get_fallback_questions` over the bank (phase3_backend_question_gen/question_bank.py). */
module FallbackSelection {
  import opened Questions
  import opened PyStrings
  import opened QuestionBankData

  /** A question stored somewhere in the bank. */
  predicate InBank(q: Question) {
    exists k :: 0 <= k < |QuestionBank| && q in QuestionBank[k].questions
  }

  /** A technical key that occurs in the lower-cased resume. */
  predicate SkillMatches(e: BankEntry, resumeLower: string) {
    e.skill != BehavioralKey && Contains(resumeLower, e.skill)
  }

  /** The questions of every matching key of `bank`, in bank order:
      what the first loop of `get_fallback_questions` extends `selected` with. */
  function Matched(bank: seq<BankEntry>, resumeLower: string): (r: seq<Question>)
    ensures forall q :: q in r ==>
      exists k :: 0 <= k < |bank| && SkillMatches(bank[k], resumeLower) && q in bank[k].questions
  {
    if bank == [] then []
    else
      var e := bank[|bank| - 1];
      Matched(bank[..|bank| - 1], resumeLower)
        + (if SkillMatches(e, resumeLower) then e.questions else [])
  }

  /** Every question of a matching key is selected. */
  lemma {:induction false} MatchedIncludesMatchingSkills(bank: seq<BankEntry>, resumeLower: string, k: nat, q: Question)
    requires k < |bank| && SkillMatches(bank[k], resumeLower) && q in bank[k].questions
    ensures q in Matched(bank, resumeLower)
  {
    if k < |bank| - 1 {
      MatchedIncludesMatchingSkills(bank[..|bank| - 1], resumeLower, k, q);
    }
  }

  /** The technical questions of the matching keys, then the behavioral ones. */
  function Candidates(resumeText: string): seq<Question> {
    Matched(QuestionBank, Lower(resumeText)) + Behavioral
  }

  /** What `get_fallback_questions(resume_text, num_questions)` returns. */
  function Selection(resumeText: string, numQuestions: int): seq<Question> {
    var unique := DedupFrom(Candidates(resumeText), {});
    Take(if unique == [] then Behavioral else unique, numQuestions)
  }

  /** Step 1 of `get_fallback_questions`: extend the selection with the
      questions of every technical key found in the lower-cased resume. */
  method MatchSkills(resumeLower: string) returns (selected: seq<Question>)
    ensures selected == Matched(QuestionBank, resumeLower)
  {
    selected := [];
    var k := 0;
    while k < |QuestionBank|
      invariant 0 <= k <= |QuestionBank|
      invariant selected == Matched(QuestionBank[..k], resumeLower)
    {
      var entry := QuestionBank[k];
      assert QuestionBank[..k + 1][..k] == QuestionBank[..k];
      if entry.skill != BehavioralKey && Contains(resumeLower, entry.skill) {
        selected := selected + entry.questions;
      }
      k := k + 1;
    }
    assert QuestionBank[..k] == QuestionBank;
  }

  /** `get_fallback_questions(resume_text, num_questions)`: match skills by
      substring, append the behavioral questions, keep the first question of
      every id, fall back to the behavioral list when nothing is left, truncate. */
  method FallbackQuestions(resumeText: string, numQuestions: int) returns (r: seq<Question>)
    ensures r == Selection(resumeText, numQuestions)
    ensures numQuestions >= 0 ==> |r| <= numQuestions
    ensures DistinctIds(r)
    ensures forall q :: q in r ==> InBank(q)
  {
    var resumeLower := Lower(resumeText);
    var selected := MatchSkills(resumeLower);
    selected := selected + Behavioral;
    var unique := UniqueById(selected);
    if |unique| == 0 {
      unique := Behavioral;
    }
    r := Take(unique, numQuestions);
    SelectionFromBank(resumeText, numQuestions);
  }

  /** The shape of the bank: four keys, the behavioral one last. */
  lemma BankShape()
    ensures |QuestionBank| == 4
    ensures QuestionBank[3].skill == BehavioralKey && Behavioral == QuestionBank[3].questions
    ensures forall k :: 0 <= k < 3 ==> QuestionBank[k].skill != BehavioralKey
  {
  }

  /** The ids of key `k` increase and lie strictly between 1000 * (k + 1) and 1000 * (k + 2). */
  lemma BankIds(k: nat)
    requires k < |QuestionBank|
    ensures IncreasingIds(QuestionBank[k].questions)
    ensures forall i :: 0 <= i < |QuestionBank[k].questions| ==>
      1000 * (k + 1) < QuestionBank[k].questions[i].id < 1000 * (k + 2)
  {
  }

  /** The behavioral questions have ids above 4000. */
  lemma BehavioralIds()
    ensures forall q :: q in Behavioral ==> q.id > 4000
  {
    BankIds(3);
  }

  /** The questions matched among the first `k` keys have increasing ids below 1000 * (k + 1). */
  lemma MatchedIncreasing(k: nat, resumeLower: string)
    requires k <= |QuestionBank|
    ensures IncreasingIds(Matched(QuestionBank[..k], resumeLower))
    ensures forall q :: q in Matched(QuestionBank[..k], resumeLower) ==> q.id < 1000 * (k + 1)
  {
    var bank := QuestionBank[..k];
    forall b | 0 <= b < k
      ensures IncreasingIds(bank[b].questions)
      ensures forall i :: 0 <= i < |bank[b].questions| ==>
        1000 * (b + 1) < bank[b].questions[i].id < 1000 * (b + 2)
    {
      BankIds(b);
    }
    MatchedBanded(bank, resumeLower);
  }

  /** When the ids of key `b` lie strictly between 1000 * (b + 1) and
      1000 * (b + 2) and increase, the matched questions have increasing
      ids below 1000 * (|bank| + 1). */
  lemma {:induction false} MatchedBanded(bank: seq<BankEntry>, resumeLower: string)
    requires forall b :: 0 <= b < |bank| ==> IncreasingIds(bank[b].questions)
    requires forall b, i :: 0 <= b < |bank| && 0 <= i < |bank[b].questions| ==>
      1000 * (b + 1) < bank[b].questions[i].id < 1000 * (b + 2)
    ensures IncreasingIds(Matched(bank, resumeLower))
    ensures forall q :: q in Matched(bank, resumeLower) ==> q.id < 1000 * (|bank| + 1)
    decreases |bank|
  {
    if bank != [] {
      var k := |bank|;
      var init := bank[..k - 1];
      MatchedBanded(init, resumeLower);
      var prev := Matched(init, resumeLower);
      var e := bank[k - 1];
      var added: seq<Question> := if SkillMatches(e, resumeLower) then e.questions else [];
      var m := prev + added;
      assert Matched(bank, resumeLower) == m;
      forall i, j | 0 <= i < j < |m| ensures m[i].id < m[j].id {
        if i < |prev| && j >= |prev| {
          assert m[i] in prev;
          assert m[j] == added[j - |prev|];
        }
      }
      forall q | q in m ensures q.id < 1000 * (k + 1) {
        if q !in prev {
          var i :| 0 <= i < |added| && added[i] == q;
        }
      }
    }
  }

  /** The keys that can match are the three technical ones. */
  lemma MatchedIgnoresBehavioral(resumeLower: string)
    ensures Matched(QuestionBank, resumeLower) == Matched(QuestionBank[..3], resumeLower)
  {
    BankShape();
    assert QuestionBank[..4] == QuestionBank;
  }

  /** The candidate list already has distinct, increasing ids and is never empty. */
  lemma CandidatesIncreasing(resumeText: string)
    ensures IncreasingIds(Candidates(resumeText))
    ensures |Candidates(resumeText)| >= |Behavioral| == 3
  {
    var lower := Lower(resumeText);
    MatchedIgnoresBehavioral(lower);
    MatchedIncreasing(3, lower);
    BankIds(3);
    BankShape();
    var m := Matched(QuestionBank, lower);
    var c := m + Behavioral;
    forall i, j | 0 <= i < j < |c| ensures c[i].id < c[j].id {
      if i < |m| && j >= |m| {
        assert c[i] in m;
      }
    }
  }

  /** The result is the technical questions of the matching keys in bank
      order, then the behavioral ones, truncated to `numQuestions`: the
      de-duplication removes nothing and the empty-list branch is never taken. */
  lemma SelectionIsMatchedThenBehavioral(resumeText: string, numQuestions: int)
    ensures Selection(resumeText, numQuestions)
      == Take(Matched(QuestionBank, Lower(resumeText)) + Behavioral, numQuestions)
  {
    CandidatesIncreasing(resumeText);
    DedupKeepsIncreasing(Candidates(resumeText), {});
  }

  /** Every selected question is a bank question with a distinct id. */
  lemma SelectionFromBank(resumeText: string, numQuestions: int)
    ensures DistinctIds(Selection(resumeText, numQuestions))
    ensures forall q :: q in Selection(resumeText, numQuestions) ==> InBank(q)
  {
    SelectionIsMatchedThenBehavioral(resumeText, numQuestions);
    CandidatesIncreasing(resumeText);
    TakeOfIncreasing(Candidates(resumeText), numQuestions);
    CandidatesInBank(resumeText);
  }

  /** A prefix of a list with increasing ids has distinct ids and nothing else. */
  lemma TakeOfIncreasing(c: seq<Question>, n: int)
    requires IncreasingIds(c)
    ensures DistinctIds(Take(c, n))
    ensures forall q :: q in Take(c, n) ==> q in c
  {
    var r := Take(c, n);
    assert r == c[..|r|];
    assert forall i, j :: 0 <= i < j < |r| ==> r[i].id < r[j].id;
  }

  /** Every candidate question is a bank question. */
  lemma CandidatesInBank(resumeText: string)
    ensures forall q :: q in Candidates(resumeText) ==> InBank(q)
  {
    BankShape();
    forall q | q in Candidates(resumeText) ensures InBank(q) {
      if q !in Behavioral {
        assert q in Matched(QuestionBank, Lower(resumeText));
      }
    }
  }

  /** No key of `bank` matches: nothing is selected. */
  lemma {:induction false} MatchedNone(bank: seq<BankEntry>, resumeLower: string)
    requires forall k :: 0 <= k < |bank| ==> !SkillMatches(bank[k], resumeLower)
    ensures Matched(bank, resumeLower) == []
  {
    if bank != [] {
      MatchedNone(bank[..|bank| - 1], resumeLower);
    }
  }

  /** The selection from a prefix of the bank is a prefix of the selection from the whole bank. */
  lemma {:induction false} MatchedPrefix(bank: seq<BankEntry>, k: nat, resumeLower: string)
    requires k <= |bank|
    ensures Matched(bank[..k], resumeLower) <= Matched(bank, resumeLower)
  {
    if k < |bank| {
      MatchedPrefix(bank[..|bank| - 1], k, resumeLower);
      assert bank[..|bank| - 1][..k] == bank[..k];
    } else {
      assert bank[..k] == bank;
    }
  }

  /** A resume naming none of the technical keys gets the first
      `numQuestions` behavioral questions. */
  lemma NoSkillMatch(resumeText: string, numQuestions: int)
    requires forall k :: 0 <= k < 3 ==> !Contains(Lower(resumeText), QuestionBank[k].skill)
    ensures Selection(resumeText, numQuestions) == Take(Behavioral, numQuestions)
  {
    var lower := Lower(resumeText);
    SelectionIsMatchedThenBehavioral(resumeText, numQuestions);
    MatchedIgnoresBehavioral(lower);
    MatchedNone(QuestionBank[..3], lower);
    assert Matched(QuestionBank, lower) + Behavioral == Behavioral;
  }

  /** A behavioral question is part of the result exactly when fewer than
      `numQuestions` technical questions matched. */
  lemma BehavioralIncludedIff(resumeText: string, numQuestions: int)
    requires numQuestions >= 0
    ensures (exists q :: q in Selection(resumeText, numQuestions) && q in Behavioral)
      <==> |Matched(QuestionBank, Lower(resumeText))| < numQuestions
  {
    if |Matched(QuestionBank, Lower(resumeText))| < numQuestions {
      FewMatchesAddBehavioral(resumeText, numQuestions);
    } else {
      ManyMatchesExcludeBehavioral(resumeText, numQuestions);
    }
  }

  /** Fewer matched questions than requested: the first behavioral question follows them. */
  lemma FewMatchesAddBehavioral(resumeText: string, numQuestions: int)
    requires |Matched(QuestionBank, Lower(resumeText))| < numQuestions
    ensures Behavioral[0] in Selection(resumeText, numQuestions)
  {
    var m := Matched(QuestionBank, Lower(resumeText));
    var c := m + Behavioral;
    SelectionIsMatchedThenBehavioral(resumeText, numQuestions);
    BankShape();
    PrefixReaches(m, Behavioral, numQuestions);
  }

  /** A prefix longer than `m` reaches the first element of `b`. */
  lemma PrefixReaches(m: seq<Question>, b: seq<Question>, n: int)
    requires |m| < n && b != []
    ensures b[0] in Take(m + b, n)
  {
    var r := Take(m + b, n);
    assert |r| > |m| && r[|m|] == (m + b)[|m|] == b[0];
  }

  /** At least as many matched questions as requested: no behavioral question is left. */
  lemma ManyMatchesExcludeBehavioral(resumeText: string, numQuestions: int)
    requires 0 <= numQuestions <= |Matched(QuestionBank, Lower(resumeText))|
    ensures forall q :: q in Selection(resumeText, numQuestions) ==> q !in Behavioral
  {
    var m := Matched(QuestionBank, Lower(resumeText));
    SelectionIsMatchedThenBehavioral(resumeText, numQuestions);
    MatchedIdsBelowBehavioral(Lower(resumeText));
    PrefixAvoids(m, Behavioral, numQuestions);
  }

  /** A prefix no longer than `m` holds nothing of `b`, when the ids of `m`
      are below 4000 and those of `b` above. */
  lemma PrefixAvoids(m: seq<Question>, b: seq<Question>, n: int)
    requires 0 <= n <= |m|
    requires forall q :: q in m ==> q.id < 4000
    requires forall q :: q in b ==> q.id > 4000
    ensures forall q :: q in Take(m + b, n) ==> q !in b
  {
    var r := Take(m + b, n);
    assert r == m[..n];
    forall q | q in r ensures q !in b {
      assert q in m;
    }
  }

  /** Matched questions have smaller ids than every behavioral question. */
  lemma MatchedIdsBelowBehavioral(resumeLower: string)
    ensures forall q :: q in Matched(QuestionBank, resumeLower) ==> q.id < 4000
    ensures forall q :: q in Behavioral ==> q.id > 4000
  {
    MatchedIgnoresBehavioral(resumeLower);
    MatchedIncreasing(3, resumeLower);
    BehavioralIds();
  }

  /** When the resume names Python, the result starts with the Python questions. */
  lemma PythonFirst(resumeText: string, numQuestions: int)
    requires Contains(Lower(resumeText), "python")
    requires 0 <= numQuestions <= 3
    ensures Selection(resumeText, numQuestions) == QuestionBank[0].questions[..numQuestions]
  {
    var lower := Lower(resumeText);
    SelectionIsMatchedThenBehavioral(resumeText, numQuestions);
    assert QuestionBank[0].skill == "python" && |QuestionBank[0].questions| == 3;
    LeadingEntry(QuestionBank, lower, Behavioral, numQuestions);
  }

  /** When the first key of `bank` matches, its questions open the selection. */
  lemma LeadingEntry(bank: seq<BankEntry>, resumeLower: string, rest: seq<Question>, n: nat)
    requires bank != [] && SkillMatches(bank[0], resumeLower) && n <= |bank[0].questions|
    ensures Take(Matched(bank, resumeLower) + rest, n) == bank[0].questions[..n]
  {
    MatchedPrefix(bank, 1, resumeLower);
    var p := bank[0].questions;
    var m := Matched(bank, resumeLower);
    assert bank[..1][..0] == [];
    assert Matched(bank[..1], resumeLower) == p;
    assert (m + rest)[..n] == m[..n] == p[..n];
  }

  /** A resume naming Python, asked for three questions, gets the three
      Python questions and no behavioral one, although the doc comment of
      `get_fallback_questions` promises at least one. */
  lemma PythonResumeHasNoBehavioral(resumeText: string)
    requires Contains(Lower(resumeText), "python")
    ensures Selection(resumeText, 3) == QuestionBank[0].questions
    ensures forall q :: q in Selection(resumeText, 3) ==> q !in Behavioral
  {
    PythonFirst(resumeText, 3);
    assert QuestionBank[0].questions[..3] == QuestionBank[0].questions;
    BankIds(0);
    BehavioralIds();
  }

  /** Skill matching ignores case: a resume opening with "Python" (as
      "Python Developer" does) matches the key "python". */
  lemma MatchingIgnoresCase(resumeText: string, numQuestions: int)
    requires StartsWith(resumeText, "Python")
    requires 0 <= numQuestions <= 3
    ensures Selection(resumeText, numQuestions) == QuestionBank[0].questions[..numQuestions]
  {
    LowerKeepsPrefix(resumeText, "Python");
    assert Lower("Python") == "python";
    ContainsPrefix(Lower(resumeText), "python");
    PythonFirst(resumeText, numQuestions);
  }
}
