/** The interview question record exchanged by the question service and the
    browser session. Kind and difficulty stay strings, as in the JSON the
    language model produces: "technical" | "behavioral" | "coding" and
    "easy" | "medium" | "hard". An absent `initial_code` is the empty string. */
module Questions {

  datatype Question = Question(
    id: int,
    text: string,
    kind: string,
    difficulty: string,
    context: string,
    initialCode: string)

  /** No two questions of the list share an id. */
  predicate DistinctIds(qs: seq<Question>) {
    forall i, j :: 0 <= i < j < |qs| ==> qs[i].id != qs[j].id
  }

  /** The ids strictly increase along the list. */
  predicate IncreasingIds(qs: seq<Question>) {
    forall i, j :: 0 <= i < j < |qs| ==> qs[i].id < qs[j].id
  }

  /** The de-duplication loop: keep a question when its id was not seen
      before, in order. */
  function DedupFrom(s: seq<Question>, seen: set<int>): (r: seq<Question>)
    ensures forall q :: q in r ==> q in s && q.id !in seen
    ensures DistinctIds(r)
  {
    if s == [] then []
    else if s[0].id in seen then DedupFrom(s[1..], seen)
    else
      var rest := DedupFrom(s[1..], seen + {s[0].id});
      assert forall q :: q in s[1..] ==> q in s;
      [s[0]] + rest
  }

  /** One step of the de-duplication loop. */
  lemma DedupStep(s: seq<Question>, seen: set<int>)
    requires s != []
    ensures s[0].id in seen ==> DedupFrom(s, seen) == DedupFrom(s[1..], seen)
    ensures s[0].id !in seen ==> DedupFrom(s, seen) == [s[0]] + DedupFrom(s[1..], seen + {s[0].id})
  {
  }

  /** No question before position `i` has the id of the one at `i`. */
  predicate FirstOfId(s: seq<Question>, i: int)
    requires 0 <= i < |s|
  {
    forall j :: 0 <= j < i ==> s[j].id != s[i].id
  }

  /** The first question of every id not seen before is kept. */
  lemma {:induction false} DedupKeepsFirstOccurrences(s: seq<Question>, seen: set<int>)
    ensures forall i :: 0 <= i < |s| && s[i].id !in seen && FirstOfId(s, i) ==> s[i] in DedupFrom(s, seen)
  {
    if s != [] {
      var t := s[1..];
      var seenNext := if s[0].id in seen then seen else seen + {s[0].id};
      DedupKeepsFirstOccurrences(t, seenNext);
      DedupStep(s, seen);
      forall i | 0 <= i < |s| && s[i].id !in seen && FirstOfId(s, i)
        ensures s[i] in DedupFrom(s, seen)
      {
        if i > 0 {
          assert s[i].id != s[0].id;
          assert t[i - 1] == s[i];
          assert FirstOfId(t, i - 1) by {
            forall j | 0 <= j < i - 1 ensures t[j].id != t[i - 1].id {
              assert t[j] == s[j + 1];
            }
          }
        }
      }
    }
  }

  /** Where the id of `s[k]` is kept: its position among the kept questions. */
  lemma {:induction false} DedupPosition(s: seq<Question>, seen: set<int>, k: int) returns (j: int)
    requires 0 <= k < |s| && s[k].id !in seen
    ensures 0 <= j < |DedupFrom(s, seen)| && DedupFrom(s, seen)[j].id == s[k].id
  {
    var t := s[1..];
    DedupStep(s, seen);
    var r := DedupFrom(s, seen);
    if s[0].id in seen {
      assert k > 0 && t[k - 1] == s[k];
      j := DedupPosition(t, seen, k - 1);
    } else if s[k].id == s[0].id {
      assert r[0] == s[0];
      j := 0;
    } else {
      var rest := DedupFrom(t, seen + {s[0].id});
      assert r == [s[0]] + rest;
      assert k > 0 && t[k - 1] == s[k];
      var i := DedupPosition(t, seen + {s[0].id}, k - 1);
      assert r[i + 1] == rest[i];
      j := i + 1;
    }
  }

  /** Completeness of the de-duplication: every id of the input that was not
      seen before is represented among the kept questions. */
  lemma {:induction false} DedupComplete(s: seq<Question>, seen: set<int>)
    ensures forall q :: q in s && q.id !in seen ==> exists p :: p in DedupFrom(s, seen) && p.id == q.id
  {
    forall q | q in s && q.id !in seen
      ensures exists p :: p in DedupFrom(s, seen) && p.id == q.id
    {
      var k :| 0 <= k < |s| && s[k] == q;
      var j := DedupPosition(s, seen, k);
      assert DedupFrom(s, seen)[j] in DedupFrom(s, seen);
    }
  }

  /** A list whose ids increase and were not seen before is kept whole. */
  lemma {:induction false} DedupKeepsIncreasing(s: seq<Question>, seen: set<int>)
    requires IncreasingIds(s)
    requires forall i :: 0 <= i < |s| ==> s[i].id !in seen
    ensures DedupFrom(s, seen) == s
  {
    if s != [] {
      var t := s[1..];
      assert forall i :: 0 <= i < |t| ==> t[i] == s[i + 1];
      assert IncreasingIds(t);
      assert forall i :: 0 <= i < |t| ==> s[0].id < t[i].id;
      DedupKeepsIncreasing(t, seen + {s[0].id});
      assert DedupFrom(s, seen) == [s[0]] + DedupFrom(t, seen + {s[0].id});
      assert [s[0]] + t == s;
    }
  }

  /** The loop of `get_fallback_questions` that keeps the first question of every
      id, tracking the ids seen so far. */
  method UniqueById(selected: seq<Question>) returns (unique: seq<Question>)
    ensures unique == DedupFrom(selected, {})
  {
    ghost var all := DedupFrom(selected, {});
    var seen: set<int> := {};
    unique := [];
    var i := 0;
    while i < |selected|
      invariant 0 <= i <= |selected|
      invariant unique + DedupFrom(selected[i..], seen) == all
    {
      var q := selected[i];
      DedupStep(selected[i..], seen);
      assert selected[i..][1..] == selected[i + 1..];
      if q.id !in seen {
        unique := unique + [q];
        seen := seen + {q.id};
      }
      i := i + 1;
    }
    assert selected[i..] == [];
  }

}
