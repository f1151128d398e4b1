/** Survey forms and answers (server/internal/userfeedback/definition.go). */
module SurveyForm {
  import opened Wrappers

  const FOLLOWUP_SCORE_MAX := 2
  const MIN_SCORE := 1
  const MAX_SCORE := 5
  const DAY := 24 * 60 * 60 * 1_000_000_000

  datatype Question = Question(id: int, key: string, sortOrder: int, required: bool, displayIf: Option<int>,
      scoreMax: Option<int>)

  datatype Form = Form(id: int, key: string, cooldownDays: int, questions: seq<Question>)

  datatype Answer = Answer(question: int, score: int)

  datatype Error = NotFound | InvalidInput | Conflict | InvalidDefinition | Failure

  predicate ValidScore(score: int) { MIN_SCORE <= score <= MAX_SCORE }

  // ---------- definitions ----------

  predicate KeysDistinct(qs: seq<Question>) {
    forall i, j :: 0 <= i < j < |qs| ==> qs[i].key != qs[j].key && qs[i].sortOrder != qs[j].sortOrder
  }

  function RootsOf(qs: seq<Question>): seq<Question> {
    if qs == [] then []
    else
      var before, q := RootsOf(qs[..|qs| - 1]), qs[|qs| - 1];
      if q.displayIf == None then before + [q] else before
  }

  predicate FollowsRoot(q: Question, root: Question) {
    q.displayIf.Some? ==> q.displayIf == Some(root.id) && q.scoreMax == Some(FOLLOWUP_SCORE_MAX)
  }

  /** One overall question without a condition; every other question depends on it, up to a score of two. */
  predicate WellDefined(f: Form) {
    && f.cooldownDays >= 1
    && KeysDistinct(f.questions)
    && (forall i :: 0 <= i < |f.questions| && f.questions[i].displayIf == None ==> f.questions[i].scoreMax == None)
    && |RootsOf(f.questions)| == 1
    && (forall i :: 0 <= i < |f.questions| ==> FollowsRoot(f.questions[i], RootsOf(f.questions)[0]))
  }

  method CollectRoots(f: Form) returns (roots: seq<Question>, ok: bool)
    ensures ok <==> KeysDistinct(f.questions)
                    && forall i :: 0 <= i < |f.questions| && f.questions[i].displayIf == None ==>
                       f.questions[i].scoreMax == None
    ensures ok ==> roots == RootsOf(f.questions)
  {
    var keys: set<string>, orders: set<int> := {}, {};
    roots, ok := [], true;
    for n := 0 to |f.questions|
      invariant forall k :: k in keys <==> exists i :: 0 <= i < n && f.questions[i].key == k
      invariant forall o :: o in orders <==> exists i :: 0 <= i < n && f.questions[i].sortOrder == o
      invariant KeysDistinct(f.questions[..n]) && roots == RootsOf(f.questions[..n])
      invariant forall i :: 0 <= i < n && f.questions[i].displayIf == None ==> f.questions[i].scoreMax == None
    {
      var q := f.questions[n];
      assert f.questions[..n + 1][..n] == f.questions[..n];
      if q.key in keys || q.sortOrder in orders {
        var i :| 0 <= i < n && (f.questions[i].key == q.key || f.questions[i].sortOrder == q.sortOrder);
        return roots, false;
      }
      assert KeysDistinct(f.questions[..n + 1]);
      keys, orders := keys + {q.key}, orders + {q.sortOrder};
      if q.displayIf == None {
        if q.scoreMax != None { return roots, false; }
        roots := roots + [q];
      }
    }
    assert f.questions[..|f.questions|] == f.questions;
  }

  method ValidateDefinition(f: Form) returns (ok: bool)
    ensures ok <==> WellDefined(f)
  {
    if f.cooldownDays < 1 { return false; }
    var roots, clean := CollectRoots(f);
    if !clean { return false; }
    if |roots| != 1 { return false; }
    for n := 0 to |f.questions|
      invariant forall i :: 0 <= i < n ==> FollowsRoot(f.questions[i], roots[0])
    {
      var q := f.questions[n];
      if q.displayIf == None { continue; }
      if q.displayIf.value != roots[0].id || q.scoreMax != Some(FOLLOWUP_SCORE_MAX) {
        assert !FollowsRoot(q, roots[0]);
        return false;
      }
    }
    return true;
  }

  /** The first question without a condition; a zero question when there is none. */
  function RootIn(qs: seq<Question>): Question {
    if qs == [] then Question(0, "", 0, false, None, None)
    else if qs[0].displayIf == None then qs[0]
    else RootIn(qs[1..])
  }

  function Root(f: Form): Question { RootIn(f.questions) }

  method FindRoot(f: Form) returns (q: Question)
    ensures q == Root(f)
  {
    for n := 0 to |f.questions|
      invariant Root(f) == RootIn(f.questions[n..])
    {
      if f.questions[n].displayIf == None { return f.questions[n]; }
    }
    return Question(0, "", 0, false, None, None);
  }

  lemma {:induction false} RootsStart(qs: seq<Question>)
    ensures RootsOf(qs) == [] ==> forall i :: 0 <= i < |qs| ==> qs[i].displayIf.Some?
    ensures RootsOf(qs) != [] ==> RootsOf(qs)[0] == RootIn(qs)
    ensures forall i :: 0 <= i < |qs| && qs[i].displayIf == None ==> qs[i] in RootsOf(qs)
    ensures forall q :: q in RootsOf(qs) ==> q in qs && q.displayIf == None
  {
    if qs != [] {
      var before, q := qs[..|qs| - 1], qs[|qs| - 1];
      assert qs == before + [q];
      RootsStart(before);
      RootOfMore(before, q);
    }
  }

  lemma {:induction false} RootOfMore(qs: seq<Question>, q: Question)
    ensures (exists i :: 0 <= i < |qs| && qs[i].displayIf == None) ==> RootIn(qs + [q]) == RootIn(qs)
    ensures (forall i :: 0 <= i < |qs| ==> qs[i].displayIf.Some?) && q.displayIf == None ==> RootIn(qs + [q]) == q
  {
    if qs != [] && qs[0].displayIf.Some? {
      assert (qs + [q])[1..] == qs[1..] + [q];
      RootOfMore(qs[1..], q);
    }
  }

  predicate Shows(q: Question, score: int) { q.scoreMax.Some? && score <= q.scoreMax.value }

  /** The follow-up questions for a score, in order. */
  function FollowupsIn(qs: seq<Question>, score: int): seq<Question> {
    if qs == [] then []
    else
      var before, q := FollowupsIn(qs[..|qs| - 1], score), qs[|qs| - 1];
      if Shows(q, score) then before + [q] else before
  }

  function FollowupsFor(f: Form, score: int): seq<Question> { FollowupsIn(f.questions, score) }

  method CollectFollowups(f: Form, score: int) returns (out: seq<Question>)
    ensures out == FollowupsFor(f, score)
  {
    out := [];
    for n := 0 to |f.questions|
      invariant out == FollowupsIn(f.questions[..n], score)
    {
      var q := f.questions[n];
      assert f.questions[..n + 1][..n] == f.questions[..n];
      if q.scoreMax.Some? && score <= q.scoreMax.value { out := out + [q]; }
    }
    assert f.questions[..|f.questions|] == f.questions;
  }

  lemma {:induction false} FollowupsAre(qs: seq<Question>, score: int, q: Question)
    ensures q in FollowupsIn(qs, score) <==> q in qs && Shows(q, score)
  {
    if qs != [] {
      var before, last := qs[..|qs| - 1], qs[|qs| - 1];
      assert qs == before + [last];
      FollowupsAre(before, score, q);
    }
  }

  /** In a well-defined form the root is the one overall question, and the follow-ups are all the others for a score of
      at most two and none for a better one. */
  lemma WellDefinedMeans(f: Form, score: int)
    requires WellDefined(f)
    ensures Root(f) in f.questions && Root(f).displayIf == None
    ensures forall q :: q in f.questions && q.displayIf == None ==> q == Root(f)
    ensures forall q :: q in FollowupsFor(f, score) <==> q in f.questions && q != Root(f) && score <= FOLLOWUP_SCORE_MAX
  {
    var qs := f.questions;
    RootsStart(qs);
    assert RootsOf(qs)[0] in RootsOf(qs);
    forall q | q in qs && q.displayIf == None ensures q == Root(f) {
      var i :| 0 <= i < |qs| && qs[i] == q;
      assert q in RootsOf(qs);
    }
    forall q ensures q in FollowupsFor(f, score) <==> q in qs && q != Root(f) && score <= FOLLOWUP_SCORE_MAX {
      FollowupsAre(qs, score, q);
      if q in qs {
        var i :| 0 <= i < |qs| && qs[i] == q;
        assert FollowsRoot(q, RootsOf(qs)[0]);
      }
    }
  }

  // ---------- answers ----------

  /** Whether a follow-up is due, or why the overall answer is refused. */
  function ValidateOverall(f: Form, question: int, score: int): Result<bool, Error> {
    if !ValidScore(score) || Root(f).id != question then Err(InvalidInput) else Ok(FollowupsFor(f, score) != [])
  }

  predicate Asked(qs: seq<Question>, id: int) { exists q :: q in qs && q.id == id }

  predicate AnsweredBy(answers: seq<Answer>, id: int) { exists a :: a in answers && a.question == id }

  /** Every answer is to an expected question, with a valid score, and no question is answered twice. */
  predicate Fits(expected: seq<Question>, answers: seq<Answer>) {
    && (forall a :: a in answers ==> Asked(expected, a.question) && ValidScore(a.score))
    && (forall i, j :: 0 <= i < j < |answers| ==> answers[i].question != answers[j].question)
  }

  /** Follow-ups are due, the answers fit them, and every required one is answered. */
  predicate FollowupAnswered(f: Form, overall: int, answers: seq<Answer>) {
    var expected := FollowupsFor(f, overall);
    && expected != []
    && Fits(expected, answers)
    && (forall q :: q in expected && q.required ==> AnsweredBy(answers, q.id))
  }

  method CheckAnswers(expected: seq<Question>, answers: seq<Answer>) returns (ok: bool, seen: set<int>)
    ensures ok <==> Fits(expected, answers)
    ensures ok ==> forall id :: id in seen <==> AnsweredBy(answers, id)
  {
    var ids: set<int> := set q | q in expected :: q.id;
    ok, seen := true, {};
    for n := 0 to |answers|
      invariant forall i :: 0 <= i < n ==> Asked(expected, answers[i].question) && ValidScore(answers[i].score)
      invariant forall i, j :: 0 <= i < j < n ==> answers[i].question != answers[j].question
      invariant forall id :: id in seen <==> exists i :: 0 <= i < n && answers[i].question == id
    {
      var a := answers[n];
      if a.question !in ids || a.question in seen || !ValidScore(a.score) {
        assert a in answers;
        return false, seen;
      }
      seen := seen + {a.question};
    }
    forall id ensures id in seen <==> AnsweredBy(answers, id) {
      if id in seen {
        var i :| 0 <= i < |answers| && answers[i].question == id;
        assert answers[i] in answers;
      }
    }
  }

  method ValidateFollowup(f: Form, overall: int, answers: seq<Answer>) returns (ok: bool)
    ensures ok <==> FollowupAnswered(f, overall, answers)
  {
    var expected := CollectFollowups(f, overall);
    if |expected| == 0 { return false; }
    var fits, seen := CheckAnswers(expected, answers);
    if !fits { return false; }
    for n := 0 to |expected|
      invariant forall i :: 0 <= i < n && expected[i].required ==> AnsweredBy(answers, expected[i].id)
    {
      if expected[n].required && expected[n].id !in seen {
        assert expected[n] in expected;
        return false;
      }
    }
    return true;
  }

  function NextEligibleAt(lastShown: int, cooldownDays: int): int { lastShown + cooldownDays * DAY }
}
