/** The survey tables on values, and what each transaction does to them (server/internal/store/feedback.go). Rows are
    locked from the first read to the commit, so a transaction is one step; only the decision to show a prompt is taken
    apart, in SurveyRuns. */
module SurveyModel {
  import opened Wrappers
  import opened SurveyForm

  datatype PromptStatus = Shown | Dismissed | Submitted
  datatype Stage = Overall | Followup
  datatype SubmissionStatus = Partial | Completed

  datatype Prompt = Prompt(form: int, user: int, status: PromptStatus, stage: Stage, shownAt: int,
      finishedAt: Option<int>)

  datatype Submission = Submission(form: int, user: int, prompt: nat, status: SubmissionStatus, answers: map<int, int>)

  /** `byPrompt` is the unique index of submissions on their prompt. */
  datatype Db = Db(forms: map<int, Form>, active: Option<int>, prompts: map<nat, Prompt>, subs: map<nat, Submission>,
      byPrompt: map<nat, nat>)

  datatype Summary = Summary(id: nat, status: PromptStatus, stage: Stage, shownAt: int,
      submission: Option<(nat, SubmissionStatus)>)

  datatype Presentation = NotEligible(next: Option<int>) | Presented(prompt: Summary, form: Option<Form>)

  datatype SubmitResult = SubmitResult(submission: nat, status: SubmissionStatus, followupRequired: bool)

  function FormById(db: Db, id: int): Result<Form, Error> {
    if id !in db.forms then Err(Failure)
    else if WellDefined(db.forms[id]) then Ok(db.forms[id])
    else Err(InvalidDefinition)
  }

  function SummaryOf(db: Db, pid: nat): Summary
    requires pid in db.prompts
  {
    var p := db.prompts[pid];
    Summary(pid, p.status, p.stage, p.shownAt,
            if pid in db.byPrompt && db.byPrompt[pid] in db.subs
            then Some((db.byPrompt[pid], db.subs[db.byPrompt[pid]].status))
            else None)
  }

  /** What is answered for a prompt that is stored already; none when it is not. */
  function Existing(db: Db, user: int, pid: nat): Option<Result<Presentation, Error>> {
    if pid !in db.prompts then None
    else if db.prompts[pid].user != user then Some(Err(NotFound))
    else if db.prompts[pid].status != Shown then Some(Ok(Presented(SummaryOf(db, pid), None)))
    else match FormById(db, db.prompts[pid].form)
      case Err(e) => Some(Err(e))
      case Ok(form) => Some(Ok(Presented(SummaryOf(db, pid), Some(form))))
  }

  // ---------- the cooldown ----------

  predicate OfForm(db: Db, pid: nat, user: int, key: string) {
    && pid in db.prompts && db.prompts[pid].user == user
    && db.prompts[pid].form in db.forms && db.forms[db.prompts[pid].form].key == key
  }

  /** The latest instant at which the user was shown any version of the form. */
  ghost predicate IsLast(db: Db, user: int, key: string, last: Option<int>) {
    match last
    case None => forall pid :: pid in db.prompts ==> !OfForm(db, pid, user, key)
    case Some(t) =>
      && (exists pid :: OfForm(db, pid, user, key) && db.prompts[pid].shownAt == t)
      && (forall pid :: pid in db.prompts && OfForm(db, pid, user, key) ==> db.prompts[pid].shownAt <= t)
  }

  lemma LastIsUnique(db: Db, user: int, key: string, a: Option<int>, b: Option<int>)
    requires IsLast(db, user, key, a) && IsLast(db, user, key, b)
    ensures a == b
  {
  }

  lemma LastExists(db: Db, user: int, key: string) returns (last: Option<int>)
    ensures IsLast(db, user, key, last)
  {
    last := None;
    var rest := db.prompts.Keys;
    while rest != {}
      invariant rest <= db.prompts.Keys
      invariant last.None? ==> forall pid :: pid in db.prompts && pid !in rest ==> !OfForm(db, pid, user, key)
      invariant last.Some? ==> exists pid :: OfForm(db, pid, user, key) && db.prompts[pid].shownAt == last.value
      invariant last.Some? ==> forall pid :: pid in db.prompts && pid !in rest && OfForm(db, pid, user, key) ==>
                  db.prompts[pid].shownAt <= last.value
      decreases rest
    {
      var pid :| pid in rest;
      rest := rest - {pid};
      if OfForm(db, pid, user, key) && (last.None? || last.value < db.prompts[pid].shownAt) {
        last := Some(db.prompts[pid].shownAt);
      }
    }
  }

  /** Whether a prompt may be shown now, and otherwise from when on. */
  function Waits(last: Option<int>, form: Form, now: int): Option<int> {
    if last.Some? && now < NextEligibleAt(last.value, form.cooldownDays)
    then Some(NextEligibleAt(last.value, form.cooldownDays))
    else None
  }

  function WithPrompt(db: Db, user: int, pid: nat, form: int, now: int): Db {
    db.(prompts := db.prompts[pid := Prompt(form, user, Shown, Overall, now, None)])
  }

  /** One undisturbed request to present: `last` is the latest prompt of the form. */
  function Present(db: Db, user: int, pid: nat, now: int, last: Option<int>): (Db, Result<Presentation, Error>) {
    match Existing(db, user, pid)
    case Some(answer) => (db, answer)
    case None =>
      if db.active.None? then (db, Ok(NotEligible(None)))
      else match FormById(db, db.active.value)
        case Err(e) => (db, Err(e))
        case Ok(form) =>
          var wait := Waits(last, form, now);
          if wait.Some? then (db, Ok(NotEligible(wait)))
          else (WithPrompt(db, user, pid, db.active.value, now),
                Ok(Presented(Summary(pid, Shown, Overall, now, None), Some(form))))
  }

  /** The key of the form that a request would show. */
  function ActiveKey(db: Db): string {
    if db.active.Some? && db.active.value in db.forms then db.forms[db.active.value].key else ""
  }

  // ---------- answers ----------

  predicate Owned(db: Db, user: int, pid: nat) { pid in db.prompts && db.prompts[pid].user == user }

  function SubmitOverall(db: Db, user: int, pid: nat, question: int, score: int, now: int, newId: nat):
      (Db, Result<SubmitResult, Error>) {
    if !Owned(db, user, pid) then (db, Err(NotFound))
    else
      var p := db.prompts[pid];
      if pid in db.byPrompt && db.byPrompt[pid] in db.subs then
        var sid := db.byPrompt[pid];
        (db, Ok(SubmitResult(sid, db.subs[sid].status, db.subs[sid].status == Partial && p.status == Shown)))
      else if p.status != Shown then (db, Err(Conflict))
      else match FormById(db, p.form)
        case Err(e) => (db, Err(e))
        case Ok(form) =>
          match ValidateOverall(form, question, score)
          case Err(e) => (db, Err(e))
          case Ok(followup) =>
            var status := if followup then Partial else Completed;
            var next := if followup then p.(stage := Followup) else p.(status := Submitted, finishedAt := Some(now));
            (db.(subs := db.subs[newId := Submission(p.form, user, pid, status, map[question := score])],
                 byPrompt := db.byPrompt[pid := newId], prompts := db.prompts[pid := next]),
             Ok(SubmitResult(newId, status, followup)))
  }

  function WithAnswers(answers: map<int, int>, more: seq<Answer>): map<int, int> {
    if more == [] then answers
    else WithAnswers(answers, more[..|more| - 1])[more[|more| - 1].question := more[|more| - 1].score]
  }

  /** The primary key of answers refuses a second answer to a question. */
  predicate Insertable(answers: map<int, int>, more: seq<Answer>) {
    && (forall i :: 0 <= i < |more| ==> more[i].question !in answers)
    && (forall i, j :: 0 <= i < j < |more| ==> more[i].question != more[j].question)
  }

  lemma {:induction false} WithAnswersMeans(answers: map<int, int>, more: seq<Answer>)
    requires Insertable(answers, more)
    ensures forall q :: q in WithAnswers(answers, more) <==> q in answers || AnsweredBy(more, q)
    ensures forall q :: q in answers ==> WithAnswers(answers, more)[q] == answers[q]
    ensures forall a :: a in more ==>
              a.question in WithAnswers(answers, more) && WithAnswers(answers, more)[a.question] == a.score
  {
    if more != [] {
      var before, last := more[..|more| - 1], more[|more| - 1];
      assert more == before + [last];
      WithAnswersMeans(answers, before);
      var w := WithAnswers(answers, before);
      forall q ensures q in w[last.question := last.score] <==> q in answers || AnsweredBy(more, q) {
        assert AnsweredBy(more, q) <==> AnsweredBy(before, q) || last.question == q;
      }
      forall a | a in more ensures w[last.question := last.score][a.question] == a.score {
        var i :| 0 <= i < |more| && more[i] == a;
        assert a != last ==> a in before;
      }
    }
  }

  lemma InsertableNext(answers: map<int, int>, more: seq<Answer>, a: Answer)
    ensures Insertable(answers, more + [a]) <==>
            Insertable(answers, more) && a.question !in answers && !AnsweredBy(more, a.question)
  {
    var all := more + [a];
    assert forall i :: 0 <= i < |more| ==> all[i] == more[i];
    assert all[|more|] == a;
    if Insertable(answers, all) {
      forall x | x in more ensures x.question != a.question {
        var i :| 0 <= i < |more| && more[i] == x;
        assert all[i] == x;
      }
    }
    if Insertable(answers, more) && a.question !in answers && !AnsweredBy(more, a.question) {
      forall i, j | 0 <= i < j < |all| ensures all[i].question != all[j].question {
        assert more[i] in more;
      }
    }
  }

  function CompleteFollowup(db: Db, user: int, sid: nat, answers: seq<Answer>, now: int):
      (Db, Result<SubmitResult, Error>) {
    if sid !in db.subs || db.subs[sid].user != user || !Owned(db, user, db.subs[sid].prompt) then (db, Err(NotFound))
    else
      var sub := db.subs[sid];
      var p := db.prompts[sub.prompt];
      if sub.status == Completed then (db, Ok(SubmitResult(sid, Completed, false)))
      else if p.status != Shown then (db, Err(Conflict))
      else match FormById(db, sub.form)
        case Err(e) => (db, Err(e))
        case Ok(form) =>
          var root := Root(form).id;
          if root !in sub.answers then (db, Err(Failure))
          else if !FollowupAnswered(form, sub.answers[root], answers) then (db, Err(InvalidInput))
          else if !Insertable(sub.answers, answers) then (db, Err(Failure))
          else (db.(subs := db.subs[sid := sub.(status := Completed, answers := WithAnswers(sub.answers, answers))],
                    prompts := db.prompts[sub.prompt := p.(status := Submitted, finishedAt := Some(now))]),
                Ok(SubmitResult(sid, Completed, false)))
  }

  function Dismiss(db: Db, user: int, pid: nat, now: int): (Db, Result<Summary, Error>) {
    if !Owned(db, user, pid) then (db, Err(NotFound))
    else
      var p := db.prompts[pid];
      var out := Summary(pid, Dismissed, p.stage, p.shownAt, None);
      match p.status
      case Dismissed => (db, Ok(out))
      case Submitted => (db, Err(Conflict))
      case Shown => (db.(prompts := db.prompts[pid := p.(status := Dismissed, finishedAt := Some(now))]), Ok(out))
  }

  // ---------- retention ----------

  function Age(p: Prompt): int { if p.finishedAt.Some? then p.finishedAt.value else p.shownAt }

  /** At most `limit` expired prompts, the oldest first. */
  ghost predicate Expired(db: Db, gone: set<nat>, before: int, limit: nat) {
    && |gone| <= limit
    && (forall pid :: pid in gone ==> pid in db.prompts && Age(db.prompts[pid]) < before)
    && (forall pid, other :: pid in gone && other in db.prompts && other !in gone ==>
       Age(db.prompts[pid]) <= Age(db.prompts[other]))
    && (|gone| < limit ==> forall other :: other in db.prompts && Age(db.prompts[other]) < before ==> other in gone)
  }

  /** Submissions go with their prompts. */
  function Without(db: Db, gone: set<nat>): Db {
    db.(prompts := map pid | pid in db.prompts && pid !in gone :: db.prompts[pid],
        subs := map sid | sid in db.subs && db.subs[sid].prompt !in gone :: db.subs[sid],
        byPrompt := map pid | pid in db.byPrompt && pid !in gone :: db.byPrompt[pid])
  }
}
