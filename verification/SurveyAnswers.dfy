/** When the survey accepts what a user sends, and which refusal is given when it does not, in the fields of the stored
    form, prompt and submission. */
module SurveyAnswers {
  import opened Wrappers
  import opened SurveyForm
  import opened SurveyModel
  import opened SurveyRuns

  const ONE_DAY := 24 * 60 * 60 * 1_000_000_000

  // ---------- forms ----------

  /** The question at r has no condition, and every other one is asked after it for a score of at most two. */
  ghost predicate AskedFirst(qs: seq<Question>, r: nat) {
    && r < |qs| && qs[r].displayIf == None && qs[r].scoreMax == None
    && forall i :: 0 <= i < |qs| && i != r ==> qs[i].displayIf == Some(qs[r].id) && qs[i].scoreMax == Some(2)
  }

  lemma {:induction false} RootsAre(qs: seq<Question>)
    ensures |RootsOf(qs)| == 0 <==> forall i :: 0 <= i < |qs| ==> qs[i].displayIf.Some?
    ensures |RootsOf(qs)| == 1 <==> exists r :: 0 <= r < |qs| && OnlyRoot(qs, r)
    ensures forall r :: 0 <= r < |qs| && OnlyRoot(qs, r) ==> RootsOf(qs) == [qs[r]]
  {
    if qs != [] {
      var before, q := qs[..|qs| - 1], qs[|qs| - 1];
      assert qs == before + [q];
      RootsAre(before);
      if r :| 0 <= r < |before| && OnlyRoot(before, r) { assert q.displayIf.Some? ==> OnlyRoot(qs, r); }
      if forall i :: 0 <= i < |before| ==> before[i].displayIf.Some? {
        assert q.displayIf.None? ==> OnlyRoot(qs, |qs| - 1);
      }
      forall r | 0 <= r < |qs| && OnlyRoot(qs, r) ensures RootsOf(qs) == [qs[r]] {
        if r < |before| {
          assert OnlyRoot(before, r);
        } else {
          assert forall i :: 0 <= i < |before| ==> before[i] == qs[i];
        }
      }
    }
  }

  ghost predicate OnlyRoot(qs: seq<Question>, r: nat)
    requires r < |qs|
  {
    qs[r].displayIf == None && forall i :: 0 <= i < |qs| && i != r ==> qs[i].displayIf.Some?
  }

  /** A form is accepted exactly when its cooldown is at least a day, keys and places are not repeated, and one question
      comes first and leads to all the others up to a score of two. */
  lemma WellDefinedExactly(f: Form)
    ensures WellDefined(f) <==>
            && f.cooldownDays >= 1
            && (forall i, j :: 0 <= i < j < |f.questions| ==>
                  f.questions[i].key != f.questions[j].key && f.questions[i].sortOrder != f.questions[j].sortOrder)
            && (exists r :: 0 <= r < |f.questions| && AskedFirst(f.questions, r))
  {
    var qs := f.questions;
    RootsAre(qs);
    if WellDefined(f) {
      var r :| 0 <= r < |qs| && OnlyRoot(qs, r);
      forall i | 0 <= i < |qs| && i != r ensures qs[i].displayIf == Some(qs[r].id) && qs[i].scoreMax == Some(2) {
        assert FollowsRoot(qs[i], RootsOf(qs)[0]);
      }
      assert AskedFirst(qs, r);
    }
    if r :| 0 <= r < |qs| && AskedFirst(qs, r) { assert OnlyRoot(qs, r); }
  }

  predicate IsOverall(f: Form, question: int) {
    exists q :: q in f.questions && q.displayIf == None && q.id == question
  }

  predicate HasFollowups(f: Form) { exists q :: q in f.questions && q.displayIf.Some? }

  /** The questions asked after a low score. */
  predicate IsFollowup(f: Form, question: int) {
    exists q :: q in f.questions && q.displayIf.Some? && q.id == question
  }

  lemma OverallMeans(f: Form, question: int, score: int)
    requires WellDefined(f)
    ensures IsOverall(f, question) <==> question == Root(f).id
    ensures FollowupsFor(f, score) != [] <==> score <= 2 && HasFollowups(f)
    ensures ValidateOverall(f, question, score) ==
            if IsOverall(f, question) && 1 <= score <= 5 then Ok(score <= 2 && HasFollowups(f)) else Err(InvalidInput)
  {
    WellDefinedMeans(f, score);
    var fs := FollowupsFor(f, score);
    if fs != [] { assert fs[0] in fs; }
    if q :| q in f.questions && q.displayIf.Some? { assert score <= 2 ==> q in fs; }
  }

  // ---------- an overall answer ----------

  /** The rows after an overall answer was taken in. */
  function TakenIn(db: Db, user: int, pid: nat, question: int, score: int, now: int, newId: nat, followup: bool): Db
    requires pid in db.prompts
  {
    var p := db.prompts[pid];
    db.(subs := db.subs[newId := Submission(p.form, user, pid, if followup then Partial else Completed,
                                            map[question := score])],
        byPrompt := db.byPrompt[pid := newId],
        prompts := db.prompts[pid := if followup then p.(stage := Followup)
                                     else p.(status := Submitted, finishedAt := Some(now))])
  }

  /** An overall answer to a prompt without submission: refused for a prompt of somebody else, or dismissed, or when it
      is not a score from 1 to 5 for the form's first question; otherwise taken in, as a partial submission exactly when
      the score is at most two and the form asks more. */
  lemma OverallDecided(worlds: seq<World>, steps: seq<Step>, n: nat, user: int, pid: nat, question: int, score: int,
                       now: int, newId: nat)
    requires IsRun(worlds, steps) && n <= |steps| && pid !in worlds[n].db.byPrompt
    ensures var db := worlds[n].db;
            var r := SubmitOverall(db, user, pid, question, score, now, newId);
            if pid !in db.prompts || db.prompts[pid].user != user then r == (db, Err(NotFound))
            else if db.prompts[pid].status == Dismissed then r == (db, Err(Conflict))
            else
              && db.prompts[pid].status == Shown && db.prompts[pid].form in db.forms
              && var f := db.forms[db.prompts[pid].form];
                 var more := score <= 2 && HasFollowups(f);
                 if !IsOverall(f, question) || score < 1 || score > 5 then r == (db, Err(InvalidInput))
                 else r == (TakenIn(db, user, pid, question, score, now, newId, more),
                            Ok(SubmitResult(newId, if more then Partial else Completed, more)))
  {
    InvOverRuns(worlds, steps, n);
    var db := worlds[n].db;
    if pid in db.prompts {
      assert RowOk(db, pid);
      OverallMeans(db.forms[db.prompts[pid].form], question, score);
    }
  }

  // ---------- follow-up answers ----------

  /** Answers that complete a submission: each to a follow-up question of the form, from 1 to 5, none twice, and every
      required one among them. */
  ghost predicate Completing(f: Form, answers: seq<Answer>) {
    && (forall a :: a in answers ==> IsFollowup(f, a.question) && 1 <= a.score <= 5)
    && (forall i, j :: 0 <= i < j < |answers| ==> answers[i].question != answers[j].question)
    && (forall q :: q in f.questions && q.displayIf.Some? && q.required ==>
          exists a :: a in answers && a.question == q.id)
  }

  lemma AskedMeans(f: Form, overall: int, id: int)
    requires WellDefined(f) && overall <= 2
    ensures Asked(FollowupsFor(f, overall), id) <==> IsFollowup(f, id)
  {
    WellDefinedMeans(f, overall);
    if q :| q in FollowupsFor(f, overall) && q.id == id { assert q in f.questions && q.displayIf.Some?; }
    if q :| q in f.questions && q.displayIf.Some? && q.id == id { assert q in FollowupsFor(f, overall); }
  }

  lemma FollowupMeans(f: Form, overall: int, answers: seq<Answer>)
    requires WellDefined(f) && overall <= 2 && HasFollowups(f)
    ensures FollowupAnswered(f, overall, answers) <==> Completing(f, answers)
  {
    OverallMeans(f, Root(f).id, overall);
    WellDefinedMeans(f, overall);
    forall a | a in answers ensures Asked(FollowupsFor(f, overall), a.question) <==> IsFollowup(f, a.question) {
      AskedMeans(f, overall, a.question);
    }
    forall q ensures q in FollowupsFor(f, overall) <==> q in f.questions && q.displayIf.Some? { }
    assert forall q :: AnsweredBy(answers, q) <==> exists a :: a in answers && a.question == q;
  }

  /** Answers to follow-ups never repeat the overall one. */
  lemma CompletingInserts(f: Form, answers: map<int, int>, more: seq<Answer>)
    requires WellDefined(f) && IdsDistinct(f) && PartialAnswers(f, answers) && Completing(f, more)
    ensures Insertable(answers, more)
  {
    WellDefinedMeans(f, answers[Root(f).id]);
    forall i | 0 <= i < |more| ensures more[i].question !in answers {
      assert more[i] in more;
      var q :| q in f.questions && q.displayIf.Some? && q.id == more[i].question;
      var x :| 0 <= x < |f.questions| && f.questions[x] == q;
      var y :| 0 <= y < |f.questions| && f.questions[y] == Root(f);
      assert x != y;
    }
  }

  /** The answer to follow-ups of a user for a stored submission of the user, and the tables after it. */
  ghost predicate FollowupAnswer(db: Db, sid: nat, answers: seq<Answer>, now: int, r: (Db, Result<SubmitResult, Error>))
    requires sid in db.subs
  {
    var sub := db.subs[sid];
    && sub.prompt in db.prompts && sub.form in db.forms
    && var p := db.prompts[sub.prompt];
       if sub.status == Completed then r == (db, Ok(SubmitResult(sid, Completed, false)))
       else if p.status == Dismissed then r == (db, Err(Conflict))
       else if !Completing(db.forms[sub.form], answers) then r == (db, Err(InvalidInput))
       else r.1 == Ok(SubmitResult(sid, Completed, false)) && sid in r.0.subs && Took(db, r.0, sid, answers, now)
  }

  /** Follow-up answers: not found for somebody else's or no submission; the same result again for a completed one;
      refused when the prompt was dismissed meanwhile, or when the answers do not complete the submission; otherwise the
      submission holds them besides the overall answer, and its prompt is submitted. */
  lemma FollowupDecided(worlds: seq<World>, steps: seq<Step>, n: nat, user: int, sid: nat, answers: seq<Answer>,
                        now: int)
    requires IsRun(worlds, steps) && n <= |steps|
    ensures var db := worlds[n].db;
            var r := CompleteFollowup(db, user, sid, answers, now);
            if sid !in db.subs || db.subs[sid].user != user then r == (db, Err(NotFound))
            else FollowupAnswer(db, sid, answers, now, r)
  {
    InvOverRuns(worlds, steps, n);
    OwnDecided(worlds[n].db, user, sid, answers, now);
  }

  lemma OwnDecided(db: Db, user: int, sid: nat, answers: seq<Answer>, now: int)
    requires TablesOk(db)
    ensures var r := CompleteFollowup(db, user, sid, answers, now);
            if sid !in db.subs || db.subs[sid].user != user then r == (db, Err(NotFound))
            else FollowupAnswer(db, sid, answers, now, r)
  {
    if sid in db.subs && db.subs[sid].user == user {
      OfItsPrompt(db, sid);
      if db.subs[sid].status == Partial { PartialDecided(db, user, sid, answers, now); }
    }
  }

  lemma OfItsPrompt(db: Db, sid: nat)
    requires TablesOk(db) && sid in db.subs
    ensures db.subs[sid].prompt in db.prompts && RowOk(db, db.subs[sid].prompt)
    ensures db.subs[sid].form in db.forms && db.prompts[db.subs[sid].prompt].user == db.subs[sid].user
  {
    assert db.byPrompt[db.subs[sid].prompt] == sid;
    assert RowOk(db, db.subs[sid].prompt);
  }

  /** Only this submission and its prompt change; each answer is in, and nothing but the overall one besides. */
  ghost predicate Took(db: Db, next: Db, sid: nat, answers: seq<Answer>, now: int)
    requires sid in db.subs && sid in next.subs && db.subs[sid].prompt in db.prompts
  {
    var sub, p := db.subs[sid], db.prompts[db.subs[sid].prompt];
    var all := next.subs[sid].answers;
    && next == db.(subs := db.subs[sid := sub.(status := Completed, answers := all)],
                   prompts := db.prompts[sub.prompt := p.(status := Submitted, finishedAt := Some(now))])
    && (forall a :: a in answers ==> a.question in all && all[a.question] == a.score)
    && (forall q :: q in sub.answers ==> q in all && all[q] == sub.answers[q])
    && (forall q :: q in all ==> q in sub.answers || exists a :: a in answers && a.question == q)
  }

  /** Answers that complete a partial submission are taken in. */
  lemma PartialAccepted(db: Db, user: int, sid: nat, answers: seq<Answer>, now: int)
    requires sid in db.subs && db.subs[sid].user == user && db.subs[sid].status == Partial
    requires db.subs[sid].prompt in db.prompts && db.prompts[db.subs[sid].prompt].user == user
    requires db.prompts[db.subs[sid].prompt].status == Shown
    requires db.subs[sid].form in db.forms && WellDefined(db.forms[db.subs[sid].form])
    requires var f, own := db.forms[db.subs[sid].form], db.subs[sid].answers;
             PartialAnswers(f, own) && FollowupAnswered(f, own[Root(f).id], answers) && Insertable(own, answers)
    ensures var r := CompleteFollowup(db, user, sid, answers, now);
            r.1 == Ok(SubmitResult(sid, Completed, false)) && sid in r.0.subs && Took(db, r.0, sid, answers, now)
  {
    WithAnswersMeans(db.subs[sid].answers, answers);
  }

  lemma PartialDecided(db: Db, user: int, sid: nat, answers: seq<Answer>, now: int)
    requires TablesOk(db) && sid in db.subs && db.subs[sid].user == user && db.subs[sid].status == Partial
    requires db.subs[sid].prompt in db.prompts && RowOk(db, db.subs[sid].prompt)
    ensures FollowupAnswer(db, sid, answers, now, CompleteFollowup(db, user, sid, answers, now))
  {
    var sub := db.subs[sid];
    assert db.byPrompt[sub.prompt] == sid;
    var f := db.forms[sub.form];
    var overall := sub.answers[Root(f).id];
    OverallMeans(f, Root(f).id, overall);
    FollowupMeans(f, overall, answers);
    if Completing(f, answers) && db.prompts[sub.prompt].status == Shown {
      CompletingInserts(f, sub.answers, answers);
      PartialAccepted(db, user, sid, answers, now);
    }
  }

  // ---------- dismissing ----------

  /** Dismissing: not found for somebody else's or no prompt; refused once it is submitted; otherwise the prompt is
      dismissed, at the instant of the first time. */
  lemma DismissDecided(db: Db, user: int, pid: nat, now: int)
    ensures var r := Dismiss(db, user, pid, now);
            if pid !in db.prompts || db.prompts[pid].user != user then r == (db, Err(NotFound))
            else
              var p := db.prompts[pid];
              if p.status == Submitted then r == (db, Err(Conflict))
              else
                && r.1 == Ok(Summary(pid, Dismissed, p.stage, p.shownAt, None))
                && pid in r.0.prompts && r.0 == db.(prompts := db.prompts[pid := r.0.prompts[pid]])
                && r.0.prompts[pid] == p.(status := Dismissed,
                                          finishedAt := if p.status == Dismissed then p.finishedAt else Some(now))
  {
    if pid in db.prompts { assert db.prompts[pid := db.prompts[pid]] == db.prompts; }
  }

  // ---------- presenting ----------

  /** The cooldown of the form is over for this user: that many days have passed since every version of it shown. */
  ghost predicate Rested(db: Db, user: int, f: Form, now: int) {
    forall pid :: pid in db.prompts && db.prompts[pid].user == user && db.prompts[pid].form in db.forms
                  && db.forms[db.prompts[pid].form].key == f.key ==>
                    db.prompts[pid].shownAt + f.cooldownDays * ONE_DAY <= now
  }

  /** The moment from which on it is over. */
  ghost predicate RestsUntil(db: Db, user: int, f: Form, next: int) {
    && (exists pid :: OfForm(db, pid, user, f.key) && db.prompts[pid].shownAt + f.cooldownDays * ONE_DAY == next)
    && Rested(db, user, f, next)
  }

  /** A request for a prompt that is not stored: it is shown exactly when a form is active, accepted, and rested; when
      it is not rested the answer says from when on. */
  lemma PresentDecided(db: Db, user: int, pid: nat, now: int, last: Option<int>)
    requires pid !in db.prompts && IsLast(db, user, ActiveKey(db), last)
    ensures var r := Present(db, user, pid, now, last);
            if db.active.None? then r == (db, Ok(NotEligible(None)))
            else if db.active.value !in db.forms then r == (db, Err(Failure))
            else
              var f := db.forms[db.active.value];
              if !WellDefined(f) then r == (db, Err(InvalidDefinition))
              else if Rested(db, user, f, now) then
                && r.0 == db.(prompts := db.prompts[pid := Prompt(db.active.value, user, Shown, Overall, now, None)])
                && r.1 == Ok(Presented(Summary(pid, Shown, Overall, now, None), Some(f)))
              else exists next :: r == (db, Ok(NotEligible(Some(next)))) && now < next && RestsUntil(db, user, f, next)
  {
    if db.active.Some? && db.active.value in db.forms && WellDefined(db.forms[db.active.value]) {
      var f := db.forms[db.active.value];
      forall p ensures OfForm(db, p, user, f.key) <==>
          p in db.prompts && db.prompts[p].user == user && db.prompts[p].form in db.forms
          && db.forms[db.prompts[p].form].key == f.key { }
      if last.Some? {
        var p :| OfForm(db, p, user, f.key) && db.prompts[p].shownAt == last.value;
        assert RestsUntil(db, user, f, last.value + f.cooldownDays * ONE_DAY);
      }
    }
  }

  /** A request for a prompt that is stored: somebody else's is not found, a finished one is summed up, and one still
      shown comes with its form. */
  lemma PresentStored(worlds: seq<World>, steps: seq<Step>, n: nat, user: int, pid: nat, now: int, last: Option<int>)
    requires IsRun(worlds, steps) && n <= |steps| && pid in worlds[n].db.prompts
    ensures var db := worlds[n].db;
            var p, r := db.prompts[pid], Present(db, user, pid, now, last);
            if p.user != user then r == (db, Err(NotFound))
            else
              && r.0 == db && r.1.Ok? && r.1.value.Presented?
              && var s := r.1.value.prompt;
                 && s.id == pid && s.status == p.status && s.stage == p.stage && s.shownAt == p.shownAt
                 && (s.submission.None? <==> pid !in db.byPrompt)
                 && (s.submission.Some? ==>
                       s.submission.value.0 in db.subs && db.subs[s.submission.value.0].prompt == pid
                       && db.subs[s.submission.value.0].status == s.submission.value.1)
                 && p.form in db.forms
                 && r.1.value.form == (if p.status == Shown then Some(db.forms[p.form]) else None)
  {
    InvOverRuns(worlds, steps, n);
    assert RowOk(worlds[n].db, pid);
  }

  // ---------- deleting ----------

  /** When it ended or, when it never did, was shown. */
  function Since(p: Prompt): int {
    match p.finishedAt
    case Some(end) => end
    case None => p.shownAt
  }

  /** What is deleted: prompts whose end, or showing when they never ended, is before the limit of age; at most so many,
      none younger than one that stays; all of them when they are fewer. */
  lemma ExpiredMeans(db: Db, gone: set<nat>, before: int, limit: nat)
    requires Expired(db, gone, before, limit)
    ensures |gone| <= limit
    ensures forall pid :: pid in gone ==>
              && pid in db.prompts && Since(db.prompts[pid]) < before
              && forall other :: other in db.prompts && other !in gone ==>
                   Since(db.prompts[other]) >= Since(db.prompts[pid])
    ensures |gone| < limit ==> forall pid :: pid in db.prompts && Since(db.prompts[pid]) < before ==> pid in gone
    ensures var next := Without(db, gone);
            && next.prompts.Keys == db.prompts.Keys - gone
            && (forall pid :: pid in next.prompts ==> next.prompts[pid] == db.prompts[pid])
            && (forall sid :: sid in next.subs <==> sid in db.subs && db.subs[sid].prompt !in gone)
            && (forall sid :: sid in next.subs ==> next.subs[sid] == db.subs[sid])
  {
  }
}
