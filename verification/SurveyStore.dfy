/** The survey store (server/internal/store/feedback.go): each method is one transaction of SurveyModel. */
module SurveyStore {
  import opened Wrappers
  import opened SurveyForm
  import opened SurveyModel

  class Feedback {
    var forms: map<int, Form>
    var active: Option<int>
    var prompts: map<nat, Prompt>
    var subs: map<nat, Submission>
    var byPrompt: map<nat, nat>

    ghost function View(): Db
      reads this
    {
      Db(forms, active, prompts, subs, byPrompt)
    }

    constructor ()
      ensures View() == Db(map[], None, map[], map[], map[])
    {
      forms, active, prompts, subs, byPrompt := map[], None, map[], map[], map[];
    }

    method LoadForm(id: int) returns (r: Result<Form, Error>)
      ensures r == FormById(View(), id)
    {
      if id !in forms { return Err(Failure); }
      var valid := ValidateDefinition(forms[id]);
      return if valid then Ok(forms[id]) else Err(InvalidDefinition);
    }

    method ExistingPresentation(user: int, pid: nat) returns (r: Option<Result<Presentation, Error>>)
      ensures r == Existing(View(), user, pid)
    {
      if pid !in prompts { return None; }
      var p := prompts[pid];
      if p.user != user { return Some(Err(NotFound)); }
      var s := Summary(pid, p.status, p.stage, p.shownAt, None);
      if pid in byPrompt && byPrompt[pid] in subs {
        s := s.(submission := Some((byPrompt[pid], subs[byPrompt[pid]].status)));
      }
      if p.status != Shown { return Some(Ok(Presented(s, None))); }
      var form := LoadForm(p.form);
      match form
      case Err(e) => return Some(Err(e));
      case Ok(f) => return Some(Ok(Presented(s, Some(f))));
    }

    method LastShown(user: int, key: string) returns (last: Option<int>)
      ensures IsLast(View(), user, key, last)
    {
      last := None;
      var rest := prompts.Keys;
      while rest != {}
        invariant rest <= prompts.Keys
        invariant last.None? ==> forall pid :: pid in prompts && pid !in rest ==> !OfForm(View(), pid, user, key)
        invariant last.Some? ==> exists pid :: OfForm(View(), pid, user, key) && prompts[pid].shownAt == last.value
        invariant last.Some? ==> forall pid :: pid in prompts && pid !in rest && OfForm(View(), pid, user, key) ==>
                    prompts[pid].shownAt <= last.value
        decreases rest
      {
        var pid :| pid in rest;
        rest := rest - {pid};
        var p := prompts[pid];
        if p.user == user && p.form in forms && forms[p.form].key == key {
          assert OfForm(View(), pid, user, key);
          if last.None? || last.value < p.shownAt { last := Some(p.shownAt); }
        }
      }
    }

    method OnPresent(user: int, pid: nat, now: int) returns (r: Result<Presentation, Error>)
      modifies this`prompts
      ensures exists last ::
                IsLast(old(View()), user, ActiveKey(old(View())), last)
                && (View(), r) == Present(old(View()), user, pid, now, last)
    {
      ghost var db := View();
      ghost var known := LastExists(db, user, ActiveKey(db));
      var existing := ExistingPresentation(user, pid);
      if existing.Some? { return existing.value; }
      if active.None? { return Ok(NotEligible(None)); }
      var form := LoadForm(active.value);
      if form.Err? { return Err(form.error); }
      var last := LastShown(user, form.value.key);
      LastIsUnique(db, user, ActiveKey(db), known, last);
      if last.Some? {
        var next := NextEligibleAt(last.value, form.value.cooldownDays);
        if now < next { return Ok(NotEligible(Some(next))); }
      }
      prompts := prompts[pid := Prompt(active.value, user, Shown, Overall, now, None)];
      return Ok(Presented(Summary(pid, Shown, Overall, now, None), Some(form.value)));
    }

    method LockOwnPrompt(user: int, pid: nat) returns (r: Option<Prompt>)
      ensures r == if Owned(View(), user, pid) then Some(prompts[pid]) else None
    {
      if pid !in prompts || prompts[pid].user != user { return None; }
      return Some(prompts[pid]);
    }

    method OnSubmitOverall(user: int, pid: nat, question: int, score: int, now: int, newId: nat)
      returns (r: Result<SubmitResult, Error>)
      modifies this`prompts, this`subs, this`byPrompt
      ensures (View(), r) == SubmitOverall(old(View()), user, pid, question, score, now, newId)
    {
      var locked := LockOwnPrompt(user, pid);
      if locked.None? { return Err(NotFound); }
      var p := locked.value;
      if pid in byPrompt && byPrompt[pid] in subs {
        var st := subs[byPrompt[pid]].status;
        return Ok(SubmitResult(byPrompt[pid], st, st == Partial && p.status == Shown));
      }
      if p.status != Shown { return Err(Conflict); }
      var form := LoadForm(p.form);
      if form.Err? { return Err(form.error); }
      var followup := ValidateOverall(form.value, question, score);
      if followup.Err? { return Err(followup.error); }
      var status := if followup.value then Partial else Completed;
      subs := subs[newId := Submission(p.form, user, pid, status, map[question := score])];
      byPrompt := byPrompt[pid := newId];
      if followup.value {
        prompts := prompts[pid := p.(stage := Followup)];
      } else {
        prompts := prompts[pid := p.(status := Submitted, finishedAt := Some(now))];
      }
      return Ok(SubmitResult(newId, status, followup.value));
    }

    method OnCompleteFollowup(user: int, sid: nat, answers: seq<Answer>, now: int)
      returns (r: Result<SubmitResult, Error>)
      modifies this`prompts, this`subs
      ensures (View(), r) == CompleteFollowup(old(View()), user, sid, answers, now)
    {
      if sid !in subs || subs[sid].user != user { return Err(NotFound); }
      var sub := subs[sid];
      var locked := LockOwnPrompt(user, sub.prompt);
      if locked.None? { return Err(NotFound); }
      var p := locked.value;
      if sub.status == Completed { return Ok(SubmitResult(sid, Completed, false)); }
      if p.status != Shown { return Err(Conflict); }
      var form := LoadForm(sub.form);
      if form.Err? { return Err(form.error); }
      var root := FindRoot(form.value);
      if root.id !in sub.answers { return Err(Failure); }
      var valid := ValidateFollowup(form.value, sub.answers[root.id], answers);
      if !valid { return Err(InvalidInput); }
      var inserted := InsertAnswers(sub.answers, answers);
      if inserted.None? { return Err(Failure); }
      subs := subs[sid := sub.(status := Completed, answers := inserted.value)];
      prompts := prompts[sub.prompt := p.(status := Submitted, finishedAt := Some(now))];
      return Ok(SubmitResult(sid, Completed, false));
    }

    method OnDismiss(user: int, pid: nat, now: int) returns (r: Result<Summary, Error>)
      modifies this`prompts
      ensures (View(), r) == Dismiss(old(View()), user, pid, now)
    {
      var locked := LockOwnPrompt(user, pid);
      if locked.None? { return Err(NotFound); }
      var p := locked.value;
      var out := Summary(pid, Dismissed, p.stage, p.shownAt, None);
      if p.status == Dismissed { return Ok(out); }
      if p.status == Submitted { return Err(Conflict); }
      prompts := prompts[pid := p.(status := Dismissed, finishedAt := Some(now))];
      return Ok(out);
    }

    /** Deletes the oldest expired prompts, up to the limit, with their submissions. */
    method OnDeleteExpired(before: int, limit: nat) returns (n: nat)
      modifies this`prompts, this`subs, this`byPrompt
      ensures exists gone ::
                Expired(old(View()), gone, before, limit) && View() == Without(old(View()), gone) && n == |gone|
    {
      ghost var db := View();
      var gone := OldestExpired(prompts, before, limit);
      Remove(gone);
      n := |gone|;
      assert Expired(db, gone, before, limit);
    }

    /** The rows go, and by cascade their submissions. */
    method Remove(gone: set<nat>)
      modifies this`prompts, this`subs, this`byPrompt
      ensures View() == Without(old(View()), gone)
    {
      prompts := map pid | pid in prompts && pid !in gone :: prompts[pid];
      subs := map sid | sid in subs && subs[sid].prompt !in gone :: subs[sid];
      byPrompt := map pid | pid in byPrompt && pid !in gone :: byPrompt[pid];
    }
  }

  /** One of the oldest prompts of a set. */
  method Oldest(prompts: map<nat, Prompt>, ids: set<nat>) returns (oldest: nat)
    requires ids <= prompts.Keys && ids != {}
    ensures oldest in ids && forall pid :: pid in ids ==> Age(prompts[oldest]) <= Age(prompts[pid])
  {
    oldest :| oldest in ids;
    var rest := ids - {oldest};
    while rest != {}
      invariant rest <= ids && oldest in ids
      invariant forall pid :: pid in ids - rest ==> Age(prompts[oldest]) <= Age(prompts[pid])
      decreases rest
    {
      var pid :| pid in rest;
      rest := rest - {pid};
      if Age(prompts[pid]) < Age(prompts[oldest]) { oldest := pid; }
    }
  }

  /** The rows of the inner query: expired, oldest first, at most `limit`. */
  method OldestExpired(prompts: map<nat, Prompt>, before: int, limit: nat) returns (gone: set<nat>)
    ensures |gone| <= limit
    ensures forall pid :: pid in gone ==> pid in prompts && Age(prompts[pid]) < before
    ensures forall pid, other :: pid in gone && other in prompts && other !in gone ==>
              Age(prompts[pid]) <= Age(prompts[other])
    ensures |gone| < limit ==> forall other :: other in prompts && Age(prompts[other]) < before ==> other in gone
  {
    gone := {};
    var rest := set pid | pid in prompts && Age(prompts[pid]) < before;
    while |gone| < limit && rest != {}
      invariant |gone| <= limit
      invariant forall pid :: pid in rest <==> pid in prompts && Age(prompts[pid]) < before && pid !in gone
      invariant forall pid :: pid in gone ==> pid in prompts && Age(prompts[pid]) < before
      invariant forall pid, other :: pid in gone && other in rest ==> Age(prompts[pid]) <= Age(prompts[other])
      decreases rest
    {
      var pid := Oldest(prompts, rest);
      rest, gone := rest - {pid}, gone + {pid};
    }
  }

  lemma NotInsertable(answers: map<int, int>, more: seq<Answer>, n: nat)
    requires n < |more| && (more[n].question in answers || AnsweredBy(more[..n], more[n].question))
    ensures !Insertable(answers, more)
  {
    if AnsweredBy(more[..n], more[n].question) {
      var a :| a in more[..n] && a.question == more[n].question;
      var i :| 0 <= i < n && more[..n][i] == a;
      assert more[i].question == more[n].question;
    }
  }

  method InsertAnswers(answers: map<int, int>, more: seq<Answer>) returns (r: Option<map<int, int>>)
    ensures r == if Insertable(answers, more) then Some(WithAnswers(answers, more)) else None
  {
    var all := answers;
    for n := 0 to |more|
      invariant Insertable(answers, more[..n]) && all == WithAnswers(answers, more[..n])
    {
      var a := more[n];
      assert more[..n + 1] == more[..n] + [a];
      assert (more[..n] + [a])[..n] == more[..n];
      WithAnswersMeans(answers, more[..n]);
      InsertableNext(answers, more[..n], a);
      if a.question in all {
        NotInsertable(answers, more, n);
        return None;
      }
      all := all[a.question := a.score];
    }
    assert more[..|more|] == more;
    return Some(all);
  }
}
