/** What the survey tables keep over every interleaving of transactions, also with clocks that disagree. A request to
    present first reads without a lock, then decides and inserts under the lock of its user and form. */
module SurveyRuns {
  import opened Wrappers
  import opened SurveyForm
  import opened SurveyModel

  // ---------- what the tables keep ----------

  ghost predicate IdsDistinct(f: Form) {
    forall i, j :: 0 <= i < j < |f.questions| ==> f.questions[i].id != f.questions[j].id
  }

  /** A partial submission holds the overall answer, at most two, whose follow-ups are due. */
  ghost predicate PartialAnswers(f: Form, answers: map<int, int>) {
    && answers.Keys == {Root(f).id} && ValidScore(answers[Root(f).id])
    && answers[Root(f).id] <= FOLLOWUP_SCORE_MAX && FollowupsFor(f, answers[Root(f).id]) != []
  }

  /** A completed one holds the overall answer and, when that has follow-ups, each required one, and no other
      question. */
  ghost predicate CompletedAnswers(f: Form, answers: map<int, int>) {
    && Root(f).id in answers
    && (forall q :: q in answers ==> ValidScore(answers[q]))
    && (forall q :: q in answers && q != Root(f).id ==> Asked(FollowupsFor(f, answers[Root(f).id]), q))
    && (forall q :: q in FollowupsFor(f, answers[Root(f).id]) && q.required ==> q.id in answers)
  }

  ghost predicate SubmissionOk(f: Form, p: Prompt, s: Submission) {
    && s.user == p.user && s.form == p.form
    && (s.status == Completed <==> p.status == Submitted)
    && (s.status == Partial ==> p.stage == Followup && PartialAnswers(f, s.answers))
    && (s.status == Completed ==> CompletedAnswers(f, s.answers))
  }

  /** One prompt with its submission, if any. */
  ghost predicate RowOk(db: Db, pid: nat)
    requires pid in db.prompts
  {
    var p := db.prompts[pid];
    && p.form in db.forms && WellDefined(db.forms[p.form])
    && (p.status == Shown <==> p.finishedAt == None)
    && (pid !in db.byPrompt ==> p.status != Submitted && p.stage == Overall)
    && (pid in db.byPrompt ==>
          var sid := db.byPrompt[pid];
          sid in db.subs && db.subs[sid].prompt == pid && SubmissionOk(db.forms[p.form], p, db.subs[sid]))
  }

  ghost predicate RowsOk(db: Db) { forall pid :: pid in db.prompts ==> RowOk(db, pid) }

  /** Every submission is the one of its prompt. */
  ghost predicate IndexOk(db: Db) {
    && (forall pid :: pid in db.byPrompt ==> pid in db.prompts)
    && (forall sid :: sid in db.subs ==> db.subs[sid].prompt in db.byPrompt && db.byPrompt[db.subs[sid].prompt] == sid)
  }

  ghost predicate TablesOk(db: Db) {
    && (forall id :: id in db.forms ==> IdsDistinct(db.forms[id]))
    && RowsOk(db)
    && IndexOk(db)
  }

  /** Rows that neither the tables nor the forms they use have changed stay as they should be. */
  lemma RowStays(a: Db, b: Db, pid: nat)
    requires pid in a.prompts && RowOk(a, pid) && pid in b.prompts && b.prompts[pid] == a.prompts[pid]
    requires forall id :: id in a.forms ==> id in b.forms && b.forms[id] == a.forms[id]
    requires pid in b.byPrompt <==> pid in a.byPrompt
    requires pid in a.byPrompt ==> b.byPrompt[pid] == a.byPrompt[pid]
    requires pid in a.byPrompt && a.byPrompt[pid] in a.subs ==>
               a.byPrompt[pid] in b.subs && b.subs[a.byPrompt[pid]] == a.subs[a.byPrompt[pid]]
    ensures RowOk(b, pid)
  {
  }

  lemma InsertKeeps(db: Db, user: int, pid: nat, form: int, now: int)
    requires TablesOk(db) && pid !in db.prompts && FormById(db, form).Ok?
    ensures TablesOk(WithPrompt(db, user, pid, form, now))
  {
    var next := WithPrompt(db, user, pid, form, now);
    forall other | other in next.prompts ensures RowOk(next, other) {
      if other != pid { RowStays(db, next, other); }
    }
  }

  lemma DismissKeeps(db: Db, user: int, pid: nat, now: int)
    requires TablesOk(db)
    ensures TablesOk(Dismiss(db, user, pid, now).0)
  {
    var next := Dismiss(db, user, pid, now).0;
    assert pid in db.prompts ==> RowOk(db, pid);
    forall other | other in next.prompts ensures RowOk(next, other) {
      if other != pid { RowStays(db, next, other); }
    }
  }

  /** The overall answer of a score with follow-ups is partial, of any other complete. */
  lemma OverallAnswer(f: Form, question: int, score: int)
    requires WellDefined(f) && ValidateOverall(f, question, score).Ok?
    ensures ValidateOverall(f, question, score).value ==> PartialAnswers(f, map[question := score])
    ensures !ValidateOverall(f, question, score).value ==> CompletedAnswers(f, map[question := score])
  {
    WellDefinedMeans(f, score);
    var fs := FollowupsFor(f, score);
    if fs != [] { assert fs[0] in fs; }
  }

  function Replaced(db: Db, pid: nat, p: Prompt, sid: nat, s: Submission): Db {
    db.(prompts := db.prompts[pid := p], subs := db.subs[sid := s], byPrompt := db.byPrompt[pid := sid])
  }

  lemma OwnSubmission(db: Db, pid: nat)
    requires RowsOk(db) && pid in db.prompts && pid in db.byPrompt
    ensures db.byPrompt[pid] in db.subs && db.subs[db.byPrompt[pid]].prompt == pid
  {
    assert RowOk(db, pid);
  }

  lemma OtherRowStays(db: Db, pid: nat, p: Prompt, sid: nat, s: Submission, other: nat)
    requires RowsOk(db) && pid in db.prompts && other in db.prompts && other != pid
    requires if pid in db.byPrompt then db.byPrompt[pid] == sid else sid !in db.subs
    ensures RowOk(Replaced(db, pid, p, sid, s), other)
  {
    if pid in db.byPrompt { OwnSubmission(db, pid); }
    if other in db.byPrompt { OwnSubmission(db, other); }
    assert RowOk(db, other);
    RowStays(db, Replaced(db, pid, p, sid, s), other);
  }

  lemma ReplacedIndex(db: Db, pid: nat, p: Prompt, sid: nat, s: Submission)
    requires IndexOk(db) && pid in db.prompts && s.prompt == pid
    requires if pid in db.byPrompt then db.byPrompt[pid] == sid && sid in db.subs && db.subs[sid].prompt == pid
             else sid !in db.subs
    ensures IndexOk(Replaced(db, pid, p, sid, s))
  {
  }

  /** Writing one prompt together with its submission. */
  lemma ReplaceKeeps(db: Db, pid: nat, p: Prompt, sid: nat, s: Submission)
    requires TablesOk(db) && pid in db.prompts && s.prompt == pid
    requires if pid in db.byPrompt then db.byPrompt[pid] == sid else sid !in db.subs
    requires p.form in db.forms && WellDefined(db.forms[p.form]) && (p.status == Shown <==> p.finishedAt == None)
    requires SubmissionOk(db.forms[p.form], p, s)
    ensures TablesOk(Replaced(db, pid, p, sid, s))
  {
    var next := Replaced(db, pid, p, sid, s);
    if pid in db.byPrompt { OwnSubmission(db, pid); }
    ReplacedIndex(db, pid, p, sid, s);
    assert RowOk(next, pid);
    forall other | other in next.prompts ensures RowOk(next, other) {
      if other != pid { OtherRowStays(db, pid, p, sid, s, other); }
    }
  }

  lemma SubmitKeeps(db: Db, user: int, pid: nat, question: int, score: int, now: int, newId: nat)
    requires TablesOk(db) && newId !in db.subs
    ensures TablesOk(SubmitOverall(db, user, pid, question, score, now, newId).0)
  {
    var next := SubmitOverall(db, user, pid, question, score, now, newId).0;
    if next != db {
      assert RowOk(db, pid);
      OverallAnswer(db.forms[db.prompts[pid].form], question, score);
      ReplaceKeeps(db, pid, next.prompts[pid], newId, next.subs[newId]);
    }
  }

  lemma {:induction false} FollowupAnswers(f: Form, answers: map<int, int>, more: seq<Answer>)
    requires WellDefined(f) && PartialAnswers(f, answers) && Insertable(answers, more)
    requires FollowupAnswered(f, answers[Root(f).id], more)
    ensures CompletedAnswers(f, WithAnswers(answers, more))
  {
    WithAnswersMeans(answers, more);
    var all := WithAnswers(answers, more);
    forall q | q in all && q != Root(f).id
      ensures Asked(FollowupsFor(f, answers[Root(f).id]), q) && ValidScore(all[q]) {
      assert AnsweredBy(more, q);
      var a :| a in more && a.question == q;
    }
  }

  /** What a completion that is accepted finds and leaves. */
  lemma CompletedRow(db: Db, user: int, sid: nat, answers: seq<Answer>, now: int)
    requires sid in db.subs && db.subs[sid].prompt in db.prompts && RowOk(db, db.subs[sid].prompt)
    requires db.subs[sid].prompt in db.byPrompt && db.byPrompt[db.subs[sid].prompt] == sid
    requires CompleteFollowup(db, user, sid, answers, now).0 != db
    ensures var sub := db.subs[sid];
            var p := db.prompts[sub.prompt].(status := Submitted, finishedAt := Some(now));
            var s := sub.(status := Completed, answers := WithAnswers(sub.answers, answers));
            && p.form in db.forms && WellDefined(db.forms[p.form]) && SubmissionOk(db.forms[p.form], p, s)
            && CompleteFollowup(db, user, sid, answers, now).0 == Replaced(db, sub.prompt, p, sid, s)
  {
    var sub := db.subs[sid];
    assert db.byPrompt[sub.prompt := sid] == db.byPrompt;
    FollowupAnswers(db.forms[sub.form], sub.answers, answers);
  }

  lemma CompleteKeeps(db: Db, user: int, sid: nat, answers: seq<Answer>, now: int)
    requires TablesOk(db)
    ensures TablesOk(CompleteFollowup(db, user, sid, answers, now).0)
  {
    var next := CompleteFollowup(db, user, sid, answers, now).0;
    if next != db {
      var sub := db.subs[sid];
      assert RowOk(db, sub.prompt);
      CompletedRow(db, user, sid, answers, now);
      ReplaceKeeps(db, sub.prompt, next.prompts[sub.prompt], sid, next.subs[sid]);
    }
  }

  lemma WithoutKeeps(db: Db, gone: set<nat>)
    requires TablesOk(db)
    ensures TablesOk(Without(db, gone))
  {
    var next := Without(db, gone);
    forall pid | pid in next.prompts ensures RowOk(next, pid) {
      assert RowOk(db, pid);
      RowStays(db, next, pid);
    }
  }

  // ---------- the transactions, interleaved ----------

  /** A request to present between its first reads and its end; `decided` once it holds the lock of its user and form
      and found the cooldown over. */
  datatype Request = Request(user: int, key: string, form: int, pid: nat, now: int, decided: bool)

  datatype World = World(db: Db, open: map<nat, Request>)

  datatype Step =
    | Publishes(id: int, form: Form)
    | Activates(choice: Option<int>)
    | Reads(tx: nat, user: int, pid: nat, now: int)
    | Decides(tx: nat, last: Option<int>)
    | Inserts(tx: nat)
    | Leaves(tx: nat)
    | Submits(user: int, prompt: nat, question: int, score: int, now: int, newId: nat)
    | Completes(user: int, submission: nat, answers: seq<Answer>, now: int)
    | Dismisses(user: int, prompt: nat, now: int)
    | Expires(gone: set<nat>, before: int, limit: nat)

  /** A form is never changed after it was added; the lock is held from the decision to the end. */
  ghost predicate Possible(w: World, s: Step) {
    match s
    case Publishes(id, form) => id !in w.db.forms && IdsDistinct(form)
    case Activates(id) => id.Some? ==> id.value in w.db.forms
    case Reads(tx, user, pid, now) =>
      tx !in w.open && Existing(w.db, user, pid) == None && w.db.active.Some? && FormById(w.db, w.db.active.value).Ok?
    case Decides(tx, last) =>
      && tx in w.open && !w.open[tx].decided
      && (forall other :: other in w.open && w.open[other].decided ==> !SameLock(w.open[other], w.open[tx]))
      && Existing(w.db, w.open[tx].user, w.open[tx].pid) == None
      && IsLast(w.db, w.open[tx].user, w.open[tx].key, last)
      && w.open[tx].form in w.db.forms && Waits(last, w.db.forms[w.open[tx].form], w.open[tx].now) == None
    case Inserts(tx) => tx in w.open && w.open[tx].decided
    case Leaves(tx) => tx in w.open
    case Submits(_, _, _, _, _, newId) => newId !in w.db.subs
    case Expires(gone, before, limit) => Expired(w.db, gone, before, limit)
    case _ => true
  }

  predicate SameLock(a: Request, b: Request) { a.user == b.user && a.key == b.key }

  ghost function Next(w: World, s: Step): World
    requires Possible(w, s)
  {
    match s
    case Publishes(id, form) => w.(db := w.db.(forms := w.db.forms[id := form]))
    case Activates(id) => w.(db := w.db.(active := id))
    case Reads(tx, user, pid, now) =>
      w.(open := w.open[tx := Request(user, ActiveKey(w.db), w.db.active.value, pid, now, false)])
    case Decides(tx, _) => w.(open := w.open[tx := w.open[tx].(decided := true)])
    case Inserts(tx) =>
      var r := w.open[tx];
      World(if r.pid in w.db.prompts then w.db else WithPrompt(w.db, r.user, r.pid, r.form, r.now), w.open - {tx})
    case Leaves(tx) => w.(open := w.open - {tx})
    case Submits(user, pid, question, score, now, newId) =>
      w.(db := SubmitOverall(w.db, user, pid, question, score, now, newId).0)
    case Completes(user, sid, answers, now) => w.(db := CompleteFollowup(w.db, user, sid, answers, now).0)
    case Dismisses(user, pid, now) => w.(db := Dismiss(w.db, user, pid, now).0)
    case Expires(gone, _, _) => w.(db := Without(w.db, gone))
  }

  // ---------- the cooldown ----------

  function Cooldown(db: Db, form: int): int
    requires form in db.forms
  {
    db.forms[form].cooldownDays * DAY
  }

  /** Prompts a and b, of one user and form key, keep the distance of whichever came later. */
  ghost predicate Apart(db: Db, a: nat, b: nat)
    requires a in db.prompts && b in db.prompts && db.prompts[a].form in db.forms && db.prompts[b].form in db.forms
  {
    || db.prompts[a].shownAt + Cooldown(db, db.prompts[b].form) <= db.prompts[b].shownAt
    || db.prompts[b].shownAt + Cooldown(db, db.prompts[a].form) <= db.prompts[a].shownAt
  }

  ghost predicate Spaced(db: Db) {
    forall a, b, user, key :: a != b && OfForm(db, a, user, key) && OfForm(db, b, user, key) ==> Apart(db, a, b)
  }

  /** The cooldown since every stored prompt is over at the request's own instant. */
  ghost predicate Clear(db: Db, r: Request) {
    && r.form in db.forms && db.forms[r.form].key == r.key
    && forall pid :: OfForm(db, pid, r.user, r.key) ==> db.prompts[pid].shownAt + Cooldown(db, r.form) <= r.now
  }

  ghost predicate OpenOk(w: World) {
    && (forall tx :: tx in w.open ==>
          && w.open[tx].form in w.db.forms && w.db.forms[w.open[tx].form].key == w.open[tx].key
          && WellDefined(w.db.forms[w.open[tx].form]))
    && (forall tx :: tx in w.open && w.open[tx].decided ==> Clear(w.db, w.open[tx]))
    && (forall tx, other ::
          tx in w.open && other in w.open && tx != other && w.open[tx].decided && w.open[other].decided ==>
                              !SameLock(w.open[tx], w.open[other]))
  }

  ghost predicate Inv(w: World) { TablesOk(w.db) && Spaced(w.db) && OpenOk(w) }

  /** Transactions that add no prompt and change no form or instant shown keep the distances. */
  ghost predicate NoNewPrompt(a: Db, b: Db) {
    && b.forms == a.forms
    && (forall pid :: pid in b.prompts ==>
          && pid in a.prompts && b.prompts[pid].form == a.prompts[pid].form
          && b.prompts[pid].user == a.prompts[pid].user && b.prompts[pid].shownAt == a.prompts[pid].shownAt)
  }

  lemma SpacedStays(a: Db, b: Db)
    requires NoNewPrompt(a, b) && Spaced(a)
    ensures Spaced(b)
  {
    forall x, y, user, key | x != y && OfForm(b, x, user, key) && OfForm(b, y, user, key) ensures Apart(b, x, y) {
      assert OfForm(a, x, user, key) && OfForm(a, y, user, key);
      assert Apart(a, x, y);
    }
  }

  lemma ClearStays(a: Db, b: Db, r: Request)
    requires NoNewPrompt(a, b) && Clear(a, r)
    ensures Clear(b, r)
  {
    forall pid | OfForm(b, pid, r.user, r.key) ensures b.prompts[pid].shownAt + Cooldown(b, r.form) <= r.now {
      assert OfForm(a, pid, r.user, r.key);
    }
  }

  lemma OpenStays(w: World, b: Db)
    requires OpenOk(w) && NoNewPrompt(w.db, b)
    ensures OpenOk(w.(db := b))
  {
    forall tx | tx in w.open && w.open[tx].decided ensures Clear(b, w.open[tx]) { ClearStays(w.db, b, w.open[tx]); }
  }

  lemma SubmitAddsNoPrompt(db: Db, user: int, pid: nat, question: int, score: int, now: int, newId: nat)
    ensures NoNewPrompt(db, SubmitOverall(db, user, pid, question, score, now, newId).0)
  {
  }

  lemma CompleteAddsNoPrompt(db: Db, user: int, sid: nat, answers: seq<Answer>, now: int)
    ensures NoNewPrompt(db, CompleteFollowup(db, user, sid, answers, now).0)
  {
  }

  lemma AnswersAddNoPrompt(w: World, s: Step)
    requires Possible(w, s) && (s.Submits? || s.Completes? || s.Dismisses? || s.Expires?)
    ensures NoNewPrompt(w.db, Next(w, s).db) && Next(w, s).open == w.open
  {
    match s
    case Submits(user, pid, question, score, now, newId) =>
      SubmitAddsNoPrompt(w.db, user, pid, question, score, now, newId);
    case Completes(user, sid, answers, now) => CompleteAddsNoPrompt(w.db, user, sid, answers, now);
    case _ =>
  }

  lemma AnswersKeep(w: World, s: Step)
    requires Inv(w) && Possible(w, s) && (s.Submits? || s.Completes? || s.Dismisses? || s.Expires?)
    ensures Inv(Next(w, s))
  {
    AnswersAddNoPrompt(w, s);
    SpacedStays(w.db, Next(w, s).db);
    OpenStays(w, Next(w, s).db);
    match s
    case Submits(user, pid, question, score, now, newId) => SubmitKeeps(w.db, user, pid, question, score, now, newId);
    case Completes(user, sid, answers, now) => CompleteKeeps(w.db, user, sid, answers, now);
    case Dismisses(user, pid, now) => DismissKeeps(w.db, user, pid, now);
    case Expires(gone, before, limit) => WithoutKeeps(w.db, gone);
  }

  lemma PublishKeeps(w: World, id: int, form: Form)
    requires Inv(w) && Possible(w, Publishes(id, form))
    ensures Inv(Next(w, Publishes(id, form)))
  {
    var n := Next(w, Publishes(id, form));
    forall pid | pid in n.db.prompts ensures RowOk(n.db, pid) {
      assert RowOk(w.db, pid);
      RowStays(w.db, n.db, pid);
    }
    OldForms(w.db, n.db);
    forall a, b, user, key | a != b && OfForm(n.db, a, user, key) && OfForm(n.db, b, user, key)
      ensures Apart(n.db, a, b) {
      assert OfForm(w.db, a, user, key) && OfForm(w.db, b, user, key);
      assert Apart(w.db, a, b);
    }
    forall tx | tx in n.open && n.open[tx].decided ensures Clear(n.db, n.open[tx]) {
      assert Clear(w.db, w.open[tx]);
    }
  }

  /** Stored prompts use the forms that were there before. */
  lemma OldForms(a: Db, b: Db)
    requires RowsOk(a) && b.prompts == a.prompts
    requires forall id :: id in a.forms ==> id in b.forms && b.forms[id] == a.forms[id]
    ensures forall pid, user, key :: OfForm(b, pid, user, key) <==> OfForm(a, pid, user, key)
  {
    forall pid | pid in a.prompts ensures a.prompts[pid].form in a.forms { assert RowOk(a, pid); }
  }

  /** No wait means that the cooldown since the latest prompt, hence since every prompt, is over. */
  lemma DecidedClear(db: Db, r: Request, last: Option<int>)
    requires IsLast(db, r.user, r.key, last) && r.form in db.forms && db.forms[r.form].key == r.key
    requires Waits(last, db.forms[r.form], r.now) == None
    ensures Clear(db, r)
  {
    forall pid | OfForm(db, pid, r.user, r.key) ensures db.prompts[pid].shownAt + Cooldown(db, r.form) <= r.now {
      assert pid in db.prompts;
    }
  }

  lemma DecideKeeps(w: World, tx: nat, last: Option<int>)
    requires Inv(w) && Possible(w, Decides(tx, last))
    ensures Inv(Next(w, Decides(tx, last)))
  {
    DecidedClear(w.db, w.open[tx].(decided := true), last);
  }

  lemma InsertedSpaced(db: Db, r: Request)
    requires RowsOk(db) && Spaced(db) && Clear(db, r) && r.pid !in db.prompts
    ensures Spaced(WithPrompt(db, r.user, r.pid, r.form, r.now))
  {
    var n := WithPrompt(db, r.user, r.pid, r.form, r.now);
    forall a, b, user, key | a != b && OfForm(n, a, user, key) && OfForm(n, b, user, key) ensures Apart(n, a, b) {
      if a != r.pid && b != r.pid {
        assert OfForm(db, a, user, key) && OfForm(db, b, user, key);
        assert Apart(db, a, b);
      } else {
        var earlier := if a == r.pid then b else a;
        assert OfForm(db, earlier, r.user, r.key);
      }
    }
  }

  /** Under the lock no other decided request of the same user and form is disturbed. */
  lemma OthersStayClear(db: Db, r: Request, other: Request)
    requires Clear(db, r) && Clear(db, other) && !SameLock(r, other) && r.pid !in db.prompts
    ensures Clear(WithPrompt(db, r.user, r.pid, r.form, r.now), other)
  {
    var n := WithPrompt(db, r.user, r.pid, r.form, r.now);
    forall pid | OfForm(n, pid, other.user, other.key)
      ensures n.prompts[pid].shownAt + Cooldown(n, other.form) <= other.now {
      assert pid != r.pid;
      assert OfForm(db, pid, other.user, other.key);
    }
  }

  lemma InsertStepKeeps(w: World, tx: nat)
    requires Inv(w) && Possible(w, Inserts(tx))
    ensures Inv(Next(w, Inserts(tx)))
  {
    var r := w.open[tx];
    var n := Next(w, Inserts(tx));
    if r.pid !in w.db.prompts {
      InsertKeeps(w.db, r.user, r.pid, r.form, r.now);
      InsertedSpaced(w.db, r);
      forall other | other in n.open && n.open[other].decided ensures Clear(n.db, n.open[other]) {
        OthersStayClear(w.db, r, w.open[other]);
      }
    }
  }

  lemma ActivateKeeps(w: World, id: Option<int>)
    requires Inv(w) && Possible(w, Activates(id))
    ensures Inv(Next(w, Activates(id)))
  {
    var n := Next(w, Activates(id));
    forall pid | pid in n.db.prompts ensures RowOk(n.db, pid) {
      assert RowOk(w.db, pid);
      RowStays(w.db, n.db, pid);
    }
    SpacedStays(w.db, n.db);
    OpenStays(w, n.db);
  }

  lemma ReadKeeps(w: World, tx: nat, user: int, pid: nat, now: int)
    requires Inv(w) && Possible(w, Reads(tx, user, pid, now))
    ensures Inv(Next(w, Reads(tx, user, pid, now)))
  {
  }

  lemma LeaveKeeps(w: World, tx: nat)
    requires Inv(w) && Possible(w, Leaves(tx))
    ensures Inv(Next(w, Leaves(tx)))
  {
  }

  lemma StepKeepsInv(w: World, s: Step)
    requires Inv(w) && Possible(w, s)
    ensures Inv(Next(w, s))
  {
    match s
    case Publishes(id, form) => PublishKeeps(w, id, form);
    case Activates(id) => ActivateKeeps(w, id);
    case Reads(tx, user, pid, now) => ReadKeeps(w, tx, user, pid, now);
    case Decides(tx, last) => DecideKeeps(w, tx, last);
    case Inserts(tx) => InsertStepKeeps(w, tx);
    case Leaves(tx) => LeaveKeeps(w, tx);
    case _ => AnswersKeep(w, s);
  }

  // ---------- whole runs ----------

  ghost predicate IsRun(worlds: seq<World>, steps: seq<Step>) {
    && |worlds| == |steps| + 1
    && worlds[0] == World(Db(map[], None, map[], map[], map[]), map[])
    && forall i {:trigger steps[i]} :: 0 <= i < |steps| ==>
       Possible(worlds[i], steps[i]) && worlds[i + 1] == Next(worlds[i], steps[i])
  }

  lemma {:induction false} InvOverRuns(worlds: seq<World>, steps: seq<Step>, n: nat)
    requires IsRun(worlds, steps) && n <= |steps|
    ensures Inv(worlds[n])
  {
    if n > 0 {
      InvOverRuns(worlds, steps, n - 1);
      StepKeepsInv(worlds[n - 1], steps[n - 1]);
    }
  }

  /** A prompt is submitted exactly when its one submission is complete; a partial submission belongs to a prompt at the
      follow-up stage and holds an overall score of at most two; a complete one answers the overall question and, when
      its score has follow-ups, every required one, and nothing else. */
  lemma SubmissionsMatchPrompts(worlds: seq<World>, steps: seq<Step>, n: nat, pid: nat)
    requires IsRun(worlds, steps) && n <= |steps| && pid in worlds[n].db.prompts
    ensures var db := worlds[n].db;
            var p := db.prompts[pid];
            && p.form in db.forms
            && (p.status == Submitted <==>
                pid in db.byPrompt && db.byPrompt[pid] in db.subs && db.subs[db.byPrompt[pid]].status == Completed)
            && (forall sid :: sid in db.subs && db.subs[sid].prompt == pid ==>
               pid in db.byPrompt && db.byPrompt[pid] == sid)
            && (forall sid :: sid in db.subs && db.subs[sid].prompt == pid && db.subs[sid].status == Partial ==>
                                p.stage == Followup && PartialAnswers(db.forms[p.form], db.subs[sid].answers))
            && (forall sid :: sid in db.subs && db.subs[sid].prompt == pid && db.subs[sid].status == Completed ==>
                                CompletedAnswers(db.forms[p.form], db.subs[sid].answers))
  {
    InvOverRuns(worlds, steps, n);
    assert RowOk(worlds[n].db, pid);
  }

  /** Any two stored prompts of a user for one form key are at least the later one's cooldown apart, whatever instants
      the requests carried and in whatever order they came. */
  lemma CooldownHolds(worlds: seq<World>, steps: seq<Step>, n: nat, a: nat, b: nat, user: int, key: string)
    requires IsRun(worlds, steps) && n <= |steps| && a != b
    requires OfForm(worlds[n].db, a, user, key) && OfForm(worlds[n].db, b, user, key)
    requires worlds[n].db.prompts[a].shownAt <= worlds[n].db.prompts[b].shownAt
    ensures worlds[n].db.prompts[b].shownAt >= worlds[n].db.prompts[a].shownAt
            + worlds[n].db.forms[worlds[n].db.prompts[b].form].cooldownDays * DAY
  {
    InvOverRuns(worlds, steps, n);
    var db := worlds[n].db;
    assert RowOk(db, a) && RowOk(db, b);
    assert Apart(db, a, b);
    AtLeastADay(db.forms[db.prompts[a].form].cooldownDays);
  }

  lemma AtLeastADay(days: int)
    requires days >= 1
    ensures days * DAY >= DAY > 0
  {
  }

  /** What a stored prompt and its submission keep from a to b. */
  ghost predicate Onward(a: Db, b: Db, pid: nat) {
    && pid in a.prompts && pid in b.prompts
    && (var p, q := a.prompts[pid], b.prompts[pid];
        && q.form == p.form && q.user == p.user && q.shownAt == p.shownAt
        && (p.status != Shown ==> q == p))
    && (pid in a.byPrompt && a.byPrompt[pid] in a.subs ==>
          && pid in b.byPrompt && b.byPrompt[pid] == a.byPrompt[pid] && a.byPrompt[pid] in b.subs
          && b.subs[a.byPrompt[pid]].user == a.subs[a.byPrompt[pid]].user
             && b.subs[a.byPrompt[pid]].prompt == a.subs[a.byPrompt[pid]].prompt
          && (a.subs[a.byPrompt[pid]].status == Completed ==> b.subs[a.byPrompt[pid]] == a.subs[a.byPrompt[pid]]))
  }

  lemma SameOnward(a: Db, b: Db, pid: nat)
    requires pid in a.prompts && pid in b.prompts && b.prompts[pid] == a.prompts[pid] && b.byPrompt == a.byPrompt
             && b.subs == a.subs
    ensures Onward(a, b, pid)
  {
  }

  /** Writing a shown prompt together with its submission, new or so far partial. */
  lemma ReplacedOnward(db: Db, pid: nat, p: Prompt, sid: nat, s: Submission, other: nat)
    requires RowsOk(db) && pid in db.prompts && other in db.prompts && db.prompts[pid].status == Shown
    requires p.form == db.prompts[pid].form && p.user == db.prompts[pid].user && p.shownAt == db.prompts[pid].shownAt
    requires if pid in db.byPrompt then
               db.byPrompt[pid] == sid && sid in db.subs && db.subs[sid].status == Partial
               && s.user == db.subs[sid].user && s.prompt == db.subs[sid].prompt == pid
             else sid !in db.subs
    ensures Onward(db, Replaced(db, pid, p, sid, s), other)
  {
    if other in db.byPrompt { OwnSubmission(db, other); }
  }

  lemma SubmitOnward(db: Db, user: int, pid: nat, question: int, score: int, now: int, newId: nat, other: nat)
    requires RowsOk(db) && newId !in db.subs && other in db.prompts
    ensures Onward(db, SubmitOverall(db, user, pid, question, score, now, newId).0, other)
  {
    var next := SubmitOverall(db, user, pid, question, score, now, newId).0;
    if next == db {
      SameOnward(db, next, other);
    } else {
      assert RowOk(db, pid);
      ReplacedOnward(db, pid, next.prompts[pid], newId, next.subs[newId], other);
    }
  }

  lemma CompleteOnward(db: Db, user: int, sid: nat, answers: seq<Answer>, now: int, other: nat)
    requires TablesOk(db) && other in db.prompts
    ensures Onward(db, CompleteFollowup(db, user, sid, answers, now).0, other)
  {
    var next := CompleteFollowup(db, user, sid, answers, now).0;
    if next == db {
      SameOnward(db, next, other);
    } else {
      var pid := db.subs[sid].prompt;
      assert RowOk(db, pid);
      CompletedRow(db, user, sid, answers, now);
      ReplacedOnward(db, pid, next.prompts[pid], sid, next.subs[sid], other);
    }
  }

  lemma ExpireOnward(db: Db, gone: set<nat>, other: nat)
    requires RowsOk(db) && other in db.prompts && other !in gone
    ensures Onward(db, Without(db, gone), other)
  {
    assert RowOk(db, other);
  }

  lemma DismissOnward(db: Db, user: int, pid: nat, now: int, other: nat)
    requires RowsOk(db) && other in db.prompts
    ensures Onward(db, Dismiss(db, user, pid, now).0, other)
  {
    assert RowOk(db, other);
  }

  /** Showing prompts and publishing forms leave stored prompts and all submissions alone. */
  lemma PresentLeaves(w: World, s: Step, pid: nat)
    requires Possible(w, s) && pid in w.db.prompts
    requires s.Publishes? || s.Activates? || s.Reads? || s.Decides? || s.Inserts? || s.Leaves?
    ensures var n := Next(w, s).db;
            pid in n.prompts && n.prompts[pid] == w.db.prompts[pid] && n.byPrompt == w.db.byPrompt
                && n.subs == w.db.subs
  {
  }

  lemma StepOnward(w: World, s: Step, pid: nat)
    requires Inv(w) && Possible(w, s) && pid in w.db.prompts && pid in Next(w, s).db.prompts
    ensures Onward(w.db, Next(w, s).db, pid)
  {
    match s
    case Submits(user, prompt, question, score, now, newId) =>
      SubmitOnward(w.db, user, prompt, question, score, now, newId, pid);
    case Completes(user, sid, answers, now) => CompleteOnward(w.db, user, sid, answers, now, pid);
    case Dismisses(user, prompt, now) => DismissOnward(w.db, user, prompt, now, pid);
    case Expires(gone, before, limit) => ExpireOnward(w.db, gone, pid);
    case _ =>
      PresentLeaves(w, s, pid);
      SameOnward(w.db, Next(w, s).db, pid);
  }

  ghost predicate StoredThroughout(worlds: seq<World>, i: nat, j: nat, pid: nat)
    requires i <= j < |worlds|
  {
    forall k :: i <= k <= j ==> pid in worlds[k].db.prompts
  }

  lemma {:induction false} OnwardOverRuns(worlds: seq<World>, steps: seq<Step>, i: nat, j: nat, pid: nat)
    requires IsRun(worlds, steps) && i <= j <= |steps| && StoredThroughout(worlds, i, j, pid)
    ensures Onward(worlds[i].db, worlds[j].db, pid)
    decreases j - i
  {
    assert pid in worlds[i].db.prompts && pid in worlds[j].db.prompts;
    if i < j {
      OnwardOverRuns(worlds, steps, i, j - 1, pid);
      InvOverRuns(worlds, steps, j - 1);
      StepOnward(worlds[j - 1], steps[j - 1], pid);
    }
  }

  /** As long as a prompt is stored, a dismissal or a submission of it is final. */
  lemma StatusesAreFinal(worlds: seq<World>, steps: seq<Step>, i: nat, j: nat, pid: nat)
    requires IsRun(worlds, steps) && i <= j <= |steps| && StoredThroughout(worlds, i, j, pid)
    requires worlds[i].db.prompts[pid].status != Shown
    ensures worlds[j].db.prompts[pid] == worlds[i].db.prompts[pid]
  {
    OnwardOverRuns(worlds, steps, i, j, pid);
  }

  // ---------- replays ----------

  /** Presenting a stored prompt again changes nothing and returns what is stored, with the form as long as it
      is shown. */
  lemma PresentReplays(worlds: seq<World>, steps: seq<Step>, i: nat, j: nat, user: int, pid: nat, now: int,
      last: Option<int>)
    requires IsRun(worlds, steps) && i <= j <= |steps| && StoredThroughout(worlds, i, j, pid)
    requires worlds[i].db.prompts[pid].user == user
    ensures var db := worlds[j].db;
            && pid in db.prompts && db.prompts[pid].form in db.forms
            && Present(db, user, pid, now, last) ==
               (db, Ok(Presented(SummaryOf(db, pid),
                         if db.prompts[pid].status == Shown then Some(db.forms[db.prompts[pid].form]) else None)))
  {
    OnwardOverRuns(worlds, steps, i, j, pid);
    InvOverRuns(worlds, steps, j);
    assert RowOk(worlds[j].db, pid);
  }

  /** The submission `sid` answers the prompt. */
  ghost predicate Answered(db: Db, user: int, pid: nat, sid: nat) {
    Owned(db, user, pid) && pid in db.byPrompt && db.byPrompt[pid] == sid && sid in db.subs
  }

  /** What is stored about an answered prompt, as a result. */
  ghost function StoredResult(db: Db, pid: nat, sid: nat): SubmitResult
    requires pid in db.prompts && sid in db.subs
  {
    SubmitResult(sid, db.subs[sid].status, db.subs[sid].status == Partial && db.prompts[pid].status == Shown)
  }

  lemma AcceptedSubmit(db: Db, user: int, pid: nat, question: int, score: int, now: int, newId: nat)
    requires SubmitOverall(db, user, pid, question, score, now, newId).1.Ok?
    ensures var r := SubmitOverall(db, user, pid, question, score, now, newId);
            Answered(r.0, user, pid, r.1.value.submission) && r.1.value == StoredResult(r.0, pid, r.1.value.submission)
  {
  }

  lemma AnsweredReplies(db: Db, user: int, pid: nat, sid: nat, question: int, score: int, now: int, newId: nat)
    requires Answered(db, user, pid, sid)
    ensures SubmitOverall(db, user, pid, question, score, now, newId) == (db, Ok(StoredResult(db, pid, sid)))
  {
  }

  lemma AnsweredStays(a: Db, b: Db, user: int, pid: nat, sid: nat)
    requires Onward(a, b, pid) && Answered(a, user, pid, sid)
    ensures Answered(b, user, pid, sid)
  {
  }

  /** An overall answer that was accepted in step i: sent again, at any later time, it changes nothing and returns the
      same submission with what is stored by then; sent again at once, the very same result. */
  lemma SubmitReplays(worlds: seq<World>, steps: seq<Step>, i: nat, j: nat, question: int, score: int, now: int,
      newId: nat)
    requires IsRun(worlds, steps) && i < j <= |steps| && steps[i].Submits?
    requires StoredThroughout(worlds, i + 1, j, steps[i].prompt)
    requires var s := steps[i];
             SubmitOverall(worlds[i].db, s.user, s.prompt, s.question, s.score, s.now, s.newId).1.Ok?
    ensures var s, db := steps[i], worlds[j].db;
            var first := SubmitOverall(worlds[i].db, s.user, s.prompt, s.question, s.score, s.now, s.newId).1;
            var sid := first.value.submission;
            && Answered(db, s.user, s.prompt, sid)
            && SubmitOverall(db, s.user, s.prompt, question, score, now, newId) ==
               (db, Ok(StoredResult(db, s.prompt, sid)))
            && (j == i + 1 ==> first.value == StoredResult(db, s.prompt, sid))
  {
    var s := steps[i];
    var sid := SubmitOverall(worlds[i].db, s.user, s.prompt, s.question, s.score, s.now, s.newId).1.value.submission;
    AcceptedSubmit(worlds[i].db, s.user, s.prompt, s.question, s.score, s.now, s.newId);
    assert worlds[i + 1] == Next(worlds[i], s);
    OnwardOverRuns(worlds, steps, i + 1, j, s.prompt);
    AnsweredStays(worlds[i + 1].db, worlds[j].db, s.user, s.prompt, sid);
    AnsweredReplies(worlds[j].db, s.user, s.prompt, sid, question, score, now, newId);
  }

  /** The submission is complete. */
  ghost predicate Complete(db: Db, user: int, pid: nat, sid: nat) {
    Answered(db, user, pid, sid) && db.subs[sid].user == user && db.subs[sid].prompt == pid
        && db.subs[sid].status == Completed
  }

  lemma AcceptedComplete(db: Db, user: int, sid: nat, answers: seq<Answer>, now: int)
    requires IndexOk(db) && CompleteFollowup(db, user, sid, answers, now).1.Ok?
    ensures var r := CompleteFollowup(db, user, sid, answers, now);
            Complete(r.0, user, db.subs[sid].prompt, sid) && r.1 == Ok(SubmitResult(sid, Completed, false))
  {
  }

  lemma CompleteStays(a: Db, b: Db, user: int, pid: nat, sid: nat)
    requires Onward(a, b, pid) && Complete(a, user, pid, sid)
    ensures Complete(b, user, pid, sid)
  {
  }

  lemma CompleteReplies(db: Db, user: int, pid: nat, sid: nat, answers: seq<Answer>, now: int)
    requires Complete(db, user, pid, sid)
    ensures CompleteFollowup(db, user, sid, answers, now) == (db, Ok(SubmitResult(sid, Completed, false)))
  {
  }

  ghost predicate Accepted(db: Db, s: Step)
    requires s.Completes?
  {
    CompleteFollowup(db, s.user, s.submission, s.answers, s.now).1.Ok?
  }

  lemma CompleteStep(worlds: seq<World>, steps: seq<Step>, i: nat)
    requires IsRun(worlds, steps) && i < |steps| && steps[i].Completes? && Accepted(worlds[i].db, steps[i])
    ensures var s := steps[i];
            && s.submission in worlds[i].db.subs
            && Complete(worlds[i + 1].db, s.user, worlds[i].db.subs[s.submission].prompt, s.submission)
            && CompleteFollowup(worlds[i].db, s.user, s.submission, s.answers, s.now).1 ==
               Ok(SubmitResult(s.submission, Completed, false))
  {
    var s := steps[i];
    InvOverRuns(worlds, steps, i);
    AcceptedComplete(worlds[i].db, s.user, s.submission, s.answers, s.now);
    assert worlds[i + 1] == Next(worlds[i], s);
  }

  /** A follow-up that was accepted: the same result, and no change, for good. */
  lemma CompleteReplays(worlds: seq<World>, steps: seq<Step>, i: nat, j: nat, pid: nat, answers: seq<Answer>, now: int)
    requires IsRun(worlds, steps) && i < j <= |steps| && steps[i].Completes? && Accepted(worlds[i].db, steps[i])
    requires pid == worlds[i].db.subs[steps[i].submission].prompt && StoredThroughout(worlds, i + 1, j, pid)
    ensures var s := steps[i];
            CompleteFollowup(worlds[j].db, s.user, s.submission, answers, now)
            == (worlds[j].db, CompleteFollowup(worlds[i].db, s.user, s.submission, s.answers, s.now).1)
  {
    var s := steps[i];
    CompleteStep(worlds, steps, i);
    OnwardOverRuns(worlds, steps, i + 1, j, pid);
    CompleteStays(worlds[i + 1].db, worlds[j].db, s.user, pid, s.submission);
    CompleteReplies(worlds[j].db, s.user, pid, s.submission, answers, now);
  }

  /** A dismissal that was accepted: the same answer, and no change, for good. */
  lemma DismissReplays(worlds: seq<World>, steps: seq<Step>, i: nat, j: nat, now: int)
    requires IsRun(worlds, steps) && i < j <= |steps| && steps[i].Dismisses?
             && StoredThroughout(worlds, i + 1, j, steps[i].prompt)
    requires Dismiss(worlds[i].db, steps[i].user, steps[i].prompt, steps[i].now).1.Ok?
    ensures var s := steps[i];
            Dismiss(worlds[j].db, s.user, s.prompt, now) ==
                (worlds[j].db, Dismiss(worlds[i].db, s.user, s.prompt, s.now).1)
  {
    assert Next(worlds[i], steps[i]) == worlds[i + 1];
    OnwardOverRuns(worlds, steps, i + 1, j, steps[i].prompt);
  }

  /** Undisturbed, the steps of a request are the one transaction that Present describes: it shows a new prompt exactly
      when it may read and decide, and then leaves the tables and the answer of that transaction; otherwise nothing
      changes and the answer is the replay, the missing or broken form, or the end of the cooldown. */
  lemma PresentInOneGo(w: World, tx: nat, user: int, pid: nat, now: int, last: Option<int>)
    requires tx !in w.open && IsLast(w.db, user, ActiveKey(w.db), last)
    requires forall other :: other in w.open && w.open[other].decided ==>
                               w.open[other].user != user || w.open[other].key != ActiveKey(w.db)
    ensures var whole := Present(w.db, user, pid, now, last);
            var mayRead := Possible(w, Reads(tx, user, pid, now));
            var mayDecide := mayRead && Possible(Next(w, Reads(tx, user, pid, now)), Decides(tx, last));
            && (mayDecide <==> whole.0 != w.db)
            && (mayDecide ==>
                  var read := Next(w, Reads(tx, user, pid, now));
                  var decided := Next(read, Decides(tx, last));
                  && Possible(decided, Inserts(tx)) && Next(decided, Inserts(tx)) == World(whole.0, w.open)
                  && whole.1 == Ok(Presented(Summary(pid, Shown, Overall, now, None),
                     Some(w.db.forms[w.db.active.value]))))
            && (mayRead && !mayDecide ==>
                  whole.1 == Ok(NotEligible(Waits(last, w.db.forms[w.db.active.value], now)))
                      && whole.1.value.next.Some?)
            && (!mayRead ==>
                  whole.1 == match Existing(w.db, user, pid)
                             case Some(answer) => answer
                             case None => if w.db.active.None? then Ok(NotEligible(None))
                                          else Err(FormById(w.db, w.db.active.value).error))
  {
    if Possible(w, Reads(tx, user, pid, now)) {
      var read := Next(w, Reads(tx, user, pid, now));
      assert read.open - {tx} == w.open;
      if Possible(read, Decides(tx, last)) {
        var decided := Next(read, Decides(tx, last));
        assert decided.open - {tx} == w.open;
      }
    }
  }
}
