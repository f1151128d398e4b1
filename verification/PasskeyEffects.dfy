/** What each event of the page makes a login controller do, effect by effect: what is sent, reported and shown, when a
    run starts and when one is aborted, and when the controller asks for a new automatic run. */
module PasskeyEffects {
  import opened Wrappers
  import opened PasskeyModel
  import opened PasskeyRuns
  import opened Sets

  // ---------- what is recorded ----------

  predicate FinishWasSent(log: seq<Entry>, r: nat) {
    exists k :: 0 <= k < |log| && log[k].FinishSent? && log[k].run == r
  }

  /** The failures that the page tells the user about, and the message of each; no other is ever shown. */
  predicate Tells(f: Failure, message: Message) {
    || (message == LoginFailed && (f == Unauthorized || f == Unexpected))
    || (message == LoginLocked && f.Api? && f.status == 429)
    || (message == LoginInterrupted && f == Interrupted)
    || (message.Problem? && f.Api? && f.status != 429 && f.text == message.text)
  }

  /** A failure of run r shows: its message, when the user pressed the button or had chosen a passkey already. */
  ghost predicate ShowsFailure(v: View, r: nat, f: Failure, chosen: bool, log: seq<Entry>)
    requires r < |v.runs|
  {
    if v.c.current == Some(r) && (v.runs[r].kind == Button || chosen) && f != Aborted && f != Cancelled
    then exists message :: Tells(f, message) && log == v.log + [Shown(r, message)]
    else log == v.log
  }

  lemma FailShows(v: View, me: nat, r: nat, f: Failure, m: Moment)
    requires Mine(v, me) && At(v.runs, r, me)
    ensures ShowsFailure(v, r, f, v.runs[r].stage == Finish, Fail(v, r, f, m).log)
  {
    if Classify(f).Some? { assert Tells(f, Classify(f).value); }
  }

  /** What one event records. */
  ghost predicate Records(v: View, e: Event, m: Moment, chosen: bool, log: seq<Entry>)
    requires OfRun(e) ==> e.run < |v.runs|
  {
    if !OfRun(e) then log == v.log
    else if e.Fails? then ShowsFailure(v, e.run, e.failure, chosen, log)
    else if e.WaitHitsLimit? then ShowsFailure(v, e.run, Unexpected, false, log)
    else if v.c.current != Some(e.run) || e.Closes? then log == v.log
    else if e.WaitEnds? then log == v.log + [BeginSent(e.run)]
    else if e.BeginAnswers? then log == v.log + [GetCalled(e.run)]
    else if e.FinishAnswers? then log == v.log + [LoggedIn(e.run)]
    else if m.now - v.runs[e.run].begunAt >= 290_000 then log == v.log + [Shown(e.run, LoginFailed)]
    else v.runs[e.run].token.Some? && log == v.log + [FinishSent(e.run, v.runs[e.run].token.value, m.now)]
  }

  lemma StepRecords(v: View, me: nat, e: Event, m: Moment)
    requires Mine(v, me) && Enabled(v, me, e)
    ensures Records(v, e, m, OfRun(e) && v.runs[e.run].stage == Finish, Step(v, me, e, m).log)
  {
    if OfRun(e) {
      assert RunOk(v.c, v.runs[e.run], e.run);
      if e.Fails? { FailShows(v, me, e.run, e.failure, m); }
      if e.WaitHitsLimit? { FailShows(v, me, e.run, Unexpected, m); }
    } else {
      PageMovesNothing(v, me, e, m);
    }
  }

  // ---------- the record over a whole run ----------

  ghost predicate Told(runs: seq<Run>, log: seq<Entry>) {
    && (forall r: nat :: r < |runs| ==> (runs[r].stage == Finish <==> FinishWasSent(log, r)))
    && (forall k :: 0 <= k < |log| && log[k].LoggedIn? ==>
          && log[k].run < |runs| && (runs[log[k].run].progress == Closing || runs[log[k].run].progress == Done)
          && FinishWasSent(log[..k], log[k].run))
    && (forall j, k :: 0 <= j < k < |log| && log[j].LoggedIn? && log[k].LoggedIn? ==> log[j].run != log[k].run)
  }

  ghost predicate SameStages(runs: seq<Run>, next: seq<Run>) {
    && |runs| <= |next|
    && (forall r: nat :: r < |runs| ==> next[r].stage == runs[r].stage)
    && (forall r: nat :: |runs| <= r < |next| ==> next[r].stage == Begin)
  }

  lemma StagesAfterCalls(v: View, me: nat, m: Moment)
    requires Ranged(v)
    ensures SameStages(v.runs, StartExplicit(v, me).runs) && SameStages(v.runs, StartPassword(v).runs)
    ensures SameStages(v.runs, StartConditional(v, me, m.now).runs)
  {
  }

  lemma StagesAfterCheck(v: View, me: nat, epoch: nat, ok: bool, m: Moment)
    requires Ranged(v)
    ensures SameStages(v.runs, Available(v, me, epoch, ok, m).runs)
  {
    StagesAfterCalls(v.(c := v.c.(checking := v.c.checking - multiset{epoch}, available := true)), me, m);
  }

  lemma StagesAfterPage(v: View, me: nat, e: Event, m: Moment)
    requires Mine(v, me) && Enabled(v, me, e) && !OfRun(e)
    ensures SameStages(v.runs, PageStep(v, me, e, m).runs)
  {
    match e
    case AsksExplicit => StagesAfterCalls(v, me, m);
    case AsksPassword => StagesAfterCalls(v, me, m);
    case ScheduleFires => StagesAfterCalls(v.(c := v.c.(scheduleTimer := None)), me, m);
    case Checked(epoch, ok) => StagesAfterCheck(v, me, epoch, ok, m);
    case _ =>
  }

  lemma StagesAfterRun(v: View, me: nat, e: Event, m: Moment)
    requires Mine(v, me) && Enabled(v, me, e) && OfRun(e)
    ensures var w := RunStep(v, me, e, m);
            |w.runs| == |v.runs| && (forall r: nat :: r < |v.runs| && r != e.run ==> w.runs[r] == v.runs[r])
            && (w.runs[e.run].stage == Finish <==>
                  v.runs[e.run].stage == Finish ||
                  (e.BrowserAnswers? && v.c.current == Some(e.run) && m.now - v.runs[e.run].begunAt < 290_000))
            && (e.FinishAnswers? ==> w.runs[e.run].progress == Closing && v.runs[e.run].progress == Sending)
            && (v.runs[e.run].progress == Closing ==> w.runs[e.run].progress == Done)
  {
    assert RunOk(v.c, v.runs[e.run], e.run);
    RunMovesOne(v, me, e, m);
  }

  lemma SentLater(log: seq<Entry>, x: Entry, r: nat)
    ensures FinishWasSent(log + [x], r) <==> FinishWasSent(log, r) || (x.FinishSent? && x.run == r)
  {
    var all := log + [x];
    assert forall k :: 0 <= k < |log| ==> all[k] == log[k];
    assert all[|log|] == x;
  }

  /** One more entry keeps the record in order. */
  lemma ToldMore(runs: seq<Run>, log: seq<Entry>, next: seq<Run>, x: Entry)
    requires Told(runs, log) && |runs| <= |next|
    requires forall r: nat :: r < |runs| ==>
               (next[r].stage == Finish <==> runs[r].stage == Finish || (x.FinishSent? && x.run == r))
    requires forall r: nat :: |runs| <= r < |next| ==> next[r].stage != Finish
    requires forall r: nat :: r < |runs| && (runs[r].progress == Closing || runs[r].progress == Done) ==>
               next[r].progress == Closing || next[r].progress == Done
    requires x.run < |runs|
    requires x.LoggedIn? ==> runs[x.run].progress == Sending && runs[x.run].stage == Finish
                             && next[x.run].progress == Closing
    requires forall k :: 0 <= k < |log| && log[k].FinishSent? ==> log[k].run < |runs|
    ensures Told(next, log + [x])
  {
    var all := log + [x];
    forall r: nat | r < |next| ensures next[r].stage == Finish <==> FinishWasSent(all, r) {
      SentLater(log, x, r);
    }
    forall k | 0 <= k < |all| && all[k].LoggedIn?
      ensures all[k].run < |next| && (next[all[k].run].progress == Closing || next[all[k].run].progress == Done)
      ensures FinishWasSent(all[..k], all[k].run) {
      if k < |log| { assert all[..k] == log[..k] && all[k] == log[k]; } else { assert all[..k] == log; }
    }
  }

  lemma ToldSame(runs: seq<Run>, log: seq<Entry>, next: seq<Run>)
    requires Told(runs, log) && |runs| <= |next|
    requires forall r: nat :: r < |runs| ==> (next[r].stage == Finish <==> runs[r].stage == Finish)
    requires forall r: nat :: |runs| <= r < |next| ==> next[r].stage != Finish
    requires forall r: nat :: r < |runs| && (runs[r].progress == Closing || runs[r].progress == Done) ==>
               next[r].progress == Closing || next[r].progress == Done
    requires forall k :: 0 <= k < |log| && log[k].FinishSent? ==> log[k].run < |runs|
    ensures Told(next, log)
  {
  }

  /** What a record of one entry needs to know about its run. */
  lemma EntryOfRun(v: View, me: nat, e: Event, m: Moment)
    requires Mine(v, me) && Enabled(v, me, e) && OfRun(e)
    ensures var log := RunStep(v, me, e, m).log;
            log != v.log ==>
              && log == v.log + [log[|v.log|]] && log[|v.log|].run == e.run
              && (log[|v.log|].LoggedIn? ==> e.FinishAnswers?)
              && (log[|v.log|].FinishSent? <==>
                    e.BrowserAnswers? && v.c.current == Some(e.run) && m.now - v.runs[e.run].begunAt < 290_000)
    ensures RunStep(v, me, e, m).log == v.log ==>
              !(e.BrowserAnswers? && v.c.current == Some(e.run) && m.now - v.runs[e.run].begunAt < 290_000)
  {
    StepRecords(v, me, e, m);
  }

  /** What a continuation does to the stages and the record. */
  ghost predicate Continues(v: View, w: View, e: Event, m: Moment)
    requires OfRun(e) && e.run < |v.runs|
  {
    var sends := e.BrowserAnswers? && v.c.current == Some(e.run) && m.now - v.runs[e.run].begunAt < 290_000;
    && |w.runs| == |v.runs| && (forall r: nat :: r < |v.runs| && r != e.run ==> w.runs[r] == v.runs[r])
    && (w.runs[e.run].stage == Finish <==> v.runs[e.run].stage == Finish || sends)
    && (e.FinishAnswers? ==> w.runs[e.run].progress == Closing && v.runs[e.run].progress == Sending)
    && (v.runs[e.run].progress == Closing || v.runs[e.run].progress == Done ==> w.runs[e.run].progress == Done)
    && (w.log == v.log ==> !sends)
    && (w.log != v.log ==>
          && |w.log| > |v.log| && w.log == v.log + [w.log[|v.log|]] && w.log[|v.log|].run == e.run
          && (w.log[|v.log|].LoggedIn? ==> e.FinishAnswers?) && (w.log[|v.log|].FinishSent? <==> sends))
  }

  lemma ToldAfter(v: View, w: View, e: Event, m: Moment)
    requires OfRun(e) && e.run < |v.runs| && Told(v.runs, v.log) && Continues(v, w, e, m)
    requires forall k :: 0 <= k < |v.log| ==> v.log[k].run < |v.runs|
    requires v.runs[e.run].progress == Sending ==> v.runs[e.run].stage == Finish
    ensures Told(w.runs, w.log)
  {
    if w.log == v.log {
      ToldSame(v.runs, v.log, w.runs);
    } else {
      ToldMore(v.runs, v.log, w.runs, w.log[|v.log|]);
    }
  }

  lemma ToldRunStep(v: View, me: nat, e: Event, m: Moment)
    requires Mine(v, me) && Enabled(v, me, e) && OfRun(e) && LogOk(v.runs, v.log) && Told(v.runs, v.log)
    ensures Told(RunStep(v, me, e, m).runs, RunStep(v, me, e, m).log)
  {
    assert forall k :: 0 <= k < |v.log| ==> Accounted(v.runs, v.log[k]);
    assert RunOk(v.c, v.runs[e.run], e.run);
    EntryOfRun(v, me, e, m);
    StagesAfterRun(v, me, e, m);
    ToldAfter(v, RunStep(v, me, e, m), e, m);
  }

  lemma ToldPageStep(v: View, me: nat, e: Event, m: Moment)
    requires Mine(v, me) && Enabled(v, me, e) && !OfRun(e) && LogOk(v.runs, v.log) && Told(v.runs, v.log)
    ensures Told(PageStep(v, me, e, m).runs, PageStep(v, me, e, m).log)
  {
    assert forall k :: 0 <= k < |v.log| ==> Accounted(v.runs, v.log[k]);
    PageMovesNothing(v, me, e, m);
    StagesAfterPage(v, me, e, m);
    ToldSame(v.runs, v.log, PageStep(v, me, e, m).runs);
  }

  lemma {:induction false} ToldUpTo(worlds: seq<World>, actions: seq<Action>, w: World, n: nat)
    requires IsRun(worlds, actions, w) && n <= |actions|
    ensures Told(worlds[n].runs, worlds[n].log)
  {
    if n > 0 {
      ToldUpTo(worlds, actions, w, n - 1);
      InvUpTo(worlds, actions, w, n - 1);
      var a := actions[n - 1];
      if a.Acts? {
        var v := Sight(worlds[n - 1], a.who);
        if OfRun(a.e) { ToldRunStep(v, a.who, a.e, a.m); } else { ToldPageStep(v, a.who, a.e, a.m); }
      }
    }
  }

  /** What a step sends, reports and shows, told from the record and the controller's current run: a begin when its wait
      ends, the browser when the begin answers, a finish when the browser answers in time, the login when the finish
      answers, and a message when it fails. A run that is not current makes nothing happen. */
  lemma RecordedExactly(worlds: seq<World>, actions: seq<Action>, w: World, who: nat, e: Event, m: Moment)
    requires IsRun(worlds, actions, w) && Possible(w, Acts(who, e, m))
    ensures Records(Sight(w, who), e, m, OfRun(e) && FinishWasSent(w.log, e.run), Next(w, Acts(who, e, m)).log)
  {
    InvOverRuns(worlds, actions, w);
    ToldUpTo(worlds, actions, w, |actions|);
    StepRecords(Sight(w, who), who, e, m);
  }

  /** A login is reported exactly when the finish of the controller's current run answers. */
  lemma LoginReported(worlds: seq<World>, actions: seq<Action>, w: World, who: nat, e: Event, m: Moment)
    requires IsRun(worlds, actions, w) && Possible(w, Acts(who, e, m)) && e.FinishAnswers?
    ensures Next(w, Acts(who, e, m)).log ==
            if w.ctls[who].current == Some(e.run) then w.log + [LoggedIn(e.run)] else w.log
  {
    RecordedExactly(worlds, actions, w, who, e, m);
  }

  /** A run reports at most one login, after its finish was sent. */
  lemma LoginReportedOnce(worlds: seq<World>, actions: seq<Action>, w: World, k: nat)
    requires IsRun(worlds, actions, w) && k < |w.log| && w.log[k].LoggedIn?
    ensures FinishWasSent(w.log[..k], w.log[k].run)
    ensures forall j :: 0 <= j < |w.log| && w.log[j] == w.log[k] ==> j == k
  {
    ToldUpTo(worlds, actions, w, |actions|);
  }

  /** What the effects of a step rest on. */
  ghost predicate Ready(v: View, me: nat) {
    Lockstep(v, me) && (v.c.available ==> v.c.active)
    && (v.c.current.Some? ==> RunOk(v.c, v.runs[v.c.current.value], v.c.current.value))
  }

  // ---------- a run's function always comes to its end ----------

  function Rank(p: Progress): nat {
    match p
    case Waiting => 0
    case Beginning => 1
    case Getting(_) => 2
    case Sending => 3
    case Closing => 4
    case Done => 5
  }

  /** The events that end a run early: a failure, a wait at the limit, an answer that came too late. */
  predicate EndsEarly(v: View, e: Event, m: Moment)
    requires OfRun(e) && e.run < |v.runs|
  {
    e.Fails? || e.WaitHitsLimit? || (e.BrowserAnswers? && m.now - v.runs[e.run].begunAt >= 290_000)
  }

  lemma AdvanceStep(v: View, me: nat, e: Event, m: Moment)
    requires Ready(v, me) && Enabled(v, me, e) && OfRun(e) && RunOk(v.c, v.runs[e.run], e.run)
    ensures var w := RunStep(v, me, e, m);
            && e.run < |w.runs|
            && (if v.c.current == Some(e.run) && !EndsEarly(v, e, m)
                then Rank(w.runs[e.run].progress) == Rank(v.runs[e.run].progress) + 1
                else Rank(w.runs[e.run].progress) >= 4 && Rank(w.runs[e.run].progress) > Rank(v.runs[e.run].progress))
            && (e.BeginAnswers? && v.c.current == Some(e.run) ==>
                  w.runs[e.run].token == Some(e.token) && w.runs[e.run].begunAt == m.now)
  {
  }

  /** Each continuation of the current run takes it one step on, and that of any other run, or one that ends it early,
      takes it to its end; so no run keeps the queue for ever, whatever happens to its controller. */
  lemma FunctionAdvances(worlds: seq<World>, actions: seq<Action>, w: World, who: nat, e: Event, m: Moment)
    requires IsRun(worlds, actions, w) && Possible(w, Acts(who, e, m)) && OfRun(e)
    ensures var n := Next(w, Acts(who, e, m));
            && e.run < |n.runs|
            && (if w.ctls[who].current == Some(e.run) && !EndsEarly(Sight(w, who), e, m)
                then Rank(n.runs[e.run].progress) == Rank(w.runs[e.run].progress) + 1
                else Rank(n.runs[e.run].progress) >= 4 && Rank(n.runs[e.run].progress) > Rank(w.runs[e.run].progress))
            && (e.BeginAnswers? && w.ctls[who].current == Some(e.run) ==>
                  n.runs[e.run].token == Some(e.token) && n.runs[e.run].begunAt == m.now)
  {
    InvOverRuns(worlds, actions, w);
    assert Mine(Sight(w, who), who);
    assert Ready(Sight(w, who), who);
    AdvanceStep(Sight(w, who), who, e, m);
  }

  // ---------- when runs start and when they are aborted ----------

  predicate MayAsk(c: Controller) { c.active && c.available && c.autoBegins < 10 }

  /** The event starts an automatic run: the scheduled moment comes, or the first availability answer of this mount. */
  predicate StartsAuto(c: Controller, e: Event, m: Moment) {
    && c.active && c.autoBegins < 10 && (c.phase == Idle || c.phase == Conditional)
    && ((e.ScheduleFires? && c.available) || (e.Checked? && e.epoch == c.epoch && e.ok && !m.hidden))
  }

  predicate StartsButton(c: Controller, e: Event) { e.AsksExplicit? && (c.phase == Idle || c.phase == Conditional) }

  predicate StartsPassword(c: Controller, e: Event) { e.AsksPassword? && (c.phase == Idle || c.phase == Conditional) }

  /** What gives the current run up: leaving the page, a new run, the password form, and the renewal of the waiting run
      when no automatic begin is left. */
  predicate GivesUp(c: Controller, e: Event, m: Moment) {
    || e.Disposes? || StartsAuto(c, e, m) || StartsButton(c, e) || StartsPassword(c, e)
    || (e.RefreshFires? && c.current == Some(e.run) && c.autoBegins >= 10)
  }

  // ---------- when the controller asks for another automatic run ----------

  /** The failures after which the waiting run comes back by itself. */
  predicate Retried(c: Controller, kind: Kind, f: Failure) {
    f == Interrupted || f == Unauthorized || (f == Cancelled && (kind == Button || !c.cancelRetried))
  }

  predicate Asks(v: View, e: Event, m: Moment)
    requires OfRun(e) ==> e.run < |v.runs|
  {
    match e
    case PasswordEnds(outcome) => v.c.phase == Password && outcome == Failed
    case BecomesVisible => !m.hidden && v.c.wantStart && (v.c.phase == Idle || v.c.phase == Conditional)
    case RefreshFires(r) => v.c.current == Some(r)
    case BrowserAnswers(r) => v.c.current == Some(r) && m.now - v.runs[r].begunAt >= 290_000
    case Fails(r, f) => v.c.current == Some(r) && Retried(v.c, v.runs[r].kind, f)
    case _ => false
  }

  /** When the next automatic run may begin: at once, but not within 5 s of the last one. */
  function Earliest(c: Controller, now: int): int {
    if c.lastBeginAt + 5000 > now then c.lastBeginAt + 5000 else now
  }

  /** A run starts exactly at these events; it becomes current, and only automatic ones are counted and timed. */
  ghost predicate StartIs(v: View, w: View, me: nat, e: Event, m: Moment) {
    && |w.runs| == |v.runs| + (if StartsAuto(v.c, e, m) || StartsButton(v.c, e) then 1 else 0)
    && (StartsAuto(v.c, e, m) ==>
          && w.c.current == Some(|v.runs|) && w.runs[|v.runs|] == NewRun(me, Auto)
          && w.c.autoBegins == v.c.autoBegins + 1 && w.c.lastBeginAt == m.now)
    && (StartsButton(v.c, e) ==> w.c.current == Some(|v.runs|) && w.runs[|v.runs|] == NewRun(me, Button))
    && (!StartsAuto(v.c, e, m) ==> w.c.autoBegins == v.c.autoBegins && w.c.lastBeginAt == v.c.lastBeginAt)
  }

  /** Only the current run is aborted, and only by what gives it up. */
  ghost predicate AbortIs(v: View, w: View, e: Event, m: Moment) {
    && |v.runs| <= |w.runs|
    && (forall r: nat :: r < |v.runs| ==>
          (w.runs[r].aborted <==> v.runs[r].aborted || (v.c.current == Some(r) && GivesUp(v.c, e, m))))
  }

  /** The password phase, in which no run is current, begins when it is granted and lasts until it ends or the page is
      left. */
  ghost predicate PasswordIs(c: Controller, d: Controller, e: Event) {
    d.phase == Password <==> StartsPassword(c, e) || (c.phase == Password && !e.PasswordEnds? && !e.Disposes?)
  }

  /** The controller after it asked. */
  function Asked(c: Controller, m: Moment): Controller {
    if !MayAsk(c) then c
    else if m.hidden then c.(wantStart := true)
    else c.(scheduleTimer := Some(Earliest(c, m.now)))
  }

  lemma RequestAsks(c: Controller, m: Moment)
    requires c.phase == Idle || c.phase == Conditional
    ensures RequestConditional(c, m) == Asked(c, m)
  {
  }

  lemma FailureAsks(c: Controller, kind: Kind, f: Failure, m: Moment)
    requires c.phase == Idle
    ensures var d := if f == Cancelled && kind == Auto then c.(cancelRetried := true) else c;
            AfterFailure(c, kind, f, m) == if Retried(c, kind, f) then Asked(d, m) else d
  {
  }

  /** The schedule is set by asking in view, and cleared as it fires, on the way to a ceremony and on leaving. */
  ghost predicate ScheduleIs(v: View, d: Controller, e: Event, m: Moment)
    requires OfRun(e) || e.RefreshFires? ==> e.run < |v.runs|
  {
    d.scheduleTimer ==
    if e.Disposes? || e.ScheduleFires? || StartsButton(v.c, e) || StartsPassword(v.c, e) then None
    else if Asks(v, e, m) && MayAsk(v.c) && !m.hidden then Some(Earliest(v.c, m.now))
    else v.c.scheduleTimer
  }

  /** What is wanted as soon as the page is in view again. */
  ghost predicate WantIs(v: View, d: Controller, e: Event, m: Moment)
    requires OfRun(e) || e.RefreshFires? ==> e.run < |v.runs|
  {
    d.wantStart <==>
    if e.Disposes? || StartsAuto(v.c, e, m) || (e.BecomesVisible? && !m.hidden) then false
    else v.c.wantStart || (m.hidden && ((Asks(v, e, m) && MayAsk(v.c))
                                        || (e.Checked? && e.epoch == v.c.epoch && e.ok)))
  }

  /** A cancelled automatic run is retried once a controller. */
  ghost predicate RetryIs(v: View, d: Controller, e: Event)
    requires OfRun(e) ==> e.run < |v.runs|
  {
    d.cancelRetried <==>
    v.c.cancelRetried ||
    (e.Fails? && e.failure == Cancelled && v.c.current == Some(e.run) && v.runs[e.run].kind == Auto)
  }

  /** Mounted, and found able: an answer that belongs to an earlier mount changes nothing of this. */
  ghost predicate MountIs(c: Controller, d: Controller, e: Event) {
    && (d.active <==> !e.Disposes? && (c.active || e.Starts?))
    && (d.available <==> !e.Disposes? && (c.available || (e.Checked? && e.epoch == c.epoch && e.ok)))
    && d.epoch == c.epoch + (if e.Disposes? then 1 else 0)
  }

  ghost predicate RunsAre(v: View, w: View, me: nat, e: Event, m: Moment) {
    StartIs(v, w, me, e, m) && AbortIs(v, w, e, m)
  }

  ghost predicate ControllerIs(v: View, d: Controller, e: Event, m: Moment)
    requires OfRun(e) || e.RefreshFires? ==> e.run < |v.runs|
  {
    PasswordIs(v.c, d, e) && ScheduleIs(v, d, e, m) && WantIs(v, d, e, m) && RetryIs(v, d, e) && MountIs(v.c, d, e)
  }

  ghost predicate Effects(v: View, w: View, me: nat, e: Event, m: Moment)
    requires OfRun(e) || e.RefreshFires? ==> e.run < |v.runs|
  {
    RunsAre(v, w, me, e, m) && ControllerIs(v, w.c, e, m)
  }

  lemma MountEffects(v: View, me: nat, id: nat, m: Moment)
    requires Ready(v, me)
    ensures Effects(v, v.(c := Start(v.c)), me, Starts, m)
    ensures id in v.c.armed ==> Effects(v, v.(c := Tick(v.c, id)), me, Ticks(id), m)
  {
  }

  lemma LeaveEffects(v: View, me: nat, m: Moment)
    requires Ready(v, me)
    ensures Effects(v, Dispose(v), me, Disposes, m)
  {
  }

  lemma CheckedEffects(v: View, me: nat, epoch: nat, ok: bool, m: Moment)
    requires Ready(v, me) && (epoch == v.c.epoch ==> v.c.active)
    ensures Effects(v, Available(v, me, epoch, ok, m), me, Checked(epoch, ok), m)
  {
  }

  lemma ExplicitRuns(v: View, me: nat, m: Moment)
    requires Ready(v, me)
    ensures RunsAre(v, StartExplicit(v, me), me, AsksExplicit, m)
  {
  }

  lemma ExplicitController(v: View, me: nat, m: Moment)
    requires Ready(v, me)
    ensures ControllerIs(v, StartExplicit(v, me).c, AsksExplicit, m)
  {
  }

  lemma ExplicitEffects(v: View, me: nat, m: Moment)
    requires Ready(v, me)
    ensures Effects(v, StartExplicit(v, me), me, AsksExplicit, m)
  {
    ExplicitRuns(v, me, m);
    ExplicitController(v, me, m);
  }

  lemma PasswordRuns(v: View, me: nat, m: Moment)
    requires Ready(v, me)
    ensures RunsAre(v, StartPassword(v), me, AsksPassword, m)
  {
  }

  lemma PasswordController(v: View, me: nat, m: Moment)
    requires Ready(v, me)
    ensures ControllerIs(v, StartPassword(v).c, AsksPassword, m)
  {
  }

  lemma PasswordEffects(v: View, me: nat, m: Moment)
    requires Ready(v, me)
    ensures Effects(v, StartPassword(v), me, AsksPassword, m)
  {
    PasswordRuns(v, me, m);
    PasswordController(v, me, m);
  }

  lemma PasswordEndEffects(v: View, me: nat, outcome: Outcome, m: Moment)
    requires Ready(v, me)
    ensures Effects(v, v.(c := EndPassword(v.c, outcome, m)), me, PasswordEnds(outcome), m)
  {
  }

  lemma VisibleEffects(v: View, me: nat, m: Moment)
    requires Ready(v, me)
    ensures Effects(v, v.(c := Visible(v.c, m)), me, BecomesVisible, m)
  {
  }

  lemma ScheduledEffects(v: View, me: nat, m: Moment)
    requires Ready(v, me)
    ensures Effects(v, Scheduled(v, me, m), me, ScheduleFires, m)
  {
  }

  lemma RefreshEffects(v: View, me: nat, r: nat, m: Moment)
    requires Ready(v, me) && At(v.runs, r, me) && RunOk(v.c, v.runs[r], r) && v.runs[r].refresh
    ensures Effects(v, RefreshDue(v, r, m), me, RefreshFires(r), m)
  {
  }

  lemma PageEffects(v: View, me: nat, e: Event, m: Moment)
    requires Mine(v, me) && Enabled(v, me, e) && !OfRun(e)
    ensures Effects(v, PageStep(v, me, e, m), me, e, m)
  {
    assert Ready(v, me);
    match e
    case Starts => MountEffects(v, me, 0, m);
    case Disposes => LeaveEffects(v, me, m);
    case Ticks(id) => MountEffects(v, me, id, m);
    case Checked(epoch, ok) => CheckedEffects(v, me, epoch, ok, m);
    case AsksExplicit => ExplicitEffects(v, me, m);
    case AsksPassword => PasswordEffects(v, me, m);
    case PasswordEnds(outcome) => PasswordEndEffects(v, me, outcome, m);
    case BecomesVisible => VisibleEffects(v, me, m);
    case ScheduleFires => ScheduledEffects(v, me, m);
    case RefreshFires(r) => RefreshEffects(v, me, r, m);
  }

  lemma FailRuns(v: View, me: nat, r: nat, f: Failure, m: Moment)
    requires Ready(v, me) && At(v.runs, r, me)
    ensures RunsAre(v, Fail(v, r, f, m), me, Fails(r, f), m)
  {
  }

  lemma FailController(v: View, me: nat, r: nat, f: Failure, m: Moment)
    requires Ready(v, me) && At(v.runs, r, me)
    ensures ControllerIs(v, Fail(v, r, f, m).c, Fails(r, f), m)
  {
    if v.c.current == Some(r) { FailureAsks(v.c.(current := None, phase := Idle), v.runs[r].kind, f, m); }
  }

  lemma FailEffects(v: View, me: nat, r: nat, f: Failure, m: Moment)
    requires Ready(v, me) && At(v.runs, r, me)
    ensures Effects(v, Fail(v, r, f, m), me, Fails(r, f), m)
  {
    FailRuns(v, me, r, f, m);
    FailController(v, me, r, f, m);
  }

  lemma LimitRuns(v: View, me: nat, r: nat, m: Moment)
    requires Ready(v, me) && At(v.runs, r, me)
    ensures RunsAre(v, Fail(v, r, Unexpected, m), me, WaitHitsLimit(r), m)
  {
  }

  lemma LimitController(v: View, me: nat, r: nat, m: Moment)
    requires Ready(v, me) && At(v.runs, r, me)
    ensures ControllerIs(v, Fail(v, r, Unexpected, m).c, WaitHitsLimit(r), m)
  {
    if v.c.current == Some(r) { FailureAsks(v.c.(current := None, phase := Idle), v.runs[r].kind, Unexpected, m); }
  }

  lemma LimitEffects(v: View, me: nat, r: nat, m: Moment)
    requires Ready(v, me) && At(v.runs, r, me)
    ensures Effects(v, Fail(v, r, Unexpected, m), me, WaitHitsLimit(r), m)
  {
    LimitRuns(v, me, r, m);
    LimitController(v, me, r, m);
  }

  /** Where the run's function stands makes no difference to any of this. */
  lemma SameEffects(v: View, w: View, me: nat, e: Event, m: Moment, r: nat, run: Run)
    requires OfRun(e) ==> e.run < |v.runs|
    requires !e.RefreshFires? && !StartsAuto(v.c, e, m) && !StartsButton(v.c, e)
    requires Effects(v, w, me, e, m) && r < |w.runs| && run.aborted == w.runs[r].aborted
    ensures Effects(v, w.(runs := w.runs[r := run]), me, e, m)
  {
  }

  lemma GotRuns(v: View, me: nat, r: nat, m: Moment)
    requires Ready(v, me) && At(v.runs, r, me) && v.runs[r].progress.Getting?
    ensures RunsAre(v, Got(v, r, m), me, BrowserAnswers(r), m)
  {
  }

  /** What the browser's answer leaves of the controller. */
  function AfterGot(v: View, r: nat, m: Moment): Controller
    requires r < |v.runs|
  {
    if v.c.current != Some(r) then v.c
    else if m.now - v.runs[r].begunAt >= 290_000 then Asked(v.c.(current := None, phase := Idle), m)
    else v.c.(phase := Finishing)
  }

  lemma GotLeaves(v: View, me: nat, r: nat, m: Moment)
    requires Ready(v, me) && At(v.runs, r, me) && v.runs[r].progress.Getting?
    ensures Got(v, r, m).c == AfterGot(v, r, m)
  {
    RequestAsks(v.c.(current := None, phase := Idle), m);
  }

  lemma GotController(v: View, me: nat, r: nat, m: Moment)
    requires Ready(v, me) && At(v.runs, r, me) && v.runs[r].progress.Getting?
    ensures ControllerIs(v, AfterGot(v, r, m), BrowserAnswers(r), m)
  {
  }

  lemma GotEffects(v: View, me: nat, r: nat, m: Moment)
    requires Ready(v, me) && At(v.runs, r, me) && v.runs[r].progress.Getting?
    ensures Effects(v, Got(v, r, m), me, BrowserAnswers(r), m)
  {
    GotRuns(v, me, r, m);
    GotLeaves(v, me, r, m);
    GotController(v, me, r, m);
  }

  lemma AnswerEffects(v: View, me: nat, r: nat, m: Moment)
    requires Ready(v, me) && At(v.runs, r, me)
    ensures Effects(v, Waited(v, r), me, WaitEnds(r), m) && Effects(v, Finished(v, r), me, FinishAnswers(r), m)
  {
  }

  lemma BegunEffects(v: View, me: nat, r: nat, token: string, m: Moment)
    requires Ready(v, me) && At(v.runs, r, me)
    ensures Effects(v, Begun(v, r, token, m), me, BeginAnswers(r, token), m)
    ensures Effects(v, Move(v, r, Done), me, Closes(r), m)
  {
  }

  lemma RunEffects(v: View, me: nat, e: Event, m: Moment)
    requires Mine(v, me) && Enabled(v, me, e) && OfRun(e)
    ensures Effects(v, RunStep(v, me, e, m), me, e, m)
  {
    assert Ready(v, me);
    match e
    case WaitEnds(r) => AnswerEffects(v, me, r, m);
    case WaitHitsLimit(r) =>
      LimitEffects(v, me, r, m);
      var w := Fail(v, r, Unexpected, m);
      SameEffects(v, w, me, e, m, r, w.runs[r].(progress := Done, timedOut := true));
    case BeginAnswers(r, token) => BegunEffects(v, me, r, token, m);
    case BrowserAnswers(r) => GotEffects(v, me, r, m);
    case FinishAnswers(r) => AnswerEffects(v, me, r, m);
    case Closes(r) => BegunEffects(v, me, r, "", m);
    case Fails(r, f) =>
      FailEffects(v, me, r, f, m);
      var w := Fail(v, r, f, m);
      SameEffects(v, w, me, e, m, r, w.runs[r].(progress := Done));
  }

  /** Every step of every run has exactly these effects: which run it starts or aborts, whether it enters or leaves the
      password phase, and what it leaves scheduled or wanted. */
  lemma EffectsExactly(worlds: seq<World>, actions: seq<Action>, w: World, who: nat, e: Event, m: Moment)
    requires IsRun(worlds, actions, w) && Possible(w, Acts(who, e, m))
    ensures Effects(Sight(w, who), Sight(Next(w, Acts(who, e, m)), who), who, e, m)
  {
    InvOverRuns(worlds, actions, w);
    var v := Sight(w, who);
    if OfRun(e) { RunEffects(v, who, e, m); } else { PageEffects(v, who, e, m); }
  }

  lemma RefreshAfterRun(v: View, me: nat, e: Event, m: Moment, r: nat)
    requires Ready(v, me) && Enabled(v, me, e) && OfRun(e) && At(v.runs, r, me) && RunOk(v.c, v.runs[r], r)
    ensures var w := RunStep(v, me, e, m);
            r < |w.runs|
            && (w.c.current == Some(r) ==>
                  (w.runs[r].refresh <==>
                     if e.BeginAnswers? && e.run == r then v.runs[r].kind == Auto
                     else v.runs[r].refresh && e != BrowserAnswers(r)))
  {
    RunMovesOne(v, me, e, m);
    var settled := v.c.(current := None, phase := Idle);
    RequestIsCore(settled, m);
    if e.Fails? { AfterFailureIsCore(settled, v.runs[e.run].kind, e.failure, m); }
    if e.WaitHitsLimit? { AfterFailureIsCore(settled, v.runs[e.run].kind, Unexpected, m); }
  }

  lemma RefreshAfterPage(v: View, me: nat, e: Event, m: Moment, r: nat)
    requires Mine(v, me) && Enabled(v, me, e) && !OfRun(e) && At(v.runs, r, me)
    ensures var w := PageStep(v, me, e, m);
            r < |w.runs|
            && (w.c.current == Some(r) ==> (w.runs[r].refresh <==> v.runs[r].refresh && e != RefreshFires(r)))
  {
  }

  lemma RefreshStep(v: View, me: nat, e: Event, m: Moment, r: nat)
    requires Mine(v, me) && Enabled(v, me, e) && At(v.runs, r, me)
    ensures var w := Step(v, me, e, m);
            r < |w.runs|
            && (w.runs[r].refresh <==>
                  && w.c.current == Some(r)
                  && (if e.BeginAnswers? && e.run == r then v.runs[r].kind == Auto
                      else v.runs[r].refresh && e != RefreshFires(r) && e != BrowserAnswers(r)))
  {
    StepKept(v, me, e, m);
    assert RunOk(v.c, v.runs[r], r);
    var w := Step(v, me, e, m);
    if OfRun(e) { RefreshAfterRun(v, me, e, m, r); } else { RefreshAfterPage(v, me, e, m, r); }
    assert RunOk(w.c, w.runs[r], r);
  }

  /** The renewal of a waiting automatic run: armed when its begin has answered, until it fires, the browser answers or
      the run is given up. */
  lemma RefreshesExactly(worlds: seq<World>, actions: seq<Action>, w: World, who: nat, e: Event, m: Moment, r: nat)
    requires IsRun(worlds, actions, w) && Possible(w, Acts(who, e, m)) && At(w.runs, r, who)
    ensures var n := Next(w, Acts(who, e, m));
            r < |n.runs|
            && (n.runs[r].refresh <==>
                  && n.ctls[who].current == Some(r)
                  && (if e.BeginAnswers? && e.run == r then w.runs[r].kind == Auto
                      else w.runs[r].refresh && e != RefreshFires(r) && e != BrowserAnswers(r)))
  {
    InvOverRuns(worlds, actions, w);
    RefreshStep(Sight(w, who), who, e, m, r);
  }

  // ---------- how close automatic begins come ----------

  ghost function ArmedNow(c: Controller): set<nat> { set id | id in c.armed && c.armed[id] == c.epoch }

  /** Availability checks of the current mount that are still to come. */
  ghost function Pending(c: Controller): nat { |ArmedNow(c)| + c.checking[c.epoch] }

  /** A scheduled run is 5 s away from the last one, and the check that starts the first one comes once a mount. */
  ghost predicate Paced(c: Controller) {
    && (c.scheduleTimer.Some? ==> c.available && c.scheduleTimer.value >= c.lastBeginAt + 5000)
    && Pending(c) <= (if c.active && !c.available then 1 else 0)
  }

  /** The page mounts a controller again only after leaving, and a timer does not fire before its time. */
  predicate OnTime(w: World, a: Action) {
    a.Acts? && a.who < |w.ctls| ==>
      && (a.e.Starts? ==> !w.ctls[a.who].active)
      && (a.e.ScheduleFires? && w.ctls[a.who].scheduleTimer.Some? ==> a.m.now >= w.ctls[a.who].scheduleTimer.value)
  }

  lemma StartPends(c: Controller)
    requires EpochsOk(c) && !c.active
    ensures Pending(Start(c)) == 1 && Pending(c) == 0
  {
    assert ArmedNow(c) == {} && c.epoch !in c.checking;
    assert ArmedNow(Start(c)) == {c.timers};
  }

  lemma TickPends(c: Controller, id: nat)
    requires id in c.armed
    ensures Pending(Tick(c, id)) == Pending(c)
  {
    var d := Tick(c, id);
    assert ArmedNow(d) == ArmedNow(c) - {id};
    assert id in ArmedNow(c) <==> c.armed[id] == c.epoch;
  }

  /** No fewer checks of this mount than before are already answered, and no more timers are armed. */
  lemma FewerPend(c: Controller, d: Controller)
    requires d.epoch == c.epoch && d.checking[d.epoch] <= c.checking[c.epoch]
    requires forall id :: id in d.armed ==> id in c.armed && d.armed[id] == c.armed[id]
    ensures Pending(d) <= Pending(c)
    ensures d.checking[d.epoch] < c.checking[c.epoch] ==> Pending(d) < Pending(c)
  {
    SubsetCard(ArmedNow(d), ArmedNow(c));
  }

  lemma LeavePends(c: Controller)
    requires EpochsOk(c)
    ensures Pending(Deactivated(c)) == 0
  {
    assert ArmedNow(Deactivated(c)) == {};
  }

  /** Apart from mounting and leaving, a step adds no check, and the answer to one takes it away. */
  ghost predicate PendsLess(c: Controller, d: Controller, e: Event) {
    && d.epoch == c.epoch && d.checking[d.epoch] <= c.checking[c.epoch]
    && (forall id :: id in d.armed ==> id in c.armed && d.armed[id] == c.armed[id])
    && (e.Checked? && e.epoch == c.epoch ==> d.checking[d.epoch] < c.checking[c.epoch])
    && (!e.AsksExplicit? && !e.AsksPassword? ==>
          && d.armed == c.armed
          && d.checking[d.epoch] == c.checking[c.epoch] - (if e.Checked? && e.epoch == c.epoch then 1 else 0))
  }

  lemma PageCheckedPends(v: View, me: nat, epoch: nat, ok: bool, m: Moment)
    requires Ranged(v) && epoch in v.c.checking
    ensures PendsLess(v.c, Available(v, me, epoch, ok, m).c, Checked(epoch, ok))
  {
  }

  lemma CallPends(v: View, me: nat)
    requires Ranged(v)
    ensures PendsLess(v.c, StartExplicit(v, me).c, AsksExplicit) && PendsLess(v.c, StartPassword(v).c, AsksPassword)
  {
  }

  lemma PagePends(v: View, me: nat, e: Event, m: Moment)
    requires Mine(v, me) && Enabled(v, me, e) && !OfRun(e) && !e.Starts? && !e.Disposes? && !e.Ticks?
    ensures PendsLess(v.c, PageStep(v, me, e, m).c, e)
  {
    if e.Checked? {
      PageCheckedPends(v, me, e.epoch, e.ok, m);
    } else if e.AsksExplicit? || e.AsksPassword? {
      CallPends(v, me);
    }
  }

  lemma RunPends(v: View, me: nat, e: Event, m: Moment)
    requires Enabled(v, me, e) && OfRun(e)
    ensures PendsLess(v.c, RunStep(v, me, e, m).c, e)
  {
    var settled := v.c.(current := None, phase := Idle);
    RequestIsCore(settled, m);
    if e.Fails? { AfterFailureIsCore(settled, v.runs[e.run].kind, e.failure, m); }
    if e.WaitHitsLimit? { AfterFailureIsCore(settled, v.runs[e.run].kind, Unexpected, m); }
  }

  lemma PendingRest(v: View, me: nat, e: Event, m: Moment)
    requires Mine(v, me) && Enabled(v, me, e) && Paced(v.c) && !e.Starts? && !e.Disposes? && !e.Ticks?
    ensures var d := Step(v, me, e, m).c; Pending(d) <= (if d.active && !d.available then 1 else 0)
  {
    var d := Step(v, me, e, m).c;
    if OfRun(e) {
      RunEffects(v, me, e, m);
      RunPends(v, me, e, m);
    } else {
      PageEffects(v, me, e, m);
      PagePends(v, me, e, m);
    }
    assert MountIs(v.c, d, e);
    FewerPend(v.c, d);
  }

  lemma PacedStep(v: View, me: nat, e: Event, m: Moment)
    requires Mine(v, me) && Enabled(v, me, e) && Paced(v.c) && (e.Starts? ==> !v.c.active)
    ensures Paced(Step(v, me, e, m).c)
  {
    if OfRun(e) { RunEffects(v, me, e, m); } else { PageEffects(v, me, e, m); }
    if e.Starts? || e.Disposes? || e.Ticks? { MountChecks(v, me, e, m); } else { PendingRest(v, me, e, m); }
    if e.Checked? && e.epoch == v.c.epoch { assert v.c.checking[v.c.epoch] >= 1; }
  }

  lemma MountChecks(v: View, me: nat, e: Event, m: Moment)
    requires Mine(v, me) && Enabled(v, me, e) && (e.Starts? ==> !v.c.active)
    requires e.Starts? || e.Disposes? || e.Ticks?
    ensures Pending(PageStep(v, me, e, m).c) == if e.Starts? then 1 else if e.Disposes? then 0 else Pending(v.c)
  {
    match e
    case Starts => StartPends(v.c);
    case Disposes =>
      LeavePends(v.c);
      assert ArmedNow(Dispose(v).c) == ArmedNow(Deactivated(v.c));
    case Ticks(id) => TickPends(v.c, id);
  }

  lemma RestChecks(v: View, me: nat, e: Event, m: Moment)
    requires Mine(v, me) && Enabled(v, me, e)
    requires !e.Starts? && !e.Disposes? && !e.Ticks? && !e.AsksExplicit? && !e.AsksPassword?
    ensures Pending(Step(v, me, e, m).c) == Pending(v.c) - (if e.Checked? && e.epoch == v.c.epoch then 1 else 0)
  {
    if OfRun(e) { RunPends(v, me, e, m); } else { PagePends(v, me, e, m); }
    assert ArmedNow(Step(v, me, e, m).c) == ArmedNow(v.c);
  }

  /** Mounting brings one availability check, which its answer or leaving takes away, and nothing else does but a
      ceremony that begins before the check does. */
  lemma ChecksExactly(worlds: seq<World>, actions: seq<Action>, w: World, who: nat, e: Event, m: Moment)
    requires IsRun(worlds, actions, w) && Possible(w, Acts(who, e, m)) && OnTime(w, Acts(who, e, m))
    requires !e.AsksExplicit? && !e.AsksPassword?
    ensures var c, d := w.ctls[who], Next(w, Acts(who, e, m)).ctls[who];
            Pending(d) ==
            if e.Starts? then 1
            else if e.Disposes? then 0
            else Pending(c) - (if e.Checked? && e.epoch == c.epoch then 1 else 0)
  {
    InvOverRuns(worlds, actions, w);
    var v := Sight(w, who);
    if e.Starts? || e.Disposes? || e.Ticks? { MountChecks(v, who, e, m); } else { RestChecks(v, who, e, m); }
  }

  ghost predicate OnTimeAt(worlds: seq<World>, actions: seq<Action>, i: nat) {
    i < |worlds| && i < |actions| && OnTime(worlds[i], actions[i])
  }

  ghost predicate AllOnTime(worlds: seq<World>, actions: seq<Action>) {
    forall i :: 0 <= i < |actions| ==> OnTimeAt(worlds, actions, i)
  }

  lemma {:induction false} PacedUpTo(worlds: seq<World>, actions: seq<Action>, w: World, n: nat)
    requires IsRun(worlds, actions, w) && AllOnTime(worlds, actions) && n <= |actions|
    ensures forall who :: 0 <= who < |worlds[n].ctls| ==> Paced(worlds[n].ctls[who])
  {
    if n > 0 {
      PacedUpTo(worlds, actions, w, n - 1);
      InvUpTo(worlds, actions, w, n - 1);
      var a := actions[n - 1];
      assert OnTimeAt(worlds, actions, n - 1);
      if a.Acts? {
        PacedStep(Sight(worlds[n - 1], a.who), a.who, a.e, a.m);
      } else {
        assert ArmedNow(NewController) == {};
      }
    }
  }

  /** An automatic begin comes at least 5 s after the controller's last one, unless it is the first since the controller
      was mounted (whose availability was not known before). */
  lemma AutomaticBeginsSpaced(worlds: seq<World>, actions: seq<Action>, w: World, who: nat, e: Event, m: Moment)
    requires IsRun(worlds, actions, w) && AllOnTime(worlds, actions)
    requires Possible(w, Acts(who, e, m)) && OnTime(w, Acts(who, e, m)) && StartsAuto(w.ctls[who], e, m)
    ensures if w.ctls[who].available then m.now >= w.ctls[who].lastBeginAt + 5000 else e.Checked?
  {
    PacedUpTo(worlds, actions, w, |actions|);
    assert Paced(w.ctls[who]);
    if e.Checked? { InvOverRuns(worlds, actions, w); }
  }

  const NOW := Moment(0, false)

  /** A controller whose page is shown is mounted, and its availability check is answered. */
  lemma Mounted(worlds: seq<World>, actions: seq<Action>, w: World)
    returns (longer: seq<World>, more: seq<Action>, n: World)
    requires IsRun(worlds, actions, w) && AllOnTime(worlds, actions) && |w.ctls| == 1
    requires var c := w.ctls[0];
             && !c.active && c.armed == map[] && c.checking == multiset{} && c.phase == Idle && c.current == None
             && c.autoBegins < 10
    ensures IsRun(longer, more, n) && AllOnTime(longer, more) && |n.ctls| == 1
    ensures n.ctls[0] == w.ctls[0].(active := true, startTimer := None, checking := multiset{w.ctls[0].epoch},
                                    timers := w.ctls[0].timers + 1)
    ensures n.runs == w.runs && n.log == w.log
  {
    var c := w.ctls[0];
    longer, more, n := ThenOnTime(worlds, actions, w, Acts(0, Starts, NOW));
    longer, more, n := ThenOnTime(longer, more, n, Acts(0, Ticks(c.timers), NOW));
    assert n.ctls[0].armed == map[];
  }

  lemma ThenOnTime(worlds: seq<World>, actions: seq<Action>, w: World, a: Action)
    returns (longer: seq<World>, more: seq<Action>, n: World)
    requires IsRun(worlds, actions, w) && AllOnTime(worlds, actions) && Possible(w, a) && OnTime(w, a)
    ensures n == Next(w, a) && IsRun(longer, more, n) && AllOnTime(longer, more)
  {
    longer, more, n := Then(worlds, actions, w, a);
    forall i | 0 <= i < |more| ensures OnTimeAt(longer, more, i) {
      if i < |actions| { assert OnTimeAt(worlds, actions, i); }
    }
  }

  lemma FirstAuto(c: Controller)
    requires c == NewController.(active := true, checking := multiset{0}, timers := 1)
    ensures Available(View(c, [], []), 0, 0, true, NOW) ==
            View(c.(checking := multiset{}, available := true, phase := Conditional, current := Some(0),
                    autoBegins := 1),
                 [NewRun(0, Auto)], [])
  {
    assert c.checking - multiset{0} == multiset{};
  }

  /** A controller that has just begun its first automatic run. */
  lemma BegunAtOnce() returns (worlds: seq<World>, actions: seq<Action>, w: World)
    ensures IsRun(worlds, actions, w) && AllOnTime(worlds, actions)
    ensures w.ctls == [NewController.(active := true, available := true, phase := Conditional, current := Some(0),
                                      autoBegins := 1, timers := 1)]
    ensures w.runs == [NewRun(0, Auto)]
  {
    worlds, actions, w := [World([], [], [])], [], World([], [], []);
    worlds, actions, w := ThenOnTime(worlds, actions, w, Mounts);
    worlds, actions, w := Mounted(worlds, actions, w);
    var c := NewController.(active := true, checking := multiset{0}, timers := 1);
    assert w == World([c], [], []);
    FirstAuto(c);
    worlds, actions, w := ThenOnTime(worlds, actions, w, Acts(0, Checked(0, true), NOW));
  }

  /** Leaving and mounting again brings a second automatic begin at the instant of the first. */
  lemma RemountedBeginsAtOnce() returns (worlds: seq<World>, actions: seq<Action>, w: World)
    ensures IsRun(worlds, actions, w) && AllOnTime(worlds, actions) && |w.ctls| == 1
    ensures Possible(w, Acts(0, Checked(1, true), NOW)) && StartsAuto(w.ctls[0], Checked(1, true), NOW)
    ensures w.ctls[0].autoBegins == 1 && w.ctls[0].lastBeginAt == NOW.now
  {
    worlds, actions, w := BegunAtOnce();
    worlds, actions, w := ThenOnTime(worlds, actions, w, Acts(0, Disposes, NOW));
    worlds, actions, w := Mounted(worlds, actions, w);
    assert 1 in w.ctls[0].checking;
  }
}
