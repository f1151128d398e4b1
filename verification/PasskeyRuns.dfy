/** What any number of login controllers of one page keep, whatever the order of calls, timers, visibility changes and
    answers. Timers and the 4 s limit may fire at any moment while armed. */
module PasskeyRuns {
  import opened Wrappers
  import opened PasskeyModel
  import opened Sets

  datatype Event =
    | Starts | Disposes | Ticks(id: nat) | Checked(epoch: nat, ok: bool) | AsksExplicit | AsksPassword
    | PasswordEnds(outcome: Outcome) | BecomesVisible | ScheduleFires | RefreshFires(run: nat)
    | WaitEnds(run: nat) | WaitHitsLimit(run: nat) | BeginAnswers(run: nat, token: string) | BrowserAnswers(run: nat)
    | FinishAnswers(run: nat) | Closes(run: nat) | Fails(run: nat, failure: Failure)

  predicate At(runs: seq<Run>, r: nat, me: nat) { r < |runs| && runs[r].owner == me }

  predicate Enabled(v: View, me: nat, e: Event) {
    match e
    case Ticks(id) => id in v.c.armed
    case Checked(epoch, ok) => epoch in v.c.checking
    case BecomesVisible => v.c.active
    case ScheduleFires => v.c.scheduleTimer.Some?
    case RefreshFires(r) => At(v.runs, r, me) && v.runs[r].refresh
    case WaitEnds(r) => At(v.runs, r, me) && v.runs[r].progress == Waiting && (r > 0 ==> v.runs[r - 1].progress == Done)
    case WaitHitsLimit(r) => At(v.runs, r, me) && v.runs[r].progress == Waiting
    case BeginAnswers(r, token) => At(v.runs, r, me) && v.runs[r].progress == Beginning
    case BrowserAnswers(r) => At(v.runs, r, me) && v.runs[r].progress.Getting?
    case FinishAnswers(r) => At(v.runs, r, me) && v.runs[r].progress == Sending
    case Closes(r) => At(v.runs, r, me) && v.runs[r].progress == Closing
    case Fails(r, f) =>
      At(v.runs, r, me)
      && (v.runs[r].progress == Beginning || v.runs[r].progress.Getting? || v.runs[r].progress == Sending)
    case _ => true
  }

  /** The continuations of a run. */
  predicate OfRun(e: Event) {
    e.WaitEnds? || e.WaitHitsLimit? || e.BeginAnswers? || e.BrowserAnswers? || e.FinishAnswers? || e.Closes? || e.Fails?
  }

  function PageStep(v: View, me: nat, e: Event, m: Moment): View
    requires Ranged(v) && Enabled(v, me, e) && !OfRun(e)
  {
    match e
    case Starts => v.(c := Start(v.c))
    case Disposes => Dispose(v)
    case Ticks(id) => v.(c := Tick(v.c, id))
    case Checked(epoch, ok) => Available(v, me, epoch, ok, m)
    case AsksExplicit => StartExplicit(v, me)
    case AsksPassword => StartPassword(v)
    case PasswordEnds(outcome) => v.(c := EndPassword(v.c, outcome, m))
    case BecomesVisible => v.(c := Visible(v.c, m))
    case ScheduleFires => Scheduled(v, me, m)
    case RefreshFires(r) => RefreshDue(v, r, m)
  }

  function RunStep(v: View, me: nat, e: Event, m: Moment): View
    requires Enabled(v, me, e) && OfRun(e)
  {
    match e
    case WaitEnds(r) => Waited(v, r)
    case WaitHitsLimit(r) => WaitTimedOut(v, r, m)
    case BeginAnswers(r, token) => Begun(v, r, token, m)
    case BrowserAnswers(r) => Got(v, r, m)
    case FinishAnswers(r) => Finished(v, r)
    case Closes(r) => Move(v, r, Done)
    case Fails(r, f) => Rejected(v, r, f, m)
  }

  function Step(v: View, me: nat, e: Event, m: Moment): View
    requires Ranged(v) && Enabled(v, me, e)
  {
    if OfRun(e) then RunStep(v, me, e, m) else PageStep(v, me, e, m)
  }

  // ---------- what one controller keeps ----------

  /** The phase and the current run go together. */
  ghost predicate Lockstep(v: View, me: nat) {
    match v.c.current
    case None => v.c.phase == Idle || v.c.phase == Password
    case Some(r) =>
      && At(v.runs, r, me)
      && v.c.phase == (if v.runs[r].stage == Finish then Finishing
                       else if v.runs[r].kind == Auto then Conditional
                       else Explicit)
      && (v.runs[r].kind == Auto ==> v.c.active)
  }

  /** Every run of the controller is exactly one of current, aborted and settled; what it has done matches where its
      function stands; its refresh timer is armed only while it waits for the browser as the current run. */
  ghost predicate RunOk(c: Controller, run: Run, i: nat) {
    && (c.current == Some(i) <==> !run.aborted && !run.settled)
    && !(run.aborted && run.settled)
    && (run.refresh ==> c.current == Some(i) && run.kind == Auto && run.stage == Get)
    && (run.progress == Waiting || run.progress == Beginning ==> run.stage == Begin)
    && (run.stage == Begin <==> run.token == None)
    && (run.progress.Getting? ==> run.stage == Get && run.token == Some(run.progress.token))
    && (run.progress == Sending ==> run.stage == Finish)
    && (run.settled ==> run.progress == Closing || run.progress == Done)
    && (c.current == Some(i) && (run.progress == Closing || run.progress == Done) ==> run.stage == Finish)
    && (c.current == Some(i) && run.stage == Finish ==>
       run.progress == Sending || run.progress == Closing || run.progress == Done)
    && (run.timedOut ==> run.progress == Done)
  }

  ghost predicate EpochsOk(c: Controller) {
    && (c.available ==> c.active)
    && (forall id :: id in c.armed ==> c.armed[id] <= c.epoch && (c.armed[id] == c.epoch ==> c.active))
    && (forall e :: e in c.checking ==> e <= c.epoch && (e == c.epoch ==> c.active))
  }

  /** The controller's automatic runs. */
  ghost function Autos(runs: seq<Run>, me: nat): set<nat> {
    set i: nat | i < |runs| && runs[i].owner == me && runs[i].kind == Auto
  }

  ghost predicate Mine(v: View, me: nat) {
    && Lockstep(v, me)
    && EpochsOk(v.c)
    && v.c.autoBegins <= CONDITIONAL_MAX_BEGINS
    && |Autos(v.runs, me)| == v.c.autoBegins
    && (forall i: nat :: i < |v.runs| && v.runs[i].owner == me ==> RunOk(v.c, v.runs[i], i))
  }

  /** How a run may change: its history only grows. */
  ghost predicate Evolves(a: Run, b: Run) {
    && b.owner == a.owner && b.kind == a.kind
    && (b.progress == Waiting ==> a.progress == Waiting)
    && (a.progress == Done ==> b.progress == Done)
    && (a.token.Some? ==> b.token == a.token && b.begunAt == a.begunAt)
    && (a.stage == Finish ==> b.stage == Finish)
    && (a.aborted ==> b.aborted)
    && (a.timedOut ==> b.timedOut)
  }

  /** A step of `me` leaves the others' runs alone, lets its own evolve and adds only its own at the end. */
  ghost predicate Frame(runs: seq<Run>, next: seq<Run>, me: nat) {
    && |runs| <= |next|
    && (forall i :: 0 <= i < |runs| ==> Evolves(runs[i], next[i]) && (runs[i].owner != me ==> next[i] == runs[i]))
    && (forall i :: |runs| <= i < |next| ==> next[i] == NewRun(me, next[i].kind))
  }

  /** The same controller but for what only asks for a later begin. */
  ghost predicate SameCore(c: Controller, d: Controller) {
    d == c.(wantStart := d.wantStart, scheduleTimer := d.scheduleTimer, cancelRetried := d.cancelRetried)
  }

  ghost predicate Kept(v: View, w: View, me: nat) { Mine(w, me) && Frame(v.runs, w.runs, me) }

  lemma CoreKept(v: View, d: Controller, me: nat)
    requires Mine(v, me) && SameCore(v.c, d)
    ensures Mine(v.(c := d), me)
  {
  }

  /** Changing one own run that stays of the same kind keeps the count. */
  lemma AutosSame(runs: seq<Run>, r: nat, run: Run, me: nat)
    requires r < |runs| && run.owner == runs[r].owner && run.kind == runs[r].kind
    ensures Autos(runs[r := run], me) == Autos(runs, me)
  {
  }

  lemma AutosGrow(runs: seq<Run>, me: nat, kind: Kind)
    ensures |Autos(runs + [NewRun(me, kind)], me)| == |Autos(runs, me)| + if kind == Auto then 1 else 0
  {
    var more := runs + [NewRun(me, kind)];
    assert Autos(more, me) == if kind == Auto then Autos(runs, me) + {|runs|} else Autos(runs, me);
    assert |runs| !in Autos(runs, me);
  }

  /** Dropping the current run; the phase is not yet changed. */
  ghost predicate Dropped(v: View, d: View, me: nat) {
    && d == View(v.c.(current := None), d.runs, v.log)
    && Frame(v.runs, d.runs, me) && |d.runs| == |v.runs|
    && |Autos(d.runs, me)| == |Autos(v.runs, me)|
    && (forall i: nat :: i < |d.runs| && d.runs[i].owner == me ==> RunOk(d.c, d.runs[i], i))
  }

  lemma DropKept(v: View, me: nat)
    requires Mine(v, me)
    ensures Dropped(v, DropCurrent(v), me)
  {
    if v.c.current.Some? {
      var r := v.c.current.value;
      AutosSame(v.runs, r, v.runs[r].(aborted := true, refresh := false), me);
    }
  }

  lemma EnterKept(v: View, me: nat, kind: Kind)
    requires v.c.current == None && EpochsOk(v.c)
    requires |Autos(v.runs, me)| + (if kind == Auto then 1 else 0) == v.c.autoBegins <= CONDITIONAL_MAX_BEGINS
    requires kind == Auto ==> v.c.active
    requires forall i: nat :: i < |v.runs| && v.runs[i].owner == me ==> RunOk(v.c, v.runs[i], i)
    ensures Kept(v, Enter(v, me, kind), me)
  {
    AutosGrow(v.runs, me, kind);
    var w := Enter(v, me, kind);
    forall i: nat | i < |w.runs| && w.runs[i].owner == me ensures RunOk(w.c, w.runs[i], i) {
      if i < |v.runs| { assert RunOk(v.c, v.runs[i], i); }
    }
  }

  lemma StartConditionalKept(v: View, me: nat, now: int)
    requires Mine(v, me)
    ensures Kept(v, StartConditional(v, me, now), me)
  {
    if MayBeginAlone(v.c) {
      DropKept(v, me);
      var d := DropCurrent(v);
      var e := d.(c := d.c.(wantStart := false, autoBegins := d.c.autoBegins + 1, lastBeginAt := now));
      EnterKept(e, me, Auto);
      FrameChain(v.runs, d.runs, Enter(e, me, Auto).runs, me);
    }
  }

  lemma FrameChain(a: seq<Run>, b: seq<Run>, c: seq<Run>, me: nat)
    requires Frame(a, b, me) && Frame(b, c, me) && |a| == |b|
    ensures Frame(a, c, me)
  {
    forall i | 0 <= i < |a| ensures Evolves(a[i], c[i]) && (a[i].owner != me ==> c[i] == a[i]) {
      assert Evolves(a[i], b[i]) && Evolves(b[i], c[i]);
    }
  }

  lemma ClearKept(v: View, me: nat)
    requires Mine(v, me)
    ensures Mine(v.(c := ClearTimers(v.c)), me)
  {
  }

  lemma DisposeKept(v: View, me: nat)
    requires Mine(v, me)
    ensures Kept(v, Dispose(v), me)
  {
    var d := DropCurrent(v.(c := Deactivated(v.c)));
    DropKept(v, me);
    assert d.runs == DropCurrent(v).runs;
  }

  lemma PasswordKept(v: View, me: nat)
    requires Mine(v, me)
    ensures Kept(v, StartPassword(v), me)
  {
    if Open(v.c) {
      ClearKept(v, me);
      DropKept(v.(c := ClearTimers(v.c)), me);
    }
  }

  lemma ExplicitKept(v: View, me: nat)
    requires Mine(v, me)
    ensures Kept(v, StartExplicit(v, me), me)
  {
    if Open(v.c) {
      ClearKept(v, me);
      DropKept(v.(c := ClearTimers(v.c)), me);
      var d := DropCurrent(v.(c := ClearTimers(v.c)));
      EnterKept(d, me, Button);
      FrameChain(v.runs, d.runs, Enter(d, me, Button).runs, me);
    }
  }

  lemma AvailableKept(v: View, me: nat, epoch: nat, ok: bool, m: Moment)
    requires Mine(v, me) && epoch in v.c.checking
    ensures Kept(v, Available(v, me, epoch, ok, m), me)
  {
    var c := v.c.(checking := v.c.checking - multiset{epoch});
    assert Mine(v.(c := c), me);
    if epoch == c.epoch && ok && !m.hidden {
      StartConditionalKept(v.(c := c.(available := true)), me, m.now);
    }
  }

  lemma RequestIsCore(c: Controller, m: Moment)
    ensures SameCore(c, RequestConditional(c, m))
  {
  }

  lemma AfterFailureIsCore(c: Controller, kind: Kind, f: Failure, m: Moment)
    ensures SameCore(c, AfterFailure(c, kind, f, m))
  {
  }

  lemma PasswordEndKept(v: View, me: nat, outcome: Outcome, m: Moment)
    requires Mine(v, me)
    ensures Mine(v.(c := EndPassword(v.c, outcome, m)), me)
  {
    if v.c.phase == Password {
      var idle := v.(c := v.c.(phase := Idle));
      assert Mine(idle, me);
      RequestIsCore(idle.c, m);
      CoreKept(idle, RequestConditional(idle.c, m), me);
    }
  }

  lemma RefreshKept(v: View, me: nat, r: nat, m: Moment)
    requires Mine(v, me) && At(v.runs, r, me) && v.runs[r].refresh
    ensures Kept(v, RefreshDue(v, r, m), me)
  {
    assert RunOk(v.c, v.runs[r], r);
    var run := v.runs[r].(refresh := false);
    var f := v.(runs := v.runs[r := run]);
    AutosSame(v.runs, r, run, me);
    assert Mine(f, me);
    DropKept(f, me);
    RequestIsCore(f.c, m);
    CoreKept(f, RequestConditional(f.c, m), me);
    if v.c.autoBegins >= CONDITIONAL_MAX_BEGINS { FrameChain(v.runs, f.runs, DropCurrent(f).runs, me); }
  }

  // ---------- the continuations keep it ----------

  /** Changing one own run, when the controller stays the same up to what RunOk reads. */
  lemma OneRunKept(v: View, c: Controller, r: nat, run: Run, log: seq<Entry>, me: nat)
    requires Mine(v, me) && At(v.runs, r, me) && Evolves(v.runs[r], run)
    requires c.current == v.c.current || (v.c.current == Some(r) && c.current == None)
    requires RunOk(c, run, r) && EpochsOk(c) && c.autoBegins == v.c.autoBegins
    requires Lockstep(View(c, v.runs[r := run], log), me)
    ensures Kept(v, View(c, v.runs[r := run], log), me)
  {
    AutosSame(v.runs, r, run, me);
    var runs := v.runs[r := run];
    forall i: nat | i < |runs| && runs[i].owner == me ensures RunOk(c, runs[i], i) {
      if i != r { assert RunOk(v.c, v.runs[i], i); }
    }
  }

  /** A failure settles the current run; the run then ends. */
  lemma FailKept(v: View, r: nat, f: Failure, m: Moment, limit: bool, me: nat)
    requires Mine(v, me) && At(v.runs, r, me) && v.runs[r].progress != Closing && v.runs[r].progress != Done
    ensures var w := Fail(v, r, f, m);
            Kept(v, w.(runs := w.runs[r := w.runs[r].(progress := Done, timedOut := limit)]), me)
  {
    assert RunOk(v.c, v.runs[r], r);
    if v.c.current == Some(r) {
      var run := v.runs[r].(refresh := false, settled := true, progress := Done, timedOut := limit);
      var c := v.c.(current := None, phase := Idle);
      var w := Fail(v, r, f, m);
      AfterFailureIsCore(c, v.runs[r].kind, f, m);
      OneRunKept(v, w.c, r, run, w.log, me);
      assert w.runs[r := w.runs[r].(progress := Done, timedOut := limit)] == v.runs[r := run];
    } else {
      OneRunKept(v, v.c, r, v.runs[r].(progress := Done, timedOut := limit), v.log, me);
    }
  }

  lemma WaitedKept(v: View, r: nat, me: nat)
    requires Mine(v, me) && At(v.runs, r, me) && v.runs[r].progress == Waiting
    ensures Kept(v, Waited(v, r), me)
  {
    assert RunOk(v.c, v.runs[r], r);
    var w := Waited(v, r);
    OneRunKept(v, v.c, r, v.runs[r].(progress := if IsCurrent(v, r) then Beginning else Done), w.log, me);
  }

  lemma BegunKept(v: View, r: nat, token: string, m: Moment, me: nat)
    requires Mine(v, me) && At(v.runs, r, me) && v.runs[r].progress == Beginning
    ensures Kept(v, Begun(v, r, token, m), me)
  {
    assert RunOk(v.c, v.runs[r], r);
    var w := Begun(v, r, token, m);
    OneRunKept(v, v.c, r, w.runs[r], w.log, me);
  }

  lemma GotKept(v: View, r: nat, m: Moment, me: nat)
    requires Mine(v, me) && At(v.runs, r, me) && v.runs[r].progress.Getting?
    ensures Kept(v, Got(v, r, m), me)
  {
    assert RunOk(v.c, v.runs[r], r);
    var w := Got(v, r, m);
    RequestIsCore(v.c.(current := None, phase := Idle), m);
    assert w.runs == v.runs[r := w.runs[r]];
    OneRunKept(v, w.c, r, w.runs[r], w.log, me);
  }

  lemma MoveKept(v: View, r: nat, to: Progress, log: seq<Entry>, me: nat)
    requires Mine(v, me) && At(v.runs, r, me)
    requires (v.runs[r].progress == Sending && to == Closing) || (v.runs[r].progress == Closing && to == Done)
    ensures Kept(v, Move(v, r, to).(log := log), me)
  {
    assert RunOk(v.c, v.runs[r], r);
    OneRunKept(v, v.c, r, v.runs[r].(progress := to), log, me);
  }

  lemma StartKept(v: View, me: nat)
    requires Mine(v, me)
    ensures Mine(v.(c := Start(v.c)), me)
  {
  }

  lemma TickKept(v: View, me: nat, id: nat)
    requires Mine(v, me) && id in v.c.armed
    ensures Mine(v.(c := Tick(v.c, id)), me)
  {
  }

  lemma PageKept(v: View, me: nat, e: Event, m: Moment)
    requires Mine(v, me) && Enabled(v, me, e) && !OfRun(e)
    ensures Kept(v, PageStep(v, me, e, m), me)
  {
    match e
    case Starts => StartKept(v, me);
    case Disposes => DisposeKept(v, me);
    case Ticks(id) => TickKept(v, me, id);
    case Checked(epoch, ok) => AvailableKept(v, me, epoch, ok, m);
    case AsksExplicit => ExplicitKept(v, me);
    case AsksPassword => PasswordKept(v, me);
    case PasswordEnds(outcome) => PasswordEndKept(v, me, outcome, m);
    case BecomesVisible =>
      RequestIsCore(v.c.(wantStart := false), m);
      CoreKept(v, Visible(v.c, m), me);
    case ScheduleFires =>
      CoreKept(v, v.c.(scheduleTimer := None), me);
      StartConditionalKept(v.(c := v.c.(scheduleTimer := None)), me, m.now);
    case RefreshFires(r) => RefreshKept(v, me, r, m);
  }

  lemma RunKept(v: View, me: nat, e: Event, m: Moment)
    requires Mine(v, me) && Enabled(v, me, e) && OfRun(e)
    ensures Kept(v, RunStep(v, me, e, m), me)
  {
    match e
    case WaitEnds(r) => WaitedKept(v, r, me);
    case WaitHitsLimit(r) => FailKept(v, r, Unexpected, m, true, me);
    case BeginAnswers(r, token) => BegunKept(v, r, token, m, me);
    case BrowserAnswers(r) => GotKept(v, r, m, me);
    case FinishAnswers(r) => MoveKept(v, r, Closing, Finished(v, r).log, me);
    case Closes(r) => MoveKept(v, r, Done, v.log, me);
    case Fails(r, f) =>
      assert RunOk(v.c, v.runs[r], r);
      FailKept(v, r, f, m, false, me);
  }

  /** Every event keeps what one controller keeps. */
  lemma StepKept(v: View, me: nat, e: Event, m: Moment)
    requires Mine(v, me) && Enabled(v, me, e)
    ensures Kept(v, Step(v, me, e, m), me)
  {
    if OfRun(e) { RunKept(v, me, e, m); } else { PageKept(v, me, e, m); }
  }

  /** Runs move no further and nothing is recorded; new runs wait. */
  ghost predicate Still(v: View, w: View) {
    && w.log == v.log && |v.runs| <= |w.runs|
    && (forall i :: 0 <= i < |v.runs| ==>
          w.runs[i].progress == v.runs[i].progress && w.runs[i].timedOut == v.runs[i].timedOut)
    && (forall i :: |v.runs| <= i < |w.runs| ==> w.runs[i].progress == Waiting)
  }

  lemma StartConditionalStill(v: View, me: nat, now: int)
    requires Ranged(v)
    ensures Still(v, StartConditional(v, me, now))
  {
  }

  lemma AvailableStill(v: View, me: nat, epoch: nat, ok: bool, m: Moment)
    requires Ranged(v)
    ensures Still(v, Available(v, me, epoch, ok, m))
  {
    StartConditionalStill(v.(c := v.c.(checking := v.c.checking - multiset{epoch}, available := true)), me, m.now);
  }

  lemma CallsStill(v: View, me: nat)
    requires Ranged(v)
    ensures Still(v, Dispose(v)) && Still(v, StartPassword(v)) && Still(v, StartExplicit(v, me))
  {
  }

  lemma RefreshStill(v: View, r: nat, m: Moment)
    requires Ranged(v) && r < |v.runs|
    ensures Still(v, RefreshDue(v, r, m))
  {
  }

  lemma PageMovesNothing(v: View, me: nat, e: Event, m: Moment)
    requires Mine(v, me) && Enabled(v, me, e) && !OfRun(e)
    ensures Still(v, PageStep(v, me, e, m))
  {
    match e
    case Checked(epoch, ok) => AvailableStill(v, me, epoch, ok, m);
    case ScheduleFires => StartConditionalStill(v.(c := v.c.(scheduleTimer := None)), me, m.now);
    case Disposes => CallsStill(v, me);
    case AsksPassword => CallsStill(v, me);
    case AsksExplicit => CallsStill(v, me);
    case RefreshFires(r) => RefreshStill(v, r, m);
    case _ =>
  }

  /** Only run r changes; it leaves the wait, marked if at the limit. */
  ghost predicate MovesOne(v: View, w: View, r: nat, limit: bool)
    requires r < |v.runs|
  {
    && |w.runs| == |v.runs| && (forall i :: 0 <= i < |v.runs| && i != r ==> w.runs[i] == v.runs[i])
    && w.runs[r].progress != Waiting && (w.runs[r].timedOut <==> v.runs[r].timedOut || limit)
  }

  lemma FailMovesOne(v: View, r: nat, f: Failure, m: Moment)
    requires r < |v.runs|
    ensures MovesOne(v, Rejected(v, r, f, m), r, false) && MovesOne(v, WaitTimedOut(v, r, m), r, true)
  {
  }

  lemma GotMovesOne(v: View, r: nat, m: Moment)
    requires r < |v.runs| && v.runs[r].progress.Getting?
    ensures MovesOne(v, Got(v, r, m), r, false)
  {
  }

  /** A continuation changes its own run only. */
  lemma RunMovesOne(v: View, me: nat, e: Event, m: Moment)
    requires Enabled(v, me, e) && OfRun(e)
    ensures MovesOne(v, RunStep(v, me, e, m), e.run, e.WaitHitsLimit?)
  {
    match e
    case WaitHitsLimit(r) => FailMovesOne(v, r, Unexpected, m);
    case Fails(r, f) => FailMovesOne(v, r, f, m);
    case BrowserAnswers(r) => GotMovesOne(v, r, m);
    case _ =>
  }

  // ---------- what the runs make happen ----------

  /** An entry the runs account for; a finish carries the token of its own begin, less than 290 s after it. */
  ghost predicate Accounted(runs: seq<Run>, e: Entry) {
    && e.run < |runs|
    && (e.BeginSent? ==> runs[e.run].progress != Waiting)
    && (e.GetCalled? ==> runs[e.run].token.Some?)
    && (e.FinishSent? ==> runs[e.run].stage == Finish && runs[e.run].token == Some(e.token)
                          && e.at - runs[e.run].begunAt < CHALLENGE_MAX_AGE_MS)
  }

  predicate Request(e: Entry) { e.BeginSent? || e.GetCalled? || e.FinishSent? }

  predicate SameRequest(e: Entry, f: Entry) {
    e.run == f.run && ((e.BeginSent? && f.BeginSent?) || (e.GetCalled? && f.GetCalled?)
        || (e.FinishSent? && f.FinishSent?))
  }

  ghost predicate LogOk(runs: seq<Run>, log: seq<Entry>) {
    && (forall k :: 0 <= k < |log| ==> Accounted(runs, log[k]))
    && (forall j, k :: 0 <= j < k < |log| ==> !SameRequest(log[j], log[k]))
  }

  /** The run has not asked this yet. */
  ghost predicate NotYet(runs: seq<Run>, e: Entry) {
    && e.run < |runs|
    && (e.BeginSent? ==> runs[e.run].progress == Waiting)
    && (e.GetCalled? ==> runs[e.run].token == None)
    && (e.FinishSent? ==> runs[e.run].stage != Finish)
  }

  /** At most one entry, from the run that was current. A request comes from a run that is current, and not aborted,
      as it is sent. */
  ghost predicate Attributed(v: View, w: View, me: nat) {
    || w.log == v.log
    || (&& |w.log| == |v.log| + 1 && w.log[..|v.log|] == v.log
        && var x := w.log[|v.log|];
           && At(v.runs, x.run, me) && NotYet(v.runs, x) && Accounted(w.runs, x)
           && v.c.current == Some(x.run) && !v.runs[x.run].aborted
           && (Request(x) ==> w.c.current == Some(x.run) && !w.runs[x.run].aborted))
  }

  lemma FailAttributed(v: View, r: nat, f: Failure, m: Moment, me: nat)
    requires Mine(v, me) && At(v.runs, r, me) && v.runs[r].progress != Closing && v.runs[r].progress != Done
    ensures Attributed(v, Rejected(v, r, f, m), me) && Attributed(v, WaitTimedOut(v, r, m), me)
  {
    assert RunOk(v.c, v.runs[r], r);
  }

  lemma AskAttributed(v: View, r: nat, token: string, m: Moment, me: nat)
    requires Mine(v, me) && At(v.runs, r, me)
    ensures v.runs[r].progress == Waiting ==> Attributed(v, Waited(v, r), me)
    ensures v.runs[r].progress == Beginning ==> Attributed(v, Begun(v, r, token, m), me)
    ensures Attributed(v, Finished(v, r), me)
  {
    assert RunOk(v.c, v.runs[r], r);
  }

  lemma GotAttributed(v: View, r: nat, m: Moment, me: nat)
    requires Mine(v, me) && At(v.runs, r, me) && v.runs[r].progress.Getting?
    ensures Attributed(v, Got(v, r, m), me)
  {
    assert RunOk(v.c, v.runs[r], r);
  }

  lemma RunAttributed(v: View, me: nat, e: Event, m: Moment)
    requires Mine(v, me) && Enabled(v, me, e) && OfRun(e)
    ensures Attributed(v, RunStep(v, me, e, m), me)
  {
    match e
    case WaitEnds(r) => AskAttributed(v, r, "", m, me);
    case WaitHitsLimit(r) => FailAttributed(v, r, Unexpected, m, me);
    case BeginAnswers(r, token) => AskAttributed(v, r, token, m, me);
    case BrowserAnswers(r) => GotAttributed(v, r, m, me);
    case FinishAnswers(r) => AskAttributed(v, r, "", m, me);
    case Closes(r) =>
    case Fails(r, f) =>
      assert RunOk(v.c, v.runs[r], r);
      FailAttributed(v, r, f, m, me);
  }

  /** Only the current run acts on the server, the browser and the page. */
  lemma OnlyTheCurrentRunActs(v: View, me: nat, e: Event, m: Moment)
    requires Mine(v, me) && Enabled(v, me, e)
    ensures Attributed(v, Step(v, me, e, m), me)
  {
    if OfRun(e) { RunAttributed(v, me, e, m); } else { PageMovesNothing(v, me, e, m); }
  }

  lemma LogGrows(runs: seq<Run>, next: seq<Run>, log: seq<Entry>, x: Entry, me: nat)
    requires LogOk(runs, log) && Frame(runs, next, me) && NotYet(runs, x) && Accounted(next, x)
    ensures LogOk(next, log + [x])
  {
    LogStays(runs, next, log, me);
    forall j | 0 <= j < |log| ensures !SameRequest(log[j], x) {
      assert Accounted(runs, log[j]);
    }
  }

  lemma LogStays(runs: seq<Run>, next: seq<Run>, log: seq<Entry>, me: nat)
    requires LogOk(runs, log) && Frame(runs, next, me)
    ensures LogOk(next, log)
  {
    forall k | 0 <= k < |log| ensures Accounted(next, log[k]) {
      assert Accounted(runs, log[k]);
      assert Evolves(runs[log[k].run], next[log[k].run]);
    }
  }

  // ---------- the queue ----------

  /** A run that got past its wait found its predecessor done. */
  ghost predicate QueueOk(runs: seq<Run>) {
    forall i :: 0 < i < |runs| && runs[i].progress != Waiting && !runs[i].timedOut ==> runs[i - 1].progress == Done
  }

  lemma QueueAfterPage(v: View, w: View, me: nat)
    requires QueueOk(v.runs) && Frame(v.runs, w.runs, me) && Still(v, w)
    ensures QueueOk(w.runs)
  {
    forall i | 0 < i < |w.runs| && w.runs[i].progress != Waiting && !w.runs[i].timedOut
      ensures w.runs[i - 1].progress == Done {
      assert Evolves(v.runs[i - 1], w.runs[i - 1]);
    }
  }

  lemma QueueAfterRun(v: View, w: View, me: nat, r: nat, limit: bool)
    requires QueueOk(v.runs) && Frame(v.runs, w.runs, me) && r < |v.runs| && MovesOne(v, w, r, limit)
    requires limit || v.runs[r].progress != Waiting || r == 0 || v.runs[r - 1].progress == Done
    ensures QueueOk(w.runs)
  {
    forall i | 0 < i < |w.runs| && w.runs[i].progress != Waiting && !w.runs[i].timedOut
      ensures w.runs[i - 1].progress == Done {
      assert Evolves(v.runs[i - 1], w.runs[i - 1]);
      assert i != r ==> w.runs[i] == v.runs[i];
    }
  }

  lemma QueueKept(v: View, me: nat, e: Event, m: Moment)
    requires Mine(v, me) && Enabled(v, me, e) && QueueOk(v.runs)
    ensures QueueOk(Step(v, me, e, m).runs)
  {
    StepKept(v, me, e, m);
    if OfRun(e) {
      RunMovesOne(v, me, e, m);
      QueueAfterRun(v, RunStep(v, me, e, m), me, e.run, e.WaitHitsLimit?);
    } else {
      PageMovesNothing(v, me, e, m);
      QueueAfterPage(v, PageStep(v, me, e, m), me);
    }
  }

  // ---------- whole runs ----------

  /** The controllers a page has made so far, with the runs and the record they share. */
  datatype World = World(ctls: seq<Controller>, runs: seq<Run>, log: seq<Entry>)

  datatype Action = Mounts | Acts(who: nat, e: Event, m: Moment)

  function Sight(w: World, who: nat): View
    requires who < |w.ctls|
  {
    View(w.ctls[who], w.runs, w.log)
  }

  predicate Possible(w: World, a: Action) {
    a.Acts? ==> a.who < |w.ctls| && Ranged(Sight(w, a.who)) && Enabled(Sight(w, a.who), a.who, a.e)
  }

  function Next(w: World, a: Action): World
    requires Possible(w, a)
  {
    if a.Mounts? then w.(ctls := w.ctls + [NewController])
    else
      var v := Step(Sight(w, a.who), a.who, a.e, a.m);
      World(w.ctls[a.who := v.c], v.runs, v.log)
  }

  /** A run of the page from nothing that ends in w. */
  ghost predicate IsRun(worlds: seq<World>, actions: seq<Action>, w: World) {
    && |worlds| == |actions| + 1
    && worlds[0] == World([], [], []) && worlds[|actions|] == w
    && forall i {:trigger actions[i]} :: 0 <= i < |actions| ==>
         Possible(worlds[i], actions[i]) && worlds[i + 1] == Next(worlds[i], actions[i])
  }

  ghost predicate Inv(w: World) {
    && (forall who :: 0 <= who < |w.ctls| ==> Mine(Sight(w, who), who))
    && (forall i :: 0 <= i < |w.runs| ==> w.runs[i].owner < |w.ctls|)
    && LogOk(w.runs, w.log)
    && QueueOk(w.runs)
  }

  /** Another controller's step leaves this one's part alone. */
  lemma OthersKept(v: View, runs: seq<Run>, log: seq<Entry>, me: nat, other: nat)
    requires Mine(v, other) && Frame(v.runs, runs, me) && me != other
    ensures Mine(View(v.c, runs, log), other)
  {
    assert Autos(runs, other) == Autos(v.runs, other);
    forall i: nat | i < |runs| && runs[i].owner == other ensures RunOk(v.c, runs[i], i) {
      assert i < |v.runs|;
      assert RunOk(v.c, v.runs[i], i);
    }
  }

  lemma LogKept(v: View, w: View, me: nat)
    requires LogOk(v.runs, v.log) && Frame(v.runs, w.runs, me) && Attributed(v, w, me)
    ensures LogOk(w.runs, w.log)
  {
    if w.log == v.log { LogStays(v.runs, w.runs, v.log, me); }
    else {
      var x := w.log[|v.log|];
      assert w.log == v.log + [x];
      LogGrows(v.runs, w.runs, v.log, x, me);
    }
  }

  lemma ActKeepsInv(w: World, who: nat, e: Event, m: Moment)
    requires Inv(w) && Possible(w, Acts(who, e, m))
    ensures Inv(Next(w, Acts(who, e, m)))
  {
    var v := Sight(w, who);
    var n := Next(w, Acts(who, e, m));
    StepKept(v, who, e, m);
    OnlyTheCurrentRunActs(v, who, e, m);
    LogKept(v, Step(v, who, e, m), who);
    QueueKept(v, who, e, m);
    forall other | 0 <= other < |n.ctls| ensures Mine(Sight(n, other), other) {
      if other != who { OthersKept(Sight(w, other), n.runs, n.log, who, other); }
    }
    forall i | 0 <= i < |n.runs| ensures n.runs[i].owner < |n.ctls| {
      if i < |w.runs| { assert Evolves(w.runs[i], n.runs[i]); }
    }
  }

  lemma MountKeepsInv(w: World)
    requires Inv(w)
    ensures Inv(Next(w, Mounts))
  {
    var n := Next(w, Mounts);
    assert Autos(n.runs, |w.ctls|) == {};
    forall who | 0 <= who < |n.ctls| ensures Mine(Sight(n, who), who) {
      if who < |w.ctls| { assert Mine(Sight(w, who), who); }
    }
  }

  lemma {:induction false} InvUpTo(worlds: seq<World>, actions: seq<Action>, w: World, n: nat)
    requires IsRun(worlds, actions, w) && n <= |actions|
    ensures Inv(worlds[n])
  {
    if n > 0 {
      InvUpTo(worlds, actions, w, n - 1);
      var a := actions[n - 1];
      if a.Acts? { ActKeepsInv(worlds[n - 1], a.who, a.e, a.m); } else { MountKeepsInv(worlds[n - 1]); }
    }
  }

  /** Whatever happens, in whatever order. */
  lemma InvOverRuns(worlds: seq<World>, actions: seq<Action>, w: World)
    requires IsRun(worlds, actions, w)
    ensures Inv(w)
  {
    InvUpTo(worlds, actions, w, |actions|);
  }

  /** Every run is current, aborted or settled, and only one of these; so a controller has at most one run that is
      neither aborted nor settled, and it is `current`. */
  lemma AtMostOneLiveRun(worlds: seq<World>, actions: seq<Action>, w: World, i: nat, j: nat)
    requires IsRun(worlds, actions, w) && i < |w.runs| && j < |w.runs| && w.runs[i].owner == w.runs[j].owner
    requires !w.runs[i].aborted && !w.runs[i].settled && !w.runs[j].aborted && !w.runs[j].settled
    ensures i == j && w.runs[i].owner < |w.ctls| && w.ctls[w.runs[i].owner].current == Some(i)
  {
    InvOverRuns(worlds, actions, w);
    var v := Sight(w, w.runs[i].owner);
    assert Mine(v, w.runs[i].owner);
    assert RunOk(v.c, w.runs[i], i) && RunOk(v.c, w.runs[j], j);
  }

  /** When an un-aborted run is not the current one: exactly when it was settled, and then its function is ending. */
  lemma UnabortedNotCurrent(worlds: seq<World>, actions: seq<Action>, w: World, i: nat)
    requires IsRun(worlds, actions, w) && i < |w.runs|
    ensures w.runs[i].owner < |w.ctls|
    ensures !w.runs[i].aborted && w.ctls[w.runs[i].owner].current != Some(i) <==> w.runs[i].settled
    ensures w.runs[i].settled ==> w.runs[i].progress == Closing || w.runs[i].progress == Done
  {
    InvOverRuns(worlds, actions, w);
    var v := Sight(w, w.runs[i].owner);
    assert Mine(v, w.runs[i].owner);
    assert RunOk(v.c, w.runs[i], i);
  }

  /** The phase says what the current run is and how far it got. */
  lemma PhaseFollowsCurrent(worlds: seq<World>, actions: seq<Action>, w: World, who: nat)
    requires IsRun(worlds, actions, w) && who < |w.ctls|
    ensures var c := w.ctls[who];
            && (c.current == None <==> c.phase == Idle || c.phase == Password)
            && (c.current.Some? ==>
                  var r := c.current.value;
                  && r < |w.runs| && w.runs[r].owner == who && !w.runs[r].aborted
                  && (c.phase == Finishing <==> w.runs[r].stage == Finish)
                  && (c.phase == Conditional <==> w.runs[r].stage != Finish && w.runs[r].kind == Auto)
                  && (c.phase == Explicit <==> w.runs[r].stage != Finish && w.runs[r].kind == Button)
                  && (c.phase != Finishing ==> w.runs[r].progress != Closing && w.runs[r].progress != Done))
  {
    InvOverRuns(worlds, actions, w);
    var v := Sight(w, who);
    assert Mine(v, who);
    if v.c.current.Some? { assert RunOk(v.c, w.runs[v.c.current.value], v.c.current.value); }
  }

  /** Whatever a step sends to the server or asks of the browser comes from its controller's current run; so does what
      it shows. */
  lemma OnlyCurrentOverRuns(worlds: seq<World>, actions: seq<Action>, w: World, who: nat, e: Event, m: Moment)
    requires IsRun(worlds, actions, w) && Possible(w, Acts(who, e, m))
    ensures var n := Next(w, Acts(who, e, m));
            Attributed(Sight(w, who), Sight(n, who), who)
  {
    InvOverRuns(worlds, actions, w);
    OnlyTheCurrentRunActs(Sight(w, who), who, e, m);
  }

  /** Each run sends at most one finish, with the token its own begin returned, less than 290 s after that begin. */
  lemma OneFinishPerRun(worlds: seq<World>, actions: seq<Action>, w: World, k: nat)
    requires IsRun(worlds, actions, w) && k < |w.log| && w.log[k].FinishSent?
    ensures w.log[k].run < |w.runs| && w.runs[w.log[k].run].token == Some(w.log[k].token)
    ensures w.log[k].at - w.runs[w.log[k].run].begunAt < 290_000
    ensures forall j :: 0 <= j < |w.log| && w.log[j].FinishSent? && w.log[j].run == w.log[k].run ==> j == k
  {
    InvOverRuns(worlds, actions, w);
    assert Accounted(w.runs, w.log[k]);
    forall j | 0 <= j < |w.log| && w.log[j].FinishSent? && w.log[j].run == w.log[k].run ensures j == k {
      assert SameRequest(w.log[j], w.log[k]) && SameRequest(w.log[k], w.log[j]);
    }
  }

  predicate AutoBegin(runs: seq<Run>, e: Entry, who: nat) {
    e.BeginSent? && At(runs, e.run, who) && runs[e.run].kind == Auto
  }

  /** How many of the first n entries are automatic begins of one controller. */
  ghost function AutoBegins(runs: seq<Run>, log: seq<Entry>, n: nat, who: nat): nat
    requires n <= |log|
  {
    if n == 0 then 0 else AutoBegins(runs, log, n - 1, who) + if AutoBegin(runs, log[n - 1], who) then 1 else 0
  }

  ghost function AutoBegun(runs: seq<Run>, log: seq<Entry>, n: nat, who: nat): set<nat>
    requires n <= |log|
  {
    set k | 0 <= k < n && AutoBegin(runs, log[k], who) :: log[k].run
  }

  lemma AutoBegunStep(runs: seq<Run>, log: seq<Entry>, n: nat, who: nat)
    requires LogOk(runs, log) && n < |log|
    ensures !AutoBegin(runs, log[n], who) ==> AutoBegun(runs, log, n + 1, who) == AutoBegun(runs, log, n, who)
    ensures AutoBegin(runs, log[n], who) ==>
              log[n].run !in AutoBegun(runs, log, n, who)
              && AutoBegun(runs, log, n + 1, who) == AutoBegun(runs, log, n, who) + {log[n].run}
  {
    assert forall k :: 0 <= k < n ==> !SameRequest(log[k], log[n]);
  }

  lemma {:induction false} CountedOnce(runs: seq<Run>, log: seq<Entry>, n: nat, who: nat)
    requires LogOk(runs, log) && n <= |log|
    ensures AutoBegins(runs, log, n, who) == |AutoBegun(runs, log, n, who)|
  {
    if n > 0 {
      CountedOnce(runs, log, n - 1, who);
      AutoBegunStep(runs, log, n - 1, who);
    }
  }

  /** A controller never sends more than ten begins on its own. */
  lemma AtMostTenAutomaticBegins(worlds: seq<World>, actions: seq<Action>, w: World, who: nat)
    requires IsRun(worlds, actions, w) && who < |w.ctls|
    ensures AutoBegins(w.runs, w.log, |w.log|, who) <= w.ctls[who].autoBegins <= 10
  {
    InvOverRuns(worlds, actions, w);
    assert Mine(Sight(w, who), who);
    CountedOnce(w.runs, w.log, |w.log|, who);
    SubsetCard(AutoBegun(w.runs, w.log, |w.log|, who), Autos(w.runs, who));
  }

  /** Between its begin and its end. */
  predicate Busy(run: Run) { run.progress != Waiting && run.progress != Done }

  lemma {:induction false} DoneBelow(runs: seq<Run>, a: nat, b: nat)
    requires QueueOk(runs) && a < b < |runs| && Busy(runs[b]) && !runs[b].timedOut
    requires forall t :: a < t < b ==> !runs[t].timedOut
    ensures runs[a].progress == Done
    decreases b - a
  {
    if a + 1 < b { DoneBelowDone(runs, a, b - 1); }
  }

  lemma {:induction false} DoneBelowDone(runs: seq<Run>, a: nat, b: nat)
    requires QueueOk(runs) && a < b < |runs| && runs[b].progress == Done && !runs[b].timedOut
    requires forall t :: a < t < b ==> !runs[t].timedOut
    ensures runs[a].progress == Done
    decreases b - a
  {
    if a + 1 < b { DoneBelowDone(runs, a, b - 1); }
  }

  /** Two runs, of any controllers, are between begin and done at once only if the wait of a run between them hit the
      limit. */
  lemma NoOverlapWithoutTimeout(worlds: seq<World>, actions: seq<Action>, w: World, a: nat, b: nat)
    requires IsRun(worlds, actions, w) && a < b < |w.runs| && Busy(w.runs[a]) && Busy(w.runs[b])
    ensures exists t :: a < t < b && w.runs[t].timedOut
  {
    InvOverRuns(worlds, actions, w);
    var v := Sight(w, w.runs[b].owner);
    assert Mine(v, w.runs[b].owner);
    assert RunOk(v.c, w.runs[b], b);
    if forall t :: a < t < b ==> !w.runs[t].timedOut { DoneBelow(w.runs, a, b); }
  }

  // ---------- when two runs are busy at once ----------

  ghost predicate Overlap(runs: seq<Run>) {
    exists a, b :: 0 <= a < b < |runs| && Busy(runs[a]) && Busy(runs[b])
  }

  /** The wait of the current run ends while another run, of any controller, is still busy. */
  ghost predicate BeginsBeside(w: World, a: Action) {
    && a.Acts? && Possible(w, a) && a.e.WaitEnds? && IsCurrent(Sight(w, a.who), a.e.run)
    && exists x :: 0 <= x < |w.runs| && x != a.e.run && Busy(w.runs[x])
  }

  /** A step never makes a run busy but by sending its begin. */
  lemma BecomesBusy(v: View, me: nat, e: Event, m: Moment, i: nat)
    requires Mine(v, me) && Enabled(v, me, e) && i < |Step(v, me, e, m).runs|
    requires Busy(Step(v, me, e, m).runs[i]) && (i < |v.runs| ==> !Busy(v.runs[i]))
    ensures e == WaitEnds(i) && i < |v.runs| && IsCurrent(v, i)
  {
    if OfRun(e) {
      RunMovesOne(v, me, e, m);
      RunKept(v, me, e, m);
      assert i == e.run ==> Evolves(v.runs[i], RunStep(v, me, e, m).runs[i]);
      if i == e.run && v.runs[i].progress == Waiting { WaitDecides(v, me, e, m); }
    } else {
      PageMovesNothing(v, me, e, m);
    }
  }

  lemma WaitDecides(v: View, me: nat, e: Event, m: Moment)
    requires Mine(v, me) && Enabled(v, me, e) && OfRun(e) && v.runs[e.run].progress == Waiting
    ensures Busy(RunStep(v, me, e, m).runs[e.run]) <==> e.WaitEnds? && IsCurrent(v, e.run)
  {
  }

  /** Of two runs that are busy together for the first time, one has just become busy. */
  lemma NewlyBusy(runs: seq<Run>, next: seq<Run>) returns (i: nat, other: nat)
    requires !Overlap(runs) && Overlap(next)
    ensures i < |next| && other < |next| && i != other && Busy(next[i]) && Busy(next[other])
    ensures i < |runs| ==> !Busy(runs[i])
  {
    var x, y :| 0 <= x < y < |next| && Busy(next[x]) && Busy(next[y]);
    if y < |runs| && Busy(runs[y]) { i, other := x, y; } else { i, other := y, x; }
  }

  lemma OnlyBeginsOverlap(w: World, who: nat, e: Event, m: Moment)
    requires Inv(w) && Possible(w, Acts(who, e, m)) && !Overlap(w.runs) && Overlap(Next(w, Acts(who, e, m)).runs)
    ensures BeginsBeside(w, Acts(who, e, m))
  {
    var v := Sight(w, who);
    var i, other := NewlyBusy(w.runs, Next(w, Acts(who, e, m)).runs);
    BecomesBusy(v, who, e, m, i);
    RunMovesOne(v, who, e, m);
    assert Busy(w.runs[other]);
  }

  /** From runs of which at most one is busy, a step leads to an overlap exactly when it sends a begin beside a
      busy run. */
  lemma OverlapArises(w: World, a: Action)
    requires Inv(w) && Possible(w, a) && !Overlap(w.runs)
    ensures Overlap(Next(w, a).runs) <==> BeginsBeside(w, a)
  {
    if BeginsBeside(w, a) { BeginOverlaps(w, a); }
    if a.Acts? && Overlap(Next(w, a).runs) { OnlyBeginsOverlap(w, a.who, a.e, a.m); }
  }

  lemma BeginOverlaps(w: World, a: Action)
    requires Inv(w) && BeginsBeside(w, a)
    ensures Overlap(Next(w, a).runs)
  {
    var v, n := Sight(w, a.who), Next(w, a);
    var x :| 0 <= x < |w.runs| && x != a.e.run && Busy(w.runs[x]);
    RunMovesOne(v, a.who, a.e, a.m);
    WaitDecides(v, a.who, a.e, a.m);
    assert n.runs[x] == w.runs[x] && Busy(n.runs[a.e.run]);
    if x < a.e.run {
      assert Busy(n.runs[x]) && Busy(n.runs[a.e.run]);
    } else {
      assert Busy(n.runs[a.e.run]) && Busy(n.runs[x]);
    }
  }

  lemma OverlapStep(worlds: seq<World>, actions: seq<Action>, w: World, i: nat)
    requires IsRun(worlds, actions, w) && i < |actions|
    ensures BeginsBeside(worlds[i], actions[i]) ==> Overlap(worlds[i + 1].runs)
    ensures !Overlap(worlds[i].runs) && Overlap(worlds[i + 1].runs) ==> BeginsBeside(worlds[i], actions[i])
  {
    var a, now := actions[i], worlds[i];
    InvUpTo(worlds, actions, w, i);
    assert Possible(now, a) && worlds[i + 1] == Next(now, a);
    if BeginsBeside(now, a) { BeginOverlaps(now, a); }
    if !Overlap(now.runs) { OverlapArises(now, a); }
  }

  lemma {:induction false} FirstOverlap(worlds: seq<World>, actions: seq<Action>, w: World, n: nat) returns (i: nat)
    requires IsRun(worlds, actions, w) && n <= |actions| && Overlap(worlds[n].runs)
    ensures i < n && BeginsBeside(worlds[i], actions[i])
  {
    assert n > 0;
    OverlapStep(worlds, actions, w, n - 1);
    if Overlap(worlds[n - 1].runs) { i := FirstOverlap(worlds, actions, w, n - 1); } else { i := n - 1; }
  }

  /** Over a whole run: two runs are busy at once at some point exactly when some begin is sent beside a busy run. */
  lemma OverlapExactly(worlds: seq<World>, actions: seq<Action>, w: World)
    requires IsRun(worlds, actions, w)
    ensures (exists n :: 0 <= n <= |actions| && Overlap(worlds[n].runs))
            <==> exists i :: 0 <= i < |actions| && BeginsBeside(worlds[i], actions[i])
  {
    if n :| 0 <= n <= |actions| && Overlap(worlds[n].runs) {
      var i := FirstOverlap(worlds, actions, w, n);
    }
    if i :| 0 <= i < |actions| && BeginsBeside(worlds[i], actions[i]) {
      OverlapStep(worlds, actions, w, i);
      assert Overlap(worlds[i + 1].runs);
    }
  }

  // ---------- when a run is settled ----------

  /** The guards: the current run's wait hits the limit, it fails, or the browser answers 290 s after its begin
      or later. */
  predicate Settles(v: View, e: Event, m: Moment, r: nat)
    requires r < |v.runs|
  {
    && v.c.current == Some(r)
    && (e == WaitHitsLimit(r) || (e.Fails? && e.run == r)
        || (e == BrowserAnswers(r) && m.now - v.runs[r].begunAt >= 290_000))
  }

  lemma PageSettlesNothing(v: View, me: nat, e: Event, m: Moment, r: nat)
    requires Mine(v, me) && Enabled(v, me, e) && !OfRun(e) && r < |v.runs|
    ensures r < |PageStep(v, me, e, m).runs| && PageStep(v, me, e, m).runs[r].settled == v.runs[r].settled
  {
  }

  lemma RunSettles(v: View, me: nat, e: Event, m: Moment, r: nat)
    requires Mine(v, me) && Enabled(v, me, e) && OfRun(e) && At(v.runs, r, me)
    ensures r < |RunStep(v, me, e, m).runs|
    ensures RunStep(v, me, e, m).runs[r].settled <==> v.runs[r].settled || Settles(v, e, m, r)
  {
    RunMovesOne(v, me, e, m);
    if e.run == r { assert RunOk(v.c, v.runs[r], r); }
  }

  /** A step settles a run exactly under these guards. */
  lemma SettledExactly(worlds: seq<World>, actions: seq<Action>, w: World, who: nat, e: Event, m: Moment, r: nat)
    requires IsRun(worlds, actions, w) && Possible(w, Acts(who, e, m)) && At(w.runs, r, who)
    ensures var n := Next(w, Acts(who, e, m));
            r < |n.runs| && (n.runs[r].settled <==> w.runs[r].settled || Settles(Sight(w, who), e, m, r))
  {
    InvOverRuns(worlds, actions, w);
    var v := Sight(w, who);
    if OfRun(e) { RunSettles(v, who, e, m, r); } else { PageSettlesNothing(v, who, e, m, r); }
  }

  /** While a finish is in flight, calls and timers change neither the phase nor the current run. */
  lemma PageLeavesFinish(v: View, me: nat, e: Event, m: Moment)
    requires Mine(v, me) && Enabled(v, me, e) && !OfRun(e) && !e.Disposes? && v.c.phase == Finishing
    ensures var c := PageStep(v, me, e, m).c; c.phase == Finishing && c.current == v.c.current
  {
    assert e.RefreshFires? ==> RunOk(v.c, v.runs[e.run], e.run);
  }

  lemma RunLeavesFinish(v: View, me: nat, e: Event, m: Moment)
    requires Mine(v, me) && Enabled(v, me, e) && OfRun(e) && v.c.phase == Finishing
    requires !(e.Fails? && v.c.current == Some(e.run))
    ensures var c := RunStep(v, me, e, m).c; c.phase == Finishing && c.current == v.c.current
  {
    assert RunOk(v.c, v.runs[e.run], e.run);
  }

  /** A finish in flight is given up only by dispose or by its own failure: every other step leaves it current. */
  lemma FinishIsGivenUpOnlyByDispose(worlds: seq<World>, actions: seq<Action>, w: World, who: nat, e: Event, m: Moment)
    requires IsRun(worlds, actions, w) && Possible(w, Acts(who, e, m)) && w.ctls[who].phase == Finishing
    requires !e.Disposes? && !(e.Fails? && w.ctls[who].current == Some(e.run))
    ensures var n := Next(w, Acts(who, e, m));
            n.ctls[who].phase == Finishing && n.ctls[who].current == w.ctls[who].current
  {
    InvOverRuns(worlds, actions, w);
    var v := Sight(w, who);
    if OfRun(e) { RunLeavesFinish(v, who, e, m); } else { PageLeavesFinish(v, who, e, m); }
  }

  // ---------- why the statements are not stronger ----------

  lemma Then(worlds: seq<World>, actions: seq<Action>, w: World, a: Action)
    returns (longer: seq<World>, more: seq<Action>, n: World)
    requires IsRun(worlds, actions, w) && Possible(w, a)
    ensures n == Next(w, a) && IsRun(longer, more, n) && longer == worlds + [n] && more == actions + [a]
  {
    n := Next(w, a);
    longer, more := worlds + [n], actions + [a];
    forall i | 0 <= i < |more| ensures Possible(longer[i], more[i]) && longer[i + 1] == Next(longer[i], more[i]) {
      if i < |actions| { assert more[i] == actions[i]; }
    }
  }

  /** A page whose only controller has just sent the begin of its first run. */
  lemma FirstBegin(m: Moment) returns (worlds: seq<World>, actions: seq<Action>, w: World)
    ensures IsRun(worlds, actions, w)
    ensures w.ctls == [NewController.(phase := Explicit, current := Some(0))]
    ensures w.runs == [NewRun(0, Button).(progress := Beginning)]
  {
    worlds, actions, w := [World([], [], [])], [], World([], [], []);
    worlds, actions, w := Then(worlds, actions, w, Mounts);
    worlds, actions, w := Then(worlds, actions, w, Acts(0, AsksExplicit, m));
    assert w.runs == [NewRun(0, Button)];
    worlds, actions, w := Then(worlds, actions, w, Acts(0, WaitEnds(0), m));
  }

  const HUNG := NewRun(0, Button).(progress := Beginning, aborted := true)

  /** Its begin hangs, the page gives it up, and a second run waits for it. */
  lemma SecondWaits(m: Moment) returns (worlds: seq<World>, actions: seq<Action>, w: World)
    ensures IsRun(worlds, actions, w)
    ensures |w.ctls| == 1 && w.ctls[0].phase == Explicit && w.ctls[0].current == Some(1)
    ensures w.runs == [HUNG, NewRun(0, Button)]
  {
    worlds, actions, w := FirstBegin(m);
    worlds, actions, w := Then(worlds, actions, w, Acts(0, Disposes, m));
    assert w.runs == [HUNG];
    worlds, actions, w := Then(worlds, actions, w, Acts(0, AsksExplicit, m));
  }

  lemma SecondGivesUp(m: Moment) returns (worlds: seq<World>, actions: seq<Action>, w: World)
    ensures IsRun(worlds, actions, w)
    ensures |w.ctls| == 1 && w.ctls[0].phase == Idle && w.ctls[0].current == None
    ensures w.runs == [HUNG, NewRun(0, Button).(progress := Done, settled := true, timedOut := true)]
  {
    worlds, actions, w := SecondWaits(m);
    worlds, actions, w := Then(worlds, actions, w, Acts(0, WaitHitsLimit(1), m));
  }

  /** With a wait that hits the limit two runs can be busy at once: the first one's begin hangs, the second gives up
      waiting, the third finds the second done. */
  lemma OverlapAfterTimeout(m: Moment) returns (worlds: seq<World>, actions: seq<Action>, w: World)
    ensures IsRun(worlds, actions, w) && |w.runs| == 3
    ensures Busy(w.runs[0]) && Busy(w.runs[2]) && w.runs[1].timedOut
  {
    worlds, actions, w := SecondGivesUp(m);
    var two := w.runs;
    worlds, actions, w := Then(worlds, actions, w, Acts(0, AsksExplicit, m));
    assert w.runs == two + [NewRun(0, Button)];
    worlds, actions, w := Then(worlds, actions, w, Acts(0, WaitEnds(2), m));
  }

  /** A run can be neither aborted nor current: its answer came 290 s after its begin, and it was settled. */
  lemma SettledIsNotAborted(token: string) returns (worlds: seq<World>, actions: seq<Action>, w: World)
    ensures IsRun(worlds, actions, w) && |w.runs| == 1 == |w.ctls|
    ensures !w.runs[0].aborted && w.ctls[0].current == None && w.runs[0].progress == Closing
  {
    worlds, actions, w := FirstBegin(Moment(0, false));
    worlds, actions, w := Then(worlds, actions, w, Acts(0, BeginAnswers(0, token), Moment(0, false)));
    assert w.runs[0].progress == Getting(token);
    worlds, actions, w := Then(worlds, actions, w, Acts(0, BrowserAnswers(0), Moment(290_000, false)));
  }
}
