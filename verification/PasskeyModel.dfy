/** One passkey login controller on values: its fields, the module's queue of runs, and what every event does
    (frontend/src/lib/passkeyLogin.ts). Times are milliseconds. */
module PasskeyModel {
  import opened Wrappers

  const CHALLENGE_MAX_AGE_MS := 4 * 60 * 1000 + 50 * 1000
  const CONDITIONAL_MAX_BEGINS := 10
  const CONDITIONAL_MIN_INTERVAL_MS := 5 * 1000

  datatype Phase = Idle | Conditional | Explicit | Password | Finishing
  datatype Kind = Auto | Button
  datatype Stage = Begin | Get | Finish

  /** Where the run's own asynchronous function stands. */
  datatype Progress =
    | Waiting                  // for the previous run
    | Beginning                // begin is sent
    | Getting(token: string)   // the browser is asked
    | Sending                  // finish is sent
    | Closing                  // returned from finish, not yet done
    | Done                     // its promise in the queue is resolved

  /** A run. `token`, `settled` and `timedOut` record its history: the token its own begin returned, whether it was
      ended by `settle`, and whether its wait for the previous run hit the limit. */
  datatype Run = Run(owner: nat, kind: Kind, aborted: bool, stage: Stage, begunAt: int, refresh: bool,
                     progress: Progress, token: Option<string>, settled: bool, timedOut: bool)

  datatype Message = LoginFailed | LoginLocked | LoginInterrupted | Problem(text: string)

  /** What a run makes happen outside the controller. */
  datatype Entry =
    | BeginSent(run: nat)
    | GetCalled(run: nat)
    | FinishSent(run: nat, token: string, at: int)
    | LoggedIn(run: nat)
    | Shown(run: nat, message: Message)

  datatype Failure = Aborted | Interrupted | Cancelled | Unauthorized | Api(status: int, text: string) | Unexpected

  datatype Outcome = Failed | Locked | Error

  /** `armed` holds the start timers not yet fired with the epoch each captured, `checking` the captured epochs of the
      availability checks in flight. */
  datatype Controller = Controller(
    phase: Phase, current: Option<nat>, active: bool, available: bool, epoch: nat, autoBegins: nat, cancelRetried: bool,
    lastBeginAt: int, wantStart: bool, startTimer: Option<nat>, scheduleTimer: Option<int>,
    armed: map<nat, nat>, timers: nat, checking: multiset<nat>)

  datatype View = View(c: Controller, runs: seq<Run>, log: seq<Entry>)

  const NewController := Controller(Idle, None, false, false, 0, 0, false, 0, false, None, None, map[], 0, multiset{})

  /** The instant and whether the page is hidden, as an event reads them. */
  datatype Moment = Moment(now: int, hidden: bool)

  predicate Ranged(v: View) { v.c.current.Some? ==> v.c.current.value < |v.runs| }

  // ---------- the private steps ----------

  function Classify(f: Failure): Option<Message> {
    match f
    case Interrupted => Some(LoginInterrupted)
    case Aborted => None
    case Cancelled => None
    case Unauthorized => Some(LoginFailed)
    case Api(status, text) => Some(if status == 429 then LoginLocked else Problem(text))
    case Unexpected => Some(LoginFailed)
  }

  function Disarm(armed: map<nat, nat>, timer: Option<nat>): map<nat, nat> {
    if timer.Some? then armed - {timer.value} else armed
  }

  function ClearTimers(c: Controller): Controller {
    c.(armed := Disarm(c.armed, c.startTimer), startTimer := None, scheduleTimer := None)
  }

  function Abort(runs: seq<Run>, run: Option<nat>): seq<Run>
    requires run.Some? ==> run.value < |runs|
  {
    if run.None? then runs else runs[run.value := runs[run.value].(aborted := true, refresh := false)]
  }

  function DropCurrent(v: View): View
    requires Ranged(v)
  {
    View(v.c.(current := None), Abort(v.runs, v.c.current), v.log)
  }

  function NewRun(me: nat, kind: Kind): Run { Run(me, kind, false, Begin, 0, false, Waiting, None, false, false) }

  /** A new run at the end of the queue becomes current. */
  function Enter(v: View, me: nat, kind: Kind): View {
    v.(c := v.c.(current := Some(|v.runs|), phase := if kind == Auto then Conditional else Explicit),
       runs := v.runs + [NewRun(me, kind)])
  }

  predicate Open(c: Controller) { c.phase == Idle || c.phase == Conditional }

  predicate MayBeginAlone(c: Controller) { c.active && c.available && c.autoBegins < CONDITIONAL_MAX_BEGINS && Open(c) }

  function StartConditional(v: View, me: nat, now: int): View
    requires Ranged(v)
  {
    if !MayBeginAlone(v.c) then v
    else
      var d := DropCurrent(v);
      Enter(d.(c := d.c.(wantStart := false, autoBegins := d.c.autoBegins + 1, lastBeginAt := now)), me, Auto)
  }

  function RequestConditional(c: Controller, m: Moment): Controller {
    if !MayBeginAlone(c) then c
    else if m.hidden then c.(wantStart := true)
    else
      var wait := c.lastBeginAt + CONDITIONAL_MIN_INTERVAL_MS - m.now;
      c.(scheduleTimer := Some(m.now + (if wait > 0 then wait else 0)))
  }

  function Settle(v: View, r: nat): View
    requires r < |v.runs|
  {
    v.(c := v.c.(current := None, phase := Idle), runs := v.runs[r := v.runs[r].(refresh := false, settled := true)])
  }

  function Move(v: View, r: nat, to: Progress): View
    requires r < |v.runs|
  {
    v.(runs := v.runs[r := v.runs[r].(progress := to)])
  }

  predicate IsCurrent(v: View, r: nat)
    requires r < |v.runs|
  {
    v.c.current == Some(r) && !v.runs[r].aborted
  }

  /** What the controller does after a failure of its current run. */
  function AfterFailure(c: Controller, kind: Kind, f: Failure, m: Moment): Controller {
    match f
    case Aborted => c
    case Interrupted => RequestConditional(c, m)
    case Cancelled =>
      if kind == Button then RequestConditional(c, m)
      else if !c.cancelRetried then RequestConditional(c.(cancelRetried := true), m)
      else c
    case Unauthorized => RequestConditional(c, m)
    case _ => c
  }

  function Fail(v: View, r: nat, f: Failure, m: Moment): View
    requires r < |v.runs|
  {
    if v.c.current != Some(r) then v
    else
      var run := v.runs[r];
      var s := Settle(v, r);
      var shown := Classify(f).Some? && (run.kind == Button || run.stage == Finish);
      s.(c := AfterFailure(s.c, run.kind, f, m), log := if shown then s.log + [Shown(r, Classify(f).value)] else s.log)
  }

  // ---------- the events ----------

  function Start(c: Controller): Controller {
    c.(active := true, startTimer := Some(c.timers), armed := c.armed[c.timers := c.epoch], timers := c.timers + 1)
  }

  function Tick(c: Controller, id: nat): Controller
    requires id in c.armed
  {
    c.(startTimer := None, armed := c.armed - {id}, checking := c.checking + multiset{c.armed[id]})
  }

  function Available(v: View, me: nat, epoch: nat, ok: bool, m: Moment): View
    requires Ranged(v)
  {
    var c := v.c.(checking := v.c.checking - multiset{epoch});
    if epoch != c.epoch || !ok then v.(c := c)
    else if m.hidden then v.(c := c.(available := true, wantStart := true))
    else StartConditional(v.(c := c.(available := true)), me, m.now)
  }

  function Deactivated(c: Controller): Controller {
    ClearTimers(c.(epoch := c.epoch + 1, active := false, available := false, wantStart := false))
  }

  function Dispose(v: View): View
    requires Ranged(v)
  {
    var d := DropCurrent(v.(c := Deactivated(v.c)));
    d.(c := d.c.(phase := Idle))
  }

  function StartExplicit(v: View, me: nat): View
    requires Ranged(v)
  {
    if !Open(v.c) then v else Enter(DropCurrent(v.(c := ClearTimers(v.c))), me, Button)
  }

  function StartPassword(v: View): View
    requires Ranged(v)
  {
    if !Open(v.c) then v
    else
      var d := DropCurrent(v.(c := ClearTimers(v.c)));
      d.(c := d.c.(phase := Password))
  }

  function EndPassword(c: Controller, outcome: Outcome, m: Moment): Controller {
    if c.phase != Password then c
    else if outcome == Failed then RequestConditional(c.(phase := Idle), m)
    else c.(phase := Idle)
  }

  function Visible(c: Controller, m: Moment): Controller {
    if m.hidden || !c.wantStart then c else RequestConditional(c.(wantStart := false), m)
  }

  function Scheduled(v: View, me: nat, m: Moment): View
    requires Ranged(v)
  {
    StartConditional(v.(c := v.c.(scheduleTimer := None)), me, m.now)
  }

  function RefreshDue(v: View, r: nat, m: Moment): View
    requires Ranged(v) && r < |v.runs|
  {
    var f := v.(runs := v.runs[r := v.runs[r].(refresh := false)]);
    if f.c.current != Some(r) then f
    else if f.c.autoBegins >= CONDITIONAL_MAX_BEGINS then
      var d := DropCurrent(f);
      d.(c := d.c.(phase := Idle))
    else f.(c := RequestConditional(f.c, m))
  }

  function Waited(v: View, r: nat): View
    requires r < |v.runs|
  {
    if !IsCurrent(v, r) then Move(v, r, Done)
    else
      var b := Move(v, r, Beginning);
      b.(log := b.log + [BeginSent(r)])
  }

  function WaitTimedOut(v: View, r: nat, m: Moment): View
    requires r < |v.runs|
  {
    var f := Fail(v, r, Unexpected, m);
    f.(runs := f.runs[r := f.runs[r].(progress := Done, timedOut := true)])
  }

  function Begun(v: View, r: nat, token: string, m: Moment): View
    requires r < |v.runs|
  {
    if !IsCurrent(v, r) then Move(v, r, Done)
    else
      var run := v.runs[r];
      v.(runs := v.runs[r := run.(begunAt := m.now, stage := Get, refresh := run.kind == Auto,
                                  progress := Getting(token), token := Some(token))],
         log := v.log + [GetCalled(r)])
  }

  /** The browser answered. */
  function Got(v: View, r: nat, m: Moment): View
    requires r < |v.runs| && v.runs[r].progress.Getting?
  {
    var run := v.runs[r];
    if !IsCurrent(v, r) || v.c.phase != (if run.kind == Auto then Conditional else Explicit) then Move(v, r, Closing)
    else if m.now - run.begunAt >= CHALLENGE_MAX_AGE_MS then
      var s := Move(Settle(v, r), r, Closing);
      s.(c := RequestConditional(s.c, m), log := s.log + [Shown(r, LoginFailed)])
    else
      v.(c := v.c.(phase := Finishing),
         runs := v.runs[r := run.(stage := Finish, refresh := false, progress := Sending)],
         log := v.log + [FinishSent(r, run.progress.token, m.now)])
  }

  function Finished(v: View, r: nat): View
    requires r < |v.runs|
  {
    var f := Move(v, r, Closing);
    if v.c.current != Some(r) then f else f.(log := f.log + [LoggedIn(r)])
  }

  /** Begin, the browser or finish failed. */
  function Rejected(v: View, r: nat, f: Failure, m: Moment): View
    requires r < |v.runs|
  {
    Move(Fail(v, r, f, m), r, Done)
  }
}
