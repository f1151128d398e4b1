/** The passkey login controller (frontend/src/lib/passkeyLogin.ts): every method and every continuation of a run does
    what PasskeyModel says of the same event. */
module PasskeyLogin {
  import opened Wrappers
  import opened PasskeyModel

  /** What all controllers of the page share: the queue behind the module's `tail` (run k waits for run k - 1), and the
      record of what the runs made happen. */
  class Page {
    var runs: seq<Run>
    var log: seq<Entry>

    constructor ()
      ensures runs == [] && log == []
    {
      runs, log := [], [];
    }

    method Update(r: nat, run: Run)
      requires r < |runs|
      modifies this`runs
      ensures runs == old(runs)[r := run]
    {
      runs := runs[r := run];
    }

    method Record(e: Entry)
      modifies this`log
      ensures log == old(log) + [e]
    {
      log := log + [e];
    }
  }

  class PasskeyLoginController {
    const page: Page
    const me: nat
    var phase: Phase
    var current: Option<nat>
    var active: bool
    var available: bool
    var epoch: nat
    var autoBegins: nat
    var cancelRetried: bool
    var lastBeginAt: int
    var wantStart: bool
    var startTimer: Option<nat>
    var scheduleTimer: Option<int>
    var armed: map<nat, nat>
    var timers: nat
    var checking: multiset<nat>

    ghost function Fields(): Controller
      reads this
    {
      Controller(phase, current, active, available, epoch, autoBegins, cancelRetried, lastBeginAt, wantStart,
                 startTimer, scheduleTimer, armed, timers, checking)
    }

    ghost function Seen(): View
      reads this, page
    {
      View(Fields(), page.runs, page.log)
    }

    constructor (page: Page, me: nat)
      ensures this.page == page && this.me == me && Fields() == NewController
    {
      this.page, this.me := page, me;
      phase, current, active, available, epoch, autoBegins := Idle, None, false, false, 0, 0;
      cancelRetried, lastBeginAt, wantStart := false, 0, false;
      startTimer, scheduleTimer, armed, timers, checking := None, None, map[], 0, multiset{};
    }

    // ---------- private ----------

    method SetPhase(next: Phase)
      modifies this`phase
      ensures phase == next
    {
      if phase == next { return; }
      phase := next;
    }

    method DoClearTimers()
      modifies this`startTimer, this`scheduleTimer, this`armed
      ensures startTimer == None && scheduleTimer == None
      ensures armed == Disarm(old(armed), old(startTimer))
    {
      if startTimer.Some? { armed := armed - {startTimer.value}; }
      startTimer, scheduleTimer := None, None;
    }

    method DoDropCurrent()
      requires current.Some? ==> current.value < |page.runs|
      modifies this`current, page`runs
      ensures current == None && page.runs == Abort(old(page.runs), old(current))
    {
      var run := current;
      current := None;
      if run.None? { return; }
      page.Update(run.value, page.runs[run.value].(aborted := true, refresh := false));
    }

    method DoNewRun(kind: Kind) returns (run: nat)
      modifies page`runs
      ensures run == |old(page.runs)| && page.runs == old(page.runs) + [NewRun(me, kind)]
    {
      run := |page.runs|;
      page.runs := page.runs + [NewRun(me, kind)];
    }

    /** Makes a new run the current one; its function starts by waiting for the run before it. */
    method DoEnter(kind: Kind)
      modifies this`current, this`phase, page`runs
      ensures Seen() == Enter(old(Seen()), me, kind)
    {
      var run := DoNewRun(kind);
      current := Some(run);
      SetPhase(if kind == Auto then Conditional else Explicit);
    }

    method DoStartConditional(now: int)
      requires Ranged(Seen())
      modifies this, page`runs
      ensures Fields() == StartConditional(old(Seen()), me, now).c
      ensures page.runs == StartConditional(old(Seen()), me, now).runs
    {
      if !active || !available || autoBegins >= CONDITIONAL_MAX_BEGINS { return; }
      if phase != Idle && phase != Conditional { return; }
      DoBeginAlone(now);
    }

    method DoBeginAlone(now: int)
      requires Ranged(Seen()) && MayBeginAlone(Fields())
      modifies this, page`runs
      ensures Fields() == StartConditional(old(Seen()), me, now).c
      ensures page.runs == StartConditional(old(Seen()), me, now).runs
    {
      DoDropCurrent();
      wantStart, autoBegins, lastBeginAt := false, autoBegins + 1, now;
      DoEnter(Auto);
    }

    method DoRequestConditional(m: Moment)
      modifies this`wantStart, this`scheduleTimer
      ensures Fields() == RequestConditional(old(Fields()), m)
    {
      if !active || !available || autoBegins >= CONDITIONAL_MAX_BEGINS { return; }
      if phase != Idle && phase != Conditional { return; }
      if m.hidden {
        wantStart := true;
        return;
      }
      var wait := lastBeginAt + CONDITIONAL_MIN_INTERVAL_MS - m.now;
      if wait < 0 { wait := 0; }
      scheduleTimer := Some(m.now + wait);
    }

    method DoSettle(r: nat)
      requires r < |page.runs|
      modifies this`current, this`phase, page`runs
      ensures Seen() == Settle(old(Seen()), r)
    {
      page.Update(r, page.runs[r].(refresh := false, settled := true));
      current := None;
      SetPhase(Idle);
    }

    method DoFail(r: nat, f: Failure, m: Moment)
      requires r < |page.runs|
      modifies this, page
      ensures Seen() == Fail(old(Seen()), r, f, m)
    {
      if current != Some(r) { return; }
      DoSettle(r);
      var message := Classify(f);
      if message.Some? && (page.runs[r].kind == Button || page.runs[r].stage == Finish) {
        page.Record(Shown(r, message.value));
      }
      if f.Aborted? { return; }
      if f.Interrupted? {
        DoRequestConditional(m);
        return;
      }
      if f.Cancelled? {
        if page.runs[r].kind == Button {
          DoRequestConditional(m);
        } else if !cancelRetried {
          cancelRetried := true;
          DoRequestConditional(m);
        }
        return;
      }
      if f.Unauthorized? { DoRequestConditional(m); }
    }

    // ---------- calls from the page ----------

    method OnStart()
      modifies this
      ensures Fields() == Start(old(Fields()))
    {
      active := true;
      armed := armed[timers := epoch];
      startTimer := Some(timers);
      timers := timers + 1;
    }

    method DoDeactivate()
      modifies this`epoch, this`active, this`available, this`wantStart, this`startTimer, this`scheduleTimer, this`armed
      ensures Fields() == Deactivated(old(Fields()))
    {
      epoch := epoch + 1;
      active, available, wantStart := false, false, false;
      DoClearTimers();
    }

    method OnDispose()
      requires Ranged(Seen())
      modifies this, page`runs
      ensures Fields() == Dispose(old(Seen())).c && page.runs == Dispose(old(Seen())).runs
    {
      DoDeactivate();
      DoDropCurrent();
      SetPhase(Idle);
    }

    method OnStartExplicit()
      requires Ranged(Seen())
      modifies this, page`runs
      ensures Seen() == StartExplicit(old(Seen()), me)
    {
      if phase != Idle && phase != Conditional { return; }
      DoClearTimers();
      DoDropCurrent();
      DoEnter(Button);
    }

    method OnStartPassword() returns (accepted: bool)
      requires Ranged(Seen())
      modifies this, page`runs
      ensures Fields() == StartPassword(old(Seen())).c && page.runs == StartPassword(old(Seen())).runs
      ensures accepted == Open(old(Fields()))
    {
      if phase != Idle && phase != Conditional { return false; }
      DoClearTimers();
      DoDropCurrent();
      SetPhase(Password);
      return true;
    }

    method OnEndPassword(outcome: Outcome, m: Moment)
      modifies this
      ensures Fields() == EndPassword(old(Fields()), outcome, m)
    {
      if phase != Password { return; }
      SetPhase(Idle);
      if outcome == Failed { DoRequestConditional(m); }
    }

    // ---------- timers and the page's visibility ----------

    method OnTick(id: nat)
      requires id in armed
      modifies this
      ensures Fields() == Tick(old(Fields()), id)
    {
      startTimer := None;
      checking := checking + multiset{armed[id]};
      armed := armed - {id};
    }

    method OnAvailable(captured: nat, ok: bool, m: Moment)
      requires Ranged(Seen())
      modifies this, page`runs
      ensures Seen() == Available(old(Seen()), me, captured, ok, m)
    {
      checking := checking - multiset{captured};
      if captured != epoch || !ok { return; }
      available := true;
      if m.hidden {
        wantStart := true;
        return;
      }
      DoStartConditional(m.now);
    }

    method OnVisibility(m: Moment)
      modifies this
      ensures Fields() == Visible(old(Fields()), m)
    {
      if m.hidden || !wantStart { return; }
      wantStart := false;
      DoRequestConditional(m);
    }

    method OnScheduled(m: Moment)
      requires Ranged(Seen())
      modifies this, page`runs
      ensures Seen() == Scheduled(old(Seen()), me, m)
    {
      scheduleTimer := None;
      DoStartConditional(m.now);
    }

    method OnRefreshDue(r: nat, m: Moment)
      requires Ranged(Seen()) && r < |page.runs|
      modifies this, page`runs
      ensures Seen() == RefreshDue(old(Seen()), r, m)
    {
      page.Update(r, page.runs[r].(refresh := false));
      if current != Some(r) { return; }
      if autoBegins >= CONDITIONAL_MAX_BEGINS {
        DoDropCurrent();
        SetPhase(Idle);
        return;
      }
      DoRequestConditional(m);
    }

    // ---------- the continuations of a run ----------

    method IsCurrentRun(r: nat) returns (yes: bool)
      requires r < |page.runs|
      ensures yes == IsCurrent(Seen(), r)
    {
      return current == Some(r) && !page.runs[r].aborted;
    }

    method MarkDone(r: nat)
      requires r < |page.runs|
      modifies page`runs
      ensures page.runs == old(page.runs)[r := old(page.runs[r]).(progress := Done)]
    {
      page.Update(r, page.runs[r].(progress := Done));
    }

    method OnWaited(r: nat)
      requires r < |page.runs|
      modifies page
      ensures Seen() == Waited(old(Seen()), r)
    {
      var mine := IsCurrentRun(r);
      if !mine {
        MarkDone(r);
        return;
      }
      page.Update(r, page.runs[r].(progress := Beginning));
      page.Record(BeginSent(r));
    }

    method OnWaitTimedOut(r: nat, m: Moment)
      requires r < |page.runs|
      modifies this, page
      ensures Seen() == WaitTimedOut(old(Seen()), r, m)
    {
      DoFail(r, Unexpected, m);
      page.Update(r, page.runs[r].(progress := Done, timedOut := true));
    }

    method OnBegun(r: nat, token: string, m: Moment)
      requires r < |page.runs|
      modifies page
      ensures Seen() == Begun(old(Seen()), r, token, m)
    {
      var mine := IsCurrentRun(r);
      if !mine {
        MarkDone(r);
        return;
      }
      var run := page.runs[r].(begunAt := m.now, stage := Get, token := Some(token));
      if run.kind == Auto { run := run.(refresh := true); } else { run := run.(refresh := false); }
      page.Update(r, run.(progress := Getting(token)));
      page.Record(GetCalled(r));
    }

    method OnGot(r: nat, m: Moment)
      requires r < |page.runs| && page.runs[r].progress.Getting?
      modifies this, page
      ensures Seen() == Got(old(Seen()), r, m)
    {
      var run := page.runs[r];
      var mine := IsCurrentRun(r);
      if !mine || phase != (if run.kind == Auto then Conditional else Explicit) {
        page.Update(r, run.(progress := Closing));
        return;
      }
      if m.now - run.begunAt >= CHALLENGE_MAX_AGE_MS {
        DoSettle(r);
        page.Record(Shown(r, LoginFailed));
        DoRequestConditional(m);
        page.Update(r, page.runs[r].(progress := Closing));
        return;
      }
      page.Update(r, run.(stage := Finish, refresh := false, progress := Sending));
      SetPhase(Finishing);
      page.Record(FinishSent(r, run.progress.token, m.now));
    }

    method OnFinished(r: nat)
      requires r < |page.runs|
      modifies page
      ensures Seen() == Finished(old(Seen()), r)
    {
      if current == Some(r) { page.Record(LoggedIn(r)); }
      page.Update(r, page.runs[r].(progress := Closing));
    }

    method OnClosed(r: nat)
      requires r < |page.runs|
      modifies page`runs
      ensures Seen() == Move(old(Seen()), r, Done)
    {
      MarkDone(r);
    }

    method OnRejected(r: nat, f: Failure, m: Moment)
      requires r < |page.runs|
      modifies this, page
      ensures Seen() == Rejected(old(Seen()), r, f, m)
    {
      DoFail(r, f, m);
      MarkDone(r);
    }
  }
}
