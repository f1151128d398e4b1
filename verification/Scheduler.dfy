/** The scheduler loop itself, on a run history and a clock that the rest of the world also moves:
    server/internal/articlefetch/scheduler.go. Failures, cancellation, the result of a run and what other
    instances do while this one holds no lock are nondeterministic. */
module Scheduler {
  import opened Wrappers
  import opened Schedule
  import opened FetchRuns

  const MAX_SLEEP := 10 * MINUTE

  /** A stretch of the protocol, from one state to another. */
  datatype Path = Path(states: seq<State>, events: seq<Event>) {
    ghost predicate Valid() {
      && |states| == |events| + 1
      && forall i :: 0 <= i < |events| ==> FetchRuns.Step(states[i], events[i], states[i + 1])
    }

    function Last(): State
      requires states != []
    {
      states[|states| - 1]
    }

    function Then(e: Event, s: State): Path { Path(states + [s], events + [e]) }
  }

  lemma PathGrows(p: Path, e: Event, s: State)
    requires p.Valid() && FetchRuns.Step(p.Last(), e, s)
    ensures p.Then(e, s).Valid() && p.Then(e, s).Last() == s
  {
    var q := p.Then(e, s);
    forall i | 0 <= i < |q.events| ensures FetchRuns.Step(q.states[i], q.events[i], q.states[i + 1]) {
      if i < |p.events| {
        assert q.states[i] == p.states[i] && q.events[i] == p.events[i] && q.states[i + 1] == p.states[i + 1];
      }
    }
  }

  /** Rows keep their place and identity, and finished rows their contents. */
  predicate HistoryKept(before: seq<Row>, after: seq<Row>) {
    && |before| <= |after|
    && forall r :: 0 <= r < |before| ==>
         && before[r].id == after[r].id && before[r].slot == after[r].slot && before[r].attempt == after[r].attempt
         && before[r].startedAt == after[r].startedAt && (before[r].status != Running ==> before[r] == after[r])
  }

  /** What the database, the job and the context do during one step. */
  datatype World = World(
    gotLock: bool, abandonOk: bool, readOk: bool, start: StartReply, status: Status, recorded: bool, cancelled: bool)

  datatype StartReply = Acknowledged | InsertedUnacknowledged | NotInserted

  /** The rows and the answer after a run that was due. */
  ghost predicate AttemptOutcome(base: seq<Row>, slot: int, attempt: int, w: World, now: int, finished: int,
                                 after: seq<Row>, retryAt: int, again: bool)
  {
    var started := InsertRow(base, slot, attempt, now);
    match w.start
    case NotInserted => after == base && !again
    case InsertedUnacknowledged => after == started && !again
    case Acknowledged =>
      && after == (if w.recorded then FinishRow(started, |base|, finished, w.status) else started)
      && (again <==> w.status == Failed && attempt < MAX_ATTEMPTS && !w.cancelled)
      && (again ==> retryAt == finished + RetryDelay(attempt))
  }

  /** The rows and the answer once stale runs have been abandoned. */
  ghost predicate JudgeOutcome(base: seq<Row>, slot: int, w: World, now: int, finished: int,
                               after: seq<Row>, retryAt: int, again: bool)
  {
    if !w.readOk then after == base && !again
    else
      var d := Decide(RunsForSlot(base, slot), now);
      if d.Skip? then after == base && !again
      else if !Due(d, now) then after == base && again && retryAt == d.notBefore.value
      else AttemptOutcome(base, slot, d.attempt, w, now, finished, after, retryAt, again)
  }

  /** The rows and the answer after a step that read the clock at `now` and ended at `finished`. */
  ghost predicate Outcome(before: seq<Row>, slot: int, w: World, now: int, finished: int,
                          after: seq<Row>, retryAt: int, again: bool)
  {
    if !w.gotLock || !w.abandonOk then after == before && !again
    else JudgeOutcome(AbandonRows(before, now), slot, w, now, finished, after, retryAt, again)
  }

  /** One step for a slot, as it went: the rows it found and left, when it began, read the clock and ended, and what it
      asked for. */
  datatype Visit = Visit(before: seq<Row>, began: int, now: int, world: World, after: seq<Row>, ended: int,
                         retryAt: int, again: bool)

  ghost predicate VisitOk(v: Visit, slot: int) {
    && v.began <= v.now <= v.ended && v.world.status != Running && InvRows(v.before, v.began)
    && Outcome(v.before, slot, v.world, v.now, v.ended, v.after, v.retryAt, v.again)
    && HistoryKept(v.before, v.after) && (v.again ==> v.retryAt > v.began)
  }

  /** The next step comes because the one before asked for it, not before the moment it named, which is before the next
      slot; in between others may extend the history. */
  ghost predicate Succeeds(v: Visit, next: Visit, slot: int) {
    && v.again && v.retryAt < NextSlot(slot) && v.retryAt <= next.began && v.ended <= next.began
    && HistoryKept(v.after, next.before)
  }

  /** The steps for one slot so far. */
  ghost predicate Visits(slot: int, vs: seq<Visit>) {
    && (forall k :: 0 <= k < |vs| ==> VisitOk(vs[k], slot))
    && (forall k :: 0 <= k < |vs| - 1 ==> Succeeds(vs[k], vs[k + 1], slot))
  }

  /** The steps made since a moment, the first at once; others may have extended the history after the last one. */
  ghost predicate Track(slot: int, vs: seq<Visit>, from: seq<Row>, since: int, rows: seq<Row>, clock: int) {
    && Visits(slot, vs)
    && (vs == [] ==> rows == from && clock == since)
    && (vs != [] ==>
          && vs[0].before == from && vs[0].began == since
          && HistoryKept(vs[|vs| - 1].after, rows) && vs[|vs| - 1].ended <= clock)
  }

  /** The last step asked for another one, for which the moment has come. */
  ghost predicate Called(slot: int, vs: seq<Visit>, clock: int) {
    vs != [] ==> var v := vs[|vs| - 1]; v.again && v.retryAt <= clock && v.retryAt < NextSlot(slot)
  }

  lemma TrackGrows(slot: int, vs: seq<Visit>, from: seq<Row>, since: int, v: Visit)
    requires Track(slot, vs, from, since, v.before, v.began) && Called(slot, vs, v.began) && VisitOk(v, slot)
    ensures Track(slot, vs + [v], from, since, v.after, v.ended)
  {
    if vs != [] { assert Succeeds(vs[|vs| - 1], v, slot); }
  }

  lemma TrackLater(slot: int, vs: seq<Visit>, from: seq<Row>, since: int, rows: seq<Row>, clock: int,
                   later: seq<Row>, now: int)
    requires vs != [] && Track(slot, vs, from, since, rows, clock) && HistoryKept(rows, later) && clock <= now
    ensures Track(slot, vs, from, since, later, now)
  {
  }

  /** The last step wants no other, or wants it only when the next slot has come. */
  ghost predicate Finished(slot: int, vs: seq<Visit>) {
    vs != [] && (!vs[|vs| - 1].again || vs[|vs| - 1].retryAt >= NextSlot(slot))
  }

  /** A slot taken up at an instant, with the steps made for it. */
  datatype Handling = Handling(slot: int, at: int, visits: seq<Visit>)

  /** It was the latest slot then, and all its steps came after. */
  ghost predicate Handled(h: Handling) {
    && h.slot == LatestSlot(h.at) && Visits(h.slot, h.visits)
    && (h.visits != [] ==> h.at <= h.visits[0].began)
  }

  /** Slots handled one after another: each had come, they strictly increase, and each was handled to its end before
      the next was taken up; the last one too, when nothing was cancelled. */
  ghost predicate Chronicle(hs: seq<Handling>, clock: int, complete: bool) {
    && (forall i :: 0 <= i < |hs| ==> Past(hs[i], clock))
    && (forall i, j :: 0 <= i < j < |hs| ==> Earlier(hs[i], hs[j]))
    && (forall i :: 0 <= i < |hs| && (i < |hs| - 1 || complete) ==> Ended(hs[i]))
  }

  ghost predicate Past(h: Handling, clock: int) { Handled(h) && IsSlot(h.slot) && h.slot <= clock }

  ghost predicate Ended(h: Handling) { Finished(h.slot, h.visits) }

  predicate Earlier(g: Handling, h: Handling) { g.slot < h.slot }

  lemma EarlierThanAll(hs: seq<Handling>, h: Handling)
    requires forall i, j :: 0 <= i < j < |hs| ==> Earlier(hs[i], hs[j])
    requires hs != [] ==> Earlier(hs[|hs| - 1], h)
    ensures forall i, j :: 0 <= i < j < |hs + [h]| ==> Earlier((hs + [h])[i], (hs + [h])[j])
  {
    forall i | 0 <= i < |hs| ensures Earlier(hs[i], h) {
      if i < |hs| - 1 { assert Earlier(hs[i], hs[|hs| - 1]); }
    }
  }

  lemma PastLater(h: Handling, clock: int, later: int)
    requires Past(h, clock) && clock <= later
    ensures Past(h, later)
  {
  }

  lemma ChronicleGrows(hs: seq<Handling>, clock: int, h: Handling, later: int, complete: bool)
    requires Chronicle(hs, clock, true) && Past(h, later) && clock <= later && (complete ==> Ended(h))
    requires hs != [] ==> Earlier(hs[|hs| - 1], h)
    ensures Chronicle(hs + [h], later, complete)
  {
    EarlierThanAll(hs, h);
    forall i | 0 <= i < |hs| ensures Past(hs[i], later) { PastLater(hs[i], clock, later); }
  }

  lemma ChronicleLater(hs: seq<Handling>, clock: int, later: int)
    requires Chronicle(hs, clock, true) && clock <= later
    ensures Chronicle(hs, later, false)
  {
    forall i | 0 <= i < |hs| ensures Past(hs[i], later) { PastLater(hs[i], clock, later); }
  }

  class Scheduler {
    var rows: seq<Row>
    var clock: int
    var cancelled: bool

    ghost predicate Valid()
      reads this
    {
      InvRows(rows, clock)
    }

    constructor (now: int)
      ensures Valid() && rows == [] && clock == now && !cancelled
    {
      rows, clock, cancelled := [], now, false;
    }

    /** ctx.Err() != nil: once cancelled it stays so. */
    method Cancelled() returns (yes: bool)
      modifies this`cancelled
      ensures yes == cancelled && (old(cancelled) ==> yes)
    {
      var now: bool := *;
      cancelled := cancelled || now;
      return cancelled;
    }

    method Now() returns (now: int)
      requires Valid()
      modifies this`clock
      ensures Valid() && old(clock) <= clock == now
    {
      var later: int :| clock <= later;
      ClockMoves(rows, clock, later);
      clock := later;
      return clock;
    }

    /** While this instance holds no lock, time passes and other instances extend the history. */
    method Interference(atLeast: int)
      requires Valid()
      modifies this`rows, this`clock
      ensures Valid() && old(clock) <= clock && atLeast <= clock && HistoryKept(old(rows), rows)
    {
      var later: int :| clock <= later && atLeast <= later;
      ClockMoves(rows, clock, later);
      clock := later;
      var others: seq<Row> := *;
      if InvRows(others, clock) && HistoryKept(rows, others) { rows := others; }
    }

    /** One locked step: the effect Outcome says, along a path of the protocol from no lock held to no lock held.
        When it asks to be called again, it names a later moment. */
    method Step(slot: int, w: World) returns (retryAt: int, again: bool, ghost path: Path, ghost now: int)
      requires Valid() && w.status != Running
      modifies this`rows, this`clock
      ensures Valid() && old(clock) <= now <= clock && HistoryKept(old(rows), rows)
      ensures Outcome(old(rows), slot, w, now, clock, rows, retryAt, again)
      ensures path.Valid() && path.states[0] == State(old(rows), old(clock), map[])
      ensures path.Last().rows == rows && path.Last().clock == clock && LockFree(path.Last())
      ensures again ==> retryAt > old(clock)
    {
      retryAt, again := 0, false;
      now := clock;
      ghost var s := State(rows, clock, map[]);
      path := Path([s], []);
      if !w.gotLock { return; }
      path := Take(path, TryLock(0, slot), Move(s, 0, rows, Locked(slot)));
      var t := Now();
      now := t;
      path := Take(path, Tick(t), path.Last().(clock := t));
      if !w.abandonOk {
        path := Take(path, Release(0), Move(path.Last(), 0, rows, Idle));
        return;
      }
      AbandonKeeps(rows, t, clock);
      rows := AbandonRows(rows, t);
      path := Take(path, Abandon(0), Move(path.Last(), 0, rows, Ready(slot, t)));
      retryAt, again, path := Judge(slot, t, w, path);
    }

    /** RunsForSlot and decide, and the attempt when one is due. */
    method Judge(slot: int, now: int, w: World, ghost path0: Path) returns (retryAt: int, again: bool, ghost path: Path)
      requires Valid() && path0.Valid() && now == clock && NoneRunning(rows) && w.status != Running
      requires path0.Last() == State(rows, clock, map[0 := Ready(slot, now)])
      modifies this`rows, this`clock
      ensures Valid() && old(clock) <= clock && HistoryKept(old(rows), rows)
      ensures JudgeOutcome(old(rows), slot, w, now, clock, rows, retryAt, again)
      ensures path.Valid() && path.states[0] == path0.states[0]
      ensures path.Last().rows == rows && path.Last().clock == clock && LockFree(path.Last())
      ensures again ==> retryAt > old(clock)
    {
      retryAt, again := 0, false;
      if !w.readOk {
        path := Take(path0, Release(0), Move(path0.Last(), 0, rows, Idle));
        return;
      }
      var d := Decide(RunsForSlot(rows, slot), now);
      path := Choice(path0, slot, now);
      if d.Skip? || (d.notBefore.Some? && d.notBefore.value > now) {
        if d.Go? { retryAt, again := d.notBefore.value, true; }
        return;
      }
      retryAt, again, path := Attempt(slot, now, d.attempt, w, path);
    }

    /** StartRun, then the run, then the record of its result unless that write is lost. */
    method Attempt(slot: int, now: int, attempt: int, w: World, ghost path0: Path)
      returns (retryAt: int, again: bool, ghost path: Path)
      requires Valid() && path0.Valid() && now == clock && NoneRunning(rows) && w.status != Running
      requires var d := Decide(RunsForSlot(rows, slot), now); Due(d, now) && d.attempt == attempt
      requires path0.Last() == State(rows, clock, map[0 := Chosen(slot, now, attempt)])
      modifies this`rows, this`clock
      ensures Valid() && old(clock) <= clock && HistoryKept(old(rows), rows)
      ensures AttemptOutcome(old(rows), slot, attempt, w, now, clock, rows, retryAt, again)
      ensures path.Valid() && path.states[0] == path0.states[0]
      ensures path.Last().rows == rows && path.Last().clock == clock && LockFree(path.Last())
      ensures again ==> retryAt > old(clock)
    {
      retryAt, again := 0, false;
      InsertKeeps(rows, slot, attempt, now, clock);
      var id := |rows|;
      if w.start != Acknowledged {
        if w.start == InsertedUnacknowledged { rows := InsertRow(rows, slot, attempt, now); }
        path := Take(path0, Start(0, w.start == InsertedUnacknowledged, false), Move(path0.Last(), 0, rows, Idle));
        return;
      }
      rows := InsertRow(rows, slot, attempt, now);
      path := Take(path0, Start(0, true, true), Move(path0.Last(), 0, rows, Executing(id)));
      var finished := Now();
      path := Take(path, Tick(finished), path.Last().(clock := finished));
      if w.recorded {
        FinishKeeps(rows, id, finished, w.status, clock);
        rows := FinishRow(rows, id, finished, w.status);
      }
      path := Take(path, Finish(0, w.status, w.recorded), Move(path.Last(), 0, rows, Idle));
      if w.status == Failed && attempt < MAX_ATTEMPTS && !w.cancelled {
        retryAt, again := finished + RetryDelay(attempt), true;
      }
    }

    /** Waits until t in pieces, recomputing from the clock each time; false when cancelled. */
    method SleepUntil(t: int) returns (ok: bool)
      requires Valid()
      modifies this
      ensures Valid() && old(clock) <= clock && HistoryKept(old(rows), rows)
      ensures ok ==> t <= clock
      ensures ok == !cancelled && (old(cancelled) ==> cancelled)
    {
      while t - clock > 0
        invariant Valid() && old(clock) <= clock && HistoryKept(old(rows), rows) && cancelled == old(cancelled)
        decreases t - clock
      {
        if * {
          cancelled := true;
          return false;
        }
        Interference(clock + if t - clock > MAX_SLEEP then MAX_SLEEP else t - clock);
      }
      var stopped := Cancelled();
      return !stopped;
    }

    /** One step, and the record of it. */
    method Visited(slot: int) returns (retryAt: int, again: bool, ghost v: Visit)
      requires Valid()
      modifies this
      ensures Valid() && (old(cancelled) ==> cancelled)
      ensures v.before == old(rows) && v.began == old(clock) && v.after == rows && v.ended == clock
      ensures v.retryAt == retryAt && v.again == again && VisitOk(v, slot)
    {
      var w: World := *;
      if w.status == Running { w := w.(status := Failed); }
      if cancelled { w := w.(cancelled := true); }
      ghost var path, now;
      retryAt, again, path, now := Step(slot, w);
      v := Visit(old(rows), old(clock), now, w, rows, clock, retryAt, again);
      cancelled := w.cancelled;
    }

    /** One more step for the slot, and the wait when it asks for another one before the next slot. */
    method Turn(slot: int, ghost done: seq<Visit>, ghost from: seq<Row>, ghost since: int)
      returns (go: bool, ghost visits: seq<Visit>)
      requires Valid() && Track(slot, done, from, since, rows, clock) && Called(slot, done, clock)
      modifies this
      ensures Valid() && old(clock) <= clock && HistoryKept(old(rows), rows) && (old(cancelled) ==> cancelled)
      ensures Track(slot, visits, from, since, rows, clock)
      ensures go ==> Called(slot, visits, clock) && old(clock) < clock && old(clock) < NextSlot(slot)
      ensures !go ==> cancelled || Finished(slot, visits)
    {
      var retryAt, again;
      ghost var v;
      retryAt, again, v := Visited(slot);
      TrackGrows(slot, done, from, since, v);
      visits := done + [v];
      if !again || retryAt >= NextSlot(slot) { return false, visits; }
      go := SleepUntil(retryAt);
      TrackLater(slot, visits, from, since, v.after, v.ended, rows, clock);
    }

    /** All attempts for one slot. It ends: every further step starts later, and never after the next slot. It ends only
        when cancelled, or when the last step wants no other before the next slot. */
    method Process(slot: int) returns (ghost visits: seq<Visit>)
      requires Valid()
      modifies this
      ensures Valid() && old(clock) <= clock && HistoryKept(old(rows), rows) && (old(cancelled) ==> cancelled)
      ensures Track(slot, visits, old(rows), old(clock), rows, clock) && (old(cancelled) ==> visits == [])
      ensures cancelled || Finished(slot, visits)
    {
      visits := [];
      var stopped := Cancelled();
      while !stopped
        invariant Valid() && old(clock) <= clock && HistoryKept(old(rows), rows)
        invariant stopped == cancelled && (old(cancelled) ==> cancelled && visits == [])
        invariant Track(slot, visits, old(rows), old(clock), rows, clock) && Called(slot, visits, clock)
        decreases NextSlot(slot) - clock
      {
        var go;
        go, visits := Turn(slot, visits, old(rows), old(clock));
        if !go { return; }
        stopped := Cancelled();
      }
    }

    /** Takes up the latest slot. */
    method Handle() returns (slot: int, ghost h: Handling)
      requires Valid()
      modifies this
      ensures Valid() && old(clock) <= clock && HistoryKept(old(rows), rows) && (old(cancelled) ==> cancelled)
      ensures h.slot == slot && Handled(h) && old(clock) <= h.at <= clock
      ensures cancelled || Finished(slot, h.visits)
    {
      var now := Now();
      SlotsAround(now);
      slot := LatestSlot(now);
      ghost var visits := Process(slot);
      h := Handling(slot, now, visits);
    }

    /** Sleeps until the next slot, and takes up the latest one then. */
    method Continue() returns (ok: bool, slot: int, ghost h: Handling)
      requires Valid()
      modifies this
      ensures Valid() && old(clock) <= clock && HistoryKept(old(rows), rows)
      ensures ok ==> h.slot == slot && Past(h, clock) && (cancelled || Ended(h))
      ensures ok ==> forall earlier :: IsSlot(earlier) && earlier <= old(clock) ==> earlier < slot
      ensures !ok ==> cancelled
    {
      var now := Now();
      SlotsAround(now);
      ok := SleepUntil(NextSlot(now));
      slot, h := 0, Handling(0, now, []);
      if ok {
        slot, h := Handle();
        SlotsAround(h.at);
        assert slot >= NextSlot(now);
      }
    }

    /** Catches up with the latest slot, then handles one slot after another until cancelled; `rounds` is how many
        slots it gets to. The slots it handles strictly increase, and each was handled to its end before the next. */
    method Run(rounds: nat) returns (slots: seq<int>, ghost handled: seq<Handling>)
      requires Valid()
      modifies this
      ensures Valid() && HistoryKept(old(rows), rows)
      ensures |slots| == |handled| && forall i :: 0 <= i < |slots| ==> slots[i] == handled[i].slot
      ensures Chronicle(handled, clock, !cancelled)
      ensures 1 <= |slots| <= rounds + 1 && (|slots| <= rounds ==> cancelled)
    {
      var slot;
      ghost var h;
      slot, h := Handle();
      SlotsAround(h.at);
      slots, handled := [slot], [h];
      ChronicleGrows([], clock, h, clock, !cancelled);
      for k := 0 to rounds
        invariant Valid() && HistoryKept(old(rows), rows)
        invariant |slots| == k + 1 == |handled| && forall i :: 0 <= i < |slots| ==> slots[i] == handled[i].slot
        invariant Chronicle(handled, clock, !cancelled)
      {
        var stopped := Cancelled();
        if stopped { return; }
        ghost var before := clock;
        var ok;
        ok, slot, h := Continue();
        if !ok {
          ChronicleLater(handled, before, clock);
          return;
        }
        assert Past(handled[k], before);
        ChronicleGrows(handled, before, h, clock, !cancelled);
        slots, handled := slots + [slot], handled + [h];
      }
    }
  }

  /** RunsForSlot and decide, as an event: the instance goes on exactly when the decision is due. */
  ghost method Choice(p: Path, slot: int, now: int) returns (q: Path)
    requires p.Valid() && p.Last().pcs == map[0 := Ready(slot, now)]
    ensures q.Valid() && q.states[0] == p.states[0]
    ensures var d := Decide(RunsForSlot(p.Last().rows, slot), now);
            q.Last() == p.Last().(pcs := map[0 := if Due(d, now) then Chosen(slot, now, d.attempt) else Idle])
  {
    var s := p.Last();
    var d := Decide(RunsForSlot(s.rows, slot), now);
    var next := Move(s, 0, s.rows, if Due(d, now) then Chosen(slot, now, d.attempt) else Idle);
    assert At(s, 0) == Ready(slot, now);
    q := Take(p, Choose(0), next);
    assert next.pcs == map[0 := if Due(d, now) then Chosen(slot, now, d.attempt) else Idle];
  }

  ghost method Take(p: Path, e: Event, s: State) returns (q: Path)
    requires p.Valid() && FetchRuns.Step(p.Last(), e, s)
    ensures q.Valid() && q.states[0] == p.states[0] && q.Last() == s
  {
    PathGrows(p, e, s);
    q := p.Then(e, s);
  }
}
