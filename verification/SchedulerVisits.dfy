/** What the steps for one slot come to: which attempt each of them makes, and when the next one follows. */
module SchedulerVisits {
  import opened Wrappers
  import opened Schedule
  import opened FetchRuns
  import opened Scheduler

  function Delay(attempt: int): int { if attempt == 1 then 15 * MINUTE else 30 * MINUTE }

  /** The rows of the slot that a step finds, once what was left running counts as failed. */
  function Base(v: Visit): seq<Row> { AbandonRows(v.before, v.now) }

  /** The slot is settled: three attempts were made, or one of them did not fail. */
  ghost predicate Settled(rows: seq<Row>, slot: int) {
    Count(rows, slot, |rows|) >= 3 || exists r :: 0 <= r < |rows| && rows[r].slot == slot && rows[r].status != Failed
  }

  /** Attempt k failed and may be followed from this instant on; at once when there was none. */
  ghost predicate MayFollow(rows: seq<Row>, slot: int, k: nat, from: int, now: int) {
    if k == 0 then from == now
    else exists r :: 0 <= r < |rows| && rows[r].slot == slot && rows[r].attempt == k && rows[r].finishedAt.Some?
                     && from == rows[r].finishedAt.value + Delay(k)
  }

  /** An attempt as the database and the job let it go. */
  ghost predicate Attempted(v: Visit, slot: int, attempt: int) {
    var base, w := Base(v), v.world;
    var row := Row(|base|, slot, attempt, v.now, Running, None);
    match w.start
    case NotInserted => v.after == base && !v.again
    case InsertedUnacknowledged => v.after == base + [row] && !v.again
    case Acknowledged =>
      && v.after == base + [if w.recorded then row.(status := w.status, finishedAt := Some(v.ended)) else row]
      && (v.again <==> w.status == Failed && attempt < 3 && !w.cancelled)
      && (v.again ==> v.retryAt == v.ended + Delay(attempt))
  }

  lemma DecidesSo(rows: seq<Row>, slot: int, now: int) returns (k: nat, from: int)
    requires InvRows(rows, now) && NoneRunning(rows)
    ensures k == Count(rows, slot, |rows|)
    ensures Settled(rows, slot) ==> Decide(RunsForSlot(rows, slot), now) == Skip
    ensures !Settled(rows, slot) ==>
              && k < 3 && MayFollow(rows, slot, k, from, now)
              && Decide(RunsForSlot(rows, slot), now) == Go(k + 1, if k == 0 then None else Some(from))
  {
    DecideMeans(rows, slot, now, now);
    k, from := Count(rows, slot, |rows|), now;
    if 0 < k < 3 {
      var r := NthRow(rows, slot, k, |rows|, now);
      assert InvRow(rows, r, now);
      if rows[r].finishedAt.Some? { from := rows[r].finishedAt.value + Delay(k); }
    }
  }

  lemma AttemptsSo(v: Visit, slot: int, attempt: int)
    requires AttemptOutcome(Base(v), slot, attempt, v.world, v.now, v.ended, v.after, v.retryAt, v.again)
    requires 1 <= attempt
    ensures Attempted(v, slot, attempt)
  {
  }

  lemma JudgesSo(v: Visit, slot: int, k: nat, from: int)
    requires v.world.readOk && JudgeOutcome(Base(v), slot, v.world, v.now, v.ended, v.after, v.retryAt, v.again)
    requires Decide(RunsForSlot(Base(v), slot), v.now) ==
             if Settled(Base(v), slot) then Skip else Go(k + 1, if k == 0 then None else Some(from))
    requires k == 0 && !Settled(Base(v), slot) ==> from == v.now
    ensures Settled(Base(v), slot) ==> v.after == Base(v) && !v.again
    ensures !Settled(Base(v), slot) && v.now < from ==> v.after == Base(v) && v.again && v.retryAt == from
    ensures !Settled(Base(v), slot) && v.now >= from ==> Attempted(v, slot, k + 1)
  {
    if !Settled(Base(v), slot) && v.now >= from { AttemptsSo(v, slot, k + 1); }
  }

  /** A step that may work does nothing for a settled slot; before its time it only asks to come again then; and
      otherwise it makes attempt k+1 after k failures. */
  lemma VisitMeans(v: Visit, slot: int) returns (k: nat, from: int)
    requires VisitOk(v, slot) && v.world.gotLock && v.world.abandonOk && v.world.readOk
    ensures k == Count(Base(v), slot, |v.before|)
    ensures Settled(Base(v), slot) ==> v.after == Base(v) && !v.again
    ensures !Settled(Base(v), slot) ==> MayFollow(Base(v), slot, k, from, v.now)
    ensures !Settled(Base(v), slot) && v.now < from ==> v.after == Base(v) && v.again && v.retryAt == from
    ensures !Settled(Base(v), slot) && v.now >= from ==> Attempted(v, slot, k + 1)
  {
    ClockMoves(v.before, v.began, v.now);
    AbandonKeeps(v.before, v.now, v.now);
    k, from := DecidesSo(Base(v), slot, v.now);
    JudgesSo(v, slot, k, from);
  }

  /** A step that cannot take the lock, clear what is stale or read the history writes no attempt and does not come
      again. */
  lemma HinderedVisit(v: Visit, slot: int)
    requires VisitOk(v, slot) && !(v.world.gotLock && v.world.abandonOk && v.world.readOk)
    ensures !v.again && v.after == if v.world.gotLock && v.world.abandonOk then Base(v) else v.before
  {
  }

  /** Such a step counts what was left running as failed at its own instant, and leaves every other row. */
  lemma StaleFail(v: Visit, slot: int, r: nat)
    requires VisitOk(v, slot) && v.world.gotLock && v.world.abandonOk && r < |v.before|
    ensures r < |v.after|
    ensures v.after[r] == if v.before[r].status != Running then v.before[r]
                          else v.before[r].(status := Failed, finishedAt := Some(v.now))
  {
  }

  // ---------- a slot in peace ----------

  predicate Smooth(w: World) {
    w.gotLock && w.abandonOk && w.readOk && w.start == Acknowledged && w.recorded && !w.cancelled
  }

  /** Nothing goes wrong but the job itself, and nobody else writes in between. */
  ghost predicate Undisturbed(slot: int, vs: seq<Visit>) {
    && Visits(slot, vs)
    && (forall k :: 0 <= k < |vs| ==> Smooth(vs[k].world))
    && (forall k :: 0 <= k < |vs| - 1 ==> vs[k + 1].before == vs[k].after)
    && (vs != [] ==> NoneRunning(vs[0].before) && forall r :: 0 <= r < |vs[0].before| ==> vs[0].before[r].slot != slot)
  }

  /** The history of the slot is k failed attempts, the last one written last and finished at `last`. */
  ghost predicate FailedTimes(rows: seq<Row>, slot: int, k: nat, last: int) {
    && NoneRunning(rows) && Count(rows, slot, |rows|) == k
    && (forall r :: 0 <= r < |rows| && rows[r].slot == slot ==> rows[r].status == Failed)
    && (k > 0 ==> rows != [] && rows[|rows| - 1].slot == slot && rows[|rows| - 1].attempt == k
                  && rows[|rows| - 1].finishedAt == Some(last))
  }

  lemma {:induction false} NoneOfSlot(rows: seq<Row>, slot: int, n: nat)
    requires n <= |rows| && forall r :: 0 <= r < |rows| ==> rows[r].slot != slot
    ensures Count(rows, slot, n) == 0
  {
    if n > 0 { NoneOfSlot(rows, slot, n - 1); }
  }

  lemma NothingAbandoned(rows: seq<Row>, now: int)
    requires NoneRunning(rows)
    ensures AbandonRows(rows, now) == rows
  {
  }

  /** The row of the highest attempt is the last one, so the delay counts from its end. */
  lemma FollowsLast(rows: seq<Row>, slot: int, k: nat, last: int, from: int, now: int, clock: int)
    requires InvRows(rows, clock) && FailedTimes(rows, slot, k, last) && k > 0 && MayFollow(rows, slot, k, from, now)
    ensures from == last + Delay(k)
  {
    var r :| 0 <= r < |rows| && rows[r].slot == slot && rows[r].attempt == k && rows[r].finishedAt.Some?
             && from == rows[r].finishedAt.value + Delay(k);
    assert InvRow(rows, r, clock) && InvRow(rows, |rows| - 1, clock);
    if r < |rows| - 1 { CountGrows(rows, slot, r, |rows| - 1); }
  }

  lemma NextTimes(rows: seq<Row>, slot: int, k: nat, last: int, row: Row, ended: int)
    requires FailedTimes(rows, slot, k, last)
    requires row.slot == slot && row.attempt == k + 1 && row.status == Failed && row.finishedAt == Some(ended)
    ensures FailedTimes(rows + [row], slot, k + 1, ended)
  {
    CountSame(rows, rows + [row], slot, |rows|);
  }

  /** One step in peace. */
  lemma PeacefulVisit(v: Visit, slot: int, k: nat, last: int)
    requires VisitOk(v, slot) && Smooth(v.world) && k < 3 && FailedTimes(v.before, slot, k, last)
    requires k > 0 ==> v.began >= last + Delay(k)
    ensures v.after == v.before + [Row(|v.before|, slot, k + 1, v.now, v.world.status, Some(v.ended))]
    ensures v.again <==> v.world.status == Failed && k < 2
    ensures v.again ==> v.retryAt == v.ended + Delay(k + 1)
    ensures v.world.status == Failed ==> FailedTimes(v.after, slot, k + 1, v.ended)
  {
    NothingAbandoned(v.before, v.now);
    var n, from := VisitMeans(v, slot);
    if k > 0 { FollowsLast(v.before, slot, k, last, from, v.now, v.began); }
    if v.world.status == Failed {
      NextTimes(v.before, slot, k, last, Row(|v.before|, slot, k + 1, v.now, Failed, Some(v.ended)), v.ended);
    }
  }

  lemma {:induction false} PeacefulUpTo(slot: int, vs: seq<Visit>, n: nat)
    requires Undisturbed(slot, vs) && n < |vs|
    ensures n < 3
    ensures FailedTimes(vs[n].before, slot, n, if n == 0 then 0 else vs[n - 1].ended)
    ensures n > 0 ==> vs[n].began >= vs[n - 1].ended + Delay(n)
  {
    if n == 0 {
      NoneOfSlot(vs[0].before, slot, |vs[0].before|);
    } else {
      PeacefulUpTo(slot, vs, n - 1);
      assert Succeeds(vs[n - 1], vs[n], slot);
      PeacefulVisit(vs[n - 1], slot, n - 1, if n == 1 then 0 else vs[n - 2].ended);
    }
  }

  /** For a slot without history the scheduler makes its first attempt at once and, as long as the job fails, a second
      and a third one, 15 and 30 minutes after the one before; it stops with the first that does not fail. */
  lemma AttemptsInPeace(slot: int, vs: seq<Visit>, n: nat)
    requires Undisturbed(slot, vs) && n < |vs|
    ensures |vs| <= 3
    ensures vs[n].after ==
            vs[n].before + [Row(|vs[n].before|, slot, n + 1, vs[n].now, vs[n].world.status, Some(vs[n].ended))]
    ensures vs[n].again <==> vs[n].world.status == Failed && n < 2
    ensures vs[n].again ==> vs[n].retryAt == vs[n].ended + (if n == 0 then 15 * MINUTE else 30 * MINUTE)
    ensures n > 0 ==> vs[n].now >= vs[n - 1].ended + (if n == 1 then 15 * MINUTE else 30 * MINUTE)
  {
    PeacefulUpTo(slot, vs, n);
    PeacefulUpTo(slot, vs, |vs| - 1);
    PeacefulVisit(vs[n], slot, n, if n == 0 then 0 else vs[n - 1].ended);
  }
}
