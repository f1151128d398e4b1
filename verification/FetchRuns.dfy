/** The fetch scheduler as a protocol of several instances over the persisted run history:
    server/internal/articlefetch/scheduler.go with the fetch_runs queries. Instants are in nanoseconds. */
module FetchRuns {
  import opened Wrappers
  import opened Sorting
  import opened Schedule

  const MAX_ATTEMPTS := 3

  datatype Status = Running | Succeeded | Partial | Failed

  /** A fetch_runs row; `finishedAt` is null while it runs. */
  datatype Row = Row(id: int, slot: int, attempt: int, startedAt: int, status: Status, finishedAt: Option<int>)

  function RetryDelay(attempt: int): int {
    if attempt <= 1 then 15 * MINUTE else 30 * MINUTE
  }

  // ---------- queries and updates ----------

  predicate Newer(a: Row, b: Row) {
    a.startedAt > b.startedAt || (a.startedAt == b.startedAt && a.id > b.id)
  }

  function SlotRows(rows: seq<Row>, slot: int): seq<Row> {
    if rows == [] then []
    else
      var rest := SlotRows(rows[..|rows| - 1], slot);
      if rows[|rows| - 1].slot == slot then rest + [rows[|rows| - 1]] else rest
  }

  /** ListFetchRunsForSlot: newest first. */
  function RunsForSlot(rows: seq<Row>, slot: int): seq<Row> {
    SortBy(Newer, SlotRows(rows, slot))
  }

  function Abandoned(r: Row, now: int): Row {
    if r.status == Running then r.(status := Failed, finishedAt := Some(now)) else r
  }

  /** AbandonStaleFetchRuns. */
  function AbandonRows(rows: seq<Row>, now: int): (r: seq<Row>)
    ensures |r| == |rows| && forall i :: 0 <= i < |rows| ==> r[i] == Abandoned(rows[i], now)
  {
    seq(|rows|, i requires 0 <= i < |rows| => Abandoned(rows[i], now))
  }

  /** InsertFetchRun, with the next identity. */
  function InsertRow(rows: seq<Row>, slot: int, attempt: int, now: int): seq<Row> {
    rows + [Row(|rows|, slot, attempt, now, Running, None)]
  }

  /** FinishFetchRun. */
  function FinishRow(rows: seq<Row>, id: int, finishedAt: int, status: Status): seq<Row> {
    if 0 <= id < |rows| then rows[id := rows[id].(status := status, finishedAt := Some(finishedAt))] else rows
  }

  // ---------- the decision ----------

  datatype Decision = Skip | Go(attempt: int, notBefore: Option<int>)

  function MaxAttempt(list: seq<Row>): (m: int)
    ensures 0 <= m && forall r :: r in list ==> r.attempt <= m
    ensures m == 0 || exists r :: r in list && r.attempt == m
  {
    if list == [] then 0
    else
      var rest := MaxAttempt(list[1..]);
      if list[0].attempt > rest then list[0].attempt else rest
  }

  /** What to do for a slot with this history (newest first); no `notBefore` means at once. */
  function Decide(list: seq<Row>, now: int): Decision {
    if list == [] then Go(1, None)
    else if exists r :: r in list && r.status != Failed then Skip
    else if MaxAttempt(list) >= MAX_ATTEMPTS then Skip
    else
      var last := if list[0].finishedAt.Some? then list[0].finishedAt.value else now;
      Go(MaxAttempt(list) + 1, Some(last + RetryDelay(MaxAttempt(list))))
  }

  predicate Due(d: Decision, now: int) {
    d.Go? && (d.notBefore.None? || d.notBefore.value <= now)
  }

  // ---------- what the history always looks like ----------

  function Count(rows: seq<Row>, slot: int, n: nat): nat
    requires n <= |rows|
  {
    if n == 0 then 0 else Count(rows, slot, n - 1) + if rows[n - 1].slot == slot then 1 else 0
  }

  predicate InvRow(rows: seq<Row>, r: nat, clock: int)
    requires r < |rows|
  {
    && rows[r].id == r
    && rows[r].startedAt <= clock
    && (rows[r].status == Running <==> rows[r].finishedAt.None?)
    && (rows[r].finishedAt.Some? ==> rows[r].startedAt <= rows[r].finishedAt.value <= clock)
    && rows[r].attempt == Count(rows, rows[r].slot, r) + 1 <= MAX_ATTEMPTS
  }

  predicate InvPair(rows: seq<Row>, q: nat, r: nat)
    requires q < r < |rows|
  {
    && rows[q].startedAt <= rows[r].startedAt
    && rows[q].status != Running
    && (rows[q].slot == rows[r].slot ==>
          && rows[q].status == Failed && rows[q].finishedAt.Some?
          && (rows[r].attempt == rows[q].attempt + 1 ==>
                rows[r].startedAt >= rows[q].finishedAt.value + RetryDelay(rows[q].attempt)))
  }

  predicate InvRows(rows: seq<Row>, clock: int) {
    && (forall r :: 0 <= r < |rows| ==> InvRow(rows, r, clock))
    && (forall q, r :: 0 <= q < r < |rows| ==> InvPair(rows, q, r))
  }

  ghost predicate NoneRunning(rows: seq<Row>) {
    forall r :: 0 <= r < |rows| ==> rows[r].status != Running
  }

  lemma {:induction false} CountSame(a: seq<Row>, b: seq<Row>, slot: int, n: nat)
    requires n <= |a| && n <= |b| && forall i :: 0 <= i < n ==> a[i].slot == b[i].slot
    ensures Count(a, slot, n) == Count(b, slot, n)
  {
    if n > 0 { CountSame(a, b, slot, n - 1); }
  }

  lemma {:induction false} CountGrows(rows: seq<Row>, slot: int, m: nat, n: nat)
    requires m <= n <= |rows|
    ensures Count(rows, slot, m) <= Count(rows, slot, n)
    ensures m < n && rows[m].slot == slot ==> Count(rows, slot, m) < Count(rows, slot, n)
  {
    if m < n { CountGrows(rows, slot, m, n - 1); }
  }

  lemma {:induction false} SlotRowsHas(rows: seq<Row>, slot: int, x: Row)
    ensures x in SlotRows(rows, slot) <==> x in rows && x.slot == slot
  {
    if rows != [] {
      var init := rows[..|rows| - 1];
      assert rows == init + [rows[|rows| - 1]];
      SlotRowsHas(init, slot, x);
    }
  }

  lemma {:induction false} SlotRowsCount(rows: seq<Row>, slot: int)
    ensures |SlotRows(rows, slot)| == Count(rows, slot, |rows|)
  {
    if rows != [] {
      var init := rows[..|rows| - 1];
      SlotRowsCount(init, slot);
      CountSame(init, rows, slot, |init|);
    }
  }

  lemma {:induction false} SlotRowsDistinct(rows: seq<Row>, slot: int)
    requires forall q, r :: 0 <= q < r < |rows| ==> rows[q].id != rows[r].id
    ensures Distinct(SlotRows(rows, slot))
  {
    if rows != [] {
      var init, last := rows[..|rows| - 1], rows[|rows| - 1];
      SlotRowsDistinct(init, slot);
      SlotRowsHas(init, slot, last);
      assert last !in init;
    }
  }

  /** IDs are positions, and start times follow them. */
  ghost predicate Chronological(rows: seq<Row>) {
    && (forall r :: 0 <= r < |rows| ==> rows[r].id == r)
    && (forall q, r :: 0 <= q < r < |rows| ==> rows[q].startedAt <= rows[r].startedAt)
  }

  lemma NewerIsTotal(rows: seq<Row>)
    requires Chronological(rows)
    ensures StrictTotalOn(Newer, Elems(rows))
    ensures forall x, y :: x in rows && y in rows && Newer(x, y) ==> y.id < x.id
  {
    forall x, y | x in Elems(rows) && y in Elems(rows) && x != y ensures Newer(x, y) || Newer(y, x) {
      var q :| 0 <= q < |rows| && rows[q] == x;
      var r :| 0 <= r < |rows| && rows[r] == y;
    }
    forall x, y | x in rows && y in rows && Newer(x, y) ensures y.id < x.id {
      var q :| 0 <= q < |rows| && rows[q] == x;
      var r :| 0 <= r < |rows| && rows[r] == y;
      assert !(q < r) || x.startedAt <= y.startedAt;
    }
  }

  lemma TotalOnSubset<T(!new)>(less: (T, T) -> bool, all: set<T>, part: set<T>)
    requires StrictTotalOn(less, all) && part <= all
    ensures StrictTotalOn(less, part)
  {
  }

  /** The newest row of a slot comes first in the list. */
  lemma NewestFirst(rows: seq<Row>, slot: int, clock: int) returns (list: seq<Row>)
    requires InvRows(rows, clock)
    ensures list == RunsForSlot(rows, slot) && |list| == Count(rows, slot, |rows|)
    ensures forall x :: x in list <==> x in rows && x.slot == slot
    ensures list != [] ==> forall x :: x in list ==> x.id <= list[0].id
  {
    assert Chronological(rows) by {
      forall r | 0 <= r < |rows| ensures rows[r].id == r { assert InvRow(rows, r, clock); }
      forall q, r | 0 <= q < r < |rows| ensures rows[q].startedAt <= rows[r].startedAt { assert InvPair(rows, q, r); }
    }
    var s := SlotRows(rows, slot);
    forall x { SlotRowsHas(rows, slot, x); }
    SlotRowsCount(rows, slot);
    SlotRowsDistinct(rows, slot);
    list := RunsForSlot(rows, slot);
    SameElems(list, s);
    assert forall x :: x in list <==> x in Elems(list);
    NewerIsTotal(rows);
    TotalOnSubset(Newer, Elems(rows), Elems(s));
    SortIncreasing(Newer, s);
    forall x | x in list ensures x.id <= list[0].id {
      var k :| 0 <= k < |list| && list[k] == x;
      assert k == 0 || Newer(list[0], x);
      assert list[0] in list;
    }
  }

  /** The decision in terms of the history: an attempt is due only as number k+1 after k failures, at least the
      retry delay after the last of them was recorded as finished. */
  lemma DecideMeans(rows: seq<Row>, slot: int, now: int, clock: int)
    requires InvRows(rows, clock) && NoneRunning(rows) && now <= clock
    ensures var d := Decide(RunsForSlot(rows, slot), now);
      && (d.Skip? <==> Count(rows, slot, |rows|) >= MAX_ATTEMPTS
                       || exists r :: 0 <= r < |rows| && rows[r].slot == slot && rows[r].status != Failed)
      && (d.Go? ==> d.attempt == Count(rows, slot, |rows|) + 1 && (d.notBefore.None? <==> d.attempt == 1))
      && (d.Go? ==> forall r :: 0 <= r < |rows| && rows[r].slot == slot && rows[r].attempt + 1 == d.attempt ==>
            d.notBefore.Some? && rows[r].finishedAt.Some?
            && d.notBefore.value == rows[r].finishedAt.value + RetryDelay(rows[r].attempt))
  {
    var list := NewestFirst(rows, slot, clock);
    if list != [] {
      var n := LastOfSlot(rows, slot, list, clock);
    } else {
      forall r | 0 <= r < |rows| ensures rows[r].slot != slot { assert rows[r] in rows; }
    }
    forall r | 0 <= r < |rows| && rows[r].slot == slot && rows[r].status != Failed
      ensures exists x :: x in list && x.status != Failed
    {
      assert rows[r] in list;
    }
  }

  /** The newest row of a slot carries the highest attempt, which is the number of the slot's rows, and no
      other does. */
  lemma LastOfSlot(rows: seq<Row>, slot: int, list: seq<Row>, clock: int) returns (n: nat)
    requires InvRows(rows, clock) && list != []
    requires forall x :: x in list <==> x in rows && x.slot == slot
    requires forall x :: x in list ==> x.id <= list[0].id
    ensures n < |rows| && rows[n] == list[0] && InvRow(rows, n, clock)
    ensures rows[n].attempt == MaxAttempt(list) == Count(rows, slot, |rows|)
    ensures forall r :: 0 <= r < |rows| && rows[r].slot == slot && rows[r].attempt == rows[n].attempt ==> r == n
  {
    var k := Count(rows, slot, |rows|);
    assert list[0] in rows;
    n :| 0 <= n < |rows| && rows[n] == list[0];
    assert InvRow(rows, n, clock);
    NewestIndex(rows, slot, list, n, clock);
    LastAttempt(rows, slot, n, clock);
    forall x | x in list ensures x.attempt <= k {
      var r :| 0 <= r < |rows| && rows[r] == x;
      assert InvRow(rows, r, clock);
      CountGrows(rows, slot, r, |rows|);
    }
    forall r | 0 <= r < |rows| && rows[r].slot == slot && rows[r].attempt == k ensures r == n {
      assert InvRow(rows, r, clock);
      CountGrows(rows, slot, r, n);
    }
  }

  lemma NewestIndex(rows: seq<Row>, slot: int, list: seq<Row>, n: nat, clock: int)
    requires InvRows(rows, clock) && list != [] && n < |rows| && rows[n] == list[0]
    requires forall x :: x in list <==> x in rows && x.slot == slot
    requires forall x :: x in list ==> x.id <= list[0].id
    ensures forall r :: 0 <= r < |rows| && rows[r].slot == slot ==> r <= n
  {
    forall r | 0 <= r < |rows| && rows[r].slot == slot ensures r <= n {
      assert rows[r] in list;
      assert InvRow(rows, r, clock) && InvRow(rows, n, clock);
    }
  }

  lemma LastAttempt(rows: seq<Row>, slot: int, n: nat, clock: int)
    requires InvRows(rows, clock) && n < |rows| && rows[n].slot == slot
    requires forall r :: 0 <= r < |rows| && rows[r].slot == slot ==> r <= n
    ensures rows[n].attempt == Count(rows, slot, |rows|)
  {
    assert InvRow(rows, n, clock);
    for m := n + 1 to |rows|
      invariant Count(rows, slot, m) == Count(rows, slot, n) + 1
    {
    }
  }

  // ---------- the three writes keep it ----------

  lemma ClockMoves(rows: seq<Row>, clock: int, clock': int)
    requires InvRows(rows, clock) && clock <= clock'
    ensures InvRows(rows, clock')
  {
    forall r | 0 <= r < |rows| ensures InvRow(rows, r, clock') { assert InvRow(rows, r, clock); }
  }

  lemma AbandonKeeps(rows: seq<Row>, now: int, clock: int)
    requires InvRows(rows, clock) && now == clock
    ensures InvRows(AbandonRows(rows, now), clock) && NoneRunning(AbandonRows(rows, now))
  {
    var rows' := AbandonRows(rows, now);
    forall r | 0 <= r < |rows'| ensures InvRow(rows', r, clock) {
      assert InvRow(rows, r, clock);
      CountSame(rows, rows', rows[r].slot, r);
    }
    forall q, r | 0 <= q < r < |rows'| ensures InvPair(rows', q, r) {
      assert InvPair(rows, q, r);
    }
  }

  lemma InsertKeeps(rows: seq<Row>, slot: int, attempt: int, now: int, clock: int)
    requires InvRows(rows, now) && NoneRunning(rows) && now <= clock
    requires var d := Decide(RunsForSlot(rows, slot), now); Due(d, now) && d.attempt == attempt
    ensures InvRows(InsertRow(rows, slot, attempt, now), clock)
  {
    var rows' := InsertRow(rows, slot, attempt, now);
    DecideMeans(rows, slot, now, now);
    forall r | 0 <= r < |rows'| ensures InvRow(rows', r, clock) {
      CountSame(rows, rows', rows'[r].slot, r);
      if r < |rows| { assert InvRow(rows, r, now); }
    }
    forall q, r | 0 <= q < r < |rows'| ensures InvPair(rows', q, r) {
      assert InvRow(rows, q, now);
      if r < |rows| { assert InvPair(rows, q, r); }
    }
  }

  lemma FinishKeeps(rows: seq<Row>, id: int, finishedAt: int, status: Status, clock: int)
    requires InvRows(rows, clock) && finishedAt == clock && status != Running
    requires id == |rows| - 1 >= 0 && rows[id].status == Running
    ensures InvRows(FinishRow(rows, id, finishedAt, status), clock)
  {
    var rows' := FinishRow(rows, id, finishedAt, status);
    forall r | 0 <= r < |rows'| ensures InvRow(rows', r, clock) {
      assert InvRow(rows, r, clock);
      CountSame(rows, rows', rows[r].slot, r);
    }
    forall q, r | 0 <= q < r < |rows'| ensures InvPair(rows', q, r) {
      assert InvPair(rows, q, r);
    }
  }

  // ---------- several instances ----------

  /** Where an instance is inside `step`. It holds the advisory lock from Locked on. */
  datatype Pc =
    | Idle
    | Locked(slot: int)
    | Ready(slot: int, now: int)
    | Chosen(slot: int, now: int, attempt: int)
    | Executing(id: int)

  datatype State = State(rows: seq<Row>, clock: int, pcs: map<int, Pc>)

  datatype Event =
    | Tick(to: int)
    | TryLock(inst: int, slot: int)
    | Abandon(inst: int)                                   // reads the clock, then AbandonStaleRuns succeeds
    | Choose(inst: int)                                    // RunsForSlot and decide
    | Start(inst: int, inserted: bool, acknowledged: bool) // an error may hide an insert that happened
    | Finish(inst: int, status: Status, recorded: bool)    // the finish write may be lost
    | Release(inst: int)                                   // return, error or crash: the lock goes

  function At(s: State, i: int): Pc {
    if i in s.pcs then s.pcs[i] else Idle
  }

  predicate LockFree(s: State) {
    forall i :: i in s.pcs ==> s.pcs[i].Idle?
  }

  function Move(s: State, i: int, rows: seq<Row>, pc: Pc): State {
    State(rows, s.clock, s.pcs[i := pc])
  }

  ghost predicate Step(s: State, e: Event, s': State) {
    match e
    case Tick(to) => s.clock <= to && s' == s.(clock := to)
    case TryLock(i, slot) => LockFree(s) && s' == Move(s, i, s.rows, Locked(slot))
    case Abandon(i) =>
      At(s, i).Locked? && s' == Move(s, i, AbandonRows(s.rows, s.clock), Ready(At(s, i).slot, s.clock))
    case Choose(i) =>
      && At(s, i).Ready?
      && var pc := At(s, i);
      var d := Decide(RunsForSlot(s.rows, pc.slot), pc.now);
      s' == Move(s, i, s.rows, if Due(d, pc.now) then Chosen(pc.slot, pc.now, d.attempt) else Idle)
    case Start(i, inserted, acknowledged) =>
      && At(s, i).Chosen? && (acknowledged ==> inserted)
      && var pc := At(s, i);
      s' == Move(s, i, if inserted then InsertRow(s.rows, pc.slot, pc.attempt, pc.now) else s.rows,
                 if acknowledged then Executing(|s.rows|) else Idle)
    case Finish(i, status, recorded) =>
      && At(s, i).Executing? && status != Running
      && s' == Move(s, i, if recorded then FinishRow(s.rows, At(s, i).id, s.clock, status) else s.rows, Idle)
    case Release(i) => s' == Move(s, i, s.rows, Idle)
  }

  ghost predicate InvPc(rows: seq<Row>, clock: int, pc: Pc) {
    match pc
    case Idle => true
    case Locked(_) => true
    case Ready(_, now) => now <= clock && InvRows(rows, now) && NoneRunning(rows)
    case Chosen(slot, now, attempt) =>
      && now <= clock && InvRows(rows, now) && NoneRunning(rows)
      && var d := Decide(RunsForSlot(rows, slot), now); Due(d, now) && d.attempt == attempt
    case Executing(id) => id == |rows| - 1 >= 0 && rows[id].status == Running
  }

  ghost predicate Inv(s: State) {
    && InvRows(s.rows, s.clock)
    && (forall i, j :: i in s.pcs && j in s.pcs && i != j ==> s.pcs[i].Idle? || s.pcs[j].Idle?)
    && (forall i :: i in s.pcs ==> InvPc(s.rows, s.clock, s.pcs[i]))
  }

  lemma MoveKeepsInv(s: State, i: int, rows: seq<Row>, pc: Pc)
    requires Inv(s) && InvRows(rows, s.clock) && InvPc(rows, s.clock, pc)
    requires !At(s, i).Idle? || LockFree(s) || (pc.Idle? && rows == s.rows)
    ensures Inv(Move(s, i, rows, pc))
  {
    var s' := Move(s, i, rows, pc);
    forall j | j in s'.pcs ensures InvPc(s'.rows, s'.clock, s'.pcs[j]) {
      if j != i { assert InvPc(s.rows, s.clock, s.pcs[j]); }
    }
  }

  lemma TickKeepsInv(s: State, to: int)
    requires Inv(s) && s.clock <= to
    ensures Inv(s.(clock := to))
  {
    ClockMoves(s.rows, s.clock, to);
    forall j | j in s.pcs ensures InvPc(s.rows, to, s.pcs[j]) { assert InvPc(s.rows, s.clock, s.pcs[j]); }
  }

  lemma StepKeepsInv(s: State, e: Event, s': State)
    requires Inv(s) && Step(s, e, s')
    ensures Inv(s')
  {
    match e
    case Tick(to) => TickKeepsInv(s, to);
    case TryLock(i, slot) => MoveKeepsInv(s, i, s.rows, Locked(slot));
    case Abandon(i) =>
      AbandonKeeps(s.rows, s.clock, s.clock);
      MoveKeepsInv(s, i, s'.rows, s'.pcs[i]);
    case Choose(i) =>
      assert InvPc(s.rows, s.clock, s.pcs[i]);
      MoveKeepsInv(s, i, s.rows, s'.pcs[i]);
    case Start(i, inserted, acknowledged) =>
      var pc := s.pcs[i];
      assert InvPc(s.rows, s.clock, pc);
      InsertKeeps(s.rows, pc.slot, pc.attempt, pc.now, s.clock);
      MoveKeepsInv(s, i, s'.rows, s'.pcs[i]);
    case Finish(i, status, recorded) =>
      assert InvPc(s.rows, s.clock, s.pcs[i]);
      FinishKeeps(s.rows, s.pcs[i].id, s.clock, status, s.clock);
      MoveKeepsInv(s, i, s'.rows, Idle);
    case Release(i) => MoveKeepsInv(s, i, s.rows, Idle);
  }

  // ---------- runs ----------

  ghost predicate IsRun(states: seq<State>, events: seq<Event>) {
    && |states| == |events| + 1
    && states[0].rows == [] && states[0].pcs == map[]
    && forall i {:trigger events[i]} :: 0 <= i < |events| ==> Step(states[i], events[i], states[i + 1])
  }

  lemma {:induction false} InvOverRuns(states: seq<State>, events: seq<Event>, n: nat)
    requires IsRun(states, events) && n < |states|
    ensures Inv(states[n])
  {
    if n > 0 {
      InvOverRuns(states, events, n - 1);
      assert Step(states[n - 1], events[n - 1], states[n]);
      StepKeepsInv(states[n - 1], events[n - 1], states[n]);
    }
  }

  /** At most one run is recorded as running. */
  lemma AtMostOneRunning(states: seq<State>, events: seq<Event>, n: nat, q: nat, r: nat)
    requires IsRun(states, events) && n < |states| && q < |states[n].rows| && r < |states[n].rows|
    requires states[n].rows[q].status == Running && states[n].rows[r].status == Running
    ensures q == r
  {
    InvOverRuns(states, events, n);
    var rows := states[n].rows;
    assert q < r ==> InvPair(rows, q, r);
    assert r < q ==> InvPair(rows, r, q);
  }

  ghost predicate HasAttempt(rows: seq<Row>, slot: int, a: int) {
    exists r :: 0 <= r < |rows| && rows[r].slot == slot && rows[r].attempt == a
  }

  /** The attempts recorded for a slot are exactly 1..k, each once and in order, with k at most 3. */
  lemma AttemptsAreOneToThree(states: seq<State>, events: seq<Event>, n: nat, slot: int) returns (k: nat)
    requires IsRun(states, events) && n < |states|
    ensures k <= MAX_ATTEMPTS
    ensures forall a :: HasAttempt(states[n].rows, slot, a) <==> 1 <= a <= k
    ensures forall q, r :: 0 <= q < r < |states[n].rows| && states[n].rows[q].slot == states[n].rows[r].slot == slot ==>
              states[n].rows[q].attempt < states[n].rows[r].attempt
  {
    InvOverRuns(states, events, n);
    var rows, clock := states[n].rows, states[n].clock;
    k := Count(rows, slot, |rows|);
    forall q, r | 0 <= q < r < |rows| && rows[q].slot == rows[r].slot == slot
      ensures rows[q].attempt < rows[r].attempt {
      assert InvRow(rows, q, clock) && InvRow(rows, r, clock);
      CountGrows(rows, slot, q, r);
    }
    forall r | 0 <= r < |rows| && rows[r].slot == slot ensures 1 <= rows[r].attempt <= k {
      assert InvRow(rows, r, clock);
      CountGrows(rows, slot, r, |rows|);
    }
    forall a | 1 <= a <= k ensures HasAttempt(rows, slot, a) {
      var r := NthRow(rows, slot, a, |rows|, clock);
    }
    if k > 0 {
      var r := NthRow(rows, slot, k, |rows|, clock);
      assert InvRow(rows, r, clock);
    }
  }

  lemma {:induction false} NthRow(rows: seq<Row>, slot: int, a: int, n: nat, clock: int) returns (r: nat)
    requires InvRows(rows, clock) && n <= |rows| && 1 <= a <= Count(rows, slot, n)
    ensures r < n && rows[r].slot == slot && rows[r].attempt == a
  {
    if Count(rows, slot, n - 1) < a {
      r := n - 1;
      assert InvRow(rows, r, clock);
    } else {
      r := NthRow(rows, slot, a, n - 1, clock);
    }
  }

  /** Attempt j+1 starts at least 15 (j = 1) or 30 (j = 2) minutes after attempt j was recorded as finished, and
      only after a recorded failure: nothing follows a succeeded or partial run of the slot. */
  lemma RetriesAreSpaced(states: seq<State>, events: seq<Event>, n: nat, q: nat, r: nat)
    requires IsRun(states, events) && n < |states|
    requires q < |states[n].rows| && r < |states[n].rows| && states[n].rows[q].slot == states[n].rows[r].slot
    requires states[n].rows[q].attempt < states[n].rows[r].attempt
    ensures states[n].rows[q].status == Failed && states[n].rows[q].finishedAt.Some?
    ensures states[n].rows[r].attempt == states[n].rows[q].attempt + 1 ==>
      states[n].rows[r].startedAt >= states[n].rows[q].finishedAt.value
                                     + if states[n].rows[q].attempt == 1 then 15 * MINUTE else 30 * MINUTE
  {
    InvOverRuns(states, events, n);
    var rows, clock := states[n].rows, states[n].clock;
    assert InvRow(rows, q, clock) && InvRow(rows, r, clock);
    if r < q { CountGrows(rows, rows[q].slot, r, q); }
    assert InvPair(rows, q, r);
  }

  /** History is append-only: a row keeps its identity, and once finished it never changes. */
  lemma HistoryIsKept(states: seq<State>, events: seq<Event>, n: nat, r: nat)
    requires IsRun(states, events) && n < |events| && r < |states[n].rows|
    ensures r < |states[n + 1].rows|
    ensures var a, b := states[n].rows[r], states[n + 1].rows[r];
            a.id == b.id && a.slot == b.slot && a.attempt == b.attempt && a.startedAt == b.startedAt
            && (a.status != Running ==> a == b)
  {
    InvOverRuns(states, events, n);
    var s, e := states[n], events[n];
    assert Step(s, e, states[n + 1]);
    if e.Finish? { assert InvPc(s.rows, s.clock, s.pcs[e.inst]); }
  }
}
