/** What the login limiter guarantees over whole runs of calls with nondecreasing times. */
module LoginLimiterRuns {
  import opened Wrappers
  import opened Tags
  import opened LoginLimiter

  // ---------- forgetting is unobservable ----------

  /** The tables after the first n calls when nothing is ever swept. */
  function Ref(calls: seq<Call>, n: nat): Tables
    requires n <= |calls|
  {
    if n == 0 then Tables(map[], map[], map[]) else After(Ref(calls, n - 1), calls[n - 1])
  }

  ghost predicate Chronological(calls: seq<Call>) {
    forall i, j :: 0 <= i < j < |calls| ==> calls[i].now <= calls[j].now
  }

  /** A run of the limiter: each call works on the swept tables. */
  ghost predicate IsRun(tables: seq<Tables>, calls: seq<Call>, answers: seq<Answer>) {
    && |tables| == |calls| + 1 && |answers| == |calls|
    && tables[0] == Tables(map[], map[], map[])
    && forall i {:trigger answers[i]} :: 0 <= i < |calls| ==>
         tables[i + 1] == After(Found(tables[i], calls[i]), calls[i])
         && answers[i] == Reply(Found(tables[i], calls[i]), calls[i])
  }

  ghost predicate SimMap(m: map<string, Entry>, ref: map<string, Entry>, now: nat) {
    && (forall k :: k in m ==> k in ref && m[k] == ref[k])
    && (forall k :: k in ref && k !in m ==> Over(ref[k], now))
  }

  ghost predicate Sim(t: Tables, ref: Tables, now: nat) {
    SimMap(t.accounts, ref.accounts, now) && SimMap(t.ips, ref.ips, now) && SimMap(t.begins, ref.begins, now)
  }

  lemma SimSwept(m: map<string, Entry>, ref: map<string, Entry>, now: nat)
    requires SimMap(m, ref, now)
    ensures SimMap(Swept(m, now), ref, now)
  {
  }

  lemma SimEntry(m: map<string, Entry>, ref: map<string, Entry>, key: string, e: Entry, now: nat)
    requires SimMap(m, ref, now)
    ensures EntryFor(m, key, now) == EntryFor(ref, key, now)
    ensures SimMap(m[key := e], ref[key := e], now)
  {
  }

  lemma SimLater(t: Tables, ref: Tables, now: nat, later: nat)
    requires Sim(t, ref, now) && now <= later
    ensures Sim(t, ref, later)
  {
  }

  lemma SimFound(t: Tables, ref: Tables, c: Call)
    requires Sim(t, ref, c.now)
    ensures Sim(Found(t, c), ref, c.now)
  {
    SimSwept(t.accounts, ref.accounts, c.now);
    SimSwept(t.ips, ref.ips, c.now);
    SimSwept(t.begins, ref.begins, c.now);
  }

  lemma SimReply(t: Tables, ref: Tables, c: Call)
    requires Sim(t, ref, c.now)
    ensures Reply(t, c) == Reply(ref, c)
  {
    if c.AllowBegin? { SimEntry(t.begins, ref.begins, c.ip, Entry(0, 0, 0, 0), c.now); }
  }

  lemma SimAfter(t: Tables, ref: Tables, c: Call)
    requires Sim(t, ref, c.now)
    ensures Sim(After(t, c), After(ref, c), c.now)
  {
    match c
    case AllowBegin(ip, now) =>
      SimEntry(t.begins, ref.begins, ip, After(t, c).begins[ip], now);
    case Failure(user, ip, now) =>
      var key := AccountKey(user);
      SimEntry(t.accounts, ref.accounts, key, Fail(EntryFor(t.accounts, key, now), now), now);
      SimEntry(t.ips, ref.ips, ip, Count(EntryFor(t.ips, ip, now)), now);
    case FailureIP(ip, now) =>
      SimEntry(t.ips, ref.ips, ip, Count(EntryFor(t.ips, ip, now)), now);
    case _ =>
  }

  lemma RunStep(tables: seq<Tables>, calls: seq<Call>, answers: seq<Answer>, i: nat)
    requires IsRun(tables, calls, answers) && i < |calls|
    ensures tables[i + 1] == After(Found(tables[i], calls[i]), calls[i])
    ensures answers[i] == Reply(Found(tables[i], calls[i]), calls[i])
  {
    assert answers[i] == Reply(Found(tables[i], calls[i]), calls[i]);
  }

  lemma {:induction false} SimOverRuns(tables: seq<Tables>, calls: seq<Call>, answers: seq<Answer>, n: nat, now: nat)
    requires IsRun(tables, calls, answers) && Chronological(calls) && n <= |calls|
    requires n > 0 ==> calls[n - 1].now <= now
    ensures Sim(tables[n], Ref(calls, n), now)
  {
    if n > 0 {
      var c := calls[n - 1];
      SimOverRuns(tables, calls, answers, n - 1, c.now);
      RunStep(tables, calls, answers, n - 1);
      SimFound(tables[n - 1], Ref(calls, n - 1), c);
      SimAfter(Found(tables[n - 1], c), Ref(calls, n - 1), c);
      SimLater(tables[n], Ref(calls, n), c.now, now);
    }
  }

  /** The limiter answers every call as one that never forgets. */
  lemma {:induction false} ForgettingIsUnobservable(tables: seq<Tables>, calls: seq<Call>, answers: seq<Answer>, n: nat)
    requires IsRun(tables, calls, answers) && Chronological(calls) && n < |calls|
    ensures answers[n] == Reply(Ref(calls, n), calls[n])
  {
    SimOverRuns(tables, calls, answers, n, calls[n].now);
    SimFound(tables[n], Ref(calls, n), calls[n]);
    SimReply(Found(tables[n], calls[n]), Ref(calls, n), calls[n]);
    RunStep(tables, calls, answers, n);
  }

  // ---------- the lockout lengths ----------

  lemma {:induction false} Pow2Monotone(a: nat, b: nat)
    requires a <= b
    ensures 1 <= Pow2(a) <= Pow2(b)
  {
    if a < b {
      Pow2Monotone(a, b - 1);
    } else if a > 0 {
      Pow2Monotone(a - 1, a - 1);
    }
  }

  lemma PowersUpToTen()
    ensures Pow2(0) == 1 && Pow2(1) == 2 && Pow2(2) == 4 && Pow2(3) == 8 && Pow2(4) == 16 && Pow2(10) == 1024
  {
    assert Pow2(6) == 4 * Pow2(4) && Pow2(8) == 4 * Pow2(6) && Pow2(10) == 4 * Pow2(8);
  }

  lemma ShiftExact(level: nat)
    requires level <= MAX_LEVEL
    ensures LOCKOUT_BASE * Pow2(level) < TWO63 && Shl64(LOCKOUT_BASE, level) == LOCKOUT_BASE * Pow2(level)
  {
    PowersUpToTen();
    Pow2Monotone(level, 10);
  }

  /** The shift never overflows at the levels that occur, so a lockout lasts 1, 2, 4, 8, then 15 minutes. */
  lemma LockLengthExact(level: nat)
    requires level <= MAX_LEVEL
    ensures Shl64(LOCKOUT_BASE, level) == LOCKOUT_BASE * Pow2(level)
    ensures LockLength(level) == if level < 4 then Pow2(level) * MINUTE else 15 * MINUTE
  {
    ShiftExact(level);
    PowersUpToTen();
    if level >= 4 { Pow2Monotone(4, level); } else { Pow2Monotone(level, 3); }
  }

  lemma LockLengthGrows(a: nat, b: nat)
    requires a <= b <= MAX_LEVEL
    ensures LockLength(a) <= LockLength(b)
  {
    LockLengthExact(a);
    LockLengthExact(b);
    Pow2Monotone(a, b);
    PowersUpToTen();
    if a < 4 { Pow2Monotone(a, 3); }
  }

  // ---------- one account ----------

  /** An account's entry whose last failure was at t. */
  ghost predicate LastFailedAt(e: Entry, t: nat) {
    && e.failures >= 1
    && (e.failures < ACCOUNT_MAX_FAILURES ==> e.windowStart == t && e.lockUntil == 0 && e.level == 0)
    && (e.failures >= ACCOUNT_MAX_FAILURES ==>
          && e.level == (if e.failures - 4 <= MAX_LEVEL then e.failures - 4 else MAX_LEVEL)
          && e.lockUntil == e.windowStart
             == t + LockLength(if e.failures - 5 <= MAX_LEVEL then e.failures - 5 else MAX_LEVEL))
  }

  /** The entry that the next failure starts from. */
  function Continued(e: Entry, now: nat): Entry { if Over(e, now) then Entry(0, now, 0, 0) else e }

  lemma FailureKeepsShape(e: Entry, t: nat, now: nat)
    requires LastFailedAt(e, t) && t <= now
    ensures LastFailedAt(Fail(Continued(e, now), now), now)
    ensures now < t + WINDOW ==> Fail(Continued(e, now), now).failures == e.failures + 1
  {
  }

  lemma FirstFailureShape(now: nat)
    ensures LastFailedAt(Fail(Entry(0, now, 0, 0), now), now)
  {
  }

  lemma FailureLocksLater(e: Entry, t: nat, now: nat)
    requires LastFailedAt(e, t) && t <= now && !Over(e, now)
    ensures Fail(e, now).lockUntil >= e.lockUntil
    ensures e.level <= Fail(e, now).level <= MAX_LEVEL
  {
    if e.failures >= ACCOUNT_MAX_FAILURES {
      LockLengthExact(e.level);
      LockLengthExact(if e.failures - 5 <= MAX_LEVEL then e.failures - 5 else MAX_LEVEL);
    }
  }

  /** Nine failures of one account in order, each starting from the entry the one before left, after its lockout. */
  ghost predicate Chain(es: seq<Entry>, ts: seq<nat>) {
    && |es| == |ts| == 9
    && (forall i :: 0 <= i < 9 ==> LastFailedAt(es[i], ts[i]))
    && (forall i :: 0 <= i < 8 ==> Follows(es[i], ts[i], es[i + 1], ts[i + 1]))
  }

  ghost predicate Follows(e: Entry, t: nat, next: Entry, now: nat) {
    t <= now && e.lockUntil <= now && next == Fail(Continued(e, now), now)
  }

  lemma {:induction false} ChainOrdered(es: seq<Entry>, ts: seq<nat>, i: nat, j: nat)
    requires Chain(es, ts) && i <= j < 9
    ensures ts[i] <= ts[j]
    decreases j - i
  {
    if i < j {
      ChainOrdered(es, ts, i, j - 1);
      assert Follows(es[j - 1], ts[j - 1], es[j], ts[j]);
    }
  }

  /** While no pause reaches the window, the count goes up by one each time. */
  lemma {:induction false} ChainCounts(es: seq<Entry>, ts: seq<nat>, i: nat)
    requires Chain(es, ts) && i < 9
    requires forall k :: 0 <= k < 8 ==> ts[k + 1] < ts[k] + WINDOW
    ensures es[i].failures == es[0].failures + i
  {
    if i > 0 {
      ChainCounts(es, ts, i - 1);
      assert Follows(es[i - 1], ts[i - 1], es[i], ts[i]);
      FailureKeepsShape(es[i - 1], ts[i - 1], ts[i]);
    }
  }

  lemma FailureLocks(e: Entry, t: nat, m: nat)
    requires LastFailedAt(e, t) && m < 4 && e.failures >= m + 5
    ensures e.lockUntil >= t + Pow2(m) * MINUTE
  {
    LockLengthGrows(m, if e.failures - 5 <= MAX_LEVEL then e.failures - 5 else MAX_LEVEL);
    LockLengthExact(m);
  }

  /** From the fifth on, each failure waits at least the m-th lockout. */
  lemma ChainWaits(es: seq<Entry>, ts: seq<nat>, m: nat)
    requires Chain(es, ts) && m < 4
    requires forall k :: 0 <= k < 8 ==> ts[k + 1] < ts[k] + WINDOW
    ensures ts[m + 5] >= ts[m + 4] + Pow2(m) * MINUTE
  {
    ChainCounts(es, ts, m + 4);
    assert es[0].failures >= 1 && LastFailedAt(es[m + 4], ts[m + 4]);
    FailureLocks(es[m + 4], ts[m + 4], m);
    assert Follows(es[m + 4], ts[m + 4], es[m + 5], ts[m + 5]);
  }

  /** The spacing argument: nine failures in a row, each after the lockout of the one before, span 15 minutes. */
  lemma NineFailuresSpan(es: seq<Entry>, ts: seq<nat>)
    requires Chain(es, ts)
    ensures ts[8] >= ts[0] + WINDOW
  {
    if i :| 0 <= i < 8 && ts[i + 1] >= ts[i] + WINDOW {
      ChainOrdered(es, ts, 0, i);
      ChainOrdered(es, ts, i + 1, 8);
    } else {
      ChainOrdered(es, ts, 0, 4);
      PowersUpToTen();
      ChainWaits(es, ts, 0);
      ChainWaits(es, ts, 1);
      ChainWaits(es, ts, 2);
      ChainWaits(es, ts, 3);
    }
  }

  // ---------- an account over a whole run ----------

  predicate IsFailure(calls: seq<Call>, n: nat, key: string)
    requires n < |calls|
  {
    calls[n].Failure? && AccountKey(calls[n].user) == key
  }

  predicate IsSuccess(calls: seq<Call>, n: nat, key: string)
    requires n < |calls|
  {
    calls[n].Success? && AccountKey(calls[n].user) == key
  }

  /** Between two failures of the account, with none in between and no success, the second one was checked and
      let pass. */
  ghost predicate CheckedBetween(calls: seq<Call>, answers: seq<Answer>, m: nat, n: nat, key: string)
    requires m < n < |calls| == |answers|
  {
    exists p :: m < p < n && calls[p].Check? && AccountKey(calls[p].user) == key && answers[p] == Pass
  }

  /** The stated use: on this account, between calls i and j, no success, and every failure follows a passing check
      with no other failure in between. */
  ghost predicate Disciplined(calls: seq<Call>, answers: seq<Answer>, i: nat, j: nat, key: string)
    requires i <= j <= |calls| == |answers|
  {
    && (forall n :: i <= n < j ==> !IsSuccess(calls, n, key))
    && (forall m, n :: (i <= m < n < j && IsFailure(calls, m, key) && IsFailure(calls, n, key)
                        && (forall k :: m < k < n ==> !IsFailure(calls, k, key))) ==>
                           CheckedBetween(calls, answers, m, n, key))
  }

  /** Only a failure or a success of the account itself changes its entry. */
  lemma OthersLeaveAccount(t: Tables, c: Call, key: string)
    requires c.Failure? ==> AccountKey(c.user) != key
    requires c.Success? ==> AccountKey(c.user) != key
    ensures key in After(t, c).accounts <==> key in t.accounts
    ensures key in t.accounts ==> After(t, c).accounts[key] == t.accounts[key]
  {
  }

  lemma {:induction false} AccountUntouched(calls: seq<Call>, m: nat, n: nat, key: string)
    requires m <= n <= |calls| && forall k :: m <= k < n ==> !IsFailure(calls, k, key) && !IsSuccess(calls, k, key)
    ensures key in Ref(calls, m).accounts <==> key in Ref(calls, n).accounts
    ensures key in Ref(calls, m).accounts ==> Ref(calls, n).accounts[key] == Ref(calls, m).accounts[key]
    decreases n - m
  {
    if m < n {
      AccountUntouched(calls, m, n - 1, key);
      assert !IsFailure(calls, n - 1, key) && !IsSuccess(calls, n - 1, key);
      OthersLeaveAccount(Ref(calls, n - 1), calls[n - 1], key);
    }
  }

  /** What a failure does to its own account. */
  lemma FailureEntry(calls: seq<Call>, n: nat, key: string)
    requires n < |calls| && IsFailure(calls, n, key)
    ensures key in Ref(calls, n + 1).accounts
    ensures Ref(calls, n + 1).accounts[key] == Fail(EntryFor(Ref(calls, n).accounts, key, calls[n].now), calls[n].now)
  {
  }

  /** Every entry an account has in the reference was shaped by a last failure. */
  lemma {:induction false} AccountShape(calls: seq<Call>, n: nat, key: string) returns (t: nat)
    requires n <= |calls| && Chronological(calls) && key in Ref(calls, n).accounts
    ensures LastFailedAt(Ref(calls, n).accounts[key], t) && n > 0 && t <= calls[n - 1].now
    ensures IsFailure(calls, n - 1, key) ==> t == calls[n - 1].now
  {
    var ref := Ref(calls, n - 1).accounts;
    if IsFailure(calls, n - 1, key) {
      t := calls[n - 1].now;
      FailureEntry(calls, n - 1, key);
      FirstFailureShape(t);
      if key in ref {
        var before := AccountShape(calls, n - 1, key);
        FailureKeepsShape(ref[key], before, t);
      }
    } else {
      if !IsSuccess(calls, n - 1, key) { OthersLeaveAccount(Ref(calls, n - 1), calls[n - 1], key); }
      t := AccountShape(calls, n - 1, key);
    }
  }

  /** Without a success, and without the reset of a window that has passed, no call moves an account's lockout
      earlier, and its level stays where the shift is exact. */
  lemma LockNeverMovesEarlier(calls: seq<Call>, n: nat, key: string)
    requires n < |calls| && Chronological(calls) && key in Ref(calls, n).accounts
    requires !IsSuccess(calls, n, key) && !Over(Ref(calls, n).accounts[key], calls[n].now)
    ensures key in Ref(calls, n + 1).accounts
    ensures Ref(calls, n + 1).accounts[key].lockUntil >= Ref(calls, n).accounts[key].lockUntil
    ensures Ref(calls, n).accounts[key].level <= Ref(calls, n + 1).accounts[key].level <= MAX_LEVEL
  {
    var t := AccountShape(calls, n, key);
    if IsFailure(calls, n, key) {
      FailureEntry(calls, n, key);
      FailureLocksLater(Ref(calls, n).accounts[key], t, calls[n].now);
    } else {
      OthersLeaveAccount(Ref(calls, n), calls[n], key);
    }
  }

  /** A check that passes finds the account out of lockout. */
  lemma PassMeansUnlocked(tables: seq<Tables>, calls: seq<Call>, answers: seq<Answer>, p: nat, key: string)
    requires IsRun(tables, calls, answers) && Chronological(calls) && p < |calls|
    requires calls[p].Check? && AccountKey(calls[p].user) == key && answers[p] == Pass && key in Ref(calls, p).accounts
    ensures Ref(calls, p).accounts[key].lockUntil <= calls[p].now
  {
    ForgettingIsUnobservable(tables, calls, answers, p);
  }

  /** One failure after the other: the second starts after the first one's lockout, from its entry. */
  lemma NextFailure(tables: seq<Tables>, calls: seq<Call>, answers: seq<Answer>, m: nat, n: nat, key: string)
    requires IsRun(tables, calls, answers) && Chronological(calls) && m < n < |calls|
    requires IsFailure(calls, m, key) && IsFailure(calls, n, key)
    requires forall k :: m < k < n ==> !IsFailure(calls, k, key) && !IsSuccess(calls, k, key)
    requires CheckedBetween(calls, answers, m, n, key)
    ensures key in Ref(calls, m + 1).accounts && key in Ref(calls, n + 1).accounts
    ensures Follows(Ref(calls, m + 1).accounts[key], calls[m].now, Ref(calls, n + 1).accounts[key], calls[n].now)
  {
    var p :| m < p < n && calls[p].Check? && AccountKey(calls[p].user) == key && answers[p] == Pass;
    FailureEntry(calls, m, key);
    AccountUntouched(calls, m + 1, p, key);
    PassMeansUnlocked(tables, calls, answers, p, key);
    AccountUntouched(calls, m + 1, n, key);
    FailureEntry(calls, n, key);
  }

  /** The entry right after a failure of the account. */
  ghost function EntryAfter(calls: seq<Call>, n: nat, key: string): Entry
    requires n < |calls| && IsFailure(calls, n, key)
  {
    FailureEntry(calls, n, key);
    Ref(calls, n + 1).accounts[key]
  }

  lemma EntryAfterShape(calls: seq<Call>, n: nat, key: string)
    requires Chronological(calls) && n < |calls| && IsFailure(calls, n, key)
    ensures LastFailedAt(EntryAfter(calls, n, key), calls[n].now)
  {
    FailureEntry(calls, n, key);
    var t := AccountShape(calls, n + 1, key);
  }

  /** `at` lists failures of the account in order, none left out. */
  ghost predicate Consecutive(calls: seq<Call>, at: seq<nat>, key: string) {
    && (forall k :: 0 <= k < |at| ==> at[k] < |calls| && IsFailure(calls, at[k], key))
    && (forall k :: 0 <= k < |at| - 1 ==> at[k] < at[k + 1] && NoFailureBetween(calls, at[k], at[k + 1], key))
  }

  ghost predicate NoFailureBetween(calls: seq<Call>, m: nat, n: nat, key: string)
    requires n < |calls|
  {
    forall k :: m < k < n ==> !IsFailure(calls, k, key)
  }

  lemma {:induction false} FromFirst(calls: seq<Call>, at: seq<nat>, key: string, k: nat)
    requires Consecutive(calls, at, key) && k < |at|
    ensures at[0] <= at[k]
  {
    if k > 0 {
      FromFirst(calls, at, key, k - 1);
      assert NoFailureBetween(calls, at[k - 1], at[k], key);
    }
  }

  lemma {:induction false} ToLast(calls: seq<Call>, at: seq<nat>, key: string, k: nat)
    requires Consecutive(calls, at, key) && k < |at|
    ensures at[k] <= at[|at| - 1]
    decreases |at| - k
  {
    if k < |at| - 1 {
      ToLast(calls, at, key, k + 1);
      assert NoFailureBetween(calls, at[k], at[k + 1], key);
    }
  }

  lemma DisciplinedFollows(tables: seq<Tables>, calls: seq<Call>, answers: seq<Answer>, i: nat, j: nat, key: string,
                           at: seq<nat>, k: nat)
    requires IsRun(tables, calls, answers) && Chronological(calls) && i <= j <= |calls|
    requires Disciplined(calls, answers, i, j, key) && Consecutive(calls, at, key)
    requires k + 1 < |at| && i <= at[0] && at[|at| - 1] < j
    ensures Follows(EntryAfter(calls, at[k], key), calls[at[k]].now, EntryAfter(calls, at[k + 1], key),
            calls[at[k + 1]].now)
  {
    FromFirst(calls, at, key, k);
    ToLast(calls, at, key, k + 1);
    assert NoFailureBetween(calls, at[k], at[k + 1], key);
    NextFailure(tables, calls, answers, at[k], at[k + 1], key);
  }

  /** Under that use, any nine failures of an account, in order, span at least 15 minutes: no half-open 15-minute
      interval holds more than eight. */
  lemma AtMostEightFailures(tables: seq<Tables>, calls: seq<Call>, answers: seq<Answer>, i: nat, j: nat, key: string,
      at: seq<nat>)
    requires IsRun(tables, calls, answers) && Chronological(calls) && i <= j <= |calls|
    requires Disciplined(calls, answers, i, j, key)
    requires |at| == 9 && Consecutive(calls, at, key) && i <= at[0] && at[8] < j
    ensures calls[at[8]].now >= calls[at[0]].now + WINDOW
  {
    var es := seq(9, k requires 0 <= k < 9 => EntryAfter(calls, at[k], key));
    var ts := seq(9, k requires 0 <= k < 9 => calls[at[k]].now);
    forall k | 0 <= k < 9 ensures LastFailedAt(es[k], ts[k]) {
      EntryAfterShape(calls, at[k], key);
    }
    forall k | 0 <= k < 8 ensures Follows(es[k], ts[k], es[k + 1], ts[k + 1]) {
      DisciplinedFollows(tables, calls, answers, i, j, key, at, k);
    }
    NineFailuresSpan(es, ts);
  }

  // ---------- the tumbling window of begins ----------

  /** How many of the begins i..j of an address were let through. */
  function Begins(calls: seq<Call>, answers: seq<Answer>, i: nat, j: nat, ip: string): nat
    requires i <= j <= |calls| == |answers|
    decreases j
  {
    if i == j then 0
    else Begins(calls, answers, i, j - 1, ip)
         + if calls[j - 1].AllowBegin? && calls[j - 1].ip == ip && answers[j - 1] == Pass then 1 else 0
  }

  ghost predicate BeginEntriesOk(t: Tables, ip: string) {
    ip in t.begins ==> 1 <= t.begins[ip].failures <= IP_MAX_BEGINS && t.begins[ip].lockUntil == 0
  }

  lemma BeginEntryStep(t: Tables, c: Call, ip: string)
    requires BeginEntriesOk(t, ip)
    ensures BeginEntriesOk(After(t, c), ip)
  {
  }

  lemma {:induction false} BeginEntries(calls: seq<Call>, n: nat, ip: string)
    requires n <= |calls|
    ensures BeginEntriesOk(Ref(calls, n), ip)
  {
    if n > 0 {
      BeginEntries(calls, n - 1, ip);
      BeginEntryStep(Ref(calls, n - 1), calls[n - 1], ip);
    }
  }

  /** What is left over from the window that began before `from` counts one less than its entry, since its first begin
      came earlier; a window that began later adds its own count. */
  predicate BeginBudget(t: Tables, ip: string, from: nat, passed: nat) {
    if ip !in t.begins then passed == 0
    else if t.begins[ip].windowStart < from then passed + 1 <= t.begins[ip].failures
    else passed <= IP_MAX_BEGINS - 1 + t.begins[ip].failures
  }

  lemma BudgetStep(t: Tables, c: Call, ip: string, from: nat, passed: nat)
    requires BeginEntriesOk(t, ip) && BeginBudget(t, ip, from, passed) && from <= c.now < from + WINDOW
    ensures BeginBudget(After(t, c), ip, from,
              passed + if c.AllowBegin? && c.ip == ip && Reply(t, c) == Pass then 1 else 0)
  {
  }

  /** One more call of the run, against the limiter that never forgets. */
  lemma BudgetNext(tables: seq<Tables>, calls: seq<Call>, answers: seq<Answer>, i: nat, j: nat, ip: string, from: nat)
    requires IsRun(tables, calls, answers) && Chronological(calls) && i <= j < |calls|
    requires from <= calls[j].now < from + WINDOW
    requires BeginEntriesOk(Ref(calls, j), ip) && BeginBudget(Ref(calls, j), ip, from, Begins(calls, answers, i, j, ip))
    ensures BeginBudget(Ref(calls, j + 1), ip, from, Begins(calls, answers, i, j + 1, ip))
  {
    ForgettingIsUnobservable(tables, calls, answers, j);
    BudgetStep(Ref(calls, j), calls[j], ip, from, Begins(calls, answers, i, j, ip));
  }

  lemma {:induction false} BudgetOverRun(tables: seq<Tables>, calls: seq<Call>, answers: seq<Answer>, i: nat, j: nat,
                                         ip: string, from: nat)
    requires IsRun(tables, calls, answers) && Chronological(calls) && i <= j <= |calls|
    requires forall n :: i <= n < j ==> from <= calls[n].now < from + WINDOW
    ensures BeginBudget(Ref(calls, j), ip, from, Begins(calls, answers, i, j, ip))
    decreases j
  {
    if i < j {
      BudgetOverRun(tables, calls, answers, i, j - 1, ip, from);
      BeginEntries(calls, j - 1, ip);
      BudgetNext(tables, calls, answers, i, j - 1, ip, from);
    } else {
      BeginEntries(calls, j, ip);
    }
  }

  /** Windows that begin with their first call let through at most 60 each, so at most 119 begins of an address
      fall into any half-open 15-minute interval. */
  lemma AtMost119Begins(tables: seq<Tables>, calls: seq<Call>, answers: seq<Answer>, i: nat, j: nat, ip: string,
      from: nat)
    requires IsRun(tables, calls, answers) && Chronological(calls) && i <= j <= |calls|
    requires forall n :: i <= n < j ==> from <= calls[n].now < from + WINDOW
    ensures Begins(calls, answers, i, j, ip) <= 119
  {
    BudgetOverRun(tables, calls, answers, i, j, ip, from);
    BeginEntries(calls, j, ip);
  }
}
