/** The login limiter's answers told from the history of calls alone: which failures and begins count, since when, and
    how long a refusal lasts. */
module LoginLimiterHistory {
  import opened Tags
  import opened LoginLimiter
  import opened LoginLimiterRuns

  const QUARTER := 15 * 60 * 1_000_000_000

  // ---------- the windows of an address ----------

  datatype Counted = Failures | Begins

  /** The calls that a window counts. */
  predicate Hits(c: Call, what: Counted, ip: string) {
    match what
    case Failures => (c.Failure? || c.FailureIP?) && c.ip == ip
    case Begins => c.AllowBegin? && c.ip == ip
  }

  /** The call that opened the latest window before call n: the first one counted, and then each one that comes 15
      minutes or more after the one that opened the window before. */
  function Opening(calls: seq<Call>, n: nat, what: Counted, ip: string): (i: int)
    requires n <= |calls|
    ensures -1 <= i < n && (i >= 0 ==> Hits(calls[i], what, ip))
  {
    if n == 0 then -1
    else
      var before := Opening(calls, n - 1, what, ip);
      if Hits(calls[n - 1], what, ip) && (before < 0 || calls[n - 1].now >= calls[before].now + QUARTER) then n - 1
      else before
  }

  /** How many of the calls i .. n-1 are counted. */
  function HitCount(calls: seq<Call>, i: nat, n: nat, what: Counted, ip: string): nat
    requires i <= n <= |calls|
    decreases n
  {
    if i == n then 0 else HitCount(calls, i, n - 1, what, ip) + if Hits(calls[n - 1], what, ip) then 1 else 0
  }

  function TableOf(t: Tables, what: Counted): map<string, Entry> {
    match what
    case Failures => t.ips
    case Begins => t.begins
  }

  /** An address's entry is its latest window: when it opened and how many it counted; begins past 60 do not count. */
  ghost predicate EntryTells(calls: seq<Call>, n: nat, what: Counted, ip: string)
    requires n <= |calls|
  {
    var m, i := TableOf(Ref(calls, n), what), Opening(calls, n, what, ip);
    && (ip in m <==> i >= 0)
    && (i >= 0 ==>
          var k := HitCount(calls, i, n, what, ip);
          m[ip] == Entry(if what == Begins && k > 60 then 60 else k, calls[i].now, 0, 0))
  }

  lemma EntryTellsNext(calls: seq<Call>, n: nat, what: Counted, ip: string)
    requires n < |calls| && EntryTells(calls, n, what, ip)
    ensures EntryTells(calls, n + 1, what, ip)
  {
    var i := Opening(calls, n, what, ip);
    if Hits(calls[n], what, ip) && Opening(calls, n + 1, what, ip) == n {
      assert HitCount(calls, n, n + 1, what, ip) == 1;
    }
  }

  lemma {:induction false} EntryOverRun(calls: seq<Call>, n: nat, what: Counted, ip: string)
    requires n <= |calls|
    ensures EntryTells(calls, n, what, ip)
  {
    if n > 0 {
      EntryOverRun(calls, n - 1, what, ip);
      EntryTellsNext(calls, n - 1, what, ip);
    }
  }

  /** What is left of an address's latest window once it holds as many as allowed. */
  function AddressLock(calls: seq<Call>, n: nat, what: Counted, ip: string, allowed: nat, now: int): int
    requires n <= |calls|
  {
    var i := Opening(calls, n, what, ip);
    if i >= 0 && HitCount(calls, i, n, what, ip) >= allowed && now < calls[i].now + QUARTER
    then calls[i].now + QUARTER - now else 0
  }

  // ---------- the failures of an account ----------

  /** Failures in a row of an account, and the instant of the last one. */
  datatype Streak = Streak(count: nat, last: int)

  function Lockout(count: nat): int {
    if count < 5 then 0
    else if count == 5 then MINUTE
    else if count == 6 then 2 * MINUTE
    else if count == 7 then 4 * MINUTE
    else if count == 8 then 8 * MINUTE
    else QUARTER
  }

  /** A success ends the streak, and so does a pause of 15 minutes after the last lockout. */
  function StreakOf(calls: seq<Call>, n: nat, key: string): Streak
    requires n <= |calls|
  {
    if n == 0 || IsSuccess(calls, n - 1, key) then Streak(0, 0)
    else
      var before := StreakOf(calls, n - 1, key);
      if !IsFailure(calls, n - 1, key) then before
      else if before.count > 0 && calls[n - 1].now < before.last + Lockout(before.count) + QUARTER
      then Streak(before.count + 1, calls[n - 1].now)
      else Streak(1, calls[n - 1].now)
  }

  ghost predicate AccountTells(t: Tables, key: string, s: Streak) {
    && (key in t.accounts <==> s.count > 0)
    && (s.count > 0 ==> s.last >= 0 && LastFailedAt(t.accounts[key], s.last) && t.accounts[key].failures == s.count)
  }

  lemma LockoutExact(e: Entry, t: nat)
    requires LastFailedAt(e, t)
    ensures e.windowStart == t + Lockout(e.failures)
    ensures e.lockUntil == if e.failures < 5 then 0 else t + Lockout(e.failures)
  {
    PowersUpToTen();
    if e.failures >= 5 { LockLengthExact(if e.failures - 5 <= MAX_LEVEL then e.failures - 5 else MAX_LEVEL); }
  }

  lemma FailureTells(calls: seq<Call>, n: nat, key: string)
    requires Chronological(calls) && n < |calls| && IsFailure(calls, n, key)
    requires AccountTells(Ref(calls, n), key, StreakOf(calls, n, key)) && StreakOf(calls, n, key).last <= calls[n].now
    ensures AccountTells(Ref(calls, n + 1), key, StreakOf(calls, n + 1, key))
  {
    var s, now := StreakOf(calls, n, key), calls[n].now;
    FailureEntry(calls, n, key);
    FirstFailureShape(now);
    if s.count > 0 {
      LockoutExact(Ref(calls, n).accounts[key], s.last);
      FailureKeepsShape(Ref(calls, n).accounts[key], s.last, now);
    }
  }

  lemma {:induction false} AccountOverRun(calls: seq<Call>, n: nat, key: string, now: nat)
    requires Chronological(calls) && n <= |calls| && (n > 0 ==> calls[n - 1].now <= now)
    ensures AccountTells(Ref(calls, n), key, StreakOf(calls, n, key))
    ensures StreakOf(calls, n, key).last <= now
  {
    if n > 0 {
      AccountOverRun(calls, n - 1, key, calls[n - 1].now);
      if IsFailure(calls, n - 1, key) {
        FailureTells(calls, n - 1, key);
      } else if !IsSuccess(calls, n - 1, key) {
        OthersLeaveAccount(Ref(calls, n - 1), calls[n - 1], key);
      }
    }
  }

  /** What is left of an account's lockout. */
  function AccountLock(calls: seq<Call>, n: nat, key: string, now: int): int
    requires n <= |calls|
  {
    var s := StreakOf(calls, n, key);
    if s.count >= 5 && now < s.last + Lockout(s.count) then s.last + Lockout(s.count) - now else 0
  }

  // ---------- the answers ----------

  function Refusal(wait: int): Answer { if wait > 0 then TooMany(wait) else Pass }

  lemma AddressLockExact(calls: seq<Call>, n: nat, ip: string, now: nat)
    requires n <= |calls|
    ensures IpWait(Ref(calls, n), ip, now) == AddressLock(calls, n, Failures, ip, 20, now)
  {
    EntryOverRun(calls, n, Failures, ip);
  }

  /** An address is refused from its 20th failure of a window on, until 15 minutes after the window's first failure, and
      only then; a success changes nothing. */
  lemma CheckIPExactly(tables: seq<Tables>, calls: seq<Call>, answers: seq<Answer>, n: nat)
    requires IsRun(tables, calls, answers) && Chronological(calls) && n < |calls| && calls[n].CheckIP?
    ensures answers[n] == Refusal(AddressLock(calls, n, Failures, calls[n].ip, 20, calls[n].now))
  {
    ForgettingIsUnobservable(tables, calls, answers, n);
    AddressLockExact(calls, n, calls[n].ip, calls[n].now);
  }

  /** An account is locked for 1, 2, 4, 8, then 15 minutes from the 5th failure of a streak on; a check answers with the
      longer of its account's and its address's lock. */
  lemma CheckExactly(tables: seq<Tables>, calls: seq<Call>, answers: seq<Answer>, n: nat)
    requires IsRun(tables, calls, answers) && Chronological(calls) && n < |calls| && calls[n].Check?
    ensures var c := calls[n];
            var account := AccountLock(calls, n, NormalizeTag(c.user), c.now);
            var address := AddressLock(calls, n, Failures, c.ip, 20, c.now);
            answers[n] == Refusal(if account >= address then account else address)
  {
    var c := calls[n];
    var key := NormalizeTag(c.user);
    ForgettingIsUnobservable(tables, calls, answers, n);
    AddressLockExact(calls, n, c.ip, c.now);
    AccountOverRun(calls, n, key, c.now);
    if StreakOf(calls, n, key).count > 0 {
      LockoutExact(Ref(calls, n).accounts[key], StreakOf(calls, n, key).last);
    }
  }

  /** A begin is refused exactly when its window holds 60 begins already, until that window ends. */
  lemma AllowBeginExactly(tables: seq<Tables>, calls: seq<Call>, answers: seq<Answer>, n: nat)
    requires IsRun(tables, calls, answers) && Chronological(calls) && n < |calls| && calls[n].AllowBegin?
    ensures answers[n] == Refusal(AddressLock(calls, n, Begins, calls[n].ip, 60, calls[n].now))
  {
    ForgettingIsUnobservable(tables, calls, answers, n);
    EntryOverRun(calls, n, Begins, calls[n].ip);
  }

  // ---------- what is kept ----------

  /** Neither its window nor a lockout is in force any more. */
  predicate Stale(e: Entry, now: int) { now >= e.windowStart + QUARTER && now >= e.lockUntil }

  predicate Counts(c: Call) { c.AllowBegin? || c.Failure? || c.FailureIP? }

  /** All records stay as they are, but stale ones when a sweep is due. */
  ghost predicate KeepsAll(m: map<string, Entry>, next: map<string, Entry>, sweeps: bool, now: int) {
    forall k ::
      && (k in next <==> k in m && !(sweeps && Stale(m[k], now)))
      && (k in next ==> next[k] == m[k])
  }

  /** The same, but for the record of this key. */
  ghost predicate KeepsOthers(m: map<string, Entry>, next: map<string, Entry>, sweeps: bool, now: int, own: string) {
    forall k :: k != own ==>
      && (k in next <==> k in m && !(sweeps && Stale(m[k], now)))
      && (k in next ==> next[k] == m[k])
  }

  /** What a call keeps of the three tables: only the record that it counts on, or that a success ends, may change. */
  ghost predicate Keeps(t: Tables, next: Tables, c: Call, sweeps: bool) {
    && (if c.Failure? || c.Success? then KeepsOthers(t.accounts, next.accounts, sweeps, c.now, NormalizeTag(c.user))
        else KeepsAll(t.accounts, next.accounts, sweeps, c.now))
    && (if c.Failure? || c.FailureIP? then KeepsOthers(t.ips, next.ips, sweeps, c.now, c.ip)
        else KeepsAll(t.ips, next.ips, sweeps, c.now))
    && (if c.AllowBegin? then KeepsOthers(t.begins, next.begins, sweeps, c.now, c.ip)
        else KeepsAll(t.begins, next.begins, sweeps, c.now))
    && (c.Success? ==> NormalizeTag(c.user) !in next.accounts)
  }

  lemma FoundKeeps(t: Tables, c: Call)
    ensures var sweeps := Counts(c) && |t.accounts| + |t.ips| + |t.begins| >= 10000;
            var found := Found(t, c);
            && KeepsAll(t.accounts, found.accounts, sweeps, c.now) && KeepsAll(t.ips, found.ips, sweeps, c.now)
            && KeepsAll(t.begins, found.begins, sweeps, c.now)
  {
  }

  lemma AfterKeeps(t: Tables, c: Call)
    ensures Keeps(t, After(t, c), c, false)
  {
  }

  lemma KeepsBoth(t: Tables, found: Tables, next: Tables, c: Call, sweeps: bool)
    requires KeepsAll(t.accounts, found.accounts, sweeps, c.now) && KeepsAll(t.ips, found.ips, sweeps, c.now)
    requires KeepsAll(t.begins, found.begins, sweeps, c.now) && Keeps(found, next, c, false)
    ensures Keeps(t, next, c, sweeps)
  {
  }

  /** A counting call sweeps all three tables exactly when they hold 10000 records; otherwise no call drops a record
      but a success that of its account. */
  lemma SweepsExactly(tables: seq<Tables>, calls: seq<Call>, answers: seq<Answer>, n: nat)
    requires IsRun(tables, calls, answers) && n < |calls|
    ensures var t := tables[n];
            Keeps(t, tables[n + 1], calls[n], Counts(calls[n]) && |t.accounts| + |t.ips| + |t.begins| >= 10000)
  {
    var t, c := tables[n], calls[n];
    RunStep(tables, calls, answers, n);
    FoundKeeps(t, c);
    AfterKeeps(Found(t, c), c);
    KeepsBoth(t, Found(t, c), tables[n + 1], c, Counts(c) && |t.accounts| + |t.ips| + |t.begins| >= 10000);
  }
}
