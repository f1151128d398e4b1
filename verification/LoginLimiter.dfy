/** The login attempt limiter: doubling lockouts per account and tumbling windows per address
    (server/internal/auth/limiter.go). Instants are nanoseconds since Go's zero time. */
module LoginLimiter {
  import opened Wrappers
  import opened Tags

  const MINUTE := 60_000_000_000
  const ACCOUNT_MAX_FAILURES := 5
  const IP_MAX_FAILURES := 20
  const IP_MAX_BEGINS := 60
  const WINDOW := 15 * MINUTE
  const LOCKOUT_BASE := MINUTE
  const LOCKOUT_MAX := 15 * MINUTE
  const SWEEP_AT := 10000
  const MAX_LEVEL := 10
  const TWO63 := 0x8000_0000_0000_0000

  datatype Entry = Entry(failures: nat, windowStart: nat, lockUntil: nat, level: nat)

  datatype Tables = Tables(accounts: map<string, Entry>, ips: map<string, Entry>, begins: map<string, Entry>)

  datatype Call =
    | Check(user: string, ip: string, now: nat)
    | CheckIP(ip: string, now: nat)
    | AllowBegin(ip: string, now: nat)
    | Failure(user: string, ip: string, now: nat)
    | FailureIP(ip: string, now: nat)
    | Success(user: string, now: nat)

  datatype Answer = Pass | TooMany(retryAfter: int)

  /** accountKey: lower case without surrounding space. */
  function AccountKey(user: string): string { NormalizeTag(user) }

  // ---------- entries ----------

  /** The window has passed and no lockout is in force: as good as no entry. */
  predicate Over(e: Entry, now: nat) {
    now >= e.windowStart + WINDOW && now >= e.lockUntil
  }

  function EntryFor(m: map<string, Entry>, key: string, now: nat): Entry {
    if key in m && !Over(m[key], now) then m[key] else Entry(0, now, 0, 0)
  }

  function Pow2(n: nat): nat { if n == 0 then 1 else 2 * Pow2(n - 1) }

  /** A 64-bit left shift, wrapping around. */
  function Shl64(x: int, n: nat): int {
    var y := x * Pow2(n) % (2 * TWO63);
    if y >= TWO63 then y - 2 * TWO63 else y
  }

  function LockLength(level: nat): int {
    var lock := Shl64(LOCKOUT_BASE, level);
    if lock > LOCKOUT_MAX || lock <= 0 then LOCKOUT_MAX else lock
  }

  lemma LockLengthPositive(level: nat)
    ensures 0 < LockLength(level) <= LOCKOUT_MAX
  {
  }

  /** One more failure of an account. */
  function Fail(e: Entry, now: nat): Entry {
    if e.failures + 1 < ACCOUNT_MAX_FAILURES then Entry(e.failures + 1, now, e.lockUntil, e.level)
    else
      LockLengthPositive(e.level);
      var until := now + LockLength(e.level);
      Entry(e.failures + 1, until, until, if e.level < MAX_LEVEL then e.level + 1 else e.level)
  }

  function Count(e: Entry): Entry { e.(failures := e.failures + 1) }

  // ---------- calls ----------

  function Swept(m: map<string, Entry>, now: nat): map<string, Entry> {
    map k | k in m && !Over(m[k], now) :: m[k]
  }

  function Sweep(t: Tables, now: nat): Tables {
    if |t.accounts| + |t.ips| + |t.begins| < SWEEP_AT then t
    else Tables(Swept(t.accounts, now), Swept(t.ips, now), Swept(t.begins, now))
  }

  function IpWait(t: Tables, ip: string, now: nat): int {
    if ip in t.ips && t.ips[ip].failures >= IP_MAX_FAILURES && now < t.ips[ip].windowStart + WINDOW
    then t.ips[ip].windowStart + WINDOW - now else 0
  }

  function AccountWait(t: Tables, key: string, now: nat): int {
    if key in t.accounts && now < t.accounts[key].lockUntil then t.accounts[key].lockUntil - now else 0
  }

  function Max(a: int, b: int): int { if a >= b then a else b }

  function WaitAnswer(wait: int): Answer { if wait > 0 then TooMany(wait) else Pass }

  function Reply(t: Tables, c: Call): Answer {
    match c
    case Check(user, ip, now) => WaitAnswer(Max(AccountWait(t, AccountKey(user), now), IpWait(t, ip, now)))
    case CheckIP(ip, now) => WaitAnswer(IpWait(t, ip, now))
    case AllowBegin(ip, now) =>
      var e := EntryFor(t.begins, ip, now);
      if e.failures >= IP_MAX_BEGINS then TooMany(e.windowStart + WINDOW - now) else Pass
    case _ => Pass
  }

  function After(t: Tables, c: Call): Tables {
    match c
    case Check(_, _, _) => t
    case CheckIP(_, _) => t
    case AllowBegin(ip, now) =>
      var e := EntryFor(t.begins, ip, now);
      t.(begins := t.begins[ip := if e.failures >= IP_MAX_BEGINS then e else Count(e)])
    case Failure(user, ip, now) =>
      var key := AccountKey(user);
      t.(accounts := t.accounts[key := Fail(EntryFor(t.accounts, key, now), now)],
         ips := t.ips[ip := Count(EntryFor(t.ips, ip, now))])
    case FailureIP(ip, now) => t.(ips := t.ips[ip := Count(EntryFor(t.ips, ip, now))])
    case Success(user, now) => t.(accounts := t.accounts - {AccountKey(user)})
  }

  predicate Sweeps(c: Call) { c.AllowBegin? || c.Failure? || c.FailureIP? }

  function Found(t: Tables, c: Call): Tables { if Sweeps(c) then Sweep(t, c.now) else t }

  // ---------- the limiter ----------

  class LoginLimiter {
    var accounts: map<string, Entry>
    var ips: map<string, Entry>
    var begins: map<string, Entry>

    ghost function View(): Tables
      reads this
    {
      Tables(accounts, ips, begins)
    }

    constructor ()
      ensures View() == Tables(map[], map[], map[])
    {
      accounts, ips, begins := map[], map[], map[];
    }

    method CheckAttempt(user: string, ip: string, now: nat) returns (r: Answer)
      ensures r == Reply(View(), Check(user, ip, now))
    {
      var wait := 0;
      var key := AccountKey(user);
      if key in accounts && now < accounts[key].lockUntil { wait := accounts[key].lockUntil - now; }
      var w := IpWaiting(ip, now);
      if w > wait { wait := w; }
      return if wait > 0 then TooMany(wait) else Pass;
    }

    method CheckAddress(ip: string, now: nat) returns (r: Answer)
      ensures r == Reply(View(), CheckIP(ip, now))
    {
      var wait := IpWaiting(ip, now);
      return if wait > 0 then TooMany(wait) else Pass;
    }

    method IpWaiting(ip: string, now: nat) returns (wait: int)
      ensures wait == IpWait(View(), ip, now)
    {
      if ip !in ips || ips[ip].failures < IP_MAX_FAILURES || now >= ips[ip].windowStart + WINDOW { return 0; }
      return ips[ip].windowStart + WINDOW - now;
    }

    method Begin(ip: string, now: nat) returns (r: Answer)
      modifies this
      ensures View() == After(Found(old(View()), AllowBegin(ip, now)), AllowBegin(ip, now))
      ensures r == Reply(Found(old(View()), AllowBegin(ip, now)), AllowBegin(ip, now))
    {
      DoSweep(now);
      var e := EntryFor(begins, ip, now);
      begins := begins[ip := e];
      if e.failures >= IP_MAX_BEGINS { return TooMany(e.windowStart + WINDOW - now); }
      begins := begins[ip := Count(e)];
      return Pass;
    }

    method Failed(user: string, ip: string, now: nat)
      modifies this
      ensures View() == After(Found(old(View()), Failure(user, ip, now)), Failure(user, ip, now))
    {
      DoSweep(now);
      var key := AccountKey(user);
      var e := EntryFor(accounts, key, now);
      e := e.(failures := e.failures + 1, windowStart := now);
      if e.failures >= ACCOUNT_MAX_FAILURES {
        LockLengthPositive(e.level);
        var until := now + LockLength(e.level);
        e := e.(lockUntil := until, windowStart := until);
        if e.level < MAX_LEVEL { e := e.(level := e.level + 1); }
      }
      accounts := accounts[key := e];
      ips := ips[ip := Count(EntryFor(ips, ip, now))];
    }

    method FailedAddress(ip: string, now: nat)
      modifies this
      ensures View() == After(Found(old(View()), FailureIP(ip, now)), FailureIP(ip, now))
    {
      DoSweep(now);
      ips := ips[ip := Count(EntryFor(ips, ip, now))];
    }

    method Succeeded(user: string, now: nat)
      modifies this`accounts
      ensures View() == After(old(View()), Success(user, now))
    {
      accounts := accounts - {AccountKey(user)};
    }

    method DoSweep(now: nat)
      modifies this
      ensures View() == Sweep(old(View()), now)
    {
      if |accounts| + |ips| + |begins| < SWEEP_AT { return; }
      accounts := SweepMap(accounts, now);
      ips := SweepMap(ips, now);
      begins := SweepMap(begins, now);
    }
  }

  method SweepMap(m: map<string, Entry>, now: nat) returns (kept: map<string, Entry>)
    ensures kept == Swept(m, now)
  {
    kept := m;
    var keys := m.Keys;
    while keys != {}
      invariant keys <= m.Keys && kept.Keys <= m.Keys
      invariant forall k :: k in m ==> (k in kept <==> k in keys || !Over(m[k], now))
      invariant forall k :: k in kept ==> kept[k] == m[k]
      decreases keys
    {
      var k :| k in keys;
      keys := keys - {k};
      if Over(m[k], now) { kept := kept - {k}; }
    }
  }
}
