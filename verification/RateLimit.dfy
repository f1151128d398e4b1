/** The token bucket limiter with sweeping and a key cap: server/internal/platform/ratelimit/ratelimit.go.
    Instants and durations are in nanoseconds; tokens are exact reals (floating-point rounding is not modelled). */
module RateLimit {
  import opened Wrappers
  import opened Sets

  const MAX_KEYS := 100000
  const SECOND := 1_000_000_000
  const SWEEP_EVERY := 60 * SECOND
  const EPSILON := 0.000000001

  datatype Bucket = Bucket(tokens: real, last: int)

  datatype Config = Config(burst: real, every: int) {
    predicate Valid() { burst >= 1.0 && every >= 1 }
  }

  /** `lastSweep` is None for Go's zero time. */
  datatype Table = Table(buckets: map<string, Bucket>, lastSweep: Option<int>)

  datatype Call = Allow(key: string, now: int) | Wait(key: string, now: int) | Take(key: string, now: int)

  /** `Granted` also answers a Wait that need not wait, and every Take. */
  datatype Answer = Granted | Later(wait: int)

  // ---------- one bucket ----------

  function MinReal(a: real, b: real): real { if a <= b then a else b }

  function MaxReal(a: real, b: real): real { if a >= b then a else b }

  /** The tokens that come back in a duration. */
  function Gain(c: Config, duration: int): real
    requires c.Valid()
  {
    duration as real / c.every as real
  }

  function Elapsed(c: Config, b: Bucket, now: int): real
    requires c.Valid()
  {
    Gain(c, now - b.last)
  }

  function Refill(c: Config, b: Bucket, now: int): Bucket
    requires c.Valid()
  {
    if now > b.last then Bucket(MinReal(c.burst, b.tokens + Elapsed(c, b, now)), now) else Bucket(b.tokens, now)
  }

  function Spend(b: Bucket): Bucket { b.(tokens := MaxReal(0.0, b.tokens - 1.0)) }

  predicate Available(b: Bucket) { b.tokens >= 1.0 - EPSILON }

  function Ceil(x: real): int { -((-x).Floor) }

  /** Duration.Round to a microsecond, half away from zero, for a non-negative duration. */
  function RoundMicro(d: int): int {
    if 2 * (d % 1000) < 1000 then d - d % 1000 else d + 1000 - d % 1000
  }

  function UntilOne(c: Config, b: Bucket): int {
    RoundMicro(Ceil((1.0 - b.tokens) * c.every as real))
  }

  /** Back to full, that is, unused. */
  predicate Full(c: Config, b: Bucket, now: int)
    requires c.Valid()
  {
    b.tokens + Elapsed(c, b, now) >= c.burst
  }

  // ---------- the table ----------

  function DropFull(c: Config, t: Table, now: int): Table
    requires c.Valid()
  {
    Table(map k | k in t.buckets && !Full(c, t.buckets[k], now) :: t.buckets[k], Some(now))
  }

  predicate SweepDue(t: Table, now: int, gap: int) {
    t.lastSweep.None? || now - t.lastSweep.value >= gap
  }

  function Sweep(c: Config, t: Table, now: int): Table
    requires c.Valid()
  {
    if SweepDue(t, now, SWEEP_EVERY) then DropFull(c, t, now) else t
  }

  /** The table in which `touch` looks for room: swept, and swept again early when it is at the cap. */
  function Prepared(c: Config, t: Table, key: string, now: int): Table
    requires c.Valid()
  {
    var s := Sweep(c, t, now);
    if key !in s.buckets && |s.buckets| >= MAX_KEYS && SweepDue(s, now, SECOND) then DropFull(c, s, now) else s
  }

  /** Still at the cap: an arbitrary record is thrown away. */
  predicate MustEvict(c: Config, t: Table, key: string, now: int)
    requires c.Valid()
  {
    var p := Prepared(c, t, key, now);
    key !in p.buckets && |p.buckets| >= MAX_KEYS
  }

  /** The bucket that `touch` returns. */
  function Touched(c: Config, buckets: map<string, Bucket>, key: string, now: int): Bucket
    requires c.Valid()
  {
    Refill(c, if key in buckets then buckets[key] else Bucket(c.burst, now), now)
  }

  /** What a call answers, and the bucket it leaves, from the buckets it finds. */
  function Reply(c: Config, buckets: map<string, Bucket>, call: Call): Answer
    requires c.Valid()
  {
    var b := Touched(c, buckets, call.key, call.now);
    if call.Take? || Available(b) then Granted else Later(UntilOne(c, b))
  }

  function After(c: Config, buckets: map<string, Bucket>, call: Call): map<string, Bucket>
    requires c.Valid()
  {
    var b := Touched(c, buckets, call.key, call.now);
    match call
    case Allow(key, now) => buckets[key := if Available(b) then Spend(b) else b]
    case Take(key, now) => buckets[key := Spend(b)]
    case Wait(key, now) => if key in buckets then buckets[key := b] else buckets
  }

  predicate Evicts(c: Config, t: Table, call: Call)
    requires c.Valid()
  {
    !call.Wait? && MustEvict(c, t, call.key, call.now)
  }

  // ---------- the limiter ----------

  class Limiter {
    const config: Config
    var buckets: map<string, Bucket>
    var lastSweep: Option<int>

    ghost function View(): Table
      reads this
    {
      Table(buckets, lastSweep)
    }

    ghost predicate Valid()
      reads this
    {
      config.Valid() && |buckets| <= MAX_KEYS
    }

    /** New: nonsensical parameters are replaced. */
    constructor (burst: int, every: int)
      ensures Valid() && View() == Table(map[], None)
      ensures config == Config((if burst < 1 then 1 else burst) as real, if every <= 0 then SECOND else every)
    {
      config := Config((if burst < 1 then 1 else burst) as real, if every <= 0 then SECOND else every);
      buckets, lastSweep := map[], None;
    }

    method DoSweep(now: int)
      requires Valid()
      modifies this
      ensures Valid() && View() == Sweep(config, old(View()), now) && lastSweep.Some?
    {
      if lastSweep.Some? && now - lastSweep.value < SWEEP_EVERY { return; }
      lastSweep := Some(now);
      var keys, kept := buckets.Keys, buckets;
      while keys != {}
        invariant keys <= buckets.Keys && kept.Keys <= buckets.Keys
        invariant forall k :: k in buckets && (k in keys || !Full(config, buckets[k], now)) <==> k in kept
        invariant forall k :: k in kept ==> kept[k] == buckets[k]
        decreases keys
      {
        var k :| k in keys;
        keys := keys - {k};
        if Full(config, buckets[k], now) { kept := kept - {k}; }
      }
      SubsetCard(kept.Keys, buckets.Keys);
      buckets := kept;
      assert buckets == DropFull(config, old(View()), now).buckets;
    }

    /** Room for one more record: sweeps early, then throws one away if that was not enough. */
    method MakeRoom(now: int)
      requires Valid() && lastSweep.Some?
      modifies this
      ensures Valid() && |buckets| < MAX_KEYS
      ensures var s := old(View());
              var p := if |s.buckets| >= MAX_KEYS && SweepDue(s, now, SECOND) then DropFull(config, s, now) else s;
              lastSweep == p.lastSweep
              && if |p.buckets| < MAX_KEYS then buckets == p.buckets
                 else exists victim :: victim in p.buckets && buckets == p.buckets - {victim}
    {
      if |buckets| >= MAX_KEYS && now - lastSweep.value >= SECOND {
        lastSweep := None;
        DoSweep(now);
      }
      if |buckets| >= MAX_KEYS {
        assert buckets.Keys != {};
        var victim :| victim in buckets;
        ghost var before := buckets;
        buckets := buckets - {victim};
        assert buckets.Keys == before.Keys - {victim};
      }
    }

    method Prepare(key: string, now: int) returns (ghost from: map<string, Bucket>)
      requires Valid()
      modifies this
      ensures Valid() && IsRoom(config, old(View()), key, now, from, lastSweep)
      ensures from == buckets && (key !in buckets ==> |buckets| < MAX_KEYS)
    {
      DoSweep(now);
      if key !in buckets { MakeRoom(now); }
      from := buckets;
    }

    /** The refilled record of the key, made if there is none. */
    method Touch(key: string, now: int) returns (ghost from: map<string, Bucket>)
      requires Valid()
      modifies this
      ensures Valid() && IsRoom(config, old(View()), key, now, from, lastSweep)
      ensures key in buckets && buckets == from[key := Touched(config, from, key, now)]
    {
      from := Prepare(key, now);
      Store(key, Refill(config, if key in buckets then buckets[key] else Bucket(config.burst, now), now));
    }

    method Store(key: string, b: Bucket)
      requires Valid() && (key !in buckets ==> |buckets| < MAX_KEYS)
      modifies this`buckets
      ensures Valid() && buckets == old(buckets)[key := b]
    {
      ghost var present := buckets;
      buckets := buckets[key := b];
      assert buckets.Keys == present.Keys + {key};
    }

    /** A refused call is not counted. */
    method Allow(key: string, now: int) returns (r: Answer, ghost from: map<string, Bucket>)
      requires Valid()
      modifies this
      ensures Valid() && CallFrom(config, old(View()), Call.Allow(key, now), from, View(), r)
    {
      from := Touch(key, now);
      var b := buckets[key];
      if !Available(b) { return Later(UntilOne(config, b)), from; }
      Store(key, Spend(b));
      return Granted, from;
    }

    /** Uses nothing up and makes no record. */
    method Wait(key: string, now: int) returns (r: Answer, ghost from: map<string, Bucket>)
      requires Valid()
      modifies this
      ensures Valid() && CallFrom(config, old(View()), Call.Wait(key, now), from, View(), r)
    {
      DoSweep(now);
      from := buckets;
      if key !in buckets { return Granted, from; }
      Store(key, Refill(config, buckets[key], now));
      return if Available(buckets[key]) then Granted else Later(UntilOne(config, buckets[key])), from;
    }

    /** Counts whether or not anything is left. */
    method Take(key: string, now: int) returns (r: Answer, ghost from: map<string, Bucket>)
      requires Valid()
      modifies this
      ensures Valid() && CallFrom(config, old(View()), Call.Take(key, now), from, View(), r)
    {
      from := Touch(key, now);
      Store(key, Spend(buckets[key]));
      return Granted, from;
    }
  }

  /** `from` is the table in which a new record finds room: the prepared one, less one record if it has to be. */
  ghost predicate IsRoom(c: Config, t: Table, key: string, now: int, from: map<string, Bucket>, lastSweep: Option<int>)
    requires c.Valid()
  {
    var p := Prepared(c, t, key, now);
    && lastSweep == p.lastSweep
    && if MustEvict(c, t, key, now) then exists victim :: victim in p.buckets && from == p.buckets - {victim}
       else from == p.buckets
  }

  /** One call: what it starts from after making room, what it leaves, and what it answers. */
  ghost predicate CallFrom(c: Config, t: Table, call: Call, from: map<string, Bucket>, t': Table, r: Answer)
    requires c.Valid()
  {
    && (if call.Wait? then Table(from, t'.lastSweep) == Sweep(c, t, call.now)
        else IsRoom(c, t, call.key, call.now, from, t'.lastSweep))
    && t'.buckets == After(c, from, call)
    && r == Reply(c, from, call)
  }
}
