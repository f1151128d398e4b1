/** What the token bucket limiter guarantees over whole runs of calls with nondecreasing times. */
module RateLimitRuns {
  import opened Wrappers
  import opened RateLimit
  import opened Sets

  // ---------- arithmetic of refilling ----------

  lemma GainAdds(c: Config, a: int, b: int)
    requires c.Valid()
    ensures Gain(c, a) + Gain(c, b) == Gain(c, a + b)
  {
    var e := c.every as real;
    assert (a as real + b as real) / e == a as real / e + b as real / e;
  }

  lemma GainMonotone(c: Config, a: int, b: int)
    requires c.Valid() && a <= b
    ensures Gain(c, a) <= Gain(c, b)
    ensures Gain(c, 0) == 0.0
  {
    GainAdds(c, a, b - a);
    var e := c.every as real;
    assert (b - a) as real / e >= 0.0;
  }

  lemma GainTimesEvery(c: Config, a: int)
    requires c.Valid()
    ensures Gain(c, a) * c.every as real == a as real
  {
  }

  predicate InRange(c: Config, b: Bucket, now: int) {
    0.0 <= b.tokens <= c.burst && b.last <= now
  }

  /** Refilling in two stages is refilling once. */
  lemma RefillTwice(c: Config, b: Bucket, s: int, t: int)
    requires c.Valid() && InRange(c, b, s) && s <= t
    ensures Refill(c, Refill(c, b, s), t) == Refill(c, b, t)
  {
    GainAdds(c, s - b.last, t - s);
    GainMonotone(c, 0, t - s);
    GainMonotone(c, 0, s - b.last);
  }

  lemma RefillRange(c: Config, b: Bucket, t: int)
    requires c.Valid() && InRange(c, b, t)
    ensures InRange(c, Refill(c, b, t), t)
    ensures Refill(c, b, t).tokens >= b.tokens
    ensures Full(c, b, t) <==> Refill(c, b, t) == Bucket(c.burst, t)
  {
    GainMonotone(c, 0, t - b.last);
  }

  lemma RefillGrowth(c: Config, b: Bucket, s: int, t: int)
    requires c.Valid() && InRange(c, b, s) && s <= t
    ensures Refill(c, b, t).tokens <= Refill(c, b, s).tokens + Gain(c, t - s)
  {
    RefillTwice(c, b, s, t);
    GainMonotone(c, 0, t - s);
  }

  lemma StaysFull(c: Config, b: Bucket, s: int, t: int)
    requires c.Valid() && Full(c, b, s) && s <= t
    ensures Full(c, b, t)
  {
    GainMonotone(c, s - b.last, t - b.last);
  }

  // ---------- the reference that never forgets ----------

  /** The buckets after the first n calls when nothing is ever swept or evicted. */
  function Ref(c: Config, calls: seq<Call>, n: nat): map<string, Bucket>
    requires c.Valid() && n <= |calls|
  {
    if n == 0 then map[] else After(c, Ref(c, calls, n - 1), calls[n - 1])
  }

  function RefAnswer(c: Config, calls: seq<Call>, n: nat): Answer
    requires c.Valid() && n < |calls|
  {
    Reply(c, Ref(c, calls, n), calls[n])
  }

  ghost predicate Chronological(calls: seq<Call>) {
    forall i, j :: 0 <= i < j < |calls| ==> calls[i].now <= calls[j].now
  }

  ghost predicate AllInRange(c: Config, buckets: map<string, Bucket>, now: int) {
    forall k :: k in buckets ==> InRange(c, buckets[k], now)
  }

  lemma AfterInRange(c: Config, buckets: map<string, Bucket>, call: Call)
    requires c.Valid() && AllInRange(c, buckets, call.now)
    ensures AllInRange(c, After(c, buckets, call), call.now)
    ensures InRange(c, Touched(c, buckets, call.key, call.now), call.now)
  {
    var b := if call.key in buckets then buckets[call.key] else Bucket(c.burst, call.now);
    RefillRange(c, b, call.now);
  }

  lemma {:induction false} RefInRange(c: Config, calls: seq<Call>, n: nat, now: int)
    requires c.Valid() && n <= |calls| && Chronological(calls) && (n > 0 ==> calls[n - 1].now <= now)
    ensures AllInRange(c, Ref(c, calls, n), now)
  {
    if n > 0 {
      RefInRange(c, calls, n - 1, calls[n - 1].now);
      AfterInRange(c, Ref(c, calls, n - 1), calls[n - 1]);
    }
  }

  // ---------- forgetting is unobservable ----------

  /** The table agrees with the reference, except that buckets which are full by now may be missing. */
  ghost predicate Sim(c: Config, buckets: map<string, Bucket>, ref: map<string, Bucket>, now: int)
    requires c.Valid()
  {
    && AllInRange(c, ref, now)
    && (forall k :: k in buckets ==> k in ref && buckets[k] == ref[k])
    && (forall k :: k in ref && k !in buckets ==> Full(c, ref[k], now))
  }

  lemma SimLater(c: Config, buckets: map<string, Bucket>, ref: map<string, Bucket>, s: int, t: int)
    requires c.Valid() && Sim(c, buckets, ref, s) && s <= t
    ensures Sim(c, buckets, ref, t)
  {
    forall k | k in ref && k !in buckets ensures Full(c, ref[k], t) { StaysFull(c, ref[k], s, t); }
  }

  lemma SimCall(c: Config, buckets: map<string, Bucket>, ref: map<string, Bucket>, call: Call)
    requires c.Valid() && Sim(c, buckets, ref, call.now)
    ensures Reply(c, buckets, call) == Reply(c, ref, call)
    ensures Sim(c, After(c, buckets, call), After(c, ref, call), call.now)
  {
    AfterInRange(c, ref, call);
    var k := call.key;
    if k in ref && k !in buckets {
      RefillRange(c, ref[k], call.now);
    }
    assert Touched(c, buckets, k, call.now) == Touched(c, ref, k, call.now);
    if call.Wait? && k in ref && k !in buckets {
      GainMonotone(c, 0, 0);
      assert Full(c, Touched(c, ref, k, call.now), call.now);
    }
  }

  /** A run of the limiter; `froms[i]` is the table call i worked on after making room. */
  ghost predicate IsRun(c: Config, tables: seq<Table>, froms: seq<map<string, Bucket>>, calls: seq<Call>,
      answers: seq<Answer>)
    requires c.Valid()
  {
    && |tables| == |calls| + 1 && |answers| == |froms| == |calls|
    && tables[0] == Table(map[], None)
    && forall i {:trigger froms[i]} :: 0 <= i < |calls| ==>
         CallFrom(c, tables[i], calls[i], froms[i], tables[i + 1], answers[i])
  }

  lemma SimRoom(c: Config, t: Table, call: Call, from: map<string, Bucket>, t': Table, r: Answer,
      ref: map<string, Bucket>)
    requires c.Valid() && CallFrom(c, t, call, from, t', r) && !Evicts(c, t, call)
    requires Sim(c, t.buckets, ref, call.now)
    ensures Sim(c, from, ref, call.now)
  {
    var s := Sweep(c, t, call.now);
    assert Sim(c, s.buckets, ref, call.now);
    assert Sim(c, DropFull(c, s, call.now).buckets, ref, call.now);
  }

  lemma {:induction false} SimOverRuns(c: Config, tables: seq<Table>, froms: seq<map<string, Bucket>>, calls: seq<Call>,
                                       answers: seq<Answer>, n: nat, now: int)
    requires c.Valid() && IsRun(c, tables, froms, calls, answers) && Chronological(calls) && n <= |calls|
    requires forall i :: 0 <= i < n ==> !Evicts(c, tables[i], calls[i])
    requires n > 0 ==> calls[n - 1].now <= now
    ensures Sim(c, tables[n].buckets, Ref(c, calls, n), now)
  {
    if n > 0 {
      var call, ref := calls[n - 1], Ref(c, calls, n - 1);
      SimOverRuns(c, tables, froms, calls, answers, n - 1, call.now);
      SimRoom(c, tables[n - 1], call, froms[n - 1], tables[n], answers[n - 1], ref);
      SimCall(c, froms[n - 1], ref, call);
      SimLater(c, tables[n].buckets, Ref(c, calls, n), call.now, now);
    }
  }

  /** As long as nothing has to be evicted, the limiter answers every call as one that never forgets. */
  lemma ForgettingIsUnobservable(c: Config, tables: seq<Table>, froms: seq<map<string, Bucket>>, calls: seq<Call>,
                                 answers: seq<Answer>, n: nat)
    requires c.Valid() && IsRun(c, tables, froms, calls, answers) && Chronological(calls) && n < |calls|
    requires forall i :: 0 <= i <= n ==> !Evicts(c, tables[i], calls[i])
    ensures answers[n] == RefAnswer(c, calls, n)
  {
    SimOverRuns(c, tables, froms, calls, answers, n, calls[n].now);
    SimRoom(c, tables[n], calls[n], froms[n], tables[n + 1], answers[n], Ref(c, calls, n));
    SimCall(c, froms[n], Ref(c, calls, n), calls[n]);
  }

  /** Below the cap nothing is ever evicted. */
  lemma NoEvictionBelowCap(c: Config, t: Table, call: Call)
    requires c.Valid() && |t.buckets| < MAX_KEYS
    ensures !Evicts(c, t, call)
  {
    var s := Sweep(c, t, call.now);
    SubsetCard(s.buckets.Keys, t.buckets.Keys);
    SubsetCard(Prepared(c, t, call.key, call.now).buckets.Keys, s.buckets.Keys);
  }

  /** The table never exceeds the cap, whatever happens. */
  lemma NeverAboveCap(c: Config, tables: seq<Table>, froms: seq<map<string, Bucket>>, calls: seq<Call>,
                      answers: seq<Answer>, n: nat)
    requires c.Valid() && IsRun(c, tables, froms, calls, answers) && n <= |calls|
    ensures |tables[n].buckets| <= MAX_KEYS
  {
    for m := 0 to n
      invariant |tables[m].buckets| <= MAX_KEYS
    {
      CapStep(c, tables[m], calls[m], froms[m], tables[m + 1], answers[m]);
    }
  }

  lemma CapStep(c: Config, t: Table, call: Call, from: map<string, Bucket>, t': Table, r: Answer)
    requires c.Valid() && CallFrom(c, t, call, from, t', r) && |t.buckets| <= MAX_KEYS
    ensures |t'.buckets| <= MAX_KEYS
  {
    RoomBelowCap(c, t, call, from, t', r);
    AfterBelowCap(c, from, call);
  }

  lemma AfterBelowCap(c: Config, from: map<string, Bucket>, call: Call)
    requires c.Valid() && |from| <= MAX_KEYS && (!call.Wait? && call.key !in from ==> |from| < MAX_KEYS)
    ensures |After(c, from, call)| <= MAX_KEYS
  {
    assert After(c, from, call).Keys == if call.Wait? then from.Keys else from.Keys + {call.key};
  }

  lemma RoomBelowCap(c: Config, t: Table, call: Call, from: map<string, Bucket>, t': Table, r: Answer)
    requires c.Valid() && CallFrom(c, t, call, from, t', r) && |t.buckets| <= MAX_KEYS
    ensures |from| <= MAX_KEYS && (!call.Wait? && call.key !in from ==> |from| < MAX_KEYS)
  {
    var s := Sweep(c, t, call.now);
    SubsetCard(s.buckets.Keys, t.buckets.Keys);
    if !call.Wait? {
      var p := Prepared(c, t, call.key, call.now);
      SubsetCard(p.buckets.Keys, s.buckets.Keys);
      if Evicts(c, t, call) {
        var victim :| victim in p.buckets && from == p.buckets - {victim};
        assert from.Keys == p.buckets.Keys - {victim};
      }
    }
  }

  // ---------- the quantitative bounds, on the reference ----------

  /** The tokens a key would have at time t. */
  function Level(c: Config, buckets: map<string, Bucket>, key: string, t: int): real
    requires c.Valid()
  {
    Touched(c, buckets, key, t).tokens
  }

  predicate IsGrant(c: Config, calls: seq<Call>, n: nat, key: string)
    requires c.Valid() && n < |calls|
  {
    calls[n].Allow? && calls[n].key == key && RefAnswer(c, calls, n) == Granted
  }

  function Grants(c: Config, calls: seq<Call>, i: nat, j: nat, key: string): nat
    requires c.Valid() && i <= j <= |calls|
    decreases j
  {
    if i == j then 0 else Grants(c, calls, i, j - 1, key) + if IsGrant(c, calls, j - 1, key) then 1 else 0
  }

  /** One call: the level at a later moment drops by at least 1 - epsilon when the call grants, and never rises. */
  lemma LevelAfterCall(c: Config, buckets: map<string, Bucket>, call: Call, key: string)
    requires c.Valid() && AllInRange(c, buckets, call.now)
    ensures var spent :=
              if call.Allow? && call.key == key && Reply(c, buckets, call) == Granted then 1.0 - EPSILON else 0.0;
            Level(c, After(c, buckets, call), key, call.now) + spent <= Level(c, buckets, key, call.now)
  {
    var b := if key in buckets then buckets[key] else Bucket(c.burst, call.now);
    RefillRange(c, b, call.now);
  }

  lemma LevelGrowth(c: Config, buckets: map<string, Bucket>, key: string, s: int, t: int)
    requires c.Valid() && AllInRange(c, buckets, s) && s <= t
    ensures 0.0 <= Level(c, buckets, key, t) <= Level(c, buckets, key, s) + Gain(c, t - s)
    ensures Level(c, buckets, key, t) <= c.burst
  {
    GainMonotone(c, 0, t - s);
    if key in buckets {
      RefillGrowth(c, buckets[key], s, t);
      RefillRange(c, buckets[key], t);
    }
  }

  lemma {:induction false} LevelOverRun(c: Config, calls: seq<Call>, i: nat, j: nat, key: string)
    requires c.Valid() && Chronological(calls) && i < j <= |calls|
    ensures Grants(c, calls, i, j, key) as real * (1.0 - EPSILON) + Level(c, Ref(c, calls, j), key, calls[j - 1].now)
            <= c.burst + Gain(c, calls[j - 1].now - calls[i].now)
    decreases j
  {
    var last := calls[j - 1];
    var ref := Ref(c, calls, j - 1);
    RefInRange(c, calls, j - 1, last.now);
    LevelAfterCall(c, ref, last, key);
    if j == i + 1 {
      LevelGrowth(c, ref, key, last.now, last.now);
      GainMonotone(c, 0, 0);
    } else {
      LevelOverRun(c, calls, i, j - 1, key);
      var before := calls[j - 2].now;
      RefInRange(c, calls, j - 1, before);
      LevelGrowth(c, ref, key, before, last.now);
      GainAdds(c, before - calls[i].now, last.now - before);
    }
  }

  /** n grants on a key within time T satisfy n (1 - epsilon) <= burst + T / every. */
  lemma GrantsAreBounded(c: Config, calls: seq<Call>, i: nat, j: nat, key: string)
    requires c.Valid() && Chronological(calls) && i < j <= |calls|
    ensures Grants(c, calls, i, j, key) as real * (1.0 - EPSILON) <= c.burst + Gain(c, calls[j - 1].now - calls[i].now)
  {
    LevelOverRun(c, calls, i, j, key);
    RefInRange(c, calls, j, calls[j - 1].now);
    LevelGrowth(c, Ref(c, calls, j), key, calls[j - 1].now, calls[j - 1].now);
  }

  /** How many of the answers i..j to a key's Allow calls were grants. */
  function GrantCount(calls: seq<Call>, answers: seq<Answer>, i: nat, j: nat, key: string): nat
    requires i <= j <= |calls| == |answers|
    decreases j
  {
    if i == j then 0
    else GrantCount(calls, answers, i, j - 1, key)
         + if calls[j - 1].Allow? && calls[j - 1].key == key && answers[j - 1] == Granted then 1 else 0
  }

  lemma {:induction false} SameGrants(c: Config, tables: seq<Table>, froms: seq<map<string, Bucket>>, calls: seq<Call>,
                                      answers: seq<Answer>, i: nat, j: nat, key: string)
    requires c.Valid() && IsRun(c, tables, froms, calls, answers) && Chronological(calls) && i <= j <= |calls|
    requires forall n :: 0 <= n < j ==> !Evicts(c, tables[n], calls[n])
    ensures GrantCount(calls, answers, i, j, key) == Grants(c, calls, i, j, key)
    decreases j
  {
    if i < j {
      SameGrants(c, tables, froms, calls, answers, i, j - 1, key);
      ForgettingIsUnobservable(c, tables, froms, calls, answers, j - 1);
    }
  }

  /** The bound for the limiter itself, sweeping included, as long as nothing is evicted. */
  lemma LimiterGrantsAreBounded(c: Config, tables: seq<Table>, froms: seq<map<string, Bucket>>, calls: seq<Call>,
                                answers: seq<Answer>, i: nat, j: nat, key: string)
    requires c.Valid() && IsRun(c, tables, froms, calls, answers) && Chronological(calls) && i < j <= |calls|
    requires forall n :: 0 <= n < j ==> !Evicts(c, tables[n], calls[n])
    ensures GrantCount(calls, answers, i, j, key) as real * (1.0 - EPSILON)
            <= c.burst + Gain(c, calls[j - 1].now - calls[i].now)
  {
    SameGrants(c, tables, froms, calls, answers, i, j, key);
    GrantsAreBounded(c, calls, i, j, key);
  }

  lemma RoundNear(d: int)
    ensures d - 500 < RoundMicro(d) <= d + 500
  {
  }

  lemma LongEnough(gain: real, lack: real, e: real)
    requires e > 0.0 && gain * e >= lack * e
    ensures gain >= lack
  {
  }

  lemma TooShort(gain: real, lack: real, slack: real, e: real)
    requires e > 0.0 && gain * e < lack * e - slack * e
    ensures gain < lack - slack
  {
    assert lack * e - slack * e == (lack - slack) * e;
    if gain >= lack - slack {
      LongEnough(gain, lack - slack, e);
    }
  }

  /** The exact time until one token is back, in nanoseconds. */
  function Need(c: Config, b: Bucket): real { (1.0 - b.tokens) * c.every as real }

  lemma WaitBracket(c: Config, b: Bucket)
    ensures (UntilOne(c, b) - 501) as real < Need(c, b) <= (UntilOne(c, b) + 500) as real
  {
    RoundNear(Ceil(Need(c, b)));
  }

  lemma NeedPassed(c: Config, b: Bucket, t: int)
    requires c.Valid() && b.last <= t && (t - b.last) as real >= Need(c, b)
    ensures Gain(c, t - b.last) >= 1.0 - b.tokens
  {
    GainTimesEvery(c, t - b.last);
    LongEnough(Gain(c, t - b.last), 1.0 - b.tokens, c.every as real);
  }

  lemma NeedMissing(c: Config, b: Bucket, t: int)
    requires c.Valid() && b.last <= t && (t - b.last) as real < Need(c, b) - EPSILON * c.every as real
    ensures Gain(c, t - b.last) < 1.0 - b.tokens - EPSILON
  {
    GainTimesEvery(c, t - b.last);
    TooShort(Gain(c, t - b.last), 1.0 - b.tokens, EPSILON, c.every as real);
  }

  /** The waiting time that comes with a refusal is right to within rounding, on both sides. */
  lemma WaitIsAccurate(c: Config, b: Bucket, t: int)
    requires c.Valid() && InRange(c, b, b.last) && !Available(b) && b.last <= t
    ensures t >= b.last + UntilOne(c, b) + 500 ==> Available(Refill(c, b, t))
    ensures (t - b.last) as real <= (UntilOne(c, b) - 501) as real - EPSILON * c.every as real ==>
              !Available(Refill(c, b, t))
  {
    WaitBracket(c, b);
    GainMonotone(c, 0, t - b.last);
    if t >= b.last + UntilOne(c, b) + 500 { NeedPassed(c, b, t); }
    if (t - b.last) as real <= (UntilOne(c, b) - 501) as real - EPSILON * c.every as real { NeedMissing(c, b, t); }
  }

  /** A call that uses nothing of the key up. */
  predicate Harmless(c: Config, buckets: map<string, Bucket>, call: Call, key: string)
    requires c.Valid()
  {
    call.key != key || call.Wait? || (call.Allow? && Reply(c, buckets, call).Later?)
  }

  lemma HarmlessStep(c: Config, buckets: map<string, Bucket>, call: Call, key: string, t: int)
    requires c.Valid() && AllInRange(c, buckets, call.now) && call.now <= t
    requires key in buckets && Harmless(c, buckets, call, key)
    ensures var after := After(c, buckets, call);
            key in after && Refill(c, after[key], t) == Refill(c, buckets[key], t)
  {
    RefillTwice(c, buckets[key], call.now, t);
  }

  lemma {:induction false} HarmlessRun(c: Config, calls: seq<Call>, i: nat, j: nat, key: string, t: int)
    requires c.Valid() && Chronological(calls) && i <= j < |calls| && calls[j].now == t
    requires key in Ref(c, calls, i)
    requires forall m :: i <= m < j ==> Harmless(c, Ref(c, calls, m), calls[m], key)
    ensures key in Ref(c, calls, j) && Refill(c, Ref(c, calls, j)[key], t) == Refill(c, Ref(c, calls, i)[key], t)
    decreases j - i
  {
    if i < j {
      RefInRange(c, calls, i, calls[i].now);
      HarmlessStep(c, Ref(c, calls, i), calls[i], key, t);
      HarmlessRun(c, calls, i + 1, j, key, t);
    }
  }

  /** After a refusal with waiting time w and no use of the key meanwhile, a call 500 ns past w is granted. */
  lemma RefusedThenGranted(c: Config, calls: seq<Call>, i: nat, j: nat, key: string)
    requires c.Valid() && Chronological(calls) && i < j < |calls|
    requires calls[i] == Allow(key, calls[i].now) && RefAnswer(c, calls, i).Later?
    requires forall m :: i < m < j ==> Harmless(c, Ref(c, calls, m), calls[m], key)
    requires calls[j] == Allow(key, calls[j].now) && calls[j].now >= calls[i].now + RefAnswer(c, calls, i).wait + 500
    ensures RefAnswer(c, calls, j) == Granted
  {
    RefInRange(c, calls, i, calls[i].now);
    AfterInRange(c, Ref(c, calls, i), calls[i]);
    HarmlessRun(c, calls, i + 1, j, key, calls[j].now);
    WaitIsAccurate(c, Touched(c, Ref(c, calls, i), key, calls[i].now), calls[j].now);
  }

  /** In the limiter's own answers: nothing of the key is used up by calls i+1 .. j-1. */
  ghost predicate Unused(calls: seq<Call>, answers: seq<Answer>, i: nat, j: nat, key: string)
    requires i < j <= |calls| == |answers|
  {
    forall m :: i < m < j ==> calls[m].key != key || calls[m].Wait? || (calls[m].Allow? && answers[m].Later?)
  }

  /** The same for the limiter itself, sweeping included, as long as nothing is evicted. */
  lemma LimiterRefusedThenGranted(c: Config, tables: seq<Table>, froms: seq<map<string, Bucket>>, calls: seq<Call>,
                                  answers: seq<Answer>, i: nat, j: nat, key: string)
    requires c.Valid() && IsRun(c, tables, froms, calls, answers) && Chronological(calls) && i < j < |calls|
    requires forall n :: 0 <= n <= j ==> !Evicts(c, tables[n], calls[n])
    requires calls[i] == Allow(key, calls[i].now) && answers[i].Later? && Unused(calls, answers, i, j, key)
    requires calls[j] == Allow(key, calls[j].now) && calls[j].now >= calls[i].now + answers[i].wait + 500
    ensures answers[j] == Granted
  {
    ForgettingIsUnobservable(c, tables, froms, calls, answers, i);
    ForgettingIsUnobservable(c, tables, froms, calls, answers, j);
    forall m | i < m < j ensures Harmless(c, Ref(c, calls, m), calls[m], key) {
      ForgettingIsUnobservable(c, tables, froms, calls, answers, m);
    }
    RefusedThenGranted(c, calls, i, j, key);
  }
}
