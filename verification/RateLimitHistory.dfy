/** The token bucket limiter's answers told from the calls on one key alone. */
module RateLimitHistory {
  import opened RateLimit
  import opened RateLimitRuns
  import opened Sets

  /** The tokens of a key at instant t, after the first n calls: full at first; a grant or a take uses one up, as far as
      one is there; one comes back every `every` nanoseconds, up to the burst. */
  function Tokens(c: Config, calls: seq<Call>, n: nat, key: string, t: int): real
    requires c.Valid() && n <= |calls|
  {
    if n == 0 then c.burst
    else if calls[n - 1].key != key then Tokens(c, calls, n - 1, key, t)
    else
      var call := calls[n - 1];
      var found := Tokens(c, calls, n - 1, key, call.now);
      var used := if call.Take? || (call.Allow? && found >= 1.0 - EPSILON) then 1.0 else 0.0;
      var left := if found >= used then found - used else 0.0;
      var now := left + (t - call.now) as real / c.every as real;
      if now > c.burst then c.burst else now
  }

  lemma FullLevel(c: Config, buckets: map<string, Bucket>, key: string, t: int)
    requires c.Valid() && key !in buckets
    ensures Level(c, buckets, key, t) == c.burst
  {
  }

  lemma LevelAfterOwnCall(c: Config, buckets: map<string, Bucket>, call: Call, t: int)
    requires c.Valid() && AllInRange(c, buckets, call.now) && call.now <= t
    ensures var found := Level(c, buckets, call.key, call.now);
            var used := if call.Take? || (call.Allow? && found >= 1.0 - EPSILON) then 1.0 else 0.0;
            var left := if found >= used then found - used else 0.0;
            var now := left + (t - call.now) as real / c.every as real;
            Level(c, After(c, buckets, call), call.key, t) == if now > c.burst then c.burst else now
  {
    AfterInRange(c, buckets, call);
    GainMonotone(c, 0, t - call.now);
  }

  lemma LevelAfterOther(c: Config, buckets: map<string, Bucket>, call: Call, key: string, t: int)
    requires c.Valid() && call.key != key
    ensures Level(c, After(c, buckets, call), key, t) == Level(c, buckets, key, t)
  {
  }

  lemma {:induction false} TokensAreLevel(c: Config, calls: seq<Call>, n: nat, key: string, t: int)
    requires c.Valid() && Chronological(calls) && n <= |calls| && (n > 0 ==> calls[n - 1].now <= t)
    ensures Tokens(c, calls, n, key, t) == Level(c, Ref(c, calls, n), key, t)
  {
    if n == 0 {
      FullLevel(c, map[], key, t);
    } else {
      var call := calls[n - 1];
      RefInRange(c, calls, n - 1, call.now);
      if call.key == key {
        TokensAreLevel(c, calls, n - 1, key, call.now);
        LevelAfterOwnCall(c, Ref(c, calls, n - 1), call, t);
      } else {
        TokensAreLevel(c, calls, n - 1, key, t);
        LevelAfterOther(c, Ref(c, calls, n - 1), call, key, t);
      }
    }
  }

  /** The nanoseconds until one token is there. */
  function Missing(c: Config, tokens: real): real { (1.0 - tokens) * c.every as real }

  /** The answer when so many tokens are there: granted exactly from one token on, takes always; and the waiting time of
      a refusal is right to within 501 ns. */
  predicate AnswerFor(c: Config, call: Call, tokens: real, r: Answer) {
    && (r == Granted <==> call.Take? || tokens >= 1.0 - EPSILON)
    && (r.Later? ==> (r.wait - 501) as real < Missing(c, tokens) <= (r.wait + 500) as real)
  }

  lemma ReplyFor(c: Config, buckets: map<string, Bucket>, call: Call)
    requires c.Valid()
    ensures AnswerFor(c, call, Level(c, buckets, call.key, call.now), Reply(c, buckets, call))
  {
    var b := Touched(c, buckets, call.key, call.now);
    WaitBracket(c, b);
    assert Need(c, b) == Missing(c, b.tokens);
  }

  /** As long as nothing is evicted, every answer is the one that the tokens of its key call for. */
  lemma AnswersExactly(c: Config, tables: seq<Table>, froms: seq<map<string, Bucket>>, calls: seq<Call>,
                       answers: seq<Answer>, n: nat)
    requires c.Valid() && IsRun(c, tables, froms, calls, answers) && Chronological(calls) && n < |calls|
    requires forall i :: 0 <= i <= n ==> !Evicts(c, tables[i], calls[i])
    ensures AnswerFor(c, calls[n], Tokens(c, calls, n, calls[n].key, calls[n].now), answers[n])
  {
    ForgettingIsUnobservable(c, tables, froms, calls, answers, n);
    TokensAreLevel(c, calls, n, calls[n].key, calls[n].now);
    ReplyFor(c, Ref(c, calls, n), calls[n]);
  }

  // ---------- what is kept ----------

  const MINUTE := 60 * SECOND

  /** A sweep is due: the first call ever, a minute after the last sweep, or a second after it when a call needs a new
      record and 100000 are kept. */
  predicate SweepsAt(t: Table, call: Call) {
    || t.lastSweep.None?
    || call.now - t.lastSweep.value >= MINUTE
    || (!call.Wait? && call.key !in t.buckets && |t.buckets| >= 100000 && call.now - t.lastSweep.value >= SECOND)
  }

  predicate BackToFull(c: Config, b: Bucket, now: int)
    requires c.Valid()
  {
    b.tokens + (now - b.last) as real / c.every as real >= c.burst
  }

  /** Making room drops exactly the full records, and only when a sweep is due; one more may go only at the cap. */
  lemma KeptExactly(c: Config, tables: seq<Table>, froms: seq<map<string, Bucket>>, calls: seq<Call>,
                    answers: seq<Answer>, n: nat, key: string)
    requires c.Valid() && IsRun(c, tables, froms, calls, answers) && n < |calls| && key in tables[n].buckets
    ensures var t, b := tables[n], tables[n].buckets[key];
            var swept := SweepsAt(t, calls[n]) && BackToFull(c, b, calls[n].now);
            && (key in froms[n] ==> !swept && froms[n][key] == b)
            && (key !in froms[n] && !swept ==> !calls[n].Wait? && calls[n].key !in froms[n] && |froms[n]| == 99999)
  {
    NeverAboveCap(c, tables, froms, calls, answers, n);
    assert CallFrom(c, tables[n], calls[n], froms[n], tables[n + 1], answers[n]);
    KeptInRoom(c, tables[n], calls[n], froms[n], tables[n + 1], answers[n], key);
  }

  lemma BackToFullMeans(c: Config, b: Bucket, now: int)
    requires c.Valid()
    ensures BackToFull(c, b, now) == Full(c, b, now)
  {
  }

  /** Without eviction a record stays unless a sweep is due and it is full. */
  lemma KeptByPreparing(c: Config, t: Table, call: Call, key: string)
    requires c.Valid() && key in t.buckets
    ensures var p := if call.Wait? then Sweep(c, t, call.now) else Prepared(c, t, call.key, call.now);
            && (key in p.buckets <==> !(SweepsAt(t, call) && Full(c, t.buckets[key], call.now)))
            && (key in p.buckets ==> p.buckets[key] == t.buckets[key])
  {
  }

  lemma EvictedAtCap(c: Config, t: Table, call: Call, from: map<string, Bucket>, t': Table, r: Answer)
    requires c.Valid() && CallFrom(c, t, call, from, t', r) && |t.buckets| <= 100000 && Evicts(c, t, call)
    ensures |from| == 99999 && call.key !in from
  {
    var p := Prepared(c, t, call.key, call.now);
    SubsetCard(p.buckets.Keys, t.buckets.Keys);
    var victim :| victim in p.buckets && from == p.buckets - {victim};
    assert from.Keys == p.buckets.Keys - {victim};
  }

  lemma KeptInRoom(c: Config, t: Table, call: Call, from: map<string, Bucket>, t': Table, r: Answer, key: string)
    requires c.Valid() && CallFrom(c, t, call, from, t', r) && key in t.buckets && |t.buckets| <= 100000
    ensures var b := t.buckets[key];
            var swept := SweepsAt(t, call) && BackToFull(c, b, call.now);
            && (key in from ==> !swept && from[key] == b)
            && (key !in from && !swept ==> !call.Wait? && call.key !in from && |from| == 99999)
  {
    BackToFullMeans(c, t.buckets[key], call.now);
    KeptByPreparing(c, t, call, key);
    if Evicts(c, t, call) { EvictedAtCap(c, t, call, from, t', r); }
  }

  /** Calls on one key, all at one instant. */
  ghost predicate Burst(calls: seq<Call>, key: string, t: int) {
    forall i :: 0 <= i < |calls| ==> calls[i] == Allow(key, t)
  }

  lemma {:induction false} TokensInBurst(c: Config, calls: seq<Call>, n: nat, key: string, t: int)
    requires c.Valid() && Burst(calls, key, t) && n <= |calls| && n as real <= c.burst
    ensures Tokens(c, calls, n, key, t) == c.burst - n as real
  {
    if n > 0 { TokensInBurst(c, calls, n - 1, key, t); }
  }

  /** From a full bucket of b tokens exactly b calls at one instant are granted, and the next one is not. */
  lemma BurstExactly(c: Config, tables: seq<Table>, froms: seq<map<string, Bucket>>, calls: seq<Call>,
                     answers: seq<Answer>, key: string, t: int, b: nat, n: nat)
    requires c.Valid() && c.burst == b as real && IsRun(c, tables, froms, calls, answers) && Burst(calls, key, t)
    requires n < |calls| && n <= b && forall i :: 0 <= i <= n ==> !Evicts(c, tables[i], calls[i])
    ensures answers[n] == Granted <==> n < b
  {
    TokensInBurst(c, calls, n, key, t);
    AnswersExactly(c, tables, froms, calls, answers, n);
  }
}
