/**
 * The token-bucket rate limiter and its background sweep (src/internal/middleware/middleware.go).
 * Tokens and seconds are reals; time is an argument that never goes backwards.
 */
module RateLimiter {

  datatype Config = Config(rpm: int, burst: int)
  datatype Bucket = Bucket(tokens: real, lastRefill: real)
  type Buckets = map<string, Bucket>

  datatype Event = Request(key: string, now: real) | Sweep(now: real)
  datatype Response = Allowed(remaining: int) | Limited | NoRequest

  const IDLE_SECONDS := 1800.0

  function RefillRate(cfg: Config): real {
    cfg.rpm as real / 60.0
  }

  /** Tokens refilled in `seconds`. */
  function Gain(cfg: Config, seconds: real): real {
    seconds * RefillRate(cfg)
  }

  function MaxTokens(cfg: Config): real {
    (cfg.rpm + cfg.burst) as real
  }

  function Min(a: real, b: real): real {
    if a < b then a else b
  }

  // ------------------------------------------------------------------ the limiter object

  class RateLimit {
    const cfg: Config
    var buckets: Buckets

    constructor (cfg: Config)
      ensures this.cfg == cfg && buckets == map[]
    {
      this.cfg := cfg;
      buckets := map[];
    }

    method Handle(key: string, now: real) returns (r: Response)
      modifies this
      ensures r == Answer(cfg, old(buckets), Request(key, now))
      ensures buckets == Next(cfg, true, old(buckets), Request(key, now))
      ensures
        var full := (cfg.rpm + cfg.burst) as real;
        var b := if key in old(buckets) then old(buckets)[key] else Bucket(full, now);
        var refilled := b.tokens + (now - b.lastRefill) * (cfg.rpm as real / 60.0);
        var level := if refilled < full then refilled else full;
        if level < 1.0 then r == Limited && buckets == old(buckets)[key := Bucket(level, now)]
        else r == Allowed((level - 1.0).Floor) && buckets == old(buckets)[key := Bucket(level - 1.0, now)]
    {
      LevelMeans(cfg, buckets, key, now);
      var b := if key in buckets then buckets[key] else Bucket(MaxTokens(cfg), now);
      var elapsed := now - b.lastRefill;
      b := Bucket(Min(MaxTokens(cfg), b.tokens + Gain(cfg, elapsed)), now);
      buckets := buckets[key := b];
      if b.tokens < 1.0 {
        return Limited;
      }
      b := b.(tokens := b.tokens - 1.0);
      buckets := buckets[key := b];
      return Allowed(b.tokens.Floor);
    }

    method SweepIdle(now: real)
      modifies this
      ensures buckets == Next(cfg, true, old(buckets), Sweep(now))
      ensures forall k :: k in buckets <==> k in old(buckets) && now - old(buckets)[k].lastRefill <= 1800.0
      ensures forall k :: k in buckets ==> buckets[k] == old(buckets)[k]
    {
      var todo := buckets.Keys;
      while todo != {}
        invariant todo <= buckets.Keys <= old(buckets).Keys
        invariant forall k :: k in buckets ==> buckets[k] == old(buckets)[k]
        invariant forall k :: k in old(buckets) && k !in todo ==>
          (k in buckets <==> !Idle(old(buckets)[k], now))
        decreases todo
      {
        var key :| key in todo;
        todo := todo - {key};
        if now - buckets[key].lastRefill > IDLE_SECONDS {
          buckets := buckets - {key};
        }
      }
    }
  }

  // ------------------------------------------------------------------ one event

  predicate Idle(b: Bucket, now: real) {
    now - b.lastRefill > IDLE_SECONDS
  }

  /** Tokens a request for `key` at time `t` would find. */
  function Level(cfg: Config, m: Buckets, key: string, t: real): real {
    if key in m then Min(MaxTokens(cfg), m[key].tokens + Gain(cfg, t - m[key].lastRefill))
    else MaxTokens(cfg)
  }

  lemma LevelMeans(cfg: Config, m: Buckets, key: string, t: real)
    ensures
      var full := (cfg.rpm + cfg.burst) as real;
      var b := if key in m then m[key] else Bucket(full, t);
      var refilled := b.tokens + (t - b.lastRefill) * (cfg.rpm as real / 60.0);
      Level(cfg, m, key, t) == if refilled < full then refilled else full
  {
    assert (t - t) * RefillRate(cfg) == 0.0;
  }

  function Answer(cfg: Config, m: Buckets, e: Event): Response {
    match e
    case Request(key, now) =>
      var level := Level(cfg, m, key, now);
      if level < 1.0 then Limited else Allowed((level - 1.0).Floor)
    case Sweep(_) => NoRequest
  }

  /** The buckets after an event; `sweeping` is false for the limiter that never deletes. */
  function Next(cfg: Config, sweeping: bool, m: Buckets, e: Event): Buckets {
    match e
    case Request(key, now) =>
      var level := Level(cfg, m, key, now);
      m[key := Bucket(if level < 1.0 then level else level - 1.0, now)]
    case Sweep(now) => if sweeping then map k | k in m && !Idle(m[k], now) :: m[k] else m
  }

  // ------------------------------------------------------------------ a trace of events

  function Answers(cfg: Config, sweeping: bool, m: Buckets, events: seq<Event>): (r: seq<Response>)
    ensures |r| == |events|
    decreases |events|
  {
    if events == [] then []
    else [Answer(cfg, m, events[0])] + Answers(cfg, sweeping, Next(cfg, sweeping, m, events[0]), events[1..])
  }

  function After(cfg: Config, sweeping: bool, m: Buckets, events: seq<Event>): Buckets
    decreases |events|
  {
    if events == [] then m else After(cfg, sweeping, Next(cfg, sweeping, m, events[0]), events[1..])
  }

  ghost predicate Timed(events: seq<Event>) {
    forall i, j :: 0 <= i < j < |events| ==> events[i].now <= events[j].now
  }

  /** Requests for `key` that a trace admits. */
  function Admitted(cfg: Config, sweeping: bool, m: Buckets, events: seq<Event>, key: string): nat
    decreases |events|
  {
    if events == [] then 0
    else
      (if events[0].Request? && events[0].key == key && Answer(cfg, m, events[0]).Allowed? then 1 else 0)
      + Admitted(cfg, sweeping, Next(cfg, sweeping, m, events[0]), events[1..], key)
  }

  // ------------------------------------------------------------------ arithmetic

  lemma GainGrows(cfg: Config, x: real, y: real)
    requires cfg.rpm >= 0 && x <= y
    ensures Gain(cfg, x) <= Gain(cfg, y) && Gain(cfg, 0.0) == 0.0
  {
    var rate := RefillRate(cfg);
    assert rate >= 0.0;
    assert (y - x) * rate >= 0.0;
    assert y * rate - x * rate == (y - x) * rate;
  }

  lemma HalfHourGain(cfg: Config)
    ensures Gain(cfg, IDLE_SECONDS) == (30 * cfg.rpm) as real
  {
    assert (30 * cfg.rpm) as real == 30.0 * cfg.rpm as real;
  }

  // ------------------------------------------------------------------ the sweep cannot be seen

  /**
   * Every bucket was last refilled by time t and holds between 0 and the maximum (just the maximum if that is
   * negative).
   */
  ghost predicate Bounded(cfg: Config, m: Buckets, t: real) {
    forall k :: k in m ==>
      Min(0.0, MaxTokens(cfg)) <= m[k].tokens <= MaxTokens(cfg) && m[k].lastRefill <= t
  }

  /** `full` has every bucket of `swept`, and its other buckets are full again at time t. */
  ghost predicate Alike(cfg: Config, swept: Buckets, full: Buckets, t: real) {
    && (forall k :: k in swept ==> k in full && full[k] == swept[k])
    && (forall k :: k in full && k !in swept ==>
          full[k].tokens + Gain(cfg, t - full[k].lastRefill) >= MaxTokens(cfg))
  }

  lemma BoundedNext(cfg: Config, sweeping: bool, m: Buckets, e: Event, t: real)
    requires cfg.rpm >= 0 && Bounded(cfg, m, t) && t <= e.now
    ensures Bounded(cfg, Next(cfg, sweeping, m, e), e.now)
  {
    if e.Request? {
      if e.key in m {
        GainGrows(cfg, 0.0, e.now - m[e.key].lastRefill);
      }
      hide Gain;
      assert Min(0.0, MaxTokens(cfg)) <= Level(cfg, m, e.key, e.now) <= MaxTokens(cfg);
    }
  }

  /** A bucket idle for over half an hour has refilled, because burst is at most 29 minutes' worth. */
  lemma IdleIsFull(cfg: Config, b: Bucket, now: real)
    requires 0 <= cfg.rpm && cfg.burst <= 29 * cfg.rpm && Idle(b, now) && Min(0.0, MaxTokens(cfg)) <= b.tokens
    ensures b.tokens + Gain(cfg, now - b.lastRefill) >= MaxTokens(cfg)
  {
    GainGrows(cfg, IDLE_SECONDS, now - b.lastRefill);
    HalfHourGain(cfg);
    GainGrows(cfg, 0.0, now - b.lastRefill);
  }

  lemma AlikeLater(cfg: Config, swept: Buckets, full: Buckets, t: real, u: real)
    requires cfg.rpm >= 0 && Alike(cfg, swept, full, t) && t <= u
    ensures Alike(cfg, swept, full, u)
  {
    forall k | k in full && k !in swept
      ensures full[k].tokens + Gain(cfg, u - full[k].lastRefill) >= MaxTokens(cfg)
    {
      GainGrows(cfg, t - full[k].lastRefill, u - full[k].lastRefill);
    }
  }

  lemma AlikeRequest(cfg: Config, swept: Buckets, full: Buckets, key: string, now: real)
    requires Alike(cfg, swept, full, now)
    ensures Level(cfg, swept, key, now) == Level(cfg, full, key, now)
    ensures Alike(cfg, Next(cfg, true, swept, Request(key, now)), Next(cfg, false, full, Request(key, now)), now)
  {
    hide Gain, MaxTokens;
  }

  lemma AlikeSweep(cfg: Config, swept: Buckets, full: Buckets, now: real)
    requires 0 <= cfg.rpm && cfg.burst <= 29 * cfg.rpm
    requires Alike(cfg, swept, full, now) && Bounded(cfg, full, now)
    ensures Alike(cfg, Next(cfg, true, swept, Sweep(now)), full, now)
  {
    hide Gain;
    forall k | k in swept && Idle(swept[k], now)
      ensures full[k].tokens + Gain(cfg, now - full[k].lastRefill) >= MaxTokens(cfg)
    {
      IdleIsFull(cfg, full[k], now);
    }
  }

  lemma AlikeNext(cfg: Config, swept: Buckets, full: Buckets, e: Event, t: real)
    requires 0 <= cfg.rpm && cfg.burst <= 29 * cfg.rpm
    requires Alike(cfg, swept, full, t) && Bounded(cfg, full, t) && t <= e.now
    ensures Answer(cfg, swept, e) == Answer(cfg, full, e)
    ensures Alike(cfg, Next(cfg, true, swept, e), Next(cfg, false, full, e), e.now)
  {
    hide Alike, Level;
    AlikeLater(cfg, swept, full, t, e.now);
    match e
    case Request(key, now) => AlikeRequest(cfg, swept, full, key, now);
    case Sweep(now) => AlikeSweep(cfg, swept, full, now);
  }

  lemma {:induction false} SweepUnseen(cfg: Config, swept: Buckets, full: Buckets, events: seq<Event>, t: real)
    requires 0 <= cfg.rpm && cfg.burst <= 29 * cfg.rpm
    requires Alike(cfg, swept, full, t) && Bounded(cfg, full, t)
    requires Timed(events) && forall i :: 0 <= i < |events| ==> t <= events[i].now
    ensures Answers(cfg, true, swept, events) == Answers(cfg, false, full, events)
    decreases |events|
  {
    if events != [] {
      var e := events[0];
      AlikeNext(cfg, swept, full, e, t);
      BoundedNext(cfg, false, full, e, t);
      SweepUnseen(cfg, Next(cfg, true, swept, e), Next(cfg, false, full, e), events[1..], e.now);
    }
  }

  // ------------------------------------------------------------------ the rate bound

  lemma GainAdds(cfg: Config, x: real, y: real)
    ensures Gain(cfg, x) + Gain(cfg, y) == Gain(cfg, x + y)
  {
    assert (x + y) * RefillRate(cfg) == x * RefillRate(cfg) + y * RefillRate(cfg);
  }

  lemma LevelRises(cfg: Config, m: Buckets, key: string, t: real, u: real)
    requires cfg.rpm >= 0 && Bounded(cfg, m, t) && t <= u
    ensures Min(0.0, MaxTokens(cfg)) <= Level(cfg, m, key, t) <= MaxTokens(cfg)
    ensures Level(cfg, m, key, u) <= Level(cfg, m, key, t) + Gain(cfg, u - t)
  {
    GainGrows(cfg, 0.0, u - t);
    if key in m {
      GainGrows(cfg, 0.0, t - m[key].lastRefill);
      GainAdds(cfg, t - m[key].lastRefill, u - t);
      hide Gain;
      assert (t - m[key].lastRefill) + (u - t) == u - m[key].lastRefill;
    }
  }

  /** What one event does to the level of `key`: an admitted request takes one token, nothing else does. */
  lemma LevelNext(cfg: Config, sweeping: bool, m: Buckets, e: Event, key: string)
    requires cfg.rpm >= 0 && (sweeping ==> cfg.burst <= 29 * cfg.rpm) && Bounded(cfg, m, e.now)
    ensures var took := e.Request? && e.key == key && Answer(cfg, m, e).Allowed?;
      Level(cfg, Next(cfg, sweeping, m, e), key, e.now) == Level(cfg, m, key, e.now) - (if took then 1.0 else 0.0)
  {
    GainGrows(cfg, 0.0, 0.0);
    if sweeping && e.Sweep? && key in m && Idle(m[key], e.now) {
      IdleIsFull(cfg, m[key], e.now);
    }
    hide Gain;
  }

  lemma {:induction false} AdmittedSpends(cfg: Config, sweeping: bool, m: Buckets, events: seq<Event>, key: string,
                                         t: real, end: real)
    requires cfg.rpm >= 0 && (sweeping ==> cfg.burst <= 29 * cfg.rpm) && Bounded(cfg, m, t)
    requires Timed(events) && t <= end && forall i :: 0 <= i < |events| ==> t <= events[i].now <= end
    ensures Admitted(cfg, sweeping, m, events, key) as real + Min(0.0, MaxTokens(cfg))
            <= Level(cfg, m, key, t) + Gain(cfg, end - t)
    decreases |events|
  {
    LevelRises(cfg, m, key, t, t);
    GainGrows(cfg, 0.0, end - t);
    if events != [] {
      var e, m' := events[0], Next(cfg, sweeping, m, events[0]);
      LevelRises(cfg, m, key, t, e.now);
      BoundedNext(cfg, sweeping, m, e, t);
      LevelNext(cfg, sweeping, m, e, key);
      GainAdds(cfg, e.now - t, end - e.now);
      AdmittedSpends(cfg, sweeping, m', events[1..], key, e.now, end);
      assert (e.now - t) + (end - e.now) == end - t;
      hide Gain, Level, Next, Answer;
    }
  }

  lemma {:induction false} BoundedAfter(cfg: Config, sweeping: bool, m: Buckets, events: seq<Event>, t: real, end: real)
    requires cfg.rpm >= 0 && Bounded(cfg, m, t) && t <= end
    requires Timed(events) && forall i :: 0 <= i < |events| ==> t <= events[i].now <= end
    ensures Bounded(cfg, After(cfg, sweeping, m, events), end)
    decreases |events|
  {
    if events != [] {
      BoundedNext(cfg, sweeping, m, events[0], t);
      BoundedAfter(cfg, sweeping, Next(cfg, sweeping, m, events[0]), events[1..], events[0].now, end);
    }
  }

  /** Tokens stay between 0 and the maximum on every trace, swept or not. */
  lemma TokensStayInBounds(cfg: Config, sweeping: bool, events: seq<Event>, key: string)
    requires cfg.rpm >= 0 && Timed(events)
    ensures var m := After(cfg, sweeping, map[], events);
      key in m ==> Min(0.0, MaxTokens(cfg)) <= m[key].tokens <= MaxTokens(cfg)
  {
    if events != [] {
      BoundedAfter(cfg, sweeping, map[], events, events[0].now, events[|events| - 1].now);
    }
  }

  lemma TimedParts(xs: seq<Event>, ys: seq<Event>)
    requires Timed(xs + ys)
    ensures Timed(xs) && Timed(ys)
    ensures forall i :: 0 <= i < |xs| ==> xs[0].now <= xs[i].now
  {
    assert forall i :: 0 <= i < |xs| ==> (xs + ys)[i] == xs[i];
    forall i, j | 0 <= i < j < |ys|
      ensures ys[i].now <= ys[j].now
    {
      assert (xs + ys)[|xs| + i] == ys[i] && (xs + ys)[|xs| + j] == ys[j];
    }
  }

  lemma BoundedBefore(cfg: Config, sweeping: bool, before: seq<Event>, end: real)
    requires cfg.rpm >= 0 && Timed(before) && forall i :: 0 <= i < |before| ==> before[i].now <= end
    ensures Bounded(cfg, After(cfg, sweeping, map[], before), end)
  {
    if before != [] {
      BoundedAfter(cfg, sweeping, map[], before, before[0].now, end);
    }
  }

  /** A trace up to `start` and the stretch of it that follows within `seconds`. */
  ghost predicate Stretch(before: seq<Event>, stretch: seq<Event>, start: real, seconds: real) {
    && seconds >= 0.0 && Timed(before + stretch)
    && (forall i :: 0 <= i < |before| ==> before[i].now <= start)
    && (forall i :: 0 <= i < |stretch| ==> start <= stretch[i].now <= start + seconds)
  }

  /** The sweeping limiter admits at most max(0, RPM + Burst) + seconds * RPM / 60 requests of `key` in the stretch. */
  ghost predicate WithinRate(cfg: Config, before: seq<Event>, stretch: seq<Event>, key: string, seconds: real) {
    Admitted(cfg, true, After(cfg, true, map[], before), stretch, key) as real
    <= (if MaxTokens(cfg) < 0.0 then 0.0 else MaxTokens(cfg)) + Gain(cfg, seconds)
  }

  /** As long as Burst is at most 29 * RPM, in any stretch of any trace. */
  lemma RateBound(cfg: Config, before: seq<Event>, stretch: seq<Event>, key: string, start: real, seconds: real)
    requires 0 <= cfg.rpm && cfg.burst <= 29 * cfg.rpm && Stretch(before, stretch, start, seconds)
    ensures WithinRate(cfg, before, stretch, key, seconds)
  {
    TimedParts(before, stretch);
    BoundedBefore(cfg, true, before, start);
    AdmittedSpends(cfg, true, After(cfg, true, map[], before), stretch, key, start, start + seconds);
    LevelRises(cfg, After(cfg, true, map[], before), key, start, start);
    assert start + seconds - start == seconds;
    hide Timed, Level, Admitted, Bounded, After, Gain;
  }

  // ------------------------------------------------------------------ where the sweep can be seen

  function Repeat(e: Event, n: nat): (r: seq<Event>)
    ensures |r| == n && forall i :: 0 <= i < n ==> r[i] == e
  {
    if n == 0 then [] else [e] + Repeat(e, n - 1)
  }

  /** n requests at one moment, with enough tokens for all, take n tokens. */
  lemma {:induction false} Burn(cfg: Config, sweeping: bool, m: Buckets, key: string, t: real, n: nat)
    requires cfg.rpm >= 0 && Level(cfg, m, key, t) >= n as real
    ensures Level(cfg, After(cfg, sweeping, m, Repeat(Request(key, t), n)), key, t) == Level(cfg, m, key, t) - n as real
    ensures n > 0 ==>
      After(cfg, sweeping, m, Repeat(Request(key, t), n)) == m[key := Bucket(Level(cfg, m, key, t) - n as real, t)]
    decreases n
  {
    if n > 0 {
      var m' := Next(cfg, sweeping, m, Request(key, t));
      GainGrows(cfg, 0.0, 0.0);
      hide Gain;
      assert Level(cfg, m', key, t) == Level(cfg, m, key, t) - 1.0;
      Burn(cfg, sweeping, m', key, t, n - 1);
      assert Repeat(Request(key, t), n)[1..] == Repeat(Request(key, t), n - 1);
    }
  }

  lemma {:induction false} AnswersConcat(cfg: Config, sweeping: bool, m: Buckets, xs: seq<Event>, ys: seq<Event>)
    ensures Answers(cfg, sweeping, m, xs + ys)
            == Answers(cfg, sweeping, m, xs) + Answers(cfg, sweeping, After(cfg, sweeping, m, xs), ys)
    ensures After(cfg, sweeping, m, xs + ys) == After(cfg, sweeping, After(cfg, sweeping, m, xs), ys)
    decreases |xs|
  {
    if xs == [] {
      assert xs + ys == ys;
    } else {
      assert (xs + ys)[1..] == xs[1..] + ys;
      AnswersConcat(cfg, sweeping, Next(cfg, sweeping, m, xs[0]), xs[1..], ys);
    }
  }

  /** The sweep a hair after half an hour, when less than one token more than 30 * RPM has come back. */
  function SweepTime(cfg: Config): real
    requires cfg.rpm >= 0
  {
    IDLE_SECONDS + 1.0 / (cfg.rpm + 1) as real
  }

  lemma SweepTimeGain(cfg: Config)
    requires cfg.rpm >= 0
    ensures SweepTime(cfg) > IDLE_SECONDS
    ensures (30 * cfg.rpm) as real <= Gain(cfg, SweepTime(cfg)) < (30 * cfg.rpm + 1) as real
  {
    var r := (cfg.rpm + 1) as real;
    HalfHourGain(cfg);
    GainAdds(cfg, IDLE_SECONDS, 1.0 / r);
    assert r >= 1.0 && cfg.rpm as real == r - 1.0;
    assert 1.0 / r > 0.0;
    assert Gain(cfg, 1.0 / r) == (r - 1.0) / r / 60.0;
    Fraction(r);
  }

  lemma Fraction(r: real)
    requires r >= 1.0
    ensures 0.0 <= (r - 1.0) / r < 1.0
  {
    var q := 1.0 / r;
    assert q * r == 1.0 && q > 0.0;
    assert (r - 1.0) / r == 1.0 - q;
    assert q <= 1.0 by {
      Reciprocal(q, r);
    }
  }

  lemma Reciprocal(q: real, r: real)
    requires r >= 1.0 && q > 0.0 && q * r == 1.0
    ensures q <= 1.0
  {
    assert q * (r - 1.0) >= 0.0;
  }

  /** Drain the bucket, leave it alone for half an hour, sweep, and ask for 30 * RPM + 1 requests. */
  function Probe(cfg: Config): seq<Event>
    requires cfg.rpm >= 0 && cfg.burst > 29 * cfg.rpm
  {
    Drain(cfg) + [Sweep(SweepTime(cfg))] + Repeat(Request("k", SweepTime(cfg)), 30 * cfg.rpm)
        + [Request("k", SweepTime(cfg))]
  }

  function Drain(cfg: Config): seq<Event>
    requires cfg.rpm >= 0 && cfg.burst > 29 * cfg.rpm
  {
    Repeat(Request("k", 0.0), cfg.rpm + cfg.burst)
  }

  /** Up to its last request the probe goes alike; there the level is the one given. */
  lemma LastLevel(cfg: Config, sweeping: bool)
    requires cfg.rpm >= 0 && cfg.burst > 29 * cfg.rpm
    ensures var u := SweepTime(cfg);
      var m := After(cfg, sweeping, map[], Drain(cfg) + [Sweep(u)] + Repeat(Request("k", u), 30 * cfg.rpm));
      Level(cfg, m, "k", u) == (if sweeping then MaxTokens(cfg) else Gain(cfg, u)) - (30 * cfg.rpm) as real
  {
    var u := SweepTime(cfg);
    var drained := After(cfg, sweeping, map[], Drain(cfg));
    Burn(cfg, sweeping, map[], "k", 0.0, cfg.rpm + cfg.burst);
    assert drained == map["k" := Bucket(0.0, 0.0)];
    SweepTimeGain(cfg);
    AnswersConcat(cfg, sweeping, map[], Drain(cfg), [Sweep(u)]);
    var swept := After(cfg, sweeping, map[], Drain(cfg) + [Sweep(u)]);
    assert swept == Next(cfg, sweeping, drained, Sweep(u));
    hide Gain;
    assert Level(cfg, swept, "k", u) == if sweeping then MaxTokens(cfg) else Gain(cfg, u);
    Burn(cfg, sweeping, swept, "k", u, 30 * cfg.rpm);
    AnswersConcat(cfg, sweeping, map[], Drain(cfg) + [Sweep(u)], Repeat(Request("k", u), 30 * cfg.rpm));
  }

  lemma TwoMoments(xs: seq<Event>, ys: seq<Event>, a: real, b: real)
    requires a <= b && (forall i :: 0 <= i < |xs| ==> xs[i].now == a) && (forall i :: 0 <= i < |ys| ==> ys[i].now == b)
    ensures Timed(xs + ys) && forall i :: 0 <= i < |xs + ys| ==> a <= (xs + ys)[i].now <= b
  {
    assert forall i :: 0 <= i < |xs + ys| ==> (xs + ys)[i].now == if i < |xs| then a else b;
  }

  lemma ProbeIsTimed(cfg: Config)
    requires cfg.rpm >= 0 && cfg.burst > 29 * cfg.rpm
    ensures Timed(Probe(cfg))
  {
    SweepTimeGain(cfg);
    var u := SweepTime(cfg);
    var last := [Sweep(u)] + Repeat(Request("k", u), 30 * cfg.rpm) + [Request("k", u)];
    TwoMoments(Drain(cfg), last, 0.0, u);
    assert Probe(cfg) == Drain(cfg) + last;
    hide Timed, SweepTime, Drain, Probe, Gain;
  }

  lemma LastAnswers(cfg: Config, sweeping: bool, start: seq<Event>, last: Event)
    ensures Answers(cfg, sweeping, map[], start + [last])[|start|]
      == Answer(cfg, After(cfg, sweeping, map[], start), last)
  {
    AnswersConcat(cfg, sweeping, map[], start, [last]);
  }

  lemma ProbeTells(cfg: Config)
    requires cfg.rpm >= 0 && cfg.burst > 29 * cfg.rpm
    ensures Timed(Probe(cfg))
    ensures Answers(cfg, true, map[], Probe(cfg)) != Answers(cfg, false, map[], Probe(cfg))
  {
    hide Timed, Answers, After, Gain, Drain, SweepTime;
    ProbeIsTimed(cfg);
    var u := SweepTime(cfg);
    var start := Drain(cfg) + [Sweep(u)] + Repeat(Request("k", u), 30 * cfg.rpm);
    SweepTimeGain(cfg);
    LastLevel(cfg, true);
    LastLevel(cfg, false);
    LastAnswers(cfg, true, start, Request("k", u));
    LastAnswers(cfg, false, start, Request("k", u));
  }

  /** The sweep changes no answer on any trace if and only if Burst is at most 29 * RPM. */
  lemma SweepUnseenExactly(cfg: Config)
    requires cfg.rpm >= 0
    ensures (forall events: seq<Event> :: Timed(events) ==>
      Answers(cfg, true, map[], events) == Answers(cfg, false, map[], events))
            <==> cfg.burst <= 29 * cfg.rpm
  {
    if cfg.burst <= 29 * cfg.rpm {
      forall events: seq<Event> | Timed(events)
        ensures Answers(cfg, true, map[], events) == Answers(cfg, false, map[], events)
      {
        if events != [] {
          SweepUnseen(cfg, map[], map[], events, events[0].now);
        }
      }
    } else {
      ProbeTells(cfg);
    }
  }

  // ------------------------------------------------------------------ where the rate bound ends

  lemma {:induction false} AdmittedConcat(cfg: Config, sweeping: bool, m: Buckets, xs: seq<Event>, ys: seq<Event>,
                                          key: string)
    ensures Admitted(cfg, sweeping, m, xs + ys, key)
            == Admitted(cfg, sweeping, m, xs, key) + Admitted(cfg, sweeping, After(cfg, sweeping, m, xs), ys, key)
    decreases |xs|
  {
    if xs == [] {
      assert xs + ys == ys;
    } else {
      assert (xs + ys)[1..] == xs[1..] + ys;
      AdmittedConcat(cfg, sweeping, Next(cfg, sweeping, m, xs[0]), xs[1..], ys, key);
      hide Next, Answer;
    }
  }

  /** n requests at one moment, with enough tokens for all, are all admitted. */
  lemma {:induction false} BurnAdmits(cfg: Config, sweeping: bool, m: Buckets, key: string, t: real, n: nat)
    requires cfg.rpm >= 0 && Level(cfg, m, key, t) >= n as real
    ensures Admitted(cfg, sweeping, m, Repeat(Request(key, t), n), key) == n
    decreases n
  {
    if n > 0 {
      var m' := Next(cfg, sweeping, m, Request(key, t));
      GainGrows(cfg, 0.0, 0.0);
      hide Gain;
      assert Level(cfg, m', key, t) == Level(cfg, m, key, t) - 1.0;
      BurnAdmits(cfg, sweeping, m', key, t, n - 1);
      assert Repeat(Request(key, t), n)[1..] == Repeat(Request(key, t), n - 1);
    }
  }

  /**
   * What an answer says remains is what the key still gets at that moment: so many more requests, and no
   * further one.
   */
  lemma RemainingIsExact(cfg: Config, sweeping: bool, m: Buckets, key: string, now: real)
    requires cfg.rpm >= 0 && Answer(cfg, m, Request(key, now)).Allowed?
    ensures var n, m' := Answer(cfg, m, Request(key, now)).remaining, Next(cfg, sweeping, m, Request(key, now));
      && n >= 0
      && Admitted(cfg, sweeping, m', Repeat(Request(key, now), n), key) == n
      && Answer(cfg, After(cfg, sweeping, m', Repeat(Request(key, now), n)), Request(key, now)) == Limited
  {
    var n, m' := Answer(cfg, m, Request(key, now)).remaining, Next(cfg, sweeping, m, Request(key, now));
    GainGrows(cfg, 0.0, 0.0);
    hide Gain;
    assert Level(cfg, m', key, now) == Level(cfg, m, key, now) - 1.0;
    Burn(cfg, sweeping, m', key, now, n);
    BurnAdmits(cfg, sweeping, m', key, now, n);
  }

  /** Drain the bucket, leave it alone for half an hour, sweep, and drain the new bucket. */
  function DrainTwice(cfg: Config): seq<Event>
    requires cfg.rpm >= 0 && cfg.burst > 29 * cfg.rpm
  {
    Drain(cfg) + [Sweep(SweepTime(cfg))] + Repeat(Request("k", SweepTime(cfg)), cfg.rpm + cfg.burst)
  }

  /** The sweep hands out a second full bucket. */
  lemma DrainTwiceAdmits(cfg: Config)
    requires cfg.rpm >= 0 && cfg.burst > 29 * cfg.rpm
    ensures Admitted(cfg, true, map[], DrainTwice(cfg), "k") == 2 * (cfg.rpm + cfg.burst)
  {
    var u, n := SweepTime(cfg), cfg.rpm + cfg.burst;
    Burn(cfg, true, map[], "k", 0.0, n);
    BurnAdmits(cfg, true, map[], "k", 0.0, n);
    SweepTimeGain(cfg);
    assert After(cfg, true, map[], Drain(cfg)) == map["k" := Bucket(0.0, 0.0)];
    AnswersConcat(cfg, true, map[], Drain(cfg), [Sweep(u)]);
    AdmittedConcat(cfg, true, map[], Drain(cfg), [Sweep(u)], "k");
    assert Next(cfg, true, map["k" := Bucket(0.0, 0.0)], Sweep(u)) == map[];
    assert After(cfg, true, map[], Drain(cfg) + [Sweep(u)]) == map[];
    BurnAdmits(cfg, true, map[], "k", u, n);
    AdmittedConcat(cfg, true, map[], Drain(cfg) + [Sweep(u)], Repeat(Request("k", u), n), "k");
  }

  lemma DrainTwiceIsAStretch(cfg: Config)
    requires cfg.rpm >= 0 && cfg.burst > 29 * cfg.rpm
    ensures Stretch([], DrainTwice(cfg), 0.0, SweepTime(cfg))
  {
    SweepTimeGain(cfg);
    var u := SweepTime(cfg);
    var again := [Sweep(u)] + Repeat(Request("k", u), cfg.rpm + cfg.burst);
    TwoMoments(Drain(cfg), again, 0.0, u);
    assert DrainTwice(cfg) == Drain(cfg) + again;
    assert [] + DrainTwice(cfg) == DrainTwice(cfg);
    hide Timed, SweepTime, Drain, DrainTwice, Gain;
  }

  lemma DrainTwiceExceeds(cfg: Config)
    requires cfg.rpm >= 0 && cfg.burst > 29 * cfg.rpm
    ensures !WithinRate(cfg, [], DrainTwice(cfg), "k", SweepTime(cfg))
  {
    SweepTimeGain(cfg);
    DrainTwiceAdmits(cfg);
    assert After(cfg, true, map[], []) == map[];
    hide Gain, Admitted, SweepTime, DrainTwice;
  }

  /**
   * The rate bound holds of every key in every stretch of every trace if and only if Burst is at most
   * 29 * RPM; above that, the sweep lets a drained key have a second full bucket within its half hour.
   */
  lemma RateBoundExactly(cfg: Config)
    requires cfg.rpm >= 0
    ensures (forall before, stretch, key, start, seconds ::
               Stretch(before, stretch, start, seconds) ==> WithinRate(cfg, before, stretch, key, seconds))
            <==> cfg.burst <= 29 * cfg.rpm
  {
    if cfg.burst <= 29 * cfg.rpm {
      forall before, stretch, key, start, seconds | Stretch(before, stretch, start, seconds)
        ensures WithinRate(cfg, before, stretch, key, seconds)
      {
        RateBound(cfg, before, stretch, key, start, seconds);
      }
    } else {
      DrainTwiceIsAStretch(cfg);
      DrainTwiceExceeds(cfg);
    }
  }
}
