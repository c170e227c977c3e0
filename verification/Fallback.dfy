/** Retry with backoff, fallback chains and the circuit breaker (runtime/fallback.py), and the daemon's reconnect delay
    (client/daemon.py). */
module Fallback {
  import opened Json

  // ---- Exponential backoff ----

  /** What one attempt does: return, raise something worth retrying, or raise anything else. */
  datatype Attempt<T> = Returned(value: T) | Retryable(error: string) | Fatal(error: string)

  datatype RetryConfig = RetryConfig(maxRetries: int, baseDelay: real, maxDelay: real, factor: real)

  function Min(a: real, b: real): real {
    if a <= b then a else b
  }

  function Grown(cfg: RetryConfig, delay: real): real {
    delay * cfg.factor
  }

  /** The k-th delay as the loop computes it. */
  function Delay(cfg: RetryConfig, k: nat): real {
    if k == 0 then cfg.baseDelay else Min(Grown(cfg, Delay(cfg, k - 1)), cfg.maxDelay)
  }

  function Delays(cfg: RetryConfig, n: nat): seq<real> {
    seq(n, k requires 0 <= k => Delay(cfg, k))
  }

  /** `retry_async`: the result, the number of attempts made and the sleeps between them. */
  method Retry<T>(cfg: RetryConfig, outcomes: nat -> Attempt<T>)
    returns (result: Result<T, string>, attempts: nat, sleeps: seq<real>)
    ensures cfg.maxRetries >= 0 ==> 1 <= attempts <= cfg.maxRetries + 1
    ensures cfg.maxRetries < 0 ==> attempts == 0 && result == Err("Retry exhausted")
    ensures sleeps == Delays(cfg, if attempts == 0 then 0 else attempts - 1)
    ensures forall j: nat :: j < attempts - 1 ==> outcomes(j).Retryable?
    ensures attempts > 0 ==>
              match outcomes(attempts - 1)
              case Returned(v) => result == Ok(v)
              case Fatal(e) => result == Err(e)
              case Retryable(e) => result == Err(e) && attempts == cfg.maxRetries + 1
  {
    var delay := cfg.baseDelay;
    sleeps := [];
    attempts := 0;
    result := Err("Retry exhausted");
    while attempts < cfg.maxRetries + 1
      invariant attempts <= cfg.maxRetries + 1 || attempts == 0
      invariant |sleeps| == if attempts <= cfg.maxRetries then attempts else if attempts == 0 then 0 else attempts - 1
      invariant sleeps == Delays(cfg, |sleeps|) && delay == Delay(cfg, |sleeps|)
      invariant forall j: nat :: j < attempts ==> outcomes(j).Retryable?
      invariant result == if attempts == 0 then Err("Retry exhausted") else Err(outcomes(attempts - 1).error)
    {
      var outcome := outcomes(attempts);
      attempts := attempts + 1;
      match outcome
      case Returned(v) => return Ok(v), attempts, sleeps;
      case Fatal(e) => return Err(e), attempts, sleeps;
      case Retryable(e) =>
        result := Err(e);
        if attempts - 1 < cfg.maxRetries {
          sleeps := sleeps + [delay];
          delay := Min(Grown(cfg, delay), cfg.maxDelay);
        }
    }
  }

  function Power(x: real, k: nat): real {
    if k == 0 then 1.0 else Power(x, k - 1) * x
  }

  predicate Sane(cfg: RetryConfig) {
    cfg.baseDelay >= 0.0 && cfg.maxDelay >= 0.0 && cfg.factor >= 0.0
  }

  /** base * factor^k, see `UncappedIsPower`. */
  function Uncapped(cfg: RetryConfig, k: nat): real {
    if k == 0 then cfg.baseDelay else Grown(cfg, Uncapped(cfg, k - 1))
  }

  lemma Scale(a: real, b: real, x: real)
    requires a <= b && x >= 0.0
    ensures a * x <= b * x
  {
  }

  lemma {:induction false} PowerBounds(x: real, k: nat)
    requires x >= 0.0
    ensures Power(x, k) >= 0.0
    ensures x < 1.0 ==> Power(x, k) <= 1.0
  {
    if k == 0 {
    } else {
      PowerBounds(x, k - 1);
      if x < 1.0 { Scale(Power(x, k - 1), 1.0, x); }
    }
  }

  lemma Associate(b: real, p: real, f: real)
    ensures b * (p * f) == (b * p) * f
  {
  }

  lemma {:induction false} UncappedIsPower(cfg: RetryConfig, k: nat)
    ensures Uncapped(cfg, k) == cfg.baseDelay * Power(cfg.factor, k)
  {
    if k == 0 {
    } else {
      UncappedIsPower(cfg, k - 1);
      Associate(cfg.baseDelay, Power(cfg.factor, k - 1), cfg.factor);
    }
  }

  lemma Commute(a: real, b: real)
    ensures a * b == b * a
  {
  }

  lemma ShrinkingStaysBelow(cfg: RetryConfig, k: nat)
    requires Sane(cfg) && cfg.factor < 1.0
    ensures Uncapped(cfg, k) <= cfg.baseDelay
  {
    PowerBounds(cfg.factor, k);
    Scale(Power(cfg.factor, k), 1.0, cfg.baseDelay);
    Commute(Power(cfg.factor, k), cfg.baseDelay);
    UncappedIsPower(cfg, k);
  }

  /** Only a factor of at least one can take a delay beyond the maximum. */
  lemma BeyondMeansGrowth(cfg: RetryConfig, k: nat)
    requires Sane(cfg) && cfg.baseDelay <= cfg.maxDelay && Uncapped(cfg, k) > cfg.maxDelay
    ensures cfg.factor >= 1.0
  {
    if cfg.factor < 1.0 {
      ShrinkingStaysBelow(cfg, k);
    }
  }

  lemma CapStep(cfg: RetryConfig, g: real)
    requires Sane(cfg) && g >= 0.0 && (g > cfg.maxDelay ==> cfg.factor >= 1.0)
    ensures Min(Grown(cfg, Min(g, cfg.maxDelay)), cfg.maxDelay) == Min(Grown(cfg, g), cfg.maxDelay)
    ensures Grown(cfg, g) >= 0.0
  {
    Scale(0.0, g, cfg.factor);
    if g > cfg.maxDelay {
      Scale(cfg.maxDelay, g, cfg.factor);
      Scale(1.0, cfg.factor, cfg.maxDelay);
      Commute(cfg.maxDelay, cfg.factor);
    }
  }

  lemma {:induction false} CappedDelay(cfg: RetryConfig, k: nat)
    requires Sane(cfg) && cfg.baseDelay <= cfg.maxDelay
    ensures Delay(cfg, k) == Min(Uncapped(cfg, k), cfg.maxDelay) && Uncapped(cfg, k) >= 0.0
  {
    if k == 0 {
    } else {
      CappedDelay(cfg, k - 1);
      if Uncapped(cfg, k - 1) > cfg.maxDelay { BeyondMeansGrowth(cfg, k - 1); }
      CapStep(cfg, Uncapped(cfg, k - 1));
    }
  }

  /** The k-th sleep is min(base * factor^k, max) for every k exactly when the base delay itself is within the maximum: the
      loop caps every delay but the first. */
  lemma BackoffClosedForm(cfg: RetryConfig)
    requires Sane(cfg)
    ensures (forall k: nat :: Delay(cfg, k) == Min(Uncapped(cfg, k), cfg.maxDelay)) <==> cfg.baseDelay <= cfg.maxDelay
  {
    if cfg.baseDelay <= cfg.maxDelay {
      forall k: nat ensures Delay(cfg, k) == Min(Uncapped(cfg, k), cfg.maxDelay) {
        CappedDelay(cfg, k);
      }
    } else {
      assert Delay(cfg, 0) != Min(Uncapped(cfg, 0), cfg.maxDelay);
    }
  }

  function Sum(xs: seq<real>): real {
    if xs == [] then 0.0 else Sum(xs[..|xs| - 1]) + xs[|xs| - 1]
  }

  function Geometric(cfg: RetryConfig, n: nat): real {
    if n == 0 then 0.0 else Geometric(cfg, n - 1) + Uncapped(cfg, n - 1)
  }

  lemma SumLast(cfg: RetryConfig, n: nat)
    ensures Sum(Delays(cfg, n + 1)) == Sum(Delays(cfg, n)) + Delay(cfg, n)
  {
    assert Delays(cfg, n + 1)[..n] == Delays(cfg, n);
  }

  lemma DelayBounds(cfg: RetryConfig, k: nat)
    requires Sane(cfg) && cfg.baseDelay <= cfg.maxDelay
    ensures Delay(cfg, k) <= cfg.maxDelay && Delay(cfg, k) <= Uncapped(cfg, k)
  {
    CappedDelay(cfg, k);
  }

  lemma {:induction false} SleepBelowGeometric(cfg: RetryConfig, n: nat)
    requires Sane(cfg) && cfg.baseDelay <= cfg.maxDelay
    ensures Sum(Delays(cfg, n)) <= Geometric(cfg, n)
  {
    if n == 0 {
    } else {
      SleepBelowGeometric(cfg, n - 1);
      DelayBounds(cfg, n - 1);
      SumLast(cfg, n - 1);
    }
  }

  /** n * x, added up. */
  function Times(n: nat, x: real): real {
    if n == 0 then 0.0 else Times(n - 1, x) + x
  }

  lemma OneMore(n: nat, x: real)
    ensures (n + 1) as real * x == n as real * x + x
  {
  }

  lemma {:induction false} TimesIsProduct(n: nat, x: real)
    ensures Times(n, x) == n as real * x
  {
    if n == 0 {
    } else {
      TimesIsProduct(n - 1, x);
      OneMore(n - 1, x);
    }
  }

  lemma {:induction false} SleepBelowMaxima(cfg: RetryConfig, n: nat)
    requires Sane(cfg) && cfg.baseDelay <= cfg.maxDelay
    ensures Sum(Delays(cfg, n)) <= Times(n, cfg.maxDelay)
  {
    if n == 0 {
    } else {
      SleepBelowMaxima(cfg, n - 1);
      DelayBounds(cfg, n - 1);
      SumLast(cfg, n - 1);
    }
  }

  /** The time slept in n sleeps is at most n maxima and at most the geometric sum. */
  lemma TotalSleep(cfg: RetryConfig, n: nat)
    requires Sane(cfg) && cfg.baseDelay <= cfg.maxDelay
    ensures Sum(Delays(cfg, n)) <= n as real * cfg.maxDelay && Sum(Delays(cfg, n)) <= Geometric(cfg, n)
  {
    SleepBelowMaxima(cfg, n);
    TimesIsProduct(n, cfg.maxDelay);
    SleepBelowGeometric(cfg, n);
  }

  // ---- Fallback chain ----

  /** `FallbackChain.execute`: the first strategy that succeeds decides; if none does, the last error is raised. */
  method Execute<T>(outcomes: seq<Result<T, string>>) returns (result: Result<T, string>, tried: nat)
    ensures tried <= |outcomes|
    ensures forall j :: 0 <= j < tried - 1 ==> outcomes[j].Err?
    ensures tried == 0 <==> outcomes == []
    ensures result == if tried == 0 then Err("All strategies exhausted") else outcomes[tried - 1]
    ensures result.Err? ==> tried == |outcomes|
  {
    result := Err("All strategies exhausted");
    for i := 0 to |outcomes|
      invariant result == if i == 0 then Err("All strategies exhausted") else outcomes[i - 1]
      invariant forall j :: 0 <= j < i ==> outcomes[j].Err?
    {
      result := outcomes[i];
      if result.Ok? {
        return result, i + 1;
      }
    }
    tried := |outcomes|;
  }

  // ---- Circuit breaker ----

  datatype Mode = Closed | HalfOpen | Opened

  datatype Breaker = Breaker(failures: nat, lastFailure: real, mode: Mode)

  const NEW := Breaker(0, 0.0, Closed)

  datatype Limits = Limits(threshold: int, resetTimeout: real)

  /** `is_open`: whether a call is refused; asking may itself half-open the breaker. */
  function Ask(l: Limits, b: Breaker, now: real): (Breaker, bool) {
    if b.mode.Opened? then
      if now - b.lastFailure > l.resetTimeout then (b.(mode := HalfOpen), false) else (b, true)
    else (b, false)
  }

  function Succeed(b: Breaker): Breaker {
    b.(failures := 0, mode := Closed)
  }

  function Fail(l: Limits, b: Breaker, now: real): Breaker {
    Breaker(b.failures + 1, now, if b.failures + 1 >= l.threshold then Opened else b.mode)
  }

  class CircuitBreaker {
    const limits: Limits
    var failures: nat
    var lastFailure: real
    var mode: Mode

    constructor (limits: Limits)
      ensures this.limits == limits && View() == NEW
    {
      this.limits := limits;
      failures := 0;
      lastFailure := 0.0;
      mode := Closed;
    }

    ghost function View(): Breaker
      reads this
    {
      Breaker(failures, lastFailure, mode)
    }

    method IsOpen(now: real) returns (open: bool)
      modifies this
      ensures (View(), open) == Ask(limits, old(View()), now)
    {
      if mode.Opened? {
        if now - lastFailure > limits.resetTimeout {
          mode := HalfOpen;
          return false;
        }
        return true;
      }
      return false;
    }

    method RecordSuccess()
      modifies this
      ensures View() == Succeed(old(View()))
    {
      failures := 0;
      mode := Closed;
    }

    method RecordFailure(now: real)
      modifies this
      ensures View() == Fail(limits, old(View()), now)
    {
      failures := failures + 1;
      lastFailure := now;
      if failures >= limits.threshold {
        mode := Opened;
      }
    }

    /** `call`, with no other call in between: refused, or run to its outcome at time `end`. */
    method Call<T>(outcome: Result<T, string>, start: real, end: real) returns (result: Result<T, string>)
      modifies this
      ensures var (asked, refused) := Ask(limits, old(View()), start);
              if refused then result == Err("Circuit breaker is open") && View() == asked
              else result == outcome && View() == if outcome.Ok? then Succeed(asked) else Fail(limits, asked, end)
    {
      var open := IsOpen(start);
      if open {
        return Err("Circuit breaker is open");
      }
      if outcome.Ok? {
        RecordSuccess();
      } else {
        RecordFailure(end);
      }
      return outcome;
    }
  }

  /** Calls may overlap: they ask when they start and report when they end, in any order. */
  datatype Event = Start(now: real) | EndWell | EndBadly(now: real)

  function Step(l: Limits, b: Breaker, e: Event): Breaker {
    match e
    case Start(now) => Ask(l, b, now).0
    case EndWell => Succeed(b)
    case EndBadly(now) => Fail(l, b, now)
  }

  function Run(l: Limits, b: Breaker, es: seq<Event>): Breaker
    decreases |es|
  {
    if es == [] then b else Run(l, Step(l, b, es[0]), es[1..])
  }

  predicate Consistent(l: Limits, b: Breaker) {
    b.mode.Closed? <==> b.failures < l.threshold
  }

  lemma {:induction false} StaysConsistent(l: Limits, b: Breaker, es: seq<Event>)
    requires Consistent(l, b) && l.threshold >= 1
    ensures Consistent(l, Run(l, b, es))
    decreases |es|
  {
    if es == [] {
    } else {
      StaysConsistent(l, Step(l, b, es[0]), es[1..]);
    }
  }

  /** In every reachable state, overlapping calls included, the breaker is closed iff it has counted fewer failures than its
      threshold; this holds for all runs exactly when the threshold is at least one. */
  lemma ClosedIffBelowThreshold(l: Limits)
    ensures (forall es: seq<Event> :: Consistent(l, Run(l, NEW, es))) <==> l.threshold >= 1
  {
    if l.threshold >= 1 {
      forall es: seq<Event> ensures Consistent(l, Run(l, NEW, es)) {
        StaysConsistent(l, NEW, es);
      }
    } else {
      assert !Consistent(l, Run(l, NEW, []));
    }
  }

  /** One failure in the half-open state opens the breaker again, from that moment. */
  lemma HalfOpenReopens(l: Limits, es: seq<Event>, now: real)
    requires l.threshold >= 1 && Run(l, NEW, es).mode.HalfOpen?
    ensures Step(l, Run(l, NEW, es), EndBadly(now)).mode.Opened?
    ensures Step(l, Run(l, NEW, es), EndBadly(now)).lastFailure == now
  {
    StaysConsistent(l, NEW, es);
  }

  /** The latest failure reported in `es`, or `before` if there is none. */
  function LatestFailure(es: seq<Event>, before: real): real {
    if es == [] then before
    else if es[|es| - 1].EndBadly? then es[|es| - 1].now
    else LatestFailure(es[..|es| - 1], before)
  }

  lemma {:induction false} RunAppend(l: Limits, b: Breaker, es: seq<Event>, e: Event)
    ensures Run(l, b, es + [e]) == Step(l, Run(l, b, es), e)
    decreases |es|
  {
    if es == [] {
      assert [] + [e] == [e];
      assert Run(l, b, [e]) == Run(l, Step(l, b, e), []);
    } else {
      assert (es + [e])[1..] == es[1..] + [e];
      RunAppend(l, Step(l, b, es[0]), es[1..], e);
    }
  }

  /** How many calls have ended badly since the last one that ended well. */
  function BadSinceWell(es: seq<Event>): nat {
    if es == [] || es[|es| - 1].EndWell? then 0
    else BadSinceWell(es[..|es| - 1]) + if es[|es| - 1].EndBadly? then 1 else 0
  }

  lemma {:induction false} CountsSinceSuccess(l: Limits, es: seq<Event>)
    ensures Run(l, NEW, es).failures == BadSinceWell(es)
  {
    if es == [] {
    } else {
      var front, e := es[..|es| - 1], es[|es| - 1];
      CountsSinceSuccess(l, front);
      RunAppend(l, NEW, front, e);
      assert es == front + [e];
    }
  }

  /** After any run, overlapping calls included, the breaker is closed if and only if fewer calls than its threshold have ended
      badly since the last one that ended well. */
  lemma ClosedByHistory(l: Limits, es: seq<Event>)
    requires l.threshold >= 1
    ensures Run(l, NEW, es).mode.Closed? <==> BadSinceWell(es) < l.threshold
  {
    StaysConsistent(l, NEW, es);
    CountsSinceSuccess(l, es);
  }

  /** After any run, a call that ends well leaves the breaker closed with nothing counted, and the next call is admitted
      whenever it comes. */
  lemma SuccessCloses(l: Limits, es: seq<Event>, now: real)
    ensures var t := Run(l, NEW, es + [EndWell]);
            t.mode.Closed? && t.failures == 0 && Ask(l, t, now) == (t, false)
  {
    RunAppend(l, NEW, es, EndWell);
  }

  /** What asking does, after any run: an open breaker whose time is up goes to half-open, and in every other case nothing
      changes; the count and the date of the latest failure stay in any case. */
  lemma AskingHalfOpens(l: Limits, es: seq<Event>, now: real)
    ensures var b, t := Run(l, NEW, es), Run(l, NEW, es + [Start(now)]);
            && t.failures == b.failures && t.lastFailure == b.lastFailure
            && t.mode == if b.mode == Opened && now > b.lastFailure + l.resetTimeout then HalfOpen else b.mode
  {
    RunAppend(l, NEW, es, Start(now));
  }

  /** An open breaker admits nothing, whatever calls end badly or ask in the meantime, until a call ends well or more than
      the reset timeout has passed since the latest failure; and as soon as that has passed it admits the next call. */
  lemma {:induction false} OpenAdmitsNothing(l: Limits, b: Breaker, es: seq<Event>)
    requires b.mode.Opened?
    requires forall i :: 0 <= i < |es| ==> !es[i].EndWell?
    requires forall i :: 0 <= i < |es| && es[i].Start? ==> es[i].now - LatestFailure(es[..i], b.lastFailure) <= l.resetTimeout
    ensures Run(l, b, es).mode.Opened? && Run(l, b, es).lastFailure == LatestFailure(es, b.lastFailure)
    ensures forall i :: 0 <= i < |es| && es[i].Start? ==> Ask(l, Run(l, b, es[..i]), es[i].now).1
    ensures forall now: real :: Ask(l, Run(l, b, es), now).1 <==> now - LatestFailure(es, b.lastFailure) <= l.resetTimeout
    decreases |es|
  {
    if es == [] {
    } else {
      var front, e := es[..|es| - 1], es[|es| - 1];
      forall i | 0 <= i < |front| ensures front[i] == es[i] && front[..i] == es[..i] {}
      OpenAdmitsNothing(l, b, front);
      RunAppend(l, b, front, e);
      assert es == front + [e];
    }
  }

  // ---- Throttling ----

  /** A call that is tried at `start` and, if admitted, fails at `end`. */
  datatype Try = Try(start: real, end: real)

  function AfterTry(l: Limits, b: Breaker, t: Try): Breaker {
    var (asked, refused) := Ask(l, b, t.start);
    if refused then asked else Fail(l, asked, t.end)
  }

  /** The tries that are admitted. */
  function Invocations(l: Limits, b: Breaker, ts: seq<Try>): seq<Try>
    decreases |ts|
  {
    if ts == [] then []
    else (if Ask(l, b, ts[0].start).1 then [] else [ts[0]]) + Invocations(l, AfterTry(l, b, ts[0]), ts[1..])
  }

  /** Tries one after the other, none before `from`. */
  ghost predicate Sequential(ts: seq<Try>, from: real)
    decreases |ts|
  {
    ts == [] || (from <= ts[0].start <= ts[0].end && Sequential(ts[1..], ts[0].end))
  }

  /** Failures so far and the time of the last, for a breaker that has seen nothing else. */
  lemma {:induction false} SpacedOut(l: Limits, b: Breaker, ts: seq<Try>, from: real, i: nat)
    requires l.threshold >= 1 && l.resetTimeout >= 0.0 && Sequential(ts, from)
    requires b.failures >= l.threshold && b.mode.Opened? && b.lastFailure <= from
    requires i < |Invocations(l, b, ts)|
    ensures Invocations(l, b, ts)[i].start > b.lastFailure + Times(i + 1, l.resetTimeout)
    decreases |ts|
  {
    var t := ts[0];
    if Ask(l, b, t.start).1 {
      SpacedOut(l, b, ts[1..], t.end, i);
    } else if i > 0 {
      SpacedOut(l, AfterTry(l, b, t), ts[1..], t.end, i - 1);
    }
  }

  lemma {:induction false} SpacedAfterThreshold(l: Limits, b: Breaker, ts: seq<Try>, from: real, n: nat)
    requires l.threshold >= 1 && l.resetTimeout >= 0.0 && Sequential(ts, from)
    requires b.mode.Closed? && b.failures < l.threshold
    requires l.threshold - b.failures <= n < |Invocations(l, b, ts)|
    ensures var inv := Invocations(l, b, ts);
            var k := l.threshold - b.failures;
            inv[n].start > inv[k - 1].end + Times(n - k + 1, l.resetTimeout)
    decreases |ts|
  {
    var t := ts[0];
    var c := AfterTry(l, b, t);
    if c.failures < l.threshold {
      SpacedAfterThreshold(l, c, ts[1..], t.end, n - 1);
    } else {
      SpacedOut(l, c, ts[1..], t.end, n - 1);
    }
  }

  /** While every admitted call fails, the n-th invocation beyond the threshold starts more than n reset timeouts after the
      failure that reached the threshold. */
  lemma Throttled(l: Limits, ts: seq<Try>, from: real, n: nat)
    requires l.threshold >= 1 && l.resetTimeout >= 0.0 && Sequential(ts, from)
    requires l.threshold + n <= |Invocations(l, NEW, ts)| && n > 0
    ensures var inv := Invocations(l, NEW, ts);
            inv[l.threshold + n - 1].start > inv[l.threshold - 1].end + n as real * l.resetTimeout
  {
    SpacedAfterThreshold(l, NEW, ts, from, l.threshold + n - 1);
    TimesIsProduct(n, l.resetTimeout);
  }

  /** So within a time T after that failure at most threshold + T / reset_timeout calls are made in all. */
  lemma InvocationBound(l: Limits, ts: seq<Try>, from: real, elapsed: real)
    requires l.threshold >= 1 && l.resetTimeout > 0.0 && Sequential(ts, from)
    requires |Invocations(l, NEW, ts)| >= l.threshold
    requires var inv := Invocations(l, NEW, ts); inv[|inv| - 1].start <= inv[l.threshold - 1].end + elapsed && elapsed >= 0.0
    ensures |Invocations(l, NEW, ts)| as real <= l.threshold as real + elapsed / l.resetTimeout
  {
    var extra := |Invocations(l, NEW, ts)| - l.threshold;
    if extra > 0 {
      Throttled(l, ts, from, extra);
      DivideBound(extra as real, l.resetTimeout, elapsed);
    } else {
      DivideNonNegative(l.resetTimeout, elapsed);
    }
  }

  lemma DivideNonNegative(r: real, t: real)
    requires r > 0.0 && t >= 0.0
    ensures t / r >= 0.0
  {
  }

  lemma DivideBound(a: real, r: real, t: real)
    requires r > 0.0 && a * r < t
    ensures a <= t / r
  {
    var q := t / r;
    assert q * r == t;
    if a > q { Scale(q, a, r); }
  }

  // ---- Reconnecting ----

  /** One turn of the daemon's connection loop: no connection; a connection that breaks; one that is closed in order. */
  datatype Turn = Refused | Broken | ClosedInOrder

  const BASE_DELAY := 1
  const MAX_DELAY := 60

  function Doubled(delay: nat): nat {
    if delay * 2 <= MAX_DELAY then delay * 2 else MAX_DELAY
  }

  /** The loop while the daemon runs: the waits it makes, and the delay it is left with. */
  method ConnectionLoop(turns: seq<Turn>) returns (waits: seq<nat>, delay: nat)
    ensures |waits| == |turns|
    ensures forall i :: 0 <= i < |turns| ==>
              waits[i] == if turns[i].ClosedInOrder? then 0 else ReconnectWait(Streak(turns[..i + 1]))
  {
    delay := BASE_DELAY;
    waits := [];
    for i := 0 to |turns|
      invariant |waits| == i
      invariant delay == ReconnectWait(NextStreak(turns[..i]))
      invariant forall j :: 0 <= j < i ==>
                  waits[j] == if turns[j].ClosedInOrder? then 0 else ReconnectWait(Streak(turns[..j + 1]))
    {
      assert turns[..i + 1][..i] == turns[..i];
      if !turns[i].Refused? {
        delay := BASE_DELAY;
      }
      if turns[i].ClosedInOrder? {
        waits := waits + [0];
      } else {
        waits := waits + [delay];
        WaitDoubles(Streak(turns[..i + 1]));
        delay := Doubled(delay);
      }
    }
  }

  /** How many waits in a row came before the one at the end of `turns`, since the last connection. */
  function Streak(turns: seq<Turn>): nat {
    if turns == [] || !turns[|turns| - 1].Refused? then 0 else NextStreak(turns[..|turns| - 1])
  }

  /** How many there will be before the next, if the next turn is refused. */
  function NextStreak(turns: seq<Turn>): nat
    decreases |turns|, 1
  {
    if turns == [] || turns[|turns| - 1].ClosedInOrder? then 0
    else if turns[|turns| - 1].Broken? then 1
    else 1 + NextStreak(turns[..|turns| - 1])
  }

  function TwoTo(k: nat): nat {
    if k == 0 then 1 else 2 * TwoTo(k - 1)
  }

  /** min(2^k, 60) */
  function ReconnectWait(k: nat): nat {
    if TwoTo(k) <= MAX_DELAY then TwoTo(k) else MAX_DELAY
  }

  /** The waits in seconds. */
  lemma {:induction false} ReconnectWaits(k: nat)
    ensures ReconnectWait(k) == if k < 6 then [1, 2, 4, 8, 16, 32][k] else 60
    ensures k >= 6 ==> TwoTo(k) >= 64
  {
    assert TwoTo(2) == 4 && TwoTo(4) == 16 && TwoTo(6) == 64;
    if k > 6 {
      ReconnectWaits(k - 1);
    }
  }

  /** Waits count from the last connection: a broken one is waited for itself, one closed in order is not. */
  lemma {:induction false} StreakCounts(before: seq<Turn>, last: Turn, k: nat)
    requires !last.Refused?
    ensures var refused := seq(k, _ => Refused);
            && NextStreak(before + [last] + refused) == k + (if last.Broken? then 1 else 0)
            && NextStreak(refused) == k
            && (last.Broken? ==> Streak(before + [last] + refused) == k)
            && (last.ClosedInOrder? && k > 0 ==> Streak(before + [last] + refused) == k - 1)
            && (k > 0 ==> Streak(refused) == k - 1)
  {
    var refused := seq(k, _ => Refused);
    if k == 0 {
      assert before + [last] + refused == before + [last] && refused == [];
    } else {
      StreakCounts(before, last, k - 1);
      var fewer: seq<Turn> := seq(k - 1, _ => Refused);
      assert refused[..k - 1] == fewer;
      assert (before + [last] + refused)[..|before| + k] == before + [last] + fewer;
    }
  }

  lemma WaitDoubles(k: nat)
    ensures ReconnectWait(k + 1) == Doubled(ReconnectWait(k))
  {
  }
}
