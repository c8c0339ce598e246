/** Retrying with exponential backoff and jitter, over the reals. */
module Retry {

  /** Delays are in milliseconds. */
  datatype Policy = Policy(maxAttempts: int, initialDelay: real, maxDelay: real, multiplier: real, jitter: real)

  function Normalize(p: Policy): Policy {
    Policy(if p.maxAttempts < 1 then 1 else p.maxAttempts,
           if p.initialDelay <= 0.0 then 100.0 else p.initialDelay,
           if p.maxDelay <= 0.0 then 2000.0 else p.maxDelay,
           if p.multiplier <= 1.0 then 2.0 else p.multiplier,
           if p.jitter < 0.0 then 0.0 else if p.jitter > 1.0 then 1.0 else p.jitter)
  }

  predicate Normal(p: Policy) {
    p.maxAttempts >= 1 && p.initialDelay > 0.0 && p.maxDelay > 0.0 && p.multiplier > 1.0 && 0.0 <= p.jitter <= 1.0
  }

  /** What the n-th call of the retried function does. */
  datatype Reply = Ok | Canceled | Failure(retryable: bool)

  /** How the n-th sleep ends: in full, or cut short by the context after some time. */
  datatype Wake = Elapsed | Interrupted(time: real)

  /** Everything that comes from outside, call by call; attempts count from 1. */
  datatype Env = Env(reply: nat -> Reply, wake: nat -> Wake, rand: nat -> real)

  /** Random numbers are in range, and no sleep is cut short after its end. */
  ghost predicate Plausible(env: Env, delays: nat -> real) {
    && (forall k :: 0.0 <= env.rand(k) < 1.0)
    && (forall k :: env.wake(k).Interrupted? ==> 0.0 <= env.wake(k).time <= delays(k))
  }

  // ---------------------------------------------------------------- delays

  function Pow(m: real, k: nat): real {
    if k == 0 then 1.0 else m * Pow(m, k - 1)
  }

  /** The delay before jitter, if there were no maximum. */
  function Uncapped(p: Policy, attempt: nat): real
    requires attempt >= 1
  {
    p.initialDelay * Pow(p.multiplier, attempt - 1)
  }

  /** The delay before jitter. */
  function Base(p: Policy, attempt: nat): real
    requires attempt >= 1
  {
    var base := Uncapped(p, attempt);
    if base > p.maxDelay then p.maxDelay else base
  }

  /** A point of the interval of width `width` above `low`. */
  function Pick(low: real, width: real, rand: real): real {
    low + rand * width
  }

  /** A point between two bounds given in either order, but not below zero. */
  function Between(lo: real, hi: real, rand: real): real {
    var picked := if hi < lo then Pick(hi, lo - hi, rand) else Pick(lo, hi - lo, rand);
    if picked < 0.0 then 0.0 else picked
  }

  /** Spread a delay evenly around its base value. */
  function Jittered(base: real, jitter: real, rand: real): real {
    var spread := base * jitter;
    if jitter == 0.0 then base else Between(base - spread, base + spread, rand)
  }

  /** The delays of a run, by attempt. */
  function Delays(p: Policy, env: Env): nat -> real {
    (k: nat) => if k == 0 then 0.0 else Jittered(Base(p, k), p.jitter, env.rand(k))
  }

  // ---------------------------------------------------------------- the loop

  datatype Verdict = Succeeded | GaveUp(attempt: nat) | ContextDone

  /** Verdict, number of calls made, total time slept. */
  datatype Outcome = Outcome(verdict: Verdict, calls: nat, slept: real)

  predicate Stops(max: int, env: Env, attempt: nat) {
    env.reply(attempt) != Failure(true) || attempt >= max
  }

  function StopVerdict(env: Env, attempt: nat): Verdict {
    if env.reply(attempt).Ok? then Succeeded else GaveUp(attempt)
  }

  /** The rest of the run from the given attempt on. */
  function From(max: int, env: Env, delays: nat -> real, attempt: nat, slept: real): Outcome
    decreases max - attempt
  {
    if Stops(max, env, attempt) then Outcome(StopVerdict(env, attempt), attempt, slept)
    else
      match env.wake(attempt)
      case Interrupted(time) => Outcome(ContextDone, attempt, slept + time)
      case Elapsed => From(max, env, delays, attempt + 1, slept + delays(attempt))
  }

  /** The loop under a policy that has been normalized. */
  function Loop(p: Policy, env: Env): Outcome {
    From(p.maxAttempts, env, Delays(p, env), 1, 0.0)
  }

  function Run(policy: Policy, env: Env): Outcome {
    Loop(Normalize(policy), env)
  }

  method Do(policy: Policy, env: Env) returns (out: Outcome)
    ensures out == Run(policy, env)
  {
    var p := Normalize(policy);
    var delays := Delays(p, env);
    var max, slept, attempt := p.maxAttempts, 0.0, 1;
    while true
      invariant 1 <= attempt <= max
      invariant From(max, env, delays, attempt, slept) == Run(policy, env)
      decreases max - attempt
    {
      var reply := env.reply(attempt);
      if reply.Ok? {
        return Outcome(Succeeded, attempt, slept);
      }
      if reply.Canceled? {
        return Outcome(GaveUp(attempt), attempt, slept);
      }
      if !reply.retryable || attempt == max {
        return Outcome(GaveUp(attempt), attempt, slept);
      }
      var delay := delays(attempt);
      var wake := env.wake(attempt);
      if wake.Interrupted? {
        return Outcome(ContextDone, attempt, slept + wake.time);
      }
      slept := slept + delay;
      attempt := attempt + 1;
    }
  }

  // ---------------------------------------------------------------- how many calls, and why it stops

  /** The function is called at least once and at most `max` times; every call but the last failed
      retryably and was followed by a full sleep; the last one decides the verdict. */
  lemma {:induction false} CallsAndVerdict(max: int, env: Env, delays: nat -> real, attempt: nat, slept: real)
    requires attempt <= max
    ensures var out := From(max, env, delays, attempt, slept);
            && attempt <= out.calls <= max
            && (forall k | attempt <= k < out.calls :: env.reply(k) == Failure(true) && env.wake(k).Elapsed?)
            && (out.verdict.Succeeded? <==> env.reply(out.calls).Ok?)
            && (out.verdict.GaveUp? ==> out.verdict.attempt == out.calls)
            && (out.verdict.ContextDone? <==>
                  out.calls < max && env.reply(out.calls) == Failure(true) && env.wake(out.calls).Interrupted?)
    decreases max - attempt
  {
    if !Stops(max, env, attempt) && env.wake(attempt).Elapsed? {
      CallsAndVerdict(max, env, delays, attempt + 1, slept + delays(attempt));
    }
  }

  /** `Do` makes between one and `maxAttempts` calls, whatever policy it is given. */
  lemma CallsBounded(policy: Policy, env: Env)
    ensures 1 <= Run(policy, env).calls <= if policy.maxAttempts < 1 then 1 else policy.maxAttempts
    ensures Run(policy, env).verdict.Succeeded? <==> env.reply(Run(policy, env).calls).Ok?
  {
    var p := Normalize(policy);
    CallsAndVerdict(p.maxAttempts, env, Delays(p, env), 1, 0.0);
  }

  // ---------------------------------------------------------------- delays grow, within bounds

  lemma Scale(u: real, x: real)
    requires 0.0 <= u <= 1.0 && x >= 0.0
    ensures 0.0 <= u * x <= x
  {
  }

  lemma MulMono(a: real, x: real, y: real)
    requires a >= 0.0 && x <= y
    ensures a * x <= a * y
  {
  }

  lemma {:induction false} PowGrows(m: real, k: nat)
    requires m > 1.0
    ensures 1.0 <= Pow(m, k) <= Pow(m, k + 1)
  {
    if k > 0 {
      PowGrows(m, k - 1);
    }
    assert Pow(m, k) >= 1.0;
    MulMono(Pow(m, k), 1.0, m);
  }

  /** Delays before jitter never decrease, and stay between zero and the maximum. */
  lemma BaseGrows(p: Policy, attempt: nat)
    requires Normal(p) && attempt >= 1
    ensures 0.0 <= Base(p, attempt) <= Base(p, attempt + 1) <= p.maxDelay
    ensures Base(p, attempt) <= p.initialDelay * Pow(p.multiplier, attempt - 1)
  {
    PowGrows(p.multiplier, attempt - 1);
    MulMono(p.initialDelay, Pow(p.multiplier, attempt - 1), Pow(p.multiplier, attempt));
    MulMono(p.initialDelay, 0.0, Pow(p.multiplier, attempt - 1));
  }

  lemma PickBounds(low: real, width: real, rand: real)
    requires width >= 0.0 && 0.0 <= rand < 1.0
    ensures low <= Pick(low, width, rand) <= low + width
  {
    Scale(rand, width);
  }

  lemma BetweenBounds(lo: real, hi: real, rand: real)
    requires 0.0 <= lo <= hi && 0.0 <= rand < 1.0
    ensures lo <= Between(lo, hi, rand) <= hi
  {
    PickBounds(lo, hi - lo, rand);
  }

  /** Jitter moves a delay by at most its share, in either direction. */
  lemma JitterBounds(base: real, jitter: real, rand: real)
    requires base >= 0.0 && 0.0 <= jitter <= 1.0 && 0.0 <= rand < 1.0
    ensures base - base * jitter <= Jittered(base, jitter, rand) <= base + base * jitter
    ensures 0.0 <= Jittered(base, jitter, rand)
  {
    var spread := base * jitter;
    Scale(jitter, base);
    assert 0.0 <= spread <= base;
    BetweenBounds(base - spread, base + spread, rand);
  }

  // ---------------------------------------------------------------- total sleep

  /** Delays before jitter, by attempt. */
  function Bases(p: Policy): nat -> real {
    (k: nat) => if k == 0 then 0.0 else Base(p, k)
  }

  /** The largest delays jitter can make of them. */
  function Caps(p: Policy): nat -> real {
    (k: nat) => if k == 0 then 0.0 else Base(p, k) + Base(p, k) * p.jitter
  }

  /** The delays before jitter if there were no maximum. */
  function Series(initial: real, m: real): nat -> real {
    (k: nat) => if k == 0 then 0.0 else initial * Pow(m, k - 1)
  }

  /** The entries 1 to k together. */
  function Sum(f: nat -> real, k: nat): real {
    if k == 0 then 0.0 else Sum(f, k - 1) + f(k)
  }

  ghost predicate Within(delays: nat -> real, caps: nat -> real) {
    forall k :: 0.0 <= delays(k) <= caps(k)
  }

  lemma {:induction false} SumGrows(delays: nat -> real, caps: nat -> real, j: nat, k: nat)
    requires Within(delays, caps) && j <= k
    ensures Sum(caps, j) <= Sum(caps, k)
    decreases k
  {
    if j < k {
      SumGrows(delays, caps, j, k - 1);
      assert 0.0 <= delays(k) <= caps(k);
    }
  }

  /** A run sleeps no longer than the bounds of all its possible sleeps together. */
  lemma {:induction false} SleptBounded(max: int, env: Env, delays: nat -> real, caps: nat -> real, attempt: nat, slept: real)
    requires Plausible(env, delays) && Within(delays, caps) && 1 <= attempt <= max
    requires 0.0 <= slept <= Sum(caps, attempt - 1)
    ensures 0.0 <= From(max, env, delays, attempt, slept).slept <= Sum(caps, max - 1)
    decreases max - attempt
  {
    assert 0.0 <= delays(attempt) <= caps(attempt);
    if Stops(max, env, attempt) {
      SumGrows(delays, caps, attempt - 1, max - 1);
    } else if env.wake(attempt).Interrupted? {
      SumGrows(delays, caps, attempt, max - 1);
    } else {
      SleptBounded(max, env, delays, caps, attempt + 1, slept + delays(attempt));
    }
  }

  lemma DelayWithinCap(p: Policy, k: nat, rand: real)
    requires Normal(p) && k >= 1 && 0.0 <= rand < 1.0
    ensures 0.0 <= Jittered(Base(p, k), p.jitter, rand) <= Base(p, k) + Base(p, k) * p.jitter
  {
    BaseGrows(p, k);
    JitterBounds(Base(p, k), p.jitter, rand);
  }

  lemma DelayAt(p: Policy, env: Env, k: nat)
    requires k >= 1
    ensures Delays(p, env)(k) == Jittered(Base(p, k), p.jitter, env.rand(k))
    ensures Caps(p)(k) == Base(p, k) + Base(p, k) * p.jitter
  {
  }

  lemma DelaysWithinCaps(p: Policy, env: Env)
    requires Normal(p) && Plausible(env, Delays(p, env))
    ensures Within(Delays(p, env), Caps(p))
  {
    var delays, caps := Delays(p, env), Caps(p);
    forall k: nat
      ensures 0.0 <= delays(k) <= caps(k)
    {
      assert 0.0 <= env.rand(k) < 1.0;
      if k > 0 {
        DelayAt(p, env, k);
        DelayWithinCap(p, k, env.rand(k));
      }
    }
  }

  // ---------------------------------------------------------------- the sums in closed form

  lemma Distribute(x: real, y: real, j: real)
    ensures (x + x * j) + (y + y * j) == (x + y) + (x + y) * j
  {
  }

  ghost predicate Spread(bases: nat -> real, caps: nat -> real, j: real) {
    forall k :: caps(k) == bases(k) + bases(k) * j
  }

  lemma {:induction false} SpreadSum(bases: nat -> real, caps: nat -> real, j: real, k: nat)
    requires Spread(bases, caps, j)
    ensures Sum(caps, k) == Sum(bases, k) + Sum(bases, k) * j
  {
    if k > 0 {
      SpreadSum(bases, caps, j, k - 1);
      assert caps(k) == bases(k) + bases(k) * j;
      Distribute(Sum(bases, k - 1), bases(k), j);
    }
  }

  lemma CapsSpread(p: Policy)
    ensures Spread(Bases(p), Caps(p), p.jitter)
  {
    var bases, caps := Bases(p), Caps(p);
    forall k: nat
      ensures caps(k) == bases(k) + bases(k) * p.jitter
    {
      if k > 0 {
        assert bases(k) == Base(p, k);
      }
    }
  }

  lemma OneMore(k: nat, bound: real)
    requires k > 0
    ensures (k - 1) as real * bound + bound == k as real * bound
  {
  }

  lemma {:induction false} SumBelow(f: nat -> real, bound: real, k: nat)
    requires forall i :: f(i) <= bound
    ensures Sum(f, k) <= k as real * bound
  {
    if k > 0 {
      SumBelow(f, bound, k - 1);
      OneMore(k, bound);
    }
  }

  lemma {:induction false} SumMono(f: nat -> real, g: nat -> real, k: nat)
    requires forall i :: f(i) <= g(i)
    ensures Sum(f, k) <= Sum(g, k)
  {
    if k > 0 {
      SumMono(f, g, k - 1);
      assert f(k) <= g(k);
    }
  }

  /** I (q - 1) / (m - 1), the sum of a geometric series whose next power is q. */
  function Closed(initial: real, m: real, power: real): real
    requires m != 1.0
  {
    initial * (power - 1.0) / (m - 1.0)
  }

  lemma AddToFraction(a: real, b: real, d: real)
    requires d != 0.0
    ensures a / d + b == (a + b * d) / d
  {
  }

  lemma Expand(initial: real, q: real, m: real)
    ensures initial * (q - 1.0) + initial * q * (m - 1.0) == initial * (m * q - 1.0)
  {
  }

  lemma ClosedStep(initial: real, m: real, q: real, next: real)
    requires m != 1.0 && next == m * q
    ensures Closed(initial, m, next) == Closed(initial, m, q) + initial * q
  {
    AddToFraction(initial * (q - 1.0), initial * q, m - 1.0);
    Expand(initial, q, m);
  }

  lemma ZeroOver(x: real, d: real)
    requires x == 0.0 && d != 0.0
    ensures x / d == 0.0
  {
  }

  lemma ClosedStart(initial: real, m: real)
    requires m != 1.0
    ensures Closed(initial, m, 1.0) == 0.0
  {
    ZeroOver(initial * (1.0 - 1.0), m - 1.0);
  }

  /** The closed form, by number of terms. */
  function ClosedTerms(initial: real, m: real): nat -> real
    requires m != 1.0
  {
    (k: nat) => Closed(initial, m, Pow(m, k))
  }

  lemma ClosedFollows(initial: real, m: real, k: nat)
    requires m != 1.0 && k > 0
    ensures ClosedTerms(initial, m)(k) == ClosedTerms(initial, m)(k - 1) + Series(initial, m)(k)
  {
    ClosedStep(initial, m, Pow(m, k - 1), Pow(m, k));
  }

  ghost predicate Accumulates(total: nat -> real, f: nat -> real) {
    total(0) == 0.0 && forall k: nat :: k > 0 ==> total(k) == total(k - 1) + f(k)
  }

  lemma {:induction false} SumIs(f: nat -> real, total: nat -> real, k: nat)
    requires Accumulates(total, f)
    ensures Sum(f, k) == total(k)
  {
    if k > 0 {
      SumIs(f, total, k - 1);
    }
  }

  /** The geometric series in closed form. */
  lemma SeriesSum(initial: real, m: real, k: nat)
    requires m != 1.0
    ensures Sum(Series(initial, m), k) == Closed(initial, m, Pow(m, k))
  {
    var total, f := ClosedTerms(initial, m), Series(initial, m);
    ClosedStart(initial, m);
    forall i: nat | i > 0
      ensures total(i) == total(i - 1) + f(i)
    {
      ClosedFollows(initial, m, i);
    }
    SumIs(f, total, k);
  }

  /** The delays before jitter add up to no more than all of them at the maximum, nor than the series. */
  lemma BasesBelowMaxima(p: Policy, n: nat)
    requires Normal(p)
    ensures Sum(Bases(p), n) <= n as real * p.maxDelay
  {
    forall i: nat
      ensures Bases(p)(i) <= p.maxDelay
    {
      if i > 0 {
        BaseGrows(p, i);
      }
    }
    SumBelow(Bases(p), p.maxDelay, n);
  }

  lemma BasesBelowSeries(p: Policy, n: nat)
    requires Normal(p)
    ensures Sum(Bases(p), n) <= Sum(Series(p.initialDelay, p.multiplier), n)
  {
    forall i: nat
      ensures Bases(p)(i) <= Series(p.initialDelay, p.multiplier)(i)
    {
      if i > 0 {
        BaseGrows(p, i);
      }
    }
    SumMono(Bases(p), Series(p.initialDelay, p.multiplier), n);
  }

  lemma Widen(total: real, bound: real, j: real)
    requires total <= bound && j >= 0.0
    ensures total + total * j <= (1.0 + j) * bound
  {
    MulMono(j, total, bound);
    assert (1.0 + j) * bound == bound + j * bound;
  }

  lemma CapsSum(p: Policy, n: nat)
    ensures Sum(Caps(p), n) == Sum(Bases(p), n) + Sum(Bases(p), n) * p.jitter
  {
    CapsSpread(p);
    SpreadSum(Bases(p), Caps(p), p.jitter, n);
  }

  /** A sum of delays with the jitter on top. */
  function Stretched(p: Policy, total: real): real {
    (1.0 + p.jitter) * total
  }

  lemma CapsBelow(p: Policy, n: nat, bound: real)
    requires p.jitter >= 0.0 && Sum(Bases(p), n) <= bound
    ensures Sum(Caps(p), n) <= Stretched(p, bound)
  {
    CapsSum(p, n);
    Widen(Sum(Bases(p), n), bound, p.jitter);
  }

  /** The most a run may sleep: one jittered delay after every attempt but the last. */
  function Budget(p: Policy): real
    requires p.maxAttempts >= 1
  {
    Sum(Caps(p), p.maxAttempts - 1)
  }

  /** A whole run, under any policy and with any replies, interruptions and random numbers, stays within its budget. */
  lemma SleepsWithinBudget(policy: Policy, env: Env)
    requires Plausible(env, Delays(Normalize(policy), env))
    ensures 0.0 <= Run(policy, env).slept <= Budget(Normalize(policy))
  {
    var p := Normalize(policy);
    DelaysWithinCaps(p, env);
    SleptBounded(p.maxAttempts, env, Delays(p, env), Caps(p), 1, 0.0);
  }

  /** Every delay at its maximum, stretched by the jitter. */
  function MaximaBound(p: Policy): real {
    Stretched(p, (p.maxAttempts - 1) as real * p.maxDelay)
  }

  /** The geometric series of the delays, as if there were no maximum, stretched by the jitter. */
  function SeriesBound(p: Policy): real
    requires Normal(p)
  {
    Stretched(p, Closed(p.initialDelay, p.multiplier, Pow(p.multiplier, p.maxAttempts - 1)))
  }

  lemma BudgetBelowMaxima(p: Policy)
    requires Normal(p)
    ensures Budget(p) <= MaximaBound(p)
  {
    var n := p.maxAttempts - 1;
    BasesBelowMaxima(p, n);
    CapsBelow(p, n, n as real * p.maxDelay);
  }

  lemma BudgetBelowSum(p: Policy)
    requires Normal(p)
    ensures Budget(p) <= Stretched(p, Sum(Series(p.initialDelay, p.multiplier), p.maxAttempts - 1))
  {
    var n := p.maxAttempts - 1;
    BasesBelowSeries(p, n);
    CapsBelow(p, n, Sum(Series(p.initialDelay, p.multiplier), n));
  }

  lemma StretchedSame(p: Policy, x: real, y: real)
    requires x == y
    ensures Stretched(p, x) == Stretched(p, y)
  {
  }

  lemma BudgetBelowSeries(p: Policy)
    requires Normal(p)
    ensures Budget(p) <= SeriesBound(p)
  {
    var n := p.maxAttempts - 1;
    BudgetBelowSum(p);
    SeriesSum(p.initialDelay, p.multiplier, n);
    StretchedSame(p, Sum(Series(p.initialDelay, p.multiplier), n), Closed(p.initialDelay, p.multiplier, Pow(p.multiplier, n)));
  }

  lemma NormalizeIsNormal(policy: Policy)
    ensures Normal(Normalize(policy)) && (Normal(policy) ==> Normalize(policy) == policy)
  {
  }

  /** The bound on total sleep: whatever policy it is given, a run sleeps at most (1 + J) times the smaller of
      (n - 1) maximal delays and the geometric series I (M^(n-1) - 1) / (M - 1). */
  lemma TotalSleep(policy: Policy, env: Env)
    requires Plausible(env, Delays(Normalize(policy), env))
    ensures Normal(Normalize(policy))
    ensures 0.0 <= Run(policy, env).slept <= MaximaBound(Normalize(policy))
    ensures Run(policy, env).slept <= SeriesBound(Normalize(policy))
  {
    NormalizeIsNormal(policy);
    SleepsWithinBudget(policy, env);
    BudgetBelowMaxima(Normalize(policy));
    BudgetBelowSeries(Normalize(policy));
  }
}
