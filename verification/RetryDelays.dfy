/** The delays of a retry policy one by one, and exactly how long a run sleeps. */
module RetryDelays {
  import opened Retry

  // ---------------------------------------------------------------- what the delays are

  /** A policy's fields are kept where they make sense; the others become one attempt, a tenth of a second, two seconds,
      doubling, and the nearest jitter. */
  lemma NormalizeKeeps(policy: Policy)
    ensures var p := Normalize(policy);
            && p.maxAttempts == (if policy.maxAttempts >= 1 then policy.maxAttempts else 1)
            && p.initialDelay == (if policy.initialDelay > 0.0 then policy.initialDelay else 100.0)
            && p.maxDelay == (if policy.maxDelay > 0.0 then policy.maxDelay else 2000.0)
            && p.multiplier == (if policy.multiplier > 1.0 then policy.multiplier else 2.0)
            && p.jitter == (if policy.jitter > 1.0 then 1.0 else if policy.jitter >= 0.0 then policy.jitter else 0.0)
  {
  }

  function Least(x: real, y: real): real {
    if x <= y then x else y
  }

  lemma Larger(m: real, x: real, y: real)
    requires m > 1.0 && 0.0 < x <= y
    ensures m * x <= m * y && x < m * x
  {
    MulMono(m, x, y);
    assert (m - 1.0) * x > 0.0;
  }

  lemma CappedStep(m: real, b: real, max: real)
    requires m > 1.0 && b > 0.0 && max > 0.0
    ensures Least(max, m * b) == Least(max, m * Least(max, b))
  {
    if b > max {
      Larger(m, max, b);
      assert Least(max, b) == max && Least(max, m * max) == max && Least(max, m * b) == max;
    } else {
      assert Least(max, b) == b;
    }
  }

  lemma Swap(x: real, m: real, q: real, next: real)
    requires next == m * q
    ensures x * next == m * (x * q)
  {
  }

  lemma Positive(x: real, y: real)
    requires x > 0.0 && y >= 1.0
    ensures x * y > 0.0
  {
  }

  lemma UncappedStep(p: Policy, k: nat)
    requires Normal(p) && k >= 1
    ensures Uncapped(p, k) > 0.0 && Uncapped(p, k + 1) == p.multiplier * Uncapped(p, k)
  {
    PowGrows(p.multiplier, k - 1);
    Positive(p.initialDelay, Pow(p.multiplier, k - 1));
    Swap(p.initialDelay, p.multiplier, Pow(p.multiplier, k - 1), Pow(p.multiplier, k));
  }

  /** The first delay is the initial one, and each further delay is the multiple of the one before, both cut off at the
      maximum. */
  lemma BaseStep(p: Policy, k: nat)
    requires Normal(p) && k >= 1
    ensures Base(p, 1) == Least(p.maxDelay, p.initialDelay)
    ensures Base(p, k + 1) == Least(p.maxDelay, p.multiplier * Base(p, k))
  {
    UncappedStep(p, k);
    CappedStep(p.multiplier, Uncapped(p, k), p.maxDelay);
    assert Pow(p.multiplier, 0) == 1.0;
  }

  /** A delay is drawn evenly from its share around the base. */
  lemma JitterIs(base: real, jitter: real, rand: real)
    requires base >= 0.0 && 0.0 <= jitter <= 1.0 && 0.0 <= rand < 1.0
    ensures Jittered(base, jitter, rand) == base - base * jitter + rand * (2.0 * (base * jitter))
  {
    var spread := base * jitter;
    Scale(jitter, base);
    Scale(rand, 2.0 * spread);
  }

  // ---------------------------------------------------------------- exactly how long

  /** The sleep that was cut short, if one was. */
  function CutShort(env: Env, out: Outcome): real {
    if out.verdict.ContextDone? && env.wake(out.calls).Interrupted? then env.wake(out.calls).time else 0.0
  }

  lemma {:induction false} SleptExactly(max: int, env: Env, delays: nat -> real, attempt: nat, slept: real)
    requires 1 <= attempt <= max && slept == Sum(delays, attempt - 1)
    ensures var out := From(max, env, delays, attempt, slept);
            out.calls >= 1 && out.slept == Sum(delays, out.calls - 1) + CutShort(env, out)
    decreases max - attempt
  {
    if !Stops(max, env, attempt) && env.wake(attempt).Elapsed? {
      SleptExactly(max, env, delays, attempt + 1, slept + delays(attempt));
    }
  }

  /** The smallest delays jitter can make. */
  function Floors(p: Policy): nat -> real {
    (k: nat) => if k == 0 then 0.0 else Base(p, k) - Base(p, k) * p.jitter
  }

  lemma FloorsSpread(p: Policy)
    ensures Spread(Bases(p), Floors(p), -p.jitter)
  {
    var bases, floors := Bases(p), Floors(p);
    forall k: nat
      ensures floors(k) == bases(k) + bases(k) * -p.jitter
    {
      if k > 0 {
        assert bases(k) == Base(p, k);
      }
    }
  }

  lemma FloorAt(p: Policy, k: nat)
    requires k >= 1
    ensures Floors(p)(k) == Base(p, k) - Base(p, k) * p.jitter
  {
  }

  lemma DelayAboveFloor(p: Policy, k: nat, rand: real)
    requires Normal(p) && k >= 1 && 0.0 <= rand < 1.0
    ensures Base(p, k) - Base(p, k) * p.jitter <= Jittered(Base(p, k), p.jitter, rand)
  {
    BaseGrows(p, k);
    JitterBounds(Base(p, k), p.jitter, rand);
  }

  lemma DelaysAboveFloors(p: Policy, env: Env)
    requires Normal(p) && forall k :: 0.0 <= env.rand(k) < 1.0
    ensures forall k :: Floors(p)(k) <= Delays(p, env)(k)
  {
    var floors, delays := Floors(p), Delays(p, env);
    forall k: nat
      ensures floors(k) <= delays(k)
    {
      assert 0.0 <= env.rand(k) < 1.0;
      if k > 0 {
        DelayAt(p, env, k);
        FloorAt(p, k);
        DelayAboveFloor(p, k, env.rand(k));
      }
    }
  }

  /** The delays before jitter, less the share jitter can take. */
  function Shrunk(p: Policy, total: real): real {
    total - total * p.jitter
  }

  lemma FloorsSum(p: Policy, n: nat)
    ensures Sum(Floors(p), n) == Shrunk(p, Sum(Bases(p), n))
  {
    FloorsSpread(p);
    SpreadSum(Bases(p), Floors(p), -p.jitter, n);
  }

  lemma DelaysSum(p: Policy, env: Env, n: nat)
    requires Normal(p) && forall k :: 0.0 <= env.rand(k) < 1.0
    ensures Shrunk(p, Sum(Bases(p), n)) <= Sum(Delays(p, env), n)
  {
    DelaysAboveFloors(p, env);
    SumMono(Floors(p), Delays(p, env), n);
    FloorsSum(p, n);
  }

  /** A run sleeps once in full between any two calls; if no sleep is cut short, that is at least (1 - J) times the
      delays before jitter. */
  lemma SleepsBetweenCalls(policy: Policy, env: Env)
    requires forall k :: 0.0 <= env.rand(k) < 1.0
    ensures Run(policy, env).calls >= 1
    ensures var p, out := Normalize(policy), Run(policy, env);
            && out.slept == Sum(Delays(p, env), out.calls - 1) + CutShort(env, out)
            && (!out.verdict.ContextDone? ==> Shrunk(p, Sum(Bases(p), out.calls - 1)) <= out.slept)
  {
    var p, out := Normalize(policy), Run(policy, env);
    NormalizeIsNormal(policy);
    SleptExactly(p.maxAttempts, env, Delays(p, env), 1, 0.0);
    DelaysSum(p, env, out.calls - 1);
  }
}
