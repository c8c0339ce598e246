/** Many requests resolving keys through one cache: the double-checked refresh under two locks.

    A step is what one goroutine does between two points where another may run: each critical section
    of the read/write lock is one step, the refresh lock is held across several.  A request's clock
    value is read once, at its start; the clock only moves forward.
 */
module JwksProtocol {
  import opened Options
  import opened JwksKeys

  datatype Phase =
    | Begun                      // clock captured
    | Waiting                    // saw a stale cache, wants the refresh lock
    | Checking                   // holds the refresh lock, about to look again
    | Fetching                   // holds the refresh lock, request to the identity service under way
    | Stored                     // holds the refresh lock, new keys are in place
    | Looking                    // about to query the tables
    | Served(key: Option<Key>)
    | Failed

  datatype Call = Call(kid: string, now: int, phase: Phase, fetched: bool)

  datatype Refreshed = Refreshed(at: int, doc: seq<Jwk>)

  /** `history` lists the successful refreshes, oldest first. */
  datatype State = State(clock: int, keys: Keys, expiresAt: Option<int>, lock: Option<nat>,
                         calls: map<nat, Call>, history: seq<Refreshed>)

  /** What does not change during a run. */
  datatype Setup = Setup(ttl: int, decode: string -> Option<Key>)

  datatype Action =
    | Tick(to: int)
    | Begin(c: nat, kid: string)
    | ReadExpiry(c: nat)
    | Acquire(c: nat)
    | Recheck(c: nat)
    | FetchFails(c: nat)
    | FetchStores(c: nat, doc: seq<Jwk>)
    | Release(c: nat)
    | Answer(c: nat)

  function Start(clock: int): State {
    State(clock, NO_KEYS, None, None, map[], [])
  }

  predicate At(s: State, c: nat, p: Phase) {
    c in s.calls && s.calls[c].phase == p
  }

  predicate Enabled(s: State, a: Action) {
    match a
    case Tick(to) => s.clock <= to
    case Begin(c, _) => c !in s.calls
    case ReadExpiry(c) => At(s, c, Begun)
    case Acquire(c) => At(s, c, Waiting) && s.lock.None?
    case Recheck(c) => At(s, c, Checking)
    case FetchFails(c) => At(s, c, Fetching)
    case FetchStores(c, _) => At(s, c, Fetching)
    case Release(c) => At(s, c, Stored)
    case Answer(c) => At(s, c, Looking)
  }

  function Move(s: State, c: nat, p: Phase): State
    requires c in s.calls
  {
    s.(calls := s.calls[c := s.calls[c].(phase := p, fetched := s.calls[c].fetched || p == Fetching)])
  }

  function Apply(s: State, a: Action, u: Setup): State
    requires Enabled(s, a)
  {
    match a
    case Tick(to) => s.(clock := to)
    case Begin(c, kid) => s.(calls := s.calls[c := Call(kid, s.clock, Begun, false)])
    case ReadExpiry(c) => Move(s, c, if Stale(s.calls[c].now, s.expiresAt) then Waiting else Looking)
    case Acquire(c) => Move(s, c, Checking).(lock := Some(c))
    case Recheck(c) =>
      if Stale(s.calls[c].now, s.expiresAt) then Move(s, c, Fetching) else Move(s, c, Looking).(lock := None)
    case FetchFails(c) => Move(s, c, Failed).(lock := None)
    case FetchStores(c, doc) =>
      Move(s, c, Stored).(keys := Collect(doc, u.decode), expiresAt := Some(s.clock + u.ttl),
                          history := s.history + [Refreshed(s.clock, doc)])
    case Release(c) => Move(s, c, Looking).(lock := None)
    case Answer(c) => Move(s, c, Served(Lookup(s.keys, s.calls[c].kid)))
  }

  predicate CanRun(s: State, run: seq<Action>, u: Setup)
    decreases |run|
  {
    run == [] || (Enabled(s, run[0]) && CanRun(Apply(s, run[0], u), run[1..], u))
  }

  function Run(s: State, run: seq<Action>, u: Setup): State
    requires CanRun(s, run, u)
    decreases |run|
  {
    if run == [] then s else Run(Apply(s, run[0], u), run[1..], u)
  }

  // ---------------------------------------------------------------- the invariant

  predicate HoldsLock(p: Phase) {
    p.Checking? || p.Fetching? || p.Stored?
  }

  predicate BeforeFetch(p: Phase) {
    p.Begun? || p.Waiting? || p.Checking?
  }

  function Latest(s: State): Refreshed
    requires s.history != []
  {
    s.history[|s.history|-1]
  }

  predicate CallOk(s: State, c: nat)
    requires c in s.calls
  {
    var call := s.calls[c];
    && call.now <= s.clock
    && (HoldsLock(call.phase) <==> s.lock == Some(c))
    && (BeforeFetch(call.phase) ==> !call.fetched)
    && (call.phase.Fetching? ==> Stale(call.now, s.expiresAt))
    && (call.phase.Stored? || call.phase.Looking? ==> !Stale(call.now, s.expiresAt))
  }

  predicate CacheOk(s: State, u: Setup) {
    && (s.history == [] ==> s.expiresAt == None && s.keys == NO_KEYS)
    && (s.history != [] ==> s.expiresAt == Some(Latest(s).at + u.ttl) && s.keys == Collect(Latest(s).doc, u.decode))
    && (s.history != [] ==> Latest(s).at <= s.clock)
  }

  /** Successful refreshes lie more than one lifetime apart. */
  predicate Spaced(history: seq<Refreshed>, ttl: int) {
    forall i, j | 0 <= i < j < |history| :: history[i].at + ttl < history[j].at
  }

  ghost predicate Inv(s: State, u: Setup) {
    && u.ttl > 0
    && CacheOk(s, u)
    && Spaced(s.history, u.ttl)
    && (s.lock.Some? ==> s.lock.value in s.calls)
    && forall c | c in s.calls :: CallOk(s, c)
  }

  lemma FetchKeepsInv(s: State, c: nat, doc: seq<Jwk>, u: Setup)
    requires Inv(s, u) && Enabled(s, FetchStores(c, doc))
    ensures Inv(Apply(s, FetchStores(c, doc), u), u)
  {
    var t := Apply(s, FetchStores(c, doc), u);
    assert CallOk(s, c);
    assert s.history != [] ==> Latest(s).at + u.ttl < s.clock;
    forall d | d in t.calls
      ensures CallOk(t, d)
    {
      assert CallOk(s, d);
    }
  }

  lemma ClockStepKeepsInv(s: State, a: Action, u: Setup)
    requires Inv(s, u) && Enabled(s, a) && (a.Tick? || a.Begin?)
    ensures Inv(Apply(s, a, u), u)
  {
    var t := Apply(s, a, u);
    forall d | d in t.calls
      ensures CallOk(t, d)
    {
      assert d in s.calls ==> CallOk(s, d);
    }
  }

  lemma ReadStepKeepsInv(s: State, a: Action, u: Setup)
    requires Inv(s, u) && Enabled(s, a) && (a.ReadExpiry? || a.Answer?)
    ensures Inv(Apply(s, a, u), u)
  {
    var t := Apply(s, a, u);
    forall d | d in t.calls
      ensures CallOk(t, d)
    {
      assert CallOk(s, d);
    }
  }

  lemma LockStepKeepsInv(s: State, a: Action, u: Setup)
    requires Inv(s, u) && Enabled(s, a) && (a.Acquire? || a.Recheck?)
    ensures Inv(Apply(s, a, u), u)
  {
    var t := Apply(s, a, u);
    forall d | d in t.calls
      ensures CallOk(t, d)
    {
      assert CallOk(s, d);
    }
  }

  lemma UnlockStepKeepsInv(s: State, a: Action, u: Setup)
    requires Inv(s, u) && Enabled(s, a) && (a.FetchFails? || a.Release?)
    ensures Inv(Apply(s, a, u), u)
  {
    var t := Apply(s, a, u);
    forall d | d in t.calls
      ensures CallOk(t, d)
    {
      assert CallOk(s, d);
    }
  }

  lemma StepKeepsInv(s: State, a: Action, u: Setup)
    requires Inv(s, u) && Enabled(s, a)
    ensures Inv(Apply(s, a, u), u)
  {
    if a.FetchStores? {
      FetchKeepsInv(s, a.c, a.doc, u);
    } else if a.Tick? || a.Begin? {
      ClockStepKeepsInv(s, a, u);
    } else if a.ReadExpiry? || a.Answer? {
      ReadStepKeepsInv(s, a, u);
    } else if a.Acquire? || a.Recheck? {
      LockStepKeepsInv(s, a, u);
    } else {
      UnlockStepKeepsInv(s, a, u);
    }
  }

  lemma {:induction false} RunKeepsInv(s: State, run: seq<Action>, u: Setup)
    requires Inv(s, u) && CanRun(s, run, u)
    ensures Inv(Run(s, run, u), u)
    decreases |run|
  {
    if run != [] {
      StepKeepsInv(s, run[0], u);
      RunKeepsInv(Apply(s, run[0], u), run[1..], u);
    }
  }

  ghost predicate Reachable(s: State, u: Setup) {
    u.ttl > 0 && exists clock, run :: CanRun(Start(clock), run, u) && s == Run(Start(clock), run, u)
  }

  lemma ReachableInv(s: State, u: Setup)
    requires Reachable(s, u)
    ensures Inv(s, u)
  {
    var clock, run :| CanRun(Start(clock), run, u) && s == Run(Start(clock), run, u);
    RunKeepsInv(Start(clock), run, u);
  }

  // ---------------------------------------------------------------- what every run keeps

  /** At most one refresh runs at a time, and any two that succeed lie more than one lifetime apart. */
  lemma OneRefreshPerLifetime(s: State, u: Setup, c: nat, d: nat, i: nat, j: nat)
    requires Reachable(s, u)
    ensures At(s, c, Fetching) && At(s, d, Fetching) ==> c == d
    ensures i < j < |s.history| ==> s.history[i].at + u.ttl < s.history[j].at
  {
    ReachableInv(s, u);
    assert c in s.calls ==> CallOk(s, c);
    assert d in s.calls ==> CallOk(s, d);
  }

  lemma {:induction false} RefreshRate(history: seq<Refreshed>, ttl: int)
    requires Spaced(history, ttl) && history != []
    ensures (|history| - 1) * ttl <= history[|history|-1].at - history[0].at
  {
    if |history| > 1 {
      var front := history[..|history|-1];
      RefreshRate(front, ttl);
      assert history[|history|-2].at + ttl < history[|history|-1].at;
      assert (|history| - 1) * ttl == (|front| - 1) * ttl + ttl;
    }
  }

  /** The number of successful refreshes is bounded by the time that has passed. */
  lemma RefreshesBoundedByTime(s: State, u: Setup)
    requires Reachable(s, u) && s.history != []
    ensures (|s.history| - 1) * u.ttl <= s.clock - s.history[0].at
  {
    ReachableInv(s, u);
    RefreshRate(s.history, u.ttl);
  }

  /** An answer comes from the document stored last, that document had not expired at the time the
      request began, and the key is the one a direct scan of it finds. */
  lemma AnswersFromLatest(s: State, u: Setup, c: nat)
    requires Reachable(s, u) && Enabled(s, Answer(c))
    ensures s.history != [] && s.calls[c].now <= Latest(s).at + u.ttl
    ensures At(Apply(s, Answer(c), u), c, Served(Scan(Latest(s).doc, s.calls[c].kid, u.decode)))
  {
    ReachableInv(s, u);
    assert CallOk(s, c);
    LookupIsScan(Latest(s).doc, s.calls[c].kid, u.decode);
  }

  /** A request that has not begun to fetch and whose clock reading the cache covers. */
  predicate Covered(s: State, c: nat) {
    c in s.calls && BeforeFetch(s.calls[c].phase) && !Stale(s.calls[c].now, s.expiresAt)
  }

  predicate Settled(s: State, c: nat) {
    && c in s.calls && !s.calls[c].fetched
    && (Covered(s, c) || s.calls[c].phase.Looking? || s.calls[c].phase.Served?)
  }

  lemma SettledStep(s: State, a: Action, u: Setup, c: nat)
    requires Inv(s, u) && Enabled(s, a) && Settled(s, c)
    ensures Settled(Apply(s, a, u), c)
  {
    if a.FetchStores? {
      assert CallOk(s, a.c);
    }
  }

  lemma {:induction false} SettledRun(s: State, run: seq<Action>, u: Setup, c: nat)
    requires Inv(s, u) && CanRun(s, run, u) && Settled(s, c)
    ensures Settled(Run(s, run, u), c)
    decreases |run|
  {
    if run != [] {
      SettledStep(s, run[0], u, c);
      StepKeepsInv(s, run[0], u);
      SettledRun(Apply(s, run[0], u), run[1..], u, c);
    }
  }

  /** Every waiter whose clock reading predates a successful refresh is served without fetching, in
      every continuation of the run. */
  lemma WaitersAreServed(s: State, run: seq<Action>, u: Setup, c: nat)
    requires Reachable(s, u) && CanRun(s, run, u)
    requires c in s.calls && BeforeFetch(s.calls[c].phase)
    requires s.history != [] && s.calls[c].now <= Latest(s).at
    ensures c in Run(s, run, u).calls
    ensures var call := Run(s, run, u).calls[c];
            !call.fetched && (BeforeFetch(call.phase) || call.phase.Looking? || call.phase.Served?)
  {
    ReachableInv(s, u);
    assert CallOk(s, c);
    SettledRun(s, run, u, c);
  }

  predicate Finished(p: Phase) {
    p.Served? || p.Failed?
  }

  function NextAction(s: State, c: nat): Action
    requires c in s.calls && !Finished(s.calls[c].phase)
  {
    match s.calls[c].phase
    case Begun => ReadExpiry(c)
    case Waiting => Acquire(c)
    case Checking => Recheck(c)
    case Fetching => FetchFails(c)
    case Stored => Release(c)
    case Looking => Answer(c)
  }

  /** The two locks cannot leave everybody waiting. */
  lemma NoDeadlock(s: State, u: Setup, c: nat)
    requires Reachable(s, u) && c in s.calls && !Finished(s.calls[c].phase)
    ensures exists d :: d in s.calls && !Finished(s.calls[d].phase) && Enabled(s, NextAction(s, d))
  {
    ReachableInv(s, u);
    if s.lock.Some? {
      var d := s.lock.value;
      assert CallOk(s, d);
      assert Enabled(s, NextAction(s, d));
    } else {
      assert Enabled(s, NextAction(s, c));
    }
  }
}
