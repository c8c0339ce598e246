/** The per-address request limiter: a Redis counter whose expiry is renewed by every request.

    The counter therefore measures bursts (requests less than a minute apart), not the fixed windows
    the limiter's own documentation describes; `AgreesWithFixedWindow` says exactly when the two agree.
 */
module RateLimit {

  const WINDOW := 60_000  // one minute, in milliseconds

  // ---------------------------------------------------------------- the counter store

  datatype Counter = Counter(count: nat, expiresAt: int)

  type Store = map<string, Counter>

  /** The value the store reports: expired counters are gone. */
  function Live(store: Store, ip: string, now: int): nat {
    if ip in store && now < store[ip].expiresAt then store[ip].count else 0
  }

  /** Increment and renew the expiry, in one pipeline. */
  function Bump(store: Store, ip: string, now: int): Store {
    store[ip := Counter(Live(store, ip, now) + 1, now + WINDOW)]
  }

  datatype Reply = Fine | Failed(applied: bool)

  /** Local addresses pass untouched; a store failure lets the request through. */
  datatype Request = Request(ip: string, local: bool, now: int, reply: Reply)

  function Next(store: Store, r: Request): Store {
    if r.local || r.reply == Failed(false) then store else Bump(store, r.ip, r.now)
  }

  predicate Admits(store: Store, r: Request, limit: int) {
    r.local || r.reply.Failed? || Live(store, r.ip, r.now) + 1 <= limit
  }

  // ---------------------------------------------------------------- runs

  function After(run: seq<Request>): Store {
    if run == [] then map[] else Next(After(run[..|run|-1]), run[|run|-1])
  }

  ghost predicate InOrder(ts: seq<int>) {
    forall i, j | 0 <= i <= j < |ts| :: ts[i] <= ts[j]
  }

  /** A run as the clock allows it. The store may fail, with or without having counted. */
  ghost predicate Timely(run: seq<Request>) {
    forall i, j | 0 <= i <= j < |run| :: run[i].now <= run[j].now
  }

  /** The store has counted the request. */
  predicate Counted(r: Request) {
    !r.local && r.reply != Failed(false)
  }

  /** The store has counted the request and said so. */
  predicate Judged(r: Request) {
    !r.local && r.reply.Fine?
  }

  /** When one address made its counted requests. */
  function Times(run: seq<Request>, ip: string): seq<int> {
    if run == [] then []
    else
      var r := run[|run|-1];
      Times(run[..|run|-1], ip) + if r.ip == ip && Counted(r) then [r.now] else []
  }

  /** The first request of the burst that request `j` belongs to. */
  function BurstStart(ts: seq<int>, j: nat): (b: nat)
    requires j < |ts|
    ensures b <= j
  {
    if j == 0 || ts[j] - ts[j-1] >= WINDOW then j else BurstStart(ts, j - 1)
  }

  /** Request `j` is among the first `limit` of its burst. */
  predicate EarlyInBurst(ts: seq<int>, j: nat, limit: int)
    requires j < |ts|
  {
    j - BurstStart(ts, j) < limit
  }

  lemma {:induction false} BurstOfPrefix(ts: seq<int>, j: nat, n: nat)
    requires j < n <= |ts|
    ensures BurstStart(ts[..n], j) == BurstStart(ts, j)
  {
    if j > 0 {
      BurstOfPrefix(ts, j - 1, n);
    }
  }

  /** The store has the length of the address's current burst, until a minute after its last request. */
  predicate Counts(store: Store, ip: string, ts: seq<int>) {
    if ts == [] then ip !in store
    else ip in store && store[ip] == Counter(|ts| - BurstStart(ts, |ts| - 1), ts[|ts|-1] + WINDOW)
  }

  lemma BumpCounts(store: Store, ip: string, ts: seq<int>, now: int)
    requires Counts(store, ip, ts)
    ensures Counts(Bump(store, ip, now), ip, ts + [now])
  {
    var more := ts + [now];
    if ts != [] {
      assert more[..|ts|] == ts;
      BurstOfPrefix(more, |ts| - 1, |ts|);
    }
  }

  lemma OthersDoNotCount(store: Store, r: Request, ip: string, ts: seq<int>)
    requires Counts(store, ip, ts) && !(Counted(r) && r.ip == ip)
    ensures Counts(Next(store, r), ip, ts)
  {
  }

  /** What the store holds for an address after any run, whatever failed in it. */
  lemma {:induction false} StoreCountsBursts(run: seq<Request>, ip: string)
    requires Timely(run)
    ensures Counts(After(run), ip, Times(run, ip))
  {
    if run != [] {
      var prefix, r := run[..|run|-1], run[|run|-1];
      StoreCountsBursts(prefix, ip);
      if r.ip == ip && Counted(r) {
        BumpCounts(After(prefix), ip, Times(prefix, ip), r.now);
      } else {
        OthersDoNotCount(After(prefix), r, ip, Times(prefix, ip));
        assert Times(run, ip) == Times(prefix, ip);
      }
    }
  }

  lemma LiveIsBurst(store: Store, ip: string, ts: seq<int>, now: int)
    requires Counts(store, ip, ts)
    ensures Live(store, ip, now) == |ts| - BurstStart(ts + [now], |ts|)
  {
    var more := ts + [now];
    if ts != [] {
      assert more[..|ts|] == ts;
      BurstOfPrefix(more, |ts| - 1, |ts|);
    }
  }

  /** A request the store answers for is admitted exactly when it is among the first `limit` of its burst. */
  lemma AdmittedEarlyInBurst(run: seq<Request>, limit: int)
    requires run != [] && Timely(run) && Judged(run[|run|-1])
    ensures var r := run[|run|-1];
            var ts := Times(run, r.ip);
            && ts != []
            && (Admits(After(run[..|run|-1]), r, limit) <==> EarlyInBurst(ts, |ts| - 1, limit))
  {
    var prefix, r := run[..|run|-1], run[|run|-1];
    StoreCountsBursts(prefix, r.ip);
    LiveIsBurst(After(prefix), r.ip, Times(prefix, r.ip), r.now);
    assert Times(run, r.ip) == Times(prefix, r.ip) + [r.now];
  }

  /** The last request of the run, if the store answers for it and the clock has not gone back, is admitted exactly when
      it is among the first `limit` of its burst. */
  ghost predicate DecidedByBurst(run: seq<Request>, limit: int, admitted: bool)
    requires run != []
  {
    var r := run[|run|-1];
    Timely(run) && Judged(r) ==>
      var ts := Times(run, r.ip); ts != [] && (admitted <==> EarlyInBurst(ts, |ts| - 1, limit))
  }

  lemma {:induction false} DecidedNext(before: seq<Request>, r: Request, limit: int, admitted: bool)
    requires Judged(r) ==> (admitted <==> Live(After(before), r.ip, r.now) + 1 <= limit)
    ensures DecidedByBurst(before + [r], limit, admitted)
  {
    assert (before + [r])[..|before|] == before;
    if Timely(before + [r]) && Judged(r) {
      AdmittedEarlyInBurst(before + [r], limit);
    }
  }

  /** The middleware with its store, and the requests it has seen. */
  class Limiter {
    var store: Store
    const limit: int
    ghost var seen: seq<Request>

    ghost predicate Valid()
      reads this
    {
      store == After(seen)
    }

    constructor (requestsPerMinute: int)
      ensures Valid() && seen == [] && limit == requestsPerMinute
    {
      store, seen := map[], [];
      limit := requestsPerMinute;
    }

    /** Local requests and requests during a store failure pass. As long as the clock has not gone back, any other
        request passes exactly when it is among the first `limit` of its burst, whatever failed before. */
    method Handle(r: Request) returns (admitted: bool)
      requires Valid()
      modifies this
      ensures Valid() && seen == old(seen) + [r]
      ensures r.local || r.reply.Failed? ==> admitted
      ensures DecidedByBurst(seen, limit, admitted)
    {
      ghost var before := seen;
      seen := seen + [r];
      assert seen[..|seen|-1] == before;
      if r.local {
        admitted := true;
      } else if r.reply.Failed? {
        if r.reply.applied {
          store := Bump(store, r.ip, r.now);
        }
        admitted := true;
      } else {
        store := Bump(store, r.ip, r.now);
        admitted := store[r.ip].count <= limit;
      }
      DecidedNext(before, r, limit, admitted);
    }
  }

  lemma {:induction false} TimesInOrder(run: seq<Request>, ip: string)
    requires Timely(run)
    ensures InOrder(Times(run, ip))
    ensures forall t | t in Times(run, ip) :: run != [] && t <= run[|run|-1].now
  {
    if run != [] {
      var prefix := run[..|run|-1];
      TimesInOrder(prefix, ip);
      var us := Times(prefix, ip);
      assert forall i | 0 <= i < |us| :: us[i] in us;
      assert prefix != [] ==> prefix[|prefix|-1].now <= run[|run|-1].now;
    }
  }

  // ---------------------------------------------------------------- consequences for one address

  lemma {:induction false} SameBurst(ts: seq<int>, j: nat, k: nat)
    requires j <= k < |ts|
    requires forall i | j < i <= k :: ts[i] - ts[i-1] < WINDOW
    ensures BurstStart(ts, j) == BurstStart(ts, k)
  {
    if j < k {
      SameBurst(ts, j, k - 1);
    }
  }

  /** A blocked address stays blocked until it has been silent for a full minute. */
  lemma {:induction false} BlockedUntilSilence(ts: seq<int>, j: nat, k: nat, limit: int)
    requires j < k < |ts| && !EarlyInBurst(ts, j, limit)
    ensures EarlyInBurst(ts, k, limit) ==> exists i :: j < i <= k && ts[i] - ts[i-1] >= WINDOW
    ensures k == j + 1 && limit > 0 ==> (EarlyInBurst(ts, k, limit) <==> ts[k] - ts[j] >= WINDOW)
  {
    if forall i | j < i <= k :: ts[i] - ts[i-1] < WINDOW {
      SameBurst(ts, j, k);
    }
  }

  lemma {:induction false} RangeBound(s: set<int>, lo: int, n: nat)
    requires forall x | x in s :: lo <= x < lo + n
    ensures |s| <= n
  {
    if n == 0 {
      assert forall x :: x !in s;
    } else {
      var rest := s - {lo + n - 1};
      RangeBound(rest, lo, n - 1);
      assert s == rest || s == rest + {lo + n - 1};
    }
  }

  /** No half-open minute ever sees more than `limit` admissions from one address. */
  lemma AtMostLimitPerMinute(ts: seq<int>, limit: int, from: int, admitted: set<int>)
    requires InOrder(ts)
    requires forall j | j in admitted ::
               0 <= j < |ts| && from <= ts[j] < from + WINDOW && EarlyInBurst(ts, j, limit)
    ensures |admitted| <= if limit < 0 then 0 else limit
  {
    if any :| any in admitted {
      var b := BurstStart(ts, any);
      forall j | j in admitted
        ensures b <= j < b + limit
      {
        if j <= any {
          SameBurst(ts, j, any);
        } else {
          SameBurst(ts, any, j);
        }
      }
      RangeBound(admitted, b, limit);
    } else {
      RangeBound(admitted, 0, 0);
    }
  }

  // ---------------------------------------------------------------- the same for whole runs

  /** Which of its address's counted requests the `i`-th request of the run is. */
  function Place(run: seq<Request>, i: nat): nat
    requires i < |run|
  {
    |Times(run[..i], run[i].ip)|
  }

  lemma {:induction false} TimesOfPrefix(run: seq<Request>, ip: string, i: nat)
    requires i <= |run|
    ensures Times(run[..i], ip) <= Times(run, ip)
  {
    if i == |run| {
      assert run[..i] == run;
    } else {
      TimesOfPrefix(run[..|run|-1], ip, i);
      assert run[..|run|-1][..i] == run[..i];
    }
  }

  lemma PlaceIs(run: seq<Request>, i: nat)
    requires i < |run| && Counted(run[i])
    ensures var ts := Times(run, run[i].ip);
            && Place(run, i) < |ts| && ts[Place(run, i)] == run[i].now
            && Times(run[..i+1], run[i].ip) == ts[..Place(run, i) + 1]
  {
    var part, ip := run[..i+1], run[i].ip;
    assert part[..i] == run[..i] && part[i] == run[i];
    TimesOfPrefix(run, ip, i + 1);
  }

  lemma {:induction false} PlaceFacts(run: seq<Request>, i: nat, limit: int)
    requires i < |run| && Timely(run) && Judged(run[i])
    ensures var ts := Times(run, run[i].ip);
            && Place(run, i) < |ts| && ts[Place(run, i)] == run[i].now
            && (Admits(After(run[..i]), run[i], limit) <==> EarlyInBurst(ts, Place(run, i), limit))
  {
    var part := run[..i+1];
    PlaceIs(run, i);
    assert part[..i] == run[..i];
    AdmittedEarlyInBurst(part, limit);
    BurstOfPrefix(Times(run, run[i].ip), Place(run, i), Place(run, i) + 1);
  }

  lemma PlacesDiffer(run: seq<Request>, i: nat, k: nat)
    requires i < k < |run| && run[i].ip == run[k].ip && Counted(run[i])
    ensures Place(run, i) < Place(run, k)
  {
    var part := run[..i+1];
    assert part[..|part|-1] == run[..i];
    TimesOfPrefix(run[..k], run[i].ip, i + 1);
    assert run[..k][..i+1] == part;
  }

  lemma {:induction false} ImageSize(run: seq<Request>, s: set<int>, image: set<int>)
    requires forall i | i in s :: 0 <= i < |run| && Place(run, i) in image
    requires forall i, k | i in s && k in s && i != k :: Place(run, i) != Place(run, k)
    ensures |s| <= |image|
  {
    if i :| i in s {
      ImageSize(run, s - {i}, image - {Place(run, i)});
    } else {
      RangeBound(s, 0, 0);
    }
  }

  /** In any run, an address gets at most `limit` admissions in any half-open minute while the store answers, whatever
      the other addresses do and whatever fails in between. */
  lemma RunBound(run: seq<Request>, ip: string, limit: int, from: int, admitted: set<int>)
    requires Timely(run)
    requires forall i | i in admitted ::
               && 0 <= i < |run| && run[i].ip == ip && Judged(run[i])
               && from <= run[i].now < from + WINDOW && Admits(After(run[..i]), run[i], limit)
    ensures |admitted| <= if limit < 0 then 0 else limit
  {
    TimesInOrder(run, ip);
    forall i | i in admitted
      ensures var ts := Times(run, ip);
              var p := Place(run, i);
              p < |ts| && from <= ts[p] < from + WINDOW && EarlyInBurst(ts, p, limit)
    {
      PlaceFacts(run, i, limit);
    }
    var places := set i | i in admitted :: Place(run, i);
    AtMostLimitPerMinute(Times(run, ip), limit, from, places);
    forall i, k | i in admitted && k in admitted && i < k
      ensures Place(run, i) != Place(run, k)
    {
      PlacesDiffer(run, i, k);
    }
    ImageSize(run, admitted, places);
  }

  // ---------------------------------------------------------------- compared with a fixed window

  /** The first request of the fixed window that request `j` falls into. */
  function WindowStart(ts: seq<int>, j: nat): (w: nat)
    requires j < |ts|
    ensures w <= j
  {
    if j == 0 then 0
    else
      var w := WindowStart(ts, j - 1);
      if ts[j] >= ts[w] + WINDOW then j else w
  }

  predicate EarlyInWindow(ts: seq<int>, j: nat, limit: int)
    requires j < |ts|
  {
    j - WindowStart(ts, j) < limit
  }

  /** A burst's first request opens a fixed window, and no window reaches back over it. */
  lemma {:induction false} WindowInsideBurst(ts: seq<int>, j: nat)
    requires j < |ts| && InOrder(ts)
    ensures BurstStart(ts, j) <= WindowStart(ts, j)
    ensures ts[j] < ts[BurstStart(ts, j)] + WINDOW ==> WindowStart(ts, j) == BurstStart(ts, j)
  {
    if j > 0 {
      WindowInsideBurst(ts, j - 1);
    }
  }

  /** The limiter is stricter than a fixed window, never more generous. */
  lemma NeverMoreGenerous(ts: seq<int>, j: nat, limit: int)
    requires j < |ts| && InOrder(ts) && EarlyInBurst(ts, j, limit)
    ensures EarlyInWindow(ts, j, limit)
  {
    WindowInsideBurst(ts, j);
  }

  /** Requests `b .. j` form the beginning of one burst. */
  lemma {:induction false} InsideBurst(ts: seq<int>, j: nat, i: nat)
    requires BurstStart.requires(ts, j) && BurstStart(ts, j) <= i <= j
    ensures BurstStart(ts, i) == BurstStart(ts, j)
  {
    if i < j {
      InsideBurst(ts, j - 1, i);
    }
  }

  lemma {:induction false} WindowRestarts(ts: seq<int>, b: nat, i: nat)
    requires b < i < |ts| && InOrder(ts)
    requires ts[i] >= ts[b] + WINDOW
    ensures WindowStart(ts, i) > b
  {
  }

  lemma FirstOverrun(ts: seq<int>, b: nat, lo: nat, j: nat) returns (i: nat)
    requires lo <= j < |ts| && b < |ts| && ts[j] >= ts[b] + WINDOW
    ensures lo <= i <= j && ts[i] >= ts[b] + WINDOW
    ensures i > lo ==> ts[i-1] < ts[b] + WINDOW
  {
    i := lo;
    while ts[i] < ts[b] + WINDOW
      invariant lo <= i <= j
      invariant i > lo ==> ts[i-1] < ts[b] + WINDOW
      decreases j - i
    {
      i := i + 1;
    }
  }

  /** A long burst that overruns its first minute is where the two policies part. */
  lemma PartWays(ts: seq<int>, j: nat, limit: int) returns (i: nat)
    requires j < |ts| && InOrder(ts) && limit > 0
    requires j - BurstStart(ts, j) >= limit && ts[j] >= ts[BurstStart(ts, j)] + WINDOW
    ensures i <= j && EarlyInWindow(ts, i, limit) && !EarlyInBurst(ts, i, limit)
  {
    var b := BurstStart(ts, j);
    i := FirstOverrun(ts, b, b + limit, j);
    InsideBurst(ts, j, i);
    if i > b + limit {
      OpensWindow(ts, b, i);
    } else {
      WindowRestarts(ts, b, i);
    }
  }

  lemma OpensWindow(ts: seq<int>, b: nat, i: nat)
    requires b < i - 1 && i < |ts| && InOrder(ts) && BurstStart(ts, i) == b
    requires ts[i-1] < ts[b] + WINDOW <= ts[i]
    ensures WindowStart(ts, i) == i
  {
    InsideBurst(ts, i, i - 1);
    WindowInsideBurst(ts, i - 1);
  }

  /** Burst counting and fixed windows decide alike on a whole run exactly when every request is early
      in its burst or comes within a minute of the burst's first request. */
  lemma AgreesWithFixedWindow(ts: seq<int>, limit: int)
    requires InOrder(ts)
    ensures (forall j | 0 <= j < |ts| :: EarlyInBurst(ts, j, limit) == EarlyInWindow(ts, j, limit))
            <==> limit <= 0 || (forall j | 0 <= j < |ts| :: EarlyInBurst(ts, j, limit) || ts[j] < ts[BurstStart(ts, j)] + WINDOW)
  {
    forall j | 0 <= j < |ts|
      ensures EarlyInBurst(ts, j, limit) ==> EarlyInWindow(ts, j, limit)
      ensures ts[j] < ts[BurstStart(ts, j)] + WINDOW ==> EarlyInBurst(ts, j, limit) == EarlyInWindow(ts, j, limit)
    {
      WindowInsideBurst(ts, j);
    }
    if j :| limit > 0 && 0 <= j < |ts| && !EarlyInBurst(ts, j, limit) && ts[j] >= ts[BurstStart(ts, j)] + WINDOW {
      var i := PartWays(ts, j, limit);
    }
  }

  /** One request per minute, sent every 59 seconds: the third is refused although its window is fresh. */
  lemma SteadyClientIsRefused()
    ensures var ts := [0, 59_000, 118_000]; !EarlyInBurst(ts, 2, 1) && EarlyInWindow(ts, 2, 1)
  {
    var ts := [0, 59_000, 118_000];
    assert BurstStart(ts, 1) == 0 && BurstStart(ts, 2) == 0;
    assert WindowStart(ts, 1) == 0 && WindowStart(ts, 2) == 2;
  }

  /** Local requests pass and do not count; while the store fails every request passes. */
  lemma AlwaysAdmitted(store: Store, r: Request, limit: int)
    ensures r.local ==> Admits(store, r, limit) && Next(store, r) == store
    ensures r.reply.Failed? ==> Admits(store, r, limit)
  {
  }

  /** A minute is sixty thousand milliseconds: with one request allowed, a second one is refused up to 59,999
      milliseconds after the first, and admitted from 60,000 on. */
  lemma SecondRequest(ip: string, t: int, d: nat, first: Reply)
    requires first != Failed(false)
    ensures Admits(After([Request(ip, false, t, first)]), Request(ip, false, t + d, Fine), 1) <==> d >= 60_000
    ensures !Admits(After([Request(ip, false, t, first)]), Request(ip, false, t + 59_999, Fine), 1)
    ensures Admits(After([Request(ip, false, t, first)]), Request(ip, false, t + 60_000, Fine), 1)
  {
    var r := Request(ip, false, t, first);
    assert [r][..0] == [];
    assert After([r]) == map[ip := Counter(1, t + WINDOW)];
  }
}
