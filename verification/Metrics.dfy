/** The gateway's metric tables: counters keyed by a rendered label string.

    Rendering is injective in the label values, so keying by the string loses nothing: each counter is
    the count of its exact label tuple, and the per-route tables agree with the request table.
 */
module Metrics {
  import Decimal

  // ---------------------------------------------------------------- rendering labels

  function EscapeChar(c: char): string {
    if c == '\\' then ['\\', '\\'] else if c == '\n' then ['\\', 'n'] else if c == '"' then ['\\', '"'] else [c]
  }

  function Escape(s: string): string {
    if s == [] then [] else EscapeChar(s[0]) + Escape(s[1..])
  }

  function Pair(name: string, value: string): string {
    name + ['=', '"'] + Escape(value) + ['"']
  }

  /** Names and values alternate; an odd one at the end is ignored. */
  function Labels(kv: seq<string>): string
    decreases |kv|, 0
  {
    if |kv| < 2 then [] else Pair(kv[0], kv[1]) + More(kv[2..])
  }

  /** Further pairs come after a comma. */
  function More(kv: seq<string>): string
    decreases |kv|, 1
  {
    if |kv| < 2 then [] else [','] + Labels(kv)
  }

  /** What is still to be written from position i on. */
  ghost function Rest(kv: seq<string>, i: nat): string
    requires i <= |kv|
  {
    if i == 0 then Labels(kv) else More(kv[i..])
  }

  function Comma(i: nat): string {
    if i == 0 then [] else [',']
  }

  lemma RestStep(b: string, kv: seq<string>, i: nat)
    requires i + 1 < |kv|
    ensures b + Rest(kv, i) == b + Comma(i) + Pair(kv[i], kv[i+1]) + Rest(kv, i + 2)
  {
    var tail := kv[i..];
    assert i == 0 ==> tail == kv;
    assert tail[2..] == kv[i+2..];
    assert Labels(tail) == Pair(kv[i], kv[i+1]) + More(kv[i+2..]);
    assert Rest(kv, i) == Comma(i) + Labels(tail);
  }

  method BuildLabels(kv: seq<string>) returns (b: string)
    ensures b == Labels(kv)
  {
    b := [];
    var i := 0;
    ghost var all := Labels(kv);
    while i + 1 < |kv|
      invariant 0 <= i <= |kv|
      invariant b + Rest(kv, i) == all
    {
      RestStep(b, kv, i);
      if i > 0 {
        b := b + [','];
      }
      b := b + Pair(kv[i], kv[i+1]);
      i := i + 2;
    }
  }

  /** An escaped value ends where its closing quote stands, and nowhere else. */
  lemma {:induction false} EscapedValueEnds(v: string, w: string, x: string, y: string)
    requires Escape(v) + ['"'] + x == Escape(w) + ['"'] + y
    ensures v == w && x == y
  {
    if v == [] || w == [] {
      QuoteEnds(v, w, x, y);
    } else {
      FirstEscaped(v, w, x, y);
      EscapedValueEnds(v[1..], w[1..], x, y);
      assert v == [v[0]] + v[1..] && w == [w[0]] + w[1..];
    }
  }

  lemma EscapeStep(v: string, x: string)
    requires v != []
    ensures Escape(v) + ['"'] + x == EscapeChar(v[0]) + (Escape(v[1..]) + ['"'] + x)
  {
  }

  /** An escaped character is never a bare quote. */
  lemma NeverQuote(v: string, x: string)
    requires v != []
    ensures (Escape(v) + ['"'] + x)[0] != '"'
  {
    EscapeStep(v, x);
  }

  lemma QuoteEnds(v: string, w: string, x: string, y: string)
    requires Escape(v) + ['"'] + x == Escape(w) + ['"'] + y && (v == [] || w == [])
    ensures v == [] && w == [] && x == y
  {
    var l, r := Escape(v) + ['"'] + x, Escape(w) + ['"'] + y;
    if v != [] {
      NeverQuote(v, x);
    }
    if w != [] {
      NeverQuote(w, y);
    }
    assert v == [] && w == [] ==> x == l[1..] && y == r[1..];
  }

  lemma FirstEscaped(v: string, w: string, x: string, y: string)
    requires Escape(v) + ['"'] + x == Escape(w) + ['"'] + y && v != [] && w != []
    ensures v[0] == w[0] && Escape(v[1..]) + ['"'] + x == Escape(w[1..]) + ['"'] + y
  {
    var l, r := Escape(v[1..]) + ['"'] + x, Escape(w[1..]) + ['"'] + y;
    EscapeStep(v, x);
    EscapeStep(w, y);
    SameFirst(v[0], w[0], l, r);
    SameRest(EscapeChar(v[0]), l, r);
  }

  lemma SameRest(head: string, x: string, y: string)
    requires head + x == head + y
    ensures x == y
  {
    assert x == (head + x)[|head|..] && y == (head + y)[|head|..];
  }

  lemma SameFirst(c: char, d: char, x: string, y: string)
    requires EscapeChar(c) + x == EscapeChar(d) + y
    ensures c == d
  {
    var l, r := EscapeChar(c) + x, EscapeChar(d) + y;
    assert l[0] == r[0];
    if |EscapeChar(c)| == 2 && |EscapeChar(d)| == 2 {
      assert l[1] == r[1];
    }
  }

  ghost predicate SameNames(kv: seq<string>, lw: seq<string>) {
    |kv| == |lw| && |kv| % 2 == 0 && forall i | 0 <= i < |kv| && i % 2 == 0 :: kv[i] == lw[i]
  }

  lemma PairSplit(name: string, v: string, x: string)
    ensures Pair(name, v) + x == (name + ['=', '"']) + (Escape(v) + ['"'] + x)
  {
  }

  lemma PairInjective(name: string, v: string, w: string, x: string, y: string)
    requires Pair(name, v) + x == Pair(name, w) + y
    ensures v == w && x == y
  {
    PairSplit(name, v, x);
    PairSplit(name, w, y);
    SameRest(name + ['=', '"'], Escape(v) + ['"'] + x, Escape(w) + ['"'] + y);
    EscapedValueEnds(v, w, x, y);
  }

  lemma SameNamesRest(kv: seq<string>, lw: seq<string>)
    requires SameNames(kv, lw) && |kv| >= 2
    ensures SameNames(kv[2..], lw[2..])
    ensures kv[1] == lw[1] && kv[2..] == lw[2..] ==> kv == lw
  {
    assert kv == [kv[0], kv[1]] + kv[2..] && lw == [lw[0], lw[1]] + lw[2..];
  }

  /** For fixed names the rendered string determines every value. */
  lemma {:induction false} LabelsInjective(kv: seq<string>, lw: seq<string>)
    requires SameNames(kv, lw) && Labels(kv) == Labels(lw)
    ensures kv == lw
  {
    if |kv| >= 2 {
      var x, y := kv[2..], lw[2..];
      PairInjective(kv[0], kv[1], lw[1], More(x), More(y));
      SameNamesRest(kv, lw);
      if |x| >= 2 {
        assert Labels(x) == More(x)[1..] && Labels(y) == More(y)[1..];
        LabelsInjective(x, y);
      }
    }
  }

  // ---------------------------------------------------------------- tables

  const U64 := 0x1_0000_0000_0000_0000

  type Table = map<string, nat>

  function Get(t: Table, key: string): nat {
    if key in t then t[key] else 0
  }

  /** Unsigned 64-bit addition. */
  function AddTo(t: Table, key: string, n: nat): Table {
    t[key := (Get(t, key) + n) % U64]
  }

  const I63 := 0x8000_0000_0000_0000

  /** Signed 64-bit arithmetic. */
  function Wrap(x: int): int {
    (x + I63) % U64 - I63
  }

  class LabeledCounter {
    var v: Table

    constructor ()
      ensures v == map[]
    {
      v := map[];
    }

    method Add(labels: string, n: nat)
      modifies this
      ensures v == AddTo(old(v), labels, n)
    {
      v := v[labels := ((if labels in v then v[labels] else 0) + n) % U64];
    }

    method Inc(labels: string)
      modifies this
      ensures v == AddTo(old(v), labels, 1)
    {
      Add(labels, 1);
    }
  }

  datatype Tables = Tables(requests: Table, millis: Table, counts: Table, inFlight: int)

  const NO_DATA := Tables(map[], map[], map[], 0)

  datatype Event = Started | Finished(verb: string, route: string, status: int, ms: nat)

  function RequestKey(verb: string, route: string, status: int): string {
    Labels(["method", verb, "route", route, "status", Decimal.Print(status)])
  }

  function RouteKey(route: string): string {
    Labels(["route", route])
  }

  function Record(t: Tables, e: Event): Tables {
    match e
    case Started => t.(inFlight := Wrap(t.inFlight + 1))
    case Finished(verb, route, status, ms) =>
      Tables(AddTo(t.requests, RequestKey(verb, route, status), 1), AddTo(t.millis, RouteKey(route), ms),
             AddTo(t.counts, RouteKey(route), 1), Wrap(t.inFlight - 1))
  }

  function After(events: seq<Event>): Tables {
    if events == [] then NO_DATA else Record(After(events[..|events|-1]), events[|events|-1])
  }

  // ---------------------------------------------------------------- what the tables count

  function Count(events: seq<Event>, p: Event -> bool): nat {
    if events == [] then 0 else Count(events[..|events|-1], p) + if p(events[|events|-1]) then 1 else 0
  }

  function Exactly(verb: string, route: string, status: int): Event -> bool {
    (e: Event) => e.Finished? && e.verb == verb && e.route == route && e.status == status
  }

  function OnRoute(route: string): Event -> bool {
    (e: Event) => e.Finished? && e.route == route
  }

  function Millis(events: seq<Event>, route: string): nat {
    if events == [] then 0
    else
      var e := events[|events|-1];
      Millis(events[..|events|-1], route) + if e.Finished? && e.route == route then e.ms else 0
  }

  lemma RequestKeyInjective(v: string, r: string, s: int, v': string, r': string, s': int)
    ensures RequestKey(v, r, s) == RequestKey(v', r', s') <==> v == v' && r == r' && s == s'
  {
    var kv := ["method", v, "route", r, "status", Decimal.Print(s)];
    var lw := ["method", v', "route", r', "status", Decimal.Print(s')];
    if Labels(kv) == Labels(lw) {
      LabelsInjective(kv, lw);
      assert kv[1] == lw[1] && kv[3] == lw[3] && kv[5] == lw[5];
      Decimal.PrintInjective(s, s');
    }
  }

  lemma RouteKeyInjective(r: string, r': string)
    ensures RouteKey(r) == RouteKey(r') <==> r == r'
  {
    if RouteKey(r) == RouteKey(r') {
      LabelsInjective(["route", r], ["route", r']);
      assert ["route", r][1] == ["route", r'][1];
    }
  }

  lemma ModSum(a: nat, b: nat, c: nat)
    requires b % U64 == c % U64
    ensures (a % U64 + b) % U64 == (a + c) % U64
  {
  }

  /** Adding under one key, seen from any key. */
  lemma AddToGet(t: Table, key: string, n: nat, k: string, before: nat)
    requires Get(t, k) == before % U64
    ensures Get(AddTo(t, key, n), k) == (if k == key then before + n else before) % U64
  {
    ModSum(before, n, n);
  }

  /** Each request counter is the number of finished requests with exactly its labels. */
  lemma {:induction false} RequestsAreExact(events: seq<Event>, verb: string, route: string, status: int)
    ensures Get(After(events).requests, RequestKey(verb, route, status)) == Count(events, Exactly(verb, route, status)) % U64
  {
    if events != [] {
      var front, e := events[..|events|-1], events[|events|-1];
      RequestsAreExact(front, verb, route, status);
      if e.Finished? {
        RequestKeyInjective(verb, route, status, e.verb, e.route, e.status);
        AddToGet(After(front).requests, RequestKey(e.verb, e.route, e.status), 1, RequestKey(verb, route, status),
                 Count(front, Exactly(verb, route, status)));
      }
    }
  }

  /** A route's request counter is the number of its finished requests. */
  lemma {:induction false} RouteCountsAreExact(events: seq<Event>, route: string)
    ensures Get(After(events).counts, RouteKey(route)) == Count(events, OnRoute(route)) % U64
  {
    if events != [] {
      var front, e := events[..|events|-1], events[|events|-1];
      RouteCountsAreExact(front, route);
      if e.Finished? {
        RouteKeyInjective(route, e.route);
        AddToGet(After(front).counts, RouteKey(e.route), 1, RouteKey(route), Count(front, OnRoute(route)));
      }
    }
  }

  /** A route's time is the sum of what its finished requests took. */
  lemma {:induction false} RouteTimesAreExact(events: seq<Event>, route: string)
    ensures Get(After(events).millis, RouteKey(route)) == Millis(events, route) % U64
  {
    if events != [] {
      var front, e := events[..|events|-1], events[|events|-1];
      RouteTimesAreExact(front, route);
      if e.Finished? {
        RouteKeyInjective(route, e.route);
        AddToGet(After(front).millis, RouteKey(e.route), e.ms, RouteKey(route), Millis(front, route));
      }
    }
  }

  function HasStarted(): Event -> bool {
    (e: Event) => e.Started?
  }

  function HasFinished(): Event -> bool {
    (e: Event) => e.Finished?
  }

  /** The signed 64-bit number that agrees with x modulo 2^64. */
  lemma WrapIs(x: int)
    ensures -0x8000_0000_0000_0000 <= Wrap(x) < 0x8000_0000_0000_0000
    ensures (x - Wrap(x)) % 0x1_0000_0000_0000_0000 == 0
  {
  }

  lemma WrapAdd(x: int, d: int)
    ensures Wrap(Wrap(x) + d) == Wrap(x + d)
  {
  }

  /** The gauge is started minus finished, in signed 64-bit arithmetic. */
  lemma {:induction false} InFlightIsDifference(events: seq<Event>)
    ensures After(events).inFlight == Wrap(Count(events, HasStarted()) - Count(events, HasFinished()))
  {
    if events != [] {
      var front := events[..|events|-1];
      InFlightIsDifference(front);
      WrapAdd(Count(front, HasStarted()) - Count(front, HasFinished()), if events[|events|-1].Started? then 1 else -1);
    }
  }

  // ---------------------------------------------------------------- the recorder

  lemma RecordNext(events: seq<Event>, e: Event)
    ensures After(events + [e]) == Record(After(events), e)
  {
    assert (events + [e])[..|events|] == events;
  }

  /** What the tables say of one request's labels and of its route. */
  ghost predicate Exact(t: Tables, events: seq<Event>, verb: string, route: string, status: int) {
    && Get(t.requests, RequestKey(verb, route, status)) == Count(events, Exactly(verb, route, status)) % U64
    && Get(t.counts, RouteKey(route)) == Count(events, OnRoute(route)) % U64
    && Get(t.millis, RouteKey(route)) == Millis(events, route) % U64
  }

  lemma AllExact(events: seq<Event>, verb: string, route: string, status: int)
    ensures Exact(After(events), events, verb, route, status)
  {
    RequestsAreExact(events, verb, route, status);
    RouteCountsAreExact(events, route);
    RouteTimesAreExact(events, route);
  }

  /** The process-wide tables, and the recordings they were made from. */
  class Recorder {
    const requests: LabeledCounter
    const millis: LabeledCounter
    const counts: LabeledCounter
    var inFlight: int
    ghost var events: seq<Event>

    ghost function View(): Tables
      reads this, requests, millis, counts
    {
      Tables(requests.v, millis.v, counts.v, inFlight)
    }

    ghost predicate Valid()
      reads this, requests, millis, counts
    {
      requests != millis && requests != counts && millis != counts && View() == After(events)
    }

    constructor ()
      ensures Valid() && events == []
    {
      requests := new LabeledCounter();
      millis := new LabeledCounter();
      counts := new LabeledCounter();
      inFlight, events := 0, [];
    }

    method RequestStarted()
      requires Valid()
      modifies this
      ensures Valid() && events == old(events) + [Started]
      ensures inFlight == Wrap(Count(events, HasStarted()) - Count(events, HasFinished()))
    {
      inFlight := Wrap(inFlight + 1);
      RecordNext(events, Started);
      events := events + [Started];
      InFlightIsDifference(events);
    }

    /** The counters of this request's labels and of its route are exact afterwards. */
    method RequestFinished(verb: string, route: string, status: int, ms: nat)
      requires Valid()
      modifies this, requests, millis, counts
      ensures Valid() && events == old(events) + [Finished(verb, route, status, ms)]
      ensures inFlight == Wrap(Count(events, HasStarted()) - Count(events, HasFinished()))
      ensures Exact(View(), events, verb, route, status)
    {
      Tally(verb, route, status, ms);
      RecordNext(events, Finished(verb, route, status, ms));
      events := events + [Finished(verb, route, status, ms)];
      InFlightIsDifference(events);
      AllExact(events, verb, route, status);
    }

    method Tally(verb: string, route: string, status: int, ms: nat)
      requires requests != millis && requests != counts && millis != counts
      modifies this`inFlight, requests, millis, counts
      ensures View() == Record(old(View()), Finished(verb, route, status, ms))
    {
      inFlight := Wrap(inFlight - 1);
      var key := BuildLabels(["method", verb, "route", route, "status", Decimal.Print(status)]);
      requests.Inc(key);
      var r := BuildLabels(["route", route]);
      counts.Inc(r);
      millis.Add(r, ms);
    }
  }

  // ---------------------------------------------------------------- tables against each other

  datatype Kind = Kind(verb: string, status: int)

  function Total(events: seq<Event>, route: string, kinds: seq<Kind>): nat {
    if kinds == [] then 0
    else Count(events, Exactly(kinds[0].verb, route, kinds[0].status)) + Total(events, route, kinds[1..])
  }

  predicate Distinct(kinds: seq<Kind>) {
    forall i, j | 0 <= i < j < |kinds| :: kinds[i] != kinds[j]
  }

  lemma {:induction false} OneMore(events: seq<Event>, e: Event, route: string, kinds: seq<Kind>)
    requires Distinct(kinds)
    ensures Total(events + [e], route, kinds)
            == Total(events, route, kinds)
               + if e.Finished? && e.route == route && Kind(e.verb, e.status) in kinds then 1 else 0
  {
    if kinds != [] {
      assert (events + [e])[..|events|] == events;
      OneMore(events, e, route, kinds[1..]);
    }
  }

  lemma {:induction false} NothingYet(route: string, kinds: seq<Kind>)
    ensures Total([], route, kinds) == 0
  {
    if kinds != [] {
      NothingYet(route, kinds[1..]);
    }
  }

  /** Adding up a route's requests over every method and status gives the route's request count. */
  lemma {:induction false} RouteIsSumOfRequests(events: seq<Event>, route: string, kinds: seq<Kind>)
    requires Distinct(kinds)
    requires forall e | e in events && e.Finished? && e.route == route :: Kind(e.verb, e.status) in kinds
    ensures Total(events, route, kinds) == Count(events, OnRoute(route))
  {
    if events == [] {
      NothingYet(route, kinds);
    } else {
      var front, e := events[..|events|-1], events[|events|-1];
      assert events == front + [e] && e in events;
      RouteIsSumOfRequests(front, route, kinds);
      OneMore(front, e, route, kinds);
    }
  }

  /** The same sum, read off the request table. */
  function Shown(requests: Table, route: string, kinds: seq<Kind>): nat {
    if kinds == [] then 0
    else Get(requests, RequestKey(kinds[0].verb, route, kinds[0].status)) + Shown(requests, route, kinds[1..])
  }

  lemma {:induction false} ShownIsTotal(events: seq<Event>, route: string, kinds: seq<Kind>)
    ensures Shown(After(events).requests, route, kinds) % U64 == Total(events, route, kinds) % U64
  {
    if kinds != [] {
      ShownIsTotal(events, route, kinds[1..]);
      RequestsAreExact(events, kinds[0].verb, route, kinds[0].status);
      ModSum(Count(events, Exactly(kinds[0].verb, route, kinds[0].status)),
             Shown(After(events).requests, route, kinds[1..]), Total(events, route, kinds[1..]));
    }
  }

  /** The two exported tables agree: a route's request count is the sum of its rows in the request table. */
  lemma TablesAgree(events: seq<Event>, route: string, kinds: seq<Kind>)
    requires Distinct(kinds)
    requires forall e | e in events && e.Finished? && e.route == route :: Kind(e.verb, e.status) in kinds
    ensures Get(After(events).counts, RouteKey(route)) == Shown(After(events).requests, route, kinds) % U64
  {
    RouteIsSumOfRequests(events, route, kinds);
    ShownIsTotal(events, route, kinds);
    RouteCountsAreExact(events, route);
  }
}
