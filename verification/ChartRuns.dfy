/** Loading back while ticks arrive and requests fail: the same history comes in as without them. */
module ChartRuns {
  import opened Options
  import opened ChartSeries
  import opened ChartHistory

  // ---------------------------------------------------------------- ticks and older bars

  function TickBars(bars: seq<Bar>, bar: Bar): seq<Bar> {
    Tick(Series(bars, false, None), bar).bars
  }

  function TickAll(bars: seq<Bar>, ticks: seq<Bar>): seq<Bar> {
    if ticks == [] then bars else TickBars(TickAll(bars, ticks[..|ticks|-1]), ticks[|ticks|-1])
  }

  /** A tick only touches the tail. */
  lemma TickBehind(older: seq<Bar>, bars: seq<Bar>, bar: Bar)
    requires bars != []
    ensures TickBars(older + bars, bar) == older + TickBars(bars, bar)
    ensures TickBars(bars, bar) != [] && TickBars(bars, bar)[0].time == bars[0].time
  {
    var all := older + bars;
    assert all[|all|-1] == bars[|bars|-1];
    assert all[..|all|-1] == older + bars[..|bars|-1];
    assert older + (bars + [bar]) == all + [bar];
    assert older + (bars[..|bars|-1] + [bar]) == all[..|all|-1] + [bar];
  }

  lemma {:induction false} TicksBehind(older: seq<Bar>, bars: seq<Bar>, ticks: seq<Bar>)
    requires bars != []
    ensures TickAll(older + bars, ticks) == older + TickAll(bars, ticks)
    ensures TickAll(bars, ticks) != [] && TickAll(bars, ticks)[0].time == bars[0].time
    decreases |ticks|
  {
    if ticks != [] {
      var front := ticks[..|ticks|-1];
      TicksBehind(older, bars, front);
      TickBehind(older, TickAll(bars, front), ticks[|ticks|-1]);
    }
  }

  lemma TickAllSnoc(bars: seq<Bar>, ticks: seq<Bar>, bar: Bar)
    ensures TickAll(bars, ticks + [bar]) == TickBars(TickAll(bars, ticks), bar)
  {
    assert (ticks + [bar])[..|ticks|] == ticks;
  }

  function TickOf(e: Event): seq<Bar> {
    if e.Ticked? then [e.bar] else []
  }

  /** The ticks of a run, in order. */
  function Ticks(run: seq<Event>): seq<Bar>
    decreases |run|
  {
    if run == [] then [] else TickOf(run[0]) + Ticks(run[1..])
  }

  // ---------------------------------------------------------------- runs against one history

  /** Every page that comes is what the backend serves for the cursor of the request in flight. */
  predicate Served(hist: seq<Raw>, limit: nat, backend: Backend, s: Series, e: Event) {
    match e
    case PageCame(page) => s.loading.Some? && page == PageFrom(backend, hist, limit, s.loading.value)
    case PageFailed => s.loading.Some?
    case _ => true
  }

  predicate ServedRun(hist: seq<Raw>, limit: nat, backend: Backend, s: Series, run: seq<Event>)
    decreases |run|
  {
    run == [] ||
    (Served(hist, limit, backend, s, run[0]) && ServedRun(hist, limit, backend, Step(s, run[0]), run[1..]))
  }

  /** The chart `x` is the undisturbed chart `b` with some ticks, and a request in flight, if any, has the cursor
      that `b` would use. */
  predicate Shadows(x: Series, b: Series, ticks: seq<Bar>) {
    && b.bars != [] && b.loading.None?
    && x.bars == TickAll(b.bars, ticks) && x.hasMore == b.hasMore
    && (x.loading.Some? ==> b.hasMore && x.loading.value == b.bars[0].time)
  }

  lemma PageInShadow(hist: seq<Raw>, limit: nat, backend: Backend, x: Series, b: Series, ticks: seq<Bar>, page: Option<Page>)
    requires Shadows(x, b, ticks) && Served(hist, limit, backend, x, PageCame(page))
    ensures CanLoad(b) && Shadows(FinishLoad(x, page), LoadBack(hist, limit, backend, b), ticks)
  {
    if page.Some? && page.value.bars != [] {
      TicksBehind(page.value.bars, b.bars, ticks);
    }
  }

  lemma TickInShadow(x: Series, b: Series, ticks: seq<Bar>, bar: Bar)
    requires Shadows(x, b, ticks)
    ensures Shadows(Tick(x, bar), b, ticks + [bar])
  {
    TickAllSnoc(b.bars, ticks, bar);
  }

  lemma AskInShadow(x: Series, b: Series, ticks: seq<Bar>)
    requires Shadows(x, b, ticks)
    ensures Shadows(StartLoad(x), b, ticks)
  {
    TicksBehind([], b.bars, ticks);
  }

  lemma StepInShadow(hist: seq<Raw>, limit: nat, backend: Backend, x: Series, b: Series, ticks: seq<Bar>, e: Event)
    returns (c: Series)
    requires OnePerSecond(hist) && limit > 0 && !backend.Mock?
    requires Shadows(x, b, ticks) && Served(hist, limit, backend, x, e)
    ensures Shadows(Step(x, e), c, ticks + TickOf(e))
    ensures Drain(hist, limit, backend, c).0 == Drain(hist, limit, backend, b).0
  {
    c := b;
    assert !e.Ticked? ==> ticks + TickOf(e) == ticks;
    match e {
      case Ticked(bar) => TickInShadow(x, b, ticks, bar);
      case PageCame(page) =>
        PageInShadow(hist, limit, backend, x, b, ticks, page);
        DrainOnce(hist, limit, backend, b);
        c := LoadBack(hist, limit, backend, b);
      case LoadAsked => AskInShadow(x, b, ticks);
      case PageFailed =>
    }
  }

  /** What is left to drain after a run: the undisturbed chart, some pages further back. */
  lemma {:induction false} RunInShadow(hist: seq<Raw>, limit: nat, backend: Backend, x: Series, b: Series,
                                       ticks: seq<Bar>, run: seq<Event>)
    returns (c: Series)
    requires OnePerSecond(hist) && limit > 0 && !backend.Mock?
    requires Shadows(x, b, ticks) && ServedRun(hist, limit, backend, x, run)
    ensures Shadows(Run(x, run), c, ticks + Ticks(run))
    ensures Drain(hist, limit, backend, c).0 == Drain(hist, limit, backend, b).0
    decreases |run|
  {
    if run == [] {
      c := b;
      assert ticks + Ticks(run) == ticks;
    } else {
      var more := ticks + TickOf(run[0]);
      Regroup(ticks, TickOf(run[0]), Ticks(run[1..]));
      c := StepInShadow(hist, limit, backend, x, b, ticks, run[0]);
      c := RunInShadow(hist, limit, backend, Step(x, run[0]), c, more, run[1..]);
    }
  }

  lemma PageBefore(hist: seq<Raw>, limit: nat, backend: Backend, s: Series, before: seq<Bar>) returns (older: seq<Bar>)
    requires OnePerSecond(hist) && limit > 0 && !backend.Mock? && CanLoad(s)
    requires var t := LoadBack(hist, limit, backend, s);
             t.bars != [] && t.loading.None? && Drain(hist, limit, backend, t).0.bars == before + t.bars
    ensures Drain(hist, limit, backend, s).0.bars == older + s.bars
  {
    var n := Remaining(hist, backend, s);
    var page := Bars(hist[if n < limit then 0 else n - limit..n]);
    assert LoadBack(hist, limit, backend, s).bars == page + s.bars by {
      LoadBackEffect(hist, limit, backend, s);
    }
    older := before + page;
    Regroup(before, page, s.bars);
    DrainOnce(hist, limit, backend, s);
  }

  lemma Regroup(a: seq<Bar>, b: seq<Bar>, c: seq<Bar>)
    ensures a + (b + c) == (a + b) + c
  {
  }

  lemma {:induction false} DrainPrepends(hist: seq<Raw>, limit: nat, backend: Backend, s: Series) returns (older: seq<Bar>)
    requires OnePerSecond(hist) && limit > 0 && !backend.Mock? && s.bars != [] && s.loading.None?
    ensures Drain(hist, limit, backend, s).0.bars == older + s.bars
    decreases if s.hasMore then 1 + Remaining(hist, backend, s) else 0
  {
    if s.hasMore {
      LoadBackEffect(hist, limit, backend, s);
      var before := DrainPrepends(hist, limit, backend, LoadBack(hist, limit, backend, s));
      older := PageBefore(hist, limit, backend, s, before);
    } else {
      older := [];
    }
  }

  /** However ticks, requests, pages and failures are interleaved, a chart that has run out of older bars shows what
      undisturbed loading back would have brought, followed by its own bars with the ticks merged in. */
  lemma RunIsDrain(hist: seq<Raw>, limit: nat, backend: Backend, s: Series, run: seq<Event>)
    requires OnePerSecond(hist) && limit > 0 && !backend.Mock?
    requires s.bars != [] && s.loading.None? && ServedRun(hist, limit, backend, s, run) && !Run(s, run).hasMore
    ensures Run(s, run).bars == TickAll(Drain(hist, limit, backend, s).0.bars, Ticks(run))
  {
    assert [] + Ticks(run) == Ticks(run);
    var c := RunInShadow(hist, limit, backend, s, s, [], run);
  }

  lemma PrefixCancels(a: seq<Bar>, b: seq<Bar>, tail: seq<Bar>)
    ensures a + tail == b + tail <==> a == b
  {
    if a + tail == b + tail {
      assert |a| == |b|;
      assert a == (a + tail)[..|a|] && b == (b + tail)[..|a|];
    }
  }

  /** So the whole history is in front of them, in any such run, if and only if no page boundary skips a bar. */
  lemma RunLoadsWholeHistory(hist: seq<Raw>, limit: nat, backend: Backend, s: Series, m: nat, run: seq<Event>)
    requires OnePerSecond(hist) && limit > 0 && !backend.Mock? && StartsAt(hist, s, m)
    requires ServedRun(hist, limit, backend, s, run) && !Run(s, run).hasMore
    ensures Run(s, run).bars == Bars(hist[..m]) + TickAll(s.bars, Ticks(run)) <==> NoSkip(hist, limit, backend, m)
  {
    var tail := TickAll(s.bars, Ticks(run));
    var older := DrainPrepends(hist, limit, backend, s);
    RunIsDrain(hist, limit, backend, s, run);
    TicksBehind(older, s.bars, Ticks(run));
    LoadsWholeHistory(hist, limit, backend, s, m);
    PrefixCancels(older, Bars(hist[..m]), tail);
    PrefixCancels(older, Bars(hist[..m]), s.bars);
  }

  /** And such runs are possible ones, so the series invariant holds throughout. */
  lemma {:induction false} ServedIsPossible(hist: seq<Raw>, limit: nat, backend: Backend, s: Series, run: seq<Event>)
    requires OnePerSecond(hist) && ServedRun(hist, limit, backend, s, run)
    ensures PossibleRun(s, run)
    decreases |run|
  {
    if run != [] {
      if run[0].PageCame? {
        PagesFit(backend, hist, limit, s.loading.value);
      }
      ServedIsPossible(hist, limit, backend, Step(s, run[0]), run[1..]);
    }
  }
}
