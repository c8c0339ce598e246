/** One loaded chart series: live ticks merge at its tail, older pages are put in front of it.

    A page request is asynchronous: ticks may arrive between its start and its end.  The guard that
    allows one request at a time is what keeps the cursor of that request meaningful.
 */
module ChartSeries {
  import opened Options

  datatype Bar = Bar(time: int, open: real, high: real, low: real, close: real, volume: real)

  /** A page of older bars and whether there may be more behind it. */
  datatype Page = Page(bars: seq<Bar>, hasMore: bool)

  /** `loading` is the cursor of the request in flight, in seconds. */
  datatype Series = Series(bars: seq<Bar>, hasMore: bool, loading: Option<int>)

  function Tick(s: Series, bar: Bar): Series {
    if s.bars == [] || bar.time > s.bars[|s.bars|-1].time then s.(bars := s.bars + [bar])
    else if bar.time == s.bars[|s.bars|-1].time then s.(bars := s.bars[..|s.bars|-1] + [bar])
    else s
  }

  predicate CanLoad(s: Series) {
    s.loading.None? && s.hasMore && s.bars != []
  }

  function StartLoad(s: Series): Series {
    if CanLoad(s) then s.(loading := Some(s.bars[0].time)) else s
  }

  /** `None` stands for a series without a backend to page from. */
  function FinishLoad(s: Series, page: Option<Page>): Series {
    if page.None? || page.value.bars == [] then s.(hasMore := false, loading := None)
    else Series(page.value.bars + s.bars, page.value.hasMore, None)
  }

  function FailLoad(s: Series): Series {
    s.(loading := None)
  }

  // ---------------------------------------------------------------- every interleaving

  predicate Rising(bars: seq<Bar>) {
    forall i, j | 0 <= i < j < |bars| :: bars[i].time < bars[j].time
  }

  /** What the backends return for a cursor: rising bars, all strictly before it. */
  predicate Fits(page: Option<Page>, cursor: int) {
    page.Some? ==> Rising(page.value.bars) && forall b | b in page.value.bars :: b.time < cursor
  }

  predicate Inv(s: Series) {
    && Rising(s.bars)
    && (s.loading.Some? ==> s.bars != [] && s.loading.value == s.bars[0].time)
  }

  datatype Event = Ticked(bar: Bar) | LoadAsked | PageCame(page: Option<Page>) | PageFailed

  predicate Possible(s: Series, e: Event) {
    match e
    case Ticked(_) => true
    case LoadAsked => true
    case PageCame(page) => s.loading.Some? && Fits(page, s.loading.value)
    case PageFailed => s.loading.Some?
  }

  function Step(s: Series, e: Event): Series {
    match e
    case Ticked(bar) => Tick(s, bar)
    case LoadAsked => StartLoad(s)
    case PageCame(page) => FinishLoad(s, page)
    case PageFailed => FailLoad(s)
  }

  predicate PossibleRun(s: Series, run: seq<Event>)
    decreases |run|
  {
    run == [] || (Possible(s, run[0]) && PossibleRun(Step(s, run[0]), run[1..]))
  }

  function Run(s: Series, run: seq<Event>): Series
    decreases |run|
  {
    if run == [] then s else Run(Step(s, run[0]), run[1..])
  }

  lemma PageKeepsInv(s: Series, page: Option<Page>)
    requires Inv(s) && s.loading.Some? && Fits(page, s.loading.value)
    ensures Inv(FinishLoad(s, page))
  {
    if page.Some? {
      var older := page.value.bars;
      assert forall i | 0 <= i < |older| :: older[i] in older;
    }
  }

  predicate HasTime(bars: seq<Bar>, time: int) {
    exists i :: 0 <= i < |bars| && bars[i].time == time
  }

  lemma TickKeepsTimes(s: Series, bar: Bar, time: int)
    requires HasTime(s.bars, time)
    ensures HasTime(Tick(s, bar).bars, time)
  {
    var i :| 0 <= i < |s.bars| && s.bars[i].time == time;
    assert Tick(s, bar).bars[i].time == time;
  }

  lemma PageKeepsTimes(s: Series, page: Option<Page>, time: int)
    requires HasTime(s.bars, time)
    ensures HasTime(FinishLoad(s, page).bars, time)
  {
    var i :| 0 <= i < |s.bars| && s.bars[i].time == time;
    var older := if page.None? then [] else page.value.bars;
    assert (older + s.bars)[|older| + i] == s.bars[i];
  }

  lemma TickKeepsInv(s: Series, bar: Bar)
    requires Inv(s)
    ensures Inv(Tick(s, bar))
  {
  }

  lemma StepKeepsInv(s: Series, e: Event)
    requires Inv(s) && Possible(s, e)
    ensures Inv(Step(s, e))
  {
    match e
    case Ticked(bar) => TickKeepsInv(s, bar);
    case PageCame(page) => PageKeepsInv(s, page);
    case LoadAsked =>
    case PageFailed =>
  }

  lemma StepKeepsTimes(s: Series, e: Event, time: int)
    ensures HasTime(s.bars, time) ==> HasTime(Step(s, e).bars, time)
  {
    if HasTime(s.bars, time) {
      match e
      case Ticked(bar) => TickKeepsTimes(s, bar, time);
      case PageCame(page) => PageKeepsTimes(s, page, time);
      case LoadAsked =>
      case PageFailed =>
    }
  }

  /** Whatever the order of ticks, requests, pages and failures: times stay strictly rising, a request
      in flight always pages from the current first bar, and no bar shown is ever lost. */
  lemma {:induction false} RunKeepsInv(s: Series, run: seq<Event>, time: int)
    requires Inv(s) && PossibleRun(s, run)
    ensures Inv(Run(s, run))
    ensures HasTime(s.bars, time) ==> HasTime(Run(s, run).bars, time)
    decreases |run|
  {
    if run != [] {
      StepKeepsInv(s, run[0]);
      StepKeepsTimes(s, run[0], time);
      RunKeepsInv(Step(s, run[0]), run[1..], time);
    }
  }

  // ---------------------------------------------------------------- which bars are shown

  /** A tick counts unless a later bar is shown already. */
  predicate Accepted(bars: seq<Bar>, bar: Bar) {
    bars == [] || bar.time >= bars[|bars|-1].time
  }

  /** A tick that counts is shown in place of the bar of its time; every other bar stays as it is. */
  lemma TickShows(s: Series, bar: Bar, b: Bar)
    requires Rising(s.bars)
    ensures b in Tick(s, bar).bars <==>
              if Accepted(s.bars, bar) && b.time == bar.time then b == bar else b in s.bars
  {
    var n := |s.bars| - 1;
    if n >= 0 && bar.time == s.bars[n].time {
      assert s.bars == s.bars[..n] + [s.bars[n]];
      assert forall i :: 0 <= i < n ==> s.bars[..n][i] == s.bars[i];
    }
  }

  /** The bars an event brings. */
  ghost predicate Brings(e: Event, b: Bar) {
    match e
    case Ticked(bar) => b == bar
    case PageCame(page) => page.Some? && b in page.value.bars
    case _ => false
  }

  lemma OthersStay(s: Series, bar: Bar)
    requires Rising(s.bars)
    ensures forall b :: b in s.bars && b.time != bar.time ==> b in Tick(s, bar).bars
  {
    forall b | b in s.bars && b.time != bar.time
      ensures b in Tick(s, bar).bars
    {
      TickShows(s, bar, b);
    }
  }

  lemma StepShows(s: Series, e: Event, b: Bar)
    requires Rising(s.bars)
    ensures b in Step(s, e).bars ==> b in s.bars || Brings(e, b)
    ensures b in s.bars && !(e.Ticked? && e.bar.time == b.time) ==> b in Step(s, e).bars
    ensures e.PageCame? && Brings(e, b) ==> b in Step(s, e).bars
  {
    if e.Ticked? {
      TickShows(s, e.bar, b);
    }
  }

  /** Over any run, a bar stays shown unaltered unless a tick of its own time comes, and only bars that a tick or a page
      has brought are added. */
  lemma {:induction false} RunShows(s: Series, run: seq<Event>, b: Bar)
    requires Inv(s) && PossibleRun(s, run)
    ensures b in s.bars && (forall e :: e in run && e.Ticked? ==> e.bar.time != b.time) ==> b in Run(s, run).bars
    ensures b in Run(s, run).bars ==> b in s.bars || exists e :: e in run && Brings(e, b)
    decreases |run|
  {
    if run != [] {
      StepShows(s, run[0], b);
      StepKeepsInv(s, run[0]);
      RunShows(Step(s, run[0]), run[1..], b);
      assert run[0] in run && forall e :: e in run[1..] ==> e in run;
    }
  }

  /** A tick while a page is on its way has the same effect as one after it. */
  lemma TickCommutesWithPage(s: Series, bar: Bar, page: Option<Page>)
    requires Inv(s) && s.loading.Some?
    ensures FinishLoad(Tick(s, bar), page) == Tick(FinishLoad(s, page), bar)
  {
    if page.Some? && page.value.bars != [] {
      var older := page.value.bars;
      assert (older + s.bars)[..|older + s.bars|-1] == older + s.bars[..|s.bars|-1];
      assert older + (s.bars + [bar]) == (older + s.bars) + [bar];
      assert older + (s.bars[..|s.bars|-1] + [bar]) == (older + s.bars[..|s.bars|-1]) + [bar];
    }
  }

  // ---------------------------------------------------------------- the hook

  lemma {:induction false} RunThen(s: Series, run: seq<Event>, e: Event)
    requires PossibleRun(s, run) && Possible(Run(s, run), e)
    ensures PossibleRun(s, run + [e]) && Run(s, run + [e]) == Step(Run(s, run), e)
    decreases |run|
  {
    if run == [] {
      assert [e][1..] == [];
    } else {
      assert (run + [e])[0] == run[0] && (run + [e])[1..] == run[1..] + [e];
      RunThen(Step(s, run[0]), run[1..], e);
    }
  }

  /** The hook's state, updated in place, and what has happened since the series was loaded. */
  class Chart {
    var bars: seq<Bar>
    var hasMore: bool
    var loading: Option<int>
    ghost const loaded: Series
    ghost var run: seq<Event>

    ghost function View(): Series
      reads this
    {
      Series(bars, hasMore, loading)
    }

    ghost predicate Valid()
      reads this
    {
      Inv(loaded) && PossibleRun(loaded, run) && View() == Run(loaded, run)
    }

    constructor (initial: seq<Bar>, more: bool)
      requires Rising(initial)
      ensures Valid() && View() == Series(initial, more, None) && run == []
    {
      bars, hasMore, loading := initial, more, None;
      loaded, run := Series(initial, more, None), [];
    }

    ghost method Note(e: Event)
      requires PossibleRun(loaded, run) && Inv(loaded) && Possible(Run(loaded, run), e)
      requires View() == Step(Run(loaded, run), e)
      modifies this`run
      ensures Valid() && run == old(run) + [e] && Inv(View())
    {
      RunThen(loaded, run, e);
      run := run + [e];
      RunKeepsInv(loaded, run, 0);
    }

    /** The tail keeps rising, and the last bar is the newest of the old last bar and the tick. */
    method OnTick(bar: Bar)
      requires Valid()
      modifies this
      ensures Valid() && run == old(run) + [Ticked(bar)] && Rising(bars) && bars != []
      ensures bars[|bars|-1].time >= bar.time && (bars[|bars|-1] == bar || (old(bars) == bars && bars[|bars|-1].time > bar.time))
      ensures forall b :: b in old(bars) && b.time != bar.time ==> b in bars
      ensures hasMore == old(hasMore) && loading == old(loading)
    {
      RunKeepsInv(loaded, run, 0);
      OthersStay(View(), bar);
      if bars == [] || bar.time > bars[|bars|-1].time {
        bars := bars + [bar];
      } else if bar.time == bars[|bars|-1].time {
        bars := bars[..|bars|-1] + [bar];
      }
      Note(Ticked(bar));
    }

    /** Returns the cursor to page from, or nothing if a request is in flight already or there is nothing to ask for. */
    method BeginLoadMore() returns (cursor: Option<int>)
      requires Valid()
      modifies this
      ensures Valid() && run == old(run) + [LoadAsked] && bars == old(bars)
      ensures cursor == if old(loading).None? && old(hasMore) && bars != [] then Some(bars[0].time) else None
      ensures loading == (if cursor.Some? then cursor else old(loading)) && hasMore == old(hasMore)
    {
      if loading.None? && hasMore && bars != [] {
        loading := Some(bars[0].time);
        cursor := loading;
      } else {
        cursor := None;
      }
      Note(LoadAsked);
    }

    /** A page that fits the cursor goes in front of the bars as they are now, ticks since the request included,
        and the whole keeps rising. */
    method EndLoadMore(page: Option<Page>)
      requires Valid() && Possible(View(), PageCame(page))
      modifies this
      ensures Valid() && run == old(run) + [PageCame(page)] && loading == None && Rising(bars)
      ensures bars == (if page.None? then [] else page.value.bars) + old(bars)
      ensures hasMore == (page.Some? && page.value.bars != [] && page.value.hasMore)
    {
      if page.None? || page.value.bars == [] {
        hasMore := false;
        assert [] + bars == bars;
      } else {
        bars := page.value.bars + bars;
        hasMore := page.value.hasMore;
      }
      loading := None;
      Note(PageCame(page));
    }

    /** A failed request leaves everything else as it was, so it can be repeated. */
    method AbandonLoadMore()
      requires Valid() && loading.Some?
      modifies this
      ensures Valid() && run == old(run) + [PageFailed] && loading == None
      ensures bars == old(bars) && hasMore == old(hasMore)
    {
      loading := None;
      Note(PageFailed);
    }
  }
}
