/** Paging a chart back to the beginning of its history.

    The client asks for bars before `oldest * 1000 - 1` milliseconds.  Local files take that bound
    inclusively; the hosted service takes it exclusively, so the last millisecond of the previous
    second is never asked for there.  `LoadsWholeHistory` says exactly when this loses a bar.
 */
module ChartHistory {
  import opened Options
  import opened StableSort
  import opened ChartSeries

  type Milli = n: nat | n < 1000

  /** A stored bar.  Its time stamp, `1000 * second + milli` milliseconds, is kept split at the second,
      so that rounding it down to seconds is taking the first part. */
  datatype Raw = Raw(second: int, milli: Milli, o: real, h: real, l: real, c: real, v: real)

  function Stamp(r: Raw): int {
    1000 * r.second + r.milli
  }

  function ToBar(r: Raw): Bar {
    Bar(r.second, r.o, r.h, r.l, r.c, r.v)
  }

  function Bars(raw: seq<Raw>): (bars: seq<Bar>)
    ensures |bars| == |raw| && forall i | 0 <= i < |raw| :: bars[i] == ToBar(raw[i])
  {
    if raw == [] then [] else [ToBar(raw[0])] + Bars(raw[1..])
  }

  function TimeOf(): Raw -> int {
    (r: Raw) => Stamp(r)
  }

  // ---------------------------------------------------------------- the client's side of one page

  /** Sort a reply and convert it; an empty reply means there is nothing. */
  function HeraldPage(raw: seq<Raw>, limit: nat, before: Option<int>): Option<Page> {
    if raw == [] then None
    else Some(Page(Bars(SortBy(raw, TimeOf())), !(before.Some? && |raw| < limit)))
  }

  datatype Backend = Herald | Local | Mock

  function Cursor(oldest: int): int {
    oldest * 1000 - 1
  }

  /** `reply` is what the series' backend returned for the cursor. */
  function LoadMore(backend: Backend, oldest: int, limit: nat, reply: seq<Raw>): Option<Page> {
    match backend
    case Herald =>
      (match HeraldPage(reply, limit, Some(Cursor(oldest)))
       case None => Some(Page([], false))
       case Some(p) => Some(p))
    case Local => Some(Page(Bars(reply), |reply| >= limit))
    case Mock => None
  }

  // ---------------------------------------------------------------- the servers

  /** At most one bar per second, oldest first. */
  ghost predicate OnePerSecond(hist: seq<Raw>) {
    forall i, j | 0 <= i < j < |hist| :: hist[i].second < hist[j].second
  }

  /** How many bars lie strictly before a point in time. */
  function Below(hist: seq<Raw>, before: int): (n: nat)
    ensures n <= |hist|
  {
    if hist == [] || Stamp(hist[|hist|-1]) < before then |hist| else Below(hist[..|hist|-1], before)
  }

  /** The newest `limit` of the first `n` bars. */
  function Newest(hist: seq<Raw>, limit: nat, n: nat): (r: seq<Raw>)
    requires n <= |hist|
    ensures |r| == if n < limit then n else limit
  {
    hist[if n < limit then 0 else n - limit..n]
  }

  /** The newest `limit` bars strictly before `before`, oldest first. */
  function Query(hist: seq<Raw>, limit: nat, before: int): seq<Raw> {
    Newest(hist, limit, Below(hist, before))
  }

  lemma {:induction false} BelowFacts(hist: seq<Raw>, before: int)
    requires OnePerSecond(hist)
    ensures forall i | 0 <= i < |hist| :: Stamp(hist[i]) < before <==> i < Below(hist, before)
  {
    if hist != [] && Stamp(hist[|hist|-1]) >= before {
      BelowFacts(hist[..|hist|-1], before);
    }
  }

  lemma QueryIsAscending(hist: seq<Raw>, limit: nat, before: int)
    requires OnePerSecond(hist)
    ensures Ascending(Query(hist, limit, before), TimeOf())
  {
  }

  /** The first millisecond a backend leaves out for a request from `oldest`: the hosted service
      compares strictly, local files do not. */
  function Bound(backend: Backend, oldest: int): int {
    if backend.Local? then Cursor(oldest) + 1 else Cursor(oldest)
  }

  lemma ReplyFits(backend: Backend, hist: seq<Raw>, limit: nat, oldest: int)
    requires OnePerSecond(hist)
    ensures Rising(Bars(Query(hist, limit, Bound(backend, oldest))))
    ensures forall b | b in Bars(Query(hist, limit, Bound(backend, oldest))) :: b.time < oldest
  {
    BelowFacts(hist, Bound(backend, oldest));
  }

  function PageFrom(backend: Backend, hist: seq<Raw>, limit: nat, oldest: int): Option<Page> {
    LoadMore(backend, oldest, limit, Query(hist, limit, Bound(backend, oldest)))
  }

  /** Pages served for a cursor are rising and lie strictly before it. */
  lemma PagesFit(backend: Backend, hist: seq<Raw>, limit: nat, oldest: int)
    requires OnePerSecond(hist)
    ensures Fits(PageFrom(backend, hist, limit, oldest), oldest)
  {
    var reply := Query(hist, limit, Bound(backend, oldest));
    QueryIsAscending(hist, limit, Bound(backend, oldest));
    SortByAscending(reply, TimeOf());
    ReplyFits(backend, hist, limit, oldest);
  }

  // ---------------------------------------------------------------- loading back to the end

  /** One request, from asking to the page being in place. */
  function LoadBack(hist: seq<Raw>, limit: nat, backend: Backend, s: Series): Series
    requires CanLoad(s)
  {
    FinishLoad(StartLoad(s), PageFrom(backend, hist, limit, s.bars[0].time))
  }

  /** Bars the next request could still bring. */
  function Remaining(hist: seq<Raw>, backend: Backend, s: Series): nat
    requires s.bars != []
  {
    Below(hist, Bound(backend, s.bars[0].time))
  }

  lemma LoadMoreSorted(backend: Backend, oldest: int, limit: nat, reply: seq<Raw>)
    requires Ascending(reply, TimeOf()) && limit > 0 && !backend.Mock?
    ensures LoadMore(backend, oldest, limit, reply) == Some(Page(Bars(reply), |reply| >= limit))
  {
    SortByAscending(reply, TimeOf());
  }

  lemma PageContents(hist: seq<Raw>, limit: nat, backend: Backend, oldest: int)
    requires OnePerSecond(hist) && limit > 0 && !backend.Mock?
    ensures var n := Below(hist, Bound(backend, oldest));
            PageFrom(backend, hist, limit, oldest) == Some(Page(Bars(Newest(hist, limit, n)), n >= limit))
  {
    QueryIsAscending(hist, limit, Bound(backend, oldest));
    LoadMoreSorted(backend, oldest, limit, Query(hist, limit, Bound(backend, oldest)));
  }

  lemma OlderThan(hist: seq<Raw>, backend: Backend, k: nat)
    requires OnePerSecond(hist) && k < |hist|
    ensures Below(hist, Bound(backend, hist[k].second)) <= k
  {
    BelowFacts(hist, Bound(backend, hist[k].second));
  }

  lemma FinishPage(s: Series, bars: seq<Bar>, more: bool)
    requires CanLoad(s) && (bars == [] ==> !more)
    ensures FinishLoad(StartLoad(s), Some(Page(bars, more))) == Series(bars + s.bars, more, None)
  {
    assert bars == [] ==> bars + s.bars == s.bars;
  }

  lemma LoadBackIs(hist: seq<Raw>, limit: nat, backend: Backend, s: Series)
    requires OnePerSecond(hist) && limit > 0 && CanLoad(s) && !backend.Mock?
    ensures var n := Remaining(hist, backend, s);
            LoadBack(hist, limit, backend, s) == Series(Bars(Newest(hist, limit, n)) + s.bars, n >= limit, None)
  {
    var n := Remaining(hist, backend, s);
    PageContents(hist, limit, backend, s.bars[0].time);
    FinishPage(s, Bars(Newest(hist, limit, n)), n >= limit);
  }

  lemma LoadBackEffect(hist: seq<Raw>, limit: nat, backend: Backend, s: Series)
    requires OnePerSecond(hist) && limit > 0 && CanLoad(s) && !backend.Mock?
    ensures var n := Remaining(hist, backend, s);
            var from := if n < limit then 0 else n - limit;
            && LoadBack(hist, limit, backend, s) == Series(Bars(hist[from..n]) + s.bars, n >= limit, None)
            && (n > 0 ==> Remaining(hist, backend, LoadBack(hist, limit, backend, s)) <= from)
  {
    var n := Remaining(hist, backend, s);
    var from := if n < limit then 0 else n - limit;
    LoadBackIs(hist, limit, backend, s);
    if n > 0 {
      FirstOfPage(hist, from, n, s.bars);
      OlderThan(hist, backend, from);
    }
  }

  /** Request older bars until there is nothing more to request; count the requests. */
  function Drain(hist: seq<Raw>, limit: nat, backend: Backend, s: Series): (Series, nat)
    requires OnePerSecond(hist) && limit > 0 && !backend.Mock? && s.bars != [] && s.loading.None?
    decreases if s.hasMore then 1 + Remaining(hist, backend, s) else 0
  {
    if !s.hasMore then (s, 0)
    else
      LoadBackEffect(hist, limit, backend, s);
      var r := Drain(hist, limit, backend, LoadBack(hist, limit, backend, s));
      (r.0, r.1 + 1)
  }

  /** Requests needed for `n` older bars: one per full page and one more that comes back short. */
  function Requests(n: nat, limit: nat): nat
    requires limit > 0
  {
    if n < limit then 1 else 1 + Requests(n - limit, limit)
  }

  lemma {:induction false} RequestsMonotone(a: nat, b: nat, limit: nat)
    requires a <= b && limit > 0
    ensures Requests(a, limit) <= Requests(b, limit)
    decreases b
  {
    if b >= limit {
      RequestsMonotone(if a < limit then 0 else a - limit, b - limit, limit);
    }
  }

  lemma {:induction false} RequestsQuotient(n: nat, limit: nat)
    requires limit > 0
    ensures Requests(n, limit) == n / limit + 1
  {
    if n >= limit {
      RequestsQuotient(n - limit, limit);
      var q, r := (n - limit) / limit, (n - limit) % limit;
      assert n == (q + 1) * limit + r;
      QuotientIs(n, limit, q + 1, r);
    } else {
      QuotientIs(n, limit, 0, n);
    }
  }

  lemma QuotientIs(n: nat, d: nat, q: nat, r: nat)
    requires r < d && n == q * d + r
    ensures n / d == q
  {
    var p := n / d;
    assert n == p * d + n % d;
    MulGap(p, q, d);
    MulGap(q, p, d);
  }

  lemma {:induction false} MulGap(x: nat, y: nat, d: nat)
    ensures x < y ==> x * d + d <= y * d
  {
    if x + 1 < y {
      MulGap(x, y - 1, d);
    }
  }

  /** One request in numbers. */
  lemma BackSizes(hist: seq<Raw>, limit: nat, backend: Backend, s: Series)
    requires OnePerSecond(hist) && limit > 0 && !backend.Mock? && CanLoad(s)
    ensures var t, n := LoadBack(hist, limit, backend, s), Remaining(hist, backend, s);
            && t.bars != [] && t.loading.None? && t.hasMore == (n >= limit)
            && |t.bars| == |s.bars| + (if n < limit then n else limit)
            && (n >= limit ==> Remaining(hist, backend, t) <= n - limit)
  {
    LoadBackEffect(hist, limit, backend, s);
  }

  lemma DrainedOut(hist: seq<Raw>, limit: nat, backend: Backend, s: Series)
    requires OnePerSecond(hist) && limit > 0 && !backend.Mock? && s.bars != [] && s.loading.None? && !s.hasMore
    ensures Drain(hist, limit, backend, s) == (s, 0)
  {
  }

  /** Loading back stops by itself after at most one request per full page and one more, and prepends no
      more bars than there were before the cursor. */
  lemma {:induction false} DrainStops(hist: seq<Raw>, limit: nat, backend: Backend, s: Series)
    requires OnePerSecond(hist) && limit > 0 && !backend.Mock? && s.bars != [] && s.loading.None?
    ensures var r := Drain(hist, limit, backend, s);
            && !r.0.hasMore
            && |r.0.bars| <= |s.bars| + Remaining(hist, backend, s)
            && r.1 <= Requests(Remaining(hist, backend, s), limit)
    decreases if s.hasMore then 1 + Remaining(hist, backend, s) else 0
  {
    if !s.hasMore {
      DrainedOut(hist, limit, backend, s);
    } else {
      var t, n := LoadBack(hist, limit, backend, s), Remaining(hist, backend, s);
      BackSizes(hist, limit, backend, s);
      DrainOnce(hist, limit, backend, s);
      if n >= limit {
        DrainStops(hist, limit, backend, t);
        RequestsMonotone(Remaining(hist, backend, t), n - limit, limit);
      } else {
        DrainedOut(hist, limit, backend, t);
      }
    }
  }

  lemma SliceBars(hist: seq<Raw>, a: nat, b: nat, bar: Bar)
    requires a <= b <= |hist| && bar in Bars(hist[a..b])
    ensures bar in Bars(hist)
  {
    var i :| 0 <= i < b - a && Bars(hist[a..b])[i] == bar;
    assert Bars(hist)[a + i] == bar;
  }

  /** Every bar shown in the end was there before or is one of the history's. */
  lemma {:induction false} DrainIsFromHistory(hist: seq<Raw>, limit: nat, backend: Backend, s: Series, bar: Bar)
    requires OnePerSecond(hist) && limit > 0 && !backend.Mock? && s.bars != [] && s.loading.None?
    requires bar in Drain(hist, limit, backend, s).0.bars
    ensures bar in s.bars || bar in Bars(hist)
    decreases if s.hasMore then 1 + Remaining(hist, backend, s) else 0
  {
    if s.hasMore {
      LoadBackEffect(hist, limit, backend, s);
      DrainIsFromHistory(hist, limit, backend, LoadBack(hist, limit, backend, s), bar);
      var n := Remaining(hist, backend, s);
      var from := if n < limit then 0 else n - limit;
      if bar in Bars(hist[from..n]) {
        SliceBars(hist, from, n, bar);
      }
    }
  }

  /** Every interleaving invariant of the series also holds at the end of loading back. */
  lemma {:induction false} DrainKeepsInv(hist: seq<Raw>, limit: nat, backend: Backend, s: Series)
    requires OnePerSecond(hist) && limit > 0 && !backend.Mock? && s.bars != [] && s.loading.None?
    requires Inv(s)
    ensures Inv(Drain(hist, limit, backend, s).0)
    decreases if s.hasMore then 1 + Remaining(hist, backend, s) else 0
  {
    if s.hasMore {
      PagesFit(backend, hist, limit, s.bars[0].time);
      PageKeepsInv(StartLoad(s), PageFrom(backend, hist, limit, s.bars[0].time));
      LoadBackEffect(hist, limit, backend, s);
      DrainKeepsInv(hist, limit, backend, LoadBack(hist, limit, backend, s));
    }
  }

  /** The bar just before index `m` lies in the one millisecond that a hosted request from `m` leaves out. */
  predicate Skipped(hist: seq<Raw>, backend: Backend, m: nat)
    requires 0 < m < |hist|
  {
    backend.Herald? && Stamp(hist[m-1]) == Cursor(hist[m].second)
  }

  /** No page boundary, going back from index `m` in steps of `limit`, skips a bar. */
  predicate NoSkip(hist: seq<Raw>, limit: nat, backend: Backend, m: nat)
    requires limit > 0 && m < |hist|
  {
    m == 0 || (!Skipped(hist, backend, m) && (m <= limit || NoSkip(hist, limit, backend, m - limit)))
  }

  lemma RemainingAt(hist: seq<Raw>, backend: Backend, m: nat)
    requires OnePerSecond(hist) && !backend.Mock? && m < |hist|
    ensures Below(hist, Bound(backend, hist[m].second)) == if m > 0 && Skipped(hist, backend, m) then m - 1 else m
  {
    var n := Below(hist, Bound(backend, hist[m].second));
    BelowFacts(hist, Bound(backend, hist[m].second));
    assert n <= m;
    if m > 0 {
      assert hist[m-1].second < hist[m].second;
      assert m > 1 ==> hist[m-2].second < hist[m-1].second;
    }
  }

  lemma SplitBars(hist: seq<Raw>, k: nat, m: nat, tail: seq<Bar>)
    requires k <= m <= |hist|
    ensures Bars(hist[..k]) + (Bars(hist[k..m]) + tail) == Bars(hist[..m]) + tail
  {
  }

  lemma DrainOnce(hist: seq<Raw>, limit: nat, backend: Backend, s: Series)
    requires OnePerSecond(hist) && limit > 0 && !backend.Mock? && CanLoad(s)
    ensures var t := LoadBack(hist, limit, backend, s);
            && t.bars != [] && t.loading.None?
            && Drain(hist, limit, backend, s).0 == Drain(hist, limit, backend, t).0
            && Drain(hist, limit, backend, s).1 == Drain(hist, limit, backend, t).1 + 1
  {
    LoadBackEffect(hist, limit, backend, s);
  }

  /** A chart whose first bar is the `m`-th of the history. */
  predicate StartsAt(hist: seq<Raw>, s: Series, m: nat) {
    m < |hist| && CanLoad(s) && s.bars[0].time == hist[m].second
  }

  lemma RemainingIs(hist: seq<Raw>, backend: Backend, s: Series, m: nat)
    requires OnePerSecond(hist) && !backend.Mock? && StartsAt(hist, s, m) && (m == 0 || !Skipped(hist, backend, m))
    ensures Remaining(hist, backend, s) == m
  {
    RemainingAt(hist, backend, m);
  }

  lemma StartsFurtherBack(hist: seq<Raw>, k: nat, m: nat, s: Series)
    requires k < m <= |hist|
    ensures StartsAt(hist, Series(Bars(hist[k..m]) + s.bars, true, None), k)
  {
    FirstOfPage(hist, k, m, s.bars);
  }

  lemma StepBack(hist: seq<Raw>, limit: nat, backend: Backend, s: Series, m: nat)
    requires OnePerSecond(hist) && limit > 0 && !backend.Mock? && StartsAt(hist, s, m)
    requires m == 0 || !Skipped(hist, backend, m)
    ensures var t := LoadBack(hist, limit, backend, s);
            if m < limit then t == Series(Bars(hist[..m]) + s.bars, false, None)
            else t.bars == Bars(hist[m-limit..m]) + s.bars && StartsAt(hist, t, m - limit)
  {
    RemainingIs(hist, backend, s, m);
    LoadBackIs(hist, limit, backend, s);
    if m < limit {
      assert hist[0..m] == hist[..m];
    } else {
      StartsFurtherBack(hist, m - limit, m, s);
    }
  }

  lemma FirstOfPage(hist: seq<Raw>, k: nat, m: nat, tail: seq<Bar>)
    requires k < m <= |hist|
    ensures (Bars(hist[k..m]) + tail)[0].time == hist[k].second
  {
    assert hist[k..m][0] == hist[k];
  }

  /** A skipped bar is missing in the end. */
  lemma SkipLoses(hist: seq<Raw>, limit: nat, backend: Backend, s: Series, m: nat)
    requires OnePerSecond(hist) && limit > 0 && !backend.Mock? && StartsAt(hist, s, m) && m > 0 && Skipped(hist, backend, m)
    ensures |Drain(hist, limit, backend, s).0.bars| < m + |s.bars|
  {
    RemainingAt(hist, backend, m);
    DrainStops(hist, limit, backend, s);
  }

  lemma LastPage(hist: seq<Raw>, limit: nat, backend: Backend, s: Series, m: nat)
    requires OnePerSecond(hist) && limit > 0 && !backend.Mock? && StartsAt(hist, s, m)
    requires (m == 0 || !Skipped(hist, backend, m)) && m < limit
    ensures Drain(hist, limit, backend, s).0.bars == Bars(hist[..m]) + s.bars && Drain(hist, limit, backend, s).1 == 1
  {
    StepBack(hist, limit, backend, s, m);
    DrainOnce(hist, limit, backend, s);
  }

  lemma PageThenRest(hist: seq<Raw>, limit: nat, backend: Backend, s: Series, m: nat)
    requires OnePerSecond(hist) && limit > 0 && !backend.Mock? && StartsAt(hist, s, m)
    requires m >= limit && !Skipped(hist, backend, m)
    ensures var t := LoadBack(hist, limit, backend, s);
            && StartsAt(hist, t, m - limit)
            && Drain(hist, limit, backend, s).0 == Drain(hist, limit, backend, t).0
            && Drain(hist, limit, backend, s).1 == Drain(hist, limit, backend, t).1 + 1
            && Bars(hist[..m - limit]) + t.bars == Bars(hist[..m]) + s.bars
  {
    StepBack(hist, limit, backend, s, m);
    DrainOnce(hist, limit, backend, s);
    SplitBars(hist, m - limit, m, s.bars);
  }

  /** From a chart whose first bar is the `m`-th of the history, loading back yields exactly the whole
      history in front of it if and only if no page boundary skips a bar. */
  lemma {:induction false} LoadsWholeHistory(hist: seq<Raw>, limit: nat, backend: Backend, s: Series, m: nat)
    requires OnePerSecond(hist) && limit > 0 && !backend.Mock? && StartsAt(hist, s, m)
    ensures Drain(hist, limit, backend, s).0.bars == Bars(hist[..m]) + s.bars <==> NoSkip(hist, limit, backend, m)
    ensures NoSkip(hist, limit, backend, m) ==> Drain(hist, limit, backend, s).1 == Requests(m, limit)
    decreases m
  {
    if m > 0 && Skipped(hist, backend, m) {
      SkipLoses(hist, limit, backend, s, m);
    } else if m < limit {
      LastPage(hist, limit, backend, s, m);
    } else {
      PageThenRest(hist, limit, backend, s, m);
      LoadsWholeHistory(hist, limit, backend, LoadBack(hist, limit, backend, s), m - limit);
    }
  }

  /** The bar shows the stored bar: its second, and its prices and volume as they are. */
  predicate ShowsRaw(b: Bar, r: Raw) {
    b.time == r.second && b.open == r.o && b.high == r.h && b.low == r.l && b.close == r.c && b.volume == r.v
  }

  /** Loaded back completely, the chart shows the history bar by bar in front of its own bars. */
  lemma {:induction false} ShowsTheHistory(hist: seq<Raw>, limit: nat, backend: Backend, s: Series, m: nat, k: nat)
    requires OnePerSecond(hist) && limit > 0 && !backend.Mock? && StartsAt(hist, s, m)
    requires NoSkip(hist, limit, backend, m) && k < m + |s.bars|
    ensures var bars := Drain(hist, limit, backend, s).0.bars;
            |bars| == m + |s.bars| && if k < m then ShowsRaw(bars[k], hist[k]) else bars[k] == s.bars[k - m]
  {
    LoadsWholeHistory(hist, limit, backend, s, m);
    assert k < m ==> hist[..m][k] == hist[k];
  }

  /** Local files, and hosted histories with no bar in the last millisecond of a second, load completely. */
  lemma {:induction false} LoadsCompletely(hist: seq<Raw>, limit: nat, backend: Backend, m: nat)
    requires limit > 0 && m < |hist|
    requires backend.Local? || forall r | r in hist :: r.milli != 999
    ensures NoSkip(hist, limit, backend, m)
  {
    if m > 0 {
      assert hist[m-1] in hist;
      if m > limit {
        LoadsCompletely(hist, limit, backend, m - limit);
      }
    }
  }

  /** A hosted bar stamped in the last millisecond before the oldest second shown is never fetched. */
  lemma LastMillisecondIsLost(p: real)
    ensures var hist := [Raw(0, 999, p, p, p, p, p), Raw(1, 0, p, p, p, p, p)];
            OnePerSecond(hist) && !NoSkip(hist, 500, Herald, 1)
  {
  }

  // ---------------------------------------------------------------- replies as they come

  /** Whatever the order of a hosted reply, the page shows each of its bars once, by time and where times are equal in
      the order of the reply. */
  lemma {:induction false} PageIsSorted(oldest: int, limit: nat, reply: seq<Raw>) returns (at: seq<nat>)
    ensures LoadMore(Herald, oldest, limit, reply).Some?
    ensures var page := LoadMore(Herald, oldest, limit, reply).value;
            && Everywhere(|reply|, at) && InOrder(reply, TimeOf(), at) && |page.bars| == |reply|
            && (forall k :: 0 <= k < |at| ==> at[k] < |reply| && ShowsRaw(page.bars[k], reply[at[k]]))
            && page.hasMore == (reply != [] && |reply| >= limit)
  {
    at := SortPlaces(reply, TimeOf());
    SortByStable(reply, TimeOf());
  }

  /** A series without a backend has nothing to load. */
  lemma MockHasNoMore(s: Series, limit: nat, reply: seq<Raw>)
    requires CanLoad(s)
    ensures FinishLoad(StartLoad(s), LoadMore(Mock, s.bars[0].time, limit, reply)) == Series(s.bars, false, None)
  {
  }
}
