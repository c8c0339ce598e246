/** Where the hosted history is kept in two places: recent bars in a live window, all of them on disk. The window
    answers alone whenever it has anything before the cursor. */
module ChartSeam {
  import opened Options
  import opened StableSort
  import opened ChartSeries
  import opened ChartHistory

  /** The reply of a service whose window starts at index `d` of the history. */
  function Hosted(hist: seq<Raw>, d: nat, limit: nat, before: int): seq<Raw>
    requires d <= |hist|
  {
    var page := Query(hist[d..], limit, before);
    if page != [] then page else Query(hist, limit, before)
  }

  lemma {:induction false} BelowInWindow(hist: seq<Raw>, d: nat, before: int)
    requires d <= |hist|
    ensures var n := Below(hist, before); Below(hist[d..], before) == if n <= d then 0 else n - d
    decreases |hist|
  {
    if d < |hist| && Stamp(hist[|hist|-1]) >= before {
      var front := hist[..|hist|-1];
      assert hist[d..][..|hist| - d - 1] == front[d..];
      BelowInWindow(front, d, before);
    }
  }

  lemma SliceOfRest(hist: seq<Raw>, d: nat, a: nat, b: nat)
    requires d <= |hist| && a <= b <= |hist| - d
    ensures hist[d..][a..b] == hist[d + a..d + b]
  {
  }

  lemma NewestOfRest(hist: seq<Raw>, d: nat, limit: nat, n: nat)
    requires d < n <= |hist|
    ensures Newest(hist[d..], limit, n - d) == if n - d < limit then hist[d..n] else hist[n - limit..n]
  {
    if n - d < limit {
      SliceOfRest(hist, d, 0, n - d);
    } else {
      SliceOfRest(hist, d, n - d - limit, n - d);
    }
  }

  lemma QueryAt(hist: seq<Raw>, limit: nat, before: int, n: nat)
    requires n <= |hist| && Below(hist, before) == n
    ensures Query(hist, limit, before) == Newest(hist, limit, n)
  {
  }

  lemma WindowPage(hist: seq<Raw>, d: nat, limit: nat, before: int)
    requires d <= |hist| && limit > 0 && d < Below(hist, before)
    ensures var n := Below(hist, before);
            Query(hist[d..], limit, before) == if n - d < limit then hist[d..n] else hist[n - limit..n]
  {
    var n := Below(hist, before);
    BelowInWindow(hist, d, before);
    QueryAt(hist[d..], limit, before, n - d);
    NewestOfRest(hist, d, limit, n);
  }

  /** The reply, by where the cursor falls. */
  lemma HostedIs(hist: seq<Raw>, d: nat, limit: nat, before: int)
    requires d <= |hist| && limit > 0
    ensures var n := Below(hist, before);
            Hosted(hist, d, limit, before) ==
              if n <= d then Query(hist, limit, before) else if n - d < limit then hist[d..n] else hist[n - limit..n]
  {
    BelowInWindow(hist, d, before);
    if Below(hist, before) > d {
      WindowPage(hist, d, limit, before);
    }
  }

  /** The two places answer like one history exactly when the window is all of it, holds nothing before the cursor,
      or holds a full page before it. */
  lemma {:induction false} HostedIsWhole(hist: seq<Raw>, d: nat, limit: nat, before: int)
    requires d <= |hist| && limit > 0
    ensures var n := Below(hist, before);
            Hosted(hist, d, limit, before) == Query(hist, limit, before) <==> d == 0 || n <= d || n - d >= limit
  {
    HostedIs(hist, d, limit, before);
    var n := Below(hist, before);
    if n > d && n - d < limit {
      assert |Hosted(hist, d, limit, before)| == n - d;
    }
  }

  /** Otherwise the short page of the window is taken for the end of the history, and the `d` bars on disk before it
      are never asked for. */
  lemma {:induction false} SeamEndsLoading(hist: seq<Raw>, d: nat, limit: nat, oldest: int)
    requires OnePerSecond(hist) && d <= |hist| && limit > 0
    requires d < Below(hist, Cursor(oldest)) && Below(hist, Cursor(oldest)) - d < limit
    ensures var n := Below(hist, Cursor(oldest));
            LoadMore(Herald, oldest, limit, Hosted(hist, d, limit, Cursor(oldest))) == Some(Page(Bars(hist[d..n]), false))
  {
    HostedPage(hist, d, limit, oldest);
  }

  // ---------------------------------------------------------------- loading back against both places

  /** One request to such a service, from asking to the page being in place. */
  function HostedBack(hist: seq<Raw>, d: nat, limit: nat, s: Series): Series
    requires d <= |hist| && CanLoad(s)
  {
    var oldest := s.bars[0].time;
    FinishLoad(StartLoad(s), LoadMore(Herald, oldest, limit, Hosted(hist, d, limit, Cursor(oldest))))
  }

  /** The first bar of the page for a cursor with n bars before it. */
  function PageStart(d: nat, limit: nat, n: nat): (from: nat)
    ensures from <= n
  {
    if n > d && n - d < limit then d else if n < limit then 0 else n - limit
  }

  lemma HostedSlice(hist: seq<Raw>, d: nat, limit: nat, before: int)
    requires d <= |hist| && limit > 0
    ensures var n := Below(hist, before); Hosted(hist, d, limit, before) == hist[PageStart(d, limit, n)..n]
  {
    HostedIs(hist, d, limit, before);
  }

  lemma SliceAscending(hist: seq<Raw>, a: nat, b: nat)
    requires OnePerSecond(hist) && a <= b <= |hist|
    ensures Ascending(hist[a..b], TimeOf())
  {
  }

  lemma LoadSlice(hist: seq<Raw>, a: nat, b: nat, limit: nat, oldest: int, reply: seq<Raw>)
    requires OnePerSecond(hist) && a <= b <= |hist| && limit > 0 && reply == hist[a..b]
    ensures LoadMore(Herald, oldest, limit, reply) == Some(Page(Bars(hist[a..b]), b - a >= limit))
  {
    SliceAscending(hist, a, b);
    LoadMoreSorted(Herald, oldest, limit, reply);
  }

  lemma PageOf(hist: seq<Raw>, d: nat, limit: nat, oldest: int, n: nat, reply: seq<Raw>)
    requires OnePerSecond(hist) && limit > 0 && n <= |hist| && reply == hist[PageStart(d, limit, n)..n]
    ensures var from := PageStart(d, limit, n);
            LoadMore(Herald, oldest, limit, reply) == Some(Page(Bars(hist[from..n]), n - from >= limit))
  {
    LoadSlice(hist, PageStart(d, limit, n), n, limit, oldest, reply);
  }

  lemma HostedPage(hist: seq<Raw>, d: nat, limit: nat, oldest: int)
    requires OnePerSecond(hist) && d <= |hist| && limit > 0
    ensures var n := Below(hist, Cursor(oldest));
            var from := PageStart(d, limit, n);
            LoadMore(Herald, oldest, limit, Hosted(hist, d, limit, Cursor(oldest)))
              == Some(Page(Bars(hist[from..n]), n - from >= limit))
  {
    var before := Cursor(oldest);
    HostedSlice(hist, d, limit, before);
    PageOf(hist, d, limit, oldest, Below(hist, before), Hosted(hist, d, limit, before));
  }

  lemma HostedBackIs(hist: seq<Raw>, d: nat, limit: nat, s: Series)
    requires OnePerSecond(hist) && d <= |hist| && limit > 0 && CanLoad(s)
    ensures var n := Remaining(hist, Herald, s);
            var from := PageStart(d, limit, n);
            HostedBack(hist, d, limit, s) == Series(Bars(hist[from..n]) + s.bars, n - from >= limit, None)
  {
    var n := Remaining(hist, Herald, s);
    var from := PageStart(d, limit, n);
    HostedPage(hist, d, limit, s.bars[0].time);
    FinishPage(s, Bars(hist[from..n]), n - from >= limit);
  }

  lemma HostedBackEffect(hist: seq<Raw>, d: nat, limit: nat, s: Series)
    requires OnePerSecond(hist) && d <= |hist| && limit > 0 && CanLoad(s)
    ensures var n := Remaining(hist, Herald, s);
            var from := PageStart(d, limit, n);
            && HostedBack(hist, d, limit, s) == Series(Bars(hist[from..n]) + s.bars, n - from >= limit, None)
            && (from < n ==> Remaining(hist, Herald, HostedBack(hist, d, limit, s)) <= from)
  {
    var n := Remaining(hist, Herald, s);
    var from := PageStart(d, limit, n);
    HostedBackIs(hist, d, limit, s);
    if from < n {
      FirstOfPage(hist, from, n, s.bars);
      OlderThan(hist, Herald, from);
    }
  }

  /** Request older bars until there is nothing more to request. */
  function HostedDrain(hist: seq<Raw>, d: nat, limit: nat, s: Series): Series
    requires OnePerSecond(hist) && d <= |hist| && limit > 0 && s.bars != [] && s.loading.None?
    decreases if s.hasMore then 1 + Remaining(hist, Herald, s) else 0
  {
    if !s.hasMore then s
    else
      HostedBackEffect(hist, d, limit, s);
      HostedDrain(hist, d, limit, HostedBack(hist, d, limit, s))
  }

  lemma {:induction false} HostedDrainBounded(hist: seq<Raw>, d: nat, limit: nat, s: Series)
    requires OnePerSecond(hist) && d <= |hist| && limit > 0 && s.bars != [] && s.loading.None?
    ensures |HostedDrain(hist, d, limit, s).bars| <= |s.bars| + Remaining(hist, Herald, s)
    ensures !HostedDrain(hist, d, limit, s).hasMore
    decreases if s.hasMore then 1 + Remaining(hist, Herald, s) else 0
  {
    if s.hasMore {
      HostedBackEffect(hist, d, limit, s);
      HostedDrainBounded(hist, d, limit, HostedBack(hist, d, limit, s));
    }
  }

  /** Going back from index `m` in steps of `limit`, no page is cut short by the start of the window. */
  predicate SeamFits(limit: nat, d: nat, m: nat)
    requires limit > 0
    decreases m
  {
    d == 0 || m <= d || (m - d >= limit && SeamFits(limit, d, m - limit))
  }

  /** One page back from index `m`, where no bar is skipped. */
  lemma HostedStep(hist: seq<Raw>, d: nat, limit: nat, s: Series, m: nat)
    requires OnePerSecond(hist) && d <= |hist| && limit > 0 && StartsAt(hist, s, m)
    requires m == 0 || !Skipped(hist, Herald, m)
    ensures var from := PageStart(d, limit, m);
            var t := Series(Bars(hist[from..m]) + s.bars, m - from >= limit, None);
            && HostedBack(hist, d, limit, s) == t
            && HostedDrain(hist, d, limit, s) == HostedDrain(hist, d, limit, t)
            && (t.hasMore ==> StartsAt(hist, t, from))
  {
    var from := PageStart(d, limit, m);
    RemainingAt(hist, Herald, m);
    assert Remaining(hist, Herald, s) == m;
    HostedBackEffect(hist, d, limit, s);
    if m - from >= limit {
      FirstOfPage(hist, from, m, s.bars);
    }
  }

  lemma HostedSkipLoses(hist: seq<Raw>, d: nat, limit: nat, s: Series, m: nat)
    requires OnePerSecond(hist) && d <= |hist| && limit > 0 && StartsAt(hist, s, m) && m > 0 && Skipped(hist, Herald, m)
    ensures |HostedDrain(hist, d, limit, s).bars| < m + |s.bars|
  {
    RemainingAt(hist, Herald, m);
    HostedDrainBounded(hist, d, limit, s);
  }

  /** A page that is not full ends loading. */
  lemma HostedEnds(hist: seq<Raw>, d: nat, limit: nat, s: Series, m: nat)
    requires OnePerSecond(hist) && d <= |hist| && limit > 0 && StartsAt(hist, s, m)
    requires (m == 0 || !Skipped(hist, Herald, m)) && m - PageStart(d, limit, m) < limit
    ensures HostedDrain(hist, d, limit, s).bars == Bars(hist[PageStart(d, limit, m)..m]) + s.bars
  {
    HostedStep(hist, d, limit, s, m);
  }

  /** Loading a hosted chart back brings the whole history in front of it if and only if no page boundary skips a bar
      and no page is cut short by the start of the live window. */
  lemma {:induction false} HostedLoadsWholeHistory(hist: seq<Raw>, d: nat, limit: nat, s: Series, m: nat)
    requires OnePerSecond(hist) && d <= |hist| && limit > 0 && StartsAt(hist, s, m)
    ensures HostedDrain(hist, d, limit, s).bars == Bars(hist[..m]) + s.bars
            <==> NoSkip(hist, limit, Herald, m) && SeamFits(limit, d, m)
    decreases m
  {
    var from := PageStart(d, limit, m);
    if m > 0 && Skipped(hist, Herald, m) {
      HostedSkipLoses(hist, d, limit, s, m);
    } else if m - from < limit {
      HostedEnds(hist, d, limit, s, m);
      assert hist[0..m] == hist[..m];
    } else {
      HostedStep(hist, d, limit, s, m);
      HostedLoadsWholeHistory(hist, d, limit, HostedBack(hist, d, limit, s), from);
      SplitBars(hist, from, m, s.bars);
    }
  }
}
