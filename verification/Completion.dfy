/** Indicator-name completion: prefix matches first, then names a few typos away. */
module Completion {
  import opened StableSort
  import opened EditDistance

  const MAX_SUGGESTIONS := 5
  const MAX_DISTANCE := 2

  datatype Entry = Entry(name: string, caption: string)

  function Matches(prefix: string): Entry -> bool {
    (e: Entry) => prefix <= e.name
  }

  function FarFrom(prefix: string): Entry -> int {
    (e: Entry) => Dist(prefix, e.name)
  }

  function IsNear(prefix: string): Entry -> bool {
    (e: Entry) => !(prefix <= e.name) && Dist(prefix, e.name) <= MAX_DISTANCE
  }

  function ByPrefix(prefix: string, catalog: seq<Entry>): seq<Entry> {
    Filter(catalog, Matches(prefix))
  }

  /** Names that do not match the prefix but are at most two edits away, closest first. */
  function Fuzzy(prefix: string, catalog: seq<Entry>): seq<Entry> {
    SortBy(Filter(catalog, IsNear(prefix)), FarFrom(prefix))
  }

  function Candidates(prefix: string, catalog: seq<Entry>): seq<Entry> {
    var matches := ByPrefix(prefix, catalog);
    if |matches| < MAX_SUGGESTIONS && |prefix| >= 2 then matches + Fuzzy(prefix, catalog) else matches
  }

  function Suggestions(prefix: string, catalog: seq<Entry>): seq<Entry> {
    var all := Candidates(prefix, catalog);
    if |all| <= MAX_SUGGESTIONS then all else all[..MAX_SUGGESTIONS]
  }

  predicate Widened(prefix: string, catalog: seq<Entry>) {
    |ByPrefix(prefix, catalog)| < MAX_SUGGESTIONS && |prefix| >= 2
  }

  lemma CandidateMember(prefix: string, catalog: seq<Entry>, e: Entry)
    ensures e in Candidates(prefix, catalog)
            <==> e in catalog && (prefix <= e.name || (Widened(prefix, catalog) && Dist(prefix, e.name) <= 2))
  {
    FilterMember(catalog, Matches(prefix), e);
    FilterMember(catalog, IsNear(prefix), e);
    SortByStable(Filter(catalog, IsNear(prefix)), FarFrom(prefix));
  }

  /** What is offered: catalogue entries only, prefix matches or names within two edits, and therefore
      never a name whose length is off by more than two. */
  lemma {:induction false} SuggestionsAreClose(prefix: string, catalog: seq<Entry>, e: Entry)
    requires e in Suggestions(prefix, catalog)
    ensures e in catalog
    ensures prefix <= e.name || (|prefix| >= 2 && Dist(prefix, e.name) <= 2 && |prefix| - 2 <= |e.name| <= |prefix| + 2)
  {
    assert e in Candidates(prefix, catalog);
    CandidateMember(prefix, catalog, e);
    DistBounds(prefix, e.name);
  }

  /** What is left out: every catalogue entry that matches is there, and every one within two edits if the prefix has
      two letters and matches are few, unless the list is full. */
  lemma SuggestionsAreComplete(prefix: string, catalog: seq<Entry>, e: Entry)
    requires e in catalog && (prefix <= e.name || (Widened(prefix, catalog) && Dist(prefix, e.name) <= 2))
    ensures e in Suggestions(prefix, catalog) || |Suggestions(prefix, catalog)| == MAX_SUGGESTIONS
  {
    CandidateMember(prefix, catalog, e);
  }

  lemma Taken(xs: seq<Entry>, n: nat, k: nat)
    requires n <= |xs| && k < |xs|
    ensures k < n ==> xs[k] in xs[..n]
  {
    if k < n {
      assert xs[..n][k] == xs[k];
    }
  }

  /** What is cut: an entry is only left out when the list is full, and then nothing shown is farther away than it.
      Matches come before all others, closer names before farther ones. */
  lemma NothingCloserIsCut(prefix: string, catalog: seq<Entry>, shown: Entry, cut: Entry)
    requires shown in Suggestions(prefix, catalog)
    requires cut in Candidates(prefix, catalog) && cut !in Suggestions(prefix, catalog)
    ensures |Suggestions(prefix, catalog)| == MAX_SUGGESTIONS
    ensures prefix <= shown.name || (!(prefix <= cut.name) && Dist(prefix, shown.name) <= Dist(prefix, cut.name))
  {
    var all := Candidates(prefix, catalog);
    var i :| 0 <= i < MAX_SUGGESTIONS && all[i] == shown;
    var k :| 0 <= k < |all| && all[k] == cut;
    if |all| > MAX_SUGGESTIONS {
      Taken(all, MAX_SUGGESTIONS, k);
    }
    CandidatesInOrder(prefix, catalog, i, k);
  }

  lemma CandidateAt(prefix: string, catalog: seq<Entry>, i: nat)
    requires i < |Candidates(prefix, catalog)|
    ensures var matches := ByPrefix(prefix, catalog);
            if i < |matches| then Candidates(prefix, catalog)[i] == matches[i]
            else i - |matches| < |Fuzzy(prefix, catalog)| && Candidates(prefix, catalog)[i] == Fuzzy(prefix, catalog)[i - |matches|]
  {
  }

  lemma MatchAt(prefix: string, catalog: seq<Entry>, i: nat)
    requires i < |ByPrefix(prefix, catalog)|
    ensures prefix <= ByPrefix(prefix, catalog)[i].name
  {
    FilterMember(catalog, Matches(prefix), ByPrefix(prefix, catalog)[i]);
  }

  lemma CandidatesInOrder(prefix: string, catalog: seq<Entry>, i: nat, k: nat)
    requires i <= k < |Candidates(prefix, catalog)|
    ensures var a, b := Candidates(prefix, catalog)[i], Candidates(prefix, catalog)[k];
            prefix <= a.name || (!(prefix <= b.name) && Dist(prefix, a.name) <= Dist(prefix, b.name))
  {
    var n := |ByPrefix(prefix, catalog)|;
    CandidateAt(prefix, catalog, i);
    CandidateAt(prefix, catalog, k);
    if i < n {
      MatchAt(prefix, catalog, i);
    } else {
      FuzzyInOrder(prefix, catalog, i - n, k - n);
      FuzzyMember(prefix, catalog, Fuzzy(prefix, catalog)[k - n]);
    }
  }

  lemma FuzzyInOrder(prefix: string, catalog: seq<Entry>, i: nat, k: nat)
    requires i <= k < |Fuzzy(prefix, catalog)|
    ensures Dist(prefix, Fuzzy(prefix, catalog)[i].name) <= Dist(prefix, Fuzzy(prefix, catalog)[k].name)
  {
    SortByStable(Filter(catalog, IsNear(prefix)), FarFrom(prefix));
    var a, b := Fuzzy(prefix, catalog)[i], Fuzzy(prefix, catalog)[k];
    assert FarFrom(prefix)(a) <= FarFrom(prefix)(b);
  }

  lemma FuzzyMember(prefix: string, catalog: seq<Entry>, e: Entry)
    requires e in Fuzzy(prefix, catalog)
    ensures !(prefix <= e.name)
  {
    SortByStable(Filter(catalog, IsNear(prefix)), FarFrom(prefix));
    FilterMember(catalog, IsNear(prefix), e);
  }

  /** The fuzzy part runs from the closest name to the farthest, and names at the same distance keep
      their catalogue order. */
  lemma FuzzyOrder(prefix: string, catalog: seq<Entry>)
    ensures Ascending(Fuzzy(prefix, catalog), FarFrom(prefix))
    ensures forall k :: OfKey(Fuzzy(prefix, catalog), FarFrom(prefix), k)
                        == OfKey(Filter(catalog, IsNear(prefix)), FarFrom(prefix), k)
  {
    SortByStable(Filter(catalog, IsNear(prefix)), FarFrom(prefix));
  }

  // ---------------------------------------------------------------- the list, entry by entry

  /** The entry does not start with the prefix, but is at most two edits away. */
  predicate Nearby(prefix: string, e: Entry) {
    !(prefix <= e.name) && Dist(prefix, e.name) <= 2
  }

  /** Closer first, and at the same distance in catalogue order. */
  predicate Closer(prefix: string, catalog: seq<Entry>, i: nat, j: nat)
    requires i < |catalog| && j < |catalog|
  {
    var d, e := Dist(prefix, catalog[i].name), Dist(prefix, catalog[j].name);
    d < e || (d == e && i < j)
  }

  /** The positions of the entries that start with the prefix, in catalogue order. */
  ghost predicate StartPositions(prefix: string, catalog: seq<Entry>, at: seq<nat>) {
    && (forall i, j :: 0 <= i < j < |at| ==> at[i] < at[j])
    && (forall i :: i in at <==> 0 <= i < |catalog| && prefix <= catalog[i].name)
  }

  /** The positions of the entries nearby, closest first. */
  ghost predicate NearPositions(prefix: string, catalog: seq<Entry>, at: seq<nat>) {
    && (forall i :: i in at <==> 0 <= i < |catalog| && Nearby(prefix, catalog[i]))
    && (forall k :: 0 <= k < |at| ==> at[k] < |catalog|)
    && (forall k, l :: 0 <= k < l < |at| ==> Closer(prefix, catalog, at[k], at[l]))
  }

  /** The list is what stands at the first five of the positions. */
  ghost predicate Lists(catalog: seq<Entry>, at: seq<nat>, list: seq<Entry>) {
    && |list| == (if |at| < 5 then |at| else 5)
    && forall k :: 0 <= k < |list| ==> at[k] < |catalog| && list[k] == catalog[at[k]]
  }

  lemma PrefixPositions(prefix: string, catalog: seq<Entry>) returns (at: seq<nat>)
    ensures StartPositions(prefix, catalog, at) && At(catalog, at, ByPrefix(prefix, catalog))
  {
    at := FilterPicks(catalog, Matches(prefix));
    assert forall i :: 0 <= i < |catalog| ==> Matches(prefix)(catalog[i]) == (prefix <= catalog[i].name);
  }

  lemma Through(catalog: seq<Entry>, at: seq<nat>, some: seq<Entry>, places: seq<nat>, list: seq<Entry>) returns (near: seq<nat>)
    requires At(catalog, at, some) && At(some, places, list)
    ensures |near| == |list| && At(catalog, near, list)
    ensures forall k :: 0 <= k < |near| ==> near[k] == at[places[k]]
  {
    near := seq(|places|, k requires 0 <= k < |places| => at[places[k]]);
  }

  lemma ThroughAll(at: seq<nat>, places: seq<nat>, near: seq<nat>)
    requires Everywhere(|at|, places) && |near| == |places|
    requires forall k :: 0 <= k < |near| ==> places[k] < |at| && near[k] == at[places[k]]
    ensures forall i :: i in near <==> i in at
  {
    forall i | i in at
      ensures i in near
    {
      var j :| 0 <= j < |at| && at[j] == i;
      assert j in places;
      var k :| 0 <= k < |places| && places[k] == j;
      assert near[k] == i;
    }
  }

  lemma FuzzyPositions(prefix: string, catalog: seq<Entry>) returns (near: seq<nat>)
    ensures NearPositions(prefix, catalog, near) && At(catalog, near, Fuzzy(prefix, catalog))
  {
    var some := Filter(catalog, IsNear(prefix));
    var at := FilterPicks(catalog, IsNear(prefix));
    var places := SortPlaces(some, FarFrom(prefix));
    near := Through(catalog, at, some, places, Fuzzy(prefix, catalog));
    ThroughAll(at, places, near);
    assert forall i :: 0 <= i < |catalog| ==> IsNear(prefix)(catalog[i]) == Nearby(prefix, catalog[i]);
    forall k, l | 0 <= k < l < |near|
      ensures Closer(prefix, catalog, near[k], near[l])
    {
      assert Precedes(some, FarFrom(prefix), places[k], places[l]);
    }
  }

  lemma AtTogether(catalog: seq<Entry>, a: seq<nat>, xs: seq<Entry>, b: seq<nat>, ys: seq<Entry>)
    requires At(catalog, a, xs) && At(catalog, b, ys)
    ensures At(catalog, a + b, xs + ys)
  {
  }

  /** The list shown: the catalogue entries that start with the prefix, in catalogue order; behind them, if they are
      fewer than five and the prefix has two letters, the other entries at most two edits away, closest first and at
      the same distance in catalogue order; and of all that the first five. */
  lemma {:induction false} SuggestionsAre(prefix: string, catalog: seq<Entry>) returns (starts: seq<nat>, near: seq<nat>)
    ensures StartPositions(prefix, catalog, starts) && NearPositions(prefix, catalog, near)
    ensures Lists(catalog, if |starts| < 5 && |prefix| >= 2 then starts + near else starts, Suggestions(prefix, catalog))
  {
    starts := PrefixPositions(prefix, catalog);
    near := FuzzyPositions(prefix, catalog);
    AtTogether(catalog, starts, ByPrefix(prefix, catalog), near, Fuzzy(prefix, catalog));
  }

  lemma NoPositionTwice(prefix: string, catalog: seq<Entry>, starts: seq<nat>, near: seq<nat>)
    requires StartPositions(prefix, catalog, starts) && NearPositions(prefix, catalog, near)
    ensures forall k, l :: 0 <= k < l < |starts + near| ==> (starts + near)[k] != (starts + near)[l]
  {
    var all := starts + near;
    forall k, l | 0 <= k < l < |all|
      ensures all[k] != all[l]
    {
      if k < |starts| <= l {
        assert starts[k] in starts && near[l - |starts|] in near;
      } else if k >= |starts| {
        assert Closer(prefix, catalog, near[k - |starts|], near[l - |starts|]);
      }
    }
  }

  /** No catalogue entry is suggested twice. */
  lemma SuggestedOnce(prefix: string, catalog: seq<Entry>, k: nat, l: nat)
    requires forall i, j :: 0 <= i < j < |catalog| ==> catalog[i] != catalog[j]
    requires k < l < |Suggestions(prefix, catalog)|
    ensures Suggestions(prefix, catalog)[k] != Suggestions(prefix, catalog)[l]
  {
    var starts, near := SuggestionsAre(prefix, catalog);
    NoPositionTwice(prefix, catalog, starts, near);
    var all := starts + near;
    assert forall i :: 0 <= i < |starts| ==> all[i] == starts[i];
    var i, j := all[k], all[l];
    assert i != j && i < |catalog| && j < |catalog|;
    assert if i < j then catalog[i] != catalog[j] else catalog[j] != catalog[i];
  }
}
