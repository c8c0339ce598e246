/** A stable sort by an integer key, as the JavaScript array sort promises it, with filtering. */
module StableSort {

  function Filter<T>(xs: seq<T>, p: T -> bool): seq<T> {
    if xs == [] then []
    else Filter(xs[..|xs|-1], p) + if p(xs[|xs|-1]) then [xs[|xs|-1]] else []
  }

  lemma {:induction false} FilterMember<T>(xs: seq<T>, p: T -> bool, x: T)
    ensures x in Filter(xs, p) <==> x in xs && p(x)
  {
    if xs != [] {
      FilterMember(xs[..|xs|-1], p, x);
      assert xs == xs[..|xs|-1] + [xs[|xs|-1]];
    }
  }

  /** Put `x` behind every element whose key is not greater, scanning from the end. */
  function Insert<T>(xs: seq<T>, x: T, key: T -> int): seq<T> {
    if xs == [] || key(xs[|xs|-1]) <= key(x) then xs + [x]
    else Insert(xs[..|xs|-1], x, key) + [xs[|xs|-1]]
  }

  function SortBy<T>(xs: seq<T>, key: T -> int): seq<T> {
    if xs == [] then []
    else Insert(SortBy(xs[..|xs|-1], key), xs[|xs|-1], key)
  }

  ghost predicate Ascending<T>(xs: seq<T>, key: T -> int) {
    forall i, j | 0 <= i <= j < |xs| :: key(xs[i]) <= key(xs[j])
  }

  /** The elements of `xs` whose key is `k`, in the order they occur. */
  function OfKey<T>(xs: seq<T>, key: T -> int, k: int): seq<T> {
    if xs == [] then []
    else OfKey(xs[..|xs|-1], key, k) + if key(xs[|xs|-1]) == k then [xs[|xs|-1]] else []
  }

  lemma {:induction false} InsertAscending<T>(xs: seq<T>, x: T, key: T -> int)
    requires Ascending(xs, key)
    ensures |Insert(xs, x, key)| == |xs| + 1
    ensures Ascending(Insert(xs, x, key), key)
    ensures forall i | 0 <= i <= |xs| :: Insert(xs, x, key)[i] == x || Insert(xs, x, key)[i] in xs
  {
    if xs != [] && key(xs[|xs|-1]) > key(x) {
      InsertAscending(xs[..|xs|-1], x, key);
    }
  }

  lemma {:induction false} InsertOfKey<T>(xs: seq<T>, x: T, key: T -> int, k: int)
    ensures OfKey(Insert(xs, x, key), key, k) == OfKey(xs, key, k) + if key(x) == k then [x] else []
  {
    if xs == [] || key(xs[|xs|-1]) <= key(x) {
      assert (xs + [x])[..|xs|] == xs;
    } else {
      InsertOfKey(xs[..|xs|-1], x, key, k);
      var front := Insert(xs[..|xs|-1], x, key);
      assert (front + [xs[|xs|-1]])[..|front|] == front;
    }
  }

  /** Sorting orders the keys and, key by key, keeps exactly the elements and their order. */
  lemma {:induction false} SortByStable<T>(xs: seq<T>, key: T -> int)
    ensures |SortBy(xs, key)| == |xs|
    ensures Ascending(SortBy(xs, key), key)
    ensures forall k :: OfKey(SortBy(xs, key), key, k) == OfKey(xs, key, k)
    ensures forall x :: x in SortBy(xs, key) <==> x in xs
  {
    if xs != [] {
      var front, last := xs[..|xs|-1], xs[|xs|-1];
      SortByStable(front, key);
      InsertAscending(SortBy(front, key), last, key);
      forall k
        ensures OfKey(SortBy(xs, key), key, k) == OfKey(xs, key, k)
      {
        InsertOfKey(SortBy(front, key), last, key, k);
      }
    }
    forall x
      ensures x in SortBy(xs, key) <==> x in xs
    {
      OfKeyMember(xs, key, x);
      OfKeyMember(SortBy(xs, key), key, x);
    }
  }

  lemma {:induction false} OfKeyMember<T>(xs: seq<T>, key: T -> int, x: T)
    ensures x in OfKey(xs, key, key(x)) <==> x in xs
  {
    if xs != [] {
      OfKeyMember(xs[..|xs|-1], key, x);
      assert xs == xs[..|xs|-1] + [xs[|xs|-1]];
    }
  }

  /** A list already in ascending order is left alone. */
  lemma {:induction false} SortByAscending<T>(xs: seq<T>, key: T -> int)
    requires Ascending(xs, key)
    ensures SortBy(xs, key) == xs
  {
    if xs != [] {
      SortByAscending(xs[..|xs|-1], key);
      assert xs == xs[..|xs|-1] + [xs[|xs|-1]];
      assert |xs| > 1 ==> key(xs[|xs|-2]) <= key(xs[|xs|-1]);
    }
  }

  // ---------------------------------------------------------------- by position

  ghost predicate Climbing(at: seq<nat>) {
    forall i, j | 0 <= i < j < |at| :: at[i] < at[j]
  }

  /** `ys` is `xs` at the positions `at`. */
  ghost predicate At<T>(xs: seq<T>, at: seq<nat>, ys: seq<T>) {
    |at| == |ys| && forall k | 0 <= k < |at| :: at[k] < |xs| && ys[k] == xs[at[k]]
  }

  /** The positions are exactly those of the elements asked for. */
  ghost predicate AllWith<T>(xs: seq<T>, p: T -> bool, at: seq<nat>) {
    forall i :: i in at <==> 0 <= i < |xs| && p(xs[i])
  }

  /** `ys` has the elements of `xs` asked for, each as often as it occurs and in the same order. */
  ghost predicate Picks<T>(xs: seq<T>, p: T -> bool, at: seq<nat>, ys: seq<T>) {
    Climbing(at) && AllWith(xs, p, at) && At(xs, at, ys)
  }

  lemma PickOneMore<T>(xs: seq<T>, p: T -> bool, at: seq<nat>, ys: seq<T>, x: T)
    requires Picks(xs, p, at, ys)
    ensures if p(x) then Picks(xs + [x], p, at + [|xs|], ys + [x]) else Picks(xs + [x], p, at, ys)
  {
    assert forall i :: 0 <= i < |xs| ==> (xs + [x])[i] == xs[i];
    assert forall k :: 0 <= k < |at| ==> at[k] in at;
    var more := at + [|xs|];
    assert forall i :: i in more <==> i in at || i == |xs|;
  }

  lemma {:induction false} FilterPicks<T>(xs: seq<T>, p: T -> bool) returns (at: seq<nat>)
    ensures Picks(xs, p, at, Filter(xs, p))
  {
    at := [];
    if xs != [] {
      var n := |xs| - 1;
      at := FilterPicks(xs[..n], p);
      PickOneMore(xs[..n], p, at, Filter(xs[..n], p), xs[n]);
      assert xs[..n] + [xs[n]] == xs;
      if p(xs[n]) {
        at := at + [n];
      }
    }
  }

  /** The order of a stable sort: by key, and by position where keys are equal. */
  predicate Precedes<T>(xs: seq<T>, key: T -> int, i: nat, j: nat)
    requires i < |xs| && j < |xs|
  {
    key(xs[i]) < key(xs[j]) || (key(xs[i]) == key(xs[j]) && i < j)
  }

  ghost predicate InOrder<T>(xs: seq<T>, key: T -> int, at: seq<nat>) {
    && (forall k | 0 <= k < |at| :: at[k] < |xs|)
    && forall k, l | 0 <= k < l < |at| :: Precedes(xs, key, at[k], at[l])
  }

  lemma {:induction false} InsertPlace<T>(xs: seq<T>, x: T, key: T -> int) returns (k: nat)
    requires Ascending(xs, key)
    ensures k <= |xs| && Insert(xs, x, key) == xs[..k] + [x] + xs[k..]
    ensures (forall i | 0 <= i < k :: key(xs[i]) <= key(x)) && (forall i | k <= i < |xs| :: key(x) < key(xs[i]))
  {
    if xs == [] || key(xs[|xs|-1]) <= key(x) {
      k := |xs|;
    } else {
      var n := |xs| - 1;
      k := InsertPlace(xs[..n], x, key);
      assert xs[..n][..k] == xs[..k] && xs[..n][k..] + [xs[n]] == xs[k..];
    }
  }

  lemma PlaceOneMore<T>(xs: seq<T>, x: T, key: T -> int, at: seq<nat>, ys: seq<T>, k: nat)
    requires InOrder(xs, key, at) && At(xs, at, ys) && k <= |at|
    requires (forall i | 0 <= i < k :: key(ys[i]) <= key(x)) && (forall i | k <= i < |at| :: key(x) < key(ys[i]))
    ensures InOrder(xs + [x], key, at[..k] + [|xs|] + at[k..])
    ensures At(xs + [x], at[..k] + [|xs|] + at[k..], ys[..k] + [x] + ys[k..])
  {
    var more, where := xs + [x], at[..k] + [|xs|] + at[k..];
    assert forall i | 0 <= i < |xs| :: more[i] == xs[i];
    assert forall i | 0 <= i < |where| :: where[i] == if i < k then at[i] else if i == k then |xs| else at[i - 1];
    assert At(more, where, ys[..k] + [x] + ys[k..]);
    forall i, l | 0 <= i < l < |where|
      ensures Precedes(more, key, where[i], where[l])
    {
      if i != k && l != k {
        assert Precedes(xs, key, if i < k then at[i] else at[i - 1], if l < k then at[l] else at[l - 1]);
      }
    }
  }

  /** Every position, each once. */
  ghost predicate Everywhere(n: nat, at: seq<nat>) {
    |at| == n && forall i :: i in at <==> 0 <= i < n
  }

  lemma EverywhereElse(n: nat, at: seq<nat>, k: nat)
    requires Everywhere(n, at) && k <= |at|
    ensures Everywhere(n + 1, at[..k] + [n] + at[k..])
  {
    assert at == at[..k] + at[k..];
    assert forall i :: i in at <==> i in at[..k] || i in at[k..];
  }

  /** Sorting puts the elements in the order of their keys and, among equal keys, of their positions. */
  lemma {:induction false} SortPlaces<T>(xs: seq<T>, key: T -> int) returns (at: seq<nat>)
    ensures InOrder(xs, key, at) && Everywhere(|xs|, at) && At(xs, at, SortBy(xs, key))
  {
    at := [];
    if xs != [] {
      var n := |xs| - 1;
      var front, x := xs[..n], xs[n];
      at := SortPlaces(front, key);
      SortByStable(front, key);
      var k := InsertPlace(SortBy(front, key), x, key);
      PlaceOneMore(front, x, key, at, SortBy(front, key), k);
      assert front + [x] == xs;
      EverywhereElse(n, at, k);
      at := at[..k] + [n] + at[k..];
    }
  }
}
