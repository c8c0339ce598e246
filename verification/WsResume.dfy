/** Reconnecting: what a client has seen of a channel after any number of connections, each of which starts its
    consumers after the sequence number the client sends. The stream keeps its messages, and a consumer hands
    over the messages of its subject in stream order. */
module WsResume {
  import opened WsPipeline
  import opened WsChannels
  import opened Options
  import Subscriptions = WsSubscriptions

  /** One account channel: its stream at the end of the story, and the owned ids with a consumer each.
      The message at index i has sequence number i + 1. */
  datatype World = World(userId: string, channel: Channel, ids: seq<string>, log: seq<Message>)

  predicate Numbered(w: World) {
    forall i :: 0 <= i < |w.log| ==> w.log[i].sequence == i + 1
  }

  /** What a consumer that starts after sequence number `lo` hands over up to sequence number `hi`. */
  function Feed(w: World, j: nat, lo: nat, hi: nat): seq<Message>
    requires j < |w.ids| && hi <= |w.log|
  {
    if hi <= lo then []
    else Feed(w, j, lo, hi - 1) + (if Matches(w.channel, w.ids[j], w.log[hi - 1].subject) then [w.log[hi - 1]] else [])
  }

  predicate Relevant(w: World, j: nat, m: Message)
    requires j < |w.ids|
  {
    Matches(w.channel, w.ids[j], m.subject) && (m.userId == "" || m.userId == w.userId) && m.encodes
  }

  /** The sequence numbers in (lo, hi] that the user should see for one id, in order. */
  function Scoped(w: World, j: nat, lo: nat, hi: nat): seq<nat>
    requires j < |w.ids| && hi <= |w.log|
  {
    if hi <= lo then [] else Scoped(w, j, lo, hi - 1) + (if Relevant(w, j, w.log[hi - 1]) then [hi] else [])
  }

  /** The sequence number an envelope shows the client; replies and bars have none. */
  function SequenceOf(f: Frame): nat {
    if f.body.Envelope? then f.body.sequence else 0
  }

  function Sequences(frames: seq<Frame>): seq<nat> {
    seq(|frames|, i requires 0 <= i < |frames| => SequenceOf(frames[i]))
  }

  // ---------------------------------------------------------------- one connection

  /** One connection: the sequence number sent in `hello` (zero for none), the end of the stream when each
      consumer was created, and everything that then happened on the connection. */
  datatype Visit = Visit(resume: nat, ends: nat -> nat, conn: Client, run: seq<Action>)

  /** A consumer starts after the resume point if there is one, else at the end of the stream. */
  function StartOf(v: Visit, j: nat): nat {
    if v.resume > 0 then v.resume else v.ends(j)
  }

  /** The number a `hello` carries for a channel, zero if none. */
  function ResumeNumber(resume: map<string, nat>, ch: string): nat {
    if ch in resume then resume[ch] else 0
  }

  /** That is where the consumers made for the channel start. */
  lemma StartIsConsumerStart(w: World, v: Visit, j: nat, resume: map<string, nat>)
    requires j < |w.ids| && v.resume == ResumeNumber(resume, w.channel.ch)
    ensures StartOf(v, j) == match Subscriptions.ConsumerFor(w.channel, w.ids[j], resume).after
                             case None => v.ends(j)
                             case Some(s) => s
  {
  }

  /** The connection is the user's own, and each consumer has handed over some of what it should. */
  ghost predicate Honest(w: World, v: Visit) {
    && v.conn.userId == w.userId
    && CanRun(v.conn, v.run)
    && (forall j: nat :: j < |w.ids| ==> Handed(v.run, j) <= Feed(w, j, StartOf(v, j), |w.log|))
  }

  /** The sequence numbers written to the client for one id. */
  function Got(v: Visit, j: nat): seq<nat> {
    if CanRun(v.conn, v.run) then Sequences(Of(Account(j), After(v.conn, v.run).written)) else []
  }

  lemma {:induction false} FramesPrefix(c: Client, sub: nat, a: seq<Message>, b: seq<Message>)
    requires a <= b
    ensures Frames(c, sub, a) <= Frames(c, sub, b)
    decreases |b|
  {
    if |a| < |b| {
      FramesPrefix(c, sub, a, b[..|b| - 1]);
    } else {
      assert a == b;
    }
  }

  lemma SequencesSnoc(frames: seq<Frame>, f: Frame)
    ensures Sequences(frames + [f]) == Sequences(frames) + [SequenceOf(f)]
  {
  }

  lemma FramesStep(c: Client, sub: nat, messages: seq<Message>, m: Message)
    ensures Sequences(Frames(c, sub, messages + [m]))
         == Sequences(Frames(c, sub, messages)) + (if InScope(c, m) then [m.sequence] else [])
  {
    FramesSnoc(c, sub, messages, m);
    if InScope(c, m) {
      SequencesSnoc(Frames(c, sub, messages), Wrap(c, sub, m));
    }
  }

  lemma {:induction false} FeedIsScoped(w: World, c: Client, j: nat, lo: nat, hi: nat)
    requires Numbered(w) && c.userId == w.userId && j < |w.ids| && hi <= |w.log|
    ensures Sequences(Frames(c, j, Feed(w, j, lo, hi))) == Scoped(w, j, lo, hi)
  {
    if hi > lo {
      FeedIsScoped(w, c, j, lo, hi - 1);
      var m := w.log[hi - 1];
      assert m.sequence == hi;
      FramesStep(c, j, Feed(w, j, lo, hi - 1), m);
      if Matches(w.channel, w.ids[j], m.subject) {
        assert Relevant(w, j, m) == InScope(c, m);
      } else {
        assert Feed(w, j, lo, hi) == Feed(w, j, lo, hi - 1);
      }
    }
  }

  lemma SequencesPrefix(a: seq<Frame>, b: seq<Frame>)
    requires a <= b
    ensures Sequences(a) <= Sequences(b)
  {
  }

  /** A connection gives its client, per id, the messages after its starting point from the first one on,
      without a gap, up to wherever it was cut off. */
  lemma {:induction false} VisitGivesPrefix(w: World, v: Visit, j: nat)
    requires Numbered(w) && Honest(w, v) && j < |w.ids|
    ensures Got(v, j) <= Scoped(w, j, StartOf(v, j), |w.log|)
  {
    var handed, feed := Handed(v.run, j), Feed(w, j, StartOf(v, j), |w.log|);
    Delivery(v.conn, v.run, j);
    FramesPrefix(v.conn, j, handed, feed);
    FeedIsScoped(w, v.conn, j, StartOf(v, j), |w.log|);
    SequencesPrefix(Of(Account(j), After(v.conn, v.run).written), Frames(v.conn, j, feed));
  }

  // ---------------------------------------------------------------- sequence numbers in scope

  lemma {:induction false} ScopedSplit(w: World, j: nat, lo: nat, mid: nat, hi: nat)
    requires j < |w.ids| && lo <= mid <= hi <= |w.log|
    ensures Scoped(w, j, lo, hi) == Scoped(w, j, lo, mid) + Scoped(w, j, mid, hi)
    decreases hi
  {
    if mid < hi {
      ScopedSplit(w, j, lo, mid, hi - 1);
    }
  }

  /** Strictly ascending: each message in scope is there once. */
  lemma {:induction false} ScopedAscending(w: World, j: nat, lo: nat, hi: nat)
    requires j < |w.ids| && hi <= |w.log|
    ensures forall i :: 0 <= i < |Scoped(w, j, lo, hi)| ==> lo < Scoped(w, j, lo, hi)[i] <= hi
    ensures forall i, k :: 0 <= i < k < |Scoped(w, j, lo, hi)| ==> Scoped(w, j, lo, hi)[i] < Scoped(w, j, lo, hi)[k]
  {
    if hi > lo {
      ScopedAscending(w, j, lo, hi - 1);
    }
  }

  lemma {:induction false} ScopedMember(w: World, j: nat, lo: nat, hi: nat, s: nat)
    requires j < |w.ids| && hi <= |w.log|
    ensures s in Scoped(w, j, lo, hi) <==> lo < s <= hi && Relevant(w, j, w.log[s - 1])
  {
    if hi > lo {
      ScopedMember(w, j, lo, hi - 1, s);
    }
  }

  /** A non-empty beginning of the messages in scope is all of them up to its last one. */
  lemma {:induction false} PrefixIsScoped(w: World, j: nat, lo: nat, hi: nat, seen: seq<nat>)
    requires j < |w.ids| && hi <= |w.log|
    requires seen <= Scoped(w, j, lo, hi) && seen != []
    ensures lo < seen[|seen| - 1] <= hi && seen == Scoped(w, j, lo, seen[|seen| - 1])
    decreases hi
  {
    assert hi > lo;
    if |seen| == |Scoped(w, j, lo, hi)| {
      assert seen == Scoped(w, j, lo, hi);
      if !Relevant(w, j, w.log[hi - 1]) {
        PrefixIsScoped(w, j, lo, hi - 1, seen);
      }
    } else {
      PrefixIsScoped(w, j, lo, hi - 1, seen);
    }
  }

  /** Messages have one owner: with distinct ids that have no dots, a sequence number is due to one id at most. */
  lemma DueToOne(w: World, i: nat, j: nat, lo: nat, lo': nat, s: nat)
    requires i < |w.ids| && j < |w.ids| && Distinct(w.ids) && '.' !in w.ids[i] && '.' !in w.ids[j]
    requires s in Scoped(w, i, lo, |w.log|) && s in Scoped(w, j, lo', |w.log|)
    ensures i == j
  {
    ScopedMember(w, i, lo, |w.log|, s);
    ScopedMember(w, j, lo', |w.log|, s);
    OneOwner(w.channel, w.ids[i], w.ids[j], w.log[s - 1].subject);
  }

  lemma {:induction false} SameScope(w: World, i: nat, j: nat, lo: nat, hi: nat)
    requires i < |w.ids| && j < |w.ids| && w.ids[i] == w.ids[j] && hi <= |w.log|
    ensures Scoped(w, i, lo, hi) == Scoped(w, j, lo, hi)
  {
    if hi > lo {
      SameScope(w, i, j, lo, hi - 1);
    }
  }

  // ---------------------------------------------------------------- connections read to the end

  /** Every consumer has handed over all it should, and nothing is on its way any more. */
  ghost predicate ReadToEnd(w: World, v: Visit) {
    && Honest(w, v)
    && (forall j: nat :: j < |w.ids| ==> Handed(v.run, j) == Feed(w, j, StartOf(v, j), |w.log|))
    && Work(After(v.conn, v.run)) == 0
  }

  /** Then the client has all there is after its starting point. */
  lemma VisitGivesAll(w: World, v: Visit, j: nat)
    requires Numbered(w) && ReadToEnd(w, v) && j < |w.ids|
    ensures Got(v, j) == Scoped(w, j, StartOf(v, j), |w.log|)
  {
    DrainedMeansDelivered(v.conn, v.run, j);
    FeedIsScoped(w, v.conn, j, StartOf(v, j), |w.log|);
  }

  /** An id listed twice is subscribed to twice, and a resumed client is sent each of its messages twice. */
  lemma ListedTwice(w: World, v: Visit, i: nat, j: nat)
    requires Numbered(w) && ReadToEnd(w, v) && v.resume > 0
    requires i < |w.ids| && j < |w.ids| && i != j && w.ids[i] == w.ids[j]
    ensures Got(v, i) == Got(v, j) == Scoped(w, i, v.resume, |w.log|)
  {
    VisitGivesAll(w, v, i);
    VisitGivesAll(w, v, j);
    SameScope(w, i, j, v.resume, |w.log|);
  }

  // ---------------------------------------------------------------- what a client keeps

  /** The last sequence number seen, zero if there is none. */
  function Recorded(seen: seq<nat>): nat {
    if seen == [] then 0 else seen[|seen| - 1]
  }

  /** A client that drops what is not newer than what it has. */
  function Merge(seen: seq<nat>, got: seq<nat>): seq<nat> {
    if got == [] then seen
    else
      var before, x := Merge(seen, got[..|got| - 1]), got[|got| - 1];
      if x > Recorded(before) then before + [x] else before
  }

  lemma MergeSnoc(seen: seq<nat>, got: seq<nat>, x: nat)
    ensures Merge(seen, got + [x]) == if x > Recorded(Merge(seen, got)) then Merge(seen, got) + [x] else Merge(seen, got)
  {
    assert (got + [x])[..|got|] == got;
  }

  lemma {:induction false} MergeMember(seen: seq<nat>, got: seq<nat>, x: nat)
    ensures x in Merge(seen, got) ==> x in seen || x in got
    decreases |got|
  {
    if got != [] {
      MergeMember(seen, got[..|got| - 1], x);
    }
  }

  /** What was seen is all that was in scope from an origin up to the last number seen. */
  predicate Known(w: World, j: nat, origin: nat, seen: seq<nat>)
    requires j < |w.ids|
  {
    Recorded(seen) <= |w.log| && seen == Scoped(w, j, origin, Recorded(seen))
  }

  function Min(a: nat, b: nat): nat {
    if a < b then a else b
  }

  function Max(a: nat, b: nat): nat {
    if a < b then b else a
  }

  /** Nothing that was in scope from the origin up to s is unseen. */
  ghost predicate Covers(w: World, j: nat, origin: nat, seen: seq<nat>, s: nat)
    requires j < |w.ids|
  {
    forall x :: x in Scoped(w, j, origin, Min(s, |w.log|)) ==> x in seen
  }

  lemma LastScoped(w: World, j: nat, lo: nat, hi: nat)
    requires j < |w.ids| && hi <= |w.log|
    ensures Recorded(Scoped(w, j, lo, hi)) <= hi
    ensures lo < hi && Relevant(w, j, w.log[hi - 1]) ==> Recorded(Scoped(w, j, lo, hi)) == hi
  {
    ScopedAscending(w, j, lo, hi);
  }

  predicate Ascending(xs: seq<nat>) {
    forall i, k :: 0 <= i < k < |xs| ==> xs[i] < xs[k]
  }

  /** Nothing newer changes nothing. */
  lemma {:induction false} MergeOld(seen: seq<nat>, got: seq<nat>)
    requires forall i :: 0 <= i < |got| ==> got[i] <= Recorded(seen)
    ensures Merge(seen, got) == seen
    decreases |got|
  {
    if got != [] {
      MergeOld(seen, got[..|got| - 1]);
    }
  }

  /** All of it newer, and in order, is all taken. */
  lemma {:induction false} MergeNewer(seen: seq<nat>, got: seq<nat>)
    requires Ascending(got) && (got != [] ==> Recorded(seen) < got[0])
    ensures Merge(seen, got) == seen + got
    decreases |got|
  {
    if got != [] {
      var init := got[..|got| - 1];
      MergeNewer(seen, init);
      assert seen + init + [got[|got| - 1]] == seen + got;
    } else {
      assert seen + got == seen;
    }
  }

  lemma {:induction false} MergeConcat(seen: seq<nat>, a: seq<nat>, b: seq<nat>)
    ensures Merge(seen, a + b) == Merge(Merge(seen, a), b)
    decreases |b|
  {
    if b == [] {
      assert a + b == a;
    } else {
      var init := b[..|b| - 1];
      MergeConcat(seen, a, init);
      assert a + b == a + init + [b[|b| - 1]];
      MergeSnoc(seen, a + init, b[|b| - 1]);
    }
  }

  /** Merging a feed that starts after the last number seen. */
  lemma MergeAfter(w: World, j: nat, seen: seq<nat>, s: nat, h: nat)
    requires j < |w.ids| && Recorded(seen) <= s && h <= |w.log|
    ensures Merge(seen, Scoped(w, j, s, h)) == seen + Scoped(w, j, s, h)
  {
    ScopedAscending(w, j, s, h);
    MergeNewer(seen, Scoped(w, j, s, h));
  }

  lemma MergeBefore(w: World, j: nat, seen: seq<nat>, s: nat, h: nat)
    requires j < |w.ids| && h <= Recorded(seen) && h <= |w.log|
    ensures Merge(seen, Scoped(w, j, s, h)) == seen
  {
    ScopedAscending(w, j, s, h);
    MergeOld(seen, Scoped(w, j, s, h));
  }

  /** Merging a feed that starts at or before it. */
  lemma MergeOverlap(w: World, j: nat, origin: nat, r: nat, s: nat, h: nat)
    requires j < |w.ids| && origin <= r <= |w.log| && s <= r && h <= |w.log|
    requires Recorded(Scoped(w, j, origin, r)) == r
    ensures Merge(Scoped(w, j, origin, r), Scoped(w, j, s, h)) == Scoped(w, j, origin, Max(r, h))
  {
    var seen := Scoped(w, j, origin, r);
    if h <= r {
      MergeBefore(w, j, seen, s, h);
    } else {
      MergeConcat(seen, Scoped(w, j, s, r), Scoped(w, j, r, h));
      MergeBefore(w, j, seen, s, r);
      MergeAfter(w, j, seen, r, h);
      ScopedSplit(w, j, s, r, h);
      ScopedSplit(w, j, origin, r, h);
    }
  }

  lemma FirstIn(xs: seq<nat>)
    ensures xs == [] || xs[0] in xs
  {
  }

  /** A client that covers s, and has seen nothing after it, has seen just what was in scope up to s. */
  lemma CoversIs(w: World, j: nat, origin: nat, seen: seq<nat>, s: nat)
    requires j < |w.ids| && Known(w, j, origin, seen) && Covers(w, j, origin, seen, s)
    requires Recorded(seen) <= s <= |w.log| && (seen != [] || origin <= s)
    ensures origin <= s && seen == Scoped(w, j, origin, s)
  {
    var r := Recorded(seen);
    ScopedAscending(w, j, origin, r);
    if seen == [] {
      FirstIn(Scoped(w, j, origin, s));
    } else {
      assert origin < seen[0] <= r;
      ScopedSplit(w, j, origin, r, s);
      ScopedAscending(w, j, r, s);
      var gap := Scoped(w, j, r, s);
      assert forall x :: x in gap ==> x in Scoped(w, j, origin, r) + gap;
      FirstIn(gap);
    }
  }

  /** One more connection, cut off anywhere, extends what is known. */
  lemma MergeKnown(w: World, j: nat, origin: nat, seen: seq<nat>, s: nat, got: seq<nat>)
    requires j < |w.ids| && Known(w, j, origin, seen) && Covers(w, j, origin, seen, s) && (seen != [] || origin <= s)
    requires got <= Scoped(w, j, s, |w.log|)
    ensures Known(w, j, origin, Merge(seen, got))
  {
    if got != [] {
      var r, l := Recorded(seen), got[|got| - 1];
      PrefixIsScoped(w, j, s, |w.log|, got);
      ScopedMember(w, j, s, l, l);
      if s <= r {
        ScopedAscending(w, j, origin, r);
        MergeOverlap(w, j, origin, r, s, l);
        LastScoped(w, j, origin, l);
      } else {
        CoversIs(w, j, origin, seen, s);
        MergeAfter(w, j, seen, s, l);
        ScopedSplit(w, j, origin, s, l);
        LastScoped(w, j, origin, l);
      }
    }
  }

  lemma CoveredIsComplete(w: World, j: nat, origin: nat, seen: seq<nat>, s: nat)
    requires j < |w.ids| && Known(w, j, origin, seen) && Covers(w, j, origin, seen, s) && (seen != [] || origin <= s)
    ensures Merge(seen, Scoped(w, j, s, |w.log|)) == Scoped(w, j, origin, |w.log|)
  {
    var r, n := Recorded(seen), |w.log|;
    ScopedAscending(w, j, origin, r);
    if s <= r {
      MergeOverlap(w, j, origin, r, s, n);
    } else if s <= n {
      CoversIs(w, j, origin, seen, s);
      MergeAfter(w, j, seen, s, n);
      ScopedSplit(w, j, origin, s, n);
    } else if seen != [] || origin <= n {
      CoversIs(w, j, origin, seen, n);
    }
  }

  lemma CompleteIsCovered(w: World, j: nat, origin: nat, seen: seq<nat>, s: nat)
    requires j < |w.ids| && Merge(seen, Scoped(w, j, s, |w.log|)) == Scoped(w, j, origin, |w.log|)
    ensures Covers(w, j, origin, seen, s)
  {
    forall x | x in Scoped(w, j, origin, Min(s, |w.log|))
      ensures x in seen
    {
      ScopedMember(w, j, origin, Min(s, |w.log|), x);
      ScopedMember(w, j, origin, |w.log|, x);
      MergeMember(seen, Scoped(w, j, s, |w.log|), x);
      ScopedMember(w, j, s, |w.log|, x);
    }
  }

  /** The exact condition for a lossless resume, per id. A client that knows an id from some origin on and resumes
      after s, anywhere before or after what it has seen, ends up with all there is if and only if nothing in
      scope up to s was unseen. */
  lemma ResumeIsExact(w: World, j: nat, origin: nat, seen: seq<nat>, s: nat)
    requires j < |w.ids| && Known(w, j, origin, seen) && (seen != [] || origin <= s)
    ensures Merge(seen, Scoped(w, j, s, |w.log|)) == Scoped(w, j, origin, |w.log|) <==> Covers(w, j, origin, seen, s)
  {
    if Covers(w, j, origin, seen, s) {
      CoveredIsComplete(w, j, origin, seen, s);
    }
    if Merge(seen, Scoped(w, j, s, |w.log|)) == Scoped(w, j, origin, |w.log|) {
      CompleteIsCovered(w, j, origin, seen, s);
    }
  }

  // ---------------------------------------------------------------- any number of reconnects

  /** Everything the client was sent for one id, over all its connections. */
  function Total(visits: seq<Visit>, j: nat): seq<nat> {
    if visits == [] then [] else Total(visits[..|visits| - 1], j) + Got(visits[|visits| - 1], j)
  }

  lemma TotalSnoc(visits: seq<Visit>, v: Visit, j: nat)
    ensures Total(visits + [v], j) == Total(visits, j) + Got(v, j)
  {
    assert (visits + [v])[..|visits|] == visits;
  }

  ghost predicate AllHonest(w: World, visits: seq<Visit>) {
    forall v :: v in visits ==> Honest(w, v)
  }

  /** What the client has of one id since the last connection it did not resume, repeats dropped. */
  function Seen(visits: seq<Visit>, j: nat): seq<nat> {
    if visits == [] then []
    else
      var v := visits[|visits| - 1];
      Merge(if v.resume == 0 then [] else Seen(visits[..|visits| - 1], j), Got(v, j))
  }

  /** Where in the stream that connection started. */
  function Origin(visits: seq<Visit>, j: nat): nat {
    if visits == [] then 0
    else
      var v := visits[|visits| - 1];
      if v.resume == 0 then v.ends(j) else Origin(visits[..|visits| - 1], j)
  }

  /** Each connection starts afresh or is resumed at a number up to which the client has missed nothing of an id.
      It may have seen more. */
  ghost predicate Careful(w: World, visits: seq<Visit>, j: nat)
    requires j < |w.ids|
    decreases |visits|
  {
    visits == [] ||
    (var init, s := visits[..|visits| - 1], visits[|visits| - 1].resume;
     && Careful(w, init, j)
     && (s == 0 || ((Seen(init, j) != [] || Origin(init, j) <= s) && Covers(w, j, Origin(init, j), Seen(init, j), s))))
  }

  lemma OneMoreVisit(w: World, v: Visit, j: nat, origin: nat, seen: seq<nat>)
    requires Numbered(w) && Honest(w, v) && j < |w.ids| && Known(w, j, origin, seen)
    requires Covers(w, j, origin, seen, StartOf(v, j)) && (seen != [] || origin <= StartOf(v, j))
    ensures Known(w, j, origin, Merge(seen, Got(v, j)))
    ensures ReadToEnd(w, v) ==> Merge(seen, Got(v, j)) == Scoped(w, j, origin, |w.log|)
  {
    VisitGivesPrefix(w, v, j);
    MergeKnown(w, j, origin, seen, StartOf(v, j), Got(v, j));
    if ReadToEnd(w, v) {
      VisitGivesAll(w, v, j);
      CoveredIsComplete(w, j, origin, seen, StartOf(v, j));
    }
  }

  /** After any number of such connections, each cut off anywhere, the client has exactly what was in scope of the
      id from the origin to the last number it has seen, each message once and in order; and everything, if the
      last connection was read to the end. */
  lemma {:induction false} AnyReconnects(w: World, visits: seq<Visit>, j: nat)
    requires Numbered(w) && AllHonest(w, visits) && j < |w.ids| && Careful(w, visits, j)
    ensures Known(w, j, Origin(visits, j), Seen(visits, j))
    ensures visits != [] && ReadToEnd(w, visits[|visits| - 1]) ==>
              Seen(visits, j) == Scoped(w, j, Origin(visits, j), |w.log|)
    decreases |visits|
  {
    if visits != [] {
      var init, v := visits[..|visits| - 1], visits[|visits| - 1];
      AnyReconnects(w, init, j);
      assert v in visits;
      if v.resume == 0 {
        OneMoreVisit(w, v, j, v.ends(j), []);
      } else {
        OneMoreVisit(w, v, j, Origin(init, j), Seen(init, j));
      }
    }
  }

  // ---------------------------------------------------------------- a policy for several ids

  function SmallestOf(last: nat -> nat, n: nat): nat {
    if n == 0 then 0 else if n == 1 then last(0) else Min(SmallestOf(last, n - 1), last(n - 1))
  }

  /** The smallest of the last numbers of the first n ids: zero while one of them has none. */
  function Smallest(visits: seq<Visit>, n: nat): nat {
    SmallestOf((j: nat) => Recorded(Seen(visits, j)), n)
  }

  /** The client resumes each connection at the smallest last number over its ids, and starts afresh while one of
      them has none. */
  predicate ResumesSmallest(visits: seq<Visit>, n: nat) {
    visits == [] ||
    (var init := visits[..|visits| - 1];
     ResumesSmallest(init, n) && visits[|visits| - 1].resume == Smallest(init, n))
  }

  lemma {:induction false} SmallestOfBelow(last: nat -> nat, n: nat, j: nat)
    requires j < n
    ensures SmallestOf(last, n) <= last(j)
    decreases n
  {
    if j < n - 1 {
      SmallestOfBelow(last, n - 1, j);
    }
  }

  lemma SmallestBelow(visits: seq<Visit>, n: nat, j: nat)
    requires j < n
    ensures Smallest(visits, n) <= Recorded(Seen(visits, j))
  {
    SmallestOfBelow((k: nat) => Recorded(Seen(visits, k)), n, j);
  }

  lemma KnownCovers(w: World, j: nat, origin: nat, seen: seq<nat>, s: nat)
    requires j < |w.ids| && Known(w, j, origin, seen) && s <= Recorded(seen)
    ensures Covers(w, j, origin, seen, s)
  {
    forall x | x in Scoped(w, j, origin, Min(s, |w.log|))
      ensures x in seen
    {
      ScopedMember(w, j, origin, Min(s, |w.log|), x);
      ScopedMember(w, j, origin, Recorded(seen), x);
    }
  }

  lemma {:induction false} SmallestIsCareful(w: World, visits: seq<Visit>, j: nat)
    requires Numbered(w) && AllHonest(w, visits) && j < |w.ids| && ResumesSmallest(visits, |w.ids|)
    ensures Careful(w, visits, j)
    decreases |visits|
  {
    if visits != [] {
      var init := visits[..|visits| - 1];
      SmallestIsCareful(w, init, j);
      AnyReconnects(w, init, j);
      SmallestBelow(init, |w.ids|, j);
      KnownCovers(w, j, Origin(init, j), Seen(init, j), Smallest(init, |w.ids|));
    }
  }

  /** Whatever the ids, a client that resumes at the smallest of their last numbers loses nothing: per id it has
      exactly what was in scope from its last fresh start to the last number it has seen, over any number of
      connections cut off anywhere. */
  lemma {:induction false} SmallestIsEnough(w: World, visits: seq<Visit>, j: nat)
    requires Numbered(w) && AllHonest(w, visits) && j < |w.ids| && ResumesSmallest(visits, |w.ids|)
    ensures Known(w, j, Origin(visits, j), Seen(visits, j))
    ensures visits != [] && ReadToEnd(w, visits[|visits| - 1]) ==>
              Seen(visits, j) == Scoped(w, j, Origin(visits, j), |w.log|)
  {
    SmallestIsCareful(w, visits, j);
    AnyReconnects(w, visits, j);
  }

  /** Any careful client has each message once, under one id, if its ids are distinct and have no dots. */
  lemma {:induction false} EachMessageOnce(w: World, visits: seq<Visit>, i: nat, j: nat, a: nat, b: nat)
    requires Numbered(w) && AllHonest(w, visits) && i < |w.ids| && j < |w.ids|
    requires Careful(w, visits, i) && Careful(w, visits, j)
    requires Distinct(w.ids) && '.' !in w.ids[i] && '.' !in w.ids[j]
    requires a < |Seen(visits, i)| && b < |Seen(visits, j)|
    requires Seen(visits, i)[a] == Seen(visits, j)[b]
    ensures i == j && a == b
  {
    AnyReconnects(w, visits, i);
    AnyReconnects(w, visits, j);
    var s := Seen(visits, i)[a];
    ScopedMember(w, i, Origin(visits, i), Recorded(Seen(visits, i)), s);
    ScopedMember(w, j, Origin(visits, j), Recorded(Seen(visits, j)), s);
    ScopedMember(w, i, Origin(visits, i), |w.log|, s);
    ScopedMember(w, j, Origin(visits, j), |w.log|, s);
    DueToOne(w, i, j, Origin(visits, i), Origin(visits, j), s);
    ScopedAscending(w, i, Origin(visits, i), Recorded(Seen(visits, i)));
  }

  // ---------------------------------------------------------------- recording the last sequence number

  /** Each connection is resumed with the recorded sequence number of a channel with one owned id. */
  predicate ResumesRecorded(visits: seq<Visit>) {
    visits == [] ||
    (var init := visits[..|visits| - 1];
     ResumesRecorded(init) && visits[|visits| - 1].resume == Recorded(Total(init, 0)))
  }

  lemma NextVisit(w: World, origin: nat, total: seq<nat>, got: seq<nat>)
    requires |w.ids| == 1 && total != [] && Recorded(total) <= |w.log|
    requires total == Scoped(w, 0, origin, Recorded(total))
    requires got <= Scoped(w, 0, Recorded(total), |w.log|)
    ensures Recorded(total + got) <= |w.log|
    ensures total + got == Scoped(w, 0, origin, Recorded(total + got))
  {
    if got == [] {
      assert total + got == total;
    } else {
      var r, last := Recorded(total), got[|got| - 1];
      PrefixIsScoped(w, 0, r, |w.log|, got);
      ScopedAscending(w, 0, origin, r);
      assert origin < total[0] <= r;
      ScopedSplit(w, 0, origin, r, last);
    }
  }

  lemma FirstVisit(w: World, start: nat, got: seq<nat>)
    requires |w.ids| == 1 && got <= Scoped(w, 0, start, |w.log|)
    ensures Recorded(got) <= |w.log| && got == Scoped(w, 0, start, Recorded(got))
  {
    if got != [] {
      PrefixIsScoped(w, 0, start, |w.log|, got);
    }
  }

  /** The client has everything in scope from the first connection that gave it anything up to the number it
      has recorded, each message once and in order. */
  predicate Complete(w: World, visits: seq<Visit>, first: nat)
    requires |w.ids| == 1
  {
    var total := Total(visits, 0);
    && Recorded(total) <= |w.log|
    && (total != [] ==>
          && first < |visits| && Total(visits[..first], 0) == []
          && total == Scoped(w, 0, visits[first].ends(0), Recorded(total)))
  }

  lemma CompleteStep(w: World, init: seq<Visit>, v: Visit, first: nat) returns (next: nat)
    requires Numbered(w) && Honest(w, v) && |w.ids| == 1
    requires v.resume == Recorded(Total(init, 0)) && Complete(w, init, first)
    ensures Complete(w, init + [v], next)
  {
    var total, got := Total(init, 0), Got(v, 0);
    TotalSnoc(init, v, 0);
    VisitGivesPrefix(w, v, 0);
    if total == [] {
      next := |init|;
      assert (init + [v])[..next] == init;
      assert total + got == got;
      FirstVisit(w, v.ends(0), got);
    } else {
      next := first;
      assert (init + [v])[..next] == init[..next];
      ScopedAscending(w, 0, init[first].ends(0), Recorded(total));
      NextVisit(w, init[first].ends(0), total, got);
    }
  }

  /** With one owned id, recording the last frame's sequence number is enough, for any number of connections cut
      off anywhere. */
  lemma {:induction false} OneIdIsEnough(w: World, visits: seq<Visit>) returns (first: nat)
    requires Numbered(w) && AllHonest(w, visits) && |w.ids| == 1 && ResumesRecorded(visits)
    ensures Complete(w, visits, first)
    decreases |visits|
  {
    if visits == [] {
      first := 0;
    } else {
      var init, v := visits[..|visits| - 1], visits[|visits| - 1];
      assert visits == init + [v];
      first := OneIdIsEnough(w, init);
      first := CompleteStep(w, init, v, first);
    }
  }

  // ---------------------------------------------------------------- two ids

  /** A connection on which one message was handed over and written. */
  function Once(sub: nat, m: Message): seq<Action> {
    [AccountArrives(sub, m), Takes, Writes]
  }

  lemma OnceDelivers(c: Client, sub: nat, m: Message)
    requires InScope(c, m)
    ensures CanRun(c, Once(sub, m)) && After(c, Once(sub, m)).written == [Wrap(c, sub, m)]
  {
    var run := Once(sub, m);
    assert run[..0] == [] && run[..1][..0] == [];
    assert CanRun(c, run[..1]) && After(c, run[..1]) == START.(queue := [Wrap(c, sub, m)]);
    assert run[..2][..1] == run[..1];
    assert CanRun(c, run[..2]) && After(c, run[..2]) == START.(hand := [Wrap(c, sub, m)]);
  }

  lemma OnceHands(sub: nat, m: Message, j: nat)
    ensures Handed(Once(sub, m), j) == if j == sub then [m] else []
  {
    var run := Once(sub, m);
    assert run[..2][..1] == run[..1] && run[..1][..0] == [];
    assert Handed(run[..1], j) == if j == sub then [m] else [];
    assert Handed(run[..2], j) == Handed(run[..1], j);
  }

  /** A stream with one message for each of two ids. */
  function Pair(userId: string, channel: Channel): World
  {
    var a, b := channel.prefix + "a", channel.prefix + "b";
    World(userId, channel, ["a", "b"], [Message("", a, 1, "{}", true), Message("", b, 2, "{}", true)])
  }

  lemma PairScoped(userId: string, channel: Channel)
    requires !channel.deep
    ensures var w := Pair(userId, channel);
            Scoped(w, 0, 0, 2) == [1] && Feed(w, 1, 0, 2) == [w.log[1]]
  {
    var w := Pair(userId, channel);
    assert w.log[0].subject[|channel.prefix|] == 'a' && w.log[1].subject[|channel.prefix|] == 'b';
    assert Scoped(w, 0, 0, 1) == [1];
    assert Feed(w, 1, 0, 1) == [];
  }

  function OwnClient(w: World): Client {
    Client(w.userId, (sub: nat) => w.channel.ch)
  }

  /** A first connection that is cut off after the later of the two messages. */
  function CutShort(w: World): Visit
    requires |w.log| == 2
  {
    Visit(0, (j: nat) => 0, OwnClient(w), Once(1, w.log[1]))
  }

  /** A second one, resumed at its number, that has nothing to give. */
  function NothingMore(w: World): Visit {
    Visit(2, (j: nat) => 2, OwnClient(w), [])
  }

  lemma CutShortGives(userId: string, channel: Channel)
    requires !channel.deep
    ensures var w := Pair(userId, channel);
            Honest(w, CutShort(w)) && Got(CutShort(w), 0) == [] && Got(CutShort(w), 1) == [2]
  {
    var w := Pair(userId, channel);
    var c, late := OwnClient(w), w.log[1];
    PairScoped(userId, channel);
    OnceDelivers(c, 1, late);
    forall j: nat | j < 2
      ensures Handed(Once(1, late), j) <= Feed(w, j, 0, 2)
    {
      OnceHands(1, late, j);
    }
    OfOne(Account(0), Wrap(c, 1, late));
    OfOne(Account(1), Wrap(c, 1, late));
  }

  lemma NothingMoreGives(userId: string, channel: Channel)
    ensures var w := Pair(userId, channel);
            Honest(w, NothingMore(w)) && Got(NothingMore(w), 0) == [] && Scoped(w, 0, 2, 2) == []
  {
  }

  lemma TotalOfTwo(first: Visit, second: Visit, j: nat)
    ensures Total([first, second][..1], j) == Got(first, j)
    ensures Total([first, second], j) == Got(first, j) + Got(second, j)
  {
    assert [first, second][..1] == [] + [first];
    assert [first, second] == [first] + [second];
    TotalSnoc([], first, j);
    TotalSnoc([first], second, j);
  }

  lemma ReadsAgainInVain(w: World, cut: Visit, again: Visit)
    requires Honest(w, cut) && Honest(w, again) && Got(cut, 0) == [] && Got(cut, 1) == [2] && Got(again, 0) == []
    ensures AllHonest(w, [cut, again]) && Total([cut, again], 0) == [] && Total([cut, again][..1], 1) == [2]
  {
    TotalOfTwo(cut, again, 0);
    TotalOfTwo(cut, again, 1);
  }

  /** With two ids it is not enough. The consumers are independent, so the later message may come first; cut off
      there, the client records its number and never sees the earlier one. */
  lemma {:induction false} TwoIdsCanLose(userId: string, channel: Channel) returns (visits: seq<Visit>)
    requires !channel.deep
    ensures var w := Pair(userId, channel);
            && Numbered(w) && AllHonest(w, visits) && |visits| == 2
            && visits[0].resume == 0 && visits[0].ends(0) == 0
            && Total(visits[..1], 1) == [2] && visits[1].resume == 2
            && Got(visits[1], 0) == Scoped(w, 0, 2, |w.log|)
            && Total(visits, 0) == [] && Scoped(w, 0, 0, |w.log|) == [1]
  {
    var w := Pair(userId, channel);
    var cut, again := CutShort(w), NothingMore(w);
    visits := [cut, again];
    PairScoped(userId, channel);
    CutShortGives(userId, channel);
    NothingMoreGives(userId, channel);
    ReadsAgainInVain(w, cut, again);
  }
}
