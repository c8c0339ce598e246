/** When resuming at a number is safe, judged by what the client has seen and nothing else. */
module WsSafeResume {
  import opened WsChannels
  import opened WsPipeline
  import opened WsResume

  /** What the client has seen of each id could come from this stream. */
  ghost predicate Consistent(w: World, origins: seq<nat>, seens: seq<seq<nat>>) {
    && |origins| == |seens| == |w.ids| && Numbered(w)
    && forall j: nat :: j < |w.ids| ==> Known(w, j, origins[j], seens[j])
  }

  predicate SameChannel(w: World, w': World) {
    w'.userId == w.userId && w'.channel == w.channel && w'.ids == w.ids
  }

  /** A connection resumed after s and read to the end completes every id. */
  ghost predicate Lossless(w: World, origins: seq<nat>, seens: seq<seq<nat>>, s: nat)
    requires |origins| == |seens| == |w.ids|
  {
    forall j: nat :: j < |w.ids| ==>
      Merge(seens[j], Scoped(w, j, s, |w.log|)) == Scoped(w, j, origins[j], |w.log|)
  }

  predicate SeenAnywhere(seens: seq<seq<nat>>, x: nat) {
    exists i :: 0 <= i < |seens| && x in seens[i]
  }

  /** Every number between the last one of an id and s was seen, under whatever id. */
  ghost predicate Bridged(seens: seq<seq<nat>>, j: nat, s: nat)
    requires j < |seens|
  {
    forall x :: Recorded(seens[j]) < x <= s ==> SeenAnywhere(seens, x)
  }

  /** Ids as the service hands them out, each with something seen already. */
  ghost predicate Ready(w: World, seens: seq<seq<nat>>) {
    && Distinct(w.ids) && |seens| == |w.ids|
    && (forall j: nat :: j < |w.ids| ==> '.' !in w.ids[j])
    && (forall j: nat :: j < |seens| ==> seens[j] != [])
  }

  // ---------------------------------------------------------------- what is seen elsewhere is not one's own

  lemma SeenIsRelevant(w: World, j: nat, origin: nat, seen: seq<nat>, x: nat)
    requires j < |w.ids| && Known(w, j, origin, seen)
    ensures x in seen <==> origin < x <= Recorded(seen) && Relevant(w, j, w.log[x - 1])
  {
    ScopedMember(w, j, origin, Recorded(seen), x);
  }

  lemma NotRelevantTwice(w: World, i: nat, j: nat, m: Message)
    requires i < |w.ids| && j < |w.ids| && i != j && Distinct(w.ids) && '.' !in w.ids[i] && '.' !in w.ids[j]
    requires Relevant(w, i, m)
    ensures !Relevant(w, j, m)
  {
    if Relevant(w, j, m) {
      OneOwner(w.channel, w.ids[i], w.ids[j], m.subject);
    }
  }

  lemma BridgedCovers(w: World, origins: seq<nat>, seens: seq<seq<nat>>, s: nat, j: nat)
    requires Consistent(w, origins, seens) && Ready(w, seens) && j < |w.ids| && Bridged(seens, j, s)
    ensures Covers(w, j, origins[j], seens[j], s)
  {
    forall x | x in Scoped(w, j, origins[j], Min(s, |w.log|))
      ensures x in seens[j]
    {
      ScopedMember(w, j, origins[j], Min(s, |w.log|), x);
      SeenIsRelevant(w, j, origins[j], seens[j], x);
      if x > Recorded(seens[j]) {
        assert SeenAnywhere(seens, x);
        var i :| 0 <= i < |seens| && x in seens[i];
        SeenIsRelevant(w, i, origins[i], seens[i], x);
        if i != j {
          NotRelevantTwice(w, i, j, w.log[x - 1]);
        }
      }
    }
  }

  lemma BridgedIsLossless(w: World, origins: seq<nat>, seens: seq<seq<nat>>, s: nat)
    requires Consistent(w, origins, seens) && Ready(w, seens)
    requires forall j: nat :: j < |seens| ==> Bridged(seens, j, s)
    ensures Lossless(w, origins, seens, s)
  {
    forall j: nat | j < |w.ids|
      ensures Merge(seens[j], Scoped(w, j, s, |w.log|)) == Scoped(w, j, origins[j], |w.log|)
    {
      BridgedCovers(w, origins, seens, s, j);
      CoveredIsComplete(w, j, origins[j], seens[j], s);
    }
  }

  // ---------------------------------------------------------------- a stream that tells them apart

  /** A message for an id of the channel. */
  function MessageFor(w: World, j: nat, x: nat): Message
    requires j < |w.ids|
  {
    Message("", w.channel.prefix + w.ids[j] + (if w.channel.deep then ".x" else ""), x, "{}", true)
  }

  lemma MessageForIsRelevant(w: World, j: nat, x: nat)
    requires j < |w.ids|
    ensures Relevant(w, j, MessageFor(w, j, x))
  {
    var head := w.channel.prefix + w.ids[j];
    assert head + ".x" == head + "." + "x";
    assert !w.channel.deep ==> head + "" == head;
  }

  /** The same stream with one message put at number x, and unreadable ones before it where there were none. */
  function With(w: World, x: nat, m: Message): World
    requires x > 0
  {
    w.(log := seq(Max(x, |w.log|), i requires 0 <= i < Max(x, |w.log|) =>
                    if i + 1 == x then m else if i < |w.log| then w.log[i] else Message("", "", i + 1, "", false)))
  }

  lemma {:induction false} ScopedSame(w: World, w': World, j: nat, lo: nat, hi: nat)
    requires j < |w.ids| && j < |w'.ids| && hi <= |w.log| && hi <= |w'.log|
    requires forall k :: lo <= k < hi ==> Relevant(w, j, w.log[k]) == Relevant(w', j, w'.log[k])
    ensures Scoped(w, j, lo, hi) == Scoped(w', j, lo, hi)
    decreases hi
  {
    if lo < hi {
      ScopedSame(w, w', j, lo, hi - 1);
    }
  }

  /** Changing a number that was not seen, and that lies after all that was seen of its new owner, leaves what was
      seen of every id possible. */
  lemma StillKnown(w: World, origins: seq<nat>, seens: seq<seq<nat>>, j: nat, x: nat, i: nat)
    requires Consistent(w, origins, seens) && Ready(w, seens) && i < |w.ids| && j < |w.ids|
    requires x > Recorded(seens[j]) && !SeenAnywhere(seens, x)
    ensures Known(With(w, x, MessageFor(w, j, x)), i, origins[i], seens[i])
  {
    var m := MessageFor(w, j, x);
    var w' := With(w, x, m);
    var r := Recorded(seens[i]);
    MessageForIsRelevant(w, j, x);
    assert x !in seens[i];
    SeenIsRelevant(w, i, origins[i], seens[i], x);
    forall k | origins[i] <= k < r
      ensures Relevant(w, i, w.log[k]) == Relevant(w', i, w'.log[k])
    {
      if k + 1 == x {
        assert i != j;
        NotRelevantTwice(w, j, i, m);
      }
    }
    ScopedSame(w, w', i, origins[i], r);
  }

  lemma LastIsAfterOrigin(w: World, j: nat, origin: nat, seen: seq<nat>)
    requires j < |w.ids| && Known(w, j, origin, seen) && seen != []
    ensures origin < Recorded(seen)
  {
    ScopedAscending(w, j, origin, Recorded(seen));
  }

  lemma NotCovered(w: World, origin: nat, seen: seq<nat>, s: nat, j: nat, x: nat)
    requires j < |w.ids| && Known(w, j, origin, seen) && seen != []
    requires Recorded(seen) < x <= s && x <= |w.log| && Relevant(w, j, w.log[x - 1])
    ensures !Covers(w, j, origin, seen, s)
  {
    LastIsAfterOrigin(w, j, origin, seen);
    ScopedMember(w, j, origin, Min(s, |w.log|), x);
    SeenIsRelevant(w, j, origin, seen, x);
  }

  lemma LosingWorld(w: World, origins: seq<nat>, seens: seq<seq<nat>>, s: nat, j: nat, x: nat) returns (w': World)
    requires Consistent(w, origins, seens) && Ready(w, seens) && j < |w.ids|
    requires Recorded(seens[j]) < x <= s && !SeenAnywhere(seens, x)
    ensures SameChannel(w, w') && Consistent(w', origins, seens) && !Lossless(w', origins, seens, s)
  {
    var m := MessageFor(w, j, x);
    w' := With(w, x, m);
    forall i: nat | i < |w.ids|
      ensures Known(w', i, origins[i], seens[i])
    {
      StillKnown(w, origins, seens, j, x, i);
    }
    MessageForIsRelevant(w, j, x);
    NotCovered(w', origins[j], seens[j], s, j, x);
    ResumeIsExact(w', j, origins[j], seens[j], s);
  }

  // ---------------------------------------------------------------- the exact condition

  /** The client has seen some of every id, and knows nothing else about the stream. Resuming after s loses nothing
      whatever the stream may be if and only if, for every id, all numbers from its last one up to s were seen, under
      whatever id. */
  lemma {:induction false} SafeToResume(w: World, origins: seq<nat>, seens: seq<seq<nat>>, s: nat)
    requires Consistent(w, origins, seens) && Ready(w, seens)
    ensures (forall w' :: SameChannel(w, w') && Consistent(w', origins, seens) ==> Lossless(w', origins, seens, s))
            <==> (forall j: nat :: j < |seens| ==> Bridged(seens, j, s))
  {
    if forall j: nat :: j < |seens| ==> Bridged(seens, j, s) {
      forall w' | SameChannel(w, w') && Consistent(w', origins, seens)
        ensures Lossless(w', origins, seens, s)
      {
        BridgedIsLossless(w', origins, seens, s);
      }
    } else {
      var j: nat :| j < |seens| && !Bridged(seens, j, s);
      var x :| Recorded(seens[j]) < x <= s && !SeenAnywhere(seens, x);
      var w' := LosingWorld(w, origins, seens, s, j, x);
    }
  }
}
