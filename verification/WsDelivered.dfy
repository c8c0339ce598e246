/** What the client is sent, frame by frame, in terms of what arrived: the envelopes of the account messages, the
    replies and the bars, and what becomes of them when the queue is full. */
module WsDelivered {
  import opened WsChannels
  import opened WsPipeline

  // ---------------------------------------------------------------- envelopes

  /** The user may see the message, and an envelope can carry it. */
  predicate MaySee(userId: string, m: Message) {
    (m.userId == "" || m.userId == userId) && m.encodes
  }

  /** The messages of that kind, in order. */
  function Visible(userId: string, messages: seq<Message>): seq<Message> {
    if messages == [] then []
    else
      var m := messages[|messages| - 1];
      Visible(userId, messages[..|messages| - 1]) + (if MaySee(userId, m) then [m] else [])
  }

  /** An envelope for a message: its channel, the last part of its subject, its number and its payload. */
  predicate Carries(body: Body, ch: string, m: Message) {
    && body.Envelope? && body.ch == ch && AfterLastDot(m.subject, body.key)
    && body.sequence == m.sequence && body.data == m.data
  }

  lemma WrapCarries(c: Client, sub: nat, m: Message)
    ensures Carries(Wrap(c, sub, m).body, c.channel(sub), m)
  {
    LastTokenIsAfterLastDot(m.subject);
  }

  ghost predicate AllCarry(frames: seq<Frame>, ch: string, messages: seq<Message>) {
    |frames| == |messages| && forall i :: 0 <= i < |frames| ==> Carries(frames[i].body, ch, messages[i])
  }

  lemma OneMoreCarries(frames: seq<Frame>, ch: string, messages: seq<Message>, f: Frame, m: Message)
    requires AllCarry(frames, ch, messages) && Carries(f.body, ch, m)
    ensures AllCarry(frames + [f], ch, messages + [m])
  {
  }

  lemma {:induction false} FramesCarry(c: Client, sub: nat, messages: seq<Message>)
    ensures AllCarry(Frames(c, sub, messages), c.channel(sub), Visible(c.userId, messages))
  {
    if messages != [] {
      var init, m := messages[..|messages| - 1], messages[|messages| - 1];
      FramesCarry(c, sub, init);
      if MaySee(c.userId, m) {
        WrapCarries(c, sub, m);
        OneMoreCarries(Frames(c, sub, init), c.channel(sub), Visible(c.userId, init), Wrap(c, sub, m), m);
      }
    }
  }

  /** At every point of every run, the frames a client has been sent for an account subscription are envelopes for the
      first messages it may see of those handed to the callback, one each and in order; and for all of them once
      nothing is outstanding. */
  lemma {:induction false} WrittenCarry(c: Client, run: seq<Action>, sub: nat)
    requires CanRun(c, run)
    ensures var got, visible := Of(Account(sub), After(c, run).written), Visible(c.userId, Handed(run, sub));
            && |got| <= |visible|
            && (forall i :: 0 <= i < |got| ==> Carries(got[i].body, c.channel(sub), visible[i]))
            && (Work(After(c, run)) == 0 ==> |got| == |visible|)
  {
    Delivery(c, run, sub);
    FramesCarry(c, sub, Handed(run, sub));
    if Work(After(c, run)) == 0 {
      DrainedMeansDelivered(c, run, sub);
    }
  }

  // ---------------------------------------------------------------- replies

  /** The texts the read loop was told to answer, in order. */
  function Said(run: seq<Action>): seq<Body> {
    if run == [] then []
    else
      var a := run[|run| - 1];
      Said(run[..|run| - 1]) + (if a.Replies? then [Reply(a.text)] else [])
  }

  function Bodies(frames: seq<Frame>): seq<Body> {
    if frames == [] then [] else Bodies(frames[..|frames| - 1]) + [frames[|frames| - 1].body]
  }

  lemma {:induction false} BodiesConcat(a: seq<Frame>, b: seq<Frame>)
    ensures Bodies(a + b) == Bodies(a) + Bodies(b)
    decreases |b|
  {
    if b == [] {
      assert a + b == a;
    } else {
      var init, f := b[..|b| - 1], b[|b| - 1];
      assert (a + b)[..|a + b| - 1] == a + init;
      BodiesConcat(a, init);
    }
  }

  lemma {:induction false} OfferedAreSaid(c: Client, run: seq<Action>)
    ensures Bodies(Of(Reader, Offered(c, run))) == Said(run)
    decreases |run|
  {
    if run != [] {
      var init, a := run[..|run| - 1], run[|run| - 1];
      var before, offer := Of(Reader, Offered(c, init)), Offer(c, a);
      OfferedAreSaid(c, init);
      OfConcat(Reader, Offered(c, init), offer);
      BodiesConcat(before, Of(Reader, offer));
      if offer != [] {
        OfOne(Reader, offer[0]);
        assert Of(Reader, offer) == if a.Replies? then [Frame(Reader, Reply(a.text))] else [];
      }
      assert a.Replies? ==> Bodies([Frame(Reader, Reply(a.text))]) == [Reply(a.text)];
    }
  }

  /** Every reply gets to the client, in order, as far as the run has come. */
  lemma FlowSplits(s: State, src: Source)
    ensures Flow(s, src) == Of(src, s.written) + (Of(src, s.hand + s.queue) + Waiting(s, src))
  {
    Associative(s.written, s.hand, s.queue);
    OfConcat(src, s.written, s.hand + s.queue);
    Associative(Of(src, s.written), Of(src, s.hand + s.queue), Waiting(s, src));
  }

  lemma {:induction false} RepliesInOrder(c: Client, run: seq<Action>)
    requires CanRun(c, run)
    ensures Bodies(Of(Reader, After(c, run).written)) <= Said(run)
    ensures Work(After(c, run)) == 0 ==> Bodies(Of(Reader, After(c, run).written)) == Said(run)
  {
    var s := After(c, run);
    var got, rest := Of(Reader, s.written), Of(Reader, s.hand + s.queue) + Waiting(s, Reader);
    NothingLost(c, run, Reader);
    OfferedAreSaid(c, run);
    FlowSplits(s, Reader);
    BodiesConcat(got, rest);
    if Work(s) == 0 {
      assert rest == [];
    }
  }

  // ---------------------------------------------------------------- a full queue

  /** A frame is given up, or a goroutine kept waiting, only by a step from a full queue. */
  lemma OnlyWhenFull(c: Client, s: State, a: Action)
    requires Enabled(s, a) && Tidy(s)
    ensures Apply(c, s, a).dropped != s.dropped ==> |s.queue| == 256 && a.MarketArrives?
    ensures !(Apply(c, s, a).pending.Keys <= s.pending.Keys) ==> |s.queue| == 256 && (a.AccountArrives? || a.Replies?)
  {
  }

  /** The bars that arrive while the queue is full, in order. */
  function Overflow(c: Client, run: seq<Action>): seq<Frame>
    requires CanRun(c, run)
  {
    if run == [] then []
    else
      var init, a := run[..|run| - 1], run[|run| - 1];
      Overflow(c, init)
      + (if a.MarketArrives? && |After(c, init).queue| == 256 then [Frame(Market(a.sub), Bar(a.bytes))] else [])
  }

  /** They are what is dropped, and nothing else is. */
  lemma {:induction false} DroppedIsOverflow(c: Client, run: seq<Action>)
    requires CanRun(c, run)
    ensures After(c, run).dropped == Overflow(c, run)
    decreases |run|
  {
    if run != [] {
      var init, a := run[..|run| - 1], run[|run| - 1];
      DroppedIsOverflow(c, init);
      RunIsTidy(c, init);
      OnlyWhenFull(c, After(c, init), a);
    }
  }

  /** The queue has room before every step. */
  predicate NeverFull(c: Client, run: seq<Action>)
    requires CanRun(c, run)
  {
    run == [] || (NeverFull(c, run[..|run| - 1]) && |After(c, run[..|run| - 1]).queue| < 256)
  }

  /** Something arrives for the client: a bar, a visible message or a reply. */
  predicate Brings(c: Client, a: Action) {
    a.MarketArrives? || a.Replies? || (a.AccountArrives? && MaySee(c.userId, a.message))
  }

  /** The frame that should be made of it. */
  predicate Arrival(c: Client, a: Action, f: Frame) {
    match a
    case MarketArrives(sub, bytes) => f == Frame(Market(sub), Bar(bytes))
    case AccountArrives(sub, m) =>
      MaySee(c.userId, m) && f.source == Account(sub) && Carries(f.body, c.channel(sub), m)
    case Replies(text) => f == Frame(Reader, Reply(text))
    case _ => false
  }

  /** While the queue has room a step puts what arrives at the end of the line, and otherwise leaves the line alone. */
  lemma RoomForAll(c: Client, s: State, a: Action)
    requires Enabled(s, a) && Tidy(s) && s.pending == map[] && |s.queue| < 256
    ensures Apply(c, s, a).pending == map[]
    ensures Line(Apply(c, s, a)) == Line(s) + Offer(c, a)
  {
    if Offer(c, a) != [] {
      Associative(s.written + s.hand, s.queue, Offer(c, a));
    } else if a.Takes? {
      TakeKeepsLine(s);
    }
  }

  lemma OfferIsArrival(c: Client, a: Action)
    ensures if Brings(c, a) then |Offer(c, a)| == 1 && Arrival(c, a, Offer(c, a)[0]) else Offer(c, a) == []
  {
    if a.AccountArrives? {
      WrapCarries(c, a.sub, a.message);
    }
  }

  lemma {:induction false} LineIsOffered(c: Client, run: seq<Action>)
    requires CanRun(c, run) && NeverFull(c, run)
    ensures After(c, run).pending == map[] && After(c, run).dropped == []
    ensures Line(After(c, run)) == Offered(c, run)
    decreases |run|
  {
    if run != [] {
      var init, a := run[..|run| - 1], run[|run| - 1];
      LineIsOffered(c, init);
      RunIsTidy(c, init);
      RoomForAll(c, After(c, init), a);
      OnlyWhenFull(c, After(c, init), a);
    }
  }

  /** The frames are what arrived at the positions `at`, which are all those where something did, in order. */
  ghost predicate MadeOf(c: Client, run: seq<Action>, frames: seq<Frame>, at: seq<nat>) {
    && |at| == |frames|
    && (forall i, j :: 0 <= i < j < |at| ==> at[i] < at[j])
    && (forall k :: k in at <==> 0 <= k < |run| && Brings(c, run[k]))
    && (forall i :: 0 <= i < |at| ==> at[i] < |run| && Arrival(c, run[at[i]], frames[i]))
  }

  lemma MadeOfOneMore(c: Client, run: seq<Action>, a: Action, frames: seq<Frame>, at: seq<nat>, f: Frame)
    requires MadeOf(c, run, frames, at) && Brings(c, a) && Arrival(c, a, f)
    ensures MadeOf(c, run + [a], frames + [f], at + [|run|])
  {
    var more, where := run + [a], at + [|run|];
    assert forall k :: 0 <= k < |run| ==> more[k] == run[k];
    assert forall i :: 0 <= i < |at| ==> where[i] == at[i] && at[i] in at;
    assert forall k :: k in where <==> k in at || k == |run|;
  }

  lemma MadeOfNoMore(c: Client, run: seq<Action>, a: Action, frames: seq<Frame>, at: seq<nat>)
    requires MadeOf(c, run, frames, at) && !Brings(c, a)
    ensures MadeOf(c, run + [a], frames, at)
  {
    assert forall k :: 0 <= k < |run| ==> (run + [a])[k] == run[k];
    assert forall i :: 0 <= i < |at| ==> at[i] in at;
  }

  lemma MadeOfNext(c: Client, init: seq<Action>, a: Action, frames: seq<Frame>, at: seq<nat>) returns (more: seq<nat>)
    requires MadeOf(c, init, frames, at)
    ensures MadeOf(c, init + [a], frames + Offer(c, a), more)
  {
    OfferIsArrival(c, a);
    if Brings(c, a) {
      assert Offer(c, a) == [Offer(c, a)[0]];
      MadeOfOneMore(c, init, a, frames, at, Offer(c, a)[0]);
      more := at + [|init|];
    } else {
      assert frames + Offer(c, a) == frames;
      MadeOfNoMore(c, init, a, frames, at);
      more := at;
    }
  }

  lemma {:induction false} OfferedIsWhatArrived(c: Client, run: seq<Action>) returns (at: seq<nat>)
    ensures MadeOf(c, run, Offered(c, run), at)
    decreases |run|
  {
    at := [];
    if run != [] {
      var init, a := run[..|run| - 1], run[|run| - 1];
      at := OfferedIsWhatArrived(c, init);
      at := MadeOfNext(c, init, a, Offered(c, init), at);
      assert run == init + [a];
    }
  }

  /** As long as the queue never fills up, nothing waits and nothing is dropped: the line is what arrived from all
      sources together, bars included, in the order of arrival. */
  lemma {:induction false} FirstInFirstOut(c: Client, run: seq<Action>) returns (at: seq<nat>)
    requires CanRun(c, run) && NeverFull(c, run)
    ensures After(c, run).pending == map[] && After(c, run).dropped == []
    ensures MadeOf(c, run, Line(After(c, run)), at)
  {
    LineIsOffered(c, run);
    at := OfferedIsWhatArrived(c, run);
  }

  // ---------------------------------------------------------------- who can move

  /** While a connection is open, bars always come in and it can always be given up by the client; a goroutine that
      waits holds up its own source and no other, and gets in as soon as there is room. */
  lemma NobodyElseIsHeldUp(s: State, sub: nat, bytes: string, m: Message, text: string, src: Source)
    requires !s.done
    ensures Enabled(s, MarketArrives(sub, bytes)) && Enabled(s, Closes(ReadEnded)) && Enabled(s, Closes(PingFailed))
    ensures Enabled(s, AccountArrives(sub, m)) <==> Account(sub) !in s.pending
    ensures Enabled(s, Replies(text)) <==> Reader !in s.pending
    ensures src in s.pending ==> (Enabled(s, Unblocks(src)) <==> |s.queue| < 256)
  {
  }

  // ---------------------------------------------------------------- why a connection closes

  /** Something arrives from the source. */
  predicate ArrivesFrom(a: Action, src: Source) {
    match src
    case Account(sub) => a.AccountArrives? && a.sub == sub
    case Reader => a.Replies?
    case Market(_) => false
  }

  /** At step j something arrived from the source at a full queue, and the goroutine has not got rid of it since. */
  ghost predicate WaitsSince(c: Client, run: seq<Action>, src: Source, j: nat)
    requires CanRun(c, run)
  {
    && j < |run| && CanRun(c, run[..j]) && |After(c, run[..j]).queue| == 256 && ArrivesFrom(run[j], src)
    && forall i :: j < i < |run| ==> run[i] != Unblocks(src)
  }

  lemma BeganToWait(c: Client, s: State, a: Action, src: Source)
    requires Enabled(s, a) && Tidy(s) && src in Apply(c, s, a).pending
    ensures a != Unblocks(src)
    ensures src !in s.pending ==> |s.queue| == 256 && ArrivesFrom(a, src)
  {
  }

  lemma WaitsLonger(c: Client, init: seq<Action>, a: Action, src: Source, j: nat)
    requires CanRun(c, init) && CanRun(c, init + [a]) && WaitsSince(c, init, src, j) && a != Unblocks(src)
    ensures WaitsSince(c, init + [a], src, j)
  {
    assert (init + [a])[..j] == init[..j];
  }

  lemma {:induction false} PendingWaits(c: Client, run: seq<Action>, src: Source) returns (j: nat)
    requires CanRun(c, run) && src in After(c, run).pending
    ensures WaitsSince(c, run, src, j)
    decreases |run|
  {
    var n := |run| - 1;
    var init, a := run[..n], run[n];
    assert run == init + [a];
    RunIsTidy(c, init);
    BeganToWait(c, After(c, init), a, src);
    if src in After(c, init).pending {
      j := PendingWaits(c, init, src);
      WaitsLonger(c, init, a, src, j);
    } else {
      j := n;
    }
  }

  /** A connection is closed for slowness only while a goroutine waits with a frame that arrived at a full queue, and
      for a failed write only while the writer has a frame in hand. */
  lemma {:induction false} ClosedForCause(c: Client, run: seq<Action>, reason: Reason) returns (j: nat)
    requires CanRun(c, run) && Enabled(After(c, run), Closes(reason))
    ensures reason.TimedOut? ==> WaitsSince(c, run, reason.source, j)
    ensures reason.WriteFailed? ==> |After(c, run).hand| == 1
  {
    j := 0;
    RunIsTidy(c, run);
    if reason.TimedOut? {
      j := PendingWaits(c, run, reason.source);
    }
  }
}
