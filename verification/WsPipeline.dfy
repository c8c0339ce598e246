/** The outbound half of a WebSocket connection: NATS callbacks and the read loop put frames on a bounded
    queue, and one writer takes them off. Every place where a goroutine can be overtaken by another is a
    step boundary; closing is one step. */
module WsPipeline {
  import opened WsChannels

  const SEND_BUFFER: nat := 256

  /** Who offered a frame: an account subscription, the read loop, or a market subscription. */
  datatype Source = Account(sub: nat) | Reader | Market(sub: nat)

  /** A JetStream message. `userId` is the payload's user_id, empty when it has none; `encodes` says
      whether the payload is JSON that an envelope can carry. */
  datatype Message = Message(userId: string, subject: string, sequence: nat, data: string, encodes: bool)

  datatype Body = Envelope(ch: string, key: string, sequence: nat, data: string) | Reply(text: string) | Bar(bytes: string)

  /** A frame with the goroutine it came from. Only the body goes to the client. */
  datatype Frame = Frame(source: Source, body: Body)

  /** The connection's user, and the channel of each account subscription. */
  datatype Client = Client(userId: string, channel: nat -> string)

  datatype Reason = TimedOut(source: Source) | WriteFailed | PingFailed | ReadEnded

  datatype Action =
    | MarketArrives(sub: nat, bytes: string)
    | AccountArrives(sub: nat, message: Message)
    | Replies(text: string)
    | Unblocks(source: Source)
    | Takes
    | Writes
    | Closes(reason: Reason)

  /** `hand` is the frame the writer has taken and not yet written. `pending` has the frame of each goroutine
      that is blocked in its second select. `dropped` records the market frames given up. */
  datatype State = State(queue: seq<Frame>, hand: seq<Frame>, written: seq<Frame>, pending: map<Source, Frame>,
                         dropped: seq<Frame>, done: bool)

  const START := State([], [], [], map[], [], false)

  // ---------------------------------------------------------------- one step

  predicate InScope(c: Client, m: Message) {
    (m.userId == "" || m.userId == c.userId) && m.encodes
  }

  function Wrap(c: Client, sub: nat, m: Message): Frame {
    Frame(Account(sub), Envelope(c.channel(sub), LastToken(m.subject), m.sequence, m.data))
  }

  /** The frame, if any, that a step wants to enqueue. */
  function Offer(c: Client, a: Action): seq<Frame> {
    match a
    case MarketArrives(sub, bytes) => [Frame(Market(sub), Bar(bytes))]
    case AccountArrives(sub, m) => if InScope(c, m) then [Wrap(c, sub, m)] else []
    case Replies(text) => [Frame(Reader, Reply(text))]
    case _ => []
  }

  /** Best effort: no room, no frame. */
  function PutMarket(s: State, f: Frame): State {
    if |s.queue| < SEND_BUFFER then s.(queue := s.queue + [f]) else s.(dropped := s.dropped + [f])
  }

  /** Never dropped: no room, and the goroutine waits. */
  function PutAccount(s: State, f: Frame): State {
    if |s.queue| < SEND_BUFFER then s.(queue := s.queue + [f]) else s.(pending := s.pending[f.source := f])
  }

  predicate Enabled(s: State, a: Action) {
    && !s.done
    && match a
       case MarketArrives(_, _) => true
       case AccountArrives(sub, _) => Account(sub) !in s.pending
       case Replies(_) => Reader !in s.pending
       case Unblocks(src) => src in s.pending && |s.queue| < SEND_BUFFER
       case Takes => s.hand == [] && s.queue != []
       case Writes => s.hand != []
       case Closes(TimedOut(src)) => src in s.pending
       case Closes(WriteFailed) => s.hand != []
       case Closes(_) => true
  }

  function Apply(c: Client, s: State, a: Action): State
    requires Enabled(s, a)
  {
    match a
    case MarketArrives(_, _) => PutMarket(s, Offer(c, a)[0])
    case AccountArrives(_, _) => if Offer(c, a) == [] then s else PutAccount(s, Offer(c, a)[0])
    case Replies(_) => PutAccount(s, Offer(c, a)[0])
    case Unblocks(src) => s.(queue := s.queue + [s.pending[src]], pending := s.pending - {src})
    case Takes => s.(hand := [s.queue[0]], queue := s.queue[1..])
    case Writes => s.(written := s.written + s.hand, hand := [])
    case Closes(_) => s.(done := true)
  }

  predicate CanRun(c: Client, run: seq<Action>)
    decreases |run|, 0
  {
    run == [] || (CanRun(c, run[..|run| - 1]) && Enabled(After(c, run[..|run| - 1]), run[|run| - 1]))
  }

  function After(c: Client, run: seq<Action>): State
    requires CanRun(c, run)
    decreases |run|, 1
  {
    if run == [] then START else Apply(c, After(c, run[..|run| - 1]), run[|run| - 1])
  }

  // ---------------------------------------------------------------- what a run offers and where it is

  function Own(src: Source, f: Frame): seq<Frame> {
    if f.source == src then [f] else []
  }

  /** The frames of one source, in order. */
  function Of(src: Source, frames: seq<Frame>): seq<Frame> {
    if frames == [] then [] else Of(src, frames[..|frames| - 1]) + Own(src, frames[|frames| - 1])
  }

  /** Every frame a run wants to enqueue, in order. */
  function Offered(c: Client, run: seq<Action>): seq<Frame> {
    if run == [] then [] else Offered(c, run[..|run| - 1]) + Offer(c, run[|run| - 1])
  }

  /** Written, in the writer's hand, queued. */
  function Line(s: State): seq<Frame> {
    s.written + s.hand + s.queue
  }

  function Waiting(s: State, src: Source): seq<Frame> {
    if src in s.pending then [s.pending[src]] else []
  }

  /** The frames of a source, from the client's end of the connection to the goroutine's. */
  function Flow(s: State, src: Source): seq<Frame> {
    Of(src, Line(s)) + Waiting(s, src)
  }

  /** The messages a run hands to the callback of one account subscription. */
  function Handed(run: seq<Action>, sub: nat): seq<Message> {
    if run == [] then []
    else
      var a := run[|run| - 1];
      Handed(run[..|run| - 1], sub) + (if a.AccountArrives? && a.sub == sub then [a.message] else [])
  }

  /** The frames made of the messages in scope, in order. */
  function Frames(c: Client, sub: nat, messages: seq<Message>): seq<Frame> {
    if messages == [] then []
    else
      var m := messages[|messages| - 1];
      Frames(c, sub, messages[..|messages| - 1]) + (if InScope(c, m) then [Wrap(c, sub, m)] else [])
  }

  // ---------------------------------------------------------------- invariants of one step

  lemma OfSnoc(src: Source, frames: seq<Frame>, f: Frame)
    ensures Of(src, frames + [f]) == Of(src, frames) + Own(src, f)
  {
    assert (frames + [f])[..|frames|] == frames;
  }

  lemma OfOne(src: Source, f: Frame)
    ensures Of(src, [f]) == Own(src, f)
  {
    assert [f] == [] + [f];
    OfSnoc(src, [], f);
  }

  lemma Associative(a: seq<Frame>, b: seq<Frame>, c: seq<Frame>)
    ensures a + (b + c) == (a + b) + c
  {
  }

  lemma {:induction false} OfConcat(src: Source, a: seq<Frame>, b: seq<Frame>)
    ensures Of(src, a + b) == Of(src, a) + Of(src, b)
    decreases |b|
  {
    if b == [] {
      assert a + b == a;
    } else {
      var init, f := b[..|b| - 1], b[|b| - 1];
      OfConcat(src, a, init);
      Associative(a, init, [f]);
      assert init + [f] == b;
      OfSnoc(src, a + init, f);
      Associative(Of(src, a), Of(src, init), Own(src, f));
    }
  }

  /** A goroutine waits with its own frame, and no market callback ever waits. */
  predicate Tidy(s: State) {
    && |s.queue| <= SEND_BUFFER
    && |s.hand| <= 1
    && (forall src :: src in s.pending ==> s.pending[src].source == src && !src.Market?)
    && (forall f :: f in s.dropped ==> f.source.Market?)
  }

  lemma StepIsTidy(c: Client, s: State, a: Action)
    requires Enabled(s, a) && Tidy(s)
    ensures Tidy(Apply(c, s, a))
  {
  }

  lemma TakeKeepsLine(s: State)
    requires s.hand == [] && s.queue != []
    ensures s.written + [s.queue[0]] + s.queue[1..] == Line(s)
  {
    assert [s.queue[0]] + s.queue[1..] == s.queue;
  }

  lemma EnqueueLine(s: State, f: Frame, src: Source)
    ensures Of(src, Line(s.(queue := s.queue + [f]))) == Of(src, Line(s)) + Own(src, f)
  {
    Associative(s.written + s.hand, s.queue, [f]);
    OfSnoc(src, Line(s), f);
  }

  lemma PutKeepsFlow(s: State, f: Frame, src: Source)
    requires f.source !in s.pending
    ensures Flow(PutAccount(s, f), src) == Flow(s, src) + Own(src, f)
  {
    if |s.queue| < SEND_BUFFER {
      EnqueueLine(s, f, src);
    }
  }

  lemma UnblockKeepsFlow(s: State, f: Frame, src: Source)
    requires f.source in s.pending && s.pending[f.source] == f
    ensures Flow(s.(queue := s.queue + [f], pending := s.pending - {f.source}), src) == Flow(s, src)
  {
    var t := s.(queue := s.queue + [f]);
    EnqueueLine(s, f, src);
    assert Line(t.(pending := s.pending - {f.source})) == Line(t);
  }

  lemma MarketKeepsFlow(s: State, f: Frame, src: Source)
    requires f.source.Market? && !src.Market?
    ensures Flow(PutMarket(s, f), src) == Flow(s, src)
  {
    if |s.queue| < SEND_BUFFER {
      EnqueueLine(s, f, src);
    }
  }

  lemma QuietStep(c: Client, s: State, a: Action, src: Source)
    requires Enabled(s, a) && Tidy(s) && (a.Unblocks? || a.Takes? || a.Writes? || a.Closes?)
    ensures Flow(Apply(c, s, a), src) == Flow(s, src)
  {
    match a
    case Unblocks(from) => UnblockKeepsFlow(s, s.pending[from], src);
    case Takes => TakeKeepsLine(s);
    case Writes => assert Line(Apply(c, s, a)) == Line(s);
    case Closes(_) =>
  }

  /** For every source but the market ones, a step adds to the flow just what it offers. */
  lemma StepKeepsFlow(c: Client, s: State, a: Action, src: Source)
    requires Enabled(s, a) && Tidy(s) && !src.Market?
    ensures Flow(Apply(c, s, a), src) == Flow(s, src) + Of(src, Offer(c, a))
  {
    if Offer(c, a) != [] {
      var f := Offer(c, a)[0];
      OfOne(src, f);
      if a.MarketArrives? {
        MarketKeepsFlow(s, f, src);
      } else {
        PutKeepsFlow(s, f, src);
      }
    } else if !a.AccountArrives? {
      QuietStep(c, s, a, src);
    }
  }

  // ---------------------------------------------------------------- every run

  lemma {:induction false} RunIsTidy(c: Client, run: seq<Action>)
    requires CanRun(c, run)
    ensures Tidy(After(c, run))
    decreases |run|
  {
    if run != [] {
      RunIsTidy(c, run[..|run| - 1]);
      StepIsTidy(c, After(c, run[..|run| - 1]), run[|run| - 1]);
    }
  }

  /** No frame of an account subscription or of the read loop is lost, repeated or overtaken by another of the
      same source: what was offered is what was written, is in hand, is queued or waits, in that order. */
  lemma {:induction false} NothingLost(c: Client, run: seq<Action>, src: Source)
    requires CanRun(c, run) && !src.Market?
    ensures Flow(After(c, run), src) == Of(src, Offered(c, run))
    decreases |run|
  {
    if run != [] {
      var init, a := run[..|run| - 1], run[|run| - 1];
      NothingLost(c, init, src);
      RunIsTidy(c, init);
      StepKeepsFlow(c, After(c, init), a, src);
      OfConcat(src, Offered(c, init), Offer(c, a));
    }
  }

  lemma FramesSnoc(c: Client, sub: nat, messages: seq<Message>, m: Message)
    ensures Frames(c, sub, messages + [m])
         == Frames(c, sub, messages) + (if InScope(c, m) then [Wrap(c, sub, m)] else [])
  {
    assert (messages + [m])[..|messages|] == messages;
  }

  lemma OfferOf(c: Client, a: Action, sub: nat)
    ensures Of(Account(sub), Offer(c, a))
         == if a.AccountArrives? && a.sub == sub && InScope(c, a.message) then [Wrap(c, sub, a.message)] else []
  {
    if Offer(c, a) != [] {
      OfOne(Account(sub), Offer(c, a)[0]);
    }
  }

  /** What is offered for a subscription is made of the messages handed to its callback. */
  lemma {:induction false} OfferedAreHanded(c: Client, run: seq<Action>, sub: nat)
    ensures Of(Account(sub), Offered(c, run)) == Frames(c, sub, Handed(run, sub))
    decreases |run|
  {
    if run != [] {
      var init, a := run[..|run| - 1], run[|run| - 1];
      OfferedAreHanded(c, init, sub);
      OfConcat(Account(sub), Offered(c, init), Offer(c, a));
      OfferOf(c, a, sub);
      if a.AccountArrives? && a.sub == sub {
        FramesSnoc(c, sub, Handed(init, sub), a.message);
      } else {
        assert Handed(run, sub) == Handed(init, sub);
      }
    }
  }

  /** The delivery law: at every point of every run, an account subscription's frames are exactly its messages
      in scope, and the client has a prefix of them. */
  lemma {:induction false} Delivery(c: Client, run: seq<Action>, sub: nat)
    requires CanRun(c, run)
    ensures Flow(After(c, run), Account(sub)) == Frames(c, sub, Handed(run, sub))
    ensures Of(Account(sub), After(c, run).written) <= Frames(c, sub, Handed(run, sub))
  {
    NothingLost(c, run, Account(sub));
    OfferedAreHanded(c, run, sub);
    var s := After(c, run);
    OfConcat(Account(sub), s.written + s.hand, s.queue);
    OfConcat(Account(sub), s.written, s.hand);
  }

  /** Only market frames are ever given up, and the queue never holds more than its capacity. */
  lemma {:induction false} OnlyMarketDropped(c: Client, run: seq<Action>, f: Frame)
    requires CanRun(c, run)
    ensures f in After(c, run).dropped ==> f.source.Market?
    ensures |After(c, run).queue| <= SEND_BUFFER
  {
    RunIsTidy(c, run);
  }

  // ---------------------------------------------------------------- market frames

  /** `part` is `whole` with some elements left out. */
  predicate Subsequence(part: seq<Frame>, whole: seq<Frame>)
    decreases |whole|
  {
    if part == [] then true
    else if whole == [] then false
    else
      var p, w := part[|part| - 1], whole[|whole| - 1];
      || (p == w && Subsequence(part[..|part| - 1], whole[..|whole| - 1]))
      || Subsequence(part, whole[..|whole| - 1])
  }

  lemma Skips(part: seq<Frame>, whole: seq<Frame>, f: Frame)
    requires Subsequence(part, whole)
    ensures Subsequence(part, whole + [f])
  {
    assert (whole + [f])[..|whole|] == whole;
  }

  lemma Keeps(part: seq<Frame>, whole: seq<Frame>, f: Frame)
    requires Subsequence(part, whole)
    ensures Subsequence(part + [f], whole + [f])
  {
    assert (whole + [f])[..|whole|] == whole;
    assert (part + [f])[..|part|] == part;
  }

  /** From one state to the next, a source's frames either all get in line or are all dropped. */
  predicate InLineOrDropped(s: State, t: State, src: Source, offer: seq<Frame>) {
    || (Of(src, Line(t)) == Of(src, Line(s)) + offer && Of(src, t.dropped) == Of(src, s.dropped))
    || (Of(src, Line(t)) == Of(src, Line(s)) && Of(src, t.dropped) == Of(src, s.dropped) + offer)
  }

  lemma MarketPut(s: State, f: Frame, src: Source)
    ensures InLineOrDropped(s, PutMarket(s, f), src, Of(src, [f]))
  {
    OfOne(src, f);
    if |s.queue| < SEND_BUFFER {
      EnqueueLine(s, f, src);
    } else {
      OfSnoc(src, s.dropped, f);
    }
  }

  lemma OtherPut(s: State, f: Frame, src: Source)
    requires f.source != src
    ensures InLineOrDropped(s, PutAccount(s, f), src, [])
  {
    if |s.queue| < SEND_BUFFER {
      EnqueueLine(s, f, src);
    }
  }

  lemma OtherUnblocks(c: Client, s: State, from: Source, src: Source)
    requires Tidy(s) && Enabled(s, Unblocks(from)) && src != from
    ensures InLineOrDropped(s, Apply(c, s, Unblocks(from)), src, [])
  {
    EnqueueLine(s, s.pending[from], src);
  }

  lemma MarketStep(c: Client, s: State, a: Action, src: Source)
    requires Enabled(s, a) && Tidy(s) && src.Market?
    ensures InLineOrDropped(s, Apply(c, s, a), src, Of(src, Offer(c, a)))
  {
    match a
    case MarketArrives(_, _) => MarketPut(s, Offer(c, a)[0], src);
    case AccountArrives(_, _) =>
      if Offer(c, a) != [] {
        OfOne(src, Offer(c, a)[0]);
        OtherPut(s, Offer(c, a)[0], src);
      }
    case Replies(_) =>
      OfOne(src, Offer(c, a)[0]);
      OtherPut(s, Offer(c, a)[0], src);
    case Unblocks(from) => OtherUnblocks(c, s, from, src);
    case Takes => TakeKeepsLine(s);
    case Writes => assert Line(Apply(c, s, a)) == Line(s);
    case Closes(_) =>
  }

  lemma OfferIsShort(c: Client, a: Action, src: Source)
    ensures Of(src, Offer(c, a)) == [] || (|Of(src, Offer(c, a))| == 1 && Of(src, Offer(c, a)) == Offer(c, a))
  {
    if Offer(c, a) != [] {
      OfOne(src, Offer(c, a)[0]);
    }
  }

  lemma Extends(part: seq<Frame>, whole: seq<Frame>, more: seq<Frame>)
    requires Subsequence(part, whole) && |more| <= 1
    ensures Subsequence(part, whole + more) && Subsequence(part + more, whole + more)
  {
    if more == [] {
      assert whole + more == whole && part + more == part;
    } else {
      assert more == [more[0]];
      Skips(part, whole, more[0]);
      Keeps(part, whole, more[0]);
    }
  }

  lemma Accounted(kept: seq<Frame>, dropped: seq<Frame>, offered: seq<Frame>, more: seq<Frame>)
    requires multiset(kept) + multiset(dropped) == multiset(offered)
    ensures multiset(kept + more) + multiset(dropped) == multiset(offered + more)
    ensures multiset(kept) + multiset(dropped + more) == multiset(offered + more)
  {
  }

  /** A market subscription's frames may have gaps, but no repeats and no reordering; and every frame it
      offered is on its way or dropped, as often as it was offered. */
  lemma {:induction false} MarketInOrder(c: Client, run: seq<Action>, src: Source)
    requires CanRun(c, run) && src.Market?
    ensures Subsequence(Of(src, Line(After(c, run))), Of(src, Offered(c, run)))
    ensures multiset(Of(src, Line(After(c, run)))) + multiset(Of(src, After(c, run).dropped))
         == multiset(Of(src, Offered(c, run)))
    decreases |run|
  {
    if run != [] {
      var init, a := run[..|run| - 1], run[|run| - 1];
      var more := Of(src, Offer(c, a));
      MarketInOrder(c, init, src);
      RunIsTidy(c, init);
      MarketStep(c, After(c, init), a, src);
      OfConcat(src, Offered(c, init), Offer(c, a));
      OfferIsShort(c, a, src);
      Extends(Of(src, Line(After(c, init))), Of(src, Offered(c, init)), more);
      Accounted(Of(src, Line(After(c, init))), Of(src, After(c, init).dropped), Of(src, Offered(c, init)), more);
    }
  }

  // ---------------------------------------------------------------- progress

  /** What is still between the goroutines and the client. */
  function Work(s: State): nat {
    3 * |s.pending| + 2 * |s.queue| + |s.hand|
  }

  predicate Delivers(a: Action) {
    a.Unblocks? || a.Takes? || a.Writes?
  }

  lemma DeliveringIsWork(c: Client, s: State, a: Action)
    requires Enabled(s, a) && Tidy(s) && Delivers(a)
    ensures Work(Apply(c, s, a)) < Work(s)
  {
    if a.Unblocks? {
      assert (s.pending - {a.source}).Keys == s.pending.Keys - {a.source};
    }
  }

  /** An open connection is never stuck: while any frame is undelivered the writer or a waiting goroutine can
      move, so a client that keeps reading gets everything after finitely many steps. */
  lemma {:induction false} NeverStuck(c: Client, run: seq<Action>) returns (a: Action)
    requires CanRun(c, run) && !After(c, run).done && Work(After(c, run)) > 0
    ensures CanRun(c, run + [a]) && Delivers(a)
    ensures Work(After(c, run + [a])) < Work(After(c, run))
  {
    var s := After(c, run);
    RunIsTidy(c, run);
    if s.hand != [] {
      a := Writes;
    } else if s.queue != [] {
      a := Takes;
    } else {
      var src :| src in s.pending;
      a := Unblocks(src);
    }
    assert (run + [a])[..|run|] == run;
    DeliveringIsWork(c, s, a);
  }

  /** Once nothing is on its way, the client has every message in scope. */
  lemma {:induction false} DrainedMeansDelivered(c: Client, run: seq<Action>, sub: nat)
    requires CanRun(c, run) && Work(After(c, run)) == 0
    ensures Of(Account(sub), After(c, run).written) == Frames(c, sub, Handed(run, sub))
  {
    Delivery(c, run, sub);
    var s := After(c, run);
    assert Line(s) == s.written;
  }

  // ---------------------------------------------------------------- the connection's goroutines

  lemma RunSnoc(c: Client, run: seq<Action>, a: Action)
    requires CanRun(c, run) && Enabled(After(c, run), a)
    ensures CanRun(c, run + [a]) && After(c, run + [a]) == Apply(c, After(c, run), a)
  {
    assert (run + [a])[..|run|] == run;
  }

  /** The channels and fields of a connection, and the run that has led to them. */
  class Pipe {
    const client: Client
    var queue: seq<Frame>
    var hand: seq<Frame>
    var written: seq<Frame>
    var pending: map<Source, Frame>
    var dropped: seq<Frame>
    var done: bool
    ghost var run: seq<Action>

    function View(): State
      reads this
    {
      State(queue, hand, written, pending, dropped, done)
    }

    ghost predicate Valid()
      reads this
    {
      CanRun(client, run) && View() == After(client, run)
    }

    constructor (client: Client)
      ensures Valid() && run == [] && this.client == client
    {
      this.client := client;
      queue, hand, written, pending, dropped, done := [], [], [], map[], [], false;
      run := [];
    }

    /** The bar gets in line behind everything before it; it is dropped, with the line unchanged, exactly when the
        queue is full. */
    method EnqueueMarket(sub: nat, bytes: string)
      requires Valid() && !done
      modifies this
      ensures Valid() && run == old(run) + [MarketArrives(sub, bytes)] && |queue| <= 256
      ensures var frame := Frame(Market(sub), Bar(bytes));
              if old(|queue|) < 256
              then queue == old(queue) + [frame] && dropped == old(dropped) && Line(View()) == old(Line(View())) + [frame]
              else queue == old(queue) && dropped == old(dropped) + [frame] && Line(View()) == old(Line(View()))
    {
      ghost var a := MarketArrives(sub, bytes);
      RunSnoc(client, run, a);
      var frame := Frame(Market(sub), Bar(bytes));
      if |queue| < SEND_BUFFER {
        Associative(written + hand, queue, [frame]);
        queue := queue + [frame];
      } else {
        dropped := dropped + [frame];
      }
      run := run + [a];
      RunIsTidy(client, run);
    }

    /** The frame is not lost: it is queued if there is room, and otherwise the goroutine waits with it. */
    method EnqueueAccount(frame: Frame)
      requires frame.source !in pending
      modifies this`queue, this`pending
      ensures View() == PutAccount(old(View()), frame)
      ensures forall src :: Flow(View(), src) == old(Flow(View(), src)) + Own(src, frame)
      ensures old(|queue|) < 256 ==> queue == old(queue) + [frame] && pending == old(pending)
    {
      ghost var was := View();
      if |queue| < SEND_BUFFER {
        queue := queue + [frame];
      } else {
        pending := pending[frame.source := frame];
      }
      forall src
        ensures Flow(View(), src) == Flow(was, src) + Own(src, frame)
      {
        PutKeepsFlow(was, frame, src);
      }
    }

    /** A reply is one more frame of the read loop, behind the ones before it. */
    method EnqueueControl(text: string)
      requires Valid() && Enabled(View(), Replies(text))
      modifies this
      ensures Valid() && run == old(run) + [Replies(text)]
      ensures Flow(View(), Reader) == old(Flow(View(), Reader)) + [Frame(Reader, Reply(text))]
    {
      RunIsTidy(client, run);
      RunSnoc(client, run, Replies(text));
      EnqueueAccount(Frame(Reader, Reply(text)));
      run := run + [Replies(text)];
    }

    /** Everything on its way for the subscription, and nothing else, is what its callback was handed in scope. */
    method HandleAccountMsg(sub: nat, m: Message)
      requires Valid() && Enabled(View(), AccountArrives(sub, m))
      modifies this
      ensures Valid() && run == old(run) + [AccountArrives(sub, m)]
      ensures Flow(View(), Account(sub)) == Frames(client, sub, Handed(run, sub))
    {
      ghost var a := AccountArrives(sub, m);
      RunIsTidy(client, run);
      RunSnoc(client, run, a);
      if (m.userId == "" || m.userId == client.userId) && m.encodes {
        EnqueueAccount(Frame(Account(sub), Envelope(client.channel(sub), LastToken(m.subject), m.sequence, m.data)));
      }
      run := run + [a];
      Delivery(client, run, sub);
    }

    /** The second select of a waiting goroutine finds room. No flow changes. */
    method Unblock(src: Source)
      requires Valid() && Enabled(View(), Unblocks(src))
      modifies this
      ensures Valid() && run == old(run) + [Unblocks(src)] && src !in pending
      ensures forall other :: Flow(View(), other) == old(Flow(View(), other))
    {
      ghost var was := View();
      RunIsTidy(client, run);
      RunSnoc(client, run, Unblocks(src));
      queue := queue + [pending[src]];
      pending := pending - {src};
      run := run + [Unblocks(src)];
      forall other
        ensures Flow(View(), other) == Flow(was, other)
      {
        UnblockKeepsFlow(was, was.pending[src], other);
      }
    }

    /** The writer takes the oldest frame; the line stays as it is. */
    method Take()
      requires Valid() && Enabled(View(), Takes)
      modifies this
      ensures Valid() && run == old(run) + [Takes]
      ensures Line(View()) == old(Line(View())) && |hand| == 1
    {
      TakeKeepsLine(View());
      RunSnoc(client, run, Takes);
      hand := [queue[0]];
      queue := queue[1..];
      run := run + [Takes];
    }

    /** What the client then has of any account subscription is a beginning of what is in scope. */
    method Write()
      requires Valid() && Enabled(View(), Writes)
      modifies this
      ensures Valid() && run == old(run) + [Writes]
      ensures Line(View()) == old(Line(View())) && old(written) <= written && hand == []
      ensures forall sub :: Of(Account(sub), written) <= Frames(client, sub, Handed(run, sub))
    {
      RunSnoc(client, run, Writes);
      written := written + hand;
      hand := [];
      run := run + [Writes];
      assert Line(View()) == old(Line(View()));
      forall sub
        ensures Of(Account(sub), written) <= Frames(client, sub, Handed(run, sub))
      {
        Delivery(client, run, sub);
      }
    }

    /** Nothing is enqueued or written from here on. */
    method Close(reason: Reason)
      requires Valid() && Enabled(View(), Closes(reason))
      modifies this
      ensures Valid() && run == old(run) + [Closes(reason)] && written == old(written)
      ensures forall a :: !Enabled(View(), a)
    {
      RunSnoc(client, run, Closes(reason));
      done := true;
      run := run + [Closes(reason)];
    }
  }
}
