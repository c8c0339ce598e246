/** The NATS subscriptions of one WebSocket connection, control message by control message. */
module WsSubscriptions {
  import opened Options
  import opened WsChannels
  import Text

  datatype Tag = Closed | Forming

  /** A live subscription: to the closed or forming bars of a key, or a consumer of an account stream that starts
      after a sequence number or with new messages only. */
  datatype Sub =
    | Bars(key: string, tag: Tag, subject: string)
    | Consumer(ch: string, stream: string, subject: string, after: Option<nat>)

  datatype Msg =
    | Hello(resume: map<string, nat>)
    | Ping
    | Subscribe(ch: string, symbol: string, tf: string)
    | Unsubscribe(symbol: string, tf: string)
    | Unknown(op: string)

  datatype Reply = Ack(op: string, key: string) | Error(code: string, detail: string)

  /** How the broker answers a subscribe. */
  datatype Outcome = Subscribed | StreamNotFound | Failed

  /** What does not change during a connection: the broker's answers by attempt, whether there is a JetStream
      context, the account channels, the ids in scope, and how names are trimmed. */
  datatype Env = Env(outcome: nat -> Outcome, jetStream: bool, channels: seq<Channel>, scope: Scope, trim: string -> string)

  /** Subscriptions are named by the attempt that made them. `bars` has two per key. */
  datatype Table = Table(live: map<nat, Sub>, attempts: nat, bars: map<string, (nat, nat)>, accounts: seq<nat>)

  datatype State = State(table: Table, started: bool, replies: seq<Reply>)

  const START := State(Table(map[], 0, map[], []), false, [])

  // ---------------------------------------------------------------- one control message

  function Say(s: State, r: Reply): State {
    s.(replies := s.replies + [r])
  }

  function Try(env: Env, t: Table, sub: Sub): Table {
    t.(attempts := t.attempts + 1,
       live := if env.outcome(t.attempts).Subscribed? then t.live[t.attempts := sub] else t.live)
  }

  function Timeframe(env: Env, tf: string): string {
    if env.trim(tf) == "" then "M1" else env.trim(tf)
  }

  function Key(tf: string, symbol: string): string {
    tf + ":" + symbol
  }

  function ClosedBars(tf: string, symbol: string): Sub {
    Bars(Key(tf, symbol), Closed, "bars." + tf + "." + symbol)
  }

  function FormingBars(tf: string, symbol: string): Sub {
    Bars(Key(tf, symbol), Forming, "bars.live." + tf + "." + symbol)
  }

  /** Both subscriptions or none. */
  function AddBars(env: Env, t: Table, tf: string, symbol: string): Table {
    var closed := t.attempts;
    var t1 := Try(env, t, ClosedBars(tf, symbol));
    if !env.outcome(closed).Subscribed? then t1
    else
      var forming := t1.attempts;
      var t2 := Try(env, t1, FormingBars(tf, symbol));
      if !env.outcome(forming).Subscribed? then t2.(live := t2.live - {closed})
      else t2.(bars := t2.bars[Key(tf, symbol) := (closed, forming)])
  }

  function SubscribeBars(env: Env, s: State, msg: Msg): State
    requires msg.Subscribe?
  {
    var symbol, tf := env.trim(msg.symbol), Timeframe(env, msg.tf);
    if msg.ch != "bars" then Say(s, Error("unsupported_channel", msg.ch))
    else if symbol == "" then Say(s, Error("bad_request", ""))
    else if Key(tf, symbol) in s.table.bars then Say(s, Ack("subscribe", Key(tf, symbol)))
    else
      var t := AddBars(env, s.table, tf, symbol);
      Say(s.(table := t),
          if Key(tf, symbol) in t.bars then Ack("subscribe", Key(tf, symbol)) else Error("subscribe_failed", ""))
  }

  function DropBars(t: Table, key: string): Table {
    if key in t.bars then t.(live := t.live - {t.bars[key].0, t.bars[key].1}, bars := t.bars - {key}) else t
  }

  function UnsubscribeBars(env: Env, s: State, msg: Msg): State
    requires msg.Unsubscribe?
  {
    var key := Key(Timeframe(env, msg.tf), env.trim(msg.symbol));
    Say(s.(table := DropBars(s.table, key)), Ack("unsubscribe", key))
  }

  function ConsumerFor(channel: Channel, id: string, resume: map<string, nat>): Sub {
    Consumer(channel.ch, channel.stream, channel.prefix + id + (if channel.deep then ".>" else ""),
             if channel.ch in resume && resume[channel.ch] > 0 then Some(resume[channel.ch]) else None)
  }

  function IdsOf(scope: Scope, channel: Channel): seq<string> {
    if channel.keyedBy.KeyedByAccount? then scope.accountIds else scope.helmIds
  }

  function ForIds(channel: Channel, ids: seq<string>, resume: map<string, nat>): seq<Sub> {
    if ids == [] then [] else [ConsumerFor(channel, ids[0], resume)] + ForIds(channel, ids[1..], resume)
  }

  /** The consumers a connection should have: one per channel and owned id. */
  function Plan(channels: seq<Channel>, scope: Scope, resume: map<string, nat>): seq<Sub> {
    if channels == [] then []
    else ForIds(channels[0], IdsOf(scope, channels[0]), resume) + Plan(channels[1..], scope, resume)
  }

  /** Create one consumer; a missing stream is skipped silently. */
  function AddConsumer(env: Env, s: State, sub: Sub): State
    requires sub.Consumer?
  {
    var n, t := s.table.attempts, Try(env, s.table, sub);
    match env.outcome(n)
    case Subscribed => s.(table := t.(accounts := t.accounts + [n]))
    case StreamNotFound => s.(table := t)
    case Failed => Say(s.(table := t), Error("account_subscribe_failed", sub.ch))
  }

  predicate AllConsumers(plan: seq<Sub>) {
    forall i :: 0 <= i < |plan| ==> plan[i].Consumer?
  }

  function AddAll(env: Env, s: State, plan: seq<Sub>): State
    requires AllConsumers(plan)
    decreases |plan|
  {
    if plan == [] then s else AddAll(env, AddConsumer(env, s, plan[0]), plan[1..])
  }

  lemma {:induction false} ForIdsConsumers(channel: Channel, ids: seq<string>, resume: map<string, nat>)
    ensures AllConsumers(ForIds(channel, ids, resume)) && |ForIds(channel, ids, resume)| == |ids|
  {
    if ids != [] {
      ForIdsConsumers(channel, ids[1..], resume);
    }
  }

  lemma {:induction false} PlanConsumers(channels: seq<Channel>, scope: Scope, resume: map<string, nat>)
    ensures AllConsumers(Plan(channels, scope, resume))
  {
    if channels != [] {
      ForIdsConsumers(channels[0], IdsOf(scope, channels[0]), resume);
      PlanConsumers(channels[1..], scope, resume);
    }
  }

  lemma {:induction false} ForIdsAt(channel: Channel, ids: seq<string>, resume: map<string, nat>, k: nat)
    requires k < |ids|
    ensures |ForIds(channel, ids, resume)| == |ids|
    ensures ForIds(channel, ids, resume)[k] == ConsumerFor(channel, ids[k], resume)
  {
    if |ids| > 1 {
      ForIdsAt(channel, ids[1..], resume, if k == 0 then 0 else k - 1);
    }
  }

  /** How many consumers come before those of the i-th channel. */
  function Offset(channels: seq<Channel>, scope: Scope, i: nat): nat
    requires i <= |channels|
  {
    if i == 0 then 0 else |IdsOf(scope, channels[0])| + Offset(channels[1..], scope, i - 1)
  }

  /** The plan has one consumer for every channel and owned id, in order, and no other. */
  lemma {:induction false} PlanCovers(channels: seq<Channel>, scope: Scope, resume: map<string, nat>, i: nat, k: nat)
    requires i < |channels| && k < |IdsOf(scope, channels[i])|
    ensures |Plan(channels, scope, resume)| == Offset(channels, scope, |channels|)
    ensures Offset(channels, scope, i) + k < |Plan(channels, scope, resume)|
    ensures Plan(channels, scope, resume)[Offset(channels, scope, i) + k]
         == ConsumerFor(channels[i], IdsOf(scope, channels[i])[k], resume)
    decreases |channels|
  {
    ForIdsConsumers(channels[0], IdsOf(scope, channels[0]), resume);
    PlanLength(channels[1..], scope, resume);
    if i == 0 {
      ForIdsAt(channels[0], IdsOf(scope, channels[0]), resume, k);
    } else {
      PlanCovers(channels[1..], scope, resume, i - 1, k);
    }
  }

  lemma {:induction false} PlanLength(channels: seq<Channel>, scope: Scope, resume: map<string, nat>)
    ensures |Plan(channels, scope, resume)| == Offset(channels, scope, |channels|)
    decreases |channels|
  {
    if channels != [] {
      ForIdsConsumers(channels[0], IdsOf(scope, channels[0]), resume);
      PlanLength(channels[1..], scope, resume);
    }
  }

  /** What the first `hello`, or the first `subscribe` without one, sets out to create. */
  function PlanOf(env: Env, resume: map<string, nat>): (plan: seq<Sub>)
    ensures AllConsumers(plan)
  {
    PlanConsumers(env.channels, env.scope, resume);
    if env.jetStream then Plan(env.channels, env.scope, resume) else []
  }

  function StartAccounts(env: Env, s: State, resume: map<string, nat>): State {
    if s.started then s else AddAll(env, s.(started := true), PlanOf(env, resume))
  }

  predicate IsAccountCh(env: Env, ch: string) {
    exists i :: 0 <= i < |env.channels| && env.channels[i].ch == ch
  }

  function Next(env: Env, s: State, msg: Msg): State {
    match msg
    case Hello(resume) => StartAccounts(env, s, resume)
    case Ping => Say(s, Ack("ping", ""))
    case Subscribe(ch, _, _) =>
      if IsAccountCh(env, ch) then Say(s, Error("forbidden", ch))
      else SubscribeBars(env, StartAccounts(env, s, map[]), msg)
    case Unsubscribe(_, _) => UnsubscribeBars(env, s, msg)
    case Unknown(op) => Say(s, Error("unknown_op", op))
  }

  function Run(env: Env, msgs: seq<Msg>): State {
    if msgs == [] then START else Next(env, Run(env, msgs[..|msgs| - 1]), msgs[|msgs| - 1])
  }

  predicate Holds(t: Table, id: nat) {
    id in t.accounts || exists key :: key in t.bars && (id == t.bars[key].0 || id == t.bars[key].1)
  }

  /** Unsubscribe everything the connection holds. */
  function Close(t: Table): Table {
    t.(live := map id | id in t.live && !Holds(t, id) :: t.live[id])
  }

  // ---------------------------------------------------------------- what is live is what is held

  /** A subscription to the bars of a key is live. */
  predicate LiveBars(t: Table, id: nat, key: string, tag: Tag) {
    id in t.live && t.live[id].Bars? && t.live[id].key == key && t.live[id].tag == tag
  }

  /** The subscription is held under its own key, or among the account consumers. */
  predicate HeldAs(t: Table, id: nat, sub: Sub) {
    match sub
    case Bars(key, tag, _) => key in t.bars && id == (if tag == Closed then t.bars[key].0 else t.bars[key].1)
    case Consumer(_, _, _, _) => id in t.accounts
  }

  ghost predicate BarsAreLive(t: Table) {
    forall key :: key in t.bars ==> LiveBars(t, t.bars[key].0, key, Closed) && LiveBars(t, t.bars[key].1, key, Forming)
  }

  ghost predicate AccountsAreLive(t: Table) {
    forall id :: id in t.accounts ==> id in t.live && t.live[id].Consumer?
  }

  ghost predicate LiveAreHeld(t: Table) {
    forall id :: id in t.live ==> id < t.attempts && HeldAs(t, id, t.live[id])
  }

  ghost predicate Inv(t: Table) {
    BarsAreLive(t) && AccountsAreLive(t) && LiveAreHeld(t)
  }

  lemma BurnKeepsInv(t: Table, more: nat)
    requires Inv(t)
    ensures Inv(t.(attempts := t.attempts + more))
  {
    var u := t.(attempts := t.attempts + more);
    assert forall id :: id in u.live ==> HeldAs(t, id, t.live[id]);
  }

  lemma GrantKeepsInv(t: Table, sub: Sub)
    requires Inv(t) && sub.Consumer?
    ensures Inv(t.(attempts := t.attempts + 1, live := t.live[t.attempts := sub], accounts := t.accounts + [t.attempts]))
  {
    var n := t.attempts;
    var u := t.(attempts := n + 1, live := t.live[n := sub], accounts := t.accounts + [n]);
    assert n !in t.live;
    forall key | key in u.bars
      ensures LiveBars(u, u.bars[key].0, key, Closed) && LiveBars(u, u.bars[key].1, key, Forming)
    {
      assert LiveBars(t, t.bars[key].0, key, Closed) && LiveBars(t, t.bars[key].1, key, Forming);
    }
    forall id | id in u.live
      ensures id < u.attempts && HeldAs(u, id, u.live[id])
    {
      assert id != n ==> HeldAs(t, id, t.live[id]);
    }
  }

  /** Two new subscriptions held under a key. */
  function Paired(t: Table, key: string, closed: Sub, forming: Sub): Table {
    var n := t.attempts;
    t.(attempts := n + 2, live := t.live[n := closed][n + 1 := forming], bars := t.bars[key := (n, n + 1)])
  }

  predicate PairOf(key: string, closed: Sub, forming: Sub) {
    && closed.Bars? && closed.key == key && closed.tag == Closed
    && forming.Bars? && forming.key == key && forming.tag == Forming
  }

  lemma PairedHeldAreLive(t: Table, key: string, closed: Sub, forming: Sub)
    requires BarsAreLive(t) && AccountsAreLive(t) && PairOf(key, closed, forming)
    requires forall id :: id in t.live ==> id < t.attempts
    ensures BarsAreLive(Paired(t, key, closed, forming)) && AccountsAreLive(Paired(t, key, closed, forming))
  {
    var u := Paired(t, key, closed, forming);
    forall k | k in u.bars
      ensures LiveBars(u, u.bars[k].0, k, Closed) && LiveBars(u, u.bars[k].1, k, Forming)
    {
      assert k != key ==> LiveBars(t, t.bars[k].0, k, Closed) && LiveBars(t, t.bars[k].1, k, Forming);
    }
  }

  lemma PairedLiveAreHeld(t: Table, key: string, closed: Sub, forming: Sub)
    requires LiveAreHeld(t) && PairOf(key, closed, forming) && key !in t.bars
    ensures LiveAreHeld(Paired(t, key, closed, forming))
  {
    var u := Paired(t, key, closed, forming);
    forall id | id in u.live
      ensures id < u.attempts && HeldAs(u, id, u.live[id])
    {
      if id < t.attempts {
        assert HeldAs(t, id, t.live[id]);
      }
    }
  }

  lemma DropKeepsInv(t: Table, key: string)
    requires Inv(t)
    ensures Inv(DropBars(t, key))
  {
    if key in t.bars {
      var u := DropBars(t, key);
      assert LiveBars(t, t.bars[key].0, key, Closed) && LiveBars(t, t.bars[key].1, key, Forming);
      forall k | k in u.bars
        ensures LiveBars(u, u.bars[k].0, k, Closed) && LiveBars(u, u.bars[k].1, k, Forming)
      {
        assert LiveBars(t, t.bars[k].0, k, Closed) && LiveBars(t, t.bars[k].1, k, Forming);
      }
      forall id | id in u.live
        ensures id < u.attempts && HeldAs(u, id, u.live[id])
      {
        assert HeldAs(t, id, t.live[id]);
      }
    }
  }

  /** Either both subscriptions are made and held, or only attempts are used up. */
  lemma AddBarsIs(env: Env, t: Table, tf: string, symbol: string)
    requires t.attempts !in t.live
    ensures var n := t.attempts;
            AddBars(env, t, tf, symbol) ==
              if env.outcome(n).Subscribed? && env.outcome(n + 1).Subscribed?
              then Paired(t, Key(tf, symbol), ClosedBars(tf, symbol), FormingBars(tf, symbol))
              else t.(attempts := n + (if env.outcome(n).Subscribed? then 2 else 1))
  {
    var n := t.attempts;
    assert t.live[n := ClosedBars(tf, symbol)] - {n} == t.live;
  }

  lemma PairedKeepsInv(t: Table, tf: string, symbol: string)
    requires Inv(t) && Key(tf, symbol) !in t.bars
    ensures Inv(Paired(t, Key(tf, symbol), ClosedBars(tf, symbol), FormingBars(tf, symbol)))
  {
    PairedHeldAreLive(t, Key(tf, symbol), ClosedBars(tf, symbol), FormingBars(tf, symbol));
    PairedLiveAreHeld(t, Key(tf, symbol), ClosedBars(tf, symbol), FormingBars(tf, symbol));
  }

  lemma AddBarsKeepsInv(env: Env, t: Table, tf: string, symbol: string)
    requires Inv(t) && Key(tf, symbol) !in t.bars
    ensures Inv(AddBars(env, t, tf, symbol))
  {
    AddBarsIs(env, t, tf, symbol);
    if !env.outcome(t.attempts).Subscribed? {
      BurnKeepsInv(t, 1);
    } else if !env.outcome(t.attempts + 1).Subscribed? {
      BurnKeepsInv(t, 2);
    } else {
      PairedKeepsInv(t, tf, symbol);
    }
  }

  lemma AddConsumerTable(env: Env, s: State, sub: Sub)
    requires sub.Consumer?
    ensures var t := s.table;
            AddConsumer(env, s, sub).table ==
              if env.outcome(t.attempts).Subscribed?
              then t.(attempts := t.attempts + 1, live := t.live[t.attempts := sub], accounts := t.accounts + [t.attempts])
              else t.(attempts := t.attempts + 1)
  {
  }

  lemma AddConsumerKeepsInv(env: Env, s: State, sub: Sub)
    requires Inv(s.table) && sub.Consumer?
    ensures Inv(AddConsumer(env, s, sub).table)
  {
    AddConsumerTable(env, s, sub);
    if env.outcome(s.table.attempts).Subscribed? {
      GrantKeepsInv(s.table, sub);
    } else {
      BurnKeepsInv(s.table, 1);
    }
  }

  lemma {:induction false} AddAllKeepsInv(env: Env, s: State, plan: seq<Sub>)
    requires Inv(s.table) && AllConsumers(plan)
    ensures Inv(AddAll(env, s, plan).table)
    decreases |plan|
  {
    if plan != [] {
      AddConsumerKeepsInv(env, s, plan[0]);
      AddAllKeepsInv(env, AddConsumer(env, s, plan[0]), plan[1..]);
    }
  }

  lemma StartKeepsInv(env: Env, s: State, resume: map<string, nat>)
    requires Inv(s.table)
    ensures Inv(StartAccounts(env, s, resume).table)
  {
    if !s.started {
      AddAllKeepsInv(env, s.(started := true), PlanOf(env, resume));
    }
  }

  lemma SubscribeKeepsInv(env: Env, s: State, msg: Msg)
    requires Inv(s.table) && msg.Subscribe?
    ensures Inv(SubscribeBars(env, s, msg).table)
  {
    var symbol, tf := env.trim(msg.symbol), Timeframe(env, msg.tf);
    if Key(tf, symbol) !in s.table.bars {
      AddBarsKeepsInv(env, s.table, tf, symbol);
    }
  }

  lemma NextKeepsInv(env: Env, s: State, msg: Msg)
    requires Inv(s.table)
    ensures Inv(Next(env, s, msg).table)
  {
    match msg
    case Hello(resume) => StartKeepsInv(env, s, resume);
    case Ping =>
    case Subscribe(ch, _, _) =>
      StartKeepsInv(env, s, map[]);
      SubscribeKeepsInv(env, StartAccounts(env, s, map[]), msg);
    case Unsubscribe(_, _) => DropKeepsInv(s.table, Key(Timeframe(env, msg.tf), env.trim(msg.symbol)));
    case Unknown(_) =>
  }

  lemma {:induction false} RunKeepsInv(env: Env, msgs: seq<Msg>)
    ensures Inv(Run(env, msgs).table)
    decreases |msgs|
  {
    if msgs != [] {
      RunKeepsInv(env, msgs[..|msgs| - 1]);
      NextKeepsInv(env, Run(env, msgs[..|msgs| - 1]), msgs[|msgs| - 1]);
    }
  }

  lemma InvMeansHeld(t: Table, id: nat)
    requires Inv(t)
    ensures id in t.live <==> Holds(t, id)
  {
    if id in t.live {
      assert HeldAs(t, id, t.live[id]);
    }
    if Holds(t, id) && id !in t.accounts {
      var key :| key in t.bars && (id == t.bars[key].0 || id == t.bars[key].1);
      assert LiveBars(t, t.bars[key].0, key, Closed) && LiveBars(t, t.bars[key].1, key, Forming);
    }
  }

  /** After any control messages, whatever the broker answered, a subscription is live exactly when the
      connection holds it. */
  lemma LiveIsHeld(env: Env, msgs: seq<Msg>, id: nat)
    ensures id in Run(env, msgs).table.live <==> Holds(Run(env, msgs).table, id)
  {
    RunKeepsInv(env, msgs);
    InvMeansHeld(Run(env, msgs).table, id);
  }

  /** Closing leaves nothing live. */
  lemma CloseReleasesAll(env: Env, msgs: seq<Msg>)
    ensures Close(Run(env, msgs).table).live == map[]
  {
    var t := Run(env, msgs).table;
    forall id | id in t.live
      ensures Holds(t, id)
    {
      LiveIsHeld(env, msgs, id);
    }
    assert Close(t).live.Keys == {};
  }

  // ---------------------------------------------------------------- answers

  lemma AddBarsOthers(env: Env, t: Table, tf: string, symbol: string, key: string)
    requires t.attempts !in t.live && key != Key(tf, symbol)
    ensures var u := AddBars(env, t, tf, symbol);
            (key in u.bars <==> key in t.bars) && (key in t.bars ==> u.bars[key] == t.bars[key])
  {
    AddBarsIs(env, t, tf, symbol);
  }

  /** An acknowledged `subscribe` has both subscriptions of its key live, a refused one has none, and no other key
      is touched. */
  lemma SubscribeAnswer(env: Env, s: State, msg: Msg, other: string, id: nat)
    requires Inv(s.table) && msg.Subscribe? && msg.ch == "bars" && env.trim(msg.symbol) != ""
    ensures var key := Key(Timeframe(env, msg.tf), env.trim(msg.symbol));
            var u := SubscribeBars(env, s, msg);
            && u.replies == s.replies + [if key in u.table.bars then Ack("subscribe", key) else Error("subscribe_failed", "")]
            && (key in u.table.bars ==>
                  LiveBars(u.table, u.table.bars[key].0, key, Closed) && LiveBars(u.table, u.table.bars[key].1, key, Forming))
            && (key !in u.table.bars && id in u.table.live && u.table.live[id].Bars? ==> u.table.live[id].key != key)
            && (key in s.table.bars ==> u.table == s.table)
            && (other != key ==> (other in u.table.bars <==> other in s.table.bars))
  {
    var tf, symbol := Timeframe(env, msg.tf), env.trim(msg.symbol);
    SubscribeKeepsInv(env, s, msg);
    var u := SubscribeBars(env, s, msg);
    if id in u.table.live {
      assert HeldAs(u.table, id, u.table.live[id]);
    }
    assert s.table.attempts !in s.table.live;
    if other != Key(tf, symbol) {
      AddBarsOthers(env, s.table, tf, symbol, other);
    }
  }

  /** After an `unsubscribe` the key has no live subscription. */
  lemma UnsubscribeAnswer(env: Env, s: State, msg: Msg, id: nat)
    requires Inv(s.table) && msg.Unsubscribe?
    ensures var key := Key(Timeframe(env, msg.tf), env.trim(msg.symbol));
            var u := UnsubscribeBars(env, s, msg);
            && u.replies == s.replies + [Ack("unsubscribe", key)]
            && key !in u.table.bars
            && (id in u.table.live && u.table.live[id].Bars? ==> u.table.live[id].key != key)
  {
    var key := Key(Timeframe(env, msg.tf), env.trim(msg.symbol));
    DropKeepsInv(s.table, key);
    var t := DropBars(s.table, key);
    if id in t.live {
      assert HeldAs(t, id, t.live[id]);
    }
  }

  // ---------------------------------------------------------------- account consumers are created once

  /** The attempts n, n + 1, ... that the broker granted, out of `count` of them. */
  function Granted(env: Env, n: nat, count: nat): seq<nat> {
    if count == 0 then []
    else Granted(env, n, count - 1) + (if env.outcome(n + count - 1).Subscribed? then [n + count - 1] else [])
  }

  /** The consumers of a plan tried from attempt n on, as far as the broker granted them. */
  ghost predicate HasPlan(env: Env, t: Table, n: nat, plan: seq<Sub>) {
    && t.accounts == Granted(env, n, |plan|)
    && LivePlan(env, t.live, n, plan)
  }

  ghost predicate LivePlan(env: Env, live: map<nat, Sub>, n: nat, plan: seq<Sub>) {
    forall id :: n <= id < n + |plan| && env.outcome(id).Subscribed? ==> id in live && live[id] == plan[id - n]
  }

  lemma {:induction false} GrantedShift(env: Env, n: nat, count: nat)
    requires count > 0
    ensures Granted(env, n, count) == (if env.outcome(n).Subscribed? then [n] else []) + Granted(env, n + 1, count - 1)
  {
    if count > 1 {
      GrantedShift(env, n, count - 1);
    } else {
      assert Granted(env, n, 0) == [] && Granted(env, n + 1, 0) == [];
    }
  }

  /** Nothing older than attempt n has changed. */
  ghost predicate SameBefore(live: map<nat, Sub>, after: map<nat, Sub>, n: nat) {
    forall id :: id < n && id in live ==> id in after && after[id] == live[id]
  }

  lemma {:induction false} AddAllGrants(env: Env, s: State, plan: seq<Sub>)
    requires AllConsumers(plan)
    ensures AddAll(env, s, plan).table.accounts == s.table.accounts + Granted(env, s.table.attempts, |plan|)
    ensures AddAll(env, s, plan).started == s.started
    decreases |plan|
  {
    if plan != [] {
      AddAllGrants(env, AddConsumer(env, s, plan[0]), plan[1..]);
      GrantedShift(env, s.table.attempts, |plan|);
    }
  }

  lemma LivePlanCons(env: Env, live: map<nat, Sub>, n: nat, plan: seq<Sub>)
    requires plan != [] && LivePlan(env, live, n + 1, plan[1..])
    requires env.outcome(n).Subscribed? ==> n in live && live[n] == plan[0]
    ensures LivePlan(env, live, n, plan)
  {
    forall id | n <= id < n + |plan| && env.outcome(id).Subscribed?
      ensures id in live && live[id] == plan[id - n]
    {
      if id > n {
        assert plan[1..][id - (n + 1)] == plan[id - n];
      }
    }
  }

  lemma {:induction false} AddAllLive(env: Env, s: State, plan: seq<Sub>)
    requires AllConsumers(plan)
    ensures SameBefore(s.table.live, AddAll(env, s, plan).table.live, s.table.attempts)
    ensures LivePlan(env, AddAll(env, s, plan).table.live, s.table.attempts, plan)
    decreases |plan|
  {
    if plan != [] {
      var s1 := AddConsumer(env, s, plan[0]);
      AddAllLive(env, s1, plan[1..]);
      LivePlanCons(env, AddAll(env, s, plan).table.live, s.table.attempts, plan);
    }
  }

  /** The messages that start the account consumers, and with what resume points. */
  predicate Starts(env: Env, msg: Msg) {
    msg.Hello? || (msg.Subscribe? && !IsAccountCh(env, msg.ch))
  }

  function ResumeOf(msg: Msg): map<string, nat> {
    if msg.Hello? then msg.resume else map[]
  }

  /** The position of the first message that starts them, or the length if there is none. */
  function FirstStart(env: Env, msgs: seq<Msg>): (k: nat)
    ensures k <= |msgs|
    ensures k < |msgs| ==> Starts(env, msgs[k])
    ensures forall i :: 0 <= i < k ==> !Starts(env, msgs[i])
  {
    if msgs == [] then 0
    else
      var k := FirstStart(env, msgs[..|msgs| - 1]);
      if k < |msgs| - 1 || Starts(env, msgs[|msgs| - 1]) then k else |msgs|
  }

  /** No change to the account consumers. */
  ghost predicate SameAccounts(t: Table, u: Table) {
    && u.accounts == t.accounts
    && (forall id :: id in t.accounts && id in t.live ==> id in u.live && u.live[id] == t.live[id])
  }

  lemma BarsKeepAccounts(env: Env, t: Table, tf: string, symbol: string)
    requires Inv(t)
    ensures SameAccounts(t, AddBars(env, t, tf, symbol))
  {
    AddBarsIs(env, t, tf, symbol);
    var n := t.attempts;
    assert forall id :: id in t.accounts && id in t.live ==> id < n;
  }

  lemma DropKeepsAccounts(t: Table, key: string)
    requires Inv(t)
    ensures SameAccounts(t, DropBars(t, key))
  {
    if key in t.bars {
      assert LiveBars(t, t.bars[key].0, key, Closed) && LiveBars(t, t.bars[key].1, key, Forming);
    }
  }

  lemma SubscribeKeepsAccounts(env: Env, s: State, msg: Msg)
    requires Inv(s.table) && msg.Subscribe?
    ensures SameAccounts(s.table, SubscribeBars(env, s, msg).table) && SubscribeBars(env, s, msg).started == s.started
  {
    BarsKeepAccounts(env, s.table, Timeframe(env, msg.tf), env.trim(msg.symbol));
  }

  /** A message leaves the account consumers alone once they are started, and if it does not start them. */
  lemma NextKeepsAccounts(env: Env, s: State, msg: Msg)
    requires Inv(s.table) && (s.started || !Starts(env, msg))
    ensures SameAccounts(s.table, Next(env, s, msg).table) && Next(env, s, msg).started == s.started
  {
    match msg
    case Subscribe(ch, _, _) =>
      if !IsAccountCh(env, ch) {
        SubscribeKeepsAccounts(env, s, msg);
      }
    case Unsubscribe(_, _) => DropKeepsAccounts(s.table, Key(Timeframe(env, msg.tf), env.trim(msg.symbol)));
    case _ =>
  }

  lemma {:induction false} GrantedMember(env: Env, n: nat, count: nat, id: nat)
    requires n <= id < n + count && env.outcome(id).Subscribed?
    ensures id in Granted(env, n, count)
    decreases count
  {
    if id < n + count - 1 {
      GrantedMember(env, n, count - 1, id);
    }
  }

  lemma HasPlanKept(env: Env, t: Table, u: Table, n: nat, plan: seq<Sub>)
    requires HasPlan(env, t, n, plan) && SameAccounts(t, u)
    ensures HasPlan(env, u, n, plan)
  {
    forall id | n <= id < n + |plan| && env.outcome(id).Subscribed?
      ensures id in u.live && u.live[id] == plan[id - n]
    {
      GrantedMember(env, n, |plan|, id);
      assert id in t.accounts && id in t.live;
    }
  }

  lemma FirstStartHasPlan(env: Env, s: State, msg: Msg)
    requires Inv(s.table) && !s.started && s.table.accounts == [] && Starts(env, msg)
    ensures HasPlan(env, Next(env, s, msg).table, s.table.attempts, PlanOf(env, ResumeOf(msg)))
    ensures Next(env, s, msg).started
  {
    var plan := PlanOf(env, ResumeOf(msg));
    var t := StartAccounts(env, s, ResumeOf(msg));
    AddAllGrants(env, s.(started := true), plan);
    AddAllLive(env, s.(started := true), plan);
    assert t.table.accounts == Granted(env, s.table.attempts, |plan|);
    if msg.Subscribe? {
      StartKeepsInv(env, s, map[]);
      SubscribeKeepsAccounts(env, t, msg);
      HasPlanKept(env, t.table, Next(env, s, msg).table, s.table.attempts, plan);
    }
  }

  /** Whatever the order of `hello` and `subscribe` and however often they come, the account consumers are those
      that the first of them set out to create and the broker granted; nothing else adds or removes one. */
  lemma {:induction false} AccountsCreatedOnce(env: Env, msgs: seq<Msg>)
    ensures var s, k := Run(env, msgs), FirstStart(env, msgs);
            && s.started == (k < |msgs|)
            && (if k == |msgs| then s.table.accounts == []
                else HasPlan(env, s.table, Run(env, msgs[..k]).table.attempts, PlanOf(env, ResumeOf(msgs[k]))))
    decreases |msgs|
  {
    if msgs != [] {
      var init, msg := msgs[..|msgs| - 1], msgs[|msgs| - 1];
      var s, k := Run(env, init), FirstStart(env, init);
      AccountsCreatedOnce(env, init);
      RunKeepsInv(env, init);
      if k < |init| {
        NextKeepsAccounts(env, s, msg);
        assert msgs[..k] == init[..k];
        HasPlanKept(env, s.table, Next(env, s, msg).table, Run(env, init[..k]).table.attempts,
                    PlanOf(env, ResumeOf(init[k])));
      } else if Starts(env, msg) {
        FirstStartHasPlan(env, s, msg);
      } else {
        NextKeepsAccounts(env, s, msg);
      }
    }
  }

  // ---------------------------------------------------------------- keys

  lemma FirstColon(tf: string, symbol: string)
    requires ':' !in tf
    ensures Text.Find(Key(tf, symbol), ':') == |tf|
    ensures Key(tf, symbol)[..|tf|] == tf && Key(tf, symbol)[|tf| + 1..] == symbol
  {
    Text.FindAt(Key(tf, symbol), ':', |tf|);
  }

  /** Keys tell (timeframe, symbol) pairs apart when no timeframe has a colon. */
  lemma KeyInjective(tf: string, symbol: string, tf': string, symbol': string)
    requires ':' !in tf && ':' !in tf' && Key(tf, symbol) == Key(tf', symbol')
    ensures tf == tf' && symbol == symbol'
  {
    FirstColon(tf, symbol);
    FirstColon(tf', symbol');
  }

  predicate ShiftedBy(tf: string, symbol: string, tf': string, symbol': string, x: string) {
    tf' == tf + ":" + x && symbol == x + ":" + symbol'
  }

  lemma ShiftedCollide(tf: string, symbol: string, tf': string, symbol': string, x: string)
    requires ShiftedBy(tf, symbol, tf', symbol', x)
    ensures Key(tf, symbol) == Key(tf', symbol') && tf != tf'
  {
    assert |tf'| > |tf|;
    assert tf + ":" + (x + ":" + symbol') == (tf + ":" + x) + ":" + symbol';
  }

  lemma CollidingAreShifted(tf: string, symbol: string, tf': string, symbol': string) returns (x: string)
    requires Key(tf, symbol) == Key(tf', symbol') && |tf| < |tf'|
    ensures ShiftedBy(tf, symbol, tf', symbol', x)
  {
    var key := Key(tf, symbol);
    x := tf'[|tf| + 1..];
    assert tf' == key[..|tf'|] && tf == key[..|tf|] && key[|tf|] == ':';
    assert tf' == tf + ":" + x;
    assert symbol == key[|tf| + 1..] && symbol' == key[|tf'| + 1..];
    assert key[|tf'|] == ':' && symbol == key[|tf| + 1..|tf'|] + [':'] + key[|tf'| + 1..];
    assert key[|tf| + 1..|tf'|] == x;
  }

  /** Two different pairs share a key exactly when one timeframe is the other with a colon and more behind it, and
      the symbols are shifted by as much. */
  lemma KeysCollide(tf: string, symbol: string, tf': string, symbol': string)
    ensures Key(tf, symbol) == Key(tf', symbol') && (tf != tf' || symbol != symbol') <==>
              exists x :: ShiftedBy(tf, symbol, tf', symbol', x) || ShiftedBy(tf', symbol', tf, symbol, x)
  {
    if x :| ShiftedBy(tf, symbol, tf', symbol', x) {
      ShiftedCollide(tf, symbol, tf', symbol', x);
    } else if x :| ShiftedBy(tf', symbol', tf, symbol, x) {
      ShiftedCollide(tf', symbol', tf, symbol, x);
    } else if Key(tf, symbol) == Key(tf', symbol') && (tf != tf' || symbol != symbol') {
      SameLengthSamePair(tf, symbol, tf', symbol');
      if |tf| < |tf'| {
        var x := CollidingAreShifted(tf, symbol, tf', symbol');
      } else if |tf'| < |tf| {
        var x := CollidingAreShifted(tf', symbol', tf, symbol);
      }
    }
  }

  lemma SameLengthSamePair(tf: string, symbol: string, tf': string, symbol': string)
    requires Key(tf, symbol) == Key(tf', symbol')
    ensures |tf| == |tf'| ==> tf == tf' && symbol == symbol'
  {
    var key := Key(tf, symbol);
    assert tf == key[..|tf|] && symbol == key[|tf| + 1..];
    assert tf' == key[..|tf'|] && symbol' == key[|tf'| + 1..];
  }
}
