/** The connection actor's handling of control messages, as it works on its own maps and on the broker. */
module WsConn {
  import opened WsChannels
  import Spec = WsSubscriptions

  /** The broker's side of this connection: which of its subscriptions are live. */
  class Broker {
    const outcome: nat -> Spec.Outcome
    var live: map<nat, Spec.Sub>
    var attempts: nat

    constructor (outcome: nat -> Spec.Outcome)
      ensures this.outcome == outcome && live == map[] && attempts == 0
    {
      this.outcome := outcome;
      live, attempts := map[], 0;
    }

    method Subscribe(sub: Spec.Sub) returns (id: nat, result: Spec.Outcome)
      modifies this
      ensures id == old(attempts) && attempts == id + 1 && result == outcome(id)
      ensures live == if result.Subscribed? then old(live)[id := sub] else old(live)
    {
      id, result := attempts, outcome(attempts);
      attempts := attempts + 1;
      if result.Subscribed? {
        live := live[id := sub];
      }
    }

    method Unsubscribe(id: nat)
      modifies this`live
      ensures live == old(live) - {id}
    {
      live := live - {id};
    }
  }

  class Conn {
    const env: Spec.Env
    const broker: Broker
    var barSubs: map<string, (nat, nat)>
    var acctSubs: seq<nat>
    var acctStarted: bool
    var closed: bool
    var replies: seq<Spec.Reply>

    function View(): Spec.State
      reads this, broker
    {
      Spec.State(Spec.Table(broker.live, broker.attempts, barSubs, acctSubs), acctStarted, replies)
    }

    ghost predicate Valid() {
      broker.outcome == env.outcome
    }

    constructor (env: Spec.Env, broker: Broker)
      requires broker.outcome == env.outcome && broker.live == map[] && broker.attempts == 0
      ensures Valid() && this.env == env && this.broker == broker && View() == Spec.START && !closed
    {
      this.env, this.broker := env, broker;
      barSubs, acctSubs, acctStarted, closed, replies := map[], [], false, false, [];
    }

    method EnqueueControl(reply: Spec.Reply)
      modifies this`replies
      ensures replies == old(replies) + [reply]
    {
      replies := replies + [reply];
    }

    method IsAccountChannel(ch: string) returns (found: bool)
      ensures found == Spec.IsAccountCh(env, ch)
    {
      for i := 0 to |env.channels|
        invariant forall j :: 0 <= j < i ==> env.channels[j].ch != ch
      {
        if env.channels[i].ch == ch {
          return true;
        }
      }
      return false;
    }

    method HandleControl(msg: Spec.Msg)
      requires Valid()
      modifies this, broker
      ensures View() == Spec.Next(env, old(View()), msg) && closed == old(closed)
    {
      match msg {
        case Hello(resume) => StartAccountSubs(resume);
        case Ping => EnqueueControl(Spec.Ack("ping", ""));
        case Subscribe(ch, _, _) =>
          var forbidden := IsAccountChannel(ch);
          if forbidden {
            EnqueueControl(Spec.Error("forbidden", ch));
            return;
          }
          StartAccountSubs(map[]);
          SubscribeBars(msg);
        case Unsubscribe(_, _) => UnsubscribeBars(msg);
        case Unknown(op) => EnqueueControl(Spec.Error("unknown_op", op));
      }
    }

    method SubscribeBars(msg: Spec.Msg)
      requires Valid() && msg.Subscribe?
      modifies this, broker
      ensures View() == Spec.SubscribeBars(env, old(View()), msg) && closed == old(closed)
    {
      if msg.ch != "bars" {
        EnqueueControl(Spec.Error("unsupported_channel", msg.ch));
        return;
      }
      var symbol := env.trim(msg.symbol);
      if symbol == "" {
        EnqueueControl(Spec.Error("bad_request", ""));
        return;
      }
      var tf := Spec.Timeframe(env, msg.tf);
      var key := Spec.Key(tf, symbol);
      if key in barSubs {
        EnqueueControl(Spec.Ack("subscribe", key));
        return;
      }
      var made := AddPair(key, tf, symbol);
      EnqueueControl(if made then Spec.Ack("subscribe", key) else Spec.Error("subscribe_failed", ""));
    }

    /** The second subscription failing takes the first with it. */
    method AddPair(key: string, tf: string, symbol: string) returns (made: bool)
      requires Valid() && key == Spec.Key(tf, symbol) && key !in barSubs
      modifies this`barSubs, broker
      ensures View() == old(View()).(table := Spec.AddBars(env, old(View()).table, tf, symbol))
      ensures made == (key in barSubs)
    {
      var subClosed, first := broker.Subscribe(Spec.ClosedBars(tf, symbol));
      if !first.Subscribed? {
        return false;
      }
      var subLive, second := broker.Subscribe(Spec.FormingBars(tf, symbol));
      if !second.Subscribed? {
        broker.Unsubscribe(subClosed);
        return false;
      }
      barSubs := barSubs[key := (subClosed, subLive)];
      return true;
    }

    method UnsubscribeBars(msg: Spec.Msg)
      requires Valid() && msg.Unsubscribe?
      modifies this, broker
      ensures View() == Spec.UnsubscribeBars(env, old(View()), msg) && closed == old(closed)
    {
      var key := Spec.Key(Spec.Timeframe(env, msg.tf), env.trim(msg.symbol));
      if key in barSubs {
        var subs := barSubs[key];
        barSubs := barSubs - {key};
        broker.Unsubscribe(subs.0);
        broker.Unsubscribe(subs.1);
        assert broker.live == old(broker.live) - {subs.0, subs.1};
      }
      EnqueueControl(Spec.Ack("unsubscribe", key));
    }

    method AddConsumer(sub: Spec.Sub)
      requires Valid() && sub.Consumer?
      modifies this, broker
      ensures View() == Spec.AddConsumer(env, old(View()), sub) && closed == old(closed)
    {
      var id, result := broker.Subscribe(sub);
      match result {
        case Subscribed => acctSubs := acctSubs + [id];
        case StreamNotFound =>
        case Failed => EnqueueControl(Spec.Error("account_subscribe_failed", sub.ch));
      }
    }

    /** One consumer per channel and owned id, on the first call only. */
    method StartAccountSubs(resume: map<string, nat>)
      requires Valid()
      modifies this, broker
      ensures View() == Spec.StartAccounts(env, old(View()), resume) && closed == old(closed)
    {
      if acctStarted {
        return;
      }
      acctStarted := true;
      if !env.jetStream {
        return;
      }
      ghost var goal := Spec.StartAccounts(env, old(View()), resume);
      Spec.PlanConsumers(env.channels, env.scope, resume);
      assert env.channels[0..] == env.channels;
      for i := 0 to |env.channels|
        invariant Spec.AllConsumers(Spec.Plan(env.channels[i..], env.scope, resume))
        invariant Spec.AddAll(env, View(), Spec.Plan(env.channels[i..], env.scope, resume)) == goal
        invariant closed == old(closed)
      {
        assert env.channels[i..][1..] == env.channels[i + 1..];
        Spec.PlanConsumers(env.channels[i + 1..], env.scope, resume);
        SubscribeChannel(env.channels[i], resume, Spec.Plan(env.channels[i + 1..], env.scope, resume), goal);
      }
    }

    /** The consumers of one channel; `rest` is what is still to come and `goal` where it all ends. */
    method SubscribeChannel(channel: Channel, resume: map<string, nat>, ghost rest: seq<Spec.Sub>, ghost goal: Spec.State)
      requires Valid() && Spec.AllConsumers(rest)
      requires Spec.AllConsumers(Spec.ForIds(channel, Spec.IdsOf(env.scope, channel), resume) + rest)
      requires Spec.AddAll(env, View(), Spec.ForIds(channel, Spec.IdsOf(env.scope, channel), resume) + rest) == goal
      modifies this, broker
      ensures Spec.AddAll(env, View(), rest) == goal && closed == old(closed)
    {
      var ids := Spec.IdsOf(env.scope, channel);
      assert ids[0..] == ids;
      for k := 0 to |ids|
        invariant Spec.AllConsumers(Spec.ForIds(channel, ids[k..], resume) + rest)
        invariant Spec.AddAll(env, View(), Spec.ForIds(channel, ids[k..], resume) + rest) == goal
        invariant closed == old(closed)
      {
        NextInPlan(channel, ids, k, resume, rest);
        AddConsumer(Spec.ConsumerFor(channel, ids[k], resume));
      }
      assert ids[|ids|..] == [];
      assert Spec.ForIds(channel, [], resume) + rest == rest;
    }

    method ReleaseBars()
      modifies broker`live
      ensures broker.live == old(broker.live) - Released(barSubs, barSubs.Keys)
    {
      var keys := barSubs.Keys;
      ghost var gone := {};
      while keys != {}
        invariant gone !! keys && gone + keys == barSubs.Keys
        invariant broker.live == old(broker.live) - Released(barSubs, gone)
        decreases |keys|
      {
        var key :| key in keys;
        ReleaseOne(barSubs, gone, key);
        RemoveTwo(old(broker.live), Released(barSubs, gone), barSubs[key].0, barSubs[key].1);
        broker.Unsubscribe(barSubs[key].0);
        broker.Unsubscribe(barSubs[key].1);
        keys, gone := keys - {key}, gone + {key};
      }
    }

    method ReleaseAccounts()
      modifies broker`live
      ensures broker.live == old(broker.live) - Ids(acctSubs)
    {
      for i := 0 to |acctSubs|
        invariant broker.live == old(broker.live) - Ids(acctSubs[..i])
      {
        broker.Unsubscribe(acctSubs[i]);
        assert acctSubs[..i + 1] == acctSubs[..i] + [acctSubs[i]];
        assert Ids(acctSubs[..i + 1]) == Ids(acctSubs[..i]) + {acctSubs[i]};
      }
      assert acctSubs[..|acctSubs|] == acctSubs;
    }

    /** Release everything held, once. */
    method Close()
      modifies this, broker
      ensures closed
      ensures old(closed) ==> View() == old(View())
      ensures !old(closed) ==> View() == old(View()).(table := Spec.Close(old(View()).table))
    {
      if closed {
        return;
      }
      closed := true;
      ReleaseBars();
      ReleaseAccounts();
      CloseIs(old(View()).table);
    }
  }

  /** The bar subscriptions of some keys. */
  ghost function Released(bars: map<string, (nat, nat)>, keys: set<string>): set<nat>
    requires keys <= bars.Keys
  {
    (set key | key in keys :: bars[key].0) + (set key | key in keys :: bars[key].1)
  }

  ghost function Ids(subs: seq<nat>): set<nat> {
    set id | id in subs
  }

  lemma NextInPlan(channel: Channel, ids: seq<string>, k: nat, resume: map<string, nat>, rest: seq<Spec.Sub>)
    requires k < |ids|
    ensures var plan := Spec.ForIds(channel, ids[k..], resume) + rest;
            && plan != [] && plan[0] == Spec.ConsumerFor(channel, ids[k], resume)
            && plan[1..] == Spec.ForIds(channel, ids[k + 1..], resume) + rest
  {
    assert ids[k..][1..] == ids[k + 1..];
  }

  lemma RemoveTwo(live: map<nat, Spec.Sub>, gone: set<nat>, a: nat, b: nat)
    ensures live - gone - {a} - {b} == live - (gone + {a} + {b})
  {
  }

  lemma ReleaseOne(bars: map<string, (nat, nat)>, keys: set<string>, key: string)
    requires keys <= bars.Keys && key in bars
    ensures Released(bars, keys + {key}) == Released(bars, keys) + {bars[key].0} + {bars[key].1}
  {
  }

  lemma CloseIs(t: Spec.Table)
    ensures Spec.Close(t).live == t.live - Released(t.bars, t.bars.Keys) - Ids(t.accounts)
  {
    forall id
      ensures Spec.Holds(t, id) <==> id in Released(t.bars, t.bars.Keys) + Ids(t.accounts)
    {
    }
  }
}
