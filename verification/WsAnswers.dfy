/** What a client is answered, message by message, and what each message leaves alone. */
module WsAnswers {
  import opened WsSubscriptions
  import opened WsSubjects

  // ---------------------------------------------------------------- subjects

  /** A live bars subscription: closed bars or the forming one, of a timeframe and a symbol. */
  predicate ListensTo(sub: Sub, tf: string, symbol: string) {
    && sub.Bars? && sub.key == tf + ":" + symbol
    && sub.subject == (if sub.tag == Closed then "bars." + tf + "." + symbol else "bars.live." + tf + "." + symbol)
  }

  /** After any control messages every live subscription to bars listens to the subject of a timeframe and symbol and is
      framed under their key. */
  lemma {:induction false} LiveSubjects(env: Env, msgs: seq<Msg>, id: nat) returns (tf: string, symbol: string)
    requires id in Run(env, msgs).table.live && Run(env, msgs).table.live[id].Bars?
    ensures ListensTo(Run(env, msgs).table.live[id], tf, symbol)
  {
    var t := Run(env, msgs).table;
    RunKeepsInv(env, msgs);
    RunForPairs(env, msgs, false);
    assert HeldAs(t, id, t.live[id]);
    assert ForSomePair(t, t.live[id].key, false);
    tf, symbol :| HeldFor(t, t.live[id].key, tf, symbol);
  }

  // ---------------------------------------------------------------- replies

  /** One complaint for each planned consumer that the broker refused, except where its stream is missing. */
  function Complaints(env: Env, n: nat, plan: seq<Sub>): seq<Reply>
    requires AllConsumers(plan)
    decreases |plan|
  {
    if plan == [] then []
    else (if env.outcome(n).Failed? then [Error("account_subscribe_failed", plan[0].ch)] else [])
         + Complaints(env, n + 1, plan[1..])
  }

  lemma {:induction false} AddAllComplains(env: Env, s: State, plan: seq<Sub>)
    requires AllConsumers(plan)
    ensures AddAll(env, s, plan).replies == s.replies + Complaints(env, s.table.attempts, plan)
    decreases |plan|
  {
    if plan != [] {
      var t := AddConsumer(env, s, plan[0]);
      AddAllComplains(env, t, plan[1..]);
      assert t.table.attempts == s.table.attempts + 1;
    }
  }

  /** What starting the account channels adds to the replies; nothing the second time. */
  function StartReplies(env: Env, s: State, resume: map<string, nat>): seq<Reply> {
    if s.started then [] else Complaints(env, s.table.attempts, PlanOf(env, resume))
  }

  lemma StartSays(env: Env, s: State, resume: map<string, nat>)
    ensures StartAccounts(env, s, resume).replies == s.replies + StartReplies(env, s, resume)
  {
    if !s.started {
      AddAllComplains(env, s.(started := true), PlanOf(env, resume));
    }
  }

  ghost predicate Answered(s: State, u: State, before: seq<Reply>, reply: Reply) {
    u.replies == s.replies + before + [reply]
  }

  /** The messages that leave everything as it is. */
  lemma PlainAnswers(env: Env, s: State, msg: Msg)
    ensures msg == Ping ==> Next(env, s, msg) == s.(replies := s.replies + [Ack("ping", "")])
    ensures msg.Unknown? ==> Next(env, s, msg) == s.(replies := s.replies + [Error("unknown_op", msg.op)])
    ensures msg.Subscribe? && (exists i :: 0 <= i < |env.channels| && env.channels[i].ch == msg.ch)
            ==> Next(env, s, msg) == s.(replies := s.replies + [Error("forbidden", msg.ch)])
    ensures msg.Hello? ==> Next(env, s, msg).replies == s.replies + StartReplies(env, s, msg.resume)
  {
    if msg.Hello? {
      StartSays(env, s, msg.resume);
    }
  }

  /** A `subscribe` that is not for an account channel is answered once, after any complaints of an implicit `hello`:
      refused for another channel than bars or without a symbol, and otherwise acknowledged under its timeframe and
      symbol exactly when its bars are live afterwards. Without a timeframe it is for M1. */
  lemma SubscribeReply(env: Env, s: State, msg: Msg)
    requires Inv(s.table) && msg.Subscribe? && !(exists i :: 0 <= i < |env.channels| && env.channels[i].ch == msg.ch)
    ensures var u, symbol := Next(env, s, msg), env.trim(msg.symbol);
            var tf := if env.trim(msg.tf) == "" then "M1" else env.trim(msg.tf);
            var key, before := tf + ":" + symbol, StartReplies(env, s, map[]);
            if msg.ch != "bars" then Answered(s, u, before, Error("unsupported_channel", msg.ch))
            else if symbol == "" then Answered(s, u, before, Error("bad_request", ""))
            else if key in u.table.bars then Answered(s, u, before, Ack("subscribe", key))
            else Answered(s, u, before, Error("subscribe_failed", ""))
  {
    var t := StartAccounts(env, s, map[]);
    StartSays(env, s, map[]);
    StartKeepsInv(env, s, map[]);
    if msg.ch == "bars" && env.trim(msg.symbol) != "" {
      SubscribeAnswer(env, t, msg, "", 0);
    }
  }

  // ---------------------------------------------------------------- what is left alone

  /** The subscription was there before, as it is. */
  predicate Stays(t: Table, u: Table, id: nat) {
    id in t.live && id in u.live && u.live[id] == t.live[id]
  }

  /** A `subscribe` ends nothing, and begins nothing but the bars it is for. */
  lemma {:induction false} SubscribeTouchesNothingElse(env: Env, s: State, msg: Msg, id: nat)
    requires Inv(s.table) && msg.Subscribe?
    ensures var t, u := s.table, SubscribeBars(env, s, msg).table;
            && (id in t.live ==> Stays(t, u, id))
            && (id in u.live ==> id in t.live || ListensTo(u.live[id], Timeframe(env, msg.tf), env.trim(msg.symbol)))
  {
    assert s.table.attempts !in s.table.live && s.table.attempts + 1 !in s.table.live;
    AddBarsIs(env, s.table, Timeframe(env, msg.tf), env.trim(msg.symbol));
  }

  /** An `unsubscribe` begins nothing, and ends nothing but the bars it is for. */
  lemma UnsubscribeTouchesNothingElse(env: Env, s: State, msg: Msg, id: nat)
    requires Inv(s.table) && msg.Unsubscribe?
    ensures var t, u := s.table, UnsubscribeBars(env, s, msg).table;
            var key := (if env.trim(msg.tf) == "" then "M1" else env.trim(msg.tf)) + ":" + env.trim(msg.symbol);
            && (id in t.live && !(t.live[id].Bars? && t.live[id].key == key) ==> Stays(t, u, id))
            && (id in u.live ==> Stays(t, u, id))
  {
    if id in s.table.live {
      assert HeldAs(s.table, id, s.table.live[id]);
    }
  }
}
