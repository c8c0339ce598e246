/** Which account messages a connection is given: the consumers it has, and the subjects their filters accept. */
module WsConsumers {
  import opened Options
  import opened WsChannels
  import opened WsSubscriptions
  import opened WsTokens

  /** A consumer's filter accepts exactly the subjects that belong to its channel and id. */
  lemma FilterIsMatches(channel: Channel, id: string, resume: map<string, nat>, subject: string)
    requires Literal(Tokens(channel.prefix + id)) && "" !in Tokens(subject)
    ensures Accepts(Tokens(ConsumerFor(channel, id, resume).subject), Tokens(subject)) <==> Matches(channel, id, subject)
  {
    var head := channel.prefix + id;
    if channel.deep {
      assert head + ".>" == head + "." + ">";
      TokensAppend(head, ">", head + ".>");
      OneToken(">");
      AcceptsDeep(Tokens(head), Tokens(subject));
      TokensGoOn(head, subject);
    } else {
      assert head + "" == head;
      AcceptsLiteral(Tokens(head), Tokens(subject));
      if Tokens(head) == Tokens(subject) {
        TokensTell(head, subject);
      }
    }
  }

  // ---------------------------------------------------------------- the consumers of a connection

  /** The ids of the kind the channel is keyed by. */
  function OwnedIds(scope: Scope, channel: Channel): seq<string> {
    match channel.keyedBy
    case KeyedByHelm => scope.helmIds
    case KeyedByAccount => scope.accountIds
  }

  /** A consumer for an id of a channel: the channel's stream, the subjects below its prefix and the id, and the first
      message after the number to resume at, or the next new one. */
  predicate IsConsumer(sub: Sub, channel: Channel, id: string, resume: map<string, nat>) {
    && sub.Consumer? && sub.ch == channel.ch && sub.stream == channel.stream
    && sub.subject == (if channel.deep then channel.prefix + id + ".>" else channel.prefix + id)
    && sub.after == (if channel.ch in resume && resume[channel.ch] != 0 then Some(resume[channel.ch]) else None)
  }

  lemma ConsumerForIs(channel: Channel, id: string, resume: map<string, nat>)
    ensures IsConsumer(ConsumerFor(channel, id, resume), channel, id, resume)
  {
    assert channel.prefix + id + "" == channel.prefix + id;
  }

  lemma {:induction false} OffsetShift(channels: seq<Channel>, scope: Scope, i: nat)
    requires i < |channels|
    ensures Offset(channels, scope, i + 1) == Offset(channels, scope, i) + |OwnedIds(scope, channels[i])|
    decreases i
  {
    if i > 0 {
      OffsetShift(channels[1..], scope, i - 1);
    }
  }

  /** The p-th consumer is that of some channel and id. */
  lemma {:induction false} PlaceOf(channels: seq<Channel>, scope: Scope, n: nat, p: nat) returns (i: nat, k: nat)
    requires n <= |channels| && p < Offset(channels, scope, n)
    ensures i < n && k < |OwnedIds(scope, channels[i])| && p == Offset(channels, scope, i) + k
    decreases n
  {
    OffsetShift(channels, scope, n - 1);
    if p < Offset(channels, scope, n - 1) {
      i, k := PlaceOf(channels, scope, n - 1, p);
    } else {
      i, k := n - 1, p - Offset(channels, scope, n - 1);
    }
  }

  lemma IdsAgree(scope: Scope, channel: Channel)
    ensures IdsOf(scope, channel) == OwnedIds(scope, channel)
  {
  }

  lemma PlanEntry(channels: seq<Channel>, scope: Scope, resume: map<string, nat>, i: nat, k: nat, ids: seq<string>, p: nat)
    requires i < |channels| && ids == OwnedIds(scope, channels[i]) && k < |ids| && p == Offset(channels, scope, i) + k
    ensures p < |Plan(channels, scope, resume)| && Plan(channels, scope, resume)[p] == ConsumerFor(channels[i], ids[k], resume)
  {
    IdsAgree(scope, channels[i]);
    PlanCovers(channels, scope, resume, i, k);
  }

  lemma PlanAt(env: Env, resume: map<string, nat>, i: nat, k: nat, ids: seq<string>, p: nat)
    requires env.jetStream && i < |env.channels| && ids == OwnedIds(env.scope, env.channels[i]) && k < |ids|
    requires p == Offset(env.channels, env.scope, i) + k
    ensures p < |PlanOf(env, resume)| && IsConsumer(PlanOf(env, resume)[p], env.channels[i], ids[k], resume)
  {
    PlanEntry(env.channels, env.scope, resume, i, k, ids, p);
    ConsumerForIs(env.channels[i], ids[k], resume);
  }

  lemma {:induction false} GrantedOnly(env: Env, n: nat, count: nat, id: nat)
    requires id in Granted(env, n, count)
    ensures n <= id < n + count && env.outcome(id).Subscribed?
    decreases count
  {
    if count > 0 && id in Granted(env, n, count - 1) {
      GrantedOnly(env, n, count - 1, id);
    }
  }

  lemma PlannedIsLive(env: Env, t: Table, n: nat, plan: seq<Sub>, id: nat)
    requires HasPlan(env, t, n, plan) && id in t.accounts
    ensures n <= id < n + |plan| && id in t.live && t.live[id] == plan[id - n]
  {
    GrantedOnly(env, n, |plan|, id);
  }

  lemma GrantedIsHeld(env: Env, t: Table, n: nat, plan: seq<Sub>, id: nat)
    requires HasPlan(env, t, n, plan) && n <= id < n + |plan| && env.outcome(id).Subscribed?
    ensures id in t.accounts && id in t.live && t.live[id] == plan[id - n]
  {
    GrantedMember(env, n, |plan|, id);
  }

  lemma PlanSize(env: Env, resume: map<string, nat>)
    ensures |PlanOf(env, resume)| == if env.jetStream then Offset(env.channels, env.scope, |env.channels|) else 0
  {
    if env.jetStream {
      PlanLength(env.channels, env.scope, resume);
      }
  }

  /** Whatever control messages come, every owned id of every channel has its consumer as soon as the first of them
      starts the account channels, provided the broker grants it; it resumes where that message says. */
  lemma {:induction false} EveryIdHasItsConsumer(env: Env, msgs: seq<Msg>, i: nat, k: nat) returns (id: nat)
    requires env.jetStream && FirstStart(env, msgs) < |msgs|
    requires i < |env.channels| && k < |OwnedIds(env.scope, env.channels[i])|
    ensures var first := FirstStart(env, msgs);
            && id == Run(env, msgs[..first]).table.attempts + Offset(env.channels, env.scope, i) + k
            && (env.outcome(id).Subscribed? ==>
                  var t := Run(env, msgs).table;
                  && id in t.accounts && id in t.live
                  && IsConsumer(t.live[id], env.channels[i], OwnedIds(env.scope, env.channels[i])[k], ResumeOf(msgs[first])))
  {
    var first := FirstStart(env, msgs);
    var n, resume, ids := Run(env, msgs[..first]).table.attempts, ResumeOf(msgs[first]), OwnedIds(env.scope, env.channels[i]);
    id := n + Offset(env.channels, env.scope, i) + k;
    AccountsCreatedOnce(env, msgs);
    PlanAt(env, resume, i, k, ids, id - n);
    if env.outcome(id).Subscribed? {
      GrantedIsHeld(env, Run(env, msgs).table, n, PlanOf(env, resume), id);
    }
  }

  lemma OwnerOf(env: Env, t: Table, n: nat, resume: map<string, nat>, id: nat) returns (i: nat, k: nat)
    requires HasPlan(env, t, n, PlanOf(env, resume)) && id in t.accounts
    ensures env.jetStream && id in t.live
    ensures i < |env.channels| && k < |OwnedIds(env.scope, env.channels[i])|
    ensures IsConsumer(t.live[id], env.channels[i], OwnedIds(env.scope, env.channels[i])[k], resume)
  {
    PlannedIsLive(env, t, n, PlanOf(env, resume), id);
    PlanSize(env, resume);
    i, k := PlaceOf(env.channels, env.scope, |env.channels|, id - n);
    PlanAt(env, resume, i, k, OwnedIds(env.scope, env.channels[i]), id - n);
  }

  /** And there is no other: each account consumer a connection holds is for an owned id of its channel. */
  lemma {:induction false} OnlyOwnedIds(env: Env, msgs: seq<Msg>, id: nat) returns (i: nat, k: nat)
    requires id in Run(env, msgs).table.accounts
    ensures env.jetStream && FirstStart(env, msgs) < |msgs| && id in Run(env, msgs).table.live
    ensures i < |env.channels| && k < |OwnedIds(env.scope, env.channels[i])|
    ensures IsConsumer(Run(env, msgs).table.live[id], env.channels[i], OwnedIds(env.scope, env.channels[i])[k],
                       ResumeOf(msgs[FirstStart(env, msgs)]))
  {
    var first := FirstStart(env, msgs);
    AccountsCreatedOnce(env, msgs);
    var n, resume := Run(env, msgs[..first]).table.attempts, ResumeOf(msgs[first]);
    i, k := OwnerOf(env, Run(env, msgs).table, n, resume, id);
  }

  /** The channels of the table, as a client and the broker know them. */
  lemma TheFiveChannels(id: string, resume: map<string, nat>)
    ensures var c := ACCOUNT_CHANNELS;
            && |c| == 5
            && c[0].ch == "event" && c[0].stream == "HELM_EVENTS" && ConsumerFor(c[0], id, resume).subject == "helm.events." + id
            && c[1].ch == "trade" && c[1].stream == "HELM_TRADES" && ConsumerFor(c[1], id, resume).subject == "helm.trades." + id + ".>"
            && c[2].ch == "fill" && c[2].stream == "TRADE_FILLS" && ConsumerFor(c[2], id, resume).subject == "trade.filled." + id
            && c[3].ch == "portfolio" && c[3].stream == "PORTFOLIO_SYNC" && ConsumerFor(c[3], id, resume).subject == "portfolio.synced." + id
            && c[4].ch == "position" && c[4].stream == "HELM_POSITIONS" && ConsumerFor(c[4], id, resume).subject == "helm.pos." + id + ".>"
    ensures forall i, scope :: 0 <= i < 5 ==>
              IdsOf(scope, ACCOUNT_CHANNELS[i])
              == if ACCOUNT_CHANNELS[i].ch == "fill" || ACCOUNT_CHANNELS[i].ch == "portfolio" then scope.accountIds else scope.helmIds
  {
  }
}
