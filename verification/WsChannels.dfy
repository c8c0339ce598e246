/** Which account events a connection may see: the channel table, the subjects of its consumers, and the ids a
    user owns. */
module WsChannels {

  datatype IdKind = KeyedByHelm | KeyedByAccount

  /** `deep` channels end their subject filter in `.>`: one or more tokens follow the owned id. */
  datatype Channel = Channel(ch: string, stream: string, prefix: string, deep: bool, keyedBy: IdKind)

  const ACCOUNT_CHANNELS: seq<Channel> := [
    Channel("event", "HELM_EVENTS", "helm.events.", false, KeyedByHelm),
    Channel("trade", "HELM_TRADES", "helm.trades.", true, KeyedByHelm),
    Channel("fill", "TRADE_FILLS", "trade.filled.", false, KeyedByAccount),
    Channel("portfolio", "PORTFOLIO_SYNC", "portfolio.synced.", false, KeyedByAccount),
    Channel("position", "HELM_POSITIONS", "helm.pos.", true, KeyedByHelm)
  ]

  /** Whether the consumer made for an id is given a subject. */
  predicate Matches(channel: Channel, id: string, subject: string) {
    if channel.deep then channel.prefix + id + "." < subject else subject == channel.prefix + id
  }

  lemma DeepId(prefix: string, id: string, subject: string)
    requires prefix + id + "." <= subject
    ensures |prefix| + |id| < |subject| && subject[|prefix| + |id|] == '.'
    ensures subject[|prefix|..|prefix| + |id|] == id
  {
    var head := prefix + id + ".";
    assert head[|prefix| + |id|] == '.';
    assert head[|prefix|..|prefix| + |id|] == id;
    assert subject[|prefix|..|prefix| + |id|] == head[|prefix|..|prefix| + |id|];
  }

  lemma NoShorterId(prefix: string, id: string, other: string, subject: string)
    requires '.' !in other && |id| < |other|
    requires prefix + id + "." <= subject
    ensures !(prefix + other + "." <= subject)
  {
    DeepId(prefix, id, subject);
    var head := prefix + other + ".";
    assert head[|prefix| + |id|] == other[|id|];
  }

  /** No event is given to the consumers of two ids, so long as ids have no dots. */
  lemma OneOwner(channel: Channel, id: string, other: string, subject: string)
    requires '.' !in id && '.' !in other
    requires Matches(channel, id, subject) && Matches(channel, other, subject)
    ensures id == other
  {
    if channel.deep {
      if |id| < |other| {
        NoShorterId(channel.prefix, id, other, subject);
      } else if |other| < |id| {
        NoShorterId(channel.prefix, other, id, subject);
      }
      DeepId(channel.prefix, id, subject);
      DeepId(channel.prefix, other, subject);
    } else {
      assert id == subject[|channel.prefix|..];
      assert other == subject[|channel.prefix|..];
    }
  }

  // ---------------------------------------------------------------- the key of an envelope

  /** The part of a subject after its last dot, or all of it. */
  function LastToken(subject: string): string {
    if subject == "" || subject[|subject| - 1] == '.' then ""
    else LastToken(subject[..|subject| - 1]) + [subject[|subject| - 1]]
  }

  /** The token stands at the end of the subject, has no dot, and has a dot before it unless it is everything. */
  predicate AfterLastDot(subject: string, token: string) {
    && '.' !in token && |token| <= |subject| && subject[|subject| - |token|..] == token
    && (|token| < |subject| ==> subject[|subject| - |token| - 1] == '.')
  }

  lemma TokenGrows(subject: string, token: string, c: char)
    requires AfterLastDot(subject, token) && c != '.'
    ensures AfterLastDot(subject + [c], token + [c])
  {
    var n := |subject| - |token|;
    assert (subject + [c])[n..] == subject[n..] + [c];
  }

  lemma {:induction false} LastTokenIsAfterLastDot(subject: string)
    ensures AfterLastDot(subject, LastToken(subject))
  {
    if subject != "" && subject[|subject| - 1] != '.' {
      var init, c := subject[..|subject| - 1], subject[|subject| - 1];
      LastTokenIsAfterLastDot(init);
      TokenGrows(init, LastToken(init), c);
      assert subject == init + [c];
    }
  }

  lemma {:induction false} LastTokenAlone(token: string)
    requires '.' !in token
    ensures LastToken(token) == token
  {
    if token != "" {
      LastTokenAlone(token[..|token| - 1]);
    }
  }

  /** What stands before a dot has no part in the last token. */
  lemma {:induction false} LastTokenAfterDot(head: string, tail: string)
    requires head != "" && head[|head| - 1] == '.'
    ensures LastToken(head + tail) == LastToken(tail)
    decreases |tail|
  {
    if tail == "" {
      assert head + tail == head;
    } else {
      var init := tail[..|tail| - 1];
      assert (head + tail)[..|head + tail| - 1] == head + init;
      LastTokenAfterDot(head, init);
    }
  }

  lemma TablePrefixes(i: nat)
    requires i < |ACCOUNT_CHANNELS|
    ensures var p := ACCOUNT_CHANNELS[i].prefix; p != "" && p[|p| - 1] == '.'
  {
  }

  /** The key a client is shown is the owned id exactly when nothing follows the id in the subject, or what follows
      happens to end in the id itself. */
  lemma KeyIsId(channel: Channel, id: string, subject: string)
    requires channel.prefix != "" && channel.prefix[|channel.prefix| - 1] == '.'
    requires '.' !in id && Matches(channel, id, subject)
    ensures LastToken(subject) == id <==>
              !channel.deep || LastToken(subject[|channel.prefix| + |id| + 1..]) == id
  {
    if channel.deep {
      var head := channel.prefix + id + ".";
      var tail := subject[|head|..];
      assert subject == head + tail;
      assert head[|head| - 1] == '.';
      LastTokenAfterDot(head, tail);
    } else {
      LastTokenAfterDot(channel.prefix, id);
      LastTokenAlone(id);
    }
  }

  /** So it is for every channel of the table. */
  lemma TableKeyIsId(i: nat, id: string, subject: string)
    requires i < |ACCOUNT_CHANNELS| && '.' !in id && Matches(ACCOUNT_CHANNELS[i], id, subject)
    ensures var channel := ACCOUNT_CHANNELS[i];
            LastToken(subject) == id <==>
              !channel.deep || LastToken(subject[|channel.prefix| + |id| + 1..]) == id
  {
    TablePrefixes(i);
    KeyIsId(ACCOUNT_CHANNELS[i], id, subject);
  }

  /** A trade event, whose subject names its helm and then its hand, is keyed by the hand. */
  lemma TradeKeyIsHand(helm: string, hand: string)
    requires '.' !in helm && '.' !in hand
    ensures var trade := ACCOUNT_CHANNELS[1];
            var subject := trade.prefix + helm + "." + hand;
            trade.ch == "trade" && (hand != "" ==> Matches(trade, helm, subject)) && LastToken(subject) == hand
  {
    var head := ACCOUNT_CHANNELS[1].prefix + helm + ".";
    assert head[|head| - 1] == '.';
    LastTokenAfterDot(head, hand);
    LastTokenAlone(hand);
  }

  // ---------------------------------------------------------------- the ids a user owns

  datatype Helm = Helm(id: string, accountId: string)

  datatype Scope = Scope(helmIds: seq<string>, accountIds: seq<string>)

  function HelmIds(helms: seq<Helm>): seq<string> {
    if helms == [] then []
    else HelmIds(helms[..|helms| - 1]) + (if helms[|helms| - 1].id != "" then [helms[|helms| - 1].id] else [])
  }

  predicate Distinct(ids: seq<string>) {
    forall i, j :: 0 <= i < j < |ids| ==> ids[i] != ids[j]
  }

  /** The helm ids taken over are the non-empty ones of the list. */
  lemma {:induction false} HelmIdsMember(helms: seq<Helm>, id: string)
    ensures id in HelmIds(helms) <==> id != "" && exists k :: 0 <= k < |helms| && helms[k].id == id
  {
    if helms != [] {
      var init, h := helms[..|helms| - 1], helms[|helms| - 1];
      HelmIdsMember(init, id);
      assert helms == init + [h];
      if id in HelmIds(init) {
        var k :| 0 <= k < |init| && init[k].id == id;
        assert helms[k].id == id;
      }
    }
  }

  predicate NoHelmTwice(helms: seq<Helm>) {
    forall i, j :: 0 <= i < j < |helms| && helms[i].id == helms[j].id ==> helms[i].id == ""
  }

  /** The ids are those of the helms at the positions `at`, which are all that have one, in order. */
  ghost predicate IdsAt(helms: seq<Helm>, ids: seq<string>, at: seq<nat>) {
    && |at| == |ids|
    && (forall i, j :: 0 <= i < j < |at| ==> at[i] < at[j])
    && (forall k :: k in at <==> 0 <= k < |helms| && helms[k].id != "")
    && (forall i :: 0 <= i < |at| ==> at[i] < |helms| && ids[i] == helms[at[i]].id)
  }

  lemma IdsAtSnoc(helms: seq<Helm>, h: Helm, ids: seq<string>, at: seq<nat>)
    requires IdsAt(helms, ids, at)
    ensures if h.id != "" then IdsAt(helms + [h], ids + [h.id], at + [|helms|]) else IdsAt(helms + [h], ids, at)
  {
    var more := at + [|helms|];
    assert forall k :: 0 <= k < |helms| ==> (helms + [h])[k] == helms[k];
    assert forall i :: 0 <= i < |at| ==> at[i] in at;
    assert forall k :: k in more <==> k in at || k == |helms|;
  }

  /** They are taken over in the order of the list, one for each helm that has an id. */
  lemma {:induction false} HelmIdsInOrder(helms: seq<Helm>) returns (at: seq<nat>)
    ensures IdsAt(helms, HelmIds(helms), at)
  {
    at := [];
    if helms != [] {
      var n := |helms| - 1;
      at := HelmIdsInOrder(helms[..n]);
      IdsAtSnoc(helms[..n], helms[n], HelmIds(helms[..n]), at);
      assert helms[..n] + [helms[n]] == helms;
      if helms[n].id != "" {
        at := at + [n];
      }
    }
  }

  lemma DistinctSnoc(ids: seq<string>, id: string)
    ensures Distinct(ids + [id]) <==> Distinct(ids) && id !in ids
  {
    var all := ids + [id];
    assert all[|ids|] == id;
    assert forall i :: 0 <= i < |ids| ==> ids[i] == all[i];
  }

  /** They are distinct exactly when the list names no helm twice. */
  lemma {:induction false} HelmIdsDistinct(helms: seq<Helm>)
    ensures Distinct(HelmIds(helms)) <==> NoHelmTwice(helms)
  {
    if helms != [] {
      var init, h := helms[..|helms| - 1], helms[|helms| - 1];
      HelmIdsDistinct(init);
      HelmIdsMember(init, h.id);
      DistinctSnoc(HelmIds(init), h.id);
      NoHelmTwiceSnoc(init, h);
      assert helms == init + [h];
      if h.id == "" {
        assert HelmIds(helms) == HelmIds(init);
      }
    }
  }

  lemma NoHelmTwiceSnoc(init: seq<Helm>, h: Helm)
    ensures NoHelmTwice(init + [h]) <==>
              NoHelmTwice(init) && (h.id == "" || forall k :: 0 <= k < |init| ==> init[k].id != h.id)
  {
    var all := init + [h];
    assert forall k :: 0 <= k < |init| ==> all[k] == init[k];
    assert all[|init|] == h;
  }

  /** Some helm of the list has the account. */
  predicate Owns(helms: seq<Helm>, account: string) {
    exists k :: 0 <= k < |helms| && helms[k].accountId == account
  }

  /** The position of the first helm with the account. */
  function First(helms: seq<Helm>, account: string): nat
    requires Owns(helms, account)
    ensures First(helms, account) < |helms| && helms[First(helms, account)].accountId == account
    ensures forall k :: 0 <= k < First(helms, account) ==> helms[k].accountId != account
  {
    if helms[0].accountId == account then 0
    else
      assert Owns(helms[1..], account) by {
        var k :| 0 <= k < |helms| && helms[k].accountId == account;
        assert helms[1..][k - 1].accountId == account;
      }
      1 + First(helms[1..], account)
  }

  /** The accounts of a list: each one once, none missing, none empty, in the order of first appearance. */
  ghost predicate AccountsOf(helms: seq<Helm>, ids: seq<string>) {
    && Distinct(ids)
    && (forall a :: a in ids <==> a != "" && Owns(helms, a))
    && InOrder(helms, ids)
  }

  lemma OwnsSnoc(helms: seq<Helm>, h: Helm, account: string)
    ensures Owns(helms + [h], account) <==> Owns(helms, account) || h.accountId == account
  {
    if Owns(helms, account) {
      var k :| 0 <= k < |helms| && helms[k].accountId == account;
      assert (helms + [h])[k].accountId == account;
    }
    if h.accountId == account {
      assert (helms + [h])[|helms|].accountId == account;
    }
  }

  lemma FirstSnoc(helms: seq<Helm>, h: Helm, account: string)
    requires Owns(helms + [h], account)
    ensures First(helms + [h], account) == if Owns(helms, account) then First(helms, account) else |helms|
  {
    var all := helms + [h];
    OwnsSnoc(helms, h, account);
    assert forall k :: 0 <= k < |helms| ==> all[k] == helms[k];
    if Owns(helms, account) {
      assert all[First(helms, account)].accountId == account;
    }
  }

  lemma AccountsKept(helms: seq<Helm>, h: Helm, ids: seq<string>)
    requires AccountsOf(helms, ids) && (h.accountId == "" || h.accountId in ids)
    ensures AccountsOf(helms + [h], ids)
  {
    forall a
      ensures a in ids <==> a != "" && Owns(helms + [h], a)
    {
      OwnsSnoc(helms, h, a);
    }
    forall i, j | 0 <= i < j < |ids| && Owns(helms + [h], ids[i]) && Owns(helms + [h], ids[j])
      ensures First(helms + [h], ids[i]) < First(helms + [h], ids[j])
    {
      FirstSnoc(helms, h, ids[i]);
      FirstSnoc(helms, h, ids[j]);
    }
  }

  /** First appearances are in the order of the list. */
  ghost predicate InOrder(helms: seq<Helm>, ids: seq<string>) {
    forall i, j :: 0 <= i < j < |ids| && Owns(helms, ids[i]) && Owns(helms, ids[j]) ==>
      First(helms, ids[i]) < First(helms, ids[j])
  }

  lemma OrderGrows(helms: seq<Helm>, h: Helm, ids: seq<string>)
    requires InOrder(helms, ids) && !Owns(helms, h.accountId)
    requires forall i :: 0 <= i < |ids| ==> Owns(helms, ids[i])
    ensures InOrder(helms + [h], ids + [h.accountId])
  {
    var more := ids + [h.accountId];
    forall i, j | 0 <= i < j < |more| && Owns(helms + [h], more[i]) && Owns(helms + [h], more[j])
      ensures First(helms + [h], more[i]) < First(helms + [h], more[j])
    {
      FirstSnoc(helms, h, more[i]);
      FirstSnoc(helms, h, more[j]);
      assert Owns(helms, ids[i]);
    }
  }

  lemma AccountsGrow(helms: seq<Helm>, h: Helm, ids: seq<string>)
    requires AccountsOf(helms, ids) && h.accountId != "" && h.accountId !in ids
    ensures AccountsOf(helms + [h], ids + [h.accountId])
  {
    var more := ids + [h.accountId];
    forall a
      ensures a in more <==> a != "" && Owns(helms + [h], a)
    {
      OwnsSnoc(helms, h, a);
    }
    OrderGrows(helms, h, ids);
  }

  /** The ids owned by a user, from the helms listed for them. Accounts are listed once each; helm ids are taken
      as they come, so a helm listed twice is subscribed to twice. */
  method ResolveScope(helms: seq<Helm>) returns (scope: Scope)
    ensures scope.helmIds == HelmIds(helms)
    ensures AccountsOf(helms, scope.accountIds)
  {
    var helmIds: seq<string>, accountIds: seq<string>, seen: set<string> := [], [], {};
    for i := 0 to |helms|
      invariant helmIds == HelmIds(helms[..i])
      invariant AccountsOf(helms[..i], accountIds)
      invariant forall a :: a in seen <==> a in accountIds
    {
      var h := helms[i];
      assert helms[..i + 1] == helms[..i] + [h];
      if h.id != "" {
        helmIds := helmIds + [h.id];
      }
      if h.accountId != "" && h.accountId !in seen {
        AccountsGrow(helms[..i], h, accountIds);
        seen := seen + {h.accountId};
        accountIds := accountIds + [h.accountId];
      } else {
        AccountsKept(helms[..i], h, accountIds);
      }
    }
    assert helms[..|helms|] == helms;
    scope := Scope(helmIds, accountIds);
  }
}
