/** Whether an acknowledged bars subscription listens to its own subjects. Subscriptions are held under a key made of
    timeframe and symbol, and the same key can belong to different pairs. */
module WsSubjects {
  import opened WsSubscriptions

  /** The key is held, and its two subscriptions listen to the subjects of this pair. */
  predicate HeldFor(t: Table, key: string, tf: string, symbol: string) {
    && key in t.bars && key == Key(tf, symbol)
    && t.bars[key].0 in t.live && t.live[t.bars[key].0] == ClosedBars(tf, symbol)
    && t.bars[key].1 in t.live && t.live[t.bars[key].1] == FormingBars(tf, symbol)
  }

  /** Every key held is held for some pair; `plain` asks for pairs whose timeframe has no colon. */
  ghost predicate ForPairs(t: Table, plain: bool) {
    forall key :: key in t.bars ==> ForSomePair(t, key, plain)
  }

  ghost predicate ForSomePair(t: Table, key: string, plain: bool) {
    exists tf, symbol :: HeldFor(t, key, tf, symbol) && (plain ==> ':' !in tf)
  }

  lemma SubjectTellsPair(tf: string, symbol: string, tf': string, symbol': string)
    requires ClosedBars(tf, symbol) == ClosedBars(tf', symbol')
    ensures tf == tf' && symbol == symbol'
  {
    SameLengthSamePair(tf, symbol, tf', symbol');
    if |tf| < |tf'| {
      DotAndColon(tf, symbol, tf', symbol');
    } else if |tf'| < |tf| {
      DotAndColon(tf', symbol', tf, symbol);
    }
  }

  /** Two pairs that share a key differ in their subjects where the shorter timeframe ends. */
  lemma DotAndColon(tf: string, symbol: string, tf': string, symbol': string)
    requires Key(tf, symbol) == Key(tf', symbol') && |tf| < |tf'|
    ensures ClosedBars(tf, symbol).subject != ClosedBars(tf', symbol').subject
  {
    var x := CollidingAreShifted(tf, symbol, tf', symbol');
    assert ClosedBars(tf, symbol).subject[5 + |tf|] == '.';
    assert ClosedBars(tf', symbol').subject[5 + |tf|] == tf'[|tf|] == ':';
  }

  /** A key is held for one pair only. */
  lemma HeldForOne(t: Table, key: string, tf: string, symbol: string, tf': string, symbol': string)
    requires HeldFor(t, key, tf, symbol) && HeldFor(t, key, tf', symbol')
    ensures tf == tf' && symbol == symbol'
  {
    SubjectTellsPair(tf, symbol, tf', symbol');
  }

  // ---------------------------------------------------------------- every run

  lemma StaysFor(t: Table, u: Table, key: string, plain: bool)
    requires key in t.bars && ForSomePair(t, key, plain)
    requires key in u.bars && u.bars[key] == t.bars[key]
    requires forall id :: id in t.live && (id == t.bars[key].0 || id == t.bars[key].1) ==>
               id in u.live && u.live[id] == t.live[id]
    ensures ForSomePair(u, key, plain)
  {
    var tf, symbol :| HeldFor(t, key, tf, symbol) && (plain ==> ':' !in tf);
    assert HeldFor(u, key, tf, symbol);
  }

  /** Making more subscriptions leaves the held ones alone. */
  lemma GrowKeepsPairs(t: Table, u: Table, plain: bool)
    requires ForPairs(t, plain) && u.bars == t.bars
    requires forall id :: id in t.live ==> id in u.live && u.live[id] == t.live[id]
    ensures ForPairs(u, plain)
  {
    forall key | key in u.bars
      ensures ForSomePair(u, key, plain)
    {
      assert ForSomePair(t, key, plain);
      StaysFor(t, u, key, plain);
    }
  }

  lemma AddConsumerGrows(env: Env, s: State, sub: Sub)
    requires Inv(s.table) && sub.Consumer?
    ensures var t, u := s.table, AddConsumer(env, s, sub).table;
            u.bars == t.bars && forall id :: id in t.live ==> id in u.live && u.live[id] == t.live[id]
  {
    assert s.table.attempts !in s.table.live;
  }

  lemma AddConsumerKeepsPairs(env: Env, s: State, sub: Sub, plain: bool)
    requires Inv(s.table) && ForPairs(s.table, plain) && sub.Consumer?
    ensures ForPairs(AddConsumer(env, s, sub).table, plain)
  {
    AddConsumerGrows(env, s, sub);
    GrowKeepsPairs(s.table, AddConsumer(env, s, sub).table, plain);
  }

  lemma {:induction false} AddAllKeepsPairs(env: Env, s: State, plan: seq<Sub>, plain: bool)
    requires Inv(s.table) && ForPairs(s.table, plain) && AllConsumers(plan)
    ensures ForPairs(AddAll(env, s, plan).table, plain)
    decreases |plan|
  {
    if plan != [] {
      AddConsumerKeepsInv(env, s, plan[0]);
      AddConsumerKeepsPairs(env, s, plan[0], plain);
      AddAllKeepsPairs(env, AddConsumer(env, s, plan[0]), plan[1..], plain);
    }
  }

  lemma StartKeepsPairs(env: Env, s: State, resume: map<string, nat>, plain: bool)
    requires Inv(s.table) && ForPairs(s.table, plain)
    ensures ForPairs(StartAccounts(env, s, resume).table, plain)
  {
    if !s.started {
      AddAllKeepsPairs(env, s.(started := true), PlanOf(env, resume), plain);
    }
  }

  lemma AddedFor(env: Env, t: Table, tf: string, symbol: string)
    requires Inv(t) && Key(tf, symbol) !in t.bars
    ensures Key(tf, symbol) in AddBars(env, t, tf, symbol).bars ==> HeldFor(AddBars(env, t, tf, symbol), Key(tf, symbol), tf, symbol)
  {
    assert t.attempts !in t.live;
    AddBarsIs(env, t, tf, symbol);
  }

  lemma PairedKeepsPairs(t: Table, tf: string, symbol: string, plain: bool)
    requires ForPairs(t, plain) && Key(tf, symbol) !in t.bars && (plain ==> ':' !in tf)
    requires forall id :: id in t.live ==> id < t.attempts
    ensures ForPairs(Paired(t, Key(tf, symbol), ClosedBars(tf, symbol), FormingBars(tf, symbol)), plain)
  {
    var made := Key(tf, symbol);
    var u := Paired(t, made, ClosedBars(tf, symbol), FormingBars(tf, symbol));
    assert HeldFor(u, made, tf, symbol);
    forall key | key in u.bars
      ensures ForSomePair(u, key, plain)
    {
      if key != made {
        assert ForSomePair(t, key, plain);
        StaysFor(t, u, key, plain);
      }
    }
  }

  lemma AddBarsKeepsPairs(env: Env, t: Table, tf: string, symbol: string, plain: bool)
    requires Inv(t) && ForPairs(t, plain) && Key(tf, symbol) !in t.bars && (plain ==> ':' !in tf)
    ensures ForPairs(AddBars(env, t, tf, symbol), plain)
  {
    assert t.attempts !in t.live;
    AddBarsIs(env, t, tf, symbol);
    if env.outcome(t.attempts).Subscribed? && env.outcome(t.attempts + 1).Subscribed? {
      PairedKeepsPairs(t, tf, symbol, plain);
    } else {
      GrowKeepsPairs(t, AddBars(env, t, tf, symbol), plain);
    }
  }

  lemma OtherStays(t: Table, key: string, k: string, plain: bool)
    requires BarsAreLive(t) && key in t.bars && k in t.bars && k != key && ForSomePair(t, k, plain)
    ensures ForSomePair(DropBars(t, key), k, plain)
  {
    assert LiveBars(t, t.bars[key].0, key, Closed) && LiveBars(t, t.bars[key].1, key, Forming);
    assert LiveBars(t, t.bars[k].0, k, Closed) && LiveBars(t, t.bars[k].1, k, Forming);
    StaysFor(t, DropBars(t, key), k, plain);
  }

  lemma DropKeepsPairs(t: Table, key: string, plain: bool)
    requires Inv(t) && ForPairs(t, plain)
    ensures ForPairs(DropBars(t, key), plain)
  {
    if key in t.bars {
      forall k | k in DropBars(t, key).bars
        ensures ForSomePair(DropBars(t, key), k, plain)
      {
        assert ForSomePair(t, k, plain);
        OtherStays(t, key, k, plain);
      }
    }
  }

  lemma SubscribeKeepsPairs(env: Env, s: State, msg: Msg, plain: bool)
    requires Inv(s.table) && ForPairs(s.table, plain) && msg.Subscribe? && (plain ==> ':' !in Timeframe(env, msg.tf))
    ensures ForPairs(SubscribeBars(env, s, msg).table, plain)
  {
    var symbol, tf := env.trim(msg.symbol), Timeframe(env, msg.tf);
    if Key(tf, symbol) !in s.table.bars {
      AddBarsKeepsPairs(env, s.table, tf, symbol, plain);
    }
  }

  predicate PlainMsg(env: Env, msg: Msg) {
    msg.Subscribe? ==> ':' !in Timeframe(env, msg.tf)
  }

  lemma NextKeepsPairs(env: Env, s: State, msg: Msg, plain: bool)
    requires Inv(s.table) && ForPairs(s.table, plain) && (plain ==> PlainMsg(env, msg))
    ensures ForPairs(Next(env, s, msg).table, plain)
  {
    match msg
    case Hello(resume) => StartKeepsPairs(env, s, resume, plain);
    case Ping =>
    case Subscribe(ch, _, _) =>
      StartKeepsInv(env, s, map[]);
      StartKeepsPairs(env, s, map[], plain);
      SubscribeKeepsPairs(env, StartAccounts(env, s, map[]), msg, plain);
    case Unsubscribe(_, _) => DropKeepsPairs(s.table, Key(Timeframe(env, msg.tf), env.trim(msg.symbol)), plain);
    case Unknown(_) =>
  }

  /** After any control messages, every key is held for one pair, and its two live subscriptions listen to that
      pair's subjects. */
  lemma {:induction false} RunForPairs(env: Env, msgs: seq<Msg>, plain: bool)
    requires plain ==> forall i :: 0 <= i < |msgs| ==> PlainMsg(env, msgs[i])
    ensures ForPairs(Run(env, msgs).table, plain)
    decreases |msgs|
  {
    if msgs != [] {
      var init := msgs[..|msgs| - 1];
      RunForPairs(env, init, plain);
      RunKeepsInv(env, init);
      NextKeepsPairs(env, Run(env, init), msgs[|msgs| - 1], plain);
    }
  }

  // ---------------------------------------------------------------- one's own subjects

  /** An acknowledged `subscribe` listens to its own subjects exactly when its key was free or held for the same
      pair. */
  lemma OwnSubjects(env: Env, s: State, msg: Msg)
    requires Inv(s.table) && msg.Subscribe? && msg.ch == "bars" && env.trim(msg.symbol) != ""
    requires ForPairs(s.table, false)
    ensures var tf, symbol := Timeframe(env, msg.tf), env.trim(msg.symbol);
            var u := SubscribeBars(env, s, msg).table;
            Key(tf, symbol) in u.bars ==>
              (HeldFor(u, Key(tf, symbol), tf, symbol) <==>
                 forall tf', symbol' :: HeldFor(s.table, Key(tf, symbol), tf', symbol') ==> tf' == tf && symbol' == symbol)
  {
    var tf, symbol := Timeframe(env, msg.tf), env.trim(msg.symbol);
    var key := Key(tf, symbol);
    if key in s.table.bars {
      assert ForSomePair(s.table, key, false);
      var tf0, symbol0 :| HeldFor(s.table, key, tf0, symbol0);
      if HeldFor(s.table, key, tf, symbol) {
        forall tf', symbol' | HeldFor(s.table, key, tf', symbol')
          ensures tf' == tf && symbol' == symbol
        {
          HeldForOne(s.table, key, tf', symbol', tf, symbol);
        }
      }
    } else {
      AddedFor(env, s.table, tf, symbol);
    }
  }

  /** While no timeframe with a colon is asked for, every acknowledged `subscribe` listens to its own subjects. */
  lemma {:induction false} PlainTimeframes(env: Env, msgs: seq<Msg>, msg: Msg)
    requires msg.Subscribe? && msg.ch == "bars" && env.trim(msg.symbol) != ""
    requires PlainMsg(env, msg) && forall i :: 0 <= i < |msgs| ==> PlainMsg(env, msgs[i])
    ensures var tf, symbol := Timeframe(env, msg.tf), env.trim(msg.symbol);
            var u := SubscribeBars(env, Run(env, msgs), msg).table;
            Key(tf, symbol) in u.bars ==> HeldFor(u, Key(tf, symbol), tf, symbol)
  {
    var tf, symbol := Timeframe(env, msg.tf), env.trim(msg.symbol);
    var t := Run(env, msgs).table;
    RunKeepsInv(env, msgs);
    RunForPairs(env, msgs, true);
    if Key(tf, symbol) in t.bars {
      assert ForSomePair(t, Key(tf, symbol), true);
      var tf0, symbol0 :| HeldFor(t, Key(tf, symbol), tf0, symbol0) && ':' !in tf0;
      KeyInjective(tf, symbol, tf0, symbol0);
    } else {
      AddedFor(env, t, tf, symbol);
    }
  }

  /** Trimming leaves the names of the example alone, and the broker grants everything. */
  ghost predicate Obliging(env: Env) {
    && (forall n :: env.outcome(n).Subscribed?)
    && !env.jetStream && !IsAccountCh(env, "bars")
    && env.trim("A:B") == "A:B" && env.trim("B") == "B" && env.trim("M1") == "M1" && env.trim("M1:A") == "M1:A"
  }

  /** A client that watches A:B at M1 and then asks for B at M1:A gets two acknowledgements and one pair of
      subscriptions. */
  lemma AcknowledgedNotMade(env: Env)
    requires Obliging(env)
    ensures var s := Run(env, [Subscribe("bars", "A:B", "M1"), Subscribe("bars", "B", "M1:A")]);
            && s.replies == [Ack("subscribe", Key("M1", "A:B")), Ack("subscribe", Key("M1:A", "B"))]
            && s.table.attempts == 2
            && forall id :: id in s.table.live ==>
                 s.table.live[id].subject != ClosedBars("M1:A", "B").subject
                 && s.table.live[id].subject != FormingBars("M1:A", "B").subject
  {
    var first, second := Subscribe("bars", "A:B", "M1"), Subscribe("bars", "B", "M1:A");
    var s0 := StartAccounts(env, START, map[]);
    assert s0 == START.(started := true);
    var s1 := SubscribeBars(env, s0, first);
    assert [first][..0] == [] && [first, second][..1] == [first];
    assert Run(env, []) == START;
    assert Run(env, [first]) == s1;
    ShiftedCollide("M1", "A:B", "M1:A", "B", "A");
    AddBarsIs(env, START.table, "M1", "A:B");
    assert s1.table == Paired(START.table, Key("M1", "A:B"), ClosedBars("M1", "A:B"), FormingBars("M1", "A:B"));
    assert Run(env, [first, second]) == SubscribeBars(env, s1, second);
    SubjectsApart();
  }

  lemma SubjectsApart()
    ensures ClosedBars("M1", "A:B").subject != ClosedBars("M1:A", "B").subject
    ensures ClosedBars("M1", "A:B").subject != FormingBars("M1:A", "B").subject
    ensures FormingBars("M1", "A:B").subject != ClosedBars("M1:A", "B").subject
    ensures FormingBars("M1", "A:B").subject != FormingBars("M1:A", "B").subject
  {
    assert ClosedBars("M1", "A:B").subject[7] == '.' && ClosedBars("M1:A", "B").subject[7] == ':';
    assert ClosedBars("M1", "A:B").subject[5] == 'M' && FormingBars("M1:A", "B").subject[5] == 'l';
    assert FormingBars("M1", "A:B").subject[5] == 'l' && ClosedBars("M1:A", "B").subject[5] == 'M';
    assert FormingBars("M1", "A:B").subject[12] == '.' && FormingBars("M1:A", "B").subject[12] == ':';
  }
}
