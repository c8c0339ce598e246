/** The fleet after any sequence of calls, port by port and helm by helm. */
module FleetHistory {
  import opened Options
  import opened FleetRegistry

  datatype Port = HeraldPort | SyncStorePort | PosLogPort | AccountEventsPort | TradeLogPort | PnlSummerPort
                | EventCounterPort | NcPort | JsPort

  function Held(p: Ports, port: Port): Handle {
    match port
    case HeraldPort => p.herald
    case SyncStorePort => p.syncStore
    case PosLogPort => p.posLog
    case AccountEventsPort => p.accountEvents
    case TradeLogPort => p.tradeLog
    case PnlSummerPort => p.pnlSummer
    case EventCounterPort => p.eventCounter
    case NcPort => p.nc
    case JsPort => p.js
  }

  /** What an injection gives to a port, if it is for it. */
  function Given(i: Injection, port: Port): Option<Handle> {
    match (i, port)
    case (Herald(h), HeraldPort) => Some(h)
    case (SyncStore(h), SyncStorePort) => Some(h)
    case (PosLog(h), PosLogPort) => Some(h)
    case (AccountEvents(h), AccountEventsPort) => Some(h)
    case (TradeLog(h), TradeLogPort) => Some(h)
    case (PnlSummer(h), PnlSummerPort) => Some(h)
    case (EventCounter(h), EventCounterPort) => Some(h)
    case (EventConn(nc, _), NcPort) => Some(nc)
    case (EventConn(_, js), JsPort) => Some(js)
    case _ => None
  }

  /** What the last of the injections for the port gave it, or 0. */
  function LastGiven(injections: seq<Injection>, port: Port): Handle {
    if injections == [] then 0
    else
      match Given(injections[|injections|-1], port)
      case Some(h) => h
      case None => LastGiven(injections[..|injections|-1], port)
  }

  lemma {:induction false} InjectedHolds(injections: seq<Injection>, port: Port)
    ensures Held(Injected(injections), port) == LastGiven(injections, port)
  {
    if injections != [] {
      InjectedHolds(injections[..|injections|-1], port);
    }
  }

  /** After any calls, each port of the registry and of every live helm holds what was injected last for it. */
  lemma {:induction false} PortsHold(ops: seq<Op>, port: Port, id: Id)
    ensures Held(Run(ops).ports, port) == LastGiven(Injections(ops), port)
    ensures id in Run(ops).live ==> Held(Run(ops).live[id].ports, port) == LastGiven(Injections(ops), port)
  {
    RunInjected(ops);
    InjectedHolds(Injections(ops), port);
    AlwaysWiredAlike(ops);
  }

  /** The run context has been set by one of the operations. */
  predicate EverConnected(ops: seq<Op>) {
    exists i :: 0 <= i < |ops| && ops[i].Connect?
  }

  lemma {:induction false} ConnectedIs(ops: seq<Op>)
    ensures Run(ops).connected <==> EverConnected(ops)
  {
    if ops != [] {
      var init, op := ops[..|ops|-1], ops[|ops|-1];
      ConnectedIs(init);
      if EverConnected(init) {
        var i :| 0 <= i < |init| && init[i].Connect?;
        assert ops[i].Connect?;
      }
      if EverConnected(ops) && !op.Connect? {
        var i :| 0 <= i < |ops| && ops[i].Connect?;
        assert init[i].Connect?;
      }
    }
  }

  /** The spawn at position k made the helm, and nothing after it took the helm down. */
  ghost predicate MadeAt(ops: seq<Op>, id: Id, k: nat) {
    && k < |ops| && ops[k].Spawn? && ops[k].id == id && ops[k].exchangeOk && id !in Run(ops[..k]).live
    && forall i :: k < i < |ops| ==> ops[i] != Teardown(id)
  }

  lemma MadeEarlier(init: seq<Op>, op: Op, id: Id, k: nat)
    requires MadeAt(init, id, k) && op != Teardown(id)
    ensures MadeAt(init + [op], id, k)
  {
    assert (init + [op])[..k] == init[..k];
  }

  /** How a spawn at position k leaves its helm: paused unless it is active, and streaming if the run context was set
      before and its credentials are not known to be bad. */
  predicate WiredAt(ops: seq<Op>, id: Id, k: nat, w: Wiring)
    requires k < |ops| && ops[k].Spawn?
  {
    && w.paused == (ops[k].status != Active)
    && w.streaming == (EverConnected(ops[..k]) && ops[k].status != Error)
  }

  /** Every live helm was made by the last spawn for it that could, and is paused and streaming as that spawn found it. */
  lemma {:induction false} LiveSince(ops: seq<Op>, id: Id) returns (k: nat)
    requires id in Run(ops).live
    ensures MadeAt(ops, id, k) && WiredAt(ops, id, k, Run(ops).live[id])
  {
    var n := |ops| - 1;
    var init, op := ops[..n], ops[n];
    assert ops == init + [op];
    if id in Run(init).live {
      k := LiveSince(init, id);
      MadeEarlier(init, op, id, k);
      assert init[..k] == ops[..k];
    } else {
      k := n;
      ConnectedIs(init);
    }
  }

  /** And a spawn makes a helm whenever it can. */
  lemma SpawnMakes(ops: seq<Op>, id: Id, status: Status, exchangeOk: bool)
    ensures id in Run(ops + [Spawn(id, status, exchangeOk)]).live <==> id in Run(ops).live || exchangeOk
    ensures id !in Run(ops + [Teardown(id)]).live
  {
    assert (ops + [Spawn(id, status, exchangeOk)])[..|ops|] == ops;
    assert (ops + [Teardown(id)])[..|ops|] == ops;
  }
}
