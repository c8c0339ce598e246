/** The fleet registry: one runtime object per live helm, and the ports injected into all of them.

    Ports arrive in any order relative to the helms they are for: some helms are spawned before the
    message bus is connected, some long after.  Injecting writes every live runtime; spawning copies
    what has been injected so far, port by port.  The eight same-shaped setters of the registry are one
    method here, `Propagate`, with the port as a parameter.
 */
module FleetRegistry {
  import opened Options

  /** Identity of an injected implementation; 0 stands for nil. */
  type Handle = nat

  datatype Ports = Ports(herald: Handle, syncStore: Handle, posLog: Handle, accountEvents: Handle,
                         tradeLog: Handle, pnlSummer: Handle, eventCounter: Handle, nc: Handle, js: Handle)

  const NO_PORTS := Ports(0, 0, 0, 0, 0, 0, 0, 0, 0)

  datatype Injection =
    | Herald(h: Handle) | SyncStore(h: Handle) | PosLog(h: Handle) | AccountEvents(h: Handle)
    | TradeLog(h: Handle) | PnlSummer(h: Handle) | EventCounter(h: Handle) | EventConn(nc: Handle, js: Handle)

  function With(p: Ports, i: Injection): Ports {
    match i
    case Herald(h) => p.(herald := h)
    case SyncStore(h) => p.(syncStore := h)
    case PosLog(h) => p.(posLog := h)
    case AccountEvents(h) => p.(accountEvents := h)
    case TradeLog(h) => p.(tradeLog := h)
    case PnlSummer(h) => p.(pnlSummer := h)
    case EventCounter(h) => p.(eventCounter := h)
    case EventConn(nc, js) => p.(nc := nc, js := js)
  }

  datatype Status = Active | Paused | Halted | Error

  predicate StartsPaused(status: Status) {
    status.Paused? || status.Halted? || status.Error?
  }

  type Id = nat

  // ---------------------------------------------------------------- the state as a value

  datatype Wiring = Wiring(ports: Ports, paused: bool, streaming: bool)

  /** `connected` says whether the run context has been set. */
  datatype Fleet = Fleet(ports: Ports, live: map<Id, Wiring>, connected: bool)

  const EMPTY := Fleet(NO_PORTS, map[], false)

  datatype Op =
    | Inject(i: Injection)
    | Connect(nc: Handle, js: Handle)
    | Spawn(id: Id, status: Status, exchangeOk: bool)
    | Teardown(id: Id)

  function Rewired(w: Wiring, i: Injection): Wiring {
    w.(ports := With(w.ports, i))
  }

  function InjectAll(live: map<Id, Wiring>, i: Injection): map<Id, Wiring> {
    map id | id in live :: Rewired(live[id], i)
  }

  function Step(f: Fleet, op: Op): Fleet {
    match op
    case Inject(i) => f.(ports := With(f.ports, i), live := InjectAll(f.live, i))
    case Connect(nc, js) =>
      f.(ports := With(f.ports, EventConn(nc, js)), live := InjectAll(f.live, EventConn(nc, js)), connected := true)
    case Spawn(id, status, exchangeOk) =>
      if id in f.live || !exchangeOk then f
      else f.(live := f.live[id := Wiring(f.ports, StartsPaused(status), f.connected && !status.Error?)])
    case Teardown(id) => f.(live := f.live - {id})
  }

  function Run(ops: seq<Op>): Fleet {
    if ops == [] then EMPTY else Step(Run(ops[..|ops|-1]), ops[|ops|-1])
  }

  // ---------------------------------------------------------------- the objects

  class HelmRuntime {
    const id: Id
    var herald: Handle
    var syncStore: Handle
    var posLog: Handle
    var accountEvents: Handle
    var tradeLog: Handle
    var pnlSummer: Handle
    var eventCounter: Handle
    var nc: Handle
    var js: Handle
    var paused: bool
    var streaming: bool
    var stopped: bool

    /** A new runtime has no ports. */
    constructor (id: Id)
      ensures this.id == id && View() == Wiring(NO_PORTS, false, false) && !stopped
    {
      this.id := id;
      herald, syncStore, posLog, accountEvents, tradeLog := 0, 0, 0, 0, 0;
      pnlSummer, eventCounter, nc, js := 0, 0, 0, 0;
      paused, streaming, stopped := false, false, false;
    }

    ghost function Wired(): Ports
      reads this
    {
      Ports(herald, syncStore, posLog, accountEvents, tradeLog, pnlSummer, eventCounter, nc, js)
    }

    ghost function View(): Wiring
      reads this
    {
      Wiring(Wired(), paused, streaming)
    }

    method SetEventConn(nc: Handle, js: Handle)
      modifies this`nc, this`js
      ensures this.nc == nc && this.js == js
    {
      this.nc, this.js := nc, js;
    }

    /** One port is overwritten; nothing else about the runtime changes. */
    method Receive(i: Injection)
      modifies this
      ensures View() == Rewired(old(View()), i) && stopped == old(stopped)
    {
      match i {
        case Herald(h) => herald := h;
        case SyncStore(h) => syncStore := h;
        case PosLog(h) => posLog := h;
        case AccountEvents(h) => accountEvents := h;
        case TradeLog(h) => tradeLog := h;
        case PnlSummer(h) => pnlSummer := h;
        case EventCounter(h) => eventCounter := h;
        case EventConn(nc, js) => SetEventConn(nc, js);
      }
    }
  }

  class Registry {
    var runtimes: map<Id, HelmRuntime>
    var herald: Handle
    var syncStore: Handle
    var posLog: Handle
    var accountEvents: Handle
    var tradeLog: Handle
    var pnlSummer: Handle
    var eventCounter: Handle
    var nc: Handle
    var js: Handle
    var connected: bool

    ghost function Injected(): Ports
      reads this
    {
      Ports(herald, syncStore, posLog, accountEvents, tradeLog, pnlSummer, eventCounter, nc, js)
    }

    /** Every runtime is its own helm's, so no two helms share one, and every live one is wired like the registry. */
    ghost predicate Valid()
      reads this, runtimes.Values
    {
      forall a | a in runtimes :: runtimes[a].id == a && runtimes[a].Wired() == Injected() && !runtimes[a].stopped
    }

    ghost function Live(): map<Id, Wiring>
      reads this`runtimes, runtimes.Values
    {
      map id | id in runtimes :: runtimes[id].View()
    }

    ghost function View(): Fleet
      reads this, runtimes.Values
    {
      Fleet(Injected(), Live(), connected)
    }

    constructor ()
      ensures Valid() && View() == EMPTY
    {
      runtimes, connected := map[], false;
      herald, syncStore, posLog, accountEvents, tradeLog := 0, 0, 0, 0, 0;
      pnlSummer, eventCounter, nc, js := 0, 0, 0, 0;
    }

    /** One port of the registry is overwritten. */
    method Store(i: Injection)
      modifies this
      ensures Injected() == With(old(Injected()), i) && runtimes == old(runtimes) && connected == old(connected)
    {
      match i {
        case Herald(h) => herald := h;
        case SyncStore(h) => syncStore := h;
        case PosLog(h) => posLog := h;
        case AccountEvents(h) => accountEvents := h;
        case TradeLog(h) => tradeLog := h;
        case PnlSummer(h) => pnlSummer := h;
        case EventCounter(h) => eventCounter := h;
        case EventConn(nc, js) => this.nc, this.js := nc, js;
      }
    }

    /** Pass an injection on to every live runtime. */
    method PassOn(i: Injection)
      requires forall a | a in runtimes :: runtimes[a].id == a
      modifies runtimes.Values
      ensures forall a | a in runtimes :: runtimes[a].View() == Rewired(old(runtimes[a].View()), i)
      ensures forall a | a in runtimes :: runtimes[a].stopped == old(runtimes[a].stopped)
    {
      var todo := runtimes.Keys;
      while todo != {}
        invariant todo <= runtimes.Keys
        invariant forall a | a in runtimes && a !in todo :: runtimes[a].View() == Rewired(old(runtimes[a].View()), i)
        invariant forall a | a in todo :: runtimes[a].View() == old(runtimes[a].View())
        invariant forall a | a in runtimes :: runtimes[a].stopped == old(runtimes[a].stopped)
        decreases todo
      {
        var a :| a in todo;
        runtimes[a].Receive(i);
        todo := todo - {a};
      }
    }

    method Propagate(i: Injection)
      requires Valid()
      modifies this, runtimes.Values
      ensures Valid() && runtimes == old(runtimes) && connected == old(connected)
      ensures View() == Step(old(View()), Inject(i))
    {
      Store(i);
      assert Live() == old(Live());
      PassOn(i);
      assert Live() == InjectAll(old(Live()), i);
      assert forall a | a in runtimes :: runtimes[a].Wired() == Live()[a].ports;
    }

    method SetRuntime(nc: Handle, js: Handle)
      requires Valid()
      modifies this, runtimes.Values
      ensures Valid() && runtimes == old(runtimes)
      ensures View() == Step(old(View()), Connect(nc, js))
    {
      Propagate(EventConn(nc, js));
      connected := true;
    }

    /** A runtime that has been given each of the registry's ports in turn. */
    method Wire(id: Id, status: Status) returns (rt: HelmRuntime)
      ensures fresh(rt) && rt.id == id && !rt.stopped
      ensures rt.View() == Wiring(Injected(), StartsPaused(status), connected && !status.Error?)
    {
      rt := new HelmRuntime(id);
      rt.paused := status == Paused || status == Halted || status == Error;
      rt.streaming := connected && status != Error;
      WirePorts(rt);
    }

    method WirePorts(rt: HelmRuntime)
      modifies rt
      ensures rt.Wired() == Injected()
      ensures rt.paused == old(rt.paused) && rt.streaming == old(rt.streaming) && rt.stopped == old(rt.stopped)
    {
      rt.herald := herald;
      rt.accountEvents := accountEvents;
      rt.posLog := posLog;
      rt.tradeLog := tradeLog;
      rt.pnlSummer := pnlSummer;
      rt.eventCounter := eventCounter;
      rt.syncStore := syncStore;
      rt.SetEventConn(nc, js);
    }

    /** Reports whether the exchange adapter could be built; a helm already live is left alone. */
    method SpawnHelm(id: Id, status: Status, exchangeOk: bool) returns (ok: bool)
      requires Valid()
      modifies this`runtimes
      ensures Valid()
      ensures View() == Step(old(View()), Spawn(id, status, exchangeOk))
      ensures ok == (id in old(runtimes) || exchangeOk)
      ensures id !in old(runtimes) && exchangeOk ==> id in runtimes && fresh(runtimes[id])
      ensures forall a | a in old(runtimes) :: a in runtimes && runtimes[a] == old(runtimes[a])
    {
      if id in runtimes {
        return true;
      }
      if !exchangeOk {
        return false;
      }
      var rt := Wire(id, status);
      Publish(rt);
      ok := true;
    }

    method Publish(rt: HelmRuntime)
      requires Valid() && rt.id !in runtimes && rt.Wired() == Injected() && !rt.stopped
      modifies this`runtimes
      ensures Valid() && runtimes == old(runtimes)[rt.id := rt] && Live() == old(Live())[rt.id := rt.View()]
    {
      runtimes := runtimes[rt.id := rt];
    }

    method TeardownHelm(id: Id) returns (found: bool)
      requires Valid()
      modifies this`runtimes, runtimes.Values
      ensures Valid()
      ensures View() == Step(old(View()), Teardown(id))
      ensures found == (id in old(runtimes))
      ensures found ==> old(runtimes[id]).stopped
    {
      found := id in runtimes;
      if found {
        var rt := runtimes[id];
        runtimes := runtimes - {id};
        rt.stopped := true;
      }
    }
  }

  // ---------------------------------------------------------------- every sequence of calls

  predicate WiredAlike(f: Fleet) {
    forall id | id in f.live :: f.live[id].ports == f.ports
  }

  lemma {:induction false} AlwaysWiredAlike(ops: seq<Op>)
    ensures WiredAlike(Run(ops))
  {
    if ops != [] {
      AlwaysWiredAlike(ops[..|ops|-1]);
    }
  }

  function InjectionOf(op: Op): Option<Injection> {
    match op
    case Inject(i) => Some(i)
    case Connect(nc, js) => Some(EventConn(nc, js))
    case _ => None
  }

  /** The injections of a run, in order. */
  function Injections(ops: seq<Op>): seq<Injection> {
    if ops == [] then []
    else
      var rest := Injections(ops[..|ops|-1]);
      match InjectionOf(ops[|ops|-1]) case Some(i) => rest + [i] case None => rest
  }

  /** The spawns and teardowns of a run, in order. */
  function Lifecycle(ops: seq<Op>): seq<Op> {
    if ops == [] then []
    else Lifecycle(ops[..|ops|-1]) + if InjectionOf(ops[|ops|-1]).None? then [ops[|ops|-1]] else []
  }

  function Injected(injections: seq<Injection>): Ports {
    if injections == [] then NO_PORTS else With(Injected(injections[..|injections|-1]), injections[|injections|-1])
  }

  /** What can be seen of the wiring: who is live, paused or not, with which ports. */
  function Seen(f: Fleet): (Ports, map<Id, (Ports, bool)>) {
    (f.ports, map id | id in f.live :: (f.live[id].ports, f.live[id].paused))
  }

  function AliveStep(before: map<Id, bool>, op: Op): map<Id, bool> {
    match op
    case Spawn(id, status, exchangeOk) => if id in before || !exchangeOk then before else before[id := StartsPaused(status)]
    case Teardown(id) => before - {id}
    case _ => before
  }

  /** Who is live and paused after some spawns and teardowns. */
  function Alive(lifecycle: seq<Op>): map<Id, bool> {
    if lifecycle == [] then map[]
    else AliveStep(Alive(lifecycle[..|lifecycle|-1]), lifecycle[|lifecycle|-1])
  }

  function PausedMap(f: Fleet): map<Id, bool> {
    map id | id in f.live :: f.live[id].paused
  }

  lemma StepAlive(f: Fleet, op: Op)
    ensures PausedMap(Step(f, op)) == AliveStep(PausedMap(f), op)
  {
  }

  lemma {:induction false} RunAlive(ops: seq<Op>)
    ensures PausedMap(Run(ops)) == Alive(Lifecycle(ops))
  {
    if ops != [] {
      var front, op := ops[..|ops|-1], ops[|ops|-1];
      RunAlive(front);
      StepAlive(Run(front), op);
      if InjectionOf(op).None? {
        assert Lifecycle(ops)[..|Lifecycle(front)|] == Lifecycle(front);
      } else {
        assert Lifecycle(ops) == Lifecycle(front);
      }
    } else {
      assert PausedMap(EMPTY) == map[];
    }
  }

  lemma {:induction false} RunInjected(ops: seq<Op>)
    ensures Run(ops).ports == Injected(Injections(ops))
  {
    if ops != [] {
      var front, op := ops[..|ops|-1], ops[|ops|-1];
      RunInjected(front);
      if InjectionOf(op).Some? {
        assert Injections(ops)[..|Injections(front)|] == Injections(front);
      }
    }
  }

  function Uniform(p: Ports, paused: map<Id, bool>): map<Id, (Ports, bool)> {
    map id | id in paused :: (p, paused[id])
  }

  lemma SeenIs(f: Fleet)
    requires WiredAlike(f)
    ensures Seen(f) == (f.ports, Uniform(f.ports, PausedMap(f)))
  {
    assert Seen(f).1 == Uniform(f.ports, PausedMap(f));
  }

  /** The final wiring depends only on the injections among themselves and the spawns and teardowns among
      themselves, not on how the two are interleaved. */
  lemma InterleavingDoesNotMatter(ops: seq<Op>, other: seq<Op>)
    requires Injections(ops) == Injections(other) && Lifecycle(ops) == Lifecycle(other)
    ensures Seen(Run(ops)) == Seen(Run(other))
  {
    RunInjected(ops);
    RunInjected(other);
    RunAlive(ops);
    RunAlive(other);
    AlwaysWiredAlike(ops);
    AlwaysWiredAlike(other);
    SeenIs(Run(ops));
    SeenIs(Run(other));
  }

  predicate SamePort(i: Injection, j: Injection) {
    || (i.Herald? && j.Herald?) || (i.SyncStore? && j.SyncStore?) || (i.PosLog? && j.PosLog?)
    || (i.AccountEvents? && j.AccountEvents?) || (i.TradeLog? && j.TradeLog?) || (i.PnlSummer? && j.PnlSummer?)
    || (i.EventCounter? && j.EventCounter?) || (i.EventConn? && j.EventConn?)
  }

  lemma OtherPortsStay(p: Ports, i: Injection, j: Injection)
    ensures With(With(p, i), i) == With(p, i)
    ensures !SamePort(i, j) && With(p, i) == p ==> With(With(p, j), i) == With(p, j)
  {
  }

  /** Each port holds its last injection: injecting that again would change nothing. */
  lemma {:induction false} LastInjectionWins(earlier: seq<Injection>, i: Injection, later: seq<Injection>)
    requires forall j | j in later :: !SamePort(i, j)
    ensures With(Injected(earlier + [i] + later), i) == Injected(earlier + [i] + later)
  {
    var all := earlier + [i] + later;
    if later == [] {
      assert all[..|all|-1] == earlier;
      OtherPortsStay(Injected(earlier), i, i);
    } else {
      var front, last := later[..|later|-1], later[|later|-1];
      LastInjectionWins(earlier, i, front);
      assert all[..|all|-1] == earlier + [i] + front;
      assert last in later;
      OtherPortsStay(Injected(earlier + [i] + front), i, last);
    }
  }
}
