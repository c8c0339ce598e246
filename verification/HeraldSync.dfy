/** Helm keeps the signal engine's registry in step with its running hands.

    Every thirty seconds a heartbeat lists the registry, registers running hands that are missing and
    deregisters hands nobody runs; a restarted engine is answered by registering everything.  Calls may
    be rejected, or be lost with or without having taken effect (`Outcome`), decided call by call by an
    arbitrary oracle.
 */
module HeraldSync {

  /** The engine keeps one entry per symbol and hand, remembering the helm that asked for it.  Entries
      with an empty helm are its own fallback hands. */
  datatype Slot = Slot(symbol: string, hand: string)

  type Registry = map<Slot, string>

  datatype Outcome = Done | Rejected | Unreachable(applied: bool)

  predicate TookEffect(o: Outcome) {
    o.Done? || o == Unreachable(true)
  }

  /** A hand that should be running, with everything a registration needs. */
  datatype Job = Job(helm: string, id: string, symbols: seq<string>)

  datatype Runtime = Runtime(running: seq<Job>)

  datatype Call = Register(hand: string, symbol: string, outcome: Outcome) | Deregister(hand: string, outcome: Outcome)

  /** The registry and the calls made so far. */
  datatype World = World(reg: Registry, log: seq<Call>)

  type Oracle = nat -> Outcome

  // ---------------------------------------------------------------- the engine's side

  function Add(reg: Registry, job: Job, symbol: string): Registry {
    reg[Slot(symbol, job.id) := job.helm]
  }

  /** Remove a hand everywhere; the empty id removes everything. */
  function Remove(reg: Registry, hand: string): Registry {
    if hand == "" then map[] else map s | s in reg && s.hand != hand :: reg[s]
  }

  // ---------------------------------------------------------------- helm's side, call by call

  function RegisterOne(o: Oracle, w: World, job: Job, symbol: string): World {
    var out := o(|w.log|);
    World(if TookEffect(out) then Add(w.reg, job, symbol) else w.reg, w.log + [Register(job.id, symbol, out)])
  }

  /** Register symbol by symbol, giving up at the first call that does not report success. */
  function RegisterSymbols(o: Oracle, w: World, job: Job, k: nat): World
    requires k <= |job.symbols|
    decreases |job.symbols| - k
  {
    if k == |job.symbols| then w
    else
      var next := RegisterOne(o, w, job, job.symbols[k]);
      if o(|w.log|).Done? then RegisterSymbols(o, next, job, k + 1) else next
  }

  function RegisterHand(o: Oracle, w: World, job: Job): World {
    RegisterSymbols(o, w, job, 0)
  }

  /** Register, in order, the jobs whose id is asked for. */
  function RegisterJobs(o: Oracle, w: World, jobs: seq<Job>, ids: set<string>): World {
    if jobs == [] then w
    else
      var before, job := RegisterJobs(o, w, jobs[..|jobs|-1], ids), jobs[|jobs|-1];
      if job.id in ids then RegisterHand(o, before, job) else before
  }

  function RemoveOne(o: Oracle, w: World, hand: string): World {
    var out := o(|w.log|);
    World(if TookEffect(out) then Remove(w.reg, hand) else w.reg, w.log + [Deregister(hand, out)])
  }

  function RemoveAll(o: Oracle, w: World, hands: seq<string>): World {
    if hands == [] then w else RemoveOne(o, RemoveAll(o, w, hands[..|hands|-1]), hands[|hands|-1])
  }

  // ---------------------------------------------------------------- what is out of step

  function RunningIds(jobs: seq<Job>): (ids: set<string>)
  {
    set j | j in jobs :: j.id
  }

  function ListedIds(reg: Registry): set<string> {
    set s | s in reg :: s.hand
  }

  function MissingIds(jobs: seq<Job>, reg: Registry): set<string> {
    RunningIds(jobs) - ListedIds(reg)
  }

  function OrphanIds(jobs: seq<Job>, reg: Registry): set<string> {
    set s | s in reg && reg[s] != "" && s.hand !in RunningIds(jobs) :: s.hand
  }

  /** A heartbeat.  The running hands are walked twice, in orders that may differ (`jobs`, `again`);
      `orphans` is in the order the listing produced them. */
  function Heartbeat(o: Oracle, w: World, jobs: seq<Job>, again: seq<Job>, orphans: seq<string>): World {
    RemoveAll(o, RegisterJobs(o, w, again, MissingIds(jobs, w.reg)), orphans)
  }

  ghost predicate SameElements(xs: seq<string>, s: set<string>) {
    forall x :: x in xs <==> x in s
  }

  /** The running set does not change during the heartbeat, and the orphans are those of the listing. */
  ghost predicate Steady(w: World, jobs: seq<Job>, again: seq<Job>, orphans: seq<string>) {
    RunningIds(again) == RunningIds(jobs) && SameElements(orphans, OrphanIds(jobs, w.reg))
  }

  function OutOfStep(jobs: seq<Job>, reg: Registry): set<string> {
    MissingIds(jobs, reg) + OrphanIds(jobs, reg)
  }

  // ---------------------------------------------------------------- what batches of calls can do

  /** Registrations only touch slots of the given hands, and each that took effect lists its hand. */
  ghost predicate Grew(w: World, v: World, ids: set<string>) {
    && w.reg.Keys <= v.reg.Keys
    && (forall s | s in v.reg && (s !in w.reg || v.reg[s] != w.reg[s]) :: s.hand in ids)
    && w.log <= v.log
    && forall i | |w.log| <= i < |v.log| ::
         v.log[i].Register? && v.log[i].hand in ids && (TookEffect(v.log[i].outcome) ==> v.log[i].hand in ListedIds(v.reg))
  }

  /** A call takes effect when it reports success, and when the answer to it is lost on the way back. */
  lemma CallEffects(o: Oracle, w: World, job: Job, symbol: string, hand: string)
    ensures var out, slot := o(|w.log|), Slot(symbol, job.id);
            && RegisterOne(o, w, job, symbol).reg
               == (if out == Done || out == Unreachable(true) then w.reg[slot := job.helm] else w.reg)
            && (out == Rejected || out == Unreachable(false) ==> RemoveOne(o, w, hand).reg == w.reg)
            && (out == Done || out == Unreachable(true) ==>
                  forall s :: s in RemoveOne(o, w, hand).reg <==> s in w.reg && hand != "" && s.hand != hand)
  {
  }

  lemma GrewListed(w: World, v: World, ids: set<string>)
    requires Grew(w, v, ids)
    ensures ListedIds(w.reg) <= ListedIds(v.reg) <= ListedIds(w.reg) + ids
  {
  }

  lemma GrewAgain(u: World, v: World, w: World, ids: set<string>)
    requires Grew(u, v, ids) && Grew(v, w, ids)
    ensures Grew(u, w, ids)
  {
    GrewListed(v, w, ids);
  }

  lemma RegisterOneGrows(o: Oracle, w: World, job: Job, symbol: string, ids: set<string>)
    requires job.id in ids
    ensures Grew(w, RegisterOne(o, w, job, symbol), ids)
  {
    var v := RegisterOne(o, w, job, symbol);
    assert TookEffect(o(|w.log|)) ==> Slot(symbol, job.id) in v.reg;
  }

  lemma {:induction false} RegisterSymbolsGrows(o: Oracle, w: World, job: Job, k: nat, ids: set<string>)
    requires k <= |job.symbols| && job.id in ids
    ensures Grew(w, RegisterSymbols(o, w, job, k), ids)
    decreases |job.symbols| - k
  {
    if k < |job.symbols| {
      var next := RegisterOne(o, w, job, job.symbols[k]);
      RegisterOneGrows(o, w, job, job.symbols[k], ids);
      if o(|w.log|).Done? {
        RegisterSymbolsGrows(o, next, job, k + 1, ids);
        GrewAgain(w, next, RegisterSymbols(o, next, job, k + 1), ids);
      }
    }
  }

  lemma {:induction false} RegisterJobsGrows(o: Oracle, w: World, jobs: seq<Job>, ids: set<string>)
    ensures Grew(w, RegisterJobs(o, w, jobs, ids), ids)
  {
    if jobs != [] {
      var before, job := RegisterJobs(o, w, jobs[..|jobs|-1], ids), jobs[|jobs|-1];
      RegisterJobsGrows(o, w, jobs[..|jobs|-1], ids);
      if job.id in ids {
        RegisterSymbolsGrows(o, before, job, 0, ids);
        GrewAgain(w, before, RegisterHand(o, before, job), ids);
      }
    }
  }

  /** Removals only take away entries of the given hands, and each that took effect unlists its hand. */
  ghost predicate Shrank(w: World, v: World, hands: seq<string>) {
    && (forall s | s in v.reg :: s in w.reg && v.reg[s] == w.reg[s])
    && (forall s | s in w.reg && s !in v.reg :: s.hand in hands)
    && w.log <= v.log
    && forall i | |w.log| <= i < |v.log| ::
         v.log[i].Deregister? && v.log[i].hand in hands && (TookEffect(v.log[i].outcome) ==> v.log[i].hand !in ListedIds(v.reg))
  }

  lemma {:induction false} RemoveAllShrinks(o: Oracle, w: World, hands: seq<string>)
    requires "" !in hands
    ensures Shrank(w, RemoveAll(o, w, hands), hands)
  {
    if hands != [] {
      var front, last := hands[..|hands|-1], hands[|hands|-1];
      RemoveAllShrinks(o, w, front);
      assert hands == front + [last];
    }
  }

  // ---------------------------------------------------------------- lossy heartbeats

  /** Whatever calls fail or get lost, a heartbeat never puts more hands out of step, and every call that
      took effect brings its hand into step. */
  lemma NeverWorse(o: Oracle, w: World, jobs: seq<Job>, again: seq<Job>, orphans: seq<string>)
    requires Steady(w, jobs, again, orphans) && "" !in orphans
    ensures var v := Heartbeat(o, w, jobs, again, orphans);
            && MissingIds(jobs, v.reg) <= MissingIds(jobs, w.reg)
            && OrphanIds(jobs, v.reg) <= OrphanIds(jobs, w.reg)
            && w.log <= v.log
            && forall i | |w.log| <= i < |v.log| ::
                 v.log[i].hand in OutOfStep(jobs, w.reg)
                 && (TookEffect(v.log[i].outcome) ==> v.log[i].hand !in OutOfStep(jobs, v.reg))
  {
    var ids := MissingIds(jobs, w.reg);
    var u := RegisterJobs(o, w, again, ids);
    var v := RemoveAll(o, u, orphans);
    RegisterJobsGrows(o, w, again, ids);
    RemoveAllShrinks(o, u, orphans);
  }

  // ---------------------------------------------------------------- heartbeats without failures

  ghost predicate AllDone(o: Oracle) {
    forall k :: o(k).Done?
  }

  function SlotsOf(job: Job): Registry {
    map symbol | symbol in job.symbols :: Slot(symbol, job.id) := job.helm
  }

  /** The entries the given jobs ask for; a later job wins over an earlier one with the same id. */
  function Wanted(jobs: seq<Job>, ids: set<string>): Registry {
    if jobs == [] then map[]
    else
      var job := jobs[|jobs|-1];
      Wanted(jobs[..|jobs|-1], ids) + if job.id in ids then SlotsOf(job) else map[]
  }

  function SlotsUpTo(job: Job, k: nat): Registry
    requires k <= |job.symbols|
  {
    map symbol | symbol in job.symbols[k..] :: Slot(symbol, job.id) := job.helm
  }

  lemma MergeThree(a: Registry, b: Registry, c: Registry)
    ensures a + b + c == a + (b + c)
  {
  }

  lemma SlotsSplit(job: Job, k: nat)
    requires k < |job.symbols|
    ensures SlotsUpTo(job, k) == map[Slot(job.symbols[k], job.id) := job.helm] + SlotsUpTo(job, k + 1)
  {
    assert job.symbols[k..] == [job.symbols[k]] + job.symbols[k+1..];
  }

  lemma {:induction false} SymbolsDone(o: Oracle, w: World, job: Job, k: nat)
    requires AllDone(o) && k <= |job.symbols|
    ensures RegisterSymbols(o, w, job, k).reg == w.reg + SlotsUpTo(job, k)
    decreases |job.symbols| - k
  {
    if k == |job.symbols| {
      assert SlotsUpTo(job, k) == map[];
    } else {
      var next, one := RegisterOne(o, w, job, job.symbols[k]), map[Slot(job.symbols[k], job.id) := job.helm];
      assert o(|w.log|).Done?;
      assert next.reg == w.reg + one;
      SymbolsDone(o, next, job, k + 1);
      SlotsSplit(job, k);
      MergeThree(w.reg, one, SlotsUpTo(job, k + 1));
    }
  }

  lemma HandDone(o: Oracle, w: World, job: Job)
    requires AllDone(o)
    ensures RegisterHand(o, w, job).reg == w.reg + SlotsOf(job)
  {
    SymbolsDone(o, w, job, 0);
    assert job.symbols[0..] == job.symbols;
    assert SlotsUpTo(job, 0) == SlotsOf(job);
  }

  lemma JobDone(o: Oracle, w: World, before: World, front: seq<Job>, job: Job, ids: set<string>)
    requires AllDone(o) && before.reg == w.reg + Wanted(front, ids) && job.id in ids
    ensures RegisterHand(o, before, job).reg == w.reg + (Wanted(front, ids) + SlotsOf(job))
  {
    HandDone(o, before, job);
    MergeThree(w.reg, Wanted(front, ids), SlotsOf(job));
  }

  lemma {:induction false} JobsDone(o: Oracle, w: World, jobs: seq<Job>, ids: set<string>)
    requires AllDone(o)
    ensures RegisterJobs(o, w, jobs, ids).reg == w.reg + Wanted(jobs, ids)
  {
    if jobs != [] {
      var front, job := jobs[..|jobs|-1], jobs[|jobs|-1];
      JobsDone(o, w, front, ids);
      if job.id in ids {
        JobDone(o, w, RegisterJobs(o, w, front, ids), front, job, ids);
      } else {
        assert Wanted(jobs, ids) == Wanted(front, ids);
      }
    }
  }

  lemma {:induction false} RemovalsDone(o: Oracle, w: World, hands: seq<string>)
    requires AllDone(o) && "" !in hands
    ensures RemoveAll(o, w, hands).reg == map s | s in w.reg && s.hand !in hands :: w.reg[s]
  {
    if hands != [] {
      var front, last := hands[..|hands|-1], hands[|hands|-1];
      assert hands == front + [last];
      RemovalsDone(o, w, front);
      var before := RemoveAll(o, w, front);
      assert o(|before.log|).Done?;
    }
  }

  lemma {:induction false} WantedMore(jobs: seq<Job>, ids: set<string>, more: set<string>, s: Slot)
    requires ids <= more
    ensures s in Wanted(jobs, ids) <==> s.hand in ids && s in Wanted(jobs, more)
    ensures s in Wanted(jobs, ids) ==> Wanted(jobs, ids)[s] == Wanted(jobs, more)[s]
  {
    if jobs != [] {
      WantedMore(jobs[..|jobs|-1], ids, more, s);
    }
  }

  /** Exactly what a heartbeat without failures leaves behind. */
  lemma HeartbeatDone(o: Oracle, w: World, jobs: seq<Job>, again: seq<Job>, orphans: seq<string>, s: Slot)
    requires AllDone(o) && Steady(w, jobs, again, orphans) && "" !in orphans
    ensures var v := Heartbeat(o, w, jobs, again, orphans).reg;
            var wanted := Wanted(again, RunningIds(jobs));
            if s.hand in MissingIds(jobs, w.reg) then (if s in wanted then s in v && v[s] == wanted[s] else s !in v)
            else if s in w.reg && s.hand !in OrphanIds(jobs, w.reg) then s in v && v[s] == w.reg[s]
            else s !in v
  {
    var ids := MissingIds(jobs, w.reg);
    JobsDone(o, w, again, ids);
    RemovalsDone(o, RegisterJobs(o, w, again, ids), orphans);
    WantedMore(again, ids, RunningIds(jobs), s);
    assert s in w.reg ==> s.hand in ListedIds(w.reg);
  }

  predicate EverySymbol(jobs: seq<Job>) {
    forall j | j in jobs :: j.symbols != []
  }

  lemma {:induction false} WantedLists(jobs: seq<Job>, ids: set<string>, id: string)
    requires EverySymbol(jobs) && id in RunningIds(jobs) && id in ids
    ensures exists s :: s in Wanted(jobs, ids) && s.hand == id
  {
    var job := jobs[|jobs|-1];
    if job.id == id {
      assert job in jobs;
      assert Slot(job.symbols[0], id) in SlotsOf(job);
      assert Slot(job.symbols[0], id) in Wanted(jobs, ids);
    } else {
      var front := jobs[..|jobs|-1];
      assert jobs == front + [job];
      WantedLists(front, ids, id);
      var s :| s in Wanted(front, ids) && s.hand == id;
      assert s in Wanted(jobs, ids);
    }
  }

  /** One heartbeat without failures brings every hand into step. */
  lemma BringsIntoStep(o: Oracle, w: World, jobs: seq<Job>, again: seq<Job>, orphans: seq<string>)
    requires AllDone(o) && Steady(w, jobs, again, orphans) && "" !in orphans && EverySymbol(again)
    ensures OutOfStep(jobs, Heartbeat(o, w, jobs, again, orphans).reg) == {}
  {
    var v := Heartbeat(o, w, jobs, again, orphans).reg;
    forall s: Slot {
      HeartbeatDone(o, w, jobs, again, orphans, s);
    }
    forall id | id in RunningIds(jobs)
      ensures id in ListedIds(v)
    {
      if id in MissingIds(jobs, w.reg) {
        WantedLists(again, RunningIds(jobs), id);
      } else {
        var s :| s in w.reg && s.hand == id;
        assert s in v;
      }
    }
  }

  /** A heartbeat that finds everything in step makes no calls, whatever the oracle has in store. */
  lemma {:induction false} InStepDoesNothing(o: Oracle, w: World, jobs: seq<Job>, again: seq<Job>, orphans: seq<string>)
    requires Steady(w, jobs, again, orphans) && OutOfStep(jobs, w.reg) == {}
    ensures Heartbeat(o, w, jobs, again, orphans) == w
  {
    assert MissingIds(jobs, w.reg) == {} && OrphanIds(jobs, w.reg) == {};
    NonEmptyHas(orphans);
    NobodyAsked(o, w, again);
  }

  lemma NonEmptyHas(xs: seq<string>)
    ensures xs != [] ==> exists x :: x in xs
  {
    if xs != [] {
      assert xs[0] in xs;
    }
  }

  lemma {:induction false} NobodyAsked(o: Oracle, w: World, jobs: seq<Job>)
    ensures RegisterJobs(o, w, jobs, {}) == w
  {
    if jobs != [] {
      NobodyAsked(o, w, jobs[..|jobs|-1]);
    }
  }

  // ---------------------------------------------------------------- entry by entry

  function Fallback(reg: Registry): Registry {
    map s | s in reg && reg[s] == "" :: reg[s]
  }

  /** The registry one would like to see: what the running hands ask for, and the engine's own hands. */
  function Desired(jobs: seq<Job>, reg: Registry): Registry {
    Fallback(reg) + Wanted(jobs, RunningIds(jobs))
  }

  /** Hands that are running and already listed are listed with exactly their entries, and no fallback
      hand shares its id with an orphan. */
  ghost predicate Complete(jobs: seq<Job>, reg: Registry) {
    var wanted := Wanted(jobs, RunningIds(jobs));
    && (forall s | s in wanted && s.hand in ListedIds(reg) :: s in reg && reg[s] == wanted[s])
    && (forall s | s in reg && s.hand in RunningIds(jobs) && s !in wanted :: reg[s] == "")
    && (forall s | s in reg && reg[s] == "" :: s.hand !in OrphanIds(jobs, reg))
  }

  lemma CompleteConverges(o: Oracle, w: World, jobs: seq<Job>, again: seq<Job>, orphans: seq<string>)
    requires AllDone(o) && Steady(w, jobs, again, orphans) && "" !in orphans && Complete(again, w.reg)
    ensures Heartbeat(o, w, jobs, again, orphans).reg == Desired(again, w.reg)
  {
    var v, desired := Heartbeat(o, w, jobs, again, orphans).reg, Desired(again, w.reg);
    forall s: Slot
      ensures s in v <==> s in desired
      ensures s in v && s in desired ==> v[s] == desired[s]
    {
      HeartbeatDone(o, w, jobs, again, orphans, s);
      WantedMore(again, RunningIds(again), RunningIds(again), s);
      assert s in w.reg ==> s.hand in ListedIds(w.reg);
    }
    assert v == desired;
  }

  lemma ConvergedIsComplete(o: Oracle, w: World, jobs: seq<Job>, again: seq<Job>, orphans: seq<string>)
    requires AllDone(o) && Steady(w, jobs, again, orphans) && "" !in orphans
    requires Heartbeat(o, w, jobs, again, orphans).reg == Desired(again, w.reg)
    ensures Complete(again, w.reg)
  {
    var wanted := Wanted(again, RunningIds(again));
    forall s: Slot
      ensures s in wanted && s.hand in ListedIds(w.reg) ==> s in w.reg && w.reg[s] == wanted[s]
      ensures s in w.reg && s.hand in RunningIds(again) && s !in wanted ==> w.reg[s] == ""
      ensures s in w.reg && w.reg[s] == "" ==> s.hand !in OrphanIds(again, w.reg)
    {
      HeartbeatDone(o, w, jobs, again, orphans, s);
      WantedMore(again, RunningIds(again), RunningIds(again), s);
      assert s in w.reg ==> s.hand in ListedIds(w.reg);
    }
  }

  /** Heartbeats compare hands, not entries: the registry ends up as desired exactly when no listed hand
      was registered incompletely before. The two walks may come in different orders. */
  lemma ConvergesExactly(o: Oracle, w: World, jobs: seq<Job>, again: seq<Job>, orphans: seq<string>)
    requires AllDone(o) && Steady(w, jobs, again, orphans) && "" !in orphans
    ensures Heartbeat(o, w, jobs, again, orphans).reg == Desired(again, w.reg) <==> Complete(again, w.reg)
  {
    if Complete(again, w.reg) {
      CompleteConverges(o, w, jobs, again, orphans);
    }
    if Heartbeat(o, w, jobs, again, orphans).reg == Desired(again, w.reg) {
      ConvergedIsComplete(o, w, jobs, again, orphans);
    }
  }

  /** A hand listed under any symbol is left as it is, complete or not, by every heartbeat. */
  lemma PartialIsNotHealed(o: Oracle, w: World, jobs: seq<Job>, again: seq<Job>, orphans: seq<string>, s: Slot)
    requires Steady(w, jobs, again, orphans) && "" !in orphans
    requires s.hand in RunningIds(jobs) && s.hand in ListedIds(w.reg)
    ensures var v := Heartbeat(o, w, jobs, again, orphans).reg;
            (s in v <==> s in w.reg) && (s in w.reg ==> v[s] == w.reg[s])
  {
    var ids := MissingIds(jobs, w.reg);
    RegisterJobsGrows(o, w, again, ids);
    RemoveAllShrinks(o, RegisterJobs(o, w, again, ids), orphans);
  }

  /** Registering everything, as after an engine restart, does heal it. */
  lemma {:induction false} RestartRegistersEverything(o: Oracle, w: World, jobs: seq<Job>)
    requires AllDone(o)
    ensures RegisterJobs(o, w, jobs, RunningIds(jobs)).reg == w.reg + Wanted(jobs, RunningIds(jobs))
    ensures Complete(jobs, RegisterJobs(o, World(Fallback(w.reg), w.log), jobs, RunningIds(jobs)).reg)
  {
    JobsDone(o, w, jobs, RunningIds(jobs));
    JobsDone(o, World(Fallback(w.reg), w.log), jobs, RunningIds(jobs));
    forall s: Slot
      ensures s in Wanted(jobs, RunningIds(jobs)) ==> s.hand in RunningIds(jobs)
    {
      WantedMore(jobs, RunningIds(jobs), RunningIds(jobs), s);
    }
  }

  lemma {:induction false} EmptyRemovesAll(o: Oracle, w: World, ids: seq<string>)
    requires AllDone(o) && "" in ids
    ensures RemoveAll(o, w, ids).reg == map[]
    decreases |ids|
  {
    var front, id := ids[..|ids|-1], ids[|ids|-1];
    assert ids == front + [id];
    assert o(|RemoveAll(o, w, front).log|).Done?;
    if id != "" {
      EmptyRemovesAll(o, w, front);
    }
  }

  /** An orphan without an id takes the whole registry with it. */
  lemma EmptyOrphanWipes(o: Oracle, w: World, jobs: seq<Job>, again: seq<Job>, orphans: seq<string>)
    requires AllDone(o) && "" in orphans
    ensures Heartbeat(o, w, jobs, again, orphans).reg == map[]
  {
    EmptyRemovesAll(o, RegisterJobs(o, w, again, MissingIds(jobs, w.reg)), orphans);
  }

  /** A lost registration can leave a hand listed under its first symbol only. */
  lemma PartialRegistration()
    ensures var job := Job("h", "a", ["x", "y"]);
            var w := RegisterHand(k => if k == 0 then Done else Unreachable(false), World(map[], []), job);
            w.reg == map[Slot("x", "a") := "h"] && OutOfStep([job], w.reg) == {} && !Complete([job], w.reg)
  {
    var job := Job("h", "a", ["x", "y"]);
    var o: Oracle := k => if k == 0 then Done else Unreachable(false);
    var w0 := World(map[], []);
    var w1 := RegisterOne(o, w0, job, "x");
    var w2 := RegisterOne(o, w1, job, "y");
    assert RegisterHand(o, w0, job) == RegisterSymbols(o, w1, job, 1) == w2;
    assert w2.reg == map[Slot("x", "a") := "h"];
    assert RunningIds([job]) == {"a"};
    assert Slot("x", "a").hand in ListedIds(w2.reg);
    assert Wanted([job], {"a"}) == Wanted([], {"a"}) + SlotsOf(job);
    assert Slot("y", "a") in Wanted([job], RunningIds([job]));
  }
}
