/** The loops that carry out heartbeats and re-registrations, proved against `HeraldSync`. */
module HeraldLink {
  import opened Options
  import opened HeraldSync

  /** All running hands, runtime by runtime. */
  function Jobs(fleet: seq<Runtime>): seq<Job> {
    if fleet == [] then [] else Jobs(fleet[..|fleet|-1]) + fleet[|fleet|-1].running
  }

  /** One line of the engine's answer to a listing request. */
  datatype Entry = Entry(hand: string, helm: string)

  /** A listing names every entry of the registry and nothing else, in any order. */
  ghost predicate Lists(listing: seq<Entry>, reg: Registry) {
    && (forall s | s in reg :: Entry(s.hand, reg[s]) in listing)
    && (forall e | e in listing :: exists s :: s in reg && s.hand == e.hand && reg[s] == e.helm)
  }

  function OrphanList(listing: seq<Entry>, running: set<string>): seq<string> {
    if listing == [] then []
    else
      var e := listing[|listing|-1];
      OrphanList(listing[..|listing|-1], running) + if e.helm != "" && e.hand !in running then [e.hand] else []
  }

  lemma {:induction false} OrphanListElements(listing: seq<Entry>, running: set<string>, x: string)
    ensures x in OrphanList(listing, running) <==> exists e :: e in listing && e.helm != "" && e.hand !in running && e.hand == x
  {
    if listing != [] {
      var front, last := listing[..|listing|-1], listing[|listing|-1];
      assert listing == front + [last];
      OrphanListElements(front, running, x);
    }
  }

  /** The orphans read off a listing are those of the registry, and so is what is missing. */
  lemma ListingShowsOrphans(listing: seq<Entry>, reg: Registry, jobs: seq<Job>)
    requires Lists(listing, reg)
    ensures SameElements(OrphanList(listing, RunningIds(jobs)), OrphanIds(jobs, reg))
    ensures (set e | e in listing :: e.hand) == ListedIds(reg)
  {
    var running := RunningIds(jobs);
    forall x: string
      ensures x in OrphanList(listing, running) <==> x in OrphanIds(jobs, reg)
    {
      OrphanListElements(listing, running, x);
      if x in OrphanIds(jobs, reg) {
        var s :| s in reg && reg[s] != "" && s.hand !in running && s.hand == x;
        assert Entry(s.hand, reg[s]) in listing;
      }
    }
    forall x: string
      ensures x in (set e | e in listing :: e.hand) <==> x in ListedIds(reg)
    {
      if x in ListedIds(reg) {
        var s :| s in reg && s.hand == x;
        assert Entry(s.hand, reg[s]) in listing;
      }
    }
  }

  lemma JobsUpTo(fleet: seq<Runtime>, i: nat)
    requires i < |fleet|
    ensures Jobs(fleet[..i+1]) == Jobs(fleet[..i]) + fleet[i].running
  {
    assert fleet[..i+1][..i] == fleet[..i];
  }

  lemma RegisterNext(o: Oracle, w: World, done: seq<Job>, running: seq<Job>, j: nat, ids: set<string>)
    requires j < |running|
    ensures RegisterJobs(o, w, done + running[..j+1], ids)
         == var before := RegisterJobs(o, w, done + running[..j], ids);
            if running[j].id in ids then RegisterHand(o, before, running[j]) else before
  {
    var all := done + running[..j+1];
    assert all[..|all|-1] == done + running[..j] && all[|all|-1] == running[j];
  }

  class Link {
    var reg: Registry
    var log: seq<Call>
    var lastHeraldId: string
    const oracle: Oracle

    ghost function View(): World
      reads this
    {
      World(reg, log)
    }

    constructor (oracle: Oracle)
      ensures View() == World(map[], []) && lastHeraldId == "" && this.oracle == oracle
    {
      reg, log, lastHeraldId := map[], [], "";
      this.oracle := oracle;
    }

    method RegisterOneHand(job: Job)
      modifies this`reg, this`log
      ensures View() == RegisterHand(oracle, old(View()), job)
    {
      var k := 0;
      while k < |job.symbols|
        invariant k <= |job.symbols|
        invariant RegisterSymbols(oracle, View(), job, k) == RegisterHand(oracle, old(View()), job)
      {
        var out := oracle(|log|);
        if TookEffect(out) {
          reg := Add(reg, job, job.symbols[k]);
        }
        log := log + [Register(job.id, job.symbols[k], out)];
        if !out.Done? {
          return;
        }
        k := k + 1;
      }
    }

    method ReregisterByIds(fleet: seq<Runtime>, handIds: set<string>)
      modifies this`reg, this`log
      ensures View() == RegisterJobs(oracle, old(View()), Jobs(fleet), handIds)
    {
      for i := 0 to |fleet|
        invariant View() == RegisterJobs(oracle, old(View()), Jobs(fleet[..i]), handIds)
      {
        JobsUpTo(fleet, i);
        ReregisterRuntime(fleet[i].running, handIds, old(View()), Jobs(fleet[..i]));
      }
      assert fleet[..|fleet|] == fleet;
    }

    /** The hands of one runtime; `start` is where the walk began and `done` what it has covered. */
    method ReregisterRuntime(running: seq<Job>, handIds: set<string>, ghost start: World, ghost done: seq<Job>)
      requires View() == RegisterJobs(oracle, start, done, handIds)
      modifies this`reg, this`log
      ensures View() == RegisterJobs(oracle, start, done + running, handIds)
    {
      assert done + running[..0] == done;
      for j := 0 to |running|
        invariant View() == RegisterJobs(oracle, start, done + running[..j], handIds)
      {
        RegisterNext(oracle, start, done, running, j, handIds);
        if running[j].id in handIds {
          RegisterOneHand(running[j]);
        }
      }
      assert running[..|running|] == running;
    }

    method DeregisterByIds(handIds: seq<string>)
      modifies this`reg, this`log
      ensures View() == RemoveAll(oracle, old(View()), handIds)
    {
      for i := 0 to |handIds|
        invariant View() == RemoveAll(oracle, old(View()), handIds[..i])
      {
        var out := oracle(|log|);
        if TookEffect(out) {
          reg := Remove(reg, handIds[i]);
        }
        log := log + [Deregister(handIds[i], out)];
        assert handIds[..i+1][..i] == handIds[..i];
      }
      assert handIds[..|handIds|] == handIds;
    }

    /** `listing` is nothing when the engine could not be asked; `fleet` and `again` are the two walks. */
    method DoHeartbeat(fleet: seq<Runtime>, again: seq<Runtime>, listing: Option<seq<Entry>>)
      requires listing.Some? ==> Lists(listing.value, reg)
      modifies this`reg, this`log
      ensures listing.None? ==> View() == old(View())
      ensures listing.Some? ==>
                var orphans := OrphanList(listing.value, RunningIds(Jobs(fleet)));
                && SameElements(orphans, OrphanIds(Jobs(fleet), old(reg)))
                && View() == Heartbeat(oracle, old(View()), Jobs(fleet), Jobs(again), orphans)
    {
      if listing.None? {
        return;
      }
      var heraldHands := set e | e in listing.value :: e.hand;
      ListingShowsOrphans(listing.value, reg, Jobs(fleet));
      var expected, missing := Compare(fleet, heraldHands);
      var orphans: seq<string> := [];
      for i := 0 to |listing.value|
        invariant orphans == OrphanList(listing.value[..i], expected)
      {
        var e := listing.value[i];
        if e.helm != "" && e.hand !in expected {
          orphans := orphans + [e.hand];
        }
        assert listing.value[..i+1][..i] == listing.value[..i];
      }
      assert listing.value[..|listing.value|] == listing.value;
      ReregisterByIds(again, missing);
      DeregisterByIds(orphans);
    }

    /** An engine with a new id has lost its registry: register everything. */
    method OnReady(heraldId: string, fleet: seq<Runtime>)
      modifies this
      ensures lastHeraldId == heraldId
      ensures heraldId == old(lastHeraldId) ==> View() == old(View())
      ensures heraldId != old(lastHeraldId) ==>
                View() == RegisterJobs(oracle, old(View()), Jobs(fleet), RunningIds(Jobs(fleet)))
    {
      if heraldId == lastHeraldId {
        return;
      }
      lastHeraldId := heraldId;
      ReregisterByIds(fleet, RunningIds(Jobs(fleet)));
    }
  }

  /** Walk the running hands once: which are expected, and which of them the engine does not list. */
  method Compare(fleet: seq<Runtime>, heraldHands: set<string>) returns (expected: set<string>, missing: set<string>)
    ensures expected == RunningIds(Jobs(fleet)) && missing == expected - heraldHands
  {
    expected, missing := {}, {};
    for i := 0 to |fleet|
      invariant expected == RunningIds(Jobs(fleet[..i])) && missing == expected - heraldHands
    {
      var running := fleet[i].running;
      ghost var done := Jobs(fleet[..i]);
      assert done + running[..0] == done;
      for j := 0 to |running|
        invariant expected == RunningIds(done + running[..j]) && missing == expected - heraldHands
      {
        assert done + running[..j+1] == (done + running[..j]) + [running[j]];
        expected := expected + {running[j].id};
        if running[j].id !in heraldHands {
          missing := missing + {running[j].id};
        }
      }
      assert running[..|running|] == running;
      assert fleet[..i+1][..i] == fleet[..i];
    }
    assert fleet[..|fleet|] == fleet;
  }
}
