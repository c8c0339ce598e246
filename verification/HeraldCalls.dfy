/** The calls a heartbeat makes to the signal engine, one by one. */
module HeraldCalls {
  import opened HeraldSync

  /** The calls that register a hand under its first n symbols from symbol k on, with the outcomes the oracle gives. */
  function Registrations(o: Oracle, at: nat, job: Job, k: nat, n: nat): seq<Call>
    requires k + n <= |job.symbols|
  {
    if n == 0 then []
    else Registrations(o, at, job, k, n - 1) + [Register(job.id, job.symbols[k + n - 1], o(at + n - 1))]
  }

  lemma {:induction false} RegistrationsCons(o: Oracle, at: nat, job: Job, k: nat, n: nat)
    requires k + n <= |job.symbols| && n > 0
    ensures Registrations(o, at, job, k, n)
         == [Register(job.id, job.symbols[k], o(at))] + Registrations(o, at + 1, job, k + 1, n - 1)
  {
    if n > 1 {
      RegistrationsCons(o, at, job, k, n - 1);
    }
  }

  /** The calls went on exactly up to the first that did not report success, or through all of `total`. */
  predicate StoppedAt(o: Oracle, at: nat, total: nat, n: nat) {
    && n <= total
    && (forall j :: at <= j < at + n - 1 ==> o(j).Done?)
    && (n < total ==> n > 0 && !o(at + n - 1).Done?)
  }

  lemma StopsLater(o: Oracle, at: nat, total: nat, n: nat)
    requires o(at).Done? && total > 0 && StoppedAt(o, at + 1, total - 1, n)
    ensures StoppedAt(o, at, total, n + 1)
  {
  }

  lemma CalledOnce(o: Oracle, w: World, job: Job, k: nat)
    requires k < |job.symbols|
    ensures RegisterOne(o, w, job, job.symbols[k]).log == w.log + [Register(job.id, job.symbols[k], o(|w.log|))]
    ensures Registrations(o, |w.log|, job, k, 1) == [Register(job.id, job.symbols[k], o(|w.log|))]
  {
  }

  lemma CalledOnMore(o: Oracle, w: World, job: Job, k: nat, n: nat, rest: seq<Call>)
    requires k + n < |job.symbols| && rest == Registrations(o, |w.log| + 1, job, k + 1, n)
    ensures w.log + [Register(job.id, job.symbols[k], o(|w.log|))] + rest == w.log + Registrations(o, |w.log|, job, k, n + 1)
  {
    RegistrationsCons(o, |w.log|, job, k, n + 1);
  }

  lemma {:induction false} SymbolsCalled(o: Oracle, w: World, job: Job, k: nat) returns (n: nat)
    requires k <= |job.symbols|
    ensures StoppedAt(o, |w.log|, |job.symbols| - k, n)
    ensures RegisterSymbols(o, w, job, k).log == w.log + Registrations(o, |w.log|, job, k, n)
    decreases |job.symbols| - k
  {
    n := 0;
    if k < |job.symbols| {
      var at, next := |w.log|, RegisterOne(o, w, job, job.symbols[k]);
      CalledOnce(o, w, job, k);
      if o(at).Done? {
        n := SymbolsCalled(o, next, job, k + 1);
        StopsLater(o, at, |job.symbols| - k, n);
        CalledOnMore(o, w, job, k, n, Registrations(o, at + 1, job, k + 1, n));
      }
      n := if o(at).Done? then n + 1 else 1;
    }
  }

  /** Registering a hand calls the engine for its symbols in order, and makes no call after the first that does not
      report success. */
  lemma {:induction false} HandCalls(o: Oracle, w: World, job: Job) returns (n: nat)
    ensures StoppedAt(o, |w.log|, |job.symbols|, n)
    ensures RegisterHand(o, w, job).log == w.log + Registrations(o, |w.log|, job, 0, n)
  {
    n := SymbolsCalled(o, w, job, 0);
  }

  /** The calls of a heartbeat that has no failures: every symbol of every missing hand, walk by walk. */
  function AllRegistrations(jobs: seq<Job>, ids: set<string>): seq<Call> {
    if jobs == [] then []
    else
      var job := jobs[|jobs|-1];
      AllRegistrations(jobs[..|jobs|-1], ids) + if job.id in ids then Registrations(k => Done, 0, job, 0, |job.symbols|) else []
  }

  function Removals(hands: seq<string>): seq<Call> {
    if hands == [] then [] else Removals(hands[..|hands|-1]) + [Deregister(hands[|hands|-1], Done)]
  }

  lemma {:induction false} SameOutcomes(o: Oracle, at: nat, job: Job, n: nat)
    requires AllDone(o) && n <= |job.symbols|
    ensures Registrations(o, at, job, 0, n) == Registrations(k => Done, 0, job, 0, n)
  {
    if n > 0 {
      SameOutcomes(o, at, job, n - 1);
      assert o(at + n - 1).Done?;
    }
  }

  lemma {:induction false} JobsCalled(o: Oracle, w: World, jobs: seq<Job>, ids: set<string>)
    requires AllDone(o)
    ensures RegisterJobs(o, w, jobs, ids).log == w.log + AllRegistrations(jobs, ids)
  {
    if jobs != [] {
      var front, job := jobs[..|jobs|-1], jobs[|jobs|-1];
      JobsCalled(o, w, front, ids);
      if job.id in ids {
        var before := RegisterJobs(o, w, front, ids);
        var n := HandCalls(o, before, job);
        assert n == |job.symbols| by {
          assert n > 0 ==> o(|before.log| + n - 1).Done?;
        }
        SameOutcomes(o, |before.log|, job, n);
      }
    }
  }

  lemma {:induction false} RemovalsCalled(o: Oracle, w: World, hands: seq<string>)
    requires AllDone(o)
    ensures RemoveAll(o, w, hands).log == w.log + Removals(hands)
  {
    if hands != [] {
      var front := hands[..|hands|-1];
      RemovalsCalled(o, w, front);
      assert o(|RemoveAll(o, w, front).log|).Done?;
    }
  }

  /** Without failures a heartbeat makes exactly these calls: one for each symbol of each missing hand, in the order of
      the second walk, and then one for each orphan listed. */
  lemma {:induction false} HeartbeatCalls(o: Oracle, w: World, jobs: seq<Job>, again: seq<Job>, orphans: seq<string>)
    requires AllDone(o)
    ensures Heartbeat(o, w, jobs, again, orphans).log
         == w.log + AllRegistrations(again, RunningIds(jobs) - ListedIds(w.reg)) + Removals(orphans)
  {
    var v := RegisterJobs(o, w, again, MissingIds(jobs, w.reg));
    JobsCalled(o, w, again, MissingIds(jobs, w.reg));
    RemovalsCalled(o, v, orphans);
  }

  // ---------------------------------------------------------------- whatever fails

  /** One of the calls after the first `from` registers the hand under its first symbol. */
  ghost predicate Tried(log: seq<Call>, from: nat, job: Job) {
    job.symbols != [] ==>
      exists i :: from <= i < |log| && log[i].Register? && log[i].hand == job.id && log[i].symbol == job.symbols[0]
  }

  lemma TriedStays(log: seq<Call>, longer: seq<Call>, from: nat, job: Job)
    requires Tried(log, from, job) && log <= longer
    ensures Tried(longer, from, job)
  {
    if job.symbols != [] {
      var i :| from <= i < |log| && log[i].Register? && log[i].hand == job.id && log[i].symbol == job.symbols[0];
      assert longer[i] == log[i];
    }
  }

  lemma HandIsTried(o: Oracle, w: World, job: Job)
    ensures w.log <= RegisterHand(o, w, job).log && Tried(RegisterHand(o, w, job).log, |w.log|, job)
  {
    var n := HandCalls(o, w, job);
    if job.symbols != [] {
      RegistrationsCons(o, |w.log|, job, 0, n);
      assert RegisterHand(o, w, job).log[|w.log|] == Register(job.id, job.symbols[0], o(|w.log|));
    }
  }

  /** A hand that fails does not keep the others from being tried. */
  lemma {:induction false} EveryHandIsTried(o: Oracle, w: World, jobs: seq<Job>, ids: set<string>, job: Job)
    requires job in jobs && job.id in ids
    ensures Tried(RegisterJobs(o, w, jobs, ids).log, |w.log|, job)
  {
    var front, last := jobs[..|jobs|-1], jobs[|jobs|-1];
    var before := RegisterJobs(o, w, front, ids);
    assert jobs == front + [last];
    RegisterJobsGrows(o, w, front, ids);
    if last.id in ids {
      HandIsTried(o, before, last);
    }
    if job in front {
      EveryHandIsTried(o, w, front, ids, job);
      TriedStays(before.log, RegisterJobs(o, w, jobs, ids).log, |w.log|, job);
    }
  }

  /** The calls are the removals of the given hands, one each and in order. */
  ghost predicate AreRemovals(calls: seq<Call>, hands: seq<string>) {
    |calls| == |hands| && forall i :: 0 <= i < |hands| ==> calls[i].Deregister? && calls[i].hand == hands[i]
  }

  /** Nor an orphan: each is tried once, in order. */
  lemma {:induction false} EveryOrphanIsTried(o: Oracle, w: World, hands: seq<string>)
    ensures w.log <= RemoveAll(o, w, hands).log && AreRemovals(RemoveAll(o, w, hands).log[|w.log|..], hands)
  {
    if hands != [] {
      var front := hands[..|hands|-1];
      EveryOrphanIsTried(o, w, front);
      var log, n := RemoveAll(o, w, front).log, |w.log|;
      var call := Deregister(hands[|hands|-1], o(|log|));
      assert (log + [call])[n..] == log[n..] + [call];
    }
  }

  /** Whatever fails, a heartbeat tries every missing hand that runs and then every orphan listed. */
  lemma {:induction false} NothingIsSkipped(o: Oracle, w: World, jobs: seq<Job>, again: seq<Job>, orphans: seq<string>, job: Job)
    requires job in again && job.id in RunningIds(jobs) && job.id !in ListedIds(w.reg)
    ensures var log := Heartbeat(o, w, jobs, again, orphans).log;
            exists n: nat :: n <= |log| && Tried(log[..n], |w.log|, job) && AreRemovals(log[n..], orphans)
  {
    var u := RegisterJobs(o, w, again, MissingIds(jobs, w.reg));
    EveryHandIsTried(o, w, again, MissingIds(jobs, w.reg), job);
    EveryOrphanIsTried(o, u, orphans);
    var log := Heartbeat(o, w, jobs, again, orphans).log;
    assert log[..|u.log|] == u.log;
  }
}
