/** What holds over whole histories of the run protocol. */
module RunSafety {
  import opened Text
  import opened Timestamps
  import opened RunTable
  import opened RunProtocol

  // ----- Mutual exclusion inside provider.Sync, and exactly when -----

  /** Replicas over the real store, whose timestamps are RFC 3339 text. */
  function StoreOf(replicas: seq<Replica>): Deployment {
    Deployment(replicas, Format)
  }

  /** Both settings are positive time.Durations, as withDefaults leaves them. */
  predicate Configured(replicas: seq<Replica>) {
    forall i :: 0 <= i < |replicas| ==>
      0 < replicas[i].timeout <= MAX_INT && 0 < replicas[i].lease <= MAX_INT
  }

  ghost predicate NoOverlap(s: State) {
    forall a, b | a in s.workers && b in s.workers && a in s.runs && b in s.runs ::
      s.workers[a].phase.Syncing? && s.workers[b].phase.Syncing? && s.runs[a].flight == s.runs[b].flight ==> a == b
  }

  /** In every history, at most one worker per flight is inside provider.Sync. */
  ghost predicate Exclusive(cfg: Deployment) {
    forall s, events, t :: Init(s) && Path(cfg, s, events, t) ==> NoOverlap(t)
  }

  /** In every history, a sweep leaves the row of every live worker alone. */
  ghost predicate SweepsOnlyTheDead(cfg: Deployment) {
    forall s, events, t, e :: Init(s) && Path(cfg, s, events, t) && Enabled(cfg, t, e) && e.SweepStale? ==>
      SparesWorkers(t, Next(cfg, t, e))
  }

  ghost predicate SparesWorkers(t: State, u: State) {
    forall id :: id in t.workers ==> id in t.runs && id in u.runs && u.runs[id] == t.runs[id]
  }

  lemma CoveredIsExclusive(cfg: Deployment, s: State, events: seq<Event>, t: State)
    requires SortsSeconds(cfg.stamp) && LeaseCovers(cfg, 0)
    requires Init(s) && Path(cfg, s, events, t)
    ensures NoOverlap(t)
  {
    PathKeepsHeld(cfg, s, events, t, false);
    forall a, b | a in t.workers && b in t.workers && a in t.runs && b in t.runs
      && t.workers[a].phase.Syncing? && t.workers[b].phase.Syncing? && t.runs[a].flight == t.runs[b].flight
      ensures a == b
    {
      assert InFlight(t.runs[a], t.runs[b].flight);
    }
  }

  lemma CoveredSparesWorkers(cfg: Deployment, s: State, events: seq<Event>, t: State, e: Event)
    requires SortsSeconds(cfg.stamp) && LeaseCovers(cfg, GRACE)
    requires Init(s) && Path(cfg, s, events, t) && Enabled(cfg, t, e) && e.SweepStale?
    ensures SparesWorkers(t, Next(cfg, t, e))
  {
    PathKeepsHeld(cfg, s, events, t, true);
    forall id | id in t.workers
      ensures id in t.runs && id in Next(cfg, t, e).runs && Next(cfg, t, e).runs[id] == t.runs[id]
    {
      assert WorkerOk(cfg, t, id);
      if Holds(t.workers[id].phase, true) { HeldRowIsFresh(cfg, t, e, id, true); }
    }
  }

  lemma Enqueue(cfg: Deployment, s: State, j: nat, r: nat, id: string, flight: Flight, key: string)
    returns (events: seq<Event>, t: State)
    requires j < |cfg.replicas| && flight.site == cfg.replicas[j].site
    requires r !in s.requests && id !in s.runs && !Conflicts(s.runs, flight, key)
    ensures Path(cfg, s, events, t)
    ensures t.clock == s.clock && t.requests.Keys == s.requests.Keys + {r}
    ensures t.runs == s.runs[id := NewRun(flight, key, "", cfg.stamp(s.clock))]
    ensures t.workers == s.workers[id := Worker(j, Spawned)]
  {
    var e := Ask(r, j, flight, key, "");
    var f := TryInsert(r, id, s.clock);
    var u := Next(cfg, s, e);
    OneStep(cfg, s, e);
    t := Next(cfg, u, f);
    OneStep(cfg, u, f);
    events := [e] + [f];
    PathConcat(cfg, s, [e], u, [f], t);
  }

  lemma FreshRunMarks(t: Table, id: string, flight: Flight, key: string, now: string)
    requires id !in t && !Conflicts(t, flight, key)
    ensures var u, run := t[id := NewRun(flight, key, "", now)], NewRun(flight, key, "", now);
            !MarkViolates(u, id) && MarkRunning(u, id, now) == t[id := run.(status := Running)]
  {
    var u := t[id := NewRun(flight, key, "", now)];
    assert forall other :: other in u && other != id ==> u[other] == t[other];
  }

  /** A request by replica j that inserts a run and whose worker enters
      provider.Sync, all at one instant. */
  lemma Launch(cfg: Deployment, s: State, j: nat, r: nat, id: string, flight: Flight, key: string)
    returns (events: seq<Event>, t: State)
    requires j < |cfg.replicas| && flight.site == cfg.replicas[j].site
    requires r !in s.requests && id !in s.runs && !Conflicts(s.runs, flight, key)
    ensures Path(cfg, s, events, t)
    ensures t.clock == s.clock && t.requests.Keys == s.requests.Keys + {r}
    ensures t.runs == s.runs[id := NewRun(flight, key, "", cfg.stamp(s.clock)).(status := Running)]
    ensures t.workers == s.workers[id := Worker(j, Syncing(s.clock + cfg.replicas[j].timeout, s.clock))]
  {
    var es, u := Enqueue(cfg, s, j, r, id, flight, key);
    FreshRunMarks(s.runs, id, flight, key, cfg.stamp(s.clock));
    var fs;
    fs, t := Execute(cfg, u, id);
    PathConcat(cfg, s, es, u, fs, t);
    events := es + fs;
  }

  lemma Execute(cfg: Deployment, s: State, id: string) returns (events: seq<Event>, t: State)
    requires id in s.workers && s.workers[id].replica < |cfg.replicas| && id in s.runs
    requires s.workers[id].phase.Spawned? && !MarkViolates(s.runs, id)
    ensures Path(cfg, s, events, t)
    ensures var w := s.workers[id];
            t == s.(runs := MarkRunning(s.runs, id, cfg.stamp(s.clock)),
                    workers := s.workers[id := w.(phase := Syncing(s.clock + cfg.replicas[w.replica].timeout, s.clock))])
  {
    var e, f, g := Begin(id), Mark(id, s.clock), CallProvider(id);
    var s1 := Next(cfg, s, e);
    OneStep(cfg, s, e);
    var s2 := Next(cfg, s1, f);
    OneStep(cfg, s1, f);
    t := Next(cfg, s2, g);
    OneStep(cfg, s2, g);
    PathConcat(cfg, s1, [f], s2, [g], t);
    PathConcat(cfg, s, [e], s1, [f] + [g], t);
    events := [e] + ([f] + [g]);
  }

  /** One nanosecond before a second ends, past any lease and clear of year 10000. */
  predicate IsEve(t: nat) {
    t % SECOND == SECOND - 1 && MAX_INT <= t && Storable(t + MAX_INT + GRACE)
  }

  /** Time passes to `to`, then replica i sweeps. */
  lemma SweepAt(cfg: Deployment, s: State, i: nat, to: nat) returns (events: seq<Event>, t: State)
    requires i < |cfg.replicas| && cfg.replicas[i].lease <= to && s.clock < to && Storable(to)
    requires Enabled(cfg, s, Tick(to))
    ensures Path(cfg, s, events, t)
    ensures t == s.(clock := to, runs := Sweep(s.runs, cfg.stamp(to - cfg.replicas[i].lease)))
  {
    var e, f := Tick(to), SweepStale(i, to);
    var u := Next(cfg, s, e);
    OneStep(cfg, s, e);
    t := Next(cfg, u, f);
    OneStep(cfg, u, f);
    PathConcat(cfg, s, [e], u, [f], t);
    events := [e] + [f];
  }

  /** A worker of replica j that syncs up to its deadline, when replica i sweeps. */
  lemma SweptWhileSyncing(cfg: Deployment, i: nat, j: nat, eve: nat, a: string, flight: Flight, key: string)
    returns (s: State, events: seq<Event>, t: State)
    requires Configured(cfg.replicas) && i < |cfg.replicas| && j < |cfg.replicas|
    requires SortsSeconds(cfg.stamp) && IsEve(eve) && flight.site == cfg.replicas[j].site
    requires cfg.replicas[i].lease < cfg.replicas[j].timeout
    ensures Init(s) && Path(cfg, s, events, t)
    ensures t.runs == map[a := Expire(NewRun(flight, key, "", cfg.stamp(eve)))]
    ensures a in t.workers && t.workers[a].phase.Syncing? && t.requests.Keys == {0}
  {
    s := State(eve, map[], map[], map[]);
    var es, u := Launch(cfg, s, j, 0, a, flight, key);
    var to := eve + cfg.replicas[j].timeout;
    var fs;
    fs, t := SweepAt(cfg, u, i, to);
    assert Less(cfg.stamp(eve), cfg.stamp(to - cfg.replicas[i].lease));
    PathConcat(cfg, s, es, u, fs, t);
    events := es + fs;
  }

  /** When a lease of replica i is shorter than the timeout of replica j, a
      sweep by i frees the flight while j's worker is still syncing. */
  lemma Overlap(cfg: Deployment, i: nat, j: nat, eve: nat) returns (s: State, events: seq<Event>, t: State)
    requires Configured(cfg.replicas) && i < |cfg.replicas| && j < |cfg.replicas|
    requires SortsSeconds(cfg.stamp) && IsEve(eve)
    requires cfg.replicas[i].lease < cfg.replicas[j].timeout
    ensures Init(s) && Path(cfg, s, events, t) && !NoOverlap(t)
  {
    var flight := Flight(cfg.replicas[j].site, "provider", "capability");
    var a, b: string := "a", "b";
    var es, u, fs;
    s, es, u := SweptWhileSyncing(cfg, i, j, eve, a, flight, a);
    fs, t := Launch(cfg, u, j, 1, b, flight, b);
    PathConcat(cfg, s, es, u, fs, t);
    events := es + fs;
    assert a != b && a in t.workers && b in t.workers && t.runs[a].flight == t.runs[b].flight;
  }

  /** When a lease is shorter than a timeout plus finish()'s grace, a sweep can
      fail the row of a worker that is still finishing. */
  lemma SweptWhileFinishing(cfg: Deployment, i: nat, j: nat, eve: nat)
    returns (s: State, events: seq<Event>, t: State, e: Event)
    requires Configured(cfg.replicas) && i < |cfg.replicas| && j < |cfg.replicas|
    requires SortsSeconds(cfg.stamp) && IsEve(eve)
    requires cfg.replicas[i].lease < cfg.replicas[j].timeout + GRACE
    ensures Init(s) && Path(cfg, s, events, t) && Enabled(cfg, t, e) && e.SweepStale?
    ensures !SparesWorkers(t, Next(cfg, t, e))
  {
    var a, flight := "a", Flight(cfg.replicas[j].site, "provider", "capability");
    s := State(eve, map[], map[], map[]);
    var es, u := Launch(cfg, s, j, 0, a, flight, a);
    var fs;
    fs, t := FinishLate(cfg, u, a);
    PathConcat(cfg, s, es, u, fs, t);
    events := es + fs;
    e := SweepStale(i, t.clock);
    assert Less(cfg.stamp(eve), cfg.stamp(t.clock - cfg.replicas[i].lease));
    assert Stale(t.runs[a], cfg.stamp(t.clock - cfg.replicas[i].lease));
  }

  lemma FinishLate(cfg: Deployment, s: State, id: string) returns (events: seq<Event>, t: State)
    requires s.workers.Keys == {id} && s.workers[id].phase.Syncing? && s.clock < s.workers[id].phase.deadline
    requires Storable(s.workers[id].phase.deadline + GRACE)
    ensures Path(cfg, s, events, t)
    ensures t.clock == s.workers[id].phase.deadline + GRACE && t.runs == s.runs && t.workers.Keys == {id}
  {
    var e, f := Tick(s.workers[id].phase.deadline), Conclude(id);
    var s1 := Next(cfg, s, e);
    OneStep(cfg, s, e);
    var s2 := Next(cfg, s1, f);
    OneStep(cfg, s1, f);
    var g := Tick(s1.clock + GRACE);
    t := Next(cfg, s2, g);
    OneStep(cfg, s2, g);
    PathConcat(cfg, s1, [f], s2, [g], t);
    PathConcat(cfg, s, [e], s1, [f] + [g], t);
    events := [e] + ([f] + [g]);
  }

  /** An instant 200000 days in, in the sixth century. */
  const EVE: nat := 200000 * 86400 * 1_000_000_000 + 999_999_999

  /** Exclusion inside provider.Sync holds in every history exactly when every
      lease is at least every timeout. */
  lemma OneWorkerPerFlight(replicas: seq<Replica>)
    requires Configured(replicas)
    ensures Exclusive(StoreOf(replicas)) <==>
            forall i, j :: 0 <= i < |replicas| && 0 <= j < |replicas| ==> replicas[j].timeout <= replicas[i].lease
  {
    var cfg := StoreOf(replicas);
    FormatSortsSeconds();
    if LeaseCovers(cfg, 0) {
      forall s, events, t | Init(s) && Path(cfg, s, events, t) ensures NoOverlap(t) {
        CoveredIsExclusive(cfg, s, events, t);
      }
    } else {
      var i, j :| 0 <= i < |replicas| && 0 <= j < |replicas| && replicas[i].lease < replicas[j].timeout;
      var s, events, t := Overlap(cfg, i, j, EVE);
    }
  }

  /** Sweeps only reach rows whose worker has ended exactly when every lease is
      at least every timeout plus the thirty seconds of finish(). */
  lemma SweepReachesOnlyDeadWorkers(replicas: seq<Replica>)
    requires Configured(replicas)
    ensures SweepsOnlyTheDead(StoreOf(replicas)) <==>
            forall i, j :: 0 <= i < |replicas| && 0 <= j < |replicas| ==>
              replicas[j].timeout + 30_000_000_000 <= replicas[i].lease
  {
    var cfg := StoreOf(replicas);
    FormatSortsSeconds();
    if LeaseCovers(cfg, GRACE) {
      forall s, events, t, e | Init(s) && Path(cfg, s, events, t) && Enabled(cfg, t, e) && e.SweepStale?
        ensures SparesWorkers(t, Next(cfg, t, e))
      {
        CoveredSparesWorkers(cfg, s, events, t, e);
      }
    } else {
      var i, j :| 0 <= i < |replicas| && 0 <= j < |replicas| && replicas[i].lease < replicas[j].timeout + GRACE;
      var s, events, t, e := SweptWhileFinishing(cfg, i, j, EVE);
    }
  }
}
