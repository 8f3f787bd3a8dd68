/** The lives of single runs, over every history. */
module RunHistory {
  import opened Timestamps
  import opened RunTable
  import opened RunProtocol
  import opened RunSafety

  // ----- The life of a run -----

  function Landings(events: seq<Event>, id: string): nat {
    if events == [] then 0
    else (if events[0].Land? && events[0].id == id then 1 else 0) + Landings(events[1..], id)
  }

  /** What is promised of a row between two moments of a history. */
  ghost predicate Lives(s: State, t: State, id: string, landings: nat)
    requires id in s.runs
  {
    && id in t.runs
    && t.runs[id].flight == s.runs[id].flight && t.runs[id].key == s.runs[id].key
    // QUEUED to RUNNING to a terminal status, never back.
    && (s.runs[id].status == Running ==> t.runs[id].status != Queued)
    && (s.runs[id].status in {Succeeded, Partial, Failed} ==> t.runs[id].status in {Succeeded, Partial, Failed})
    // FinishRun lands at most once, and only from the run's own worker.
    && landings <= (if id in s.workers then 1 else 0)
    && (id in t.workers ==> id in s.workers && landings == 0)
    // Without a live worker a finished row is final.
    && (id !in s.workers && !IsActive(s.runs[id].status) ==> t.runs[id] == s.runs[id])
    // A finished row that changes was failed by a lease, under a live worker;
    // unless that worker lands, only its checkpoint may still move.
    && (!IsActive(s.runs[id].status) && t.runs[id] != s.runs[id] ==>
          && LeaseExpired(s.runs[id])
          && (landings == 0 ==> t.runs[id] == s.runs[id].(cursor := t.runs[id].cursor)))
  }

  predicate WritesRows(e: Event) {
    e.Mark? || e.Checkpoint? || e.Land? || e.SweepStale?
  }

  lemma RowStepLives(cfg: Deployment, s: State, e: Event, id: string)
    requires Inv(cfg, s) && Enabled(cfg, s, e) && id in s.runs && WritesRows(e)
    ensures Lives(s, Next(cfg, s, e), id, if e.Land? && e.id == id then 1 else 0)
  {
    if id in s.workers { assert WorkerOk(cfg, s, id); }
  }

  lemma OtherStepLives(cfg: Deployment, s: State, e: Event, id: string)
    requires Inv(cfg, s) && Enabled(cfg, s, e) && id in s.runs && !WritesRows(e)
    ensures Lives(s, Next(cfg, s, e), id, 0)
  {
  }

  lemma StepLives(cfg: Deployment, s: State, e: Event, id: string)
    requires Inv(cfg, s) && Enabled(cfg, s, e) && id in s.runs
    ensures Lives(s, Next(cfg, s, e), id, Landings([e], id))
  {
    assert Landings([e][1..], id) == 0;
    if WritesRows(e) { RowStepLives(cfg, s, e, id); } else { OtherStepLives(cfg, s, e, id); }
  }

  lemma LivesTransitive(s: State, t: State, u: State, id: string, m: nat, n: nat)
    requires id in s.runs && Lives(s, t, id, m) && Lives(t, u, id, n)
    requires id !in t.workers || LeaseExpired(t.runs[id]) || IsActive(t.runs[id].status)
    ensures Lives(s, u, id, m + n)
  {
  }

  /** Status only moves forward; a finished run is rewritten at most once, by
      its own late worker after its lease expired. */
  lemma {:induction false} RunLife(cfg: Deployment, s: State, events: seq<Event>, t: State, id: string)
    requires Inv(cfg, s) && Path(cfg, s, events, t) && id in s.runs
    ensures Lives(s, t, id, Landings(events, id))
    decreases |events|
  {
    if events != [] {
      var u := Next(cfg, s, events[0]);
      StepLives(cfg, s, events[0], id);
      StepKeepsInv(cfg, s, events[0]);
      RunLife(cfg, u, events[1..], t, id);
      if id in u.workers { assert WorkerOk(cfg, u, id); }
      assert Landings([events[0]], id) + Landings(events[1..], id) == Landings(events, id);
      LivesTransitive(s, u, t, id, Landings([events[0]], id), Landings(events[1..], id));
    }
  }

  /** Under a lease that covers finish(), a finished run never changes again. */
  lemma FinishedIsFinal(cfg: Deployment, s0: State, before: seq<Event>, s: State, after: seq<Event>, t: State, id: string)
    requires SortsSeconds(cfg.stamp) && LeaseCovers(cfg, GRACE) && Init(s0)
    requires Path(cfg, s0, before, s) && Path(cfg, s, after, t)
    requires id in s.runs && !IsActive(s.runs[id].status)
    ensures id in t.runs && t.runs[id] == s.runs[id]
  {
    PathKeepsHeld(cfg, s0, before, s, true);
    assert id in s.workers ==> WorkerOk(cfg, s, id);
    RunLife(cfg, s, after, t, id);
  }

  /** In every history a finished run stays as it is. */
  ghost predicate FinishedRunsAreFinal(cfg: Deployment) {
    forall s0, before, s, after, t, id ::
      Init(s0) && Path(cfg, s0, before, s) && Path(cfg, s, after, t) && id in s.runs && !IsActive(s.runs[id].status) ==>
        id in t.runs && t.runs[id] == s.runs[id]
  }

  /** A worker past its mark can still land any outcome, whatever its row says. */
  lemma LandsLate(cfg: Deployment, s: State, id: string, outcome: Outcome) returns (events: seq<Event>, t: State)
    requires id in s.workers && HasMarked(s.workers[id].phase) && id in s.runs && !IsActive(outcome.status)
    ensures Path(cfg, s, events, t) && id in t.runs && t.runs[id].status == outcome.status
  {
    var u := s;
    events := [];
    if !s.workers[id].phase.Finishing? {
      u := Next(cfg, s, Conclude(id));
      OneStep(cfg, s, Conclude(id));
      events := [Conclude(id)];
    }
    var e := Land(id, outcome, u.clock);
    t := Next(cfg, u, e);
    OneStep(cfg, u, e);
    PathConcat(cfg, s, events, u, [e], t);
    events := events + [e];
  }

  lemma SweptWorkerHasMarked(cfg: Deployment, s: State, e: Event) returns (id: string)
    requires Inv(cfg, s) && Enabled(cfg, s, e) && e.SweepStale? && !SparesWorkers(s, Next(cfg, s, e))
    ensures id in s.workers && HasMarked(s.workers[id].phase)
    ensures id in Next(cfg, s, e).runs && Next(cfg, s, e).runs[id].status == Failed && Next(cfg, s, e).workers == s.workers
  {
    assert forall k :: k in s.workers ==> WorkerOk(cfg, s, k);
    id :| id in s.workers && !(id in s.runs && id in Next(cfg, s, e).runs && Next(cfg, s, e).runs[id] == s.runs[id]);
  }

  lemma NotFinal(cfg: Deployment, s0: State, before: seq<Event>, s: State, after: seq<Event>, t: State, id: string)
    requires Init(s0) && Path(cfg, s0, before, s) && Path(cfg, s, after, t)
    requires id in s.runs && !IsActive(s.runs[id].status) && id in t.runs && t.runs[id] != s.runs[id]
    ensures !FinishedRunsAreFinal(cfg)
  {
  }

  lemma OneStepMore(cfg: Deployment, s0: State, events: seq<Event>, t: State, e: Event)
    requires Path(cfg, s0, events, t) && Enabled(cfg, t, e)
    ensures Path(cfg, s0, events + [e], Next(cfg, t, e))
  {
    OneStep(cfg, t, e);
    PathConcat(cfg, s0, events, t, [e], Next(cfg, t, e));
  }

  /** A sweep that reaches a live worker's row makes a finished run that the worker
      then rewrites. */
  lemma SweptRunIsRewritten(cfg: Deployment, s0: State, events: seq<Event>, t: State, e: Event)
    requires Init(s0) && Path(cfg, s0, events, t) && Enabled(cfg, t, e) && e.SweepStale?
    requires !SparesWorkers(t, Next(cfg, t, e))
    ensures !FinishedRunsAreFinal(cfg)
  {
    PathKeepsInv(cfg, s0, events, t);
    var id := SweptWorkerHasMarked(cfg, t, e);
    OneStepMore(cfg, s0, events, t, e);
    var after, u := LandsLate(cfg, Next(cfg, t, e), id, Outcome(Succeeded, 0, "", NoError, ""));
    NotFinal(cfg, s0, events + [e], Next(cfg, t, e), after, u, id);
  }

  /** Finished runs are final in every history exactly when every lease covers
      every timeout plus the thirty seconds of finish(). */
  lemma FinalIffCovered(replicas: seq<Replica>)
    requires Configured(replicas)
    ensures FinishedRunsAreFinal(StoreOf(replicas)) <==>
            forall i, j :: 0 <= i < |replicas| && 0 <= j < |replicas| ==>
              replicas[j].timeout + 30_000_000_000 <= replicas[i].lease
  {
    var cfg := StoreOf(replicas);
    FormatSortsSeconds();
    if LeaseCovers(cfg, GRACE) {
      forall s0, before, s, after, t, id
        | Init(s0) && Path(cfg, s0, before, s) && Path(cfg, s, after, t) && id in s.runs && !IsActive(s.runs[id].status)
        ensures id in t.runs && t.runs[id] == s.runs[id]
      {
        FinishedIsFinal(cfg, s0, before, s, after, t, id);
      }
    } else {
      var i, j :| 0 <= i < |replicas| && 0 <= j < |replicas| && replicas[i].lease < replicas[j].timeout + GRACE;
      var s, events, t, e := SweptWhileFinishing(cfg, i, j, EVE);
      SweptRunIsRewritten(cfg, s, events, t, e);
    }
  }

  /** The unguarded UPDATE of MarkRunRunning never meets the single-flight
      index, and only ever promotes a QUEUED row. */
  lemma MarkingIsSafe(cfg: Deployment, s0: State, events: seq<Event>, s: State, id: string, readAt: nat)
    requires Init(s0) && Path(cfg, s0, events, s) && Enabled(cfg, s, Mark(id, readAt))
    ensures !MarkViolates(s.runs, id) && id in s.runs && s.runs[id].status == Queued
  {
    PathKeepsInv(cfg, s0, events, s);
    MarkNeverViolates(cfg, s, id, readAt);
    assert WorkerOk(cfg, s, id);
  }

  /** Two runs of a reachable table never share (site, key). */
  lemma OneRunPerKey(cfg: Deployment, s0: State, events: seq<Event>, s: State, a: string, b: string)
    requires Init(s0) && Path(cfg, s0, events, s)
    requires a in s.runs && b in s.runs && s.runs[a].flight.site == s.runs[b].flight.site && s.runs[a].key == s.runs[b].key
    ensures a == b
  {
    PathKeepsInv(cfg, s0, events, s);
    assert SameKey(s.runs[a], s.runs[b].flight, s.runs[b].key);
  }

  // ----- Recovery -----

  /** Once marked, a row keeps its start: its worker never marks it again, and
      nobody else does. */
  ghost predicate MarkedFor(s: State, id: string, start: string) {
    && id in s.runs && s.runs[id].startedAt == start
    && (id in s.workers ==> HasMarked(s.workers[id].phase))
  }

  lemma {:induction false} StartStays(cfg: Deployment, s: State, events: seq<Event>, t: State, id: string, start: string)
    requires Path(cfg, s, events, t) && MarkedFor(s, id, start)
    ensures MarkedFor(t, id, start) && t.runs[id].flight == s.runs[id].flight
    decreases |events|
  {
    if events != [] { StartStays(cfg, Next(cfg, s, events[0]), events[1..], t, id, start); }
  }

  lemma MarkedRow(cfg: Deployment, s: State, id: string, m: nat, events: seq<Event>, t: State)
    requires Inv(cfg, s) && Enabled(cfg, s, Mark(id, m)) && Path(cfg, Next(cfg, s, Mark(id, m)), events, t)
    ensures Inv(cfg, t) && m <= t.clock && MarkedFor(t, id, cfg.stamp(m))
  {
    var u := Next(cfg, s, Mark(id, m));
    StepKeepsInv(cfg, s, Mark(id, m));
    MarkNeverViolates(cfg, s, id, m);
    PathKeepsInv(cfg, u, events, t);
    ClockMovesForward(cfg, u, events, t);
    StartStays(cfg, u, events, t, id, cfg.stamp(m));
  }

  lemma {:induction false} ClockMovesForward(cfg: Deployment, s: State, events: seq<Event>, t: State)
    requires Path(cfg, s, events, t)
    ensures s.clock <= t.clock
    decreases |events|
  {
    if events != [] { ClockMovesForward(cfg, Next(cfg, s, events[0]), events[1..], t); }
  }

  /** A run that was marked at m and never finished, its worker having crashed:
      any sweep that reads a clock one second past m plus its lease fails the row,
      and the flight then admits every run with an unused key. */
  lemma CrashedRunIsRecovered(cfg: Deployment, s: State, id: string, m: nat, events: seq<Event>, t: State, e: Event)
    requires SortsSeconds(cfg.stamp) && Inv(cfg, s) && Enabled(cfg, s, Mark(id, m))
    requires Path(cfg, Next(cfg, s, Mark(id, m)), events, t) && id in t.runs && t.runs[id].status == Running
    requires Enabled(cfg, t, e) && e.SweepStale? && m + cfg.replicas[e.replica].lease + SECOND <= e.readAt
    ensures var u := Next(cfg, t, e);
            && id in u.runs && LeaseExpired(u.runs[id])
            && forall key :: (forall k :: k in u.runs ==> !SameKey(u.runs[k], u.runs[id].flight, key)) ==>
                 !Conflicts(u.runs, u.runs[id].flight, key)
  {
    MarkedRow(cfg, s, id, m, events, t);
    SweepFrees(t, id, m, e.readAt - cfg.replicas[e.replica].lease, cfg.stamp);
    FreeFlightAdmits(Next(cfg, t, e).runs, t.runs[id].flight);
  }

  lemma FreeFlightAdmits(runs: Table, flight: Flight)
    requires forall k :: k in runs ==> !InFlight(runs[k], flight)
    ensures forall key :: (forall k :: k in runs ==> !SameKey(runs[k], flight, key)) ==> !Conflicts(runs, flight, key)
  {
  }

  lemma SweepFrees(t: State, id: string, m: nat, cutoff: nat, stamp: nat -> string)
    requires SortsSeconds(stamp) && SingleFlight(t.runs) && Storable(cutoff) && m + SECOND <= cutoff
    requires id in t.runs && t.runs[id].status == Running && t.runs[id].startedAt == stamp(m)
    ensures var swept := Sweep(t.runs, stamp(cutoff));
            && id in swept && LeaseExpired(swept[id]) && swept[id].flight == t.runs[id].flight
            && forall k :: k in swept ==> !InFlight(swept[k], t.runs[id].flight)
  {
    var swept := Sweep(t.runs, stamp(cutoff));
    forall k | k in swept ensures !InFlight(swept[k], t.runs[id].flight) {
      if InFlight(t.runs[k], t.runs[id].flight) { assert k == id; }
    }
  }

  // ----- Configuration -----

  datatype Config = Config(lookbackDays: int, timeout: int, lease: int)

  const MINUTE: nat := 60 * SECOND

  function WithDefaults(c: Config): Config {
    Config(if c.lookbackDays <= 0 then 30 else c.lookbackDays,
           if c.timeout <= 0 then 10 * MINUTE else c.timeout,
           if c.lease <= 0 then 30 * MINUTE else c.lease)
  }

  function EngineOf(site: string, c: Config): (r: Replica)
    ensures r.site == site && r.timeout > 0 && r.lease > 0
    ensures r.timeout == c.timeout || (c.timeout <= 0 && r.timeout == 600_000_000_000)
    ensures r.lease == c.lease || (c.lease <= 0 && r.lease == 1_800_000_000_000)
  {
    Replica(site, WithDefaults(c).timeout, WithDefaults(c).lease)
  }

  /** Replicas that leave both settings alone are safe together; a replica that
      only raises its timeout above 29.5 minutes is not. */
  lemma DefaultsCover(sites: seq<string>, c: Config, stamp: nat -> string)
    requires c.lease <= 0 && |sites| > 0
    ensures LeaseCovers(Deployment(seq(|sites|, i requires 0 <= i < |sites| => EngineOf(sites[i], c)), stamp), GRACE)
            <==> c.timeout <= 1_770_000_000_000
  {
    var cfg := Deployment(seq(|sites|, i requires 0 <= i < |sites| => EngineOf(sites[i], c)), stamp);
    assert cfg.replicas[0] == EngineOf(sites[0], c);
  }
}
