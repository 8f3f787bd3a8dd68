/** Sync runs over time: requests that insert rows, workers that execute them
    under a deadline, and lease sweeps, by any number of replicas sharing one
    database. Every SQL statement is one atomic step. A statement carries the
    instant its caller read from the clock, which may lie before the step. */
module RunProtocol {
  import opened Text
  import opened Timestamps
  import opened RunTable

  /** An engine: the site it serves, the bound on a run, and its lease. */
  datatype Replica = Replica(site: string, timeout: nat, lease: nat)

  /** The engines sharing a database, and how it writes an instant. */
  datatype Deployment = Deployment(replicas: seq<Replica>, stamp: nat -> string)

  /** The context of finish(). */
  const GRACE: nat := 30 * SECOND

  datatype Phase =
    | Spawned                                  // goroutine not scheduled yet
    | Started(deadline: nat)                   // context created, row not marked
    | Marked(deadline: nat, markedAt: nat)     // reading connection and secret
    | Syncing(deadline: nat, markedAt: nat)    // inside provider.Sync
    | Finishing(deadline: nat, markedAt: nat)  // inside finish()

  datatype Worker = Worker(replica: nat, phase: Phase)

  datatype Answer = Inserted(id: string) | Existing(id: string) | Missing

  datatype Stage = Inserting | ByKey | ByFlight | Answered(answer: Answer)

  datatype Request = Request(replica: nat, flight: Flight, key: string, cursor: string, stage: Stage)

  /** A worker that crashed or returned is no longer in the map. */
  datatype State = State(clock: nat, runs: Table, workers: map<string, Worker>, requests: map<nat, Request>)

  datatype Event =
    | Tick(to: nat)
    | Ask(r: nat, replica: nat, flight: Flight, key: string, cursor: string)
    | TryInsert(r: nat, id: string, readAt: nat)
    | LookByKey(r: nat, found: Option<string>)
    | LookByKeyFails(r: nat)
    | LookByFlight(r: nat, found: Option<string>)
    | Begin(id: string)
    | Mark(id: string, readAt: nat)
    | CallProvider(id: string)
    | Checkpoint(id: string, cursor: string)
    | Conclude(id: string)
    | Land(id: string, outcome: Outcome, readAt: nat)
    | Exit(id: string)
    | SweepStale(replica: nat, readAt: nat)

  predicate HasMarked(p: Phase) {
    p.Marked? || p.Syncing? || p.Finishing?
  }

  predicate AskedBy(s: State, r: nat, stage: Stage) {
    r in s.requests && s.requests[r].stage == stage
  }

  /** A query returns a matching row if there is one. */
  predicate FoundByKey(t: Table, q: Request, found: Option<string>) {
    match found
    case Some(id) => id in t && SameKey(t[id], q.flight, q.key)
    case None => forall id :: id in t ==> !SameKey(t[id], q.flight, q.key)
  }

  predicate FoundByFlight(t: Table, q: Request, found: Option<string>) {
    match found
    case Some(id) => id in t && InFlight(t[id], q.flight)
    case None => forall id :: id in t ==> !InFlight(t[id], q.flight)
  }

  predicate Enabled(cfg: Deployment, s: State, e: Event) {
    match e
    case Tick(to) =>
      // A worker stops by its deadline or crashes before it: time waits for it.
      && s.clock < to && Storable(to)
      && forall id :: id in s.workers && !s.workers[id].phase.Spawned? ==> to <= s.workers[id].phase.deadline
    case Ask(r, replica, flight, _, _) =>
      r !in s.requests && replica < |cfg.replicas| && flight.site == cfg.replicas[replica].site
    case TryInsert(r, id, readAt) => AskedBy(s, r, Inserting) && id !in s.runs && readAt <= s.clock
    case LookByKey(r, found) => AskedBy(s, r, ByKey) && FoundByKey(s.runs, s.requests[r], found)
    case LookByKeyFails(r) => AskedBy(s, r, ByKey)
    case LookByFlight(r, found) => AskedBy(s, r, ByFlight) && FoundByFlight(s.runs, s.requests[r], found)
    case Begin(id) => id in s.workers && s.workers[id].phase.Spawned?
    case Mark(id, readAt) =>
      && id in s.workers && s.workers[id].phase.Started? && s.workers[id].replica < |cfg.replicas|
      && s.workers[id].phase.deadline <= readAt + cfg.replicas[s.workers[id].replica].timeout
      && readAt <= s.clock
    case CallProvider(id) => id in s.workers && s.workers[id].phase.Marked?
    case Checkpoint(id, _) => id in s.workers && s.workers[id].phase.Syncing?
    case Conclude(id) => id in s.workers && (s.workers[id].phase.Marked? || s.workers[id].phase.Syncing?)
    case Land(id, outcome, readAt) =>
      id in s.workers && s.workers[id].phase.Finishing? && !IsActive(outcome.status) && readAt <= s.clock
    case Exit(id) => id in s.workers
    case SweepStale(replica, readAt) =>
      replica < |cfg.replicas| && cfg.replicas[replica].lease <= readAt <= s.clock
  }

  function WithStage(s: State, r: nat, stage: Stage): State
    requires r in s.requests
  {
    s.(requests := s.requests[r := s.requests[r].(stage := stage)])
  }

  function WithPhase(s: State, id: string, phase: Phase): State
    requires id in s.workers
  {
    s.(workers := s.workers[id := s.workers[id].(phase := phase)])
  }

  function Next(cfg: Deployment, s: State, e: Event): State
    requires Enabled(cfg, s, e)
  {
    match e
    case Tick(to) => s.(clock := to)
    case Ask(r, replica, flight, key, cursor) =>
      s.(requests := s.requests[r := Request(replica, flight, key, cursor, Inserting)])
    case TryInsert(r, id, readAt) =>
      var q := s.requests[r];
      if Conflicts(s.runs, q.flight, q.key) then WithStage(s, r, ByKey)
      else WithStage(s, r, Answered(Inserted(id)))
           .(runs := s.runs[id := NewRun(q.flight, q.key, q.cursor, cfg.stamp(readAt))],
             workers := s.workers[id := Worker(q.replica, Spawned)])
    case LookByKey(r, found) =>
      WithStage(s, r, if found.Some? then Answered(Existing(found.value)) else ByFlight)
    // findConflictingRun goes on to the flight after any error of the key lookup.
    case LookByKeyFails(r) => WithStage(s, r, ByFlight)
    case LookByFlight(r, found) =>
      WithStage(s, r, Answered(if found.Some? then Existing(found.value) else Missing))
    case Begin(id) =>
      if s.workers[id].replica < |cfg.replicas|
      then WithPhase(s, id, Started(s.clock + cfg.replicas[s.workers[id].replica].timeout)) else s
    case Mark(id, readAt) =>
      if MarkViolates(s.runs, id) then s.(workers := s.workers - {id})
      else WithPhase(s, id, Marked(s.workers[id].phase.deadline, readAt))
           .(runs := MarkRunning(s.runs, id, cfg.stamp(readAt)))
    case CallProvider(id) =>
      WithPhase(s, id, Syncing(s.workers[id].phase.deadline, s.workers[id].phase.markedAt))
    case Checkpoint(id, cursor) => s.(runs := SetCursor(s.runs, id, cursor))
    case Conclude(id) =>
      WithPhase(s, id, Finishing(s.clock + GRACE, s.workers[id].phase.markedAt))
    case Land(id, outcome, readAt) =>
      s.(runs := RunTable.Finish(s.runs, id, outcome, cfg.stamp(readAt)), workers := s.workers - {id})
    case Exit(id) => s.(workers := s.workers - {id})
    case SweepStale(replica, readAt) =>
      s.(runs := Sweep(s.runs, cfg.stamp(readAt - cfg.replicas[replica].lease)))
  }

  /** No process is running yet; the table may hold rows of an earlier one. */
  ghost predicate Init(s: State) {
    UniqueKeys(s.runs) && SingleFlight(s.runs) && s.workers == map[] && s.requests == map[] && Storable(s.clock)
  }

  /** Every interleaving: events lead from s to t. */
  ghost predicate Path(cfg: Deployment, s: State, events: seq<Event>, t: State)
    decreases |events|
  {
    if events == [] then s == t
    else Enabled(cfg, s, events[0]) && Path(cfg, Next(cfg, s, events[0]), events[1..], t)
  }

  lemma {:induction false} PathConcat(cfg: Deployment, s: State, es: seq<Event>, t: State, fs: seq<Event>, u: State)
    requires Path(cfg, s, es, t) && Path(cfg, t, fs, u)
    ensures Path(cfg, s, es + fs, u)
    decreases |es|
  {
    if es == [] {
      assert es + fs == fs;
    } else {
      PathConcat(cfg, Next(cfg, s, es[0]), es[1..], t, fs, u);
      assert (es + fs)[0] == es[0] && (es + fs)[1..] == es[1..] + fs;
    }
  }

  lemma OneStep(cfg: Deployment, s: State, e: Event)
    requires Enabled(cfg, s, e)
    ensures Path(cfg, s, [e], Next(cfg, s, e))
  {
    assert Path(cfg, Next(cfg, s, e), [e][1..], Next(cfg, s, e));
  }

  /** Every statement may carry an instant read before it ran: an insert of a
      pending request, a mark by a worker whose context is no older than the
      reading allows, an update by a finishing one, and a sweep past its lease. */
  lemma OldReadingsAreAllowed(cfg: Deployment, s: State, readAt: nat, r: nat, id: string, outcome: Outcome, i: nat)
    requires readAt <= s.clock && id !in s.runs && i < |cfg.replicas| && !IsActive(outcome.status)
    ensures AskedBy(s, r, Inserting) ==> Enabled(cfg, s, TryInsert(r, id, readAt))
    ensures AskedBy(s, r, Inserting) && !Conflicts(s.runs, s.requests[r].flight, s.requests[r].key) ==>
              var t := Next(cfg, s, TryInsert(r, id, readAt)); id in t.runs && t.runs[id].startedAt == cfg.stamp(readAt)
    ensures forall k :: k in s.workers && s.workers[k].phase.Finishing? ==> Enabled(cfg, s, Land(k, outcome, readAt))
    ensures forall k ::
              (&& k in s.workers && s.workers[k].phase.Started? && s.workers[k].replica == i
               && s.workers[k].phase.deadline <= readAt + cfg.replicas[i].timeout) ==> Enabled(cfg, s, Mark(k, readAt))
    ensures cfg.replicas[i].lease <= readAt ==> Enabled(cfg, s, SweepStale(i, readAt))
  {
  }

  // ----- What every step keeps, whatever the configuration -----

  /** Where a worker stands, its row agrees and its deadline bounds the clock. */
  ghost predicate WorkerOk(cfg: Deployment, s: State, id: string)
    requires id in s.workers
  {
    var w := s.workers[id];
    && id in s.runs && w.replica < |cfg.replicas|
    && match w.phase
       case Spawned => s.runs[id].status == Queued
       case Started(d) => s.runs[id].status == Queued && s.clock <= d <= s.clock + cfg.replicas[w.replica].timeout
       case Marked(d, m) => s.clock <= d <= m + cfg.replicas[w.replica].timeout && RowMarked(cfg, s, id, m)
       case Syncing(d, m) => s.clock <= d <= m + cfg.replicas[w.replica].timeout && RowMarked(cfg, s, id, m)
       case Finishing(d, m) => s.clock <= d <= m + cfg.replicas[w.replica].timeout + GRACE && RowMarked(cfg, s, id, m)
  }

  ghost predicate RowMarked(cfg: Deployment, s: State, id: string, markedAt: nat)
    requires id in s.runs
  {
    && markedAt <= s.clock
    && (LeaseExpired(s.runs[id]) || (s.runs[id].status == Running && s.runs[id].startedAt == cfg.stamp(markedAt)))
  }

  ghost predicate RequestOk(cfg: Deployment, s: State, r: nat)
    requires r in s.requests
  {
    s.requests[r].replica < |cfg.replicas|
  }

  ghost predicate Inv(cfg: Deployment, s: State) {
    && UniqueKeys(s.runs) && SingleFlight(s.runs) && Storable(s.clock)
    && (forall id :: id in s.workers ==> WorkerOk(cfg, s, id))
    && (forall r :: r in s.requests ==> RequestOk(cfg, s, r))
  }

  lemma MarkNeverViolates(cfg: Deployment, s: State, id: string, readAt: nat)
    requires Inv(cfg, s) && Enabled(cfg, s, Mark(id, readAt))
    ensures !MarkViolates(s.runs, id) && s.runs[id].status == Queued
  {
    assert WorkerOk(cfg, s, id);
  }

  lemma InsertStep(cfg: Deployment, s: State, e: Event)
    requires Inv(cfg, s) && Enabled(cfg, s, e) && e.TryInsert?
    ensures Inv(cfg, Next(cfg, s, e))
  {
    var t := Next(cfg, s, e);
    var q := s.requests[e.r];
    assert RequestOk(cfg, s, e.r);
    InsertKeepsIndexes(s.runs, e.id, NewRun(q.flight, q.key, q.cursor, cfg.stamp(e.readAt)));
    forall id | id in t.workers ensures WorkerOk(cfg, t, id) {
      if id in s.workers { assert WorkerOk(cfg, s, id); }
    }
    forall r | r in t.requests ensures RequestOk(cfg, t, r) {
      assert RequestOk(cfg, s, r);
    }
  }

  lemma MarkKeepsWorker(cfg: Deployment, s: State, e: Event, k: string)
    requires Inv(cfg, s) && Enabled(cfg, s, e) && e.Mark? && !MarkViolates(s.runs, e.id)
    requires k in Next(cfg, s, e).workers
    ensures WorkerOk(cfg, Next(cfg, s, e), k)
  {
    assert WorkerOk(cfg, s, k);
  }

  lemma MarkStep(cfg: Deployment, s: State, e: Event)
    requires Inv(cfg, s) && Enabled(cfg, s, e) && e.Mark?
    ensures Inv(cfg, Next(cfg, s, e))
  {
    var t := Next(cfg, s, e);
    MarkNeverViolates(cfg, s, e.id, e.readAt);
    MarkKeepsIndexes(s.runs, e.id, cfg.stamp(e.readAt));
    forall k | k in t.workers ensures WorkerOk(cfg, t, k) {
      MarkKeepsWorker(cfg, s, e, k);
    }
    assert forall r :: r in t.requests ==> RequestOk(cfg, s, r);
  }

  lemma CheckpointStep(cfg: Deployment, s: State, e: Event)
    requires Inv(cfg, s) && Enabled(cfg, s, e) && e.Checkpoint?
    ensures Inv(cfg, Next(cfg, s, e))
  {
    var t := s.(runs := SetCursor(s.runs, e.id, e.cursor));
    RowChangesKeepIndexes(s.runs, t.runs);
    forall k | k in t.workers ensures WorkerOk(cfg, t, k) {
      assert WorkerOk(cfg, s, k);
    }
    assert forall r :: r in t.requests ==> RequestOk(cfg, s, r);
  }

  lemma LandStep(cfg: Deployment, s: State, e: Event)
    requires Inv(cfg, s) && Enabled(cfg, s, e) && e.Land?
    ensures Inv(cfg, Next(cfg, s, e))
  {
    var t := s.(runs := RunTable.Finish(s.runs, e.id, e.outcome, cfg.stamp(e.readAt)), workers := s.workers - {e.id});
    RowChangesKeepIndexes(s.runs, t.runs);
    forall k | k in t.workers ensures WorkerOk(cfg, t, k) {
      assert WorkerOk(cfg, s, k);
    }
    assert forall r :: r in t.requests ==> RequestOk(cfg, s, r);
  }

  lemma WorkerStep(cfg: Deployment, s: State, e: Event)
    requires Inv(cfg, s) && Enabled(cfg, s, e)
    requires e.Tick? || e.Begin? || e.CallProvider? || e.Conclude? || e.Exit?
    ensures Inv(cfg, Next(cfg, s, e))
  {
    var t := Next(cfg, s, e);
    forall k | k in t.workers ensures WorkerOk(cfg, t, k) {
      assert WorkerOk(cfg, s, k);
    }
    assert forall r :: r in t.requests ==> RequestOk(cfg, s, r);
  }

  lemma RequestStep(cfg: Deployment, s: State, e: Event)
    requires Inv(cfg, s) && Enabled(cfg, s, e) && (e.Ask? || e.LookByKey? || e.LookByKeyFails? || e.LookByFlight?)
    ensures Inv(cfg, Next(cfg, s, e))
  {
    var t := Next(cfg, s, e);
    assert forall k :: k in t.workers ==> WorkerOk(cfg, s, k);
    assert forall r :: r in s.requests ==> RequestOk(cfg, s, r);
  }

  lemma SweepKeepsInv(cfg: Deployment, s: State, cutoff: string)
    requires Inv(cfg, s)
    ensures Inv(cfg, s.(runs := Sweep(s.runs, cutoff)))
  {
    var t := s.(runs := Sweep(s.runs, cutoff));
    RowChangesKeepIndexes(s.runs, t.runs);
    forall k | k in t.workers ensures WorkerOk(cfg, t, k) {
      assert WorkerOk(cfg, s, k);
    }
    assert forall r :: r in t.requests ==> RequestOk(cfg, s, r);
  }

  lemma SweepStep(cfg: Deployment, s: State, e: Event)
    requires Inv(cfg, s) && Enabled(cfg, s, e) && e.SweepStale?
    ensures Inv(cfg, Next(cfg, s, e))
  {
    var cutoff := cfg.stamp(e.readAt - cfg.replicas[e.replica].lease);
    SweepKeepsInv(cfg, s, cutoff);
    assert Next(cfg, s, e) == s.(runs := Sweep(s.runs, cutoff));
  }

  lemma StepKeepsInv(cfg: Deployment, s: State, e: Event)
    requires Inv(cfg, s) && Enabled(cfg, s, e)
    ensures Inv(cfg, Next(cfg, s, e))
  {
    match e
    case TryInsert(_, _, _) => InsertStep(cfg, s, e);
    case Mark(_, _) => MarkStep(cfg, s, e);
    case Checkpoint(_, _) => CheckpointStep(cfg, s, e);
    case Land(_, _, _) => LandStep(cfg, s, e);
    case SweepStale(_, _) => SweepStep(cfg, s, e);
    case Ask(_, _, _, _, _) => RequestStep(cfg, s, e);
    case LookByKey(_, _) => RequestStep(cfg, s, e);
    case LookByKeyFails(_) => RequestStep(cfg, s, e);
    case LookByFlight(_, _) => RequestStep(cfg, s, e);
    case _ => WorkerStep(cfg, s, e);
  }

  lemma {:induction false} PathKeepsInv(cfg: Deployment, s: State, events: seq<Event>, t: State)
    requires Inv(cfg, s) && Path(cfg, s, events, t)
    ensures Inv(cfg, t)
    decreases |events|
  {
    if events != [] {
      StepKeepsInv(cfg, s, events[0]);
      PathKeepsInv(cfg, Next(cfg, s, events[0]), events[1..], t);
    }
  }

  // ----- One worker per flight -----

  /** No sweep can outrun a worker: pairwise over all replicas, since a sweep
      covers the rows of every site. */
  predicate LeaseCovers(cfg: Deployment, slack: nat) {
    forall i, j :: 0 <= i < |cfg.replicas| && 0 <= j < |cfg.replicas| ==>
      cfg.replicas[j].timeout + slack <= cfg.replicas[i].lease
  }

  /** A row still held by its worker is RUNNING; with `finishing`, up to the
      end of finish(). */
  ghost predicate HeldRowsRun(s: State, finishing: bool) {
    forall id :: id in s.workers && id in s.runs && Holds(s.workers[id].phase, finishing)
      ==> s.runs[id].status == Running
  }

  predicate Holds(p: Phase, finishing: bool) {
    p.Marked? || p.Syncing? || (finishing && p.Finishing?)
  }

  /** A held row is too young for any sweep. */
  lemma HeldRowIsFresh(cfg: Deployment, s: State, e: Event, id: string, finishing: bool)
    requires Inv(cfg, s) && Enabled(cfg, s, e) && e.SweepStale? && SortsSeconds(cfg.stamp)
    requires LeaseCovers(cfg, if finishing then GRACE else 0)
    requires id in s.workers && Holds(s.workers[id].phase, finishing)
    ensures id in s.runs && !Stale(s.runs[id], cfg.stamp(e.readAt - cfg.replicas[e.replica].lease))
  {
    assert WorkerOk(cfg, s, id);
    var marked, cutoff := s.workers[id].phase.markedAt, e.readAt - cfg.replicas[e.replica].lease;
    assert cutoff <= marked;
  }

  lemma StepKeepsHeld(cfg: Deployment, s: State, e: Event, finishing: bool)
    requires Inv(cfg, s) && Enabled(cfg, s, e) && SortsSeconds(cfg.stamp)
    requires LeaseCovers(cfg, if finishing then GRACE else 0)
    requires HeldRowsRun(s, finishing)
    ensures HeldRowsRun(Next(cfg, s, e), finishing)
  {
    var t := Next(cfg, s, e);
    forall id | id in t.workers && id in t.runs && Holds(t.workers[id].phase, finishing)
      ensures t.runs[id].status == Running
    {
      if id in s.workers {
        assert WorkerOk(cfg, s, id);
        if e.SweepStale? { HeldRowIsFresh(cfg, s, e, id, finishing); }
      }
    }
  }

  lemma {:induction false} PathKeepsHeld(cfg: Deployment, s: State, events: seq<Event>, t: State, finishing: bool)
    requires Inv(cfg, s) && Path(cfg, s, events, t) && SortsSeconds(cfg.stamp)
    requires LeaseCovers(cfg, if finishing then GRACE else 0)
    requires HeldRowsRun(s, finishing)
    ensures Inv(cfg, t) && HeldRowsRun(t, finishing)
    decreases |events|
  {
    if events != [] {
      StepKeepsInv(cfg, s, events[0]);
      StepKeepsHeld(cfg, s, events[0], finishing);
      PathKeepsHeld(cfg, Next(cfg, s, events[0]), events[1..], t, finishing);
    }
  }
}
