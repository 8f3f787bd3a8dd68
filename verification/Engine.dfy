/** The engine's two operations as they execute: Create, which checks a request
    and inserts its run, and execute, which a worker performs on one run. Each is
    shown to be a run of the protocol. */
module Engine {
  import opened Text
  import opened Timestamps
  import opened RunTable
  import opened RunProtocol
  import opened Outcomes
  import opened Ranges
  import Rotation
  import RunHistory

  /** What the registry knows of the requested provider and capability. */
  datatype Offer = NotInstalled | NotSupported | Offered(limits: Limits)

  datatype Result = Refused(code: Code) | LookupError | Created(id: string) | Found(id: string, alreadyRunning: bool)

  const MAX_KEY: nat := 200

  predicate Ready(connection: Option<Rotation.Conn>) {
    connection.Some? && connection.value.enabled && connection.value.ref != ""
  }

  /** Answers and instants of one execution: when the context starts, the row is
      marked, finish begins and its update lands. */
  datatype Env = Env(started: nat, readOk: bool, marked: nat, markOk: bool, adapter: bool, connected: bool, opens: bool,
                     checkpoints: seq<string>, result: SyncResult, expired: bool, ended: nat, landed: nat, landOk: bool)

  predicate Calls(env: Env) {
    env.adapter && env.connected && env.opens
  }

  /** The provider's own result reaches finish. */
  predicate PassedOn(env: Env) {
    Calls(env) && (env.result.failure.Some? || !env.expired)
  }

  /** In order, within the two deadlines, and storable. */
  predicate Timely(env: Env, timeout: nat) {
    && env.started <= env.marked <= env.ended <= env.landed
    && env.ended <= env.started + timeout && env.landed <= env.ended + GRACE && Storable(env.landed)
  }

  /** The public code a run that was marked ends with. */
  function CodeOf(env: Env): Code {
    if !env.adapter || !env.connected then NotConfigured
    else if !env.opens then Unauthorized
    else if env.result.failure.Some? then Classify(env.result.failure.value).0
    else if env.expired then Transient else NoError
  }

  /** The row a marked run leaves: finished with the status, code, count and cursor
      its execution calls for, or still RUNNING at its last checkpoint when the
      final update is lost. */
  predicate Ended(was: Run, env: Env, marked: string, landed: string, run: Run) {
    && run.flight == was.flight && run.key == was.key && run.startedAt == marked
    && if !env.landOk then
         && run.status == Running
         && run.cursor == (if Calls(env) && env.checkpoints != [] then env.checkpoints[|env.checkpoints| - 1] else was.cursor)
       else
         && run.code == CodeOf(env) && run.finishedAt == Some(landed)
         && (run.status == Succeeded <==> Calls(env) && env.result.failure.None? && !env.expired)
         && (run.status == Partial <==> run.code == PartialError)
         && !IsActive(run.status)
         && run.rows == (if Calls(env) then env.result.rows else 0)
         && run.cursor == (if Calls(env) then env.result.cursor else "")
         && (PassedOn(env) ==> run.message == OutcomeOf(env.result).message)
  }

  /** The row after the checkpoints of provider.Sync. */
  function Checkpointed(runs: Table, id: string, cursors: seq<string>): Table {
    if cursors == [] then runs else SetCursor(runs, id, cursors[|cursors| - 1])
  }

  /** A connection that Create accepts, in any history of the configuration
      handlers, has a credential and a chosen property; and one with a chosen
      property is accepted. */
  lemma ReadyHasCredentialAndProperty(s: Rotation.State, events: seq<Rotation.Event>, t: Rotation.State, scope: Rotation.Scope)
    requires Rotation.Init(s) && Rotation.Path(s, events, t) && scope in t.conns
    ensures Ready(Some(t.conns[scope])) <==> t.conns[scope].property != ""
    ensures Ready(Some(t.conns[scope])) ==> t.conns[scope].ref != "" && t.conns[scope].property != ""
  {
    Rotation.AcceptedHasCredentialAndProperty(s, events, t, scope);
  }

  /** A request without dates, under the default configuration, for a capability
      without a limit of its own: the thirty days up to the freshness lag. */
  lemma DefaultWindow(now: nat, c: RunHistory.Config, lag: int)
    requires c.lookbackDays <= 0
    ensures var last := Today(now) - (if lag > 1 then lag else 1);
            Resolve(now, "", "", Limits(lag, 0, RunHistory.WithDefaults(c).lookbackDays)) == Accepted(last - 29, last)
  {
    var limits := Limits(lag, 0, RunHistory.WithDefaults(c).lookbackDays);
    DefaultRange(now, limits);
  }

  // ----- The protocol's side -----

  lemma Inquires(cfg: Deployment, s: State, j: nat, r: nat, id: string, flight: Flight, key: string, cursor: string)
    returns (events: seq<Event>, t: State)
    requires j < |cfg.replicas| && flight.site == cfg.replicas[j].site && r !in s.requests && id !in s.runs
    ensures Path(cfg, s, events, t)
    ensures var q := Request(j, flight, key, cursor, Inserting);
            if Conflicts(s.runs, flight, key) then t == s.(requests := s.requests[r := q.(stage := ByKey)])
            else t == s.(requests := s.requests[r := q.(stage := Answered(Inserted(id)))],
                         runs := s.runs[id := NewRun(flight, key, cursor, cfg.stamp(s.clock))],
                         workers := s.workers[id := Worker(j, Spawned)])
  {
    var e, f := Ask(r, j, flight, key, cursor), TryInsert(r, id, s.clock);
    var u := Next(cfg, s, e);
    OneStep(cfg, s, e);
    t := Next(cfg, u, f);
    OneStep(cfg, u, f);
    events := [e] + [f];
    PathConcat(cfg, s, [e], u, [f], t);
  }

  /** The two lookups of findConflictingRun. */
  lemma LooksUp(cfg: Deployment, s: State, r: nat, keyReadOk: bool, found: Option<string>)
    returns (events: seq<Event>, t: State)
    requires AskedBy(s, r, ByKey) && FoundConflict(s.runs, s.requests[r].flight, s.requests[r].key, keyReadOk, found)
    ensures Path(cfg, s, events, t)
    ensures var answer := if found.Some? then Existing(found.value) else Missing;
            t == s.(requests := s.requests[r := s.requests[r].(stage := Answered(answer))])
  {
    var q := s.requests[r];
    if keyReadOk && exists k :: k in s.runs && SameKey(s.runs[k], q.flight, q.key) {
      events := [LookByKey(r, found)];
      t := Next(cfg, s, events[0]);
      OneStep(cfg, s, events[0]);
    } else {
      var e, f := if keyReadOk then LookByKey(r, None) else LookByKeyFails(r), LookByFlight(r, found);
      var u := Next(cfg, s, e);
      OneStep(cfg, s, e);
      t := Next(cfg, u, f);
      OneStep(cfg, u, f);
      events := [e] + [f];
      PathConcat(cfg, s, [e], u, [f], t);
    }
  }

  lemma Advance(cfg: Deployment, s: State, to: nat) returns (events: seq<Event>)
    requires s.clock <= to && Storable(to)
    requires forall id :: id in s.workers && !s.workers[id].phase.Spawned? ==> to <= s.workers[id].phase.deadline
    ensures Path(cfg, s, events, s.(clock := to))
  {
    if s.clock == to { return []; }
    events := [Tick(to)];
    OneStep(cfg, s, Tick(to));
  }

  /** A worker alone, at one instant. */
  function Alone(clock: nat, runs: Table, id: string, replica: nat, phase: Phase): State {
    State(clock, runs, map[id := Worker(replica, phase)], map[])
  }

  lemma StepAlone(cfg: Deployment, s: State, to: nat, e: Event) returns (events: seq<Event>, t: State)
    requires s.clock <= to && Storable(to) && Enabled(cfg, s.(clock := to), e)
    requires forall id :: id in s.workers && !s.workers[id].phase.Spawned? ==> to <= s.workers[id].phase.deadline
    ensures t == Next(cfg, s.(clock := to), e) && Path(cfg, s, events, t)
  {
    events := Advance(cfg, s, to);
    t := Next(cfg, s.(clock := to), e);
    OneStep(cfg, s.(clock := to), e);
    PathConcat(cfg, s, events, s.(clock := to), [e], t);
    events := events + [e];
  }

  /** Context, mark: the worker is about to read its connection. */
  lemma Marks(cfg: Deployment, runs: Table, id: string, j: nat, env: Env) returns (events: seq<Event>)
    requires j < |cfg.replicas| && id in runs && !MarkViolates(runs, id) && Timely(env, cfg.replicas[j].timeout)
    ensures Path(cfg, Alone(env.started, runs, id, j, Spawned), events,
                 Alone(env.marked, MarkRunning(runs, id, cfg.stamp(env.marked)), id, j,
                       Marked(env.started + cfg.replicas[j].timeout, env.marked)))
  {
    var s := Alone(env.started, runs, id, j, Spawned);
    OneStep(cfg, s, Begin(id));
    var u := Next(cfg, s, Begin(id));
    var rest, t := StepAlone(cfg, u, env.marked, Mark(id, env.marked));
    assert t == Alone(env.marked, MarkRunning(runs, id, cfg.stamp(env.marked)), id, j,
                      Marked(env.started + cfg.replicas[j].timeout, env.marked));
    PathConcat(cfg, s, [Begin(id)], u, rest, t);
    events := [Begin(id)] + rest;
  }

  lemma {:induction false} Checkpoints(cfg: Deployment, runs: Table, id: string, j: nat, clock: nat, phase: Phase, cursors: seq<string>)
    returns (events: seq<Event>)
    requires phase.Syncing? && id in runs
    ensures Path(cfg, Alone(clock, runs, id, j, phase), events, Alone(clock, Checkpointed(runs, id, cursors), id, j, phase))
    decreases |cursors|
  {
    if cursors == [] { return []; }
    var last := |cursors| - 1;
    events := Checkpoints(cfg, runs, id, j, clock, phase, cursors[..last]);
    var u := Alone(clock, Checkpointed(runs, id, cursors[..last]), id, j, phase);
    var t := Alone(clock, Checkpointed(runs, id, cursors), id, j, phase);
    OneStep(cfg, u, Checkpoint(id, cursors[last]));
    assert SetCursor(u.runs, id, cursors[last]) == t.runs;
    assert Next(cfg, u, Checkpoint(id, cursors[last])) == t;
    PathConcat(cfg, Alone(clock, runs, id, j, phase), events, u, [Checkpoint(id, cursors[last])], t);
    events := events + [Checkpoint(id, cursors[last])];
  }

  /** provider.Sync, with any number of checkpoints. */
  lemma Syncs(cfg: Deployment, runs: Table, id: string, j: nat, clock: nat, deadline: nat, markedAt: nat, cursors: seq<string>)
    returns (events: seq<Event>)
    requires id in runs
    ensures Path(cfg, Alone(clock, runs, id, j, Marked(deadline, markedAt)), events,
                 Alone(clock, Checkpointed(runs, id, cursors), id, j, Syncing(deadline, markedAt)))
  {
    var s, u := Alone(clock, runs, id, j, Marked(deadline, markedAt)), Alone(clock, runs, id, j, Syncing(deadline, markedAt));
    OneStep(cfg, s, CallProvider(id));
    assert Next(cfg, s, CallProvider(id)) == u;
    events := Checkpoints(cfg, runs, id, j, clock, Syncing(deadline, markedAt), cursors);
    PathConcat(cfg, s, [CallProvider(id)], u, events,
               Alone(clock, Checkpointed(runs, id, cursors), id, j, Syncing(deadline, markedAt)));
    events := [CallProvider(id)] + events;
  }

  /** One worker, past its mark, that may still finish in time. */
  predicate MayFinish(s: State, id: string, env: Env) {
    && s.workers.Keys == {id} && s.requests == map[] && s.clock <= env.ended <= env.landed <= env.ended + GRACE
    && var phase := s.workers[id].phase;
       (phase.Marked? || phase.Syncing?) && env.ended <= phase.deadline && Storable(env.landed)
  }

  /** finish: its own deadline, and an update that may not land. */
  lemma Finishes(cfg: Deployment, s: State, id: string, env: Env, outcome: Outcome) returns (events: seq<Event>, t: State)
    requires MayFinish(s, id, env) && !IsActive(outcome.status)
    ensures Path(cfg, s, events, t)
    ensures t == State(env.landed, if env.landOk then RunTable.Finish(s.runs, id, outcome, cfg.stamp(env.landed)) else s.runs,
                       map[], map[])
  {
    var es, u := StepAlone(cfg, s, env.ended, Conclude(id));
    var fs;
    fs, t := StepAlone(cfg, u, env.landed, if env.landOk then Land(id, outcome, env.landed) else Exit(id));
    PathConcat(cfg, s, es, u, fs, t);
    events := es + fs;
    assert t.workers == map[];
  }

  lemma GivesUp(cfg: Deployment, runs: Table, id: string, j: nat, clock: nat)
    ensures Path(cfg, Alone(clock, runs, id, j, Spawned), [Exit(id)], State(clock, runs, map[], map[]))
  {
    var s := Alone(clock, runs, id, j, Spawned);
    OneStep(cfg, s, Exit(id));
    assert Next(cfg, s, Exit(id)).workers == map[];
  }

  lemma Joins(cfg: Deployment, s: State, es: seq<Event>, t: State, fs: seq<Event>, u: State, gs: seq<Event>, v: State)
    requires Path(cfg, s, es, t) && Path(cfg, t, fs, u) && Path(cfg, u, gs, v)
    ensures Path(cfg, s, es + (fs + gs), v)
  {
    PathConcat(cfg, t, fs, u, gs, v);
    PathConcat(cfg, s, es, t, fs + gs, v);
  }

  /** Mark, whatever was tried, and finish, joined. */
  lemma Completes(cfg: Deployment, s: State, first: seq<Event>, u: State, tried: seq<Event>, v: State, id: string, env: Env,
                  outcome: Outcome) returns (events: seq<Event>, t: State)
    requires Path(cfg, s, first, u) && Path(cfg, u, tried, v) && MayFinish(v, id, env) && !IsActive(outcome.status)
    ensures Path(cfg, s, events, t)
    ensures t == State(env.landed, if env.landOk then RunTable.Finish(v.runs, id, outcome, cfg.stamp(env.landed)) else v.runs,
                       map[], map[])
  {
    var last;
    last, t := Finishes(cfg, v, id, env, outcome);
    Joins(cfg, s, first, u, tried, v, last, t);
    events := first + (tried + last);
  }

  lemma WholeRun(cfg: Deployment, runs: Table, id: string, j: nat, env: Env, tried: seq<Event>, v: State, outcome: Outcome)
    returns (events: seq<Event>, t: State)
    requires j < |cfg.replicas| && id in runs && !MarkViolates(runs, id) && Timely(env, cfg.replicas[j].timeout)
    requires Path(cfg, Alone(env.marked, MarkRunning(runs, id, cfg.stamp(env.marked)), id, j,
                             Marked(env.started + cfg.replicas[j].timeout, env.marked)), tried, v)
    requires MayFinish(v, id, env) && !IsActive(outcome.status)
    ensures Path(cfg, Alone(env.started, runs, id, j, Spawned), events, t)
    ensures t == State(env.landed, if env.landOk then RunTable.Finish(v.runs, id, outcome, cfg.stamp(env.landed)) else v.runs,
                       map[], map[])
  {
    var first := Marks(cfg, runs, id, j, env);
    events, t := Completes(cfg, Alone(env.started, runs, id, j, Spawned), first,
                           Alone(env.marked, MarkRunning(runs, id, cfg.stamp(env.marked)), id, j,
                                 Marked(env.started + cfg.replicas[j].timeout, env.marked)), tried, v, id, env, outcome);
  }

  lemma RowLeft(runs: Table, id: string, env: Env, marked: string, landed: string, result: SyncResult)
    requires id in runs && OutcomeOf(result).code == CodeOf(env)
    requires result.failure.None? <==> Calls(env) && env.result.failure.None? && !env.expired
    requires Calls(env) ==> result.rows == env.result.rows && result.cursor == env.result.cursor
    requires PassedOn(env) ==> result == env.result
    requires !Calls(env) ==> result.rows == 0 && result.cursor == ""
    ensures var after := Checkpointed(MarkRunning(runs, id, marked), id, if Calls(env) then env.checkpoints else []);
            var left := if env.landOk then RunTable.Finish(after, id, OutcomeOf(result), landed) else after;
            && left.Keys == runs.Keys && (forall k :: k in left && k != id ==> left[k] == runs[k])
            && Ended(runs[id], env, marked, landed, left[id])
  {
  }

  // ----- The engine -----

  class Engine {
    const store: Store
    const cfg: Deployment
    const me: nat

    ghost predicate Valid() reads store { me < |cfg.replicas| && store.Valid() }

    constructor (store: Store, cfg: Deployment, me: nat)
      requires me < |cfg.replicas| && store.Valid()
      ensures Valid() && this.store == store && this.cfg == cfg && this.me == me
    {
      this.store, this.cfg, this.me := store, cfg, me;
    }

    /** `given` is the trimmed idempotency key, `generated` a new one, `id` the
        new run's id; s is any moment of the deployment, r a new request in it. */
    method Create(offer: Offer, connection: Option<Rotation.Conn>, flight: Flight, startRaw: string, endRaw: string,
                  given: string, generated: string, id: string, now: nat, keyReadOk: bool, ghost s: State, ghost r: nat)
      returns (result: Result, ghost trace: seq<Event>, ghost t: State)
      requires Valid() && id !in store.runs && flight.site == cfg.replicas[me].site
      requires s.runs == store.runs && s.clock == now && r !in s.requests
      modifies store
      ensures Valid() && Path(cfg, s, trace, t) && t.runs == store.runs
      ensures result == Refused(NotConfigured) <==>
                || offer.NotInstalled?
                || (offer.Offered? && (connection.None? || !connection.value.enabled || connection.value.ref == ""))
      ensures result == Refused(Unsupported) <==> offer.NotSupported?
      ensures result == Refused(Internal) <==>
                && offer.Offered? && connection.Some? && connection.value.enabled && connection.value.ref != ""
                && (!Resolve(now, startRaw, endRaw, offer.limits).Accepted? || |if given == "" then generated else given| > 200)
      ensures result.Refused? ==> result.code in {NotConfigured, Unsupported, Internal} && trace == [] && t == s
      ensures result.Created? ==>
                && result.id == id && r in t.requests && t.requests[r].stage == Answered(Inserted(id))
                && id in t.workers && t.workers[id] == Worker(me, Spawned)
                && id in store.runs && ResumesFrom(old(store.runs), flight, store.runs[id].cursor)
                && store.runs == old(store.runs)[id := NewRun(flight, if given == "" then generated else given,
                                                              store.runs[id].cursor, cfg.stamp(now))]
      ensures result == LookupError || result.Found? ==> Conflicts(old(store.runs), flight, if given == "" then generated else given)
      ensures result == LookupError ==>
                && store.runs == old(store.runs) && t.workers == s.workers && !keyReadOk
                && r in t.requests && t.requests[r].stage == Answered(Missing)
      ensures result.Found? ==>
                && store.runs == old(store.runs) && t.workers == s.workers
                && r in t.requests && t.requests[r].stage == Answered(Existing(result.id)) && result.id in store.runs
                && (result.alreadyRunning <==> IsActive(store.runs[result.id].status))
    {
      trace, t := [], s;
      if offer.NotInstalled? { return Refused(NotConfigured), [], s; }
      if offer.NotSupported? { return Refused(Unsupported), [], s; }
      if !Ready(connection) { return Refused(NotConfigured), [], s; }
      var range := Resolve(now, startRaw, endRaw, offer.limits);
      if !range.Accepted? { return Refused(Internal), [], s; }
      var key := if given == "" then generated else given;
      if |key| > MAX_KEY { return Refused(Internal), [], s; }
      var cursor := store.ResumeCursor(flight);
      var found, inserted := store.CreateSyncRun(id, flight, key, cursor, cfg.stamp(now), keyReadOk);
      trace, t := Inquires(cfg, s, me, r, id, flight, key, cursor);
      if inserted { return Created(id), trace, t; }
      ghost var rest, u := LooksUp(cfg, t, r, keyReadOk, found);
      PathConcat(cfg, s, trace, t, rest, u);
      trace, t := trace + rest, u;
      if found.None? { return LookupError, trace, t; }
      result := Found(found.value, IsActive(store.runs[found.value].status));
    }

    /** finish: the terminal row, unless its update is lost. */
    method Finish(id: string, result: SyncResult, landed: nat, landOk: bool)
      requires Valid()
      modifies store
      ensures Valid()
      ensures store.runs == if landOk then RunTable.Finish(old(store.runs), id, OutcomeOf(result), cfg.stamp(landed)) else old(store.runs)
    {
      var status, code, message := Succeeded, NoError, "";
      if result.failure.Some? {
        var (c, m) := Classify(result.failure.value);
        code, message, status := c, m, Failed;
        if code == PartialError { status := Partial; }
      }
      if landOk { store.FinishRun(id, Outcome(status, result.rows, result.cursor, code, message), cfg.stamp(landed)); }
    }

    /** Between mark and finish: adapter, connection, credential and provider.Sync. */
    method Attempt(id: string, env: Env, ghost deadline: nat)
      returns (result: SyncResult, ghost trace: seq<Event>, ghost phase: Phase)
      requires Valid() && id in store.runs
      modifies store
      ensures Valid()
      ensures Path(cfg, Alone(env.marked, old(store.runs), id, me, Marked(deadline, env.marked)), trace,
                   Alone(env.marked, store.runs, id, me, phase))
      ensures phase == Marked(deadline, env.marked) || phase == Syncing(deadline, env.marked)
      ensures store.runs == Checkpointed(old(store.runs), id, if Calls(env) then env.checkpoints else [])
      ensures result.failure.None? <==> Calls(env) && env.result.failure.None? && !env.expired
      ensures OutcomeOf(result).code == CodeOf(env)
      ensures Calls(env) ==> result.rows == env.result.rows && result.cursor == env.result.cursor
      ensures PassedOn(env) ==> result == env.result
      ensures !Calls(env) ==> result.rows == 0 && result.cursor == ""
    {
      trace, phase := [], Marked(deadline, env.marked);
      result := SyncResult(0, "", None);
      if !env.adapter {
        result := result.(failure := Some(Classified(NotConfigured, "provider adapter is not available")));
      } else if !env.connected {
        result := result.(failure := Some(Classified(NotConfigured, "provider is not configured")));
      } else if !env.opens {
        result := result.(failure := Some(Classified(Unauthorized, "credential is not available")));
      } else {
        trace := Syncs(cfg, store.runs, id, me, env.marked, deadline, env.marked, env.checkpoints);
        phase := Syncing(deadline, env.marked);
        for i := 0 to |env.checkpoints|
          invariant Valid() && id in store.runs
          invariant store.runs == Checkpointed(old(store.runs), id, env.checkpoints[..i])
        {
          store.SetRunCursor(id, env.checkpoints[i]);
        }
        assert env.checkpoints[..|env.checkpoints|] == env.checkpoints;
        result := env.result;
        if result.failure.None? && env.expired { result := result.(failure := Some(Classified(Transient, TIMED_OUT))); }
      }
    }

    /** execute from the marked row on; `was` is the table before the mark. */
    method Perform(id: string, env: Env, ghost was: Table) returns (ghost trace: seq<Event>)
      requires Valid() && id in was && !MarkViolates(was, id) && Timely(env, cfg.replicas[me].timeout)
      requires store.runs == MarkRunning(was, id, cfg.stamp(env.marked))
      modifies store
      ensures Valid()
      ensures Path(cfg, Alone(env.started, was, id, me, Spawned), trace, State(env.landed, store.runs, map[], map[]))
      ensures store.runs.Keys == was.Keys && forall k :: k in store.runs && k != id ==> store.runs[k] == was[k]
      ensures Ended(was[id], env, cfg.stamp(env.marked), cfg.stamp(env.landed), store.runs[id])
    {
      ghost var tried, phase;
      var result;
      result, tried, phase := Attempt(id, env, env.started + cfg.replicas[me].timeout);
      ghost var end;
      trace, end := WholeRun(cfg, was, id, me, env, tried, Alone(env.marked, store.runs, id, me, phase), OutcomeOf(result));
      RowLeft(was, id, env, cfg.stamp(env.marked), cfg.stamp(env.landed), result);
      Finish(id, result, env.landed, env.landOk);
    }

    /** execute: a worker alone on its run, from the new goroutine to its end. */
    method Execute(id: string, env: Env) returns (ghost trace: seq<Event>, ghost clock: nat)
      requires Valid() && id in store.runs && Timely(env, cfg.replicas[me].timeout)
      modifies store
      ensures Valid()
      ensures Path(cfg, Alone(env.started, old(store.runs), id, me, Spawned), trace, State(clock, store.runs, map[], map[]))
      ensures !env.readOk || !env.markOk || MarkViolates(old(store.runs), id) ==> store.runs == old(store.runs)
      ensures env.readOk && env.markOk && !MarkViolates(old(store.runs), id) ==>
                && store.runs.Keys == old(store.runs).Keys
                && (forall k :: k in store.runs && k != id ==> store.runs[k] == old(store.runs)[k])
                && Ended(old(store.runs)[id], env, cfg.stamp(env.marked), cfg.stamp(env.landed), store.runs[id])
    {
      var refused := !env.readOk || !env.markOk;
      if !refused { refused := store.MarkRunRunning(id, cfg.stamp(env.marked)); }
      if refused {
        GivesUp(cfg, store.runs, id, me, env.started);
        return [Exit(id)], env.started;
      }
      trace := Perform(id, env, old(store.runs));
      clock := env.landed;
    }
  }
}
