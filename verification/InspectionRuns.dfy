/** A URL inspection run from request to finished row: the engine, the provider
    and the report store together perform one step of a chain. */
module InspectionRuns {
  import opened Text
  import opened RunTable
  import opened RunProtocol
  import opened Outcomes
  import opened Reports
  import opened Inspection
  import opened Resume
  import Engine
  import Ranges
  import Rotation

  lemma {:induction false} RowsAreGood(urls: seq<string>, inspect: string -> Verdict)
    requires forall i :: 0 <= i < |urls| ==> urls[i] != ""
    ensures forall i :: 0 <= i < |RowsOf(urls, inspect)| ==> Good(RowsOf(urls, inspect)[i])
    decreases |urls|
  {
    if urls != [] {
      var n := |urls| - 1;
      RowsAreGood(urls[..n], inspect);
      var before := RowsOf(urls[..n], inspect);
      forall i | 0 <= i < |RowsOf(urls, inspect)| ensures Good(RowsOf(urls, inspect)[i]) {
        if i < |before| { assert RowsOf(urls, inspect)[i] == before[i]; }
      }
    }
  }

  lemma WrittenIsGood(c: Setup, cursor: string, sink: Sink)
    requires forall i :: 0 <= i < |c.urls| ==> c.urls[i] != ""
    ensures var written := Inspect(c.urls, cursor, c.batch, c.inspect, sink).written;
            forall i :: 0 <= i < |written| ==> Good(written[i])
  {
    var offset := Offset(cursor, |c.urls|);
    if offset.Some? {
      var window := c.urls[offset.value..End(offset.value, c.batch, |c.urls|)];
      RowsAreGood(window[..Successes(window, c.inspect)], c.inspect);
    }
  }

  /** An execution in which the store, the connection and the secret answer, the
      context does not expire, and the provider returns this report. */
  predicate Smooth(env: Engine.Env, report: Report) {
    && env.readOk && env.markOk && env.landOk && !env.expired && Engine.Calls(env)
    && env.checkpoints == (if report.checkpoint.Some? then [report.checkpoint.value] else [])
    && env.result == ResultOf(report)
  }

  /** The row the engine leaves is the one the chain speaks of. */
  lemma SameRow(c: Setup, a: Attempt, env: Engine.Env, report: Report, was: Run, run: Run)
    requires Smooth(env, report) && was.flight == c.flight && was.key == a.key
    requires Engine.Ended(was, env, a.started, a.finished, run)
    ensures run == RowOf(c, a, Ending(report))
  {
  }

  lemma SameTable(c: Setup, db: DB, a: Attempt, cursor: string, env: Engine.Env, report: Report, queued: Table, after: Table)
    requires a.id !in db.runs && Smooth(env, report)
    requires queued == db.runs[a.id := NewRun(c.flight, a.key, cursor, a.queued)]
    requires after.Keys == queued.Keys && (forall k :: k in after && k != a.id ==> after[k] == queued[k])
    requires Engine.Ended(queued[a.id], env, a.started, a.finished, after[a.id])
    ensures after == Executed(c, db, a, cursor, report).runs
  {
    SameRow(c, a, env, report, queued[a.id], after[a.id]);
    RowLeft(c, db, a, cursor, report);
  }

  /** When nothing but the queue time separates a run from the table's other
      active rows, it can be marked. */
  lemma NewRowCanBeMarked(t: Table, id: string, flight: Flight, key: string, cursor: string, now: string)
    requires id !in t && !Conflicts(t, flight, key)
    ensures !MarkViolates(t[id := NewRun(flight, key, cursor, now)], id)
  {
    var u := t[id := NewRun(flight, key, cursor, now)];
    assert forall other :: other in u && other != id ==> u[other] == t[other];
  }

  /** The report store takes everything a run of this setup writes. */
  ghost predicate Stores(reports: Reports.Store, c: Setup)
    reads reports
  {
    && reports.Valid() && c.flight.site != "" && c.flight.site in reports.sites && c.dataset != ""
    && forall i :: 0 <= i < |c.urls| ==> c.urls[i] != ""
  }

  /** Nothing on the engine's side fails. */
  predicate Undisturbed(env: Engine.Env) {
    env.readOk && env.markOk && env.landOk && !env.expired && Engine.Calls(env)
  }

  /** The timestamps of an attempt are those the store writes. */
  predicate StampedBy(a: Attempt, cfg: Deployment, now: nat, env: Engine.Env) {
    a.queued == cfg.stamp(now) && a.started == cfg.stamp(env.marked) && a.finished == cfg.stamp(env.landed)
  }

  /** The worker: execute with syncURLInspection as the provider and the report
      store behind its sink. */
  method ExecuteInspection(engine: Engine.Engine, reports: Reports.Store, c: Setup, a: Attempt, cursor: string, now: nat,
                           env: Engine.Env, ghost db: DB)
    requires engine.Valid() && Stores(reports, c) && reports.rows == db.reports
    requires a.id !in db.runs && !Conflicts(db.runs, c.flight, a.key)
    requires engine.store.runs == db.runs[a.id := NewRun(c.flight, a.key, cursor, a.queued)]
    requires StampedBy(a, engine.cfg, now, env) && Undisturbed(env)
    requires Engine.Timely(env, engine.cfg.replicas[engine.me].timeout)
    modifies engine.store, reports`rows
    ensures engine.Valid() && Stores(reports, c)
    ensures DB(engine.store.runs, reports.rows) == RunOnce(c, db, a, cursor, Sink(true, true))
  {
    ghost var queued := engine.store.runs;
    NewRowCanBeMarked(db.runs, a.id, c.flight, a.key, cursor, a.queued);
    WrittenIsGood(c, cursor, Sink(true, true));
    var report, _ := SyncURLInspection(c.urls, cursor, c.batch, c.inspect, Sink(true, true));
    if report.written != [] {
      var _ := reports.UpsertReportRows(c.flight.site, c.dataset, report.written, a.wrote);
    }
    var done := env.(checkpoints := if report.checkpoint.Some? then [report.checkpoint.value] else [], result := ResultOf(report));
    var _, _ := engine.Execute(a.id, done);
    SameTable(c, db, a, cursor, done, report, queued, engine.store.runs);
  }

  /** Create, then the worker: one step of a chain. */
  method RunInspection(engine: Engine.Engine, reports: Reports.Store, c: Setup, a: Attempt, now: nat, limits: Ranges.Limits,
                       connection: Rotation.Conn, env: Engine.Env)
    returns (cursor: string)
    requires engine.Valid() && Stores(reports, c) && c.flight.site == engine.cfg.replicas[engine.me].site
    requires Engine.Ready(Some(connection)) && Ranges.Resolve(now, "", "", limits).Accepted?
    requires a.key != "" && |a.key| <= Engine.MAX_KEY && Starts(c, DB(engine.store.runs, reports.rows), a)
    requires StampedBy(a, engine.cfg, now, env) && Undisturbed(env)
    requires Engine.Timely(env, engine.cfg.replicas[engine.me].timeout)
    modifies engine.store, reports`rows
    ensures engine.Valid() && Stores(reports, c)
    ensures Step(c, old(DB(engine.store.runs, reports.rows)), a, cursor, DB(engine.store.runs, reports.rows))
  {
    ghost var db := DB(engine.store.runs, reports.rows);
    var _, _, _ := engine.Create(Engine.Offered(limits), Some(connection), c.flight, "", "", a.key, "", a.id, now, true,
                                 State(now, engine.store.runs, map[], map[]), 0);
    cursor := engine.store.runs[a.id].cursor;
    ExecuteInspection(engine, reports, c, a, cursor, now, env, db);
  }
}
