/** Chains of URL inspection runs: each run is created, marked, executed and
    finished, and the next one resumes from the newest row of its flight. */
module Resume {
  import opened Text
  import opened RunTable
  import opened Outcomes
  import opened Reports
  import opened Inspection

  /** A fixed sitemap, batch size and provider behind one flight. */
  datatype Setup = Setup(flight: Flight, dataset: string, urls: seq<string>, batch: nat, inspect: string -> Verdict)

  /** One Create: its id and key, and the timestamps it leaves. */
  datatype Attempt = Attempt(id: string, key: string, queued: string, started: string, wrote: string, finished: string)

  datatype DB = DB(runs: Table, reports: Rows)

  /** What the provider returns to the engine. */
  function ResultOf(report: Report): SyncResult {
    SyncResult(report.rows, report.cursor, if report.failure.None? then None else Some(Classified(report.failure.value, "")))
  }

  /** What the engine's finish makes of it. */
  function Ending(report: Report): Outcome {
    OutcomeOf(ResultOf(report))
  }

  /** CreateSyncRun, MarkRunRunning, the writes of Sync, FinishRun. */
  function Executed(c: Setup, db: DB, a: Attempt, cursor: string, report: Report): DB {
    var queued := db.runs[a.id := NewRun(c.flight, a.key, cursor, a.queued)];
    var running := MarkRunning(queued, a.id, a.started);
    var pointed := if report.checkpoint.Some? then SetCursor(running, a.id, report.checkpoint.value) else running;
    DB(Finish(pointed, a.id, Ending(report), a.finished),
       Apply(db.reports, c.flight.site, c.dataset, report.written, a.wrote))
  }

  function RunOnce(c: Setup, db: DB, a: Attempt, cursor: string, sink: Sink): DB {
    Executed(c, db, a, cursor, Inspect(c.urls, cursor, c.batch, c.inspect, sink))
  }

  /** The URLs a run passes to the provider. */
  function Calls(c: Setup, cursor: string): seq<string> {
    Inspected(c.urls, cursor, c.batch, c.inspect)
  }

  /** A run that the table admits and that starts after every earlier one. */
  ghost predicate Starts(c: Setup, db: DB, a: Attempt) {
    && a.id !in db.runs && !Conflicts(db.runs, c.flight, a.key)
    && forall id :: id in db.runs && db.runs[id].flight == c.flight ==> Less(db.runs[id].startedAt, a.started)
  }

  /** One admitted run, from the checkpoint it finds, with every write succeeding. */
  ghost predicate Step(c: Setup, db: DB, a: Attempt, cursor: string, after: DB) {
    Starts(c, db, a) && ResumesFrom(db.runs, c.flight, cursor) && after == RunOnce(c, db, a, cursor, Sink(true, true))
  }

  /** Runs one after the other. */
  ghost predicate Chain(c: Setup, states: seq<DB>, attempts: seq<Attempt>, cursors: seq<string>) {
    && |states| == |attempts| + 1 && |cursors| == |attempts|
    && forall i :: 0 <= i < |attempts| ==> Step(c, states[i], attempts[i], cursors[i], states[i + 1])
  }

  function RowOf(c: Setup, a: Attempt, o: Outcome): Run {
    Run(c.flight, a.key, o.status, o.cursor, o.rows, o.code, o.message, a.started, Some(a.finished))
  }

  lemma RowLeft(c: Setup, db: DB, a: Attempt, cursor: string, report: Report)
    requires a.id !in db.runs
    ensures Executed(c, db, a, cursor, report).runs == db.runs[a.id := RowOf(c, a, Ending(report))]
  {
  }

  /** The newest row alone decides where the next run resumes. */
  lemma NewestDecides(c: Setup, db: DB, a: Attempt, run: Run, cursor: string)
    requires Starts(c, db, a) && run.flight == c.flight && run.startedAt == a.started
    ensures ResumesFrom(db.runs[a.id := run], c.flight, cursor)
            <==> cursor == if run.status == Partial then run.cursor else ""
  {
    var t := db.runs[a.id := run];
    forall id | id in t && t[id].flight == c.flight && id != a.id
      ensures !IsLatest(t, c.flight, id) && !Less(a.started, t[id].startedAt)
    {
      assert Less(t[id].startedAt, t[a.id].startedAt);
      LessIsStrictTotalOrder(t[id].startedAt, a.started);
    }
    LessIsStrictTotalOrder(a.started, a.started);
    assert IsLatest(t, c.flight, a.id);
  }

  /** After a run the flight is idle again: a later run with another key is admitted. */
  lemma FlightIsFreeAgain(c: Setup, db: DB, a: Attempt, cursor: string, sink: Sink, key: string)
    requires a.id !in db.runs && !Conflicts(db.runs, c.flight, a.key) && !Conflicts(db.runs, c.flight, key) && key != a.key
    ensures !Conflicts(RunOnce(c, db, a, cursor, sink).runs, c.flight, key)
  {
    RowLeft(c, db, a, cursor, Inspect(c.urls, cursor, c.batch, c.inspect, sink));
  }

  /** Any run that ends FAILED or SUCCEEDED makes the next one start from zero. */
  lemma OnlyPartialResumes(c: Setup, db: DB, a: Attempt, cursor: string, sink: Sink, next: string)
    requires Starts(c, db, a)
    ensures var report := Inspect(c.urls, cursor, c.batch, c.inspect, sink);
            ResumesFrom(RunOnce(c, db, a, cursor, sink).runs, c.flight, next)
            <==> next == if report.failure == Some(PartialError) then report.cursor else ""
  {
    var report := Inspect(c.urls, cursor, c.batch, c.inspect, sink);
    RowLeft(c, db, a, cursor, report);
    NewestDecides(c, db, a, RowOf(c, a, Ending(report)), next);
  }

  // ----- Covering the sitemap -----

  function CursorAt(done: nat, n: nat): string {
    if 0 < done < n then Itoa(done) else ""
  }

  /** The next run can only resume after the first `done` URLs. */
  ghost predicate ResumesAt(c: Setup, db: DB, done: nat) {
    forall cursor :: ResumesFrom(db.runs, c.flight, cursor) ==> cursor == CursorAt(done, |c.urls|)
  }

  ghost predicate Sound(c: Setup) {
    && Distinct(c.urls) && 0 < |c.urls| <= MAX_INT && c.batch > 0
    && forall u :: u in c.urls ==> !c.inspect(u).Error?
  }

  lemma CursorAtIsRead(done: nat, n: nat)
    requires done < n <= MAX_INT
    ensures Offset(CursorAt(done, n), n) == Some(done)
  {
    CursorRoundTrip(done);
  }

  /** What a run reports when every call of its window succeeds. */
  lemma BatchReport(c: Setup, done: nat)
    requires Sound(c) && done < |c.urls|
    ensures var next := End(done, c.batch, |c.urls|);
            var cursor, window := CursorAt(done, |c.urls|), c.urls[done..next];
            && Calls(c, cursor) == window
            && var report := Inspect(c.urls, cursor, c.batch, c.inspect, Sink(true, true));
               && report.written == RowsOf(window, c.inspect)
               && report.failure == (if next < |c.urls| then Some(PartialError) else None)
               && report.cursor == CursorAt(next, |c.urls|)
  {
    var next := End(done, c.batch, |c.urls|);
    var window := c.urls[done..next];
    CursorAtIsRead(done, |c.urls|);
    forall i | 0 <= i < |window| ensures !c.inspect(window[i]).Error? {
      assert window[i] in c.urls;
    }
    SuccessesAre(window, c.inspect, |window|);
    assert window[..|window|] == window;
  }

  lemma BatchRow(c: Setup, db: DB, a: Attempt, cursor: string, report: Report)
    requires a.id !in db.runs
    ensures var after := Executed(c, db, a, cursor, report);
            && a.id in after.runs && after.runs[a.id].status == Ending(report).status
            && after.reports == Apply(db.reports, c.flight.site, c.dataset, report.written, a.wrote)
  {
    RowLeft(c, db, a, cursor, report);
  }

  lemma BatchCheckpoint(c: Setup, db: DB, a: Attempt, done: nat)
    requires Sound(c) && Starts(c, db, a) && done < |c.urls| && End(done, c.batch, |c.urls|) < |c.urls|
    ensures ResumesAt(c, RunOnce(c, db, a, CursorAt(done, |c.urls|), Sink(true, true)), End(done, c.batch, |c.urls|))
  {
    var cursor := CursorAt(done, |c.urls|);
    BatchReport(c, done);
    forall k | ResumesFrom(RunOnce(c, db, a, cursor, Sink(true, true)).runs, c.flight, k)
      ensures k == CursorAt(End(done, c.batch, |c.urls|), |c.urls|)
    {
      OnlyPartialResumes(c, db, a, cursor, Sink(true, true), k);
    }
  }

  /** What one run of a chain does to the checkpoint, its row and the reports. */
  lemma StepFrom(c: Setup, db: DB, a: Attempt, cursor: string, after: DB, done: nat)
    requires Sound(c) && done < |c.urls| && ResumesAt(c, db, done) && Step(c, db, a, cursor, after)
    ensures var next := End(done, c.batch, |c.urls|);
            && Calls(c, cursor) == c.urls[done..next]
            && a.id in after.runs && after.runs[a.id].status == (if next < |c.urls| then Partial else Succeeded)
            && (next < |c.urls| ==> ResumesAt(c, after, next))
            && after.reports == Apply(db.reports, c.flight.site, c.dataset, RowsOf(c.urls[done..next], c.inspect), a.wrote)
  {
    assert cursor == CursorAt(done, |c.urls|);
    BatchReport(c, done);
    BatchRow(c, db, a, cursor, Inspect(c.urls, cursor, c.batch, c.inspect, Sink(true, true)));
    if End(done, c.batch, |c.urls|) < |c.urls| { BatchCheckpoint(c, db, a, done); }
  }

  lemma StepKeepsRows(c: Setup, db: DB, a: Attempt, cursor: string, after: DB, id: string)
    requires Step(c, db, a, cursor, after) && id in db.runs
    ensures id in after.runs && after.runs[id] == db.runs[id]
  {
    RowLeft(c, db, a, cursor, Inspect(c.urls, cursor, c.batch, c.inspect, Sink(true, true)));
  }

  lemma {:induction false} ChainKeepsRows(c: Setup, states: seq<DB>, attempts: seq<Attempt>, cursors: seq<string>,
                                          i: nat, j: nat, id: string)
    requires Chain(c, states, attempts, cursors) && i <= j <= |attempts| && id in states[i].runs
    ensures id in states[j].runs && states[j].runs[id] == states[i].runs[id]
    decreases j
  {
    if i < j {
      ChainKeepsRows(c, states, attempts, cursors, i, j - 1, id);
      StepKeepsRows(c, states[j - 1], attempts[j - 1], cursors[j - 1], states[j], id);
    }
  }

  /** i full batches, at most all n URLs. */
  function Done(i: nat, batch: nat, n: nat): (d: nat)
    ensures d <= n
  {
    if i == 0 then 0 else End(Done(i - 1, batch, n), batch, n)
  }

  lemma {:induction false} DoneIsProduct(i: nat, batch: nat, n: nat)
    ensures Done(i, batch, n) == if i * batch < n then i * batch else n
  {
    if i > 0 {
      DoneIsProduct(i - 1, batch, n);
      assert i * batch == (i - 1) * batch + batch;
    }
  }

  /** Every run of a fresh chain resumes where the batches before it ended. */
  lemma {:induction false} Checkpoints(c: Setup, states: seq<DB>, attempts: seq<Attempt>, cursors: seq<string>, i: nat)
    requires Sound(c) && Chain(c, states, attempts, cursors) && ResumesAt(c, states[0], 0)
    requires i <= |attempts| && Done(i, c.batch, |c.urls|) < |c.urls|
    ensures ResumesAt(c, states[i], Done(i, c.batch, |c.urls|))
  {
    if i > 0 {
      Checkpoints(c, states, attempts, cursors, i - 1);
      StepFrom(c, states[i - 1], attempts[i - 1], cursors[i - 1], states[i], Done(i - 1, c.batch, |c.urls|));
    }
  }

  function AllCalls(c: Setup, cursors: seq<string>): seq<string>
    decreases |cursors|
  {
    if cursors == [] then [] else AllCalls(c, cursors[..|cursors| - 1]) + Calls(c, cursors[|cursors| - 1])
  }

  lemma CallsAppend(c: Setup, before: seq<string>, cursor: string)
    ensures AllCalls(c, before + [cursor]) == AllCalls(c, before) + Calls(c, cursor)
  {
    assert (before + [cursor])[..|before|] == before;
  }

  lemma SlicesJoin(s: seq<string>, a: nat, b: nat)
    requires a <= b <= |s|
    ensures s[..a] + s[a..b] == s[..b]
  {
  }

  lemma CallsGrow(c: Setup, before: seq<string>, cursor: string, done: nat, next: nat)
    requires done <= next <= |c.urls| && AllCalls(c, before) == c.urls[..done] && Calls(c, cursor) == c.urls[done..next]
    ensures AllCalls(c, before + [cursor]) == c.urls[..next]
  {
    CallsAppend(c, before, cursor);
    SlicesJoin(c.urls, done, next);
  }

  lemma OneMore(s: seq<string>, i: nat)
    requires 0 < i <= |s|
    ensures s[..i - 1] + [s[i - 1]] == s[..i]
  {
  }

  lemma CallsStep(c: Setup, cursors: seq<string>, i: nat, done: nat, next: nat)
    requires 0 < i <= |cursors| && done <= next <= |c.urls|
    requires AllCalls(c, cursors[..i - 1]) == c.urls[..done] && Calls(c, cursors[i - 1]) == c.urls[done..next]
    ensures AllCalls(c, cursors[..i]) == c.urls[..next]
  {
    CallsGrow(c, cursors[..i - 1], cursors[i - 1], done, next);
    OneMore(cursors, i);
  }

  lemma {:induction false} CallsSoFar(c: Setup, states: seq<DB>, attempts: seq<Attempt>, cursors: seq<string>, i: nat)
    requires Sound(c) && Chain(c, states, attempts, cursors) && ResumesAt(c, states[0], 0)
    requires i <= |attempts| && (i > 0 ==> Done(i - 1, c.batch, |c.urls|) < |c.urls|)
    ensures AllCalls(c, cursors[..i]) == c.urls[..Done(i, c.batch, |c.urls|)]
  {
    if i > 0 {
      var done := Done(i - 1, c.batch, |c.urls|);
      CallsSoFar(c, states, attempts, cursors, i - 1);
      Checkpoints(c, states, attempts, cursors, i - 1);
      StepFrom(c, states[i - 1], attempts[i - 1], cursors[i - 1], states[i], done);
      CallsStep(c, cursors, i, done, Done(i, c.batch, |c.urls|));
    }
  }

  // ----- What is stored -----

  /** The first n URLs with an index status are stored with it; no other row of
      any site or dataset differs from the table the chain began with. */
  ghost predicate Recorded(c: Setup, base: Rows, t: Rows, n: nat)
    requires n <= |c.urls|
  {
    forall id: RowId ::
      if id.site == c.flight.site && id.dataset == c.dataset && id.key in c.urls[..n] && c.inspect(id.key).Indexed?
      then id in t && t[id].data == c.inspect(id.key).status
      else (id in t <==> id in base) && (id in t ==> t[id] == base[id])
  }

  lemma {:induction false} LastRowOf(urls: seq<string>, inspect: string -> Verdict, key: string)
    ensures var last := LastWith(RowsOf(urls, inspect), key);
            if key in urls && inspect(key).Indexed? then last == Some(Input(key, inspect(key).status, true)) else last.None?
    decreases |urls|
  {
    if urls != [] {
      var n := |urls| - 1;
      LastRowOf(urls[..n], inspect, key);
      assert key in urls <==> key in urls[..n] || key == urls[n] by { assert urls == urls[..n] + [urls[n]]; }
      var before, rows := RowsOf(urls[..n], inspect), RowsOf(urls, inspect);
      if inspect(urls[n]).Indexed? {
        assert rows == before + [Input(urls[n], inspect(urls[n]).status, true)];
        assert rows[..|rows| - 1] == before;
      } else {
        assert rows == before;
      }
    }
  }

  /** A batch of inspected URLs stores each of them that has an index status, and
      leaves every other row of every site and dataset alone. */
  lemma InspectedRowsLand(t: Rows, site: string, dataset: string, urls: seq<string>, inspect: string -> Verdict, now: string, id: RowId)
    ensures var u := Apply(t, site, dataset, RowsOf(urls, inspect), now);
            if id.site == site && id.dataset == dataset && id.key in urls && inspect(id.key).Indexed?
            then id in u && u[id] == Stored(inspect(id.key).status, now)
            else (id in u <==> id in t) && (id in u ==> u[id] == t[id])
  {
    LastDuplicateWins(t, site, dataset, RowsOf(urls, inspect), now, id);
    LastRowOf(urls, inspect, id.key);
  }

  lemma RecordBatch(c: Setup, base: Rows, t: Rows, done: nat, next: nat, now: string)
    requires done <= next <= |c.urls| && Recorded(c, base, t, done)
    ensures Recorded(c, base, Apply(t, c.flight.site, c.dataset, RowsOf(c.urls[done..next], c.inspect), now), next)
  {
    var window := c.urls[done..next];
    var u := Apply(t, c.flight.site, c.dataset, RowsOf(window, c.inspect), now);
    assert c.urls[..next] == c.urls[..done] + window;
    forall id: RowId
      ensures if id.site == c.flight.site && id.dataset == c.dataset && id.key in c.urls[..next] && c.inspect(id.key).Indexed?
              then id in u && u[id].data == c.inspect(id.key).status
              else (id in u <==> id in base) && (id in u ==> u[id] == base[id])
    {
      InspectedRowsLand(t, c.flight.site, c.dataset, window, c.inspect, now, id);
    }
  }

  /** After a run that fails at f, the URLs of its batch before f that have an
      index status are stored with it, and nothing else has changed. */
  lemma FailingRunRecords(c: Setup, db: DB, a: Attempt, cursor: string, checkpointOk: bool, f: nat, id: RowId)
    requires |c.urls| <= MAX_INT && FailsAt(c.urls, cursor, c.batch, c.inspect, f)
    ensures var o := Offset(cursor, |c.urls|).value;
            var t := RunOnce(c, db, a, cursor, Sink(true, checkpointOk)).reports;
            if id.site == c.flight.site && id.dataset == c.dataset && id.key in c.urls[o..f] && c.inspect(id.key).Indexed?
            then id in t && t[id] == Stored(c.inspect(id.key).status, a.wrote)
            else (id in t <==> id in db.reports) && (id in t ==> t[id] == db.reports[id])
  {
    FailingRunReports(c.urls, cursor, c.batch, c.inspect, Sink(true, checkpointOk), f);
    InspectedRowsLand(db.reports, c.flight.site, c.dataset, c.urls[Offset(cursor, |c.urls|).value..f], c.inspect, a.wrote, id);
  }

  lemma {:induction false} ChainRecords(c: Setup, states: seq<DB>, attempts: seq<Attempt>, cursors: seq<string>, i: nat)
    requires Sound(c) && Chain(c, states, attempts, cursors) && ResumesAt(c, states[0], 0)
    requires i <= |attempts| && (i > 0 ==> Done(i - 1, c.batch, |c.urls|) < |c.urls|)
    ensures Recorded(c, states[0].reports, states[i].reports, Done(i, c.batch, |c.urls|))
  {
    if i > 0 {
      var done := Done(i - 1, c.batch, |c.urls|);
      ChainRecords(c, states, attempts, cursors, i - 1);
      Checkpoints(c, states, attempts, cursors, i - 1);
      StepFrom(c, states[i - 1], attempts[i - 1], cursors[i - 1], states[i], done);
      RecordBatch(c, states[0].reports, states[i - 1].reports, done, Done(i, c.batch, |c.urls|), attempts[i - 1].wrote);
    }
  }

  /** The row a run of a fresh chain leaves, for good. */
  lemma StatusLeft(c: Setup, states: seq<DB>, attempts: seq<Attempt>, cursors: seq<string>, i: nat)
    requires Sound(c) && Chain(c, states, attempts, cursors) && ResumesAt(c, states[0], 0)
    requires i < |attempts| && Done(i, c.batch, |c.urls|) < |c.urls|
    ensures attempts[i].id in states[|attempts|].runs
    ensures states[|attempts|].runs[attempts[i].id].status ==
              if Done(i + 1, c.batch, |c.urls|) < |c.urls| then Partial else Succeeded
  {
    Checkpoints(c, states, attempts, cursors, i);
    StepFrom(c, states[i], attempts[i], cursors[i], states[i + 1], Done(i, c.batch, |c.urls|));
    ChainKeepsRows(c, states, attempts, cursors, i + 1, |attempts|, attempts[i].id);
  }

  lemma {:induction false} FullBatches(i: nat, k: nat, batch: nat)
    requires i <= k
    ensures i * batch <= k * batch
  {
    if i < k {
      FullBatches(i, k - 1, batch);
      assert k * batch == (k - 1) * batch + batch;
    }
  }

  lemma StillOpen(i: nat, k: nat, batch: nat, n: nat)
    requires i < k && k * batch < n + batch
    ensures Done(i, batch, n) < n
  {
    DoneIsProduct(i, batch, n);
    FullBatches(i + 1, k, batch);
    assert (i + 1) * batch == i * batch + batch;
  }

  /** k is ceil(n / batch). */
  predicate IsCeiling(k: nat, n: nat, batch: nat) {
    n <= k * batch < n + batch
  }

  /** ceil(n / batch) batches reach the end, and no fewer do. */
  lemma CeilingCovers(k: nat, n: nat, batch: nat)
    requires IsCeiling(k, n, batch)
    ensures Done(k, batch, n) == n && forall i: nat :: i < k ==> Done(i, batch, n) < n
  {
    DoneIsProduct(k, batch, n);
    forall i: nat | i < k ensures Done(i, batch, n) < n { StillOpen(i, k, batch, n); }
  }

  /** A first chain of ceil(n / batch) runs: nothing to resume from at its start. */
  ghost predicate Fresh(c: Setup, states: seq<DB>, attempts: seq<Attempt>, cursors: seq<string>) {
    && Sound(c) && Chain(c, states, attempts, cursors) && ResumesAt(c, states[0], 0)
    && IsCeiling(|attempts|, |c.urls|, c.batch)
  }

  lemma FreshStatus(c: Setup, states: seq<DB>, attempts: seq<Attempt>, cursors: seq<string>, i: nat)
    requires Fresh(c, states, attempts, cursors) && i < |attempts|
    ensures attempts[i].id in states[|attempts|].runs
    ensures states[|attempts|].runs[attempts[i].id].status == if i < |attempts| - 1 then Partial else Succeeded
  {
    CeilingCovers(|attempts|, |c.urls|, c.batch);
    StatusLeft(c, states, attempts, cursors, i);
  }

  lemma FreshCalls(c: Setup, states: seq<DB>, attempts: seq<Attempt>, cursors: seq<string>)
    requires Fresh(c, states, attempts, cursors)
    ensures AllCalls(c, cursors) == c.urls
  {
    CeilingCovers(|attempts|, |c.urls|, c.batch);
    CallsSoFar(c, states, attempts, cursors, |attempts|);
    assert cursors[..|attempts|] == cursors && c.urls[..|c.urls|] == c.urls;
  }

  /** A fresh chain over n URLs takes exactly ceil(n / batch) runs: all PARTIAL
      but the last, together they inspect each URL once and in order, and they
      leave one row per URL with an index status and touch nothing else. */
  lemma FreshChain(c: Setup, states: seq<DB>, attempts: seq<Attempt>, cursors: seq<string>)
    requires Fresh(c, states, attempts, cursors)
    ensures forall i :: 0 <= i < |attempts| ==>
              && attempts[i].id in states[|attempts|].runs
              && states[|attempts|].runs[attempts[i].id].status == if i < |attempts| - 1 then Partial else Succeeded
    ensures AllCalls(c, cursors) == c.urls
    ensures Recorded(c, states[0].reports, states[|attempts|].reports, |c.urls|)
  {
    forall i | 0 <= i < |attempts|
      ensures attempts[i].id in states[|attempts|].runs
      ensures states[|attempts|].runs[attempts[i].id].status == if i < |attempts| - 1 then Partial else Succeeded
    {
      FreshStatus(c, states, attempts, cursors, i);
    }
    FreshCalls(c, states, attempts, cursors);
    CeilingCovers(|attempts|, |c.urls|, c.batch);
    ChainRecords(c, states, attempts, cursors, |attempts|);
  }

  // ----- Such chains exist -----

  /** An idle flight, and attempts with new ids and keys and ever later starts. */
  ghost predicate Admissible(c: Setup, db: DB, attempts: seq<Attempt>) {
    && (forall id :: id in db.runs ==> !InFlight(db.runs[id], c.flight))
    && (forall i :: 0 <= i < |attempts| ==> Starts(c, db, attempts[i]))
    && (forall i, j :: 0 <= i < j < |attempts| ==> Follows(attempts[i], attempts[j]))
  }

  predicate Follows(a: Attempt, b: Attempt) {
    a.id != b.id && a.key != b.key && Less(a.started, b.started)
  }

  lemma SomeCheckpoint(t: Table, flight: Flight) returns (cursor: string)
    ensures ResumesFrom(t, flight, cursor)
  {
    if forall id :: id in t ==> t[id].flight != flight { return ""; }
    var latest := LatestAmong(t, flight, t.Keys);
    assert IsLatest(t, flight, latest);
    cursor := if t[latest].status == Partial then t[latest].cursor else "";
  }

  lemma StillStarts(c: Setup, db: DB, a: Attempt, after: DB, b: Attempt, o: Outcome)
    requires Starts(c, db, a) && Starts(c, db, b) && Follows(a, b) && !IsActive(o.status)
    requires after.runs == db.runs[a.id := RowOf(c, a, o)]
    ensures Starts(c, after, b)
  {
  }

  lemma StillAdmissible(c: Setup, db: DB, attempts: seq<Attempt>, cursor: string)
    requires Admissible(c, db, attempts) && attempts != []
    ensures Admissible(c, RunOnce(c, db, attempts[0], cursor, Sink(true, true)), attempts[1..])
  {
    var a, after := attempts[0], RunOnce(c, db, attempts[0], cursor, Sink(true, true));
    var report := Inspect(c.urls, cursor, c.batch, c.inspect, Sink(true, true));
    RowLeft(c, db, a, cursor, report);
    forall i | 0 <= i < |attempts[1..]| ensures Starts(c, after, attempts[1..][i]) {
      StillStarts(c, db, a, after, attempts[i + 1], Ending(report));
    }
    forall i, j | 0 <= i < j < |attempts[1..]| ensures Follows(attempts[1..][i], attempts[1..][j]) {
      assert Follows(attempts[i + 1], attempts[j + 1]);
    }
  }

  lemma ChainGrows(c: Setup, db: DB, attempts: seq<Attempt>, cursor: string, states: seq<DB>, cursors: seq<string>)
    requires attempts != [] && Chain(c, states, attempts[1..], cursors)
    requires Step(c, db, attempts[0], cursor, states[0])
    ensures Chain(c, [db] + states, attempts, [cursor] + cursors)
  {
    var all, marks := [db] + states, [cursor] + cursors;
    forall i | 0 <= i < |attempts| ensures Step(c, all[i], attempts[i], marks[i], all[i + 1]) {
      if i > 0 { assert Step(c, states[i - 1], attempts[1..][i - 1], cursors[i - 1], states[i]); }
    }
  }

  /** Every admissible sequence of attempts can be carried out. */
  lemma {:induction false} ChainExists(c: Setup, db: DB, attempts: seq<Attempt>) returns (states: seq<DB>, cursors: seq<string>)
    requires Admissible(c, db, attempts)
    ensures Chain(c, states, attempts, cursors) && states[0] == db
    decreases |attempts|
  {
    if attempts == [] { return [db], []; }
    var cursor := SomeCheckpoint(db.runs, c.flight);
    var after := RunOnce(c, db, attempts[0], cursor, Sink(true, true));
    StillAdmissible(c, db, attempts, cursor);
    states, cursors := ChainExists(c, after, attempts[1..]);
    ChainGrows(c, db, attempts, cursor, states, cursors);
    states, cursors := [db] + states, [cursor] + cursors;
  }

  /** On a flight without rows, ceil(n / batch) admissible attempts are a fresh chain. */
  lemma FreshChainExists(c: Setup, db: DB, attempts: seq<Attempt>) returns (states: seq<DB>, cursors: seq<string>)
    requires Sound(c) && Admissible(c, db, attempts) && IsCeiling(|attempts|, |c.urls|, c.batch)
    requires forall id :: id in db.runs ==> db.runs[id].flight != c.flight
    ensures Fresh(c, states, attempts, cursors) && states[0] == db
  {
    states, cursors := ChainExists(c, db, attempts);
  }

  // ----- Failing calls -----

  /** A run that meets a failing call: its cursor stays at or before that URL,
      and unless the error itself is PARTIAL the next run starts from zero. */
  lemma FailureRestarts(c: Setup, db: DB, a: Attempt, cursor: string, sink: Sink, f: nat, next: string)
    requires Starts(c, db, a) && |c.urls| <= MAX_INT && FailsAt(c.urls, cursor, c.batch, c.inspect, f)
    ensures var runs := RunOnce(c, db, a, cursor, sink).runs;
            && a.id in runs && runs[a.id].code == c.inspect(c.urls[f]).code
            && Offset(runs[a.id].cursor, |c.urls|).Some? && Offset(runs[a.id].cursor, |c.urls|).value <= f
            && (runs[a.id].code != PartialError ==> (ResumesFrom(runs, c.flight, next) <==> next == ""))
  {
    CursorNeverPassesFailure(c.urls, cursor, c.batch, c.inspect, sink, f);
    RowLeft(c, db, a, cursor, Inspect(c.urls, cursor, c.batch, c.inspect, sink));
    OnlyPartialResumes(c, db, a, cursor, sink, next);
  }
}
