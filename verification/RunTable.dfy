/** The sync_runs table: its two unique indexes and the statements that read
    and write it. Each function is one SQL statement on the table's value; the
    class performs them in place. */
module RunTable {
  import opened Text

  datatype Status = Queued | Running | Succeeded | Partial | Failed

  /** Public error codes; PartialError is the code PARTIAL. */
  datatype Code =
    | NoError | NotConfigured | Unauthorized | RateLimited | Transient
    | PartialError | NoData | Unsupported | Internal

  /** What the single-flight index groups by. */
  datatype Flight = Flight(site: string, provider: string, capability: string)

  datatype Run = Run(flight: Flight, key: string, status: Status, cursor: string, rows: int,
                     code: Code, message: string, startedAt: string, finishedAt: Option<string>)

  type Table = map<string, Run>

  datatype Outcome = Outcome(status: Status, rows: int, cursor: string, code: Code, message: string)

  predicate IsActive(status: Status) {
    status == Queued || status == Running
  }

  const LEASE_MESSAGE := "worker lease expired"

  predicate LeaseExpired(run: Run) {
    run.status == Failed && run.code == Transient && run.message == LEASE_MESSAGE
  }

  predicate SameKey(run: Run, flight: Flight, key: string) {
    run.flight.site == flight.site && run.key == key
  }

  predicate InFlight(run: Run, flight: Flight) {
    IsActive(run.status) && run.flight == flight
  }

  /** UNIQUE (site_id, idempotency_key). */
  ghost predicate UniqueKeys(t: Table) {
    forall a, b {:trigger SameKey(t[a], t[b].flight, t[b].key)} |
      a in t && b in t && SameKey(t[a], t[b].flight, t[b].key) :: a == b
  }

  /** UNIQUE (site_id, provider, capability) WHERE status IN ('QUEUED','RUNNING'). */
  ghost predicate SingleFlight(t: Table) {
    forall a, b {:trigger InFlight(t[a], t[b].flight)} |
      a in t && b in t && IsActive(t[b].status) && InFlight(t[a], t[b].flight) :: a == b
  }

  predicate Conflicts(t: Table, flight: Flight, key: string) {
    exists id :: id in t && (SameKey(t[id], flight, key) || InFlight(t[id], flight))
  }

  /** What findConflictingRun returns: the key's run if it could be read, or else
      an active run of the flight, or else nothing. */
  ghost predicate FoundConflict(t: Table, flight: Flight, key: string, keyReadOk: bool, found: Option<string>) {
    if keyReadOk && exists k :: k in t && SameKey(t[k], flight, key)
    then found.Some? && found.value in t && SameKey(t[found.value], flight, key)
    else if exists k :: k in t && InFlight(t[k], flight)
    then found.Some? && found.value in t && InFlight(t[found.value], flight)
    else found.None?
  }

  function NewRun(flight: Flight, key: string, cursor: string, now: string): Run {
    Run(flight, key, Queued, cursor, 0, NoError, "", now, None)
  }

  function MarkRunning(t: Table, id: string, now: string): Table {
    if id in t then t[id := t[id].(status := Running, startedAt := now)] else t
  }

  function Finish(t: Table, id: string, o: Outcome, now: string): Table {
    if id in t then
      t[id := t[id].(status := o.status, rows := o.rows, cursor := o.cursor, code := o.code,
                     message := o.message, finishedAt := Some(now))]
    else t
  }

  function SetCursor(t: Table, id: string, cursor: string): Table {
    if id in t then t[id := t[id].(cursor := cursor)] else t
  }

  predicate Stale(run: Run, cutoff: string) {
    run.status == Running && Less(run.startedAt, cutoff)
  }

  function Expire(run: Run): Run {
    run.(status := Failed, code := Transient, message := LEASE_MESSAGE)
  }

  function Sweep(t: Table, cutoff: string): Table {
    map id | id in t :: if Stale(t[id], cutoff) then Expire(t[id]) else t[id]
  }

  /** ORDER BY started_at DESC LIMIT 1 within a flight; ties may go either way. */
  predicate IsLatest(t: Table, flight: Flight, id: string) {
    && id in t && t[id].flight == flight
    && forall other :: other in t && t[other].flight == flight ==> !Less(t[id].startedAt, t[other].startedAt)
  }

  /** The checkpoint a new run may resume from. */
  ghost predicate ResumesFrom(t: Table, flight: Flight, cursor: string) {
    if forall id :: id in t ==> t[id].flight != flight then cursor == ""
    else exists id :: IsLatest(t, flight, id) && cursor == (if t[id].status == Partial then t[id].cursor else "")
  }

  /** The flight's rows among `ids` have a latest one. */
  lemma {:induction false} LatestAmong(t: Table, flight: Flight, ids: set<string>) returns (latest: string)
    requires ids <= t.Keys && exists id :: id in ids && t[id].flight == flight
    ensures latest in ids && t[latest].flight == flight
    ensures forall id :: id in ids && t[id].flight == flight ==> !Less(t[latest].startedAt, t[id].startedAt)
    decreases |ids|
  {
    var id :| id in ids && t[id].flight == flight;
    LessIsStrictTotalOrder(t[id].startedAt, t[id].startedAt);
    var others := ids - {id};
    if exists other :: other in others && t[other].flight == flight {
      latest := LatestAmong(t, flight, others);
      LessIsStrictTotalOrder(t[latest].startedAt, t[id].startedAt);
      if Less(t[latest].startedAt, t[id].startedAt) {
        forall other | other in ids && t[other].flight == flight ensures !Less(t[id].startedAt, t[other].startedAt) {
          if Less(t[id].startedAt, t[other].startedAt) {
            LessTransitive(t[latest].startedAt, t[id].startedAt, t[other].startedAt);
          }
        }
        latest := id;
      }
    } else {
      latest := id;
    }
  }

  /** A row satisfying both indexes can be inserted exactly when no row conflicts. */
  lemma InsertKeepsIndexes(t: Table, id: string, run: Run)
    requires UniqueKeys(t) && SingleFlight(t) && id !in t && IsActive(run.status)
    ensures UniqueKeys(t[id := run]) && SingleFlight(t[id := run])
            <==> !Conflicts(t, run.flight, run.key)
  {
    var u := t[id := run];
    if Conflicts(t, run.flight, run.key) {
      var other :| other in t && (SameKey(t[other], run.flight, run.key) || InFlight(t[other], run.flight));
      assert u[other] == t[other] && u[id] == run && other != id;
      if SameKey(t[other], run.flight, run.key) {
        assert SameKey(u[other], u[id].flight, u[id].key);
        assert !UniqueKeys(u);
      } else {
        assert InFlight(u[other], u[id].flight);
        assert !SingleFlight(u);
      }
    } else {
      forall a, b | a in u && b in u && SameKey(u[a], u[b].flight, u[b].key) ensures a == b {
        if a == id && b != id { assert SameKey(t[b], run.flight, run.key); }
      }
      forall a, b | a in u && b in u && IsActive(u[b].status) && InFlight(u[a], u[b].flight) ensures a == b {
        if a == id && b != id { assert InFlight(t[b], run.flight); }
      }
    }
  }

  /** RUNNING would collide with another active row of the same flight. */
  predicate MarkViolates(t: Table, id: string) {
    id in t && exists other :: other in t && other != id && InFlight(t[other], t[id].flight)
  }

  lemma MarkKeepsIndexes(t: Table, id: string, now: string)
    requires UniqueKeys(t) && SingleFlight(t)
    ensures UniqueKeys(MarkRunning(t, id, now))
    ensures SingleFlight(MarkRunning(t, id, now)) <==> !MarkViolates(t, id)
  {
    var u := MarkRunning(t, id, now);
    assert forall k :: k in t ==> k in u && u[k].flight == t[k].flight && u[k].key == t[k].key;
    forall a, b | a in u && b in u && SameKey(u[a], u[b].flight, u[b].key) ensures a == b {
      assert SameKey(t[a], t[b].flight, t[b].key);
    }
    if MarkViolates(t, id) {
      var other :| other in t && other != id && InFlight(t[other], t[id].flight);
      assert InFlight(u[other], u[id].flight) && IsActive(u[id].status);
    } else {
      forall a, b | a in u && b in u && IsActive(u[b].status) && InFlight(u[a], u[b].flight) ensures a == b {
        assert a != id ==> InFlight(t[a], t[b].flight);
        assert b != id ==> InFlight(t[b], t[a].flight);
      }
    }
  }

  lemma RowChangesKeepIndexes(t: Table, u: Table)
    requires UniqueKeys(t) && SingleFlight(t) && u.Keys == t.Keys
    requires forall id :: id in t ==> u[id].flight == t[id].flight && u[id].key == t[id].key
    requires forall id :: id in t && IsActive(u[id].status) ==> IsActive(t[id].status)
    ensures UniqueKeys(u) && SingleFlight(u)
  {
    forall a, b | a in u && b in u && SameKey(u[a], u[b].flight, u[b].key) ensures a == b {
      assert SameKey(t[a], t[b].flight, t[b].key);
    }
    forall a, b | a in u && b in u && IsActive(u[b].status) && InFlight(u[a], u[b].flight) ensures a == b {
      assert InFlight(t[a], t[b].flight);
    }
  }

  class Store {
    var runs: Table

    ghost predicate Valid() reads this { UniqueKeys(runs) && SingleFlight(runs) }

    constructor ()
      ensures Valid() && runs == map[]
    {
      runs := map[];
    }

    /** INSERT, then on a unique violation the two lookups of findConflictingRun.
        A key lookup that fails, rather than finding nothing, also leads to the
        flight lookup; None is an error for the caller. */
    method CreateSyncRun(id: string, flight: Flight, key: string, cursor: string, now: string, keyReadOk: bool)
      returns (found: Option<string>, inserted: bool)
      requires Valid() && id !in runs
      modifies this
      ensures Valid()
      ensures inserted <==> !Conflicts(old(runs), flight, key)
      ensures inserted <==>
                forall k :: k in old(runs) ==>
                  && !(old(runs)[k].flight.site == flight.site && old(runs)[k].key == key)
                  && !(old(runs)[k].flight == flight && old(runs)[k].status in {Queued, Running})
      ensures inserted ==> found == Some(id) && runs == old(runs)[id := NewRun(flight, key, cursor, now)]
      ensures inserted ==> runs[id] == Run(flight, key, Queued, cursor, 0, NoError, "", now, None)
      ensures !inserted ==> runs == old(runs) && FoundConflict(runs, flight, key, keyReadOk, found)
      ensures !inserted && found.Some? ==>
                && found.value in runs && runs[found.value].flight.site == flight.site
                && (runs[found.value].key == key || (runs[found.value].flight == flight && runs[found.value].status in {Queued, Running}))
      ensures !inserted && keyReadOk ==>
                && found.Some?
                && ((exists k :: k in runs && runs[k].flight.site == flight.site && runs[k].key == key) ==> runs[found.value].key == key)
    {
      InsertKeepsIndexes(runs, id, NewRun(flight, key, cursor, now));
      if !Conflicts(runs, flight, key) {
        runs := runs[id := NewRun(flight, key, cursor, now)];
        return Some(id), true;
      }
      inserted, found := false, None;
      if keyReadOk {
        if k :| k in runs && SameKey(runs[k], flight, key) { return Some(k), false; }
      }
      if k :| k in runs && InFlight(runs[k], flight) { found := Some(k); }
    }

    method ResumeCursor(flight: Flight) returns (cursor: string)
      ensures ResumesFrom(runs, flight, cursor)
      ensures (forall id :: id in runs ==> runs[id].flight != flight) ==> cursor == ""
      ensures cursor != "" ==>
                exists id :: && id in runs && runs[id].flight == flight && runs[id].status == Partial && runs[id].cursor == cursor
                             && forall k :: k in runs && runs[k].flight == flight ==> !Less(runs[id].startedAt, runs[k].startedAt)
    {
      if exists id :: id in runs && runs[id].flight == flight {
        ghost var latest := LatestAmong(runs, flight, runs.Keys);
        assert IsLatest(runs, flight, latest);
        var id :| id in runs && IsLatest(runs, flight, id);
        return if runs[id].status == Partial then runs[id].cursor else "";
      }
      cursor := "";
    }

    method SetRunCursor(id: string, cursor: string)
      requires Valid()
      modifies this
      ensures Valid() && runs == SetCursor(old(runs), id, cursor)
      ensures runs == if id in old(runs) then old(runs)[id := old(runs)[id].(cursor := cursor)] else old(runs)
    {
      RowChangesKeepIndexes(runs, SetCursor(runs, id, cursor));
      runs := SetCursor(runs, id, cursor);
    }

    /** The UPDATE has no status guard; only the single-flight index can refuse it. */
    method MarkRunRunning(id: string, now: string) returns (violation: bool)
      requires Valid()
      modifies this
      ensures Valid()
      ensures violation <==> MarkViolates(old(runs), id)
      ensures violation <==>
                && id in old(runs)
                && (exists k :: && k in old(runs) && k != id && old(runs)[k].flight == old(runs)[id].flight
                                && old(runs)[k].status in {Queued, Running})
      ensures !violation && id in old(runs) ==> id in runs && runs[id] == old(runs)[id].(status := Running, startedAt := now)
      ensures runs == if violation then old(runs) else MarkRunning(old(runs), id, now)
    {
      violation := MarkViolates(runs, id);
      if !violation {
        MarkKeepsIndexes(runs, id, now);
        runs := MarkRunning(runs, id, now);
      }
    }

    method FinishRun(id: string, o: Outcome, now: string)
      requires Valid() && !IsActive(o.status)
      modifies this
      ensures Valid() && runs == Finish(old(runs), id, o, now)
      ensures runs.Keys == old(runs).Keys && forall k :: k in runs && k != id ==> runs[k] == old(runs)[k]
      ensures id in runs ==>
                && runs[id].status == o.status && runs[id].rows == o.rows && runs[id].cursor == o.cursor
                && runs[id].code == o.code && runs[id].message == o.message && runs[id].finishedAt == Some(now)
                && runs[id].flight == old(runs)[id].flight && runs[id].key == old(runs)[id].key
                && runs[id].startedAt == old(runs)[id].startedAt
    {
      RowChangesKeepIndexes(runs, Finish(runs, id, o, now));
      runs := Finish(runs, id, o, now);
    }

    method RequeueStaleRuns(cutoff: string) returns (count: nat)
      requires Valid()
      modifies this
      ensures Valid() && runs.Keys == old(runs).Keys
      ensures forall id :: id in runs ==>
                runs[id] == if Stale(old(runs)[id], cutoff) then Expire(old(runs)[id]) else old(runs)[id]
      ensures forall id :: id in runs ==>
                if old(runs)[id].status == Running && Less(old(runs)[id].startedAt, cutoff)
                then runs[id] == old(runs)[id].(status := Failed, code := Transient, message := "worker lease expired")
                else runs[id] == old(runs)[id]
      ensures count == |set id | id in old(runs) && Stale(old(runs)[id], cutoff)|
    {
      count := |set id | id in runs && Stale(runs[id], cutoff)|;
      RowChangesKeepIndexes(runs, Sweep(runs, cutoff));
      runs := Sweep(runs, cutoff);
    }
  }
}
