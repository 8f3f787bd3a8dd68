/** The answers to sync requests, over every history: one run per idempotency
    key, and exactly when a request is answered with it. */
module RunAnswers {
  import opened Text
  import Timestamps
  import opened RunTable
  import opened RunProtocol
  import opened RunHistory
  import opened RunSafety

  /** The run a (site, key) pair names, once there is one. */
  predicate Named(s: State, q: Request, id: string) {
    id in s.runs && SameKey(s.runs[id], q.flight, q.key)
  }

  /** From here the request can only be answered with run id, unless its lookup
      of the key fails. */
  predicate BoundTo(s: State, r: nat, id: string) {
    && r in s.requests && Named(s, s.requests[r], id)
    && s.requests[r].stage in {Inserting, ByKey, Answered(Existing(id))}
  }

  predicate KeyLookupFails(events: seq<Event>, r: nat)
    decreases |events|
  {
    events != [] && (events[0] == LookByKeyFails(r) || KeyLookupFails(events[1..], r))
  }

  // ----- What a request asked for, and its answer, stay -----

  lemma {:induction false} RequestStays(cfg: Deployment, s: State, events: seq<Event>, t: State, r: nat)
    requires Path(cfg, s, events, t) && r in s.requests
    ensures r in t.requests && t.requests[r].flight == s.requests[r].flight && t.requests[r].key == s.requests[r].key
    decreases |events|
  {
    if events != [] { RequestStays(cfg, Next(cfg, s, events[0]), events[1..], t, r); }
  }

  lemma {:induction false} AnswerIsFinal(cfg: Deployment, s: State, events: seq<Event>, t: State, r: nat)
    requires Path(cfg, s, events, t) && r in s.requests && s.requests[r].stage.Answered?
    ensures r in t.requests && t.requests[r] == s.requests[r]
    ensures !KeyLookupFails(events, r) && forall id :: !ActiveAtLookup(cfg, s, events, r, id)
    decreases |events|
  {
    if events != [] { AnswerIsFinal(cfg, Next(cfg, s, events[0]), events[1..], t, r); }
  }

  // ----- Answers to a known key -----

  lemma StepKeepsBound(cfg: Deployment, s: State, e: Event, r: nat, id: string)
    requires Inv(cfg, s) && Enabled(cfg, s, e) && BoundTo(s, r, id) && e != LookByKeyFails(r)
    ensures BoundTo(Next(cfg, s, e), r, id)
  {
    StepLives(cfg, s, e, id);
    if e.LookByKey? && e.r == r && e.found.Some? {
      assert SameKey(s.runs[e.found.value], s.runs[id].flight, s.runs[id].key);
    }
  }

  /** A request, already made or made at any later time, whose key id bears. */
  ghost predicate Asks(s: State, t: State, r: nat, id: string) {
    && r in t.requests && id in s.runs
    && s.runs[id].flight.site == t.requests[r].flight.site && s.runs[id].key == t.requests[r].key
    && (r in s.requests ==> BoundTo(s, r, id))
  }

  lemma StepKeepsAsks(cfg: Deployment, s: State, e: Event, events: seq<Event>, t: State, r: nat, id: string)
    requires Inv(cfg, s) && Enabled(cfg, s, e) && Path(cfg, Next(cfg, s, e), events, t)
    requires Asks(s, t, r, id) && e != LookByKeyFails(r)
    ensures Asks(Next(cfg, s, e), t, r, id)
  {
    var u := Next(cfg, s, e);
    StepLives(cfg, s, e, id);
    if r in s.requests { StepKeepsBound(cfg, s, e, r, id); }
    else if r in u.requests { RequestStays(cfg, u, events, t, r); }
  }

  /** Once a run exists for (site, key), every request with that key, pending or
      still to come, can only be answered with that run, for ever, unless its own
      lookup of the key fails. */
  lemma {:induction false} KeyIsAnsweredForever(cfg: Deployment, s: State, events: seq<Event>, t: State, r: nat, id: string)
    requires Inv(cfg, s) && Path(cfg, s, events, t) && Asks(s, t, r, id) && !KeyLookupFails(events, r)
    ensures BoundTo(t, r, id)
    decreases |events|
  {
    if events != [] {
      StepKeepsInv(cfg, s, events[0]);
      StepKeepsAsks(cfg, s, events[0], events[1..], t, r, id);
      KeyIsAnsweredForever(cfg, Next(cfg, s, events[0]), events[1..], t, r, id);
    }
  }

  /** Run id was active in the request's flight when that was looked up. */
  ghost predicate ActiveAtLookup(cfg: Deployment, s: State, events: seq<Event>, r: nat, id: string)
    decreases |events|
  {
    events != [] && Enabled(cfg, s, events[0]) &&
    var e := events[0];
    || (e.LookByFlight? && e.r == r && id in s.runs && InFlight(s.runs[id], s.requests[r].flight))
    || ActiveAtLookup(cfg, Next(cfg, s, e), events[1..], r, id)
  }

  lemma FlightLookupDecides(cfg: Deployment, s: State, e: Event, r: nat, id: string)
    requires Inv(cfg, s) && Enabled(cfg, s, e) && e.LookByFlight? && e.r == r && id in s.runs
    ensures Next(cfg, s, e).requests[r].stage.Answered?
    ensures Next(cfg, s, e).requests[r].stage == Answered(Existing(id)) <==> InFlight(s.runs[id], s.requests[r].flight)
  {
    if e.found.Some? && InFlight(s.runs[id], s.requests[r].flight) {
      assert InFlight(s.runs[e.found.value], s.runs[id].flight);
    }
  }

  /** After a failed key lookup the flight alone decides. */
  lemma {:induction false} FlightDecides(cfg: Deployment, s: State, events: seq<Event>, t: State, r: nat, id: string)
    requires Inv(cfg, s) && Path(cfg, s, events, t) && id in s.runs
    requires AskedBy(s, r, ByFlight) && r in t.requests && t.requests[r].stage.Answered?
    ensures t.requests[r].stage == Answered(Existing(id)) <==> ActiveAtLookup(cfg, s, events, r, id)
    decreases |events|
  {
    var e, u := events[0], Next(cfg, s, events[0]);
    StepKeepsInv(cfg, s, e);
    StepLives(cfg, s, e, id);
    if e.LookByFlight? && e.r == r {
      FlightLookupDecides(cfg, s, e, r, id);
      AnswerIsFinal(cfg, u, events[1..], t, r);
    } else {
      FlightDecides(cfg, u, events[1..], t, r, id);
    }
  }

  /** Exactly when a request with a known key is answered with that key's run:
      its key lookup did not fail, or the run happens to be the active one of the
      requested flight. */
  lemma {:induction false} KeyAnswerDecided(cfg: Deployment, s: State, events: seq<Event>, t: State, r: nat, id: string)
    requires Inv(cfg, s) && Path(cfg, s, events, t) && Asks(s, t, r, id) && t.requests[r].stage.Answered?
    ensures t.requests[r].stage == Answered(Existing(id)) <==>
            !KeyLookupFails(events, r) || ActiveAtLookup(cfg, s, events, r, id)
    decreases |events|
  {
    if events != [] {
      var e, u := events[0], Next(cfg, s, events[0]);
      StepKeepsInv(cfg, s, e);
      if e == LookByKeyFails(r) {
        StepLives(cfg, s, e, id);
        FlightDecides(cfg, u, events[1..], t, r, id);
      } else {
        StepKeepsAsks(cfg, s, e, events[1..], t, r, id);
        KeyAnswerDecided(cfg, u, events[1..], t, r, id);
      }
    }
  }

  // ----- Every answer was true when it was given -----

  /** What the answer says of the table u it was taken from. */
  ghost predicate Justified(u: State, q: Request, answer: Answer) {
    match answer
    case Inserted(id) =>
      id !in u.runs && forall other :: other in u.runs ==> !Named(u, q, other) && !InFlight(u.runs[other], q.flight)
    case Existing(id) => id in u.runs && (Named(u, q, id) || InFlight(u.runs[id], q.flight))
    case Missing => forall other :: other in u.runs ==> !InFlight(u.runs[other], q.flight)
  }

  lemma StepJustifies(cfg: Deployment, s: State, e: Event, r: nat)
    requires Enabled(cfg, s, e) && (r in s.requests ==> !s.requests[r].stage.Answered?)
    requires r in Next(cfg, s, e).requests && Next(cfg, s, e).requests[r].stage.Answered?
    ensures var q := Next(cfg, s, e).requests[r];
            && Justified(s, q, q.stage.answer)
            && (q.stage.answer.Inserted? ==> Named(Next(cfg, s, e), q, q.stage.answer.id))
  {
  }

  lemma {:induction false} AnswerWasJustified(cfg: Deployment, s: State, events: seq<Event>, t: State, r: nat)
    returns (k: nat, u: State)
    requires Inv(cfg, s) && Path(cfg, s, events, t) && (r in s.requests ==> !s.requests[r].stage.Answered?)
    requires r in t.requests && t.requests[r].stage.Answered?
    ensures k < |events| && Path(cfg, s, events[..k], u)
    ensures Justified(u, t.requests[r], t.requests[r].stage.answer)
    ensures t.requests[r].stage.answer.Inserted? ==> Named(t, t.requests[r], t.requests[r].stage.answer.id)
    decreases |events|
  {
    var e, v := events[0], Next(cfg, s, events[0]);
    StepKeepsInv(cfg, s, e);
    if r in v.requests && v.requests[r].stage.Answered? {
      StepJustifies(cfg, s, e, r);
      AnswerIsFinal(cfg, v, events[1..], t, r);
      if v.requests[r].stage.answer.Inserted? { RunLife(cfg, v, events[1..], t, v.requests[r].stage.answer.id); }
      return 0, s;
    }
    k, u := AnswerWasJustified(cfg, v, events[1..], t, r);
    assert events[1..][..k] == events[..k + 1][1..];
    k := k + 1;
  }

  /** In every history, a request that is answered was answered from some earlier
      state of that history: with a run it inserted because nothing conflicted,
      with a run that bore its key or was active in its flight, or with none
      because none was active. */
  lemma AnswersAreJustified(cfg: Deployment, s0: State, events: seq<Event>, t: State, r: nat) returns (k: nat, u: State)
    requires Init(s0) && Path(cfg, s0, events, t) && r in t.requests && t.requests[r].stage.Answered?
    ensures k < |events| && Path(cfg, s0, events[..k], u)
    ensures Justified(u, t.requests[r], t.requests[r].stage.answer)
    ensures t.requests[r].stage.answer.Inserted? ==> Named(t, t.requests[r], t.requests[r].stage.answer.id)
  {
    k, u := AnswerWasJustified(cfg, s0, events, t, r);
  }

  // ----- Sites do not meet -----

  /** Exactly when an attempt inserts: no run of the same site bears the key, and
      no QUEUED or RUNNING run is of the same flight. Keys of other sites never
      stop it. */
  lemma InsertDecided(cfg: Deployment, s: State, r: nat, id: string, readAt: nat)
    requires Enabled(cfg, s, TryInsert(r, id, readAt))
    ensures var q := s.requests[r];
            Next(cfg, s, TryInsert(r, id, readAt)).requests[r].stage == Answered(Inserted(id)) <==>
            forall k :: k in s.runs ==>
              && !(s.runs[k].flight.site == q.flight.site && s.runs[k].key == q.key)
              && !(s.runs[k].flight == q.flight && s.runs[k].status in {Queued, Running})
  {
  }

  /** In every history, a run a request is answered with is of the request's own
      site, and bears its key or is of its flight. */
  lemma AnswersStayInTheirSite(cfg: Deployment, s0: State, events: seq<Event>, t: State, r: nat, id: string)
    requires Init(s0) && Path(cfg, s0, events, t) && r in t.requests
    requires t.requests[r].stage == Answered(Existing(id)) || t.requests[r].stage == Answered(Inserted(id))
    ensures id in t.runs && t.runs[id].flight.site == t.requests[r].flight.site
    ensures t.runs[id].key == t.requests[r].key || t.runs[id].flight == t.requests[r].flight
  {
    var k, u := AnswersAreJustified(cfg, s0, events, t, r);
    if t.requests[r].stage.answer.Existing? {
      PathSplits(cfg, s0, events, k, u, t);
      PathKeepsInv(cfg, s0, events[..k], u);
      RunLife(cfg, u, events[k..], t, id);
    }
  }

  /** The rest of a history leads from a state within it to its end. */
  lemma {:induction false} PathSplits(cfg: Deployment, s: State, events: seq<Event>, k: nat, u: State, t: State)
    requires k <= |events| && Path(cfg, s, events, t) && Path(cfg, s, events[..k], u)
    ensures Path(cfg, u, events[k..], t)
    decreases k
  {
    if k == 0 {
      assert events[0..] == events;
    } else {
      assert events[..k][1..] == events[1..][..k - 1] && events[1..][k - 1..] == events[k..];
      PathSplits(cfg, Next(cfg, s, events[0]), events[1..], k - 1, u, t);
    }
  }

  // ----- A failed lookup can answer with another run -----

  /** A launched run that ends at once. */
  lemma Ends(cfg: Deployment, s: State, id: string, outcome: Outcome) returns (events: seq<Event>, t: State)
    requires id in s.workers && s.workers[id].phase.Syncing? && id in s.runs && !IsActive(outcome.status)
    ensures Path(cfg, s, events, t)
    ensures t == s.(runs := RunTable.Finish(s.runs, id, outcome, cfg.stamp(s.clock)), workers := s.workers - {id})
  {
    var e, f := Conclude(id), Land(id, outcome, s.clock);
    var u := Next(cfg, s, e);
    OneStep(cfg, s, e);
    t := Next(cfg, u, f);
    OneStep(cfg, u, f);
    assert t.workers == s.workers - {id};
    PathConcat(cfg, s, [e], u, [f], t);
    events := [e] + [f];
  }

  /** A request whose key lookup fails, and whose flight lookup finds `found`. */
  lemma Misled(cfg: Deployment, s: State, j: nat, r: nat, id: string, found: string, flight: Flight, key: string)
    returns (events: seq<Event>, t: State)
    requires j < |cfg.replicas| && flight.site == cfg.replicas[j].site && r !in s.requests && id !in s.runs
    requires found in s.runs && InFlight(s.runs[found], flight)
    ensures Path(cfg, s, events, t) && t.runs == s.runs
    ensures r in t.requests && t.requests[r] == Request(j, flight, key, "", Answered(Existing(found)))
  {
    var e, f, g, h := Ask(r, j, flight, key, ""), TryInsert(r, id, s.clock), LookByKeyFails(r), LookByFlight(r, Some(found));
    var a := Next(cfg, s, e);
    OneStep(cfg, s, e);
    assert Conflicts(a.runs, flight, key);
    var b := Next(cfg, a, f);
    OneStep(cfg, a, f);
    var c := Next(cfg, b, g);
    OneStep(cfg, b, g);
    t := Next(cfg, c, h);
    OneStep(cfg, c, h);
    PathConcat(cfg, s, [e], a, [f], b);
    PathConcat(cfg, b, [g], c, [h], t);
    PathConcat(cfg, s, [e] + [f], b, [g] + [h], t);
    events := ([e] + [f]) + ([g] + [h]);
  }

  /** A client retries a finished run's key while another run of the flight is
      active, and the lookup of the key fails: the answer is the other run. */
  lemma FailedLookupMisanswers(cfg: Deployment, clock: nat, flight: Flight, a: string, b: string, spare: string)
    returns (s: State, events: seq<Event>, t: State)
    requires |cfg.replicas| > 0 && flight.site == cfg.replicas[0].site && a != b && spare != a && spare != b
    requires Timestamps.Storable(clock)
    ensures Init(s) && Path(cfg, s, events, t)
    ensures 2 in t.requests && Named(t, t.requests[2], a) && t.requests[2].stage == Answered(Existing(b))
  {
    s := State(clock, map[], map[], map[]);
    var es, s1 := Launch(cfg, s, 0, 0, a, flight, a);
    var fs, s2 := Ends(cfg, s1, a, Outcome(Succeeded, 0, "", NoError, ""));
    var gs, s3 := Enqueue(cfg, s2, 0, 1, b, flight, b);
    var hs;
    hs, t := Misled(cfg, s3, 0, 2, spare, b, flight, a);
    PathConcat(cfg, s, es, s1, fs, s2);
    PathConcat(cfg, s2, gs, s3, hs, t);
    PathConcat(cfg, s, es + fs, s2, gs + hs, t);
    events := (es + fs) + (gs + hs);
  }
}
