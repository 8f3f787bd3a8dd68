/** Pending OAuth authorisations: a state is used once, by the administrator who
    started it, before it expires. Every SQL statement is one step with its own
    clock reading, so readings need not follow the order of the steps. */
module OAuthStates {
  import opened Text
  import opened Timestamps

  const STATE_TTL: nat := 10 * 60 * SECOND

  datatype Owner = Owner(provider: string, site: string, subject: string)

  datatype Pending = Pending(owner: Owner, verifier: string, redirectURI: string, returnTo: string, expiresAt: string)

  type Table = map<string, Pending>

  predicate Live(p: Pending, now: string) {
    Less(now, p.expiresAt)
  }

  /** The row DELETE … RETURNING finds. */
  function Match(t: Table, state: string, owner: Owner, now: string): Option<Pending> {
    if state in t && t[state].owner == owner && Live(t[state], now) then Some(t[state]) else None
  }

  function WithoutExpired(t: Table, now: string): Table {
    map s | s in t && Live(t[s], now) :: t[s]
  }

  datatype Event =
    | Created(state: string, pending: Pending, at: nat, ttl: nat)
    | Consumed(state: string, owner: Owner, at: nat, got: Option<Pending>)
    | Cleaned(at: nat)

  /** One statement. A Create that meets the primary key, or any statement that
      fails, changes nothing and is no step. */
  ghost predicate Step(stamp: nat -> string, t: Table, e: Event, u: Table) {
    match e
    case Created(state, p, at, ttl) => state !in t && p.expiresAt == stamp(at + ttl) && u == t[state := p]
    case Consumed(state, owner, at, got) =>
      got == Match(t, state, owner, stamp(at)) && u == if got.Some? then t - {state} else t
    case Cleaned(at) => u == WithoutExpired(t, stamp(at))
  }

  ghost predicate Trace(stamp: nat -> string, tables: seq<Table>, events: seq<Event>) {
    && |tables| == |events| + 1
    && forall i :: 0 <= i < |events| ==> Step(stamp, tables[i], events[i], tables[i + 1])
  }

  predicate Creates(e: Event, state: string) {
    e.Created? && e.state == state
  }

  predicate Uses(e: Event, state: string) {
    e.Consumed? && e.state == state && e.got.Some?
  }

  /** Nothing strictly between i and j creates or uses the state. */
  predicate Quiet(events: seq<Event>, state: string, i: int, j: nat)
    requires j <= |events|
  {
    forall k :: 0 <= i < k < j ==> !Creates(events[k], state) && !Uses(events[k], state)
  }

  lemma RowBefore(stamp: nat -> string, t: Table, e: Event, u: Table, state: string)
    requires Step(stamp, t, e, u) && state in u && !Creates(e, state)
    ensures state in t && t[state] == u[state] && !Uses(e, state)
  {
  }

  /** A stored row is the one its latest Create wrote, not used since. */
  lemma {:induction false} RowComesFrom(stamp: nat -> string, tables: seq<Table>, events: seq<Event>, j: nat, state: string) returns (i: nat)
    requires Trace(stamp, tables, events) && tables[0] == map[] && j <= |events| && state in tables[j]
    ensures i < j && Creates(events[i], state) && events[i].pending == tables[j][state]
    ensures Quiet(events, state, i, j)
    decreases j
  {
    assert j > 0;
    var e := events[j - 1];
    if Creates(e, state) { return j - 1; }
    RowBefore(stamp, tables[j - 1], e, tables[j], state);
    i := RowComesFrom(stamp, tables, events, j - 1, state);
  }

  ghost predicate StorableEvents(events: seq<Event>) {
    forall i :: 0 <= i < |events| ==>
      Storable(events[i].at) && (events[i].Created? ==> Storable(events[i].at + events[i].ttl))
  }

  /** A state that is accepted was created for this owner with exactly the
      returned verifier and targets, has not been used since, and has not expired. */
  lemma AcceptedStateIsGenuine(stamp: nat -> string, tables: seq<Table>, events: seq<Event>, j: nat) returns (i: nat)
    requires Trace(stamp, tables, events) && SortsSeconds(stamp) && tables[0] == map[] && StorableEvents(events)
    requires j < |events| && events[j].Consumed? && events[j].got.Some?
    ensures i < j && Creates(events[i], events[j].state) && Quiet(events, events[j].state, i, j)
    ensures events[j].got == Some(events[i].pending) && events[i].pending.owner == events[j].owner
    ensures events[j].at < events[i].at + events[i].ttl
  {
    var e := events[j];
    assert Step(stamp, tables[j], e, tables[j + 1]);
    i := RowComesFrom(stamp, tables, events, j, e.state);
    assert Step(stamp, tables[i], events[i], tables[i + 1]);
    assert events[i].pending.owner == e.owner;
  }

  /** Between two uses of a state it was created again. */
  lemma UsesAlternate(stamp: nat -> string, tables: seq<Table>, events: seq<Event>, state: string, i: nat, j: nat)
    requires Trace(stamp, tables, events) && tables[0] == map[]
    requires i < j < |events| && Uses(events[i], state) && Uses(events[j], state)
    ensures exists k :: i < k < j && Creates(events[k], state)
  {
    assert Step(stamp, tables[j], events[j], tables[j + 1]);
    var k := RowComesFrom(stamp, tables, events, j, state);
    assert !(k < i < j) && k != i;
  }

  /** With fresh tokens no state is ever accepted twice. */
  lemma SingleUse(stamp: nat -> string, tables: seq<Table>, events: seq<Event>, state: string, i: nat, j: nat)
    requires Trace(stamp, tables, events) && tables[0] == map[]
    requires forall a, b :: 0 <= a < b < |events| && Creates(events[a], state) ==> !Creates(events[b], state)
    requires i < |events| && j < |events| && Uses(events[i], state) && Uses(events[j], state)
    ensures i == j
  {
    var lo, hi := if i < j then i else j, if i < j then j else i;
    if lo < hi {
      UsesAlternate(stamp, tables, events, state, lo, hi);
      assert Step(stamp, tables[lo], events[lo], tables[lo + 1]);
      var first := RowComesFrom(stamp, tables, events, lo, state);
    }
  }

  /** A clean-up strictly between i and j read a clock at or past the second in
      which the state created at i expires. */
  predicate CleanedLate(events: seq<Event>, i: nat, j: nat)
    requires i < j <= |events| && events[i].Created?
  {
    exists k :: i < k < j && events[k].Cleaned? && (events[i].at + events[i].ttl) / SECOND <= events[k].at / SECOND
  }

  /** While nobody uses a state, its row is there unless some clean-up read a
      clock past its expiry. Attempts by others never remove it. */
  lemma {:induction false} StaysUntilExpiry(stamp: nat -> string, tables: seq<Table>, events: seq<Event>, i: nat, j: nat)
    requires Trace(stamp, tables, events) && SortsSeconds(stamp) && StorableEvents(events)
    requires i < j <= |events| && events[i].Created? && Quiet(events, events[i].state, i, j)
    ensures events[i].state in tables[j] <==> !CleanedLate(events, i, j)
    ensures events[i].state in tables[j] ==> tables[j][events[i].state] == events[i].pending
    decreases j
  {
    var c := events[i];
    if i == j - 1 {
      assert Step(stamp, tables[i], c, tables[j]);
    } else {
      StaysUntilExpiry(stamp, tables, events, i, j - 1);
      LateByOneMore(events, i, j);
      StaysOneStep(stamp, tables[i], c, tables[i + 1], tables[j - 1], events[j - 1], tables[j]);
    }
  }

  lemma LateByOneMore(events: seq<Event>, i: nat, j: nat)
    requires i + 1 < j <= |events| && events[i].Created?
    ensures var e := events[j - 1];
            CleanedLate(events, i, j) <==>
              CleanedLate(events, i, j - 1) || (e.Cleaned? && (events[i].at + events[i].ttl) / SECOND <= e.at / SECOND)
  {
  }

  lemma StaysOneStep(stamp: nat -> string, t0: Table, c: Event, t1: Table, t: Table, e: Event, u: Table)
    requires SortsSeconds(stamp) && Step(stamp, t0, c, t1) && c.Created? && Step(stamp, t, e, u)
    requires !Creates(e, c.state) && !Uses(e, c.state) && Storable(e.at) && Storable(c.at + c.ttl)
    requires c.state in t ==> t[c.state] == c.pending
    ensures c.state in u <==> c.state in t && !(e.Cleaned? && (c.at + c.ttl) / SECOND <= e.at / SECOND)
    ensures c.state in u ==> u[c.state] == c.pending
  {
    LiveUntilExpiry(stamp, t0, c, t1, e.at);
    if c.state in u { RowBefore(stamp, t, e, u, c.state); }
  }

  lemma LiveUntilExpiry(stamp: nat -> string, t: Table, c: Event, u: Table, now: nat)
    requires Step(stamp, t, c, u) && c.Created? && SortsSeconds(stamp) && Storable(now) && Storable(c.at + c.ttl)
    ensures Live(c.pending, stamp(now)) <==> now / SECOND < (c.at + c.ttl) / SECOND
  {
  }

  /** Exactly when an attempt succeeds: the owner is right, its second is before
      that of the expiry, and no clean-up before it read a clock past expiry.
      Attempts by others and every other clean-up make no difference. */
  lemma AttemptDecided(stamp: nat -> string, tables: seq<Table>, events: seq<Event>, i: nat, j: nat)
    requires Trace(stamp, tables, events) && SortsSeconds(stamp) && StorableEvents(events)
    requires i < j < |events| && events[i].Created? && events[j].Consumed? && events[j].state == events[i].state
    requires Quiet(events, events[i].state, i, j)
    ensures events[j].got ==
              if && events[j].owner == events[i].pending.owner
                 && events[j].at / SECOND < (events[i].at + events[i].ttl) / SECOND
                 && !CleanedLate(events, i, j)
              then Some(events[i].pending) else None
  {
    StaysUntilExpiry(stamp, tables, events, i, j);
    LiveUntilExpiry(stamp, tables[i], events[i], tables[i + 1], events[j].at);
    assert Step(stamp, tables[j], events[j], tables[j + 1]);
  }

  /** With clocks that follow the order of the steps, owner and second decide. */
  lemma InOrderAttemptDecided(stamp: nat -> string, tables: seq<Table>, events: seq<Event>, i: nat, j: nat)
    requires Trace(stamp, tables, events) && SortsSeconds(stamp) && StorableEvents(events)
    requires i < j < |events| && events[i].Created? && events[j].Consumed? && events[j].state == events[i].state
    requires Quiet(events, events[i].state, i, j)
    requires forall k :: i < k < j ==> events[k].at <= events[j].at
    ensures events[j].got ==
              if events[j].owner == events[i].pending.owner &&
                 events[j].at / SECOND < (events[i].at + events[i].ttl) / SECOND
              then Some(events[i].pending) else None
  {
    AttemptDecided(stamp, tables, events, i, j);
  }

  // ----- The store and the callback -----

  datatype Completion =
    | InvalidState | StateMismatch | ExchangeFailed | NoRefreshToken
    | Credential(refreshToken: string, returnTo: string)

  class Store {
    /** How the store writes an instant: Timestamps.Format. */
    const stamp: nat -> string
    var rows: Table

    constructor (stamp: nat -> string)
      ensures this.stamp == stamp && rows == map[]
    {
      this.stamp, rows := stamp, map[];
    }

    method CreateOAuthState(state: string, owner: Owner, verifier: string, redirectURI: string, returnTo: string,
                            now: nat, ttl: nat) returns (ok: bool)
      modifies this
      ensures ok <==> state !in old(rows)
      ensures !ok ==> rows == old(rows)
      ensures ok ==>
                var p := Pending(owner, verifier, redirectURI, returnTo, stamp(now + ttl));
                Step(stamp, old(rows), Created(state, p, now, ttl), rows)
    {
      ok := state !in rows;
      if ok { rows := rows[state := Pending(owner, verifier, redirectURI, returnTo, stamp(now + ttl))]; }
    }

    /** What oauthStart leaves: a state that lives for ten minutes. */
    method OAuthStart(state: string, owner: Owner, verifier: string, redirectURI: string, returnTo: string, now: nat)
      returns (ok: bool)
      modifies this
      ensures ok <==> state !in old(rows)
      ensures !ok ==> rows == old(rows)
      ensures ok ==>
                && state in rows && rows[state].owner == owner && rows[state].verifier == verifier
                && rows[state].redirectURI == redirectURI && rows[state].returnTo == returnTo
                && rows[state].expiresAt == stamp(now + 600_000_000_000)
                && Step(stamp, old(rows), Created(state, rows[state], now, STATE_TTL), rows)
    {
      ok := CreateOAuthState(state, owner, verifier, redirectURI, returnTo, now, STATE_TTL);
    }

    /** DELETE … RETURNING, and after a hit a clean-up that may fail. */
    method ConsumeOAuthState(state: string, owner: Owner, now: nat, later: nat, cleaned: bool)
      returns (got: Option<Pending>, ghost between: Table)
      modifies this
      ensures Step(stamp, old(rows), Consumed(state, owner, now, got), between)
      ensures if got.Some? && cleaned then Step(stamp, between, Cleaned(later), rows) else rows == between
    {
      got := Match(rows, state, owner, stamp(now));
      if got.Some? { rows := rows - {state}; }
      between := rows;
      if got.Some? && cleaned { rows := WithoutExpired(rows, stamp(later)); }
    }

    /** oauthComplete up to the credential it stores. `exchange` maps the redirect
        URI and the verifier to the token's refresh token, if the exchange works. */
    method OAuthComplete(state: string, owner: Owner, now: nat, later: nat, cleaned: bool,
                         exchange: (string, string) -> Option<string>)
      returns (c: Completion)
      modifies this
      ensures c.InvalidState? <==> Match(old(rows), state, owner, stamp(now)).None?
      ensures c.InvalidState? ==> rows == old(rows)
      ensures !c.InvalidState? ==> state !in rows
      ensures !c.StateMismatch?
      ensures !c.InvalidState? ==>
                var p := old(rows)[state];
                var token := exchange(p.redirectURI, p.verifier);
                && (c.ExchangeFailed? <==> token.None?)
                && (c.NoRefreshToken? <==> token == Some(""))
                && (c.Credential? ==> token == Some(c.refreshToken) && c.returnTo == p.returnTo)
    {
      var got, _ := ConsumeOAuthState(state, owner, now, later, cleaned);
      if got.None? { return InvalidState; }
      if got.value.owner != owner { return StateMismatch; }
      var token := exchange(got.value.redirectURI, got.value.verifier);
      if token.None? { return ExchangeFailed; }
      if token.value == "" { return NoRefreshToken; }
      c := Credential(token.value, got.value.returnTo);
    }
  }
}
