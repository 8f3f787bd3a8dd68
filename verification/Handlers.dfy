/** The two handlers that install a credential, as they execute: each call of
    the stores in order, with the provider's and the stores' answers as inputs.
    Each is shown to be a run of the rotation protocol. */
module Handlers {
  import opened Text
  import opened Rotation

  datatype Discovery = Found | UnsupportedHere | Refused

  /** What the provider, the database and the secret store answer. */
  datatype Env = Env(discovery: Discovery, openOk: bool, testOk: bool, storeOk: bool, revokeOk: bool,
                     readBackOk: bool)

  datatype Answer = Configured | ValidationFailed | Unavailable | StoreFailed | Changed

  /** Another import that completes between this one's read and its swap. */
  datatype Rival = Rival(ref: string, property: string)

  datatype Outcome = Imported | AlreadyConfigured | Failed

  datatype Choice = NoReference | NoCredential | NotAvailable | TestFailed | WriteFailed | Chosen

  datatype Closing = RevokeFailed | ClearFailed | Closed

  class Host {
    var conns: map<Scope, Conn>
    var secrets: map<string, Secret>

    ghost function View(ops: map<nat, Op>, stranded: set<string>): State
      reads this
    {
      State(conns, secrets, ops, stranded, {})
    }

    /** A successful revoke leaves the ref dead in its scope; no other ref, and no
        secret of another scope, is touched. */
    method RevokeSecret(scope: Scope, ref: string, ok: bool)
      modifies this`secrets
      ensures ok ==> !Opens(secrets, scope, ref)
      ensures secrets.Keys == old(secrets).Keys
      ensures forall k :: k in secrets && (k != ref || secrets[k].scope != scope) ==> secrets[k] == old(secrets)[k]
      ensures secrets == if ok then Revoke(old(secrets), scope, ref) else old(secrets)
    {
      if ok && ref in secrets && secrets[ref].scope == scope {
        secrets := secrets[ref := Secret(scope, true)];
      }
    }

    method ConfigureConnectionCAS(scope: Scope, expected: string, replacement: Conn) returns (swapped: bool)
      modifies this`conns
      ensures swapped <==> scope in old(conns) && old(conns)[scope].ref == expected
      ensures conns == if swapped then old(conns)[scope := replacement] else old(conns)
    {
      swapped := scope in conns && conns[scope].ref == expected;
      if swapped { conns := conns[scope := replacement]; }
    }

    /** finishCredentialUpdate: `previous` was read earlier and may be out of date. */
    method FinishCredentialUpdate(scope: Scope, previous: Conn, ref: string, env: Env)
      returns (answer: Answer, ghost trace: seq<Event>, ghost stranded: set<string>)
      requires scope in conns && ref in secrets
      modifies this
      ensures answer == Configured <==>
                && env.discovery != Refused && (previous.property == "" || (env.openOk && env.testOk))
                && env.storeOk && old(conns)[scope].ref == previous.ref
      ensures answer == ValidationFailed <==>
                env.discovery == Refused || (previous.property != "" && env.openOk && !env.testOk)
      ensures answer == Unavailable <==> env.discovery != Refused && previous.property != "" && !env.openOk
      ensures answer == StoreFailed <==>
                env.discovery != Refused && (previous.property == "" || (env.openOk && env.testOk)) && !env.storeOk
      ensures answer == Configured ==>
                && conns == old(conns)[scope := Conn(ref, previous.property, previous.property != "")]
                && secrets == if env.revokeOk && previous.ref != "" then Revoke(old(secrets), scope, previous.ref) else old(secrets)
      ensures answer != Configured ==>
                conns == old(conns) && secrets == if env.revokeOk then Revoke(old(secrets), scope, ref) else old(secrets)
      ensures Path(old(View(map[0 := Swap(scope, previous.ref, ref, previous.property, Validating)], {})),
                   trace, View(map[], stranded))
      ensures env.revokeOk ==> stranded == {}
    {
      ghost var start := View(map[0 := Swap(scope, previous.ref, ref, previous.property, Validating)], {});
      ghost var finish;
      answer := Configured;
      if env.discovery == Refused {
        answer := ValidationFailed;
      } else if previous.property != "" && !env.openOk {
        answer := Unavailable;
      } else if previous.property != "" && !env.testOk {
        answer := ValidationFailed;
      }
      if answer != Configured {
        RevokeSecret(scope, ref, env.revokeOk);
        trace, finish := FailsValidation(start, 0, env.revokeOk);
      } else if !env.storeOk {
        answer := StoreFailed;
        RevokeSecret(scope, ref, env.revokeOk);
        trace, finish := LosesSwap(start, 0, true, env.revokeOk);
      } else {
        var swapped := ConfigureConnectionCAS(scope, previous.ref, Conn(ref, previous.property, previous.property != ""));
        if !swapped {
          answer := Changed;
          RevokeSecret(scope, ref, env.revokeOk);
          trace, finish := LosesSwap(start, 0, false, env.revokeOk);
        } else {
          if previous.ref != "" { RevokeSecret(scope, previous.ref, env.revokeOk); }
          trace, finish := WinsSwap(start, 0, env.revokeOk);
        }
      }
      stranded := finish.stranded;
      assert View(map[], stranded) == finish;
    }

    /** setProperty: `read` is the row as read earlier; it is written back whole. */
    method SetProperty(scope: Scope, read: Conn, reference: string, env: Env)
      returns (choice: Choice, ghost trace: seq<Event>)
      requires scope in conns
      modifies this`conns
      ensures choice == NoReference <==> reference == ""
      ensures choice == NoCredential <==> reference != "" && read.ref == ""
      ensures choice == NotAvailable <==>
                reference != "" && read.ref != "" && !(env.openOk && read.ref in secrets && secrets[read.ref] == Secret(scope, false))
      ensures choice == Chosen <==>
                && reference != "" && read.ref != "" && env.openOk && env.testOk && env.storeOk
                && read.ref in secrets && secrets[read.ref] == Secret(scope, false)
      ensures choice == TestFailed ==> !env.testOk
      ensures choice == WriteFailed ==> env.testOk && !env.storeOk
      ensures conns == if choice == Chosen then old(conns)[scope := Conn(read.ref, reference, true)] else old(conns)
      ensures Path(old(View(map[0 := Choose(scope, read.ref, reference, Opening)], {})), trace, View(map[], {}))
    {
      ghost var s := View(map[0 := Choose(scope, read.ref, reference, Opening)], {});
      choice := Chosen;
      if reference == "" { choice := NoReference; }
      else if read.ref == "" { choice := NoCredential; }
      else if !(env.openOk && read.ref in secrets && secrets[read.ref] == Secret(scope, false)) { choice := NotAvailable; }
      else if !env.testOk { choice := TestFailed; }
      else if !env.storeOk { choice := WriteFailed; }
      if choice == Chosen {
        conns := conns[scope := Conn(read.ref, reference, true)];
        trace := ChoosesAlone(s, 0);
      } else {
        trace := StopsAlone(s, 0);
      }
      assert s.ops - {0} == map[];
    }

    /** revokeConnection: the secret first, then the row, whatever it holds by then. */
    method RevokeConnection(scope: Scope, read: Conn, env: Env)
      returns (closing: Closing, ghost trace: seq<Event>, ghost end: State)
      requires scope in conns
      modifies this
      ensures closing == RevokeFailed <==> read.ref != "" && !env.revokeOk
      ensures closing == ClearFailed <==> (read.ref == "" || env.revokeOk) && !env.storeOk
      ensures conns == if closing == Closed then old(conns)[scope := Conn("", "", false)] else old(conns)
      ensures closing == RevokeFailed || read.ref == "" ==> secrets == old(secrets)
      ensures closing != RevokeFailed && read.ref != "" ==>
                && secrets.Keys == old(secrets).Keys && !(read.ref in secrets && secrets[read.ref] == Secret(scope, false))
                && forall k :: k in secrets && (k != read.ref || secrets[k].scope != scope) ==> secrets[k] == old(secrets)[k]
      ensures Path(old(View(map[0 := Close(scope, read.ref, if read.ref == "" then ClearingRow else RevokingSecret)], {})), trace, end)
      ensures end == State(conns, secrets, map[], {}, if closing == ClearFailed && read.ref != "" then {read.ref} else {})
    {
      ghost var s := View(map[0 := Close(scope, read.ref, if read.ref == "" then ClearingRow else RevokingSecret)], {});
      closing := Closed;
      if read.ref != "" {
        RevokeSecret(scope, read.ref, env.revokeOk);
        if !env.revokeOk { closing := RevokeFailed; }
      }
      if closing == Closed && !env.storeOk { closing := ClearFailed; }
      if closing == Closed { conns := conns[scope := Conn("", "", false)]; }
      trace, end := ClosesAlone(s, 0, env);
    }

    /** ImportConnection from the Put on, for a row read without a credential. */
    method InstallImport(scope: Scope, ref: string, property: string, retain: bool, env: Env, rival: Option<Rival>)
      returns (outcome: Outcome, keepSecret: bool)
      requires IsFree(conns, scope) && ref !in secrets && (rival.Some? ==> rival.value.ref != "" && rival.value.ref != ref)
      modifies this
      ensures keepSecret <==> Keeps(property, retain, env, rival)
      ensures outcome == Imported <==> keepSecret && env.readBackOk
      ensures outcome == AlreadyConfigured <==> Validates(property, retain, env) && env.storeOk && rival.Some? && env.readBackOk
      ensures conns == if keepSecret then old(conns)[scope := Conn(ref, property, property != "")]
                       else WithRival(old(conns), scope, rival)
      ensures secrets == WithRivalSecret(old(secrets), scope, rival)[ref := Secret(scope, !keepSecret && env.revokeOk)]
    {
      outcome, keepSecret := Failed, false;
      RivalKeepsApart(secrets, scope, ref, rival, !Keeps(property, retain, env, rival) && env.revokeOk);
      secrets := secrets[ref := Secret(scope, false)];
      conns, secrets := WithRival(conns, scope, rival), WithRivalSecret(secrets, scope, rival);
      var valid := env.openOk;
      if valid && env.discovery != Found { valid := retain && property == ""; }
      if valid && property != "" { valid := env.testOk; }
      if valid && env.storeOk {
        keepSecret := ConfigureConnectionCAS(scope, "", Conn(ref, property, property != ""));
        if env.readBackOk { outcome := if keepSecret then Imported else AlreadyConfigured; }
      }
      if !keepSecret { RevokeSecret(scope, ref, env.revokeOk); }
    }

    /** ImportConnection: create-only, with a deferred revoke unless the secret
        was installed. A rival may fill the row between the read and the swap. */
    method ImportConnection(scope: Scope, ref: string, property: string, retain: bool, env: Env, rival: Option<Rival>)
      returns (outcome: Outcome, keepSecret: bool, ghost trace: seq<Event>, ghost stranded: set<string>)
      requires ref != "" && ref !in secrets
      requires rival.Some? ==> rival.value.ref != "" && rival.value.ref !in secrets && rival.value.ref != ref
      modifies this
      ensures keepSecret <==>
                && scope in old(conns) && old(conns)[scope].ref == "" && rival.None? && env.storeOk && env.openOk
                && (env.discovery == Found || (retain && property == "")) && (property != "" ==> env.testOk)
      ensures outcome == Imported <==> keepSecret && env.readBackOk
      ensures outcome == AlreadyConfigured <==>
                && scope in old(conns)
                && (old(conns)[scope].ref != "" ||
                    (rival.Some? && env.readBackOk && env.storeOk && env.openOk
                     && (env.discovery == Found || (retain && property == "")) && (property != "" ==> env.testOk)))
      ensures scope !in old(conns) || old(conns)[scope].ref != "" ==> conns == old(conns) && secrets == old(secrets)
      ensures keepSecret ==>
                && conns == old(conns)[scope := Conn(ref, property, property != "")]
                && secrets == old(secrets)[ref := Secret(scope, false)]
      ensures scope in old(conns) && old(conns)[scope].ref == "" && !keepSecret ==>
                && secrets.Keys == old(secrets).Keys + {ref} + (if rival.Some? then {rival.value.ref} else {})
                && secrets[ref] == Secret(scope, env.revokeOk)
                && (forall k :: k in old(secrets) ==> secrets[k] == old(secrets)[k])
                && (rival.None? ==> conns == old(conns))
                && (rival.Some? ==>
                      && conns == old(conns)[scope := Conn(rival.value.ref, rival.value.property, rival.value.property != "")]
                      && secrets[rival.value.ref] == Secret(scope, false))
      ensures Path(old(View(map[], {})), trace, View(map[], stranded))
      ensures env.revokeOk ==> stranded == {}
    {
      outcome, keepSecret, trace, stranded := Failed, false, [], {};
      if scope !in conns { return; }
      if conns[scope].ref != "" { return AlreadyConfigured, false, [], {}; }
      ghost var end;
      trace, end := ImportTrace(View(map[], {}), scope, ref, property, retain, env, rival);
      stranded := end.stranded;
      outcome, keepSecret := InstallImport(scope, ref, property, retain, env, rival);
      assert View(map[], stranded) == end;
    }
  }

  predicate IsFree(conns: map<Scope, Conn>, scope: Scope) {
    scope in conns && conns[scope].ref == ""
  }

  /** The credential opens, discovers, or may be retained without, and passes the
      test of a given property. */
  predicate Validates(property: string, retain: bool, env: Env) {
    && env.openOk && (env.discovery == Found || (retain && property == ""))
    && (property != "" ==> env.testOk)
  }

  function WithRival(conns: map<Scope, Conn>, scope: Scope, rival: Option<Rival>): map<Scope, Conn> {
    if rival.None? then conns else conns[scope := Conn(rival.value.ref, rival.value.property, rival.value.property != "")]
  }

  function WithRivalSecret(secrets: map<string, Secret>, scope: Scope, rival: Option<Rival>): map<string, Secret> {
    if rival.None? then secrets else secrets[rival.value.ref := Secret(scope, false)]
  }

  lemma ChoosesAlone(s: State, o: nat) returns (events: seq<Event>)
    requires o in s.ops && s.ops[o].Choose? && s.ops[o].choosing == Opening && s.ops[o].scope in s.conns
    requires Opens(s.secrets, s.ops[o].scope, s.ops[o].ref)
    ensures var op := s.ops[o];
            Path(s, events, s.(conns := s.conns[op.scope := Conn(op.ref, op.property, true)], ops := s.ops - {o}))
  {
    var t;
    events, t := Two(s, OpenChosen(o), WriteProperty(o));
    assert t.ops == s.ops - {o};
  }

  lemma StopsAlone(s: State, o: nat) returns (events: seq<Event>)
    requires o in s.ops && s.ops[o].Choose?
    ensures Path(s, events, s.(ops := s.ops - {o}))
  {
    events := [Crash(o)];
    One(s, Crash(o));
    assert Next(s, Crash(o)) == s.(ops := s.ops - {o});
  }

  /** The rest of a revokeConnection: the row is cleared, or the handler stops. */
  lemma ClearsOrStops(s: State, o: nat, ok: bool) returns (events: seq<Event>, t: State)
    requires o in s.ops && s.ops[o].Close? && s.ops[o].closing == ClearingRow && s.ops[o].scope in s.conns
    ensures Path(s, events, t)
    ensures var op := s.ops[o];
            t == State(if ok then s.conns[op.scope := Conn("", "", false)] else s.conns, s.secrets, s.ops - {o}, s.stranded,
                       if ok || op.ref == "" then s.torn else s.torn + {op.ref})
  {
    var e := if ok then ClearRow(o) else Crash(o);
    events, t := [e], Next(s, e);
    One(s, e);
  }

  lemma ClosesAlone(s: State, o: nat, env: Env) returns (events: seq<Event>, t: State)
    requires o in s.ops && s.ops[o].Close? && s.ops[o].scope in s.conns
    requires s.ops[o].closing == if s.ops[o].ref == "" then ClearingRow else RevokingSecret
    ensures Path(s, events, t)
    ensures var op := s.ops[o];
            var dead := op.ref == "" || env.revokeOk;
            t == State(if dead && env.storeOk then s.conns[op.scope := Conn("", "", false)] else s.conns,
                       if op.ref != "" && env.revokeOk then Revoke(s.secrets, op.scope, op.ref) else s.secrets,
                       s.ops - {o}, s.stranded,
                       if dead && !env.storeOk && op.ref != "" then s.torn + {op.ref} else s.torn)
  {
    if s.ops[o].ref == "" {
      events, t := ClearsOrStops(s, o, env.storeOk);
    } else {
      var e := CloseRevoke(o, env.revokeOk);
      var u := Next(s, e);
      One(s, e);
      if env.revokeOk {
        events, t := ClearsOrStops(u, o, env.storeOk);
        PathConcat(s, [e], u, events, t);
        events := [e] + events;
        assert u.ops - {o} == s.ops - {o};
      } else {
        events, t := [e], u;
      }
    }
  }

  lemma RivalKeepsApart(secrets: map<string, Secret>, scope: Scope, ref: string, rival: Option<Rival>, revoked: bool)
    requires rival.Some? ==> rival.value.ref != ref
    ensures var both := WithRivalSecret(secrets[ref := Secret(scope, false)], scope, rival);
            && ref in both && both[ref] == Secret(scope, false)
            && both[ref := Secret(scope, revoked)] == WithRivalSecret(secrets, scope, rival)[ref := Secret(scope, revoked)]
  {
  }

  lemma RivalWins(s: State, o: nat, scope: Scope, rival: Rival) returns (events: seq<Event>, t: State)
    requires o !in s.ops && IsFree(s.conns, scope) && rival.ref != "" && rival.ref !in s.secrets
    ensures Path(s, events, t)
    ensures t == s.(conns := WithRival(s.conns, scope, Some(rival)), secrets := WithRivalSecret(s.secrets, scope, Some(rival)))
  {
    var es, u := BeginsImport(s, o, scope, rival.property, rival.ref);
    var fs;
    fs, t := WinsSwap(u, o, true);
    PathConcat(s, es, u, fs, t);
    events := es + fs;
    assert u.ops - {o} == s.ops;
  }

  predicate Keeps(property: string, retain: bool, env: Env, rival: Option<Rival>) {
    Validates(property, retain, env) && env.storeOk && rival.None?
  }

  /** An import up to its validation, and the rival that may have come between. */
  lemma ImportBegins(s: State, scope: Scope, ref: string, property: string, rival: Option<Rival>)
    returns (events: seq<Event>, t: State)
    requires s.ops == map[] && IsFree(s.conns, scope) && ref != "" && ref !in s.secrets
    requires rival.Some? ==> rival.value.ref != "" && rival.value.ref !in s.secrets && rival.value.ref != ref
    ensures Path(s, events, t)
    ensures t == State(WithRival(s.conns, scope, rival), WithRivalSecret(s.secrets[ref := Secret(scope, false)], scope, rival),
                       map[0 := Swap(scope, "", ref, property, Validating)], s.stranded, s.torn)
  {
    events, t := BeginsImport(s, 0, scope, property, ref);
    if rival.Some? {
      var rest, u := RivalWins(t, 1, scope, rival.value);
      PathConcat(s, events, t, rest, u);
      events, t := events + rest, u;
    }
  }

  /** The rest of it: swap, or drop the new secret. */
  lemma ImportEnds(s: State, scope: Scope, ref: string, property: string, retain: bool, env: Env, rival: Option<Rival>)
    returns (events: seq<Event>, t: State)
    requires s.ops == map[0 := Swap(scope, "", ref, property, Validating)] && scope in s.conns
    requires s.conns[scope].ref == "" <==> rival.None?
    requires ref in s.secrets && s.secrets[ref] == Secret(scope, false) && s.stranded == {}
    ensures Path(s, events, t) && t.ops == map[] && t.torn == s.torn && (env.revokeOk ==> t.stranded == {})
    ensures var kept := Keeps(property, retain, env, rival);
            && t.conns == (if kept then s.conns[scope := Conn(ref, property, property != "")] else s.conns)
            && t.secrets == s.secrets[ref := Secret(scope, !kept && env.revokeOk)]
  {
    if !Validates(property, retain, env) { events, t := FailsValidation(s, 0, env.revokeOk); }
    else if !Keeps(property, retain, env, rival) { events, t := LosesSwap(s, 0, !env.storeOk, env.revokeOk); }
    else { events, t := WinsSwap(s, 0, env.revokeOk); }
  }

  lemma ImportTrace(s: State, scope: Scope, ref: string, property: string, retain: bool, env: Env, rival: Option<Rival>)
    returns (trace: seq<Event>, t: State)
    requires s.ops == map[] && s.stranded == {} && IsFree(s.conns, scope) && ref != "" && ref !in s.secrets
    requires rival.Some? ==> rival.value.ref != "" && rival.value.ref !in s.secrets && rival.value.ref != ref
    ensures Path(s, trace, t) && t.ops == map[] && t.torn == s.torn && (env.revokeOk ==> t.stranded == {})
    ensures var kept := Keeps(property, retain, env, rival);
            && t.conns == (if kept then s.conns[scope := Conn(ref, property, property != "")] else WithRival(s.conns, scope, rival))
            && t.secrets == WithRivalSecret(s.secrets, scope, rival)[ref := Secret(scope, !kept && env.revokeOk)]
  {
    var es, u := ImportBegins(s, scope, ref, property, rival);
    RivalKeepsApart(s.secrets, scope, ref, rival, !Keeps(property, retain, env, rival) && env.revokeOk);
    var fs;
    fs, t := ImportEnds(u, scope, ref, property, retain, env, rival);
    PathConcat(s, es, u, fs, t);
    trace := es + fs;
  }

  lemma FailsValidation(s: State, o: nat, ok: bool) returns (events: seq<Event>, t: State)
    requires SwapAt(s, o, Validating)
    ensures Path(s, events, t)
    ensures var op := s.ops[o];
            t == State(s.conns, if ok then Revoke(s.secrets, op.scope, op.newRef) else s.secrets,
                       s.ops - {o}, if ok then s.stranded else s.stranded + {op.newRef}, s.torn)
  {
    events, t := Two(s, Validate(o, false), DropNew(o, ok));
    assert t.ops == s.ops - {o};
  }

  lemma LosesSwap(s: State, o: nat, error: bool, ok: bool) returns (events: seq<Event>, t: State)
    requires SwapAt(s, o, Validating) && s.ops[o].scope in s.conns
    requires error || s.conns[s.ops[o].scope].ref != s.ops[o].prevRef
    ensures Path(s, events, t)
    ensures var op := s.ops[o];
            t == State(s.conns, if ok then Revoke(s.secrets, op.scope, op.newRef) else s.secrets,
                       s.ops - {o}, if ok then s.stranded else s.stranded + {op.newRef}, s.torn)
  {
    var es, u := Two(s, Validate(o, true), if error then SwapError(o) else TrySwap(o));
    One(u, DropNew(o, ok));
    t := Next(u, DropNew(o, ok));
    assert t.ops == s.ops - {o};
    events := es + [DropNew(o, ok)];
    PathConcat(s, es, u, [DropNew(o, ok)], t);
  }

  lemma WinsSwap(s: State, o: nat, ok: bool) returns (events: seq<Event>, t: State)
    requires SwapAt(s, o, Validating) && s.ops[o].scope in s.conns
    requires s.conns[s.ops[o].scope].ref == s.ops[o].prevRef
    ensures Path(s, events, t)
    ensures var op := s.ops[o];
            var none := op.prevRef == "";
            t == State(s.conns[op.scope := Conn(op.newRef, op.property, op.property != "")],
                       if ok && !none then Revoke(s.secrets, op.scope, op.prevRef) else s.secrets,
                       s.ops - {o}, if ok || none then s.stranded else s.stranded + {op.prevRef}, s.torn)
  {
    var u;
    events, u := Two(s, Validate(o, true), TrySwap(o));
    if s.ops[o].prevRef == "" {
      t := u;
    } else {
      One(u, RevokeOld(o, ok));
      t := Next(u, RevokeOld(o, ok));
      PathConcat(s, events, u, [RevokeOld(o, ok)], t);
      events := events + [RevokeOld(o, ok)];
    }
    assert t.ops == s.ops - {o};
  }

  lemma BeginsImport(s: State, o: nat, scope: Scope, property: string, ref: string)
    returns (events: seq<Event>, t: State)
    requires o !in s.ops && scope in s.conns && s.conns[scope].ref == "" && ref != "" && ref !in s.secrets
    ensures Path(s, events, t)
    ensures t == State(s.conns, s.secrets[ref := Secret(scope, false)],
                       s.ops[o := Swap(scope, "", ref, property, Validating)], s.stranded, s.torn)
  {
    events, t := Two(s, BeginImport(o, scope, property), PutSecret(o, ref));
  }
}
