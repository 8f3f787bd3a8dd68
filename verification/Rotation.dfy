/** Credential rotation: handlers that put a secret, validate it, swap the
    connection row by compare-and-swap and revoke what was replaced, and the two
    handlers that write the row without comparing. Every store call is one
    atomic step; any number of handlers interleave, fail and crash. */
module Rotation {

  datatype Scope = Scope(site: string, provider: string)

  datatype Conn = Conn(ref: string, property: string, enabled: bool)

  datatype Secret = Secret(scope: Scope, revoked: bool)

  datatype SwapStep = Putting | Validating | Swapping | DroppingNew | RevokingOld
  datatype ChooseStep = Opening | Writing
  datatype CloseStep = RevokingSecret | ClearingRow

  datatype Op =
    // setCredential, oauthComplete and ImportConnection
    | Swap(scope: Scope, prevRef: string, newRef: string, property: string, step: SwapStep)
    // setProperty
    | Choose(scope: Scope, ref: string, property: string, choosing: ChooseStep)
    // revokeConnection
    | Close(scope: Scope, ref: string, closing: CloseStep)

  /** `stranded` records the refs whose revocation a failure or crash skipped,
      `torn` those of a revokeConnection that stopped before clearing the row. */
  datatype State = State(conns: map<Scope, Conn>, secrets: map<string, Secret>,
                         ops: map<nat, Op>, stranded: set<string>, torn: set<string>)

  datatype Event =
    | EnsureRow(scope: Scope)
    | BeginRotation(o: nat, scope: Scope)
    | BeginImport(o: nat, scope: Scope, property: string)
    | PutSecret(o: nat, ref: string)
    | Validate(o: nat, ok: bool)
    | TrySwap(o: nat)
    | SwapError(o: nat)
    | DropNew(o: nat, ok: bool)
    | RevokeOld(o: nat, ok: bool)
    | BeginChoose(o: nat, scope: Scope, property: string)
    | OpenChosen(o: nat)
    | WriteProperty(o: nat)
    | BeginClose(o: nat, scope: Scope)
    | CloseRevoke(o: nat, ok: bool)
    | ClearRow(o: nat)
    | Crash(o: nat)

  /** Open succeeds: the secret exists in this scope and is not revoked. */
  predicate Opens(secrets: map<string, Secret>, scope: Scope, ref: string) {
    ref in secrets && secrets[ref] == Secret(scope, false)
  }

  function Revoke(secrets: map<string, Secret>, scope: Scope, ref: string): map<string, Secret> {
    if ref in secrets && secrets[ref].scope == scope then secrets[ref := Secret(scope, true)] else secrets
  }

  predicate SwapAt(s: State, o: nat, step: SwapStep) {
    o in s.ops && s.ops[o].Swap? && s.ops[o].step == step
  }

  predicate Enabled(s: State, e: Event) {
    match e
    case EnsureRow(scope) => true
    case BeginRotation(o, scope) => o !in s.ops && scope in s.conns
    case BeginImport(o, scope, _) => o !in s.ops && scope in s.conns && s.conns[scope].ref == ""
    case PutSecret(o, ref) => SwapAt(s, o, Putting) && ref != "" && ref !in s.secrets
    case Validate(o, _) => SwapAt(s, o, Validating)
    case TrySwap(o) => SwapAt(s, o, Swapping) && s.ops[o].scope in s.conns
    case SwapError(o) => SwapAt(s, o, Swapping)
    case DropNew(o, _) => SwapAt(s, o, DroppingNew)
    case RevokeOld(o, _) => SwapAt(s, o, RevokingOld)
    case BeginChoose(o, scope, property) =>
      o !in s.ops && scope in s.conns && s.conns[scope].ref != "" && property != ""
    case OpenChosen(o) =>
      o in s.ops && s.ops[o].Choose? && s.ops[o].choosing == Opening && Opens(s.secrets, s.ops[o].scope, s.ops[o].ref)
    case WriteProperty(o) =>
      o in s.ops && s.ops[o].Choose? && s.ops[o].choosing == Writing && s.ops[o].scope in s.conns
    case BeginClose(o, scope) => o !in s.ops && scope in s.conns
    case CloseRevoke(o, _) => o in s.ops && s.ops[o].Close? && s.ops[o].closing == RevokingSecret
    case ClearRow(o) =>
      o in s.ops && s.ops[o].Close? && s.ops[o].closing == ClearingRow && s.ops[o].scope in s.conns
    case Crash(o) => o in s.ops
  }

  function WithOp(s: State, o: nat, op: Op): State {
    s.(ops := s.ops[o := op])
  }

  function Done(s: State, o: nat): State {
    s.(ops := s.ops - {o})
  }

  /** The ref an operation still has to revoke. */
  function Owed(op: Op): set<string> {
    match op
    case Swap(_, prevRef, newRef, _, step) =>
      if step == Putting then {} else if step == RevokingOld then {prevRef} else {newRef}
    case _ => {}
  }

  /** The revoked ref an operation still has to take out of its row. */
  function Unfinished(op: Op): set<string> {
    if op.Close? && op.closing == ClearingRow && op.ref != "" then {op.ref} else {}
  }

  function Next(s: State, e: Event): State
    requires Enabled(s, e)
  {
    match e
    case EnsureRow(scope) =>
      if scope in s.conns then s else s.(conns := s.conns[scope := Conn("", "", false)])
    case BeginRotation(o, scope) =>
      WithOp(s, o, Swap(scope, s.conns[scope].ref, "", s.conns[scope].property, Putting))
    case BeginImport(o, scope, property) => WithOp(s, o, Swap(scope, "", "", property, Putting))
    case PutSecret(o, ref) =>
      WithOp(s, o, s.ops[o].(newRef := ref, step := Validating))
      .(secrets := s.secrets[ref := Secret(s.ops[o].scope, false)])
    case Validate(o, ok) => WithOp(s, o, s.ops[o].(step := if ok then Swapping else DroppingNew))
    case TrySwap(o) =>
      var op := s.ops[o];
      if s.conns[op.scope].ref != op.prevRef then WithOp(s, o, op.(step := DroppingNew))
      else
        var t := s.(conns := s.conns[op.scope := Conn(op.newRef, op.property, op.property != "")]);
        if op.prevRef == "" then Done(t, o) else WithOp(t, o, op.(step := RevokingOld))
    case SwapError(o) => WithOp(s, o, s.ops[o].(step := DroppingNew))
    case DropNew(o, ok) =>
      if ok then Done(s, o).(secrets := Revoke(s.secrets, s.ops[o].scope, s.ops[o].newRef))
      else Done(s, o).(stranded := s.stranded + Owed(s.ops[o]))
    case RevokeOld(o, ok) =>
      if ok then Done(s, o).(secrets := Revoke(s.secrets, s.ops[o].scope, s.ops[o].prevRef))
      else Done(s, o).(stranded := s.stranded + Owed(s.ops[o]))
    case BeginChoose(o, scope, property) => WithOp(s, o, Choose(scope, s.conns[scope].ref, property, Opening))
    case OpenChosen(o) => WithOp(s, o, s.ops[o].(choosing := Writing))
    case WriteProperty(o) =>
      Done(s, o).(conns := s.conns[s.ops[o].scope := Conn(s.ops[o].ref, s.ops[o].property, true)])
    case BeginClose(o, scope) =>
      WithOp(s, o, Close(scope, s.conns[scope].ref, if s.conns[scope].ref == "" then ClearingRow else RevokingSecret))
    case CloseRevoke(o, ok) =>
      if !ok then Done(s, o)
      else WithOp(s, o, s.ops[o].(closing := ClearingRow))
           .(secrets := Revoke(s.secrets, s.ops[o].scope, s.ops[o].ref))
    case ClearRow(o) => Done(s, o).(conns := s.conns[s.ops[o].scope := Conn("", "", false)])
    case Crash(o) =>
      Done(s, o).(stranded := s.stranded + Owed(s.ops[o]), torn := s.torn + Unfinished(s.ops[o]))
  }

  ghost predicate Init(s: State) {
    s == State(map[], map[], map[], {}, {})
  }

  ghost predicate Path(s: State, events: seq<Event>, t: State)
    decreases |events|
  {
    if events == [] then s == t
    else Enabled(s, events[0]) && Path(Next(s, events[0]), events[1..], t)
  }

  lemma {:induction false} PathConcat(s: State, es: seq<Event>, t: State, fs: seq<Event>, u: State)
    requires Path(s, es, t) && Path(t, fs, u)
    ensures Path(s, es + fs, u)
    decreases |es|
  {
    if es == [] {
      assert es + fs == fs;
    } else {
      PathConcat(Next(s, es[0]), es[1..], t, fs, u);
      assert (es + fs)[0] == es[0] && (es + fs)[1..] == es[1..] + fs;
    }
  }

  lemma Two(s: State, e: Event, f: Event) returns (events: seq<Event>, t: State)
    requires Enabled(s, e) && Enabled(Next(s, e), f)
    ensures Path(s, events, t) && t == Next(Next(s, e), f)
  {
    t := Next(Next(s, e), f);
    events := [e, f];
    assert events[1..] == [f] && [f][1..] == [];
    assert Path(Next(s, e), [f], t);
  }

  lemma One(s: State, e: Event)
    requires Enabled(s, e)
    ensures Path(s, [e], Next(s, e))
  {
    assert [e][1..] == [];
  }

  // ----- The shape of a row, in every interleaving -----

  predicate RowOk(c: Conn) {
    (c.enabled <==> c.property != "") && (c.enabled ==> c.ref != "")
  }

  predicate ShapeOk(op: Op) {
    match op
    case Swap(_, _, newRef, _, step) => step == Putting || newRef != ""
    case Choose(_, ref, property, _) => ref != "" && property != ""
    case Close(_, _, _) => true
  }

  ghost predicate Shapes(s: State) {
    && (forall scope :: scope in s.conns ==> RowOk(s.conns[scope]))
    && (forall o :: o in s.ops ==> ShapeOk(s.ops[o]))
  }

  lemma StepKeepsShapes(s: State, e: Event)
    requires Shapes(s) && Enabled(s, e)
    ensures Shapes(Next(s, e))
  {
    var t := Next(s, e);
    forall o | o in t.ops ensures ShapeOk(t.ops[o]) {
      if o in s.ops { assert ShapeOk(s.ops[o]); }
    }
    forall scope | scope in t.conns ensures RowOk(t.conns[scope]) {
      if scope in s.conns { assert RowOk(s.conns[scope]); }
      if e.WriteProperty? || e.TrySwap? { assert ShapeOk(s.ops[e.o]); }
    }
  }

  /** Whatever interleaves, a row is enabled iff it has a property, and then it
      has a credential. */
  lemma {:induction false} RowsStayWellFormed(s: State, events: seq<Event>, t: State)
    requires Shapes(s) && Path(s, events, t)
    ensures Shapes(t)
    decreases |events|
  {
    if events != [] {
      StepKeepsShapes(s, events[0]);
      RowsStayWellFormed(Next(s, events[0]), events[1..], t);
    }
  }

  /** A sync request that passes Create's check saw a credential and a property. */
  lemma AcceptedHasCredentialAndProperty(s: State, events: seq<Event>, t: State, scope: Scope)
    requires Init(s) && Path(s, events, t) && scope in t.conns
    ensures t.conns[scope].enabled && t.conns[scope].ref != "" <==> t.conns[scope].property != ""
    ensures t.conns[scope].property != "" ==> t.conns[scope].ref != ""
  {
    RowsStayWellFormed(s, events, t);
    assert RowOk(t.conns[scope]);
  }
}
