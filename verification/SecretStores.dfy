/** The two secret stores: a map kept in memory, and one encrypted payload per
    credential. Both answer every sequence of calls alike. */
module SecretStores {
  import opened Text

  datatype Scope = Scope(workspace: string, site: string, provider: string)

  datatype Material = Material(kind: string, bytes: seq<bv8>)

  const NO_MATERIAL := Material("", [])

  datatype Op =
    | Put(id: string, scope: Scope, material: Material)
    | Open(scope: Scope, id: string)
    | Rotate(scope: Scope, id: string, material: Material)
    | Revoke(scope: Scope, id: string)

  datatype Reply = Ref(id: string, kind: string) | Handle(material: Material) | Done | Refused

  // ----- In memory -----

  datatype Entry = Entry(scope: Scope, material: Material, revoked: bool)

  type Entries = map<string, Entry>

  function MemoryStep(m: Entries, op: Op): (Entries, Reply) {
    match op
    case Put(id, scope, material) => (m[id := Entry(scope, material, false)], Ref(id, material.kind))
    case Open(scope, id) =>
      if id !in m || m[id].revoked then (m, Refused)
      else if m[id].scope != scope then (m, Refused)
      else (m, Handle(m[id].material))
    case Rotate(scope, id, material) =>
      if id !in m || m[id].revoked then (m, Refused)
      else if m[id].scope != scope then (m, Refused)
      else (m[id := m[id].(material := material)], Done)
    case Revoke(scope, id) =>
      if id !in m then (m, Done)
      else if m[id].scope != scope then (m, Refused)
      else (m[id := m[id].(material := NO_MATERIAL, revoked := true)], Done)
  }

  // ----- Encrypted payloads -----

  /** Idealised AEAD: a ciphertext opens under its nonce and additional data only. */
  datatype Sealed = Sealed(nonce: nat, plain: seq<bv8>, aad: string)

  datatype Payload = Payload(scope: Scope, kind: string, nonce: nat, ciphered: Sealed, revoked: bool)

  type Files = map<string, Payload>

  function Aad(scope: Scope): string {
    scope.workspace + "|" + scope.site + "|" + scope.provider
  }

  function Seal(scope: Scope, material: Material, revoked: bool, nonce: nat): Payload {
    Payload(scope, material.kind, nonce, Sealed(nonce, material.bytes, Aad(scope)), revoked)
  }

  function Unseal(p: Payload): Option<Material> {
    if p.ciphered.nonce == p.nonce && p.ciphered.aad == Aad(p.scope)
    then Some(Material(p.kind, p.ciphered.plain)) else None
  }

  /** load: an id that is no UUID is refused before the disk is read. */
  function Load(f: Files, valid: string -> bool, id: string): Option<Payload> {
    if valid(id) && id in f then Some(f[id]) else None
  }

  function FileStep(f: Files, valid: string -> bool, op: Op, nonce: nat): (Files, Reply) {
    match op
    case Put(id, scope, material) => (f[id := Seal(scope, material, false, nonce)], Ref(id, material.kind))
    case Open(scope, id) =>
      (match Load(f, valid, id)
       case None => (f, Refused)
       case Some(p) =>
         if p.revoked || p.scope != scope then (f, Refused)
         else (match Unseal(p) case None => (f, Refused) case Some(material) => (f, Handle(material))))
    case Rotate(scope, id, material) =>
      (match Load(f, valid, id)
       case None => (f, Refused)
       case Some(p) =>
         if p.revoked || p.scope != scope then (f, Refused)
         else (f[id := Seal(p.scope, material, false, nonce)], Done))
    case Revoke(scope, id) =>
      (match Load(f, valid, id)
       case None => (f, Done)
       case Some(p) =>
         if p.scope != scope then (f, Refused)
         else (f[id := Seal(p.scope, Material(p.kind, []), true, nonce)], Done))
  }

  // ----- One specification -----

  function MemoryRun(m: Entries, ops: seq<Op>): (Entries, seq<Reply>)
    decreases |ops|
  {
    if ops == [] then (m, [])
    else
      var (m', reply) := MemoryStep(m, ops[0]);
      var (m'', replies) := MemoryRun(m', ops[1..]);
      (m'', [reply] + replies)
  }

  function FileRun(f: Files, valid: string -> bool, ops: seq<Op>, nonces: seq<nat>): (Files, seq<Reply>)
    requires |nonces| == |ops|
    decreases |ops|
  {
    if ops == [] then (f, [])
    else
      var (f', reply) := FileStep(f, valid, ops[0], nonces[0]);
      var (f'', replies) := FileRun(f', valid, ops[1..], nonces[1..]);
      (f'', [reply] + replies)
  }

  /** Put issues valid ids: they come from uuid.NewString. */
  predicate IssuesValidIds(valid: string -> bool, ops: seq<Op>) {
    forall i :: 0 <= i < |ops| && ops[i].Put? ==> valid(ops[i].id)
  }

  /** A payload stands for an entry: same owner and state, and while it is live
      it decrypts to the entry's material. */
  predicate Stands(p: Payload, e: Entry) {
    && p.scope == e.scope && p.revoked == e.revoked
    && (!e.revoked ==> Unseal(p) == Some(e.material))
  }

  ghost predicate Corresponds(f: Files, valid: string -> bool, m: Entries) {
    f.Keys == m.Keys && forall id :: id in m ==> valid(id) && Stands(f[id], m[id])
  }

  lemma StepRefines(f: Files, valid: string -> bool, m: Entries, op: Op, nonce: nat)
    requires Corresponds(f, valid, m) && (op.Put? ==> valid(op.id))
    ensures Corresponds(FileStep(f, valid, op, nonce).0, valid, MemoryStep(m, op).0)
    ensures FileStep(f, valid, op, nonce).1 == MemoryStep(m, op).1
  {
  }

  /** For every sequence of calls with the same ids, both stores succeed or fail
      together, and open the same material. */
  lemma {:induction false} FileRefinesMemory(f: Files, valid: string -> bool, m: Entries, ops: seq<Op>, nonces: seq<nat>)
    requires |nonces| == |ops| && Corresponds(f, valid, m) && IssuesValidIds(valid, ops)
    ensures FileRun(f, valid, ops, nonces).1 == MemoryRun(m, ops).1
    ensures Corresponds(FileRun(f, valid, ops, nonces).0, valid, MemoryRun(m, ops).0)
    decreases |ops|
  {
    if ops != [] {
      StepRefines(f, valid, m, ops[0], nonces[0]);
      FileRefinesMemory(FileStep(f, valid, ops[0], nonces[0]).0, valid, MemoryStep(m, ops[0]).0, ops[1..], nonces[1..]);
    }
  }

  predicate IsPutOf(op: Op, id: string) {
    op.Put? && op.id == id
  }

  predicate Touches(op: Op, scope: Scope, id: string) {
    IsPutOf(op, id) || ((op.Rotate? || op.Revoke?) && op.id == id && op.scope == scope)
  }

  /** A revoked credential stays revoked: nothing but a new Put under the same id
      changes it, and every Open and Rotate of it is refused. */
  lemma {:induction false} RevokedIsAbsorbing(m: Entries, ops: seq<Op>, id: string)
    requires id in m && m[id].revoked
    requires forall i :: 0 <= i < |ops| ==> !IsPutOf(ops[i], id)
    ensures id in MemoryRun(m, ops).0 && MemoryRun(m, ops).0[id].revoked
    ensures |MemoryRun(m, ops).1| == |ops|
    ensures forall i :: 0 <= i < |ops| && (ops[i].Open? || ops[i].Rotate?) && ops[i].id == id ==>
              MemoryRun(m, ops).1[i] == Refused
    decreases |ops|
  {
    if ops != [] {
      RevokedIsAbsorbing(MemoryStep(m, ops[0]).0, ops[1..], id);
      var replies := MemoryRun(m, ops).1;
      forall i | 0 <= i < |ops| && (ops[i].Open? || ops[i].Rotate?) && ops[i].id == id ensures replies[i] == Refused {
        if i > 0 { assert replies[i] == MemoryRun(MemoryStep(m, ops[0]).0, ops[1..]).1[i - 1]; }
      }
    }
  }

  /** A call from another scope is refused and changes nothing. */
  lemma WrongScopeChangesNothing(m: Entries, op: Op)
    requires !op.Put? && op.id in m && op.scope != m[op.id].scope
    ensures MemoryStep(m, op) == (m, Refused)
  {
  }

  lemma {:induction false} UntouchedStays(m: Entries, ops: seq<Op>, scope: Scope, id: string)
    requires id in m && m[id].scope == scope && !m[id].revoked
    requires forall i :: 0 <= i < |ops| ==> !Touches(ops[i], scope, id)
    ensures id in MemoryRun(m, ops).0 && MemoryRun(m, ops).0[id] == m[id]
    decreases |ops|
  {
    if ops != [] { UntouchedStays(MemoryStep(m, ops[0]).0, ops[1..], scope, id); }
  }

  /** A call that follows others. */
  function ReplyAfter(m: Entries, ops: seq<Op>, op: Op): Reply {
    MemoryStep(MemoryRun(m, ops).0, op).1
  }

  /** Put, then any calls that do not touch the credential: Open yields what was put. */
  lemma PutThenOpen(m: Entries, ops: seq<Op>, scope: Scope, id: string, material: Material)
    requires forall i :: 0 <= i < |ops| ==> !Touches(ops[i], scope, id)
    ensures MemoryStep(m, Put(id, scope, material)).1 == Ref(id, material.kind)
    ensures ReplyAfter(MemoryStep(m, Put(id, scope, material)).0, ops, Open(scope, id)) == Handle(material)
  {
    UntouchedStays(MemoryStep(m, Put(id, scope, material)).0, ops, scope, id);
  }

  /** A credential that opens can be rotated by its owner, and then opens as the
      replacement until it is touched again. */
  lemma RotateThenOpen(m: Entries, ops: seq<Op>, scope: Scope, id: string, material: Material)
    requires MemoryStep(m, Open(scope, id)).1.Handle?
    requires forall i :: 0 <= i < |ops| ==> !Touches(ops[i], scope, id)
    ensures MemoryStep(m, Rotate(scope, id, material)).1 == Done
    ensures ReplyAfter(MemoryStep(m, Rotate(scope, id, material)).0, ops, Open(scope, id)) == Handle(material)
  {
    UntouchedStays(MemoryStep(m, Rotate(scope, id, material)).0, ops, scope, id);
  }

  /** After a Revoke that is not refused, whatever calls follow without a new Put
      of that id, no scope can open or rotate it. */
  lemma RevokeThenRefused(m: Entries, ops: seq<Op>, scope: Scope, id: string, other: Scope, material: Material)
    requires MemoryStep(m, Revoke(scope, id)).1 == Done
    requires forall i :: 0 <= i < |ops| ==> !IsPutOf(ops[i], id)
    ensures ReplyAfter(MemoryStep(m, Revoke(scope, id)).0, ops, Open(other, id)) == Refused
    ensures ReplyAfter(MemoryStep(m, Revoke(scope, id)).0, ops, Rotate(other, id, material)) == Refused
  {
    var u := MemoryStep(m, Revoke(scope, id)).0;
    if id in u { RevokedIsAbsorbing(u, ops, id); } else { UnknownStays(u, ops, id); }
  }

  lemma {:induction false} UnknownStays(m: Entries, ops: seq<Op>, id: string)
    requires id !in m && forall i :: 0 <= i < |ops| ==> !IsPutOf(ops[i], id)
    ensures id !in MemoryRun(m, ops).0
    decreases |ops|
  {
    if ops != [] { UnknownStays(MemoryStep(m, ops[0]).0, ops[1..], id); }
  }

  /** The owner's Revoke is never refused, and forgets the material. */
  lemma RevokeForgets(m: Entries, scope: Scope, id: string)
    requires id in m && m[id].scope == scope
    ensures MemoryStep(m, Revoke(scope, id)).1 == Done
    ensures var u := MemoryStep(m, Revoke(scope, id)).0;
            id in u && u[id].revoked && u[id].material.bytes == [] && u[id].scope == scope
  {
  }

  /** Every call leaves all other credentials alone. */
  lemma CallsAreLocal(m: Entries, op: Op, id: string)
    requires op.id != id
    ensures id in MemoryStep(m, op).0 <==> id in m
    ensures id in m ==> MemoryStep(m, op).0[id] == m[id]
  {
  }

  predicate NoBar(s: string) {
    '|' !in s
  }

  lemma SplitAtBar(a: string, x: string, b: string, y: string)
    requires NoBar(a) && NoBar(b) && a + "|" + x == b + "|" + y
    ensures a == b && x == y
  {
    var s := a + "|" + x;
    assert s[|a|] == '|' && s[|b|] == '|';
    assert forall i :: 0 <= i < |a| ==> s[i] == a[i];
    assert forall i :: 0 <= i < |b| ==> s[i] == b[i];
    assert a == (a + "|" + x)[..|a|] && b == (b + "|" + y)[..|b|];
    assert x == (a + "|" + x)[|a| + 1..] && y == (b + "|" + y)[|b| + 1..];
  }

  predicate Bound(scope: Scope) {
    NoBar(scope.workspace) && NoBar(scope.site) && NoBar(scope.provider)
  }

  function Bars(s: string): nat {
    multiset(s)['|']
  }

  lemma BarsAdd(a: string, b: string)
    ensures Bars(a + "|" + b) == Bars(a) + 1 + Bars(b)
  {
  }

  lemma BarsOfAad(scope: Scope)
    ensures Bars(Aad(scope)) == Bars(scope.workspace) + Bars(scope.site) + Bars(scope.provider) + 2
  {
    BarsAdd(scope.workspace + "|" + scope.site, scope.provider);
    BarsAdd(scope.workspace, scope.site);
  }

  lemma AadOfBoundIsBound(scope: Scope, other: Scope)
    requires Bound(scope) && Aad(scope) == Aad(other)
    ensures Bound(other)
  {
    BarsOfAad(scope);
    BarsOfAad(other);
  }

  lemma SplitAad(w: string, s: string, p: string, w': string, s': string, p': string)
    requires NoBar(w) && NoBar(s) && NoBar(w') && NoBar(s') && w + "|" + s + "|" + p == w' + "|" + s' + "|" + p'
    ensures w == w' && s == s' && p == p'
  {
    var x, y := s + "|" + p, s' + "|" + p';
    assert w + "|" + s + "|" + p == w + "|" + x && w' + "|" + s' + "|" + p' == w' + "|" + y;
    SplitAtBar(w, x, w', y);
    SplitAtBar(s, p, s', p');
  }

  lemma AadDeterminesBound(scope: Scope, other: Scope)
    requires Bound(scope) && Aad(scope) == Aad(other)
    ensures scope == other
  {
    AadOfBoundIsBound(scope, other);
    SplitAad(scope.workspace, scope.site, scope.provider, other.workspace, other.site, other.provider);
  }

  lemma CutAtBar(s: string) returns (a: string, b: string)
    requires !NoBar(s)
    ensures s == a + "|" + b
  {
    var i :| 0 <= i < |s| && s[i] == '|';
    a, b := s[..i], s[i + 1..];
  }

  /** A scope with a bar in it shares its additional data with another scope. */
  lemma BarsCollide(scope: Scope) returns (other: Scope)
    requires !Bound(scope)
    ensures other != scope && Aad(other) == Aad(scope)
  {
    var w, s, p := scope.workspace, scope.site, scope.provider;
    if !NoBar(w) {
      var a, b := CutAtBar(w);
      other := Scope(a, b + "|" + s, p);
      assert |a| < |w|;
      assert Aad(other) == a + "|" + b + "|" + s + "|" + p;
    } else if !NoBar(s) {
      var a, b := CutAtBar(s);
      other := Scope(w, a, b + "|" + p);
      assert |a| < |s|;
      assert Aad(other) == w + "|" + (a + "|" + b) + "|" + p;
    } else {
      var a, b := CutAtBar(p);
      other := Scope(w + "|" + s, a, b);
      assert |w| < |other.workspace|;
      assert Aad(other) == w + "|" + s + "|" + (a + "|" + b);
    }
  }

  /** The payload of a scope, relabelled for another one, does not open. */
  ghost predicate OpensOnlyAs(scope: Scope, material: Material, nonce: nat) {
    forall other :: Unseal(Seal(scope, material, false, nonce).(scope := other)).Some? ==> other == scope
  }

  /** The additional data binds a payload to its scope exactly when no part of
      the scope contains the separator. */
  lemma RelabelledPayloadFails(scope: Scope, material: Material, nonce: nat)
    ensures OpensOnlyAs(scope, material, nonce) <==> Bound(scope)
  {
    if Bound(scope) {
      forall other | Unseal(Seal(scope, material, false, nonce).(scope := other)).Some? ensures other == scope {
        AadDeterminesBound(scope, other);
      }
    } else {
      var other := BarsCollide(scope);
      assert Unseal(Seal(scope, material, false, nonce).(scope := other)).Some?;
    }
  }

  /** The file store as an object, specified by the memory store. */
  class File {
    var files: Files
    const valid: string -> bool

    ghost predicate Represents(m: Entries) reads this { Corresponds(files, valid, m) }

    constructor (valid: string -> bool)
      ensures Represents(map[]) && this.valid == valid
    {
      this.valid := valid;
      files := map[];
    }

    method PutSecret(id: string, scope: Scope, material: Material, nonce: nat, ghost m: Entries) returns (reply: Reply)
      requires Represents(m) && valid(id)
      modifies this
      ensures Represents(MemoryStep(m, Put(id, scope, material)).0)
      ensures reply == MemoryStep(m, Put(id, scope, material)).1
    {
      files := files[id := Seal(scope, material, false, nonce)];
      reply := Ref(id, material.kind);
    }

    method OpenSecret(scope: Scope, id: string, ghost m: Entries) returns (reply: Reply)
      requires Represents(m)
      ensures Represents(m) && reply == MemoryStep(m, Open(scope, id)).1
    {
      var payload := Load(files, valid, id);
      if payload.None? || payload.value.revoked || payload.value.scope != scope { return Refused; }
      var material := Unseal(payload.value);
      reply := if material.Some? then Handle(material.value) else Refused;
    }

    method RotateSecret(scope: Scope, id: string, material: Material, nonce: nat, ghost m: Entries) returns (reply: Reply)
      requires Represents(m)
      modifies this
      ensures Represents(MemoryStep(m, Rotate(scope, id, material)).0)
      ensures reply == MemoryStep(m, Rotate(scope, id, material)).1
    {
      var payload := Load(files, valid, id);
      if payload.None? || payload.value.revoked || payload.value.scope != scope { return Refused; }
      files := files[id := Seal(payload.value.scope, material, false, nonce)];
      reply := Done;
    }

    method RevokeSecret(scope: Scope, id: string, nonce: nat, ghost m: Entries) returns (reply: Reply)
      requires Represents(m)
      modifies this
      ensures Represents(MemoryStep(m, Revoke(scope, id)).0)
      ensures reply == MemoryStep(m, Revoke(scope, id)).1
      ensures valid(id) && id in old(files) && old(files)[id].scope == scope ==>
                id in files && files[id].revoked && files[id].ciphered.plain == [] && reply == Done
    {
      var payload := Load(files, valid, id);
      if payload.None? { return Done; }
      if payload.value.scope != scope { return Refused; }
      files := files[id := Seal(payload.value.scope, Material(payload.value.kind, []), true, nonce)];
      reply := Done;
    }
  }
}
