/** No interleaving of rotations leaves a row pointing at a dead secret, or a
    live secret that no row points at. */
module RotationSafety {
  import opened Rotation

  predicate WritesBlindly(e: Event) {
    e.WriteProperty? || e.ClearRow?
  }

  /** An unconditional write finds the ref it read still in the row, so that the
      comparison it does not make would have succeeded; or it clears a row that
      is empty already. */
  predicate Undisturbed(s: State, e: Event)
    requires Enabled(s, e)
  {
    WritesBlindly(e) ==>
      var op := s.ops[e.o];
      s.conns[op.scope].ref == op.ref || (e.ClearRow? && s.conns[op.scope].ref == "")
  }

  ghost predicate UndisturbedPath(s: State, events: seq<Event>)
    decreases |events|
  {
    events == [] || (Enabled(s, events[0]) && Undisturbed(s, events[0]) && UndisturbedPath(Next(s, events[0]), events[1..]))
  }

  // ----- Invariant -----

  predicate Known(s: State, scope: Scope, ref: string) {
    ref != "" ==> ref in s.secrets && s.secrets[ref].scope == scope
  }

  predicate Dead(s: State, ref: string) {
    ref in s.secrets && s.secrets[ref].revoked
  }

  predicate Mentions(op: Op, ref: string) {
    match op
    case Swap(_, prevRef, newRef, _, step) => prevRef == ref || (step != Putting && newRef == ref)
    case Choose(_, r, _, _) => r == ref
    case Close(_, r, _) => r == ref
  }

  /** No row holds ref. */
  predicate Unreferenced(s: State, ref: string) {
    forall scope :: scope in s.conns ==> s.conns[scope].ref != ref
  }

  /** Only operation o knows ref. */
  predicate Private(s: State, o: nat, ref: string) {
    Unreferenced(s, ref) && forall k :: k in s.ops && k != o ==> !Mentions(s.ops[k], ref)
  }

  predicate OpOk(s: State, o: nat)
    requires o in s.ops
  {
    s.ops[o].scope in s.conns &&
    match s.ops[o]
    case Swap(scope, prevRef, newRef, _, step) =>
      && Known(s, scope, prevRef)
      && (step != Putting ==> newRef != "" && Known(s, scope, newRef))
      && (step == Validating || step == Swapping ==> !Dead(s, newRef))
      && (step == Validating || step == Swapping || step == DroppingNew ==> Private(s, o, newRef))
      && (step == RevokingOld ==> prevRef != "" && Unreferenced(s, prevRef))
    case Choose(scope, ref, _, _) => ref != "" && Known(s, scope, ref)
    case Close(scope, ref, closing) =>
      && Known(s, scope, ref)
      && (closing == RevokingSecret ==> ref != "")
      && (closing == ClearingRow && ref != "" ==> Dead(s, ref))
  }

  ghost predicate BeingClosed(s: State, scope: Scope, ref: string) {
    exists o :: o in s.ops && s.ops[o] == Close(scope, ref, ClearingRow)
  }

  /** The row's credential opens, unless a revokeConnection is between killing
      the secret and clearing the row, or failed there. */
  ghost predicate RowSafe(s: State, scope: Scope)
    requires scope in s.conns
  {
    var ref := s.conns[scope].ref;
    && Known(s, scope, ref)
    && (ref != "" ==> Opens(s.secrets, scope, ref) || ref in s.torn || BeingClosed(s, scope, ref))
  }

  ghost predicate IsOwed(s: State, ref: string) {
    exists o :: o in s.ops && ref in Owed(s.ops[o])
  }

  /** A live secret is in its row, or somebody still has to revoke it. */
  ghost predicate Accounted(s: State, ref: string)
    requires ref in s.secrets
  {
    var secret := s.secrets[ref];
    && ref != "" && secret.scope in s.conns
    && (!secret.revoked ==> s.conns[secret.scope].ref == ref || ref in s.stranded || IsOwed(s, ref))
  }

  ghost predicate Inv(s: State) {
    && (forall o :: o in s.ops ==> OpOk(s, o))
    && (forall scope :: scope in s.conns ==> RowSafe(s, scope))
    && (forall ref :: ref in s.secrets ==> Accounted(s, ref))
  }

  // ----- Every undisturbed step keeps it -----

  predicate Begins(e: Event) {
    e.EnsureRow? || e.BeginRotation? || e.BeginImport? || e.BeginChoose? || e.BeginClose?
  }

  predicate Prepares(e: Event) {
    e.Validate? || e.SwapError? || e.OpenChosen?
  }

  predicate Kills(e: Event) {
    e.DropNew? || e.RevokeOld? || e.CloseRevoke?
  }

  lemma OpAfterBegin(s: State, e: Event, k: nat)
    requires Inv(s) && Enabled(s, e) && k in Next(s, e).ops && Begins(e)
    ensures OpOk(Next(s, e), k)
  {
    if k in s.ops { assert OpOk(s, k); } else { assert RowSafe(s, e.scope); }
  }

  lemma OpAfterPut(s: State, e: Event, k: nat)
    requires Inv(s) && Enabled(s, e) && k in Next(s, e).ops && e.PutSecret?
    ensures OpOk(Next(s, e), k)
  {
    assert forall o :: o in s.ops ==> OpOk(s, o);
    assert forall scope :: scope in s.conns ==> RowSafe(s, scope);
  }

  lemma OpAfterPrepare(s: State, e: Event, k: nat)
    requires Inv(s) && Enabled(s, e) && k in Next(s, e).ops && Prepares(e)
    ensures OpOk(Next(s, e), k)
  {
    assert OpOk(s, k);
  }

  lemma OthersAfterHit(s: State, e: Event, k: nat)
    requires Inv(s) && Enabled(s, e) && e.TrySwap? && k in s.ops && k != e.o
    requires s.conns[s.ops[e.o].scope].ref == s.ops[e.o].prevRef
    ensures OpOk(Next(s, e), k)
  {
    assert OpOk(s, k) && OpOk(s, e.o);
  }

  /** The swap lands: the old ref leaves its row, the new one becomes public. */
  lemma OpAfterHit(s: State, e: Event, k: nat)
    requires Inv(s) && Enabled(s, e) && k in Next(s, e).ops && e.TrySwap?
    requires s.conns[s.ops[e.o].scope].ref == s.ops[e.o].prevRef
    ensures OpOk(Next(s, e), k)
  {
    if k != e.o {
      OthersAfterHit(s, e, k);
    } else {
      assert OpOk(s, k);
      assert forall scope :: scope in s.conns ==> RowSafe(s, scope);
    }
  }

  lemma OpAfterMiss(s: State, e: Event, k: nat)
    requires Inv(s) && Enabled(s, e) && k in Next(s, e).ops && e.TrySwap?
    requires s.conns[s.ops[e.o].scope].ref != s.ops[e.o].prevRef
    ensures OpOk(Next(s, e), k)
  {
    assert OpOk(s, k);
  }

  /** Revoking a ref that one operation mentions harms no other operation. */
  lemma OpAfterRevoke(s: State, o: nat, ref: string, k: nat)
    requires Inv(s) && o in s.ops && Mentions(s.ops[o], ref) && k in s.ops && k != o
    ensures OpOk(s.(secrets := Revoke(s.secrets, s.ops[o].scope, ref)), k)
  {
    assert OpOk(s, k);
  }

  lemma OpAfterCloseRevoke(s: State, e: Event, k: nat)
    requires Inv(s) && Enabled(s, e) && k in Next(s, e).ops && e.CloseRevoke?
    ensures OpOk(Next(s, e), k)
  {
    assert OpOk(s, k);
    if k != e.o { OpAfterRevoke(s, e.o, s.ops[e.o].ref, k); }
  }

  lemma OpAfterDrop(s: State, e: Event, k: nat)
    requires Inv(s) && Enabled(s, e) && k in Next(s, e).ops && e.DropNew?
    ensures OpOk(Next(s, e), k)
  {
    assert OpOk(s, k);
    if e.ok { OpAfterRevoke(s, e.o, s.ops[e.o].newRef, k); }
  }

  lemma OpAfterRevokeOld(s: State, e: Event, k: nat)
    requires Inv(s) && Enabled(s, e) && k in Next(s, e).ops && e.RevokeOld?
    ensures OpOk(Next(s, e), k)
  {
    assert OpOk(s, k);
    if e.ok { OpAfterRevoke(s, e.o, s.ops[e.o].prevRef, k); }
  }

  lemma OpAfterEnd(s: State, e: Event, k: nat)
    requires Inv(s) && Enabled(s, e) && Undisturbed(s, e) && k in Next(s, e).ops
    requires e.WriteProperty? || e.ClearRow? || e.Crash?
    ensures OpOk(Next(s, e), k)
  {
    assert OpOk(s, k) && OpOk(s, e.o);
  }

  lemma OpsSurvive(s: State, e: Event, k: nat)
    requires Inv(s) && Enabled(s, e) && Undisturbed(s, e) && k in Next(s, e).ops
    ensures OpOk(Next(s, e), k)
  {
    if Begins(e) { OpAfterBegin(s, e, k); }
    else if e.PutSecret? { OpAfterPut(s, e, k); }
    else if Prepares(e) { OpAfterPrepare(s, e, k); }
    else if e.CloseRevoke? { OpAfterCloseRevoke(s, e, k); }
    else if e.DropNew? { OpAfterDrop(s, e, k); }
    else if e.RevokeOld? { OpAfterRevokeOld(s, e, k); }
    else if !e.TrySwap? { OpAfterEnd(s, e, k); }
    else if s.conns[s.ops[e.o].scope].ref == s.ops[e.o].prevRef { OpAfterHit(s, e, k); }
    else { OpAfterMiss(s, e, k); }
  }

  lemma ClosingSurvives(s: State, e: Event, scope: Scope, ref: string)
    requires Inv(s) && Enabled(s, e) && BeingClosed(s, scope, ref)
    ensures BeingClosed(Next(s, e), scope, ref)
            || ((e.ClearRow? || e.Crash?) && s.ops[e.o] == Close(scope, ref, ClearingRow))
  {
    var k :| k in s.ops && s.ops[k] == Close(scope, ref, ClearingRow);
    if e.EnsureRow? || k != e.o { OthersStay(s, e, k); }
  }

  lemma RowAfterKill(s: State, e: Event, scope: Scope)
    requires Inv(s) && Enabled(s, e) && scope in s.conns && Kills(e)
    ensures RowSafe(Next(s, e), scope)
  {
    assert RowSafe(s, scope) && OpOk(s, e.o);
    var ref := s.conns[scope].ref;
    if BeingClosed(s, scope, ref) { ClosingSurvives(s, e, scope, ref); }
    if e.CloseRevoke? && e.ok { assert Next(s, e).ops[e.o] == Close(s.ops[e.o].scope, s.ops[e.o].ref, ClearingRow); }
  }

  lemma RowAfterSwap(s: State, e: Event, scope: Scope)
    requires Inv(s) && Enabled(s, e) && scope in s.conns && e.TrySwap?
    ensures RowSafe(Next(s, e), scope)
  {
    assert RowSafe(s, scope) && OpOk(s, e.o);
    var ref := s.conns[scope].ref;
    if BeingClosed(s, scope, ref) { ClosingSurvives(s, e, scope, ref); }
  }

  lemma RowSurvives(s: State, e: Event, scope: Scope)
    requires Inv(s) && Enabled(s, e) && Undisturbed(s, e) && scope in Next(s, e).conns
    ensures RowSafe(Next(s, e), scope)
  {
    if Kills(e) { RowAfterKill(s, e, scope); }
    else if e.TrySwap? { RowAfterSwap(s, e, scope); }
    else if scope in s.conns {
      assert RowSafe(s, scope);
      var ref := s.conns[scope].ref;
      if BeingClosed(s, scope, ref) { ClosingSurvives(s, e, scope, ref); }
    }
  }

  /** A step leaves the operations it does not belong to alone. */
  lemma OthersStay(s: State, e: Event, k: nat)
    requires Enabled(s, e) && k in s.ops && (e.EnsureRow? || k != e.o)
    ensures k in Next(s, e).ops && Next(s, e).ops[k] == s.ops[k]
  {
  }

  lemma DebtSurvives(s: State, e: Event, ref: string)
    requires Enabled(s, e) && IsOwed(s, ref)
    ensures IsOwed(Next(s, e), ref) || (!e.EnsureRow? && e.o in s.ops && ref in Owed(s.ops[e.o]))
  {
    var k :| k in s.ops && ref in Owed(s.ops[k]);
    if e.EnsureRow? || k != e.o { OthersStay(s, e, k); }
  }

  lemma SecretAfterKill(s: State, e: Event, ref: string)
    requires Inv(s) && Enabled(s, e) && ref in s.secrets && Kills(e)
    ensures Accounted(Next(s, e), ref)
  {
    assert Accounted(s, ref) && OpOk(s, e.o);
    if IsOwed(s, ref) { DebtSurvives(s, e, ref); }
  }

  lemma SecretAfterSwap(s: State, e: Event, ref: string)
    requires Inv(s) && Enabled(s, e) && ref in s.secrets && e.TrySwap?
    ensures Accounted(Next(s, e), ref)
  {
    assert Accounted(s, ref) && OpOk(s, e.o);
    if IsOwed(s, ref) { DebtSurvives(s, e, ref); }
    if e.o in Next(s, e).ops && ref in Owed(Next(s, e).ops[e.o]) { assert IsOwed(Next(s, e), ref); }
  }

  lemma SecretAfterPrepare(s: State, e: Event, ref: string)
    requires Inv(s) && Enabled(s, e) && ref in Next(s, e).secrets && (e.PutSecret? || Prepares(e))
    ensures Accounted(Next(s, e), ref)
  {
    assert OpOk(s, e.o) && (ref in s.secrets ==> Accounted(s, ref));
    if IsOwed(s, ref) { DebtSurvives(s, e, ref); }
    if ref in Owed(Next(s, e).ops[e.o]) { assert IsOwed(Next(s, e), ref); }
  }

  lemma SecretAfterEnd(s: State, e: Event, ref: string)
    requires Inv(s) && Enabled(s, e) && Undisturbed(s, e) && ref in s.secrets
    requires e.WriteProperty? || e.ClearRow? || e.Crash?
    ensures Accounted(Next(s, e), ref)
  {
    assert Accounted(s, ref) && OpOk(s, e.o);
    if IsOwed(s, ref) { DebtSurvives(s, e, ref); }
  }

  lemma SecretSurvives(s: State, e: Event, ref: string)
    requires Inv(s) && Enabled(s, e) && Undisturbed(s, e) && ref in Next(s, e).secrets
    ensures Accounted(Next(s, e), ref)
  {
    if Kills(e) { SecretAfterKill(s, e, ref); }
    else if e.TrySwap? { SecretAfterSwap(s, e, ref); }
    else if e.PutSecret? || Prepares(e) { SecretAfterPrepare(s, e, ref); }
    else if !Begins(e) { SecretAfterEnd(s, e, ref); }
    else {
      assert Accounted(s, ref);
      if IsOwed(s, ref) { DebtSurvives(s, e, ref); }
    }
  }

  lemma StepKeepsInv(s: State, e: Event)
    requires Inv(s) && Enabled(s, e) && Undisturbed(s, e)
    ensures Inv(Next(s, e))
  {
    var t := Next(s, e);
    forall o | o in t.ops ensures OpOk(t, o) { OpsSurvive(s, e, o); }
    forall scope | scope in t.conns ensures RowSafe(t, scope) { RowSurvives(s, e, scope); }
    forall ref | ref in t.secrets ensures Accounted(t, ref) { SecretSurvives(s, e, ref); }
  }

  lemma {:induction false} PathKeepsInv(s: State, events: seq<Event>, t: State)
    requires Inv(s) && Path(s, events, t) && UndisturbedPath(s, events)
    ensures Inv(t)
    decreases |events|
  {
    if events != [] {
      StepKeepsInv(s, events[0]);
      PathKeepsInv(Next(s, events[0]), events[1..], t);
    }
  }

  // ----- The two promises -----

  /** In every interleaving a non-empty credential ref opens in its scope,
      except inside a revokeConnection that has killed that very secret, or
      after one that stopped there. */
  lemma RefAlwaysOpens(s: State, events: seq<Event>, t: State, scope: Scope)
    requires Init(s) && Path(s, events, t) && UndisturbedPath(s, events)
    requires scope in t.conns && t.conns[scope].ref != ""
    ensures var ref := t.conns[scope].ref;
            Opens(t.secrets, scope, ref) || BeingClosed(t, scope, ref) || ref in t.torn
  {
    PathKeepsInv(s, events, t);
    assert RowSafe(t, scope);
  }

  function Live(s: State, scope: Scope): set<string> {
    set ref | ref in s.secrets && Opens(s.secrets, scope, ref)
  }

  /** Nothing is in flight and no clean-up failed. */
  predicate Quiet(s: State) {
    s.ops == map[] && s.stranded == s.torn == {}
  }

  /** The live secrets of a scope are exactly the one its row refers to. */
  predicate HoldsOneSecret(s: State, scope: Scope)
    requires scope in s.conns
  {
    Live(s, scope) == if s.conns[scope].ref == "" then {} else {s.conns[scope].ref}
  }

  lemma QuietHoldsOneSecret(s: State, scope: Scope)
    requires Inv(s) && Quiet(s) && scope in s.conns
    ensures HoldsOneSecret(s, scope)
  {
    assert RowSafe(s, scope);
    forall ref | ref in Live(s, scope) ensures ref == s.conns[scope].ref && ref != "" {
      assert Accounted(s, ref);
    }
  }

  /** With nothing in flight and nothing failed, no secret is lost or leaked. */
  lemma QuietScopeHoldsOneSecret(s: State, events: seq<Event>, t: State, scope: Scope)
    requires Init(s) && Path(s, events, t) && UndisturbedPath(s, events)
    requires Quiet(t) && scope in t.conns
    ensures HoldsOneSecret(t, scope)
  {
    PathKeepsInv(s, events, t);
    QuietHoldsOneSecret(t, scope);
  }

  // ----- Exactly which unconditional writes are harmless -----

  /** Before a last write nothing but the row's own secret is alive in its scope. */
  lemma BeforeLastWrite(s: State, e: Event, ref: string)
    requires Inv(s) && Enabled(s, e) && WritesBlindly(e) && Quiet(Next(s, e))
    requires ref in Live(s, s.ops[e.o].scope)
    ensures ref != "" && ref == s.conns[s.ops[e.o].scope].ref
  {
    assert Accounted(s, ref);
    assert forall k :: k in s.ops && k != e.o ==> k in Next(s, e).ops;
  }

  lemma RowBeforeLastWrite(s: State, e: Event)
    requires Inv(s) && Enabled(s, e) && WritesBlindly(e) && Quiet(Next(s, e))
    ensures var op := s.ops[e.o];
            var ref := s.conns[op.scope].ref;
            ref != "" && ref != op.ref ==> Opens(s.secrets, op.scope, ref)
  {
    assert RowSafe(s, s.ops[e.o].scope);
    assert forall k :: k in s.ops && k != e.o ==> k in Next(s, e).ops;
  }

  /** The last write of a history that was undisturbed so far leaves the scope
      with exactly its referenced secret iff the write is undisturbed. */
  lemma LastWriteDecides(s: State, events: seq<Event>, t: State, e: Event)
    requires Init(s) && Path(s, events, t) && UndisturbedPath(s, events)
    requires Enabled(t, e) && WritesBlindly(e) && Quiet(Next(t, e))
    ensures HoldsOneSecret(Next(t, e), t.ops[e.o].scope) <==> Undisturbed(t, e)
  {
    PathKeepsInv(s, events, t);
    var scope, u := t.ops[e.o].scope, Next(t, e);
    var before, after := t.conns[scope].ref, u.conns[scope].ref;
    assert OpOk(t, e.o) && Live(u, scope) == Live(t, scope);
    if Undisturbed(t, e) {
      StepKeepsInv(t, e);
      QuietHoldsOneSecret(u, scope);
    } else {
      forall ref | ref in Live(t, scope) ensures ref != "" && ref == before { BeforeLastWrite(t, e, ref); }
      RowBeforeLastWrite(t, e);
      assert before != "" ==> before in Live(u, scope);
    }
  }
}
