/** What a rotation does to the chosen property. The swap compares the ref alone,
    so it is decided by what was written to the row since the rotation read it.
    Everything here holds on every path, disturbed or not. */
module RotationProperty {
  import opened Rotation

  // ----- Refs that have been installed -----

  /** The operation may still install the ref it put. */
  predicate Pending(op: Op, ref: string) {
    op.Swap? && (op.step == Validating || op.step == Swapping) && op.newRef == ref
  }

  /** The ref was issued, and no operation is about to install it for the first time. */
  ghost predicate Public(s: State, ref: string) {
    ref in s.secrets && forall o :: o in s.ops ==> !Pending(s.ops[o], ref)
  }

  lemma StepKeepsPublic(s: State, e: Event, ref: string)
    requires Enabled(s, e) && Public(s, ref)
    ensures Public(Next(s, e), ref)
  {
    var t := Next(s, e);
    forall o | o in t.ops ensures !Pending(t.ops[o], ref) {
      if o in s.ops { assert !Pending(s.ops[o], ref); }
    }
  }

  predicate Belongs(s: State, scope: Scope, ref: string) {
    ref != "" && ref in s.secrets && s.secrets[ref].scope == scope
  }

  ghost predicate RowIssued(s: State, scope: Scope)
    requires scope in s.conns
  {
    var ref := s.conns[scope].ref;
    ref != "" ==> Public(s, ref) && Belongs(s, scope, ref)
  }

  ghost predicate OpIssued(s: State, o: nat)
    requires o in s.ops
  {
    match s.ops[o]
    case Choose(scope, ref, _, _) => Public(s, ref) && Belongs(s, scope, ref)
    case Swap(scope, _, newRef, _, _) =>
      Pending(s.ops[o], newRef) ==> Belongs(s, scope, newRef) && forall k :: k in s.ops && Pending(s.ops[k], newRef) ==> k == o
    case Close(_, _, _) => true
  }

  /** Refs that rows hold or setProperty read are public and of their scope; a
      pending ref is issued in its scope, to one operation. */
  ghost predicate Issued(s: State) {
    && (forall scope :: scope in s.conns ==> RowIssued(s, scope))
    && (forall o :: o in s.ops ==> OpIssued(s, o))
  }

  /** A swap that lands makes its ref public. */
  lemma SwapMakesPublic(s: State, e: Event)
    requires Issued(s) && Enabled(s, e) && e.TrySwap? && s.conns[s.ops[e.o].scope].ref == s.ops[e.o].prevRef
    ensures Public(Next(s, e), s.ops[e.o].newRef) && Belongs(s, s.ops[e.o].scope, s.ops[e.o].newRef)
  {
    assert OpIssued(s, e.o);
  }

  lemma RowStaysIssued(s: State, e: Event, scope: Scope)
    requires Issued(s) && Enabled(s, e) && scope in Next(s, e).conns
    ensures RowIssued(Next(s, e), scope)
  {
    if scope in s.conns {
      assert RowIssued(s, scope);
      if s.conns[scope].ref != "" { StepKeepsPublic(s, e, s.conns[scope].ref); }
    }
    if e.WriteProperty? {
      assert OpIssued(s, e.o);
      StepKeepsPublic(s, e, s.ops[e.o].ref);
    }
    if e.TrySwap? && s.conns[s.ops[e.o].scope].ref == s.ops[e.o].prevRef { SwapMakesPublic(s, e); }
  }

  lemma ChooseStaysIssued(s: State, e: Event, o: nat)
    requires Issued(s) && Enabled(s, e) && o in Next(s, e).ops && Next(s, e).ops[o].Choose?
    ensures OpIssued(Next(s, e), o)
  {
    if o in s.ops { assert OpIssued(s, o); }
    if e.BeginChoose? && e.o == o { assert RowIssued(s, e.scope); }
    StepKeepsPublic(s, e, Next(s, e).ops[o].ref);
  }

  lemma PendingWas(s: State, e: Event, o: nat, ref: string)
    requires Enabled(s, e) && o in Next(s, e).ops && Pending(Next(s, e).ops[o], ref)
    ensures (e.PutSecret? && e.o == o && ref == e.ref) || (o in s.ops && Pending(s.ops[o], ref))
  {
  }

  lemma SwapStaysIssued(s: State, e: Event, o: nat)
    requires Issued(s) && Enabled(s, e) && o in Next(s, e).ops && Next(s, e).ops[o].Swap?
    ensures OpIssued(Next(s, e), o)
  {
    var t := Next(s, e);
    var ref := t.ops[o].newRef;
    if Pending(t.ops[o], ref) {
      PendingWas(s, e, o, ref);
      forall k | k in t.ops && Pending(t.ops[k], ref) ensures k == o { PendingWas(s, e, k, ref); }
      assert forall k :: k in s.ops ==> OpIssued(s, k);
    }
  }

  lemma StepKeepsIssued(s: State, e: Event)
    requires Issued(s) && Enabled(s, e)
    ensures Issued(Next(s, e))
  {
    var t := Next(s, e);
    forall scope | scope in t.conns ensures RowIssued(t, scope) { RowStaysIssued(s, e, scope); }
    forall o | o in t.ops ensures OpIssued(t, o) {
      if t.ops[o].Choose? { ChooseStaysIssued(s, e, o); }
      else if t.ops[o].Swap? { SwapStaysIssued(s, e, o); }
    }
  }

  lemma {:induction false} PathKeepsIssued(s: State, events: seq<Event>, t: State)
    requires Issued(s) && Path(s, events, t)
    ensures Issued(t)
    decreases |events|
  {
    if events != [] {
      StepKeepsIssued(s, events[0]);
      PathKeepsIssued(Next(s, events[0]), events[1..], t);
    }
  }

  // ----- When a ref that left its row comes back -----

  /** The ref is public and no row holds it. */
  ghost predicate Gone(s: State, ref: string) {
    ref != "" && Public(s, ref) && forall scope :: scope in s.conns ==> s.conns[scope].ref != ref
  }

  /** A setProperty that read the ref writes it. */
  predicate WritesBack(s: State, e: Event, ref: string)
    requires Enabled(s, e)
  {
    e.WriteProperty? && s.ops[e.o].ref == ref
  }

  /** When a row exchanges its ref for another, no row holds the old one. */
  lemma LeavingIsGone(s: State, e: Event, scope: Scope)
    requires Issued(s) && Enabled(s, e) && scope in s.conns && s.conns[scope].ref != ""
    requires Next(s, e).conns[scope].ref != s.conns[scope].ref
    ensures Gone(Next(s, e), s.conns[scope].ref)
  {
    var ref := s.conns[scope].ref;
    StepKeepsIssued(s, e);
    assert RowIssued(s, scope);
    StepKeepsPublic(s, e, ref);
    assert forall other :: other in Next(s, e).conns ==> RowIssued(Next(s, e), other);
  }

  lemma StaysGoneIff(s: State, e: Event, ref: string)
    requires Enabled(s, e) && Gone(s, ref)
    ensures Gone(Next(s, e), ref) <==> !WritesBack(s, e, ref)
  {
    StepKeepsPublic(s, e, ref);
    if e.TrySwap? { assert !Pending(s.ops[e.o], ref); }
    if WritesBack(s, e, ref) { assert Next(s, e).conns[s.ops[e.o].scope].ref == ref; }
  }

  ghost predicate GoneThroughout(s: State, events: seq<Event>, ref: string)
    decreases |events|
  {
    Gone(s, ref) && (events != [] ==> Enabled(s, events[0]) && GoneThroughout(Next(s, events[0]), events[1..], ref))
  }

  ghost predicate WrittenBack(s: State, events: seq<Event>, ref: string)
    decreases |events|
  {
    events != [] && Enabled(s, events[0]) &&
    (WritesBack(s, events[0], ref) || WrittenBack(Next(s, events[0]), events[1..], ref))
  }

  /** On any path, a ref that left its row stays away iff no setProperty that read
      it writes. */
  lemma {:induction false} ReturnsIffWrittenBack(s: State, events: seq<Event>, t: State, ref: string)
    requires Gone(s, ref) && Path(s, events, t)
    ensures GoneThroughout(s, events, ref) <==> !WrittenBack(s, events, ref)
    decreases |events|
  {
    if events != [] {
      StaysGoneIff(s, events[0], ref);
      if !WritesBack(s, events[0], ref) { ReturnsIffWrittenBack(Next(s, events[0]), events[1..], t, ref); }
    }
  }

  // ----- The property is the one last chosen -----

  predicate Chooses(s: State, e: Event, scope: Scope)
    requires Enabled(s, e)
  {
    e.WriteProperty? && s.ops[e.o].scope == scope
  }

  /** The property of the last WriteProperty on this scope, if any. */
  ghost function LastChosen(s: State, events: seq<Event>, scope: Scope, otherwise: string): string
    decreases |events|
  {
    if events == [] || !Enabled(s, events[0]) then otherwise
    else
      LastChosen(Next(s, events[0]), events[1..], scope,
                 if Chooses(s, events[0], scope) then s.ops[events[0].o].property else otherwise)
  }

  /** Whenever the row holds ref, its property is the given one. */
  predicate HoldsWith(s: State, scope: Scope, ref: string, property: string) {
    scope in s.conns && (s.conns[scope].ref == ref ==> s.conns[scope].property == property)
  }

  /** No swap installs a public ref, so a row gets it back from a choice only. */
  lemma StepKeepsChoice(s: State, e: Event, scope: Scope, ref: string, property: string)
    requires Enabled(s, e) && ref != "" && Public(s, ref) && HoldsWith(s, scope, ref, property)
    ensures HoldsWith(Next(s, e), scope, ref, if Chooses(s, e, scope) then s.ops[e.o].property else property)
  {
    if e.TrySwap? { assert !Pending(s.ops[e.o], ref); }
  }

  lemma {:induction false} ChoiceIsKept(s: State, events: seq<Event>, t: State, scope: Scope, ref: string, property: string)
    requires Path(s, events, t) && ref != "" && Public(s, ref) && HoldsWith(s, scope, ref, property)
    ensures HoldsWith(t, scope, ref, LastChosen(s, events, scope, property))
    decreases |events|
  {
    if events != [] {
      var e := events[0];
      StepKeepsPublic(s, e, ref);
      StepKeepsChoice(s, e, scope, ref, property);
      ChoiceIsKept(Next(s, e), events[1..], t, scope, ref, if Chooses(s, e, scope) then s.ops[e.o].property else property);
    }
  }

  /** A row that holds the same credential at both ends of any history, whether or
      not it left in between, has the property last chosen. */
  lemma PropertyIsLastChosen(s0: State, before: seq<Event>, s: State, events: seq<Event>, t: State, scope: Scope)
    requires Init(s0) && Path(s0, before, s) && Path(s, events, t)
    requires scope in s.conns && scope in t.conns && s.conns[scope].ref == t.conns[scope].ref != ""
    ensures t.conns[scope].property == LastChosen(s, events, scope, s.conns[scope].property)
  {
    PathKeepsIssued(s0, before, s);
    assert RowIssued(s, scope);
    ChoiceIsKept(s, events, t, scope, s.conns[scope].ref, s.conns[scope].property);
  }

  // ----- The rotation itself -----

  /** The step starts operation o: handler invocations are never reused. */
  predicate Starts(e: Event, o: nat) {
    (e.BeginRotation? || e.BeginImport? || e.BeginChoose? || e.BeginClose?) && e.o == o
  }

  /** What a rotation read is fixed for as long as it lasts. */
  lemma {:induction false} RotationRemembers(s: State, events: seq<Event>, t: State, o: nat)
    requires Path(s, events, t) && o in t.ops && forall i :: 0 <= i < |events| ==> !Starts(events[i], o)
    ensures o in s.ops
    ensures s.ops[o].Swap? <==> t.ops[o].Swap?
    ensures s.ops[o].Swap? ==>
              var a, b := s.ops[o], t.ops[o];
              a.scope == b.scope && a.prevRef == b.prevRef && a.property == b.property
    decreases |events|
  {
    if events != [] {
      assert !Starts(events[0], o);
      RotationRemembers(Next(s, events[0]), events[1..], t, o);
    }
  }

  /** In any history, a rotation that begins at s and whose swap lands at t writes
      the property it read at s. So the swap leaves the row's property alone iff
      there was no credential yet, or the property last chosen meanwhile (if any)
      is the one read at s. */
  lemma RotationKeepsPropertyIff(s0: State, before: seq<Event>, s: State, o: nat, scope: Scope, events: seq<Event>, t: State)
    requires Init(s0) && Path(s0, before, s)
    requires Enabled(s, BeginRotation(o, scope)) && Path(Next(s, BeginRotation(o, scope)), events, t)
    requires forall i :: 0 <= i < |events| ==> !Starts(events[i], o)
    requires Enabled(t, TrySwap(o)) && t.conns[t.ops[o].scope].ref == t.ops[o].prevRef
    ensures t.ops[o].scope == scope && scope in t.conns
    ensures var begun, landed := Next(s, BeginRotation(o, scope)), Next(t, TrySwap(o));
            && landed.conns[scope].property == s.conns[scope].property
            && (landed.conns[scope].property == t.conns[scope].property <==>
                  s.conns[scope].ref == "" || LastChosen(begun, events, scope, s.conns[scope].property) == s.conns[scope].property)
  {
    var begun := Next(s, BeginRotation(o, scope));
    RotationRemembers(begun, events, t, o);
    RowsStayWellFormed(s0, before, s);
    StepKeepsShapes(s, BeginRotation(o, scope));
    RowsStayWellFormed(begun, events, t);
    assert RowOk(s.conns[scope]) && RowOk(t.conns[scope]);
    if s.conns[scope].ref != "" {
      PathKeepsIssued(s0, before, s);
      StepKeepsIssued(s, BeginRotation(o, scope));
      assert RowIssued(begun, scope);
      ChoiceIsKept(begun, events, t, scope, s.conns[scope].ref, s.conns[scope].property);
    }
  }
}
