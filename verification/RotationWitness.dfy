/** What the missing comparisons cost: histories in which an unconditional or
    stale write breaks a promise that holds otherwise. */
module RotationWitness {
  import opened Rotation

  /** A started rotation that runs on alone: the row takes the new secret and
      the property read at the start; the old secret is revoked. */
  lemma FinishRotation(s: State, o: nat, ref: string) returns (events: seq<Event>, t: State)
    requires SwapAt(s, o, Putting) && ref != "" && ref !in s.secrets
    requires s.ops[o].scope in s.conns && s.conns[s.ops[o].scope].ref == s.ops[o].prevRef != ""
    ensures Path(s, events, t)
    ensures var op := s.ops[o];
            t == State(s.conns[op.scope := Conn(ref, op.property, op.property != "")],
                       Revoke(s.secrets[ref := Secret(op.scope, false)], op.scope, op.prevRef),
                       s.ops - {o}, s.stranded, s.torn)
  {
    var es, u := Two(s, PutSecret(o, ref), Validate(o, true));
    var fs;
    fs, t := Two(u, TrySwap(o), RevokeOld(o, true));
    PathConcat(s, es, u, fs, t);
    events := es + fs;
    assert t.ops == s.ops - {o};
  }

  /** A fresh row that received its first credential. */
  lemma FirstCredential(scope: Scope, ref: string) returns (s: State, events: seq<Event>, t: State)
    requires ref != ""
    ensures Init(s) && Path(s, events, t)
    ensures t == State(map[scope := Conn(ref, "", false)], map[ref := Secret(scope, false)], map[], {}, {})
  {
    s := State(map[], map[], map[], {}, {});
    var es, u := Two(s, EnsureRow(scope), BeginImport(0, scope, ""));
    var fs, v := Two(u, PutSecret(0, ref), Validate(0, true));
    One(v, TrySwap(0));
    t := Next(v, TrySwap(0));
    PathConcat(s, es, u, fs, v);
    PathConcat(s, es + fs, v, [TrySwap(0)], t);
    events := es + fs + [TrySwap(0)];
    assert t.ops == map[];
  }

  /** A whole rotation with nothing in between. */
  lemma Rotate(s: State, o: nat, scope: Scope, ref: string) returns (events: seq<Event>, t: State)
    requires o !in s.ops && scope in s.conns && s.conns[scope].ref != "" && ref != "" && ref !in s.secrets
    ensures Path(s, events, t)
    ensures var c := s.conns[scope];
            t == State(s.conns[scope := Conn(ref, c.property, c.property != "")],
                       Revoke(s.secrets[ref := Secret(scope, false)], scope, c.ref), s.ops, s.stranded, s.torn)
  {
    var u := Next(s, BeginRotation(o, scope));
    One(s, BeginRotation(o, scope));
    events, t := FinishRotation(u, o, ref);
    PathConcat(s, [BeginRotation(o, scope)], u, events, t);
    events := [BeginRotation(o, scope)] + events;
    assert u.ops - {o} == s.ops;
  }

  lemma Three(s: State, es: seq<Event>, u: State, fs: seq<Event>, v: State, gs: seq<Event>, w: State)
    requires Path(s, es, u) && Path(u, fs, v) && Path(v, gs, w)
    ensures Path(s, es + fs + gs, w)
  {
    PathConcat(s, es, u, fs, v);
    PathConcat(s, es + fs, v, gs, w);
  }

  lemma ChooseOpens(s: State, o: nat, scope: Scope, property: string) returns (events: seq<Event>, t: State)
    requires o !in s.ops && scope in s.conns && property != ""
    requires s.conns[scope].ref != "" && Opens(s.secrets, scope, s.conns[scope].ref)
    ensures Path(s, events, t)
    ensures t == s.(ops := s.ops[o := Choose(scope, s.conns[scope].ref, property, Writing)])
  {
    events, t := Two(s, BeginChoose(o, scope, property), OpenChosen(o));
  }

  lemma ChooseWrites(s: State, o: nat)
    requires o in s.ops && s.ops[o].Choose? && s.ops[o].choosing == Writing && s.ops[o].scope in s.conns
    ensures var op := s.ops[o];
            Path(s, [WriteProperty(o)], State(s.conns[op.scope := Conn(op.ref, op.property, true)],
                                              s.secrets, s.ops - {o}, s.stranded, s.torn))
  {
    One(s, WriteProperty(o));
  }

  lemma CloseKills(s: State, o: nat, scope: Scope) returns (events: seq<Event>, t: State)
    requires o !in s.ops && scope in s.conns && s.conns[scope].ref != ""
    ensures Path(s, events, t)
    ensures var ref := s.conns[scope].ref;
            t == State(s.conns, Revoke(s.secrets, scope, ref), s.ops[o := Close(scope, ref, ClearingRow)], s.stranded, s.torn)
  {
    events, t := Two(s, BeginClose(o, scope), CloseRevoke(o, true));
  }

  lemma CloseClears(s: State, o: nat)
    requires o in s.ops && s.ops[o].Close? && s.ops[o].closing == ClearingRow && s.ops[o].scope in s.conns
    ensures Path(s, [ClearRow(o)], State(s.conns[s.ops[o].scope := Conn("", "", false)],
                                         s.secrets, s.ops - {o}, s.stranded, s.torn))
  {
    One(s, ClearRow(o));
  }

  /** setProperty can write back a ref that a rotation swapped out and revoked:
      afterwards nothing is in flight, nothing failed, and the row's credential
      does not open while the new secret lives on unreferenced. */
  lemma SetPropertyRevivesDeadRef(scope: Scope, first: string, second: string, property: string)
    returns (s: State, events: seq<Event>, t: State)
    requires first != "" && second != "" && first != second && property != ""
    ensures Init(s) && Path(s, events, t) && t.ops == map[] && t.stranded == t.torn == {}
    ensures t.conns == map[scope := Conn(first, property, true)]
    ensures !Opens(t.secrets, scope, first) && Opens(t.secrets, scope, second)
  {
    var es, u, fs, v, gs, w;
    s, es, u := FirstCredential(scope, first);
    fs, v := ChooseOpens(u, 1, scope, property);
    gs, w := Rotate(v, 2, scope, second);
    Three(s, es, u, fs, v, gs, w);
    ChooseWrites(w, 1);
    t := State(w.conns[scope := Conn(first, property, true)], w.secrets, w.ops - {1}, w.stranded, w.torn);
    events := es + fs + gs + [WriteProperty(1)];
    PathConcat(s, es + fs + gs, w, [WriteProperty(1)], t);
  }

  /** revokeConnection can clear a row that a rotation refilled in between: the
      new secret stays live although no row refers to it. */
  lemma RevokeConnectionLeaksSecret(scope: Scope, first: string, second: string)
    returns (s: State, events: seq<Event>, t: State)
    requires first != "" && second != "" && first != second
    ensures Init(s) && Path(s, events, t) && t.ops == map[] && t.stranded == t.torn == {}
    ensures t.conns == map[scope := Conn("", "", false)] && Opens(t.secrets, scope, second)
  {
    var es, u, fs, v, gs, w;
    s, es, u := FirstCredential(scope, first);
    fs, v := CloseKills(u, 1, scope);
    gs, w := Rotate(v, 2, scope, second);
    Three(s, es, u, fs, v, gs, w);
    CloseClears(w, 1);
    t := State(w.conns[scope := Conn("", "", false)], w.secrets, w.ops - {1}, w.stranded, w.torn);
    events := es + fs + gs + [ClearRow(1)];
    PathConcat(s, es + fs + gs, w, [ClearRow(1)], t);
  }

  /** The swap compares the ref only: a property chosen while a rotation
      validates is overwritten, and the connection disabled, although every
      write was undisturbed. */
  lemma RotationDropsChosenProperty(scope: Scope, first: string, second: string, property: string)
    returns (s: State, before: seq<Event>, m: State, after: seq<Event>, t: State)
    requires first != "" && second != "" && first != second && property != ""
    ensures Init(s) && Path(s, before, m) && Path(m, after, t)
    ensures m.conns == map[scope := Conn(first, property, true)]
    ensures t.conns == map[scope := Conn(second, "", false)]
    ensures t.ops == map[] && t.stranded == t.torn == {} && Opens(t.secrets, scope, second)
  {
    var es, u, gs, w;
    s, es, u := FirstCredential(scope, first);
    One(u, BeginRotation(1, scope));
    var v := Next(u, BeginRotation(1, scope));
    gs, w := ChooseOpens(v, 2, scope, property);
    Three(s, es, u, [BeginRotation(1, scope)], v, gs, w);
    ChooseWrites(w, 2);
    m := State(w.conns[scope := Conn(first, property, true)], w.secrets, w.ops - {2}, w.stranded, w.torn);
    before := es + [BeginRotation(1, scope)] + gs + [WriteProperty(2)];
    PathConcat(s, es + [BeginRotation(1, scope)] + gs, w, [WriteProperty(2)], m);
    after, t := FinishRotation(m, 1, second);
  }

  /** A rotation has read ref a; setProperty has opened a; another rotation has
      replaced a by b and revoked it. */
  lemma TwoReadersOfOneRef(scope: Scope, a: string, b: string, property: string)
    returns (s: State, events: seq<Event>, t: State)
    requires a != "" && b != "" && a != b && property != ""
    ensures Init(s) && Path(s, events, t)
    ensures t == State(map[scope := Conn(b, "", false)], map[a := Secret(scope, true), b := Secret(scope, false)],
                       map[1 := Swap(scope, a, "", "", Putting), 2 := Choose(scope, a, property, Writing)], {}, {})
  {
    var es, u, gs, w, hs;
    s, es, u := FirstCredential(scope, a);
    One(u, BeginRotation(1, scope));
    var v := Next(u, BeginRotation(1, scope));
    gs, w := ChooseOpens(v, 2, scope, property);
    Three(s, es, u, [BeginRotation(1, scope)], v, gs, w);
    hs, t := Rotate(w, 3, scope, b);
    PathConcat(s, es + [BeginRotation(1, scope)] + gs, w, hs, t);
    events := es + [BeginRotation(1, scope)] + gs + hs;
  }

  /** The comparison of a swap is fooled by a ref that returned: setProperty writes
      a back, and the first rotation's swap lands on it. Nothing is in flight and
      nothing failed, yet b lives on although no row refers to it. */
  lemma SwapFooledByReturningRef(scope: Scope, a: string, b: string, c: string, property: string)
    returns (s: State, events: seq<Event>, t: State)
    requires a != "" && b != "" && c != "" && a != b && a != c && b != c && property != ""
    ensures Init(s) && Path(s, events, t) && t.ops == map[] && t.stranded == t.torn == {}
    ensures t.conns == map[scope := Conn(c, "", false)]
    ensures Opens(t.secrets, scope, c) && Opens(t.secrets, scope, b) && !Opens(t.secrets, scope, a)
  {
    var es, u, fs;
    s, es, u := TwoReadersOfOneRef(scope, a, b, property);
    ChooseWrites(u, 2);
    var v := State(u.conns[scope := Conn(a, property, true)], u.secrets, u.ops - {2}, u.stranded, u.torn);
    fs, t := FinishRotation(v, 1, c);
    Three(s, es, u, [WriteProperty(2)], v, fs, t);
    events := es + [WriteProperty(2)] + fs;
  }
}
