/** Schema migrations at start-up. Several servers, of different releases, may
    open one database at the same time, and each may stop at any point. */
module Migrations {
  import opened Text

  /** A script runs inside a transaction; None is an SQL error. */
  datatype Migration<!S> = Migration(name: string, script: S -> Option<S>)

  /** Names in the order of sort.Strings, no two equal. */
  predicate Ordered<S>(list: seq<Migration<S>>) {
    forall i, j :: 0 <= i < j < |list| ==> Less(list[i].name, list[j].name)
  }

  function Names<S>(list: seq<Migration<S>>, k: nat): set<string>
    requires k <= |list|
  {
    set i | 0 <= i < k :: list[i].name
  }

  /** The first k scripts, one after the other. */
  function Fold<S>(empty: S, list: seq<Migration<S>>, k: nat): Option<S>
    requires k <= |list|
  {
    if k == 0 then Some(empty)
    else
      var before := Fold(empty, list, k - 1);
      if before.None? then None else list[k - 1].script(before.value)
  }

  /** Step by step: the schemas that the first k scripts go through. */
  lemma {:induction false} FoldGoesThrough<S>(empty: S, list: seq<Migration<S>>, k: nat) returns (schemas: seq<S>)
    requires k <= |list| && Fold(empty, list, k).Some?
    ensures |schemas| == k + 1 && schemas[0] == empty && Fold(empty, list, k) == Some(schemas[k])
    ensures forall i :: 0 <= i < k ==> list[i].script(schemas[i]) == Some(schemas[i + 1])
    decreases k
  {
    if k == 0 { return [empty]; }
    schemas := FoldGoesThrough(empty, list, k - 1);
    schemas := schemas + [Fold(empty, list, k).value];
  }

  /** The recorded names are exactly the first k, and the schema is what they make. */
  predicate AtPrefix<S(==)>(empty: S, list: seq<Migration<S>>, recorded: set<string>, schema: S, k: nat) {
    k <= |list| && recorded == Names(list, k) && Fold(empty, list, k) == Some(schema)
  }

  lemma RecordedIffBefore<S>(list: seq<Migration<S>>, k: nat, i: nat)
    requires Ordered(list) && k <= |list| && i < |list|
    ensures list[i].name in Names(list, k) <==> i < k
  {
    if list[i].name in Names(list, k) && k <= i {
      var j :| 0 <= j < k && list[j].name == list[i].name;
      LessIsStrictTotalOrder(list[j].name, list[j].name);
    }
  }

  lemma NextIsRecorded<S>(empty: S, list: seq<Migration<S>>, recorded: set<string>, schema: S, k: nat, after: S)
    requires AtPrefix(empty, list, recorded, schema, k) && k < |list| && list[k].script(schema) == Some(after)
    ensures AtPrefix(empty, list, recorded + {list[k].name}, after, k + 1)
  {
    assert Names(list, k + 1) == Names(list, k) + {list[k].name};
  }

  // ----- Many openers -----

  /** Where the loop of migrate stands: before the lookup of entry i, or with
      entry i found missing and its transaction about to run. */
  datatype Phase = Checking(i: nat) | Applying(i: nat)

  /** A release knows the first `size` entries of the list. */
  datatype Opener = Opener(size: nat, phase: Phase)

  datatype State<S> = State(recorded: set<string>, schema: S, openers: map<nat, Opener>)

  /** Lookup and transaction are single statements of the database; Stop is a
      crash, or any statement or commit that fails. */
  datatype Event = Open(o: nat, size: nat) | Check(o: nat) | Apply(o: nat) | Stop(o: nat) | Complete(o: nat)

  ghost predicate Enabled<S>(list: seq<Migration<S>>, s: State<S>, e: Event) {
    if e.Open? then e.o !in s.openers && e.size <= |list|
    else
      && e.o in s.openers && s.openers[e.o].size <= |list|
      && var opener := s.openers[e.o];
         match e
         case Check(_) => opener.phase.Checking? && opener.phase.i < opener.size
         case Apply(_) => opener.phase.Applying? && opener.phase.i < opener.size
         case Complete(_) => opener.phase.Checking? && opener.phase.i == opener.size
         case _ => true
  }

  function Next<S>(list: seq<Migration<S>>, s: State<S>, e: Event): State<S>
    requires Enabled(list, s, e)
  {
    match e
    case Open(o, size) => s.(openers := s.openers[o := Opener(size, Checking(0))])
    case Check(o) =>
      var i := s.openers[o].phase.i;
      s.(openers := s.openers[o := s.openers[o].(phase := if list[i].name in s.recorded then Checking(i + 1) else Applying(i))])
    case Apply(o) =>
      var i := s.openers[o].phase.i;
      var after := list[i].script(s.schema);
      // The name is a primary key: if another opener was faster the whole transaction rolls back.
      if after.None? || list[i].name in s.recorded then s.(openers := s.openers - {o})
      else State(s.recorded + {list[i].name}, after.value, s.openers[o := s.openers[o].(phase := Checking(i + 1))])
    case Stop(o) => s.(openers := s.openers - {o})
    case Complete(o) => s.(openers := s.openers - {o})
  }

  ghost predicate Path<S>(list: seq<Migration<S>>, s: State<S>, events: seq<Event>, t: State<S>)
    decreases |events|
  {
    if events == [] then s == t
    else Enabled(list, s, events[0]) && Path(list, Next(list, s, events[0]), events[1..], t)
  }

  /** Every opener has passed only recorded entries. */
  ghost predicate Inv<S>(empty: S, list: seq<Migration<S>>, s: State<S>, k: nat) {
    && AtPrefix(empty, list, s.recorded, s.schema, k)
    && forall o :: o in s.openers ==> s.openers[o].phase.i <= k
  }

  lemma StepKeepsInv<S>(empty: S, list: seq<Migration<S>>, s: State<S>, e: Event, k: nat) returns (k': nat)
    requires Ordered(list) && Inv(empty, list, s, k) && Enabled(list, s, e)
    ensures k <= k' && Inv(empty, list, Next(list, s, e), k')
    ensures e.Complete? ==> s.openers[e.o].size <= k'
  {
    k' := k;
    if e.Check? || e.Apply? {
      var i := s.openers[e.o].phase.i;
      RecordedIffBefore(list, k, i);
      if e.Apply? && i == k && list[i].script(s.schema).Some? {
        NextIsRecorded(empty, list, s.recorded, s.schema, k, list[i].script(s.schema).value);
        k' := k + 1;
      }
    }
  }

  /** However opens interleave, crash or fail, the recorded names are a prefix of
      the list and the schema is the fold of exactly that prefix; it only grows. */
  lemma {:induction false} AlwaysAPrefix<S>(empty: S, list: seq<Migration<S>>, s: State<S>, events: seq<Event>, t: State<S>, k: nat)
    returns (k': nat)
    requires Ordered(list) && Inv(empty, list, s, k) && Path(list, s, events, t)
    ensures k <= k' && Inv(empty, list, t, k')
    decreases |events|
  {
    if events == [] { return k; }
    var mid := StepKeepsInv(empty, list, s, events[0], k);
    k' := AlwaysAPrefix(empty, list, Next(list, s, events[0]), events[1..], t, mid);
  }

  /** After an open that completed, every entry its release knows is in place,
      whatever ran before, meanwhile and since. */
  lemma CompletedOpenIsUpToDate<S>(empty: S, list: seq<Migration<S>>, before: seq<Event>, s: State<S>, e: Event,
                                   after: seq<Event>, t: State<S>) returns (k: nat)
    requires Ordered(list) && Path(list, State({}, empty, map[]), before, s)
    requires Enabled(list, s, e) && e.Complete? && Path(list, Next(list, s, e), after, t)
    ensures s.openers[e.o].size <= k && AtPrefix(empty, list, t.recorded, t.schema, k)
  {
    assert Names(list, 0) == {};
    var k0 := AlwaysAPrefix(empty, list, State({}, empty, map[]), before, s, 0);
    var k1 := StepKeepsInv(empty, list, s, e, k0);
    k := AlwaysAPrefix(empty, list, Next(list, s, e), after, t, k1);
  }

  // ----- One open -----

  class Database<S(!new)> {
    const list: seq<Migration<S>>
    var recorded: set<string>
    var schema: S

    constructor (list: seq<Migration<S>>, empty: S)
      ensures this.list == list && recorded == {} && schema == empty
    {
      this.list := list;
      recorded, schema := {}, empty;
    }

    /** One entry: the lookup, then script, record and commit as one transaction.
        `fails` is a lookup, transaction or commit that breaks. */
    method MigrateEntry(i: nat, fails: bool, ghost empty: S, ghost k: nat) returns (ok: bool)
      requires Ordered(list) && i < |list| && i <= k && AtPrefix(empty, list, recorded, schema, k)
      modifies this
      ensures !ok || i < k ==> recorded == old(recorded) && schema == old(schema)
      ensures ok && i == k ==> AtPrefix(empty, list, recorded, schema, k + 1)
      ensures ok <==> !fails && (i < k || list[i].script(old(schema)).Some?)
    {
      if fails { return false; }
      RecordedIffBefore(list, k, i);
      if list[i].name in recorded { return true; }
      var after := list[i].script(schema);
      if after.None? { return false; }
      NextIsRecorded(empty, list, recorded, schema, k, after.value);
      recorded, schema := recorded + {list[i].name}, after.value;
      ok := true;
    }

    /** The loop of migrate over the release's `size` entries. From any prefix k
        it ends at a prefix k': complete or stopped short, and never a step when
        everything is already in place. */
    method Migrate(size: nat, fails: nat -> bool, ghost empty: S, ghost k: nat) returns (ok: bool, ghost k': nat)
      requires Ordered(list) && size <= |list| && AtPrefix(empty, list, recorded, schema, k)
      modifies this
      ensures AtPrefix(empty, list, recorded, schema, k') && k <= k'
      ensures ok <==> (forall i: nat :: i < size ==> !fails(i)) && size <= k'
      ensures ok ==> k' == if size <= k then k else size
      ensures !ok ==> k' == k || k' < size
      ensures k' == k ==> recorded == old(recorded) && schema == old(schema)
    {
      k' := k;
      for i := 0 to size
        invariant AtPrefix(empty, list, recorded, schema, k')
        invariant k' == if i <= k then k else i
        invariant forall n: nat :: n < i ==> !fails(n)
        invariant k' == k ==> recorded == old(recorded) && schema == old(schema)
      {
        var applied := MigrateEntry(i, fails(i), empty, k');
        if !applied { return false, k'; }
        if i == k' { k' := i + 1; }
      }
      ok := true;
    }
  }
}
