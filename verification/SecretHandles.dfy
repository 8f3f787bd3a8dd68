/** The memory store as it shares bytes: stored secrets, open handles and the
    callers' own buffers are arrays on one heap, and closing a handle zeroes an
    array in place. The value-level specification has no sharing at all, so each
    operation that meets it leaves every other array alone. */
module SecretHandles {
  import opened SecretStores

  function Zeros(n: nat): seq<bv8> {
    seq(n, i => 0)
  }

  class Handle {
    var kind: string
    var bytes: array?<bv8>
    var closed: bool

    constructor (kind: string, bytes: array<bv8>)
      ensures this.kind == kind && this.bytes == bytes && !closed
    {
      this.kind, this.bytes, this.closed := kind, bytes, false;
    }

    ghost function Shown(): Material
      reads this, bytes
    {
      if closed || bytes == null then NO_MATERIAL else Material(kind, bytes[..])
    }

    /** Zero the array, forget it, and stay closed; closing twice is harmless. */
    method Close()
      modifies this, bytes
      ensures closed && bytes == null && Shown() == NO_MATERIAL
      ensures old(bytes) != null ==> old(bytes)[..] == Zeros(old(bytes).Length)
    {
      if bytes != null {
        var i := 0;
        while i < bytes.Length
          modifies bytes
          invariant 0 <= i <= bytes.Length
          invariant forall k :: 0 <= k < i ==> bytes[k] == 0
        {
          bytes[i] := 0;
          i := i + 1;
        }
        assert bytes[..] == Zeros(bytes.Length);
      }
      kind, bytes, closed := "", null, true;
    }
  }

  /** cloneMaterial: an array nobody else holds. */
  method Clone(a: array<bv8>) returns (b: array<bv8>)
    ensures fresh(b) && b[..] == a[..]
  {
    b := new bv8[a.Length](i requires 0 <= i < a.Length reads a => a[i]);
    assert b[..] == a[..];
  }

  datatype Cell = Cell(scope: Scope, kind: string, bytes: array?<bv8>, revoked: bool)

  class Memory {
    var entries: map<string, Cell>
    var handles: seq<Handle>
    var buffers: seq<array<bv8>>

    /** No two owners share an array. */
    ghost predicate Valid()
      reads this, handles
    {
      && (forall id :: id in entries && !entries[id].revoked ==> entries[id].bytes != null)
      && (forall i, j :: 0 <= i < j < |handles| ==> handles[i] != handles[j])
      && (forall i, j :: 0 <= i < j < |handles| && handles[i].bytes != null ==> handles[i].bytes != handles[j].bytes)
      && (forall i, id :: 0 <= i < |handles| && id in entries && handles[i].bytes != null ==>
            handles[i].bytes != entries[id].bytes)
      && (forall i, k :: 0 <= i < |handles| && 0 <= k < |buffers| ==> handles[i].bytes != buffers[k])
      && (forall k, id :: 0 <= k < |buffers| && id in entries ==> entries[id].bytes != buffers[k])
    }

    ghost function StoredArrays(): set<object>
      reads this
    {
      set id | id in entries && entries[id].bytes != null :: entries[id].bytes
    }

    /** The contents of the store, as values. */
    ghost function Contents(): Entries
      reads this, StoredArrays()
    {
      map id | id in entries ::
        Entry(entries[id].scope,
              if entries[id].bytes == null then NO_MATERIAL else Material(entries[id].kind, entries[id].bytes[..]),
              entries[id].revoked)
    }

    constructor ()
      ensures Valid() && Contents() == map[] && handles == [] && buffers == []
    {
      entries, handles, buffers := map[], [], [];
    }

    /** A caller brings bytes of its own. */
    method NewBuffer(content: seq<bv8>)
      requires Valid()
      modifies this`buffers
      ensures Valid() && Contents() == old(Contents())
      ensures |buffers| == old(|buffers|) + 1 && buffers[..old(|buffers|)] == old(buffers)
      ensures fresh(buffers[old(|buffers|)]) && buffers[old(|buffers|)][..] == content
    {
      var b := new bv8[|content|](i requires 0 <= i < |content| => content[i]);
      assert b[..] == content;
      buffers := buffers + [b];
    }

    method PutSecret(id: string, scope: Scope, kind: string, k: nat) returns (reply: Reply)
      requires Valid() && k < |buffers|
      modifies this`entries
      ensures Valid()
      ensures Contents() == MemoryStep(old(Contents()), Put(id, scope, Material(kind, buffers[k][..]))).0
      ensures reply == MemoryStep(old(Contents()), Put(id, scope, Material(kind, buffers[k][..]))).1
    {
      var copy := Clone(buffers[k]);
      entries := entries[id := Cell(scope, kind, copy, false)];
      assert Contents() == old(Contents())[id := Entry(scope, Material(kind, buffers[k][..]), false)];
      reply := Ref(id, kind);
    }

    method OpenSecret(scope: Scope, id: string) returns (reply: Reply)
      requires Valid()
      modifies this`handles
      ensures Valid() && Contents() == old(Contents())
      ensures reply.Handle? ==>
                && MemoryStep(Contents(), Open(scope, id)).1 == reply
                && |handles| == old(|handles|) + 1 && handles[..old(|handles|)] == old(handles)
                && fresh(handles[old(|handles|)]) && fresh(handles[old(|handles|)].bytes)
                && handles[old(|handles|)].Shown() == reply.material
      ensures !reply.Handle? ==> reply == MemoryStep(Contents(), Open(scope, id)).1 && handles == old(handles)
    {
      if id !in entries || entries[id].revoked { return Refused; }
      if entries[id].scope != scope { return Refused; }
      var copy := Clone(entries[id].bytes);
      var h := new Handle(entries[id].kind, copy);
      handles := handles + [h];
      reply := SecretStores.Handle(Material(h.kind, copy[..]));
    }

    method RotateSecret(scope: Scope, id: string, kind: string, k: nat) returns (reply: Reply)
      requires Valid() && k < |buffers|
      modifies this`entries
      ensures Valid()
      ensures Contents() == MemoryStep(old(Contents()), Rotate(scope, id, Material(kind, buffers[k][..]))).0
      ensures reply == MemoryStep(old(Contents()), Rotate(scope, id, Material(kind, buffers[k][..]))).1
    {
      if id !in entries || entries[id].revoked { return Refused; }
      if entries[id].scope != scope { return Refused; }
      var copy := Clone(buffers[k]);
      entries := entries[id := entries[id].(kind := kind, bytes := copy)];
      reply := Done;
    }

    method RevokeSecret(scope: Scope, id: string) returns (reply: Reply)
      requires Valid()
      modifies this`entries
      ensures Valid()
      ensures Contents() == MemoryStep(old(Contents()), Revoke(scope, id)).0
      ensures id in old(entries) && old(entries)[id].scope == scope ==>
                id in entries && entries[id].revoked && entries[id].bytes == null && reply == Done
      ensures reply == MemoryStep(old(Contents()), Revoke(scope, id)).1
    {
      if id !in entries { return Done; }
      if entries[id].scope != scope { return Refused; }
      entries := entries[id := entries[id].(kind := "", bytes := null, revoked := true)];
      reply := Done;
    }

    /** Closing a handle empties it and leaves the store, every other handle and
        every caller's buffer as they were. */
    method CloseHandle(i: nat)
      requires Valid() && i < |handles|
      modifies handles[i], handles[i].bytes
      ensures Valid() && Contents() == old(Contents())
      ensures handles[i].Shown() == NO_MATERIAL && handles[i].closed
      ensures forall j :: 0 <= j < |handles| && j != i ==> handles[j].Shown() == old(handles[j].Shown())
      ensures forall k :: 0 <= k < |buffers| ==> buffers[k][..] == old(buffers[k][..])
    {
      handles[i].Close();
    }

    /** A caller overwriting its own buffer reaches no secret and no handle. */
    method WriteBuffer(k: nat, at: nat, b: bv8)
      requires Valid() && k < |buffers| && at < buffers[k].Length
      modifies buffers[k]
      ensures Valid() && Contents() == old(Contents())
      ensures buffers[k][..] == old(buffers[k][..])[at := b]
      ensures forall i :: 0 <= i < |handles| ==> handles[i].Shown() == old(handles[i].Shown())
    {
      buffers[k][at] := b;
    }
  }
}
