/** The asset registry for static meshes (qz/gfx/assets.cpp): an append-only
    table of { payload, done } entries, addressed by handles that carry an index.
    The registry's mutex only serialises these operations; the model is the
    sequential semantics. */
module Assets {
  import opened Vk

  /** Buffer: its VMA allocation, capacity in bytes, VkBuffer and host mapping. */
  datatype Buffer = Buffer(allocation: Handle, capacity: nat, handle: Handle, mapped: Handle)

  /** A value-initialised Buffer, which is also what Buffer::destroy leaves behind. */
  const EmptyBuffer := Buffer(NullHandle, 0, NullHandle, NullHandle)

  datatype StaticMesh = StaticMesh(geometry: Buffer, indices: Buffer)

  const EmptyMesh := StaticMesh(EmptyBuffer, EmptyBuffer)

  /** InternalStorage<StaticMesh>; `payload` is the source's `object`. */
  datatype Entry = Entry(payload: StaticMesh, done: bool)

  /** meta::Handle<StaticMesh>. */
  datatype MeshHandle = MeshHandle(index: nat)

  /** The operations that change the table. Store is the write through the
      reference from_handle returns, as the mesh upload job does it. */
  datatype Op =
    | EmplaceEmpty
    | Store(handle: MeshHandle, mesh: StaticMesh)
    | Finalize(handle: MeshHandle)
    | FreeAllResources

  /** The assertion every handle-taking operation makes. */
  predicate Allowed(entries: seq<Entry>, op: Op) {
    match op
    case EmplaceEmpty => true
    case Store(h, _) => h.index < |entries|
    case Finalize(h) => h.index < |entries|
    case FreeAllResources => true
  }

  /** The table after one operation. */
  function Apply(entries: seq<Entry>, op: Op): seq<Entry>
    requires Allowed(entries, op)
  {
    match op
    case EmplaceEmpty => entries + [Entry(EmptyMesh, false)]
    case Store(h, mesh) => entries[h.index := entries[h.index].(payload := mesh)]
    case Finalize(h) => entries[h.index := entries[h.index].(done := true)]
    case FreeAllResources => seq(|entries|, i requires 0 <= i < |entries| => entries[i].(payload := EmptyMesh))
  }

  /** What each operation does to the table, and what it leaves alone. */
  lemma ApplyEffects(entries: seq<Entry>, op: Op)
    requires Allowed(entries, op)
    ensures op.EmplaceEmpty? ==>
      |Apply(entries, op)| == |entries| + 1 && Apply(entries, op)[..|entries|] == entries
      && Apply(entries, op)[|entries|] == Entry(EmptyMesh, false)
    ensures !op.EmplaceEmpty? ==> |Apply(entries, op)| == |entries|
    ensures op.Finalize? ==>
      Apply(entries, op)[op.handle.index].done
      && Apply(entries, op)[op.handle.index].payload == entries[op.handle.index].payload
      && forall i :: 0 <= i < |entries| && i != op.handle.index ==> Apply(entries, op)[i] == entries[i]
    ensures op.Store? ==>
      Apply(entries, op)[op.handle.index] == Entry(op.mesh, entries[op.handle.index].done)
      && forall i :: 0 <= i < |entries| && i != op.handle.index ==> Apply(entries, op)[i] == entries[i]
    ensures op.FreeAllResources? ==>
      forall i :: 0 <= i < |entries| ==> Apply(entries, op)[i] == Entry(EmptyMesh, entries[i].done)
  {
  }

  /** A sequence of operations each of whose handles is valid when it runs. */
  predicate Runs(entries: seq<Entry>, ops: seq<Op>)
    decreases |ops|
  {
    ops == [] || (Allowed(entries, ops[0]) && Runs(Apply(entries, ops[0]), ops[1..]))
  }

  function Run(entries: seq<Entry>, ops: seq<Op>): seq<Entry>
    requires Runs(entries, ops)
    decreases |ops|
  {
    if ops == [] then entries else Run(Apply(entries, ops[0]), ops[1..])
  }

  /** The handle indices the EmplaceEmpty operations return, in order. */
  function Issued(entries: seq<Entry>, ops: seq<Op>): seq<nat>
    requires Runs(entries, ops)
    decreases |ops|
  {
    if ops == [] then []
    else (if ops[0].EmplaceEmpty? then [|entries|] else []) + Issued(Apply(entries, ops[0]), ops[1..])
  }

  /** No operation removes an entry, and a ready entry stays ready. */
  lemma {:induction false} ReadyStaysReady(entries: seq<Entry>, ops: seq<Op>)
    requires Runs(entries, ops)
    decreases |ops|
    ensures |Run(entries, ops)| >= |entries|
    ensures forall i :: 0 <= i < |entries| && entries[i].done ==> Run(entries, ops)[i].done
  {
    if ops != [] {
      ReadyStaysReady(Apply(entries, ops[0]), ops[1..]);
    }
  }

  /** Handles are issued consecutively from the table size onwards, so every
      issued handle is new and none is issued twice; the table grows by
      exactly the number of handles issued. */
  lemma {:induction false} HandlesConsecutive(entries: seq<Entry>, ops: seq<Op>)
    requires Runs(entries, ops)
    decreases |ops|
    ensures |Run(entries, ops)| == |entries| + |Issued(entries, ops)|
    ensures forall k :: 0 <= k < |Issued(entries, ops)| ==> Issued(entries, ops)[k] == |entries| + k
  {
    if ops != [] {
      var next := Apply(entries, ops[0]);
      HandlesConsecutive(next, ops[1..]);
    }
  }

  /** Issued handles are pairwise distinct and each one is valid afterwards. */
  lemma HandlesNeverReused(entries: seq<Entry>, ops: seq<Op>)
    requires Runs(entries, ops)
    ensures forall j, k :: 0 <= j < k < |Issued(entries, ops)| ==> Issued(entries, ops)[j] < Issued(entries, ops)[k]
    ensures forall k :: 0 <= k < |Issued(entries, ops)| ==>
      |entries| <= Issued(entries, ops)[k] < |Run(entries, ops)|
  {
    HandlesConsecutive(entries, ops);
  }

  /** The buffers free_all_resources destroys: geometry then indices, entry by entry. */
  function BuffersOf(entries: seq<Entry>): seq<Buffer> {
    if entries == [] then []
    else BuffersOf(entries[..|entries| - 1]) + [entries[|entries| - 1].payload.geometry, entries[|entries| - 1].payload.indices]
  }

  lemma {:induction false} BuffersOfVisitsEveryEntry(entries: seq<Entry>)
    ensures |BuffersOf(entries)| == 2 * |entries|
    ensures forall i :: 0 <= i < |entries| ==>
      BuffersOf(entries)[2 * i] == entries[i].payload.geometry && BuffersOf(entries)[2 * i + 1] == entries[i].payload.indices
  {
    if entries != [] {
      var p := entries[..|entries| - 1];
      BuffersOfVisitsEveryEntry(p);
      assert forall i :: 0 <= i < |p| ==> p[i] == entries[i];
    }
  }

  /** The table for one asset type. */
  class Registry {
    var entries: seq<Entry>

    constructor ()
      ensures entries == []
    {
      entries := [];
    }

    /** emplace_empty: appends a default entry and returns its index. */
    method EmplaceEmpty() returns (h: MeshHandle)
      modifies this
      ensures entries == Apply(old(entries), Op.EmplaceEmpty)
      ensures h.index == old(|entries|) && h.index < |entries|
    {
      entries := entries + [Entry(EmptyMesh, false)];
      h := MeshHandle(|entries| - 1);
    }

    /** from_handle, read side. */
    method FromHandle(h: MeshHandle) returns (mesh: StaticMesh)
      requires h.index < |entries|
      ensures mesh == entries[h.index].payload
    {
      mesh := entries[h.index].payload;
    }

    /** from_handle, write side: `from_handle(h) = mesh`. */
    method Store(h: MeshHandle, mesh: StaticMesh)
      requires h.index < |entries|
      modifies this
      ensures entries == Apply(old(entries), Op.Store(h, mesh))
    {
      entries := entries[h.index := entries[h.index].(payload := mesh)];
    }

    /** finalize: the one-way pending-to-ready flip. */
    method Finalize(h: MeshHandle)
      requires h.index < |entries|
      modifies this
      ensures entries == Apply(old(entries), Op.Finalize(h))
    {
      entries := entries[h.index := entries[h.index].(done := true)];
    }

    /** is_ready. */
    method IsReady(h: MeshHandle) returns (ready: bool)
      requires h.index < |entries|
      ensures ready <==> entries[h.index].done
    {
      ready := entries[h.index].done;
    }

    /** free_all_resources: destroys both buffers of every entry, in table
        order; Buffer::destroy resets each stored buffer. */
    method FreeAllResources() returns (destroyed: seq<Buffer>)
      modifies this
      ensures destroyed == BuffersOf(old(entries))
      ensures entries == Apply(old(entries), Op.FreeAllResources)
    {
      destroyed := [];
      var i := 0;
      while i < |entries|
        invariant 0 <= i <= |entries| == |old(entries)|
        invariant destroyed == BuffersOf(old(entries)[..i])
        invariant forall k :: 0 <= k < i ==> entries[k] == old(entries)[k].(payload := EmptyMesh)
        invariant forall k :: i <= k < |entries| ==> entries[k] == old(entries)[k]
      {
        var each := entries[i];
        destroyed := destroyed + [each.payload.geometry, each.payload.indices];
        entries := entries[i := each.(payload := EmptyMesh)];
        assert old(entries)[..i + 1][..i] == old(entries)[..i];
        i := i + 1;
      }
      assert old(entries)[..i] == old(entries);
    }
  }

  /** The mesh upload job's effect: store the uploaded buffers, then finalize. */
  method Upload(registry: Registry, h: MeshHandle, mesh: StaticMesh)
    requires h.index < |registry.entries|
    modifies registry
    ensures registry.entries == Run(old(registry.entries), [Store(h, mesh), Finalize(h)])
    ensures |registry.entries| == old(|registry.entries|) && registry.entries[h.index] == Entry(mesh, true)
  {
    registry.Store(h, mesh);
    registry.Finalize(h);
    ghost var once := Apply(old(registry.entries), Store(h, mesh));
    assert Run(once, [Finalize(h)]) == Apply(once, Finalize(h));
  }
}
