/** Host and GPU buffers: a store of never-reused ids, and pools that account for it. */
module Memory {
  import opened Types

  const USIZE_MAX: nat := U64_MAX

  datatype MemoryKind = Host | Gpu

  datatype MemoryError = NotFound(id: nat) | OutOfBounds | PoolExhausted

  datatype Buffer = Buffer(kind: MemoryKind, data: seq<Byte>)

  // ---------- the store the memory is meant to be ----------

  /** Ids below `issued` have been handed out; `live` holds the buffers not freed. */
  datatype Store = Store(issued: nat, live: map<nat, Buffer>)

  datatype StoreOp =
    | Grow(buffer: Buffer)
    | Put(id: nat, offset: nat, data: seq<Byte>)
    | Drop(id: nat)

  function Spliced(bytes: seq<Byte>, offset: nat, data: seq<Byte>): seq<Byte>
    requires offset + |data| <= |bytes|
  {
    bytes[..offset] + data + bytes[offset + |data|..]
  }

  predicate PutFits(s: Store, id: nat, offset: nat, len: nat) {
    id in s.live && offset + len <= |s.live[id].data|
  }

  function Apply(s: Store, op: StoreOp): Store {
    match op
    case Grow(b) => Store(s.issued + 1, s.live[s.issued := b])
    case Put(id, offset, data) =>
      if PutFits(s, id, offset, |data|) then
        s.(live := s.live[id := s.live[id].(data := Spliced(s.live[id].data, offset, data))])
      else s
    case Drop(id) => s.(live := s.live - {id})
  }

  function ApplyAll(s: Store, ops: seq<StoreOp>): Store {
    if ops == [] then s else Apply(ApplyAll(s, ops[..|ops| - 1]), ops[|ops| - 1])
  }

  ghost predicate IdsIssued(s: Store) { forall id :: id in s.live ==> id < s.issued }

  /** An id once freed is never valid again, and no live buffer is disturbed by another's operations. */
  lemma {:induction false} FreedStaysFreed(s: Store, ops: seq<StoreOp>, id: nat)
    requires IdsIssued(s) && id < s.issued
    ensures var s' := ApplyAll(s, ops);
      && IdsIssued(s') && s.issued <= s'.issued
      && (id !in s.live ==> id !in s'.live)
      && ((forall op :: op in ops ==> op.Grow? || op.id != id) && id in s.live ==> id in s'.live && s'.live[id] == s.live[id])
  {
    if ops != [] {
      FreedStaysFreed(s, ops[..|ops| - 1], id);
      assert ops[|ops| - 1] in ops;
    }
  }

  /** What the last write into byte `k` of a buffer of `size` bytes stored there. */
  function LastWritten(ops: seq<StoreOp>, id: nat, size: nat, k: nat): Option<Byte> {
    if ops == [] then None
    else
      var op := ops[|ops| - 1];
      if op.Put? && op.id == id && op.offset <= k < op.offset + |op.data| <= size then Some(op.data[k - op.offset])
      else LastWritten(ops[..|ops| - 1], id, size, k)
  }

  /** After any operations, each byte of a buffer that was not freed is what the last write covering it
      stored, or what it was at first; a write that does not fit writes nothing. */
  lemma {:induction false} ReadAfterWrites(s: Store, ops: seq<StoreOp>, id: nat, k: nat)
    requires IdsIssued(s) && id in s.live && k < |s.live[id].data|
    requires Drop(id) !in ops
    ensures var s' := ApplyAll(s, ops);
      && id in s'.live && |s'.live[id].data| == |s.live[id].data| && s'.live[id].kind == s.live[id].kind
      && s'.live[id].data[k] == match LastWritten(ops, id, |s.live[id].data|, k)
                                case Some(b) => b
                                case None => s.live[id].data[k]
  {
    if ops != [] {
      var before, op := ops[..|ops| - 1], ops[|ops| - 1];
      ReadAfterWrites(s, before, id, k);
      FreedStaysFreed(s, before, id);
      assert op in ops;
    }
  }

  function View(buffers: seq<Option<Buffer>>): Store {
    Store(|buffers|, map i: nat | i < |buffers| && buffers[i].Some? :: buffers[i].value)
  }

  lemma ViewGrows(buffers: seq<Option<Buffer>>, b: Buffer)
    ensures View(buffers + [Some(b)]) == Apply(View(buffers), Grow(b))
  {
  }

  lemma ViewChanges(buffers: seq<Option<Buffer>>, i: nat, o: Option<Buffer>)
    requires i < |buffers|
    ensures View(buffers[i := o]).live == (if o.Some? then View(buffers).live[i := o.value] else View(buffers).live - {i})
  {
  }

  class SimMemory {
    var nextId: nat
    var buffers: seq<Option<Buffer>>

    ghost predicate Valid()
      reads this
    {
      nextId == |buffers| && forall i :: 0 <= i < |buffers| && buffers[i].Some? ==> |buffers[i].value.data| <= USIZE_MAX
    }

    ghost function Model(): Store
      reads this
    {
      View(buffers)
    }

    constructor ()
      ensures Valid() && buffers == []
    {
      nextId, buffers := 0, [];
    }

    method KindOf(id: nat) returns (r: Result<MemoryKind, MemoryError>)
      ensures r == if id in Model().live then Ok(Model().live[id].kind) else Err(NotFound(id))
    {
      if id >= |buffers| || buffers[id].None? {
        return Err(NotFound(id));
      }
      return Ok(buffers[id].value.kind);
    }

    method Allocate(size: nat, kind: MemoryKind) returns (id: nat)
      requires Valid() && size <= USIZE_MAX
      modifies this
      ensures Valid() && id == |old(buffers)| == old(Model()).issued && buffers == old(buffers) + [Some(Buffer(kind, seq(size, _ => 0)))]
      ensures Model() == Apply(old(Model()), Grow(Buffer(kind, seq(size, _ => 0))))
    {
      ViewGrows(buffers, Buffer(kind, seq(size, _ => 0)));
      id := nextId;
      nextId := nextId + 1;
      buffers := buffers + [Some(Buffer(kind, seq(size, _ => 0)))];
    }

    method Write(id: nat, offset: nat, data: seq<Byte>) returns (r: Result<(), MemoryError>)
      requires Valid()
      modifies this
      ensures Valid() && Model() == Apply(old(Model()), Put(id, offset, data))
      ensures r == if id !in old(Model()).live then Err(NotFound(id))
                   else if PutFits(old(Model()), id, offset, |data|) then Ok(()) else Err(OutOfBounds)
      ensures |buffers| == |old(buffers)| && forall i :: 0 <= i < |buffers| ==> Shape(buffers[i]) == Shape(old(buffers)[i])
    {
      if id >= |buffers| || buffers[id].None? {
        return Err(NotFound(id));
      }
      var buffer := buffers[id].value;
      assert id in Model().live;
      if offset + |data| > USIZE_MAX {
        return Err(OutOfBounds);
      }
      var end := offset + |data|;
      if end > |buffer.data| {
        return Err(OutOfBounds);
      }
      ViewChanges(buffers, id, Some(buffer.(data := Spliced(buffer.data, offset, data))));
      buffers := buffers[id := Some(buffer.(data := buffer.data[..offset] + data + buffer.data[end..]))];
      return Ok(());
    }

    method Read(id: nat, offset: nat, len: nat) returns (r: Result<seq<Byte>, MemoryError>)
      requires Valid()
      ensures r == if id !in Model().live then Err(NotFound(id))
                   else if PutFits(Model(), id, offset, len) then Ok(Model().live[id].data[offset..offset + len])
                   else Err(OutOfBounds)
    {
      if id >= |buffers| || buffers[id].None? {
        return Err(NotFound(id));
      }
      assert id in Model().live;
      if offset + len > USIZE_MAX {
        return Err(OutOfBounds);
      }
      var end := offset + len;
      if end > |buffers[id].value.data| {
        return Err(OutOfBounds);
      }
      return Ok(buffers[id].value.data[offset..end]);
    }

    method Free(id: nat) returns (r: Result<(), MemoryError>)
      requires Valid()
      modifies this
      ensures Valid() && r == if id in old(Model()).live then Ok(()) else Err(NotFound(id))
      ensures Model() == Apply(old(Model()), Drop(id))
      ensures buffers == if r.Ok? then old(buffers)[id := None] else old(buffers)
    {
      if id >= |buffers| || buffers[id].None? {
        return Err(NotFound(id));
      }
      ViewChanges(buffers, id, None);
      buffers := buffers[id := None];
      return Ok(());
    }
  }

  // ---------- pools ----------

  /** `h2dNs` and `d2hNs` give the transfer time of a byte count in each direction. */
  datatype PoolConfig = PoolConfig(
    hostPoolBytes: nat, gpuPoolBytes: nat, maxBuffers: nat,
    h2dNs: nat -> U64, d2hNs: nat -> U64, fixedCopyNs: U64)

  datatype Size = Size(kind: MemoryKind, bytes: nat)

  function Shape(b: Option<Buffer>): Option<Size> {
    if b.Some? then Some(Size(b.value.kind, |b.value.data|)) else None
  }

  function BytesOf(o: Option<Size>, kind: MemoryKind): nat {
    if o.Some? && o.value.kind == kind then o.value.bytes else 0
  }

  function Total(sizes: seq<Option<Size>>, kind: MemoryKind): nat {
    if sizes == [] then 0 else Total(sizes[..|sizes| - 1], kind) + BytesOf(sizes[|sizes| - 1], kind)
  }

  function LiveCount(sizes: seq<Option<Size>>): nat {
    if sizes == [] then 0 else LiveCount(sizes[..|sizes| - 1]) + if sizes[|sizes| - 1].Some? then 1 else 0
  }

  lemma {:induction false} TotalsUpdate(sizes: seq<Option<Size>>, i: nat, o: Option<Size>, kind: MemoryKind)
    requires i < |sizes|
    ensures Total(sizes[i := o], kind) + BytesOf(sizes[i], kind) == Total(sizes, kind) + BytesOf(o, kind)
    ensures LiveCount(sizes[i := o]) + (if sizes[i].Some? then 1 else 0)
         == LiveCount(sizes) + (if o.Some? then 1 else 0)
  {
    var front := sizes[..|sizes| - 1];
    if i == |sizes| - 1 {
      assert sizes[i := o][..|sizes| - 1] == front;
    } else {
      TotalsUpdate(front, i, o, kind);
      assert sizes[i := o][..|sizes| - 1] == front[i := o];
    }
  }

  lemma TotalsAppend(sizes: seq<Option<Size>>, o: Option<Size>, kind: MemoryKind)
    ensures Total(sizes + [o], kind) == Total(sizes, kind) + BytesOf(o, kind)
    ensures LiveCount(sizes + [o]) == LiveCount(sizes) + (if o.Some? then 1 else 0)
  {
    assert (sizes + [o])[..|sizes|] == sizes;
  }

  lemma {:induction false} SizeBounded(sizes: seq<Option<Size>>, i: nat, kind: MemoryKind)
    requires i < |sizes|
    ensures BytesOf(sizes[i], kind) <= Total(sizes, kind)
    ensures sizes[i].Some? ==> LiveCount(sizes) >= 1
  {
    if i < |sizes| - 1 { SizeBounded(sizes[..|sizes| - 1], i, kind); }
  }

  /** What `allocate` compares with a pool limit: the sum, saturated. */
  predicate Exceeds(used: nat, size: nat, pool: nat) { Min(used + size, USIZE_MAX) > pool }

  /** The saturated comparison decides as the exact sum does, for every use and size, if and only if
      the pool is smaller than the largest `usize`. */
  lemma PoolCheckExactIff(pool: nat)
    requires pool <= USIZE_MAX
    ensures pool < USIZE_MAX <==>
              forall used, size {:trigger Exceeds(used, size, pool)} ::
                0 <= used <= pool && 0 <= size <= USIZE_MAX ==> (Exceeds(used, size, pool) <==> used + size > pool)
  {
    assert pool == USIZE_MAX ==> !Exceeds(pool, 1, pool);
  }

  class PooledMemory {
    const cfg: PoolConfig
    const inner: SimMemory
    var hostUsed: nat
    var gpuUsed: nat
    var bufferCount: nat
    var sizes: seq<Option<Size>>
    var lastCopyNs: Option<U64>
    var copyOps: nat

    /** The counters are exact sums over the live buffers, within the limits. */
    ghost predicate Valid()
      reads this, inner
    {
      && inner.Valid() && cfg.hostPoolBytes <= USIZE_MAX && cfg.gpuPoolBytes <= USIZE_MAX
      && |sizes| == |inner.buffers| && (forall i :: 0 <= i < |sizes| ==> sizes[i] == Shape(inner.buffers[i]))
      && hostUsed == Total(sizes, Host) <= cfg.hostPoolBytes
      && gpuUsed == Total(sizes, Gpu) <= cfg.gpuPoolBytes
      && bufferCount == LiveCount(sizes) <= cfg.maxBuffers
    }

    ghost function Model(): Store
      reads inner
    {
      inner.Model()
    }

    constructor (cfg: PoolConfig)
      requires cfg.hostPoolBytes <= USIZE_MAX && cfg.gpuPoolBytes <= USIZE_MAX
      ensures Valid() && fresh(inner) && this.cfg == cfg && Model() == Store(0, map[])
    {
      this.cfg := cfg;
      inner := new SimMemory();
      hostUsed, gpuUsed, bufferCount, sizes := 0, 0, 0, [];
      lastCopyNs, copyOps := None, 0;
    }

    /** Room for one more buffer of this size and kind. */
    predicate HasRoom(size: nat, kind: MemoryKind)
      reads this
    {
      && bufferCount < cfg.maxBuffers
      && (if kind == Host then hostUsed + size <= cfg.hostPoolBytes else gpuUsed + size <= cfg.gpuPoolBytes)
    }

    /** Adding the size to the counter does not overflow if the pool check lets it through. Below the
        largest `usize` every pool is so; at it, the code would overflow. */
    predicate SumFits(size: nat, kind: MemoryKind)
      reads this
    {
      if kind == Host then Exceeds(hostUsed, size, cfg.hostPoolBytes) || hostUsed + size <= USIZE_MAX
      else Exceeds(gpuUsed, size, cfg.gpuPoolBytes) || gpuUsed + size <= USIZE_MAX
    }

    lemma SumsFitBelowLimit(size: nat, kind: MemoryKind)
      requires Valid() && size <= USIZE_MAX
      ensures (if kind == Host then cfg.hostPoolBytes else cfg.gpuPoolBytes) < USIZE_MAX ==> SumFits(size, kind)
    {
    }

    method Allocate(size: nat, kind: MemoryKind) returns (r: Result<nat, MemoryError>)
      requires Valid() && size <= USIZE_MAX && SumFits(size, kind)
      modifies this, inner
      ensures Valid()
      ensures r == if old(HasRoom(size, kind)) then Ok(old(Model()).issued) else Err(PoolExhausted)
      ensures Model() == if r.Ok? then Apply(old(Model()), Grow(Buffer(kind, seq(size, _ => 0)))) else old(Model())
      ensures hostUsed == old(hostUsed) + (if r.Ok? && kind == Host then size else 0)
      ensures gpuUsed == old(gpuUsed) + (if r.Ok? && kind == Gpu then size else 0)
      ensures bufferCount == old(bufferCount) + (if r.Ok? then 1 else 0)
      ensures lastCopyNs == old(lastCopyNs) && copyOps == old(copyOps)
    {
      hide View, Total, LiveCount, Apply;
      if bufferCount >= cfg.maxBuffers {
        return Err(PoolExhausted);
      }
      match kind {
        case Host =>
          if Exceeds(hostUsed, size, cfg.hostPoolBytes) {
            return Err(PoolExhausted);
          }
        case Gpu =>
          if Exceeds(gpuUsed, size, cfg.gpuPoolBytes) {
            return Err(PoolExhausted);
          }
      }
      var id := inner.Allocate(size, kind);
      RecordSize(id, Size(kind, size));
      bufferCount := bufferCount + 1;
      match kind {
        case Host => hostUsed := hostUsed + size;
        case Gpu => gpuUsed := gpuUsed + size;
      }
      return Ok(id);
    }

    /** Extends the size table up to `id` and enters the size there. */
    method RecordSize(id: nat, size: Size)
      requires id == |sizes|
      modifies `sizes
      ensures sizes == old(sizes) + [Some(size)]
      ensures Total(sizes, Host) == Total(old(sizes), Host) + BytesOf(Some(size), Host)
      ensures Total(sizes, Gpu) == Total(old(sizes), Gpu) + BytesOf(Some(size), Gpu)
      ensures LiveCount(sizes) == LiveCount(old(sizes)) + 1
    {
      ghost var before := sizes;
      TotalsAppend(before, Some(size), Host);
      TotalsAppend(before, Some(size), Gpu);
      while |sizes| <= id
        invariant |before| <= |sizes| <= id + 1 && sizes == before + seq(|sizes| - |before|, _ => None)
        decreases id + 1 - |sizes|
      {
        sizes := sizes + [None];
      }
      sizes := sizes[id := Some(size)];
      assert sizes == before + [Some(size)];
    }

    method Write(id: nat, offset: nat, data: seq<Byte>) returns (r: Result<(), MemoryError>)
      requires Valid()
      modifies inner
      ensures Valid() && Model() == Apply(old(Model()), Put(id, offset, data))
      ensures r == if id !in old(Model()).live then Err(NotFound(id))
                   else if PutFits(old(Model()), id, offset, |data|) then Ok(()) else Err(OutOfBounds)
    {
      hide View, Apply, Total, LiveCount;
      r := inner.Write(id, offset, data);
      assert forall i :: 0 <= i < |sizes| ==> sizes[i] == Shape(inner.buffers[i]);
    }

    method Read(id: nat, offset: nat, len: nat) returns (r: Result<seq<Byte>, MemoryError>)
      requires Valid()
      ensures r == if id !in Model().live then Err(NotFound(id))
                   else if PutFits(Model(), id, offset, len) then Ok(Model().live[id].data[offset..offset + len])
                   else Err(OutOfBounds)
    {
      r := inner.Read(id, offset, len);
    }

    /** Frees a live buffer and gives back exactly its bytes; the saturating subtractions never clip. */
    method Free(id: nat) returns (r: Result<(), MemoryError>)
      requires Valid()
      modifies this, inner
      ensures Valid() && r == if id in old(Model()).live then Ok(()) else Err(NotFound(id))
      ensures Model() == Apply(old(Model()), Drop(id))
      ensures r.Ok? ==>
                var b := old(Model()).live[id];
                && hostUsed + (if b.kind == Host then |b.data| else 0) == old(hostUsed)
                && gpuUsed + (if b.kind == Gpu then |b.data| else 0) == old(gpuUsed)
                && bufferCount + 1 == old(bufferCount)
      ensures r.Err? ==> hostUsed == old(hostUsed) && gpuUsed == old(gpuUsed) && bufferCount == old(bufferCount)
    {
      if id >= |sizes| || sizes[id].None? {
        assert id !in Model().live;
        return Err(NotFound(id));
      }
      var size := sizes[id].value;
      assert sizes[id] == Shape(inner.buffers[id]);
      SizeBounded(sizes, id, size.kind);
      TotalsUpdate(sizes, id, None, Host);
      TotalsUpdate(sizes, id, None, Gpu);
      var freed := inner.Free(id);
      if freed.Err? {
        return freed;
      }
      sizes := sizes[id := None];
      bufferCount := Max(bufferCount - 1, 0);
      match size.kind {
        case Host => hostUsed := Max(hostUsed - size.bytes, 0);
        case Gpu => gpuUsed := Max(gpuUsed - size.bytes, 0);
      }
      return Ok(());
    }

    /** Copies part of a buffer into a fresh one; all other buffers stay as they are. A refused copy
        changes nothing: the write into the fresh buffer cannot fail. */
    method Copy(src: nat, offset: nat, len: nat, dstKind: MemoryKind) returns (r: Result<(nat, U64), MemoryError>)
      requires Valid() && len <= USIZE_MAX && SumFits(len, dstKind)
      modifies this, inner
      ensures Valid()
      ensures match r
              case Ok((dst, ns)) =>
                var before := old(Model());
                && PutFits(before, src, offset, len) && old(HasRoom(len, dstKind)) && dst == before.issued
                && Model() == Apply(before, Grow(Buffer(dstKind, before.live[src].data[offset..offset + len])))
                && ns >= cfg.fixedCopyNs
                && (ns < U64_MAX ==>
                      ns - cfg.fixedCopyNs == if before.live[src].kind == dstKind then 0
                                              else if dstKind == Gpu then cfg.h2dNs(len) else cfg.d2hNs(len))
                && (before.live[src].kind == dstKind ==> ns == cfg.fixedCopyNs)
                && lastCopyNs == Some(ns) && copyOps == old(copyOps) + 1
              case Err(e) =>
                && e == (if src !in old(Model()).live then NotFound(src)
                         else if !PutFits(old(Model()), src, offset, len) then OutOfBounds else PoolExhausted)
                && (e == PoolExhausted ==> !old(HasRoom(len, dstKind)))
                && Model() == old(Model()) && hostUsed == old(hostUsed) && gpuUsed == old(gpuUsed)
                && bufferCount == old(bufferCount) && copyOps == old(copyOps) && lastCopyNs == old(lastCopyNs)
    {
      hide View, Total, LiveCount;
      var srcKind := inner.KindOf(src);
      if srcKind.Err? {
        return Err(srcKind.error);
      }
      var data := inner.Read(src, offset, len);
      if data.Err? {
        return Err(data.error);
      }
      var dst := Allocate(len, dstKind);
      if dst.Err? {
        return Err(dst.error);
      }
      var written := Write(dst.value, 0, data.value);
      ghost var zeros: seq<Byte> := seq(len, _ => 0);
      assert Spliced(zeros, 0, data.value) == data.value;
      match written
      case Err(e) =>
        return Err(e);
      case Ok(_) =>
        var ns := CopyNs(srcKind.value, dstKind, len);
        lastCopyNs := Some(ns);
        copyOps := copyOps + 1;
        return Ok((dst.value, ns));
    }

    function CopyNs(src: MemoryKind, dst: MemoryKind, len: nat): U64 {
      match (src, dst)
      case (Host, Gpu) => SatAdd(cfg.h2dNs(len), cfg.fixedCopyNs)
      case (Gpu, Host) => SatAdd(cfg.d2hNs(len), cfg.fixedCopyNs)
      case _ => cfg.fixedCopyNs
    }
  }
}
