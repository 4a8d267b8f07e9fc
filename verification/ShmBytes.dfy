/** The ring laid out in the bytes of the shared mapping. The same two programs run on bytes, and
    every byte-level run shows exactly the slot-level run. */
module ShmBytes {
  import opened Types
  import opened Protocol
  import opened ShmMachine
  import opened ShmFifo

  const SHM_MAGIC: U32 := 0x314D_4853
  const HEADER_BYTES: nat := 64
  const WRITE_AT: nat := 16
  const READ_AT: nat := 24

  datatype ShmError = Config | Protocol(e: ProtocolError) | RingFull | BadHeader | FrameTooLarge

  function Stride(g: Geometry): nat { 8 + g.slotBytes }

  function SlotBase(g: Geometry, i: nat): nat { HEADER_BYTES + i * Stride(g) }

  function TotalBytes(g: Geometry): nat { SlotBase(g, g.slotCount) }

  /** Slot regions are disjoint, follow the header and lie inside the mapping. */
  lemma SlotRegions(g: Geometry, i: nat, j: nat)
    requires i < j <= g.slotCount
    ensures HEADER_BYTES <= SlotBase(g, i)
    ensures SlotBase(g, i) + Stride(g) <= SlotBase(g, j) <= TotalBytes(g)
  {
    assert (i + 1) * Stride(g) <= j * Stride(g) <= g.slotCount * Stride(g);
    assert (i + 1) * Stride(g) == i * Stride(g) + Stride(g);
  }

  // ---------- reading slots out of bytes ----------

  predicate Fits(g: Geometry, b: seq<Byte>) { Admitted(g) && |b| == TotalBytes(g) }

  function SlotView(g: Geometry, b: seq<Byte>, i: nat): (s: Slot)
    requires Fits(g, b) && i < g.slotCount
    ensures |s.data| == g.slotBytes
  {
    SlotRegions(g, i, g.slotCount);
    var a := SlotBase(g, i);
    Slot(Le32(b[a..a + 4]), Le32(b[a + 4..a + 8]), b[a + 8..a + 8 + g.slotBytes])
  }

  function View(g: Geometry, b: seq<Byte>): (m: Mem)
    requires Fits(g, b)
    ensures Shaped(g, m)
  {
    SlotRegions(g, 0, g.slotCount);
    Mem(Le64(b[16..24]), Le64(b[24..32]), seq(g.slotCount, i requires 0 <= i < g.slotCount => SlotView(g, b, i)))
  }

  // ---------- the operations on bytes ----------

  function Patch(b: seq<Byte>, at: nat, s: seq<Byte>): (b': seq<Byte>)
    requires at + |s| <= |b|
    ensures |b'| == |b|
  {
    b[..at] + s + b[at + |s|..]
  }

  lemma PatchSlice(b: seq<Byte>, at: nat, s: seq<Byte>, i: nat, j: nat)
    requires at + |s| <= |b| && i <= j <= |b|
    ensures j <= at || at + |s| <= i ==> Patch(b, at, s)[i..j] == b[i..j]
    ensures i == at && j == at + |s| ==> Patch(b, at, s)[i..j] == s
  {
    var b' := Patch(b, at, s);
    assert forall k :: 0 <= k < |b| && (k < at || at + |s| <= k) ==> b'[k] == b[k];
  }

  lemma PatchByte(b: seq<Byte>, at: nat, v: Byte, i: nat, j: nat)
    requires i <= at < j <= |b|
    ensures Patch(b, at, [v])[i..j] == b[i..j][at - i := v]
  {
  }

  /** Where an operation's bytes start; the range it may touch is `width` bytes long. */
  function Address(g: Geometry, op: Op): nat {
    match op
    case LoadWritePos | StoreWritePos(_) => WRITE_AT
    case LoadReadPos | StoreReadPos(_) => READ_AT
    case LoadState(_) | StoreState(_, _) => SlotBase(g, op.idx)
    case LoadLen(_) | StoreLen(_, _) => SlotBase(g, op.idx) + 4
    case LoadByte(_, _) | StoreByte(_, _, _) => SlotBase(g, op.idx) + 8 + op.at
  }

  function Width(op: Op): nat {
    match op
    case LoadWritePos | StoreWritePos(_) | LoadReadPos | StoreReadPos(_) => 8
    case LoadState(_) | StoreState(_, _) | LoadLen(_) | StoreLen(_, _) => 4
    case LoadByte(_, _) | StoreByte(_, _, _) => 1
  }

  lemma AddressInside(g: Geometry, op: Op)
    requires Admitted(g) && InBounds(g, op)
    ensures 16 <= Address(g, op) && Address(g, op) + Width(op) <= TotalBytes(g)
  {
    SlotRegions(g, 0, g.slotCount);
    if !(op.LoadWritePos? || op.StoreWritePos? || op.LoadReadPos? || op.StoreReadPos?) {
      SlotRegions(g, op.idx, g.slotCount);
    }
  }

  /** The bytes a store writes; a load writes none. */
  function Stored(op: Op): (s: seq<Byte>)
    ensures s == [] || |s| == Width(op)
  {
    match op
    case StoreWritePos(v) => LeBytes(v, 8)
    case StoreReadPos(v) => LeBytes(v, 8)
    case StoreState(_, v) => LeBytes(v, 4)
    case StoreLen(_, v) => LeBytes(v, 4)
    case StoreByte(_, _, v) => [v]
    case _ => []
  }

  function ApplyBytes(g: Geometry, b: seq<Byte>, op: Op): (b': seq<Byte>)
    requires Fits(g, b) && InBounds(g, op)
    ensures Fits(g, b')
  {
    AddressInside(g, op);
    Patch(b, Address(g, op), Stored(op))
  }

  function LoadedBytes(g: Geometry, b: seq<Byte>, op: Op): U64
    requires Fits(g, b) && InBounds(g, op)
  {
    AddressInside(g, op);
    var a := Address(g, op);
    match op
    case LoadWritePos | LoadReadPos => Le64(b[a..a + 8])
    case LoadState(_) | LoadLen(_) => Le32(b[a..a + 4])
    case LoadByte(_, _) => b[a]
    case _ => 0
  }

  /** A store into slot `i` changes no byte outside slot `i`; a position store changes no slot byte.
      The first 16 bytes, which identify the ring, never change. */
  lemma StoreStaysInside(g: Geometry, b: seq<Byte>, op: Op, k: nat)
    requires Fits(g, b) && InBounds(g, op) && k < |b|
    requires k < 16 || k < Address(g, op) || Address(g, op) + Width(op) <= k
    ensures ApplyBytes(g, b, op)[k] == b[k]
  {
    AddressInside(g, op);
  }

  lemma Le32RoundTrip(v: U32)
    ensures Le32(LeBytes(v, 4)) == v
  {
    Widths(); LeValueOfBytes(v, 4);
  }

  lemma Le64RoundTrip(v: U64)
    ensures Le64(LeBytes(v, 8)) == v
  {
    Widths(); LeValueOfBytes(v, 8);
  }

  // A patch outside a slot leaves its view alone.
  lemma SlotUntouched(g: Geometry, b: seq<Byte>, at: nat, s: seq<Byte>, j: nat)
    requires Fits(g, b) && j < g.slotCount && at + |s| <= |b|
    requires at + |s| <= SlotBase(g, j) || SlotBase(g, j) + Stride(g) <= at
    ensures SlotView(g, Patch(b, at, s), j) == SlotView(g, b, j)
  {
    hide LeValue, Patch;
    SlotRegions(g, j, g.slotCount);
    var a := SlotBase(g, j);
    PatchSlice(b, at, s, a, a + 4);
    PatchSlice(b, at, s, a + 4, a + 8);
    PatchSlice(b, at, s, a + 8, a + 8 + g.slotBytes);
  }

  lemma SlotTouched(g: Geometry, b: seq<Byte>, op: Op)
    requires Fits(g, b) && InBounds(g, op) && (op.StoreState? || op.StoreLen? || op.StoreByte?)
    ensures SlotView(g, ApplyBytes(g, b, op), op.idx) == Apply(g, View(g, b), op).slots[op.idx]
  {
    hide LeValue, LeBytes, Patch, SlotBase;
    AddressInside(g, op);
    SlotRegions(g, op.idx, g.slotCount);
    var a, at, s := SlotBase(g, op.idx), Address(g, op), Stored(op);
    PatchSlice(b, at, s, a, a + 4);
    PatchSlice(b, at, s, a + 4, a + 8);
    PatchSlice(b, at, s, a + 8, a + 8 + g.slotBytes);
    match op {
      case StoreState(_, v) => Le32RoundTrip(v);
      case StoreLen(_, v) => Le32RoundTrip(v);
      case StoreByte(_, _, v) => PatchByte(b, at, v, a + 8, a + 8 + g.slotBytes);
    }
  }

  lemma SlotStoreShown(g: Geometry, b: seq<Byte>, op: Op)
    requires Fits(g, b) && InBounds(g, op) && (op.StoreState? || op.StoreLen? || op.StoreByte?)
    ensures View(g, ApplyBytes(g, b, op)) == Apply(g, View(g, b), op)
  {
    hide LeValue, LeBytes, Patch, SlotView, SlotBase;
    AddressInside(g, op);
    SlotTouched(g, b, op);
    var b', at, s, i := ApplyBytes(g, b, op), Address(g, op), Stored(op), op.idx;
    SlotRegions(g, i, g.slotCount);
    PatchSlice(b, at, s, 16, 24);
    PatchSlice(b, at, s, 24, 32);
    forall j | 0 <= j < g.slotCount && j != i ensures SlotView(g, b', j) == SlotView(g, b, j) {
      if j < i { SlotRegions(g, j, i); } else { SlotRegions(g, i, j); }
      SlotUntouched(g, b, at, s, j);
    }
    assert View(g, b').slots == Apply(g, View(g, b), op).slots;
  }

  lemma PositionStoreShown(g: Geometry, b: seq<Byte>, op: Op)
    requires Fits(g, b) && InBounds(g, op) && (op.StoreWritePos? || op.StoreReadPos?)
    ensures View(g, ApplyBytes(g, b, op)) == Apply(g, View(g, b), op)
  {
    hide LeValue, LeBytes, Patch, SlotView;
    AddressInside(g, op);
    var b', at, s := ApplyBytes(g, b, op), Address(g, op), Stored(op);
    PatchSlice(b, at, s, 16, 24);
    PatchSlice(b, at, s, 24, 32);
    Le64RoundTrip(op.pos);
    forall j | 0 <= j < g.slotCount ensures SlotView(g, b', j) == SlotView(g, b, j) {
      SlotRegions(g, j, g.slotCount);
      SlotUntouched(g, b, at, s, j);
    }
    assert View(g, b').slots == View(g, b).slots;
  }

  lemma LoadShown(g: Geometry, b: seq<Byte>, op: Op)
    requires Fits(g, b) && InBounds(g, op)
    ensures LoadedBytes(g, b, op) == Loaded(g, View(g, b), op)
  {
    hide LeValue, LeBytes, SlotBase, SlotView;
    AddressInside(g, op);
    if op.LoadState? || op.LoadLen? || op.LoadByte? {
      SlotLoads(g, b, op.idx);
      assert View(g, b).slots[op.idx] == SlotView(g, b, op.idx);
    }
  }

  lemma SlotLoads(g: Geometry, b: seq<Byte>, i: nat)
    requires Fits(g, b) && i < g.slotCount
    ensures SlotBase(g, i) + 8 + g.slotBytes <= |b|
    ensures var a, slot := SlotBase(g, i), SlotView(g, b, i);
      && slot.state == Le32(b[a..a + 4]) && slot.len == Le32(b[a + 4..a + 8])
      && forall k :: 0 <= k < g.slotBytes ==> slot.data[k] == b[a + 8 + k]
  {
    hide LeValue, SlotBase;
    SlotRegions(g, i, g.slotCount);
  }

  lemma LoadChangesNothing(g: Geometry, b: seq<Byte>, op: Op)
    requires Fits(g, b) && InBounds(g, op) && Stored(op) == []
    ensures ApplyBytes(g, b, op) == b
  {
    hide SlotBase;
    AddressInside(g, op);
  }

  /** Every operation does to the bytes what it does to the slots they show, and returns the same value. */
  lemma OperationShown(g: Geometry, b: seq<Byte>, op: Op)
    requires Fits(g, b) && InBounds(g, op)
    ensures View(g, ApplyBytes(g, b, op)) == Apply(g, View(g, b), op)
    ensures LoadedBytes(g, b, op) == Loaded(g, View(g, b), op)
  {
    hide LeValue, LeBytes, View, ApplyBytes, LoadedBytes;
    LoadShown(g, b, op);
    match op {
      case StoreState(_, _) | StoreLen(_, _) | StoreByte(_, _, _) => SlotStoreShown(g, b, op);
      case StoreWritePos(_) | StoreReadPos(_) => PositionStoreShown(g, b, op);
      case _ => LoadChangesNothing(g, b, op);
    }
  }

  // ---------- runs on bytes ----------

  datatype ByteState = ByteState(bytes: seq<Byte>, t: Threads)

  function StepBytes(g: Geometry, s: ByteState, c: Choice): (r: (ByteState, Event))
    requires Fits(g, s.bytes)
    ensures Fits(g, r.0.bytes)
  {
    match OpOf(g, s.t, c)
    case None => var (t', ev) := Resume(g, s.t, c, 0); (ByteState(s.bytes, t'), ev)
    case Some(op) =>
      if !InBounds(g, op) then (s, Quiet)
      else
        var (t', ev) := Resume(g, s.t, c, LoadedBytes(g, s.bytes, op));
        (ByteState(ApplyBytes(g, s.bytes, op), t'), ev)
  }

  /** The 16 bytes that identify a ring. */
  function HeaderPrefix(g: Geometry): (s: seq<Byte>)
    ensures |s| == 16
  {
    LeBytes(SHM_MAGIC, 4) + LeBytes(1, 4) + LeBytes(g.slotCount % TWO_32, 4) + LeBytes(g.slotBytes % TWO_32, 4)
  }

  function InitBytes(g: Geometry): (b: seq<Byte>)
    requires Admitted(g)
    ensures Fits(g, b)
  {
    SlotRegions(g, 0, g.slotCount);
    HeaderPrefix(g) + seq(TotalBytes(g) - 16, _ => 0)
  }

  function RunBytes(g: Geometry, schedule: seq<Choice>): (s: ByteState)
    requires Admitted(g)
    ensures Fits(g, s.bytes)
  {
    if schedule == [] then ByteState(InitBytes(g), START)
    else StepBytes(g, RunBytes(g, schedule[..|schedule| - 1]), schedule[|schedule| - 1]).0
  }

  lemma {:induction false} ZeroBytes(n: nat)
    ensures LeBytes(0, n) == seq(n, _ => 0)
  {
    if n > 0 { ZeroBytes(n - 1); }
  }

  lemma InitShown(g: Geometry)
    requires Admitted(g)
    ensures View(g, InitBytes(g)) == InitMem(g)
  {
    hide LeBytes, LeValue;
    var b := InitBytes(g);
    ZeroBytes(4); ZeroBytes(8);
    Le32RoundTrip(0); Le64RoundTrip(0);
    SlotRegions(g, 0, g.slotCount);
    assert forall k :: 16 <= k < |b| ==> b[k] == 0;
    assert b[16..24] == LeBytes(0, 8) && b[24..32] == LeBytes(0, 8);
    forall i | 0 <= i < g.slotCount ensures SlotView(g, b, i) == InitMem(g).slots[i] {
      SlotRegions(g, i, g.slotCount);
      var a := SlotBase(g, i);
      assert b[a..a + 4] == LeBytes(0, 4) && b[a + 4..a + 8] == LeBytes(0, 4);
      assert b[a + 8..a + 8 + g.slotBytes] == seq(g.slotBytes, _ => 0);
    }
    assert View(g, b).slots == InitMem(g).slots;
  }

  lemma StepShown(g: Geometry, s: ByteState, c: Choice)
    requires Fits(g, s.bytes)
    ensures var (s', ev) := StepBytes(g, s, c);
      Step(g, State(View(g, s.bytes), s.t), c) == (State(View(g, s'.bytes), s'.t), ev)
  {
    hide View, ApplyBytes, LoadedBytes, Apply, Loaded, Resume;
    var op := OpOf(g, s.t, c);
    if op.Some? && InBounds(g, op.value) {
      OperationShown(g, s.bytes, op.value);
    }
  }

  /** The bytes of every interleaving show exactly the slots of the same interleaving, so each
      statement about slot-level runs holds of the mapped memory. */
  lemma {:induction false} BytesRefineSlots(g: Geometry, schedule: seq<Choice>)
    requires Admitted(g)
    ensures var s := RunBytes(g, schedule); State(View(g, s.bytes), s.t) == Run(g, schedule)
  {
    if schedule == [] {
      InitShown(g);
    } else {
      var before, c := schedule[..|schedule| - 1], schedule[|schedule| - 1];
      BytesRefineSlots(g, before);
      StepShown(g, RunBytes(g, before), c);
    }
  }

  /** Every step on the mapped bytes, in every interleaving, is a step of the bounded FIFO, and the
      bytes hold each packet not yet cleared, ready to decode. */
  lemma BytesRefineFifo(g: Geometry, schedule: seq<Choice>, c: Choice, k: nat)
    requires Admitted(g)
    ensures var s := RunBytes(g, schedule);
      var (s', ev) := StepBytes(g, s, c);
      && s.t.popped + Queue(s.t) == s.t.pushed && |Queue(s.t)| <= g.slotCount
      && FifoStep(g.slotCount, Queue(s.t), ev, Queue(s'.t))
      && (Lo(s.t) <= k < |s.t.pushed| ==>
            var slot := SlotView(g, s.bytes, IndexOf(g, k));
            slot.state == FULL && slot.len <= g.slotBytes && DecodeFrame(slot.data[..slot.len]) == Ok(s.t.pushed[k]))
  {
    hide RunBytes, StepBytes, Run, Step, SlotView, FifoStep, DecodeFrame, IndexOf, Queue, Lo;
    BytesRefineSlots(g, schedule);
    var s := RunBytes(g, schedule);
    StepShown(g, s, c);
    RingRefinesFifo(g, schedule, c);
    if Lo(s.t) <= k < |s.t.pushed| {
      MemoryCarriesQueue(g, schedule, k);
      assert View(g, s.bytes).slots[IndexOf(g, k)] == SlotView(g, s.bytes, IndexOf(g, k));
    }
  }

  // ---------- reopening ----------

  function ValidateHeader(b: seq<Byte>, slotCount: U32, slotBytes: U32): Result<(), ShmError>
    requires |b| >= 16
  {
    if Le32(b[0..4]) != SHM_MAGIC || Le32(b[4..8]) != 1 then Err(BadHeader)
    else if Le32(b[8..12]) != slotCount || Le32(b[12..16]) != slotBytes then Err(Config)
    else Ok(())
  }

  /** Any bytes are accepted for a geometry exactly when they begin with its header; bytes that do not
      begin with the magic number and the version are no ring at all. */
  lemma ValidateAcceptsExactly(b: seq<Byte>, g: Geometry)
    requires |b| >= 16 && g.slotCount < TWO_32 && g.slotBytes < TWO_32
    ensures ValidateHeader(b, g.slotCount, g.slotBytes)
         == if b[..8] != LeBytes(SHM_MAGIC, 4) + LeBytes(1, 4) then Err(BadHeader)
            else if b[..16] != HeaderPrefix(g) then Err(Config)
            else Ok(())
    ensures ValidateHeader(b, g.slotCount, g.slotBytes) == Ok(()) <==> b[..16] == HeaderPrefix(g)
  {
    hide LeBytes, LeValue;
    var h, kind := b[..16], b[..8];
    assert b[0..4] == h[0..4] == kind[0..4] && b[4..8] == h[4..8] == kind[4..8];
    assert b[8..12] == h[8..12] && b[12..16] == h[12..16];
    assert kind == b[0..4] + b[4..8] && h == b[0..4] + b[4..8] + b[8..12] + b[12..16];
    Le32Inverse(b[0..4], SHM_MAGIC); Le32Inverse(b[4..8], 1);
    Le32Inverse(b[8..12], g.slotCount); Le32Inverse(b[12..16], g.slotBytes);
    HeadersDiffer(b[0..4], b[4..8], b[8..12], b[12..16], g);
  }

  lemma Le32Inverse(s: seq<Byte>, v: U32)
    requires |s| == 4
    ensures Le32(s) == v <==> s == LeBytes(v, 4)
  {
    LeInverse([0, 0], s, [0, 0, 0, 0, 0, 0, 0, 0], 0, v, 0);
  }

  lemma HeadersDiffer(a: seq<Byte>, b: seq<Byte>, c: seq<Byte>, d: seq<Byte>, g: Geometry)
    requires |a| == |b| == |c| == |d| == 4
    ensures a + b == LeBytes(SHM_MAGIC, 4) + LeBytes(1, 4) <==> a == LeBytes(SHM_MAGIC, 4) && b == LeBytes(1, 4)
    ensures a + b + c + d == HeaderPrefix(g)
       <==> && a == LeBytes(SHM_MAGIC, 4) && b == LeBytes(1, 4)
            && c == LeBytes(g.slotCount % TWO_32, 4) && d == LeBytes(g.slotBytes % TWO_32, 4)
  {
    hide LeBytes;
    var x, y := a + b, a + b + c + d;
    assert x[..4] == a && x[4..] == b;
    assert y[..4] == a && y[4..8] == b && y[8..12] == c && y[12..] == d;
    var u, v := LeBytes(SHM_MAGIC, 4) + LeBytes(1, 4), HeaderPrefix(g);
    assert u[..4] == LeBytes(SHM_MAGIC, 4) && u[4..] == LeBytes(1, 4);
    assert v[..4] == LeBytes(SHM_MAGIC, 4) && v[4..8] == LeBytes(1, 4);
    assert v[8..12] == LeBytes(g.slotCount % TWO_32, 4) && v[12..] == LeBytes(g.slotBytes % TWO_32, 4);
  }

  // The identifying bytes of one ring match another geometry only if it is the same.
  lemma PrefixDecides(b: seq<Byte>, g: Geometry, other: Geometry)
    requires |b| >= 16 && b[..16] == HeaderPrefix(g)
    requires g.slotCount < TWO_32 && g.slotBytes < TWO_32 && other.slotCount < TWO_32 && other.slotBytes < TWO_32
    ensures ValidateHeader(b, other.slotCount, other.slotBytes) == if other == g then Ok(()) else Err(Config)
  {
    hide LeBytes, LeValue;
    var h := b[..16];
    assert b[0..4] == h[0..4] == LeBytes(SHM_MAGIC, 4);
    assert b[4..8] == h[4..8] == LeBytes(1, 4);
    assert b[8..12] == h[8..12] == LeBytes(g.slotCount, 4);
    assert b[12..16] == h[12..16] == LeBytes(g.slotBytes, 4);
    Le32RoundTrip(SHM_MAGIC); Le32RoundTrip(1); Le32RoundTrip(g.slotCount); Le32RoundTrip(g.slotBytes);
  }

  lemma {:induction false} PrefixKept(g: Geometry, schedule: seq<Choice>)
    requires Admitted(g)
    ensures RunBytes(g, schedule).bytes[..16] == HeaderPrefix(g)
  {
    hide LeBytes;
    if schedule != [] {
      var before, c := schedule[..|schedule| - 1], schedule[|schedule| - 1];
      PrefixKept(g, before);
      var s := RunBytes(g, before);
      var op := OpOf(g, s.t, c);
      if op.Some? && InBounds(g, op.value) {
        AddressInside(g, op.value);
        PatchSlice(s.bytes, Address(g, op.value), Stored(op.value), 0, 16);
      }
    }
  }

  /** Whatever has happened on a ring, opening it again without creating it is accepted exactly
      for the geometry it was created with. */
  lemma ReopenAcceptsExactly(g: Geometry, schedule: seq<Choice>, other: Geometry)
    requires Admitted(g) && Admitted(other)
    ensures ValidateHeader(RunBytes(g, schedule).bytes, other.slotCount, other.slotBytes)
         == if other == g then Ok(()) else Err(Config)
  {
    hide LeBytes, LeValue, HeaderPrefix, RunBytes, ValidateHeader;
    PrefixKept(g, schedule);
    PrefixDecides(RunBytes(g, schedule).bytes, g, other);
  }

  // ---------- the mapping byte by byte ----------

  /** The first 16 bytes: "SHM1", version 1, the slot count and the slot size. */
  predicate RingHeader(b: seq<Byte>, g: Geometry) {
    && |b| >= 16 && b[..8] == [0x53, 0x48, 0x4D, 0x31, 0x01, 0x00, 0x00, 0x00]
    && Carries(b, 8, 4, g.slotCount) && Carries(b, 12, 4, g.slotBytes)
  }

  lemma ShmMagicBytes()
    ensures LeBytes(SHM_MAGIC, 4) == [0x53, 0x48, 0x4D, 0x31] && LeBytes(1, 4) == [0x01, 0x00, 0x00, 0x00]
    ensures LeBytes(0, 4) == [0x00, 0x00, 0x00, 0x00]
  {
    hide LeBytes;
    assert Pow256(0) == 1 && Pow256(1) == 0x100 && Pow256(2) == 0x1_0000 && Pow256(3) == 0x100_0000;
    FourBytes(SHM_MAGIC);
    FourBytes(1);
    FourBytes(0);
  }

  lemma FourBytes(v: U32)
    ensures LeBytes(v, 4) == [Digit(v, 0), Digit(v, 1), Digit(v, 2), Digit(v, 3)]
  {
    hide Digit;
    assert Digit(v, 0) == LeBytes(v, 4)[0] && Digit(v, 1) == LeBytes(v, 4)[1] by { DigitsAre(v); }
    assert Digit(v, 2) == LeBytes(v, 4)[2] && Digit(v, 3) == LeBytes(v, 4)[3] by { DigitsAre(v); }
  }

  lemma DigitsAre(v: U32)
    ensures forall i :: 0 <= i < 4 ==> Digit(v, i) == LeBytes(v, 4)[i]
  {
    hide LeBytes;
    forall i | 0 <= i < 4 ensures Digit(v, i) == LeBytes(v, 4)[i] { LeBytesAt(v, 4, i); }
  }

  /** Bytes begin with the header of a geometry exactly when these 16 bytes say so. */
  lemma PrefixOnTheWire(b: seq<Byte>, g: Geometry)
    requires |b| >= 16 && g.slotCount < TWO_32 && g.slotBytes < TWO_32
    ensures b[..16] == HeaderPrefix(g) <==> RingHeader(b, g)
    ensures b[..8] == LeBytes(SHM_MAGIC, 4) + LeBytes(1, 4)
       <==> b[..8] == [0x53, 0x48, 0x4D, 0x31, 0x01, 0x00, 0x00, 0x00]
  {
    hide LeBytes, Carries, HeaderPrefix;
    Widths();
    ShmMagicBytes();
    assert LeBytes(SHM_MAGIC, 4) + LeBytes(1, 4) == [0x53, 0x48, 0x4D, 0x31, 0x01, 0x00, 0x00, 0x00];
    var h := b[..16];
    assert b[..8] == b[0..4] + b[4..8];
    assert h == b[0..4] + b[4..8] + b[8..12] + b[12..16];
    HeadersDiffer(b[0..4], b[4..8], b[8..12], b[12..16], g);
    CarriesBytes(b, 8, 4, g.slotCount);
    CarriesBytes(b, 12, 4, g.slotBytes);
  }

  lemma Le32Carried(b: seq<Byte>, at: nat)
    requires at + 4 <= |b|
    ensures Carries(b, at, 4, Le32(b[at..at + 4]))
  {
    hide LeBytes, LeValue;
    Widths();
    Le32Inverse(b[at..at + 4], Le32(b[at..at + 4]));
    CarriesBytes(b, at, 4, Le32(b[at..at + 4]));
  }

  lemma Le64Carried(b: seq<Byte>, at: nat)
    requires at + 8 <= |b|
    ensures Carries(b, at, 8, Le64(b[at..at + 8]))
  {
    hide LeBytes, LeValue;
    Widths();
    LeInverse([0, 0], [0, 0, 0, 0], b[at..at + 8], 0, 0, Le64(b[at..at + 8]));
    CarriesBytes(b, at, 8, Le64(b[at..at + 8]));
  }

  /** A slot at `a` marked 1, with the length of the frame of `p` and the frame behind it. */
  predicate SlotCarries(b: seq<Byte>, a: nat, p: Packet) {
    var frame := FrameBytes(p);
    && a + 8 + |frame| <= |b| && b[a..a + 4] == [0x01, 0x00, 0x00, 0x00]
    && Carries(b, a + 4, 4, |frame|) && b[a + 8..a + 8 + |frame|] == frame
  }

  predicate SlotMarkedEmpty(b: seq<Byte>, a: nat) {
    a + 4 <= |b| && b[a..a + 4] == [0x00, 0x00, 0x00, 0x00]
  }

  /** Where everything stands in the mapping, in every interleaving: the header, the two positions at
      bytes 16 and 24, and each queued packet's slot with its mark, the length of its frame and the
      frame. With nothing queued and no call in progress every slot is marked 0. */
  lemma MappingOnTheWire(g: Geometry, schedule: seq<Choice>, k: nat)
    requires Admitted(g)
    ensures var s := RunBytes(g, schedule);
      && |s.bytes| == 64 + g.slotCount * (8 + g.slotBytes) && RingHeader(s.bytes, g)
      && Carries(s.bytes, 16, 8, |s.t.pushed| % TWO_64) && Carries(s.bytes, 24, 8, |s.t.popped| % TWO_64)
    ensures var t := RunBytes(g, schedule).t;
      Lo(t) <= k < |t.pushed| ==>
        SlotCarries(RunBytes(g, schedule).bytes, 64 + ((k % TWO_64) % g.slotCount) * (8 + g.slotBytes), t.pushed[k])
    ensures var t := RunBytes(g, schedule).t;
      t.prod.PIdle? && t.cons.CIdle? && t.popped == t.pushed ==>
        SlotMarkedEmpty(RunBytes(g, schedule).bytes, 64 + ((k % TWO_64) % g.slotCount) * (8 + g.slotBytes))
  {
    hide RunBytes, Run, View, FrameBytes, LeBytes, LeValue, HeaderPrefix, RingHeader, Carries, Inv,
         SlotCarries, SlotMarkedEmpty;
    var s := RunBytes(g, schedule);
    PrefixKept(g, schedule);
    PrefixOnTheWire(s.bytes, g);
    SlotRegions(g, 0, g.slotCount);
    BytesRefineSlots(g, schedule);
    RunInv(g, schedule);
    PositionsShown(g, s);
    SlotOnTheWire(g, s, k);
  }

  lemma PositionsShown(g: Geometry, s: ByteState)
    requires Fits(g, s.bytes) && Inv(g, State(View(g, s.bytes), s.t))
    ensures Carries(s.bytes, 16, 8, |s.t.pushed| % TWO_64) && Carries(s.bytes, 24, 8, |s.t.popped| % TWO_64)
  {
    hide LeBytes, LeValue, Carries, SlotView, Occupied, Apart, Tidy, ProducerOk, ConsumerOk;
    SlotRegions(g, 0, g.slotCount);
    Le64Carried(s.bytes, 16);
    Le64Carried(s.bytes, 24);
  }

  lemma SlotOnTheWire(g: Geometry, s: ByteState, k: nat)
    requires Fits(g, s.bytes) && Inv(g, State(View(g, s.bytes), s.t))
    ensures Lo(s.t) <= k < |s.t.pushed| ==> SlotCarries(s.bytes, SlotBase(g, IndexOf(g, k)), s.t.pushed[k])
    ensures s.t.prod.PIdle? && s.t.cons.CIdle? && s.t.popped == s.t.pushed ==>
              SlotMarkedEmpty(s.bytes, SlotBase(g, IndexOf(g, k)))
  {
    hide LeBytes, LeValue, FrameBytes, IndexOf, SlotBase, Carries, Apart, ProducerOk, ConsumerOk;
    var i := IndexOf(g, k);
    var a, slot := SlotBase(g, i), SlotView(g, s.bytes, i);
    SlotRegions(g, i, g.slotCount);
    assert View(g, s.bytes).slots[i] == slot;
    Le32Inverse(s.bytes[a..a + 4], slot.state);
    Le32Carried(s.bytes, a + 4);
    ShmMagicBytes();
    if Lo(s.t) <= k < |s.t.pushed| {
      assert Holds(slot, Entry(s.t, k));
      var frame := FrameBytes(s.t.pushed[k]);
      assert slot.data[..|frame|] == s.bytes[a + 8..a + 8 + |frame|];
    }
    if s.t.prod.PIdle? && s.t.cons.CIdle? && s.t.popped == s.t.pushed {
      assert !Owned(g, s.t, i);
    }
  }
}
