/** The ring's calls as code that stores into the mapping in place. Each method walks the program of
    `ShmMachine` operation by operation, so what it does is what that program does when undisturbed. */
module ShmRing {
  import opened Types
  import opened Protocol
  import opened ShmMachine
  import opened ShmFifo
  import opened ShmBytes

  // One operation of a program keeps the invariant of the bytes.
  lemma Follow(g: Geometry, b: seq<Byte>, t: Threads, c: Choice)
    requires Fits(g, b) && Inv(g, State(View(g, b), t)) && OpOf(g, t, c).Some?
    ensures var op := OpOf(g, t, c).value;
      && InBounds(g, op)
      && View(g, ApplyBytes(g, b, op)) == Apply(g, View(g, b), op)
      && LoadedBytes(g, b, op) == Loaded(g, View(g, b), op)
      && Inv(g, State(View(g, ApplyBytes(g, b, op)), Resume(g, t, c, LoadedBytes(g, b, op)).0))
  {
    hide View, ApplyBytes, LoadedBytes, Apply, Loaded, Resume, Inv;
    var s := State(View(g, b), t);
    OneUser(g, s, c);
    OperationShown(g, b, OpOf(g, t, c).value);
    StepInv(g, s, c);
  }

  method WriteHeader(image: array<Byte>, g: Geometry)
    requires Admitted(g) && image.Length == TotalBytes(g)
    requires forall k :: 0 <= k < image.Length ==> image[k] == 0
    modifies image
    ensures image[..] == InitBytes(g)
  {
    hide LeBytes, LeValue, SlotBase;
    SlotRegions(g, 0, g.slotCount);
    CopySlice(image, 0, LeBytes(SHM_MAGIC, 4));
    CopySlice(image, 4, LeBytes(1, 4));
    CopySlice(image, 8, LeBytes(g.slotCount % TWO_32, 4));
    CopySlice(image, 12, LeBytes(g.slotBytes % TWO_32, 4));
    assert image[..16] == HeaderPrefix(g);
    assert image[16..] == seq(TotalBytes(g) - 16, _ => 0);
    assert image[..] == image[..16] + image[16..];
  }

  /** Prepares a ring: all zero, then the identifying header, then every slot marked EMPTY. */
  method InitRing(image: array<Byte>, g: Geometry)
    requires Admitted(g) && image.Length == TotalBytes(g)
    modifies image
    ensures image[..] == InitBytes(g)
  {
    hide LeBytes, LeValue;
    for k := 0 to image.Length
      invariant forall j :: 0 <= j < k ==> image[j] == 0
    {
      image[k] := 0;
    }
    WriteHeader(image, g);
    ZeroBytes(4);
    for i := 0 to g.slotCount
      invariant image[..] == InitBytes(g)
    {
      SlotRegions(g, i, g.slotCount);
      MarkEmpty(image, g, i);
    }
  }

  method MarkEmpty(image: array<Byte>, g: Geometry, i: nat)
    requires Admitted(g) && image[..] == InitBytes(g) && i < g.slotCount
    modifies image
    ensures image[..] == InitBytes(g)
  {
    hide LeBytes, LeValue, SlotBase;
    SlotRegions(g, i, g.slotCount);
    ZeroBytes(4);
    assert forall k :: 16 <= k < |InitBytes(g)| ==> InitBytes(g)[k] == 0;
    CopySlice(image, SlotBase(g, i), LeBytes(EMPTY, 4));
  }

  /** The mapped bytes, with the history of the packets that went through them. */
  class SharedMap {
    const g: Geometry
    const bytes: array<Byte>
    ghost var t: Threads

    ghost predicate Mapped()
      reads this, bytes
    {
      Fits(g, bytes[..]) && bytes[..][..16] == HeaderPrefix(g) && Inv(g, State(View(g, bytes[..]), t))
    }

    /** No call is in progress. */
    ghost predicate Valid()
      reads this, bytes
    {
      Mapped() && t.prod.PIdle? && t.cons.CIdle?
    }

    ghost function Contents(): seq<Packet>
      reads this
    {
      Queue(t)
    }

    /** The next push has room and finds its slot free. */
    ghost predicate CanPush()
      requires Valid()
      reads this, bytes
    {
      |Contents()| < g.slotCount && View(g, bytes[..]).slots[IndexOf(g, |t.pushed|)].state == EMPTY
    }

    /** A file created for this ring. */
    constructor Create(g: Geometry)
      requires Admitted(g)
      ensures Valid() && fresh(bytes) && this.g == g
      ensures t == START && bytes[..] == InitBytes(g)
    {
      SlotRegions(g, 0, g.slotCount);
      var image := new Byte[TotalBytes(g)];
      InitRing(image, g);
      assert InitBytes(g)[..16] == HeaderPrefix(g);
      InitShown(g);
      InitInv(g);
      this.g := g;
      this.bytes := image;
      this.t := START;
    }

    /** Bytes that some process has mapped, taken for a ring of geometry `g`. */
    constructor Attach(g: Geometry, bytes: array<Byte>, ghost t: Threads)
      ensures this.g == g && this.bytes == bytes && this.t == t
    {
      this.g := g;
      this.bytes := bytes;
      this.t := t;
    }

    /** An atomic load, or the read of one byte, made by the program of `c`. */
    method Load(op: Op, ghost c: Choice) returns (v: U64)
      requires Mapped() && OpOf(g, t, c) == Some(op) && Stored(op) == []
      modifies `t
      ensures Mapped()
      ensures InBounds(g, op) && v == Loaded(g, View(g, bytes[..]), op)
      ensures t == Resume(g, old(t), c, v).0
    {
      hide LeValue, LeBytes, View, Inv, Apply, Loaded, SlotBase, Resume;
      Follow(g, bytes[..], t, c);
      LoadChangesNothing(g, bytes[..], op);
      AddressInside(g, op);
      var a := Address(g, op);
      if op.LoadWritePos? || op.LoadReadPos? {
        v := Le64(bytes[a..a + 8]);
        assert bytes[..][a..a + 8] == bytes[a..a + 8];
      } else if op.LoadState? || op.LoadLen? {
        v := Le32(bytes[a..a + 4]);
        assert bytes[..][a..a + 4] == bytes[a..a + 4];
      } else {
        v := bytes[a];
      }
      t := Resume(g, t, c, v).0;
    }

    /** An atomic store, or the write of one byte, made by the program of `c`. */
    method Store(op: Op, ghost c: Choice)
      requires Mapped() && OpOf(g, t, c) == Some(op)
      requires op.StoreWritePos? || op.StoreReadPos? || op.StoreState? || op.StoreLen? || op.StoreByte?
      modifies `t, bytes
      ensures Mapped()
      ensures InBounds(g, op) && View(g, bytes[..]) == Apply(g, old(View(g, bytes[..])), op)
      ensures t == Resume(g, old(t), c, 0).0
    {
      hide LeValue, LeBytes, View, Inv, Apply, Loaded, SlotBase, Resume;
      ghost var before := bytes[..];
      Follow(g, before, t, c);
      AddressInside(g, op);
      var a, s := Address(g, op), Stored(op);
      CopySlice(bytes, a, s);
      assert old(bytes[..a]) == before[..a] && old(bytes[a + |s|..]) == before[a + |s|..];
      assert bytes[..] == ApplyBytes(g, before, op);
      PatchSlice(before, a, s, 0, 16);
      t := Resume(g, t, c, 0).0;
    }
  }
  lemma CallFollows(g: Geometry, b: seq<Byte>, t: Threads, c: Choice)
    requires Fits(g, b) && Inv(g, State(View(g, b), t)) && (c.CallPush? || c.CallPop?)
    ensures Inv(g, State(View(g, b), Resume(g, t, c, 0).0))
  {
    hide View, Inv, Resume;
    StepInv(g, State(View(g, b), t), c);
  }

  // What the invariant says about the two positions and the slots they lead to.
  lemma PositionFacts(g: Geometry, s: State)
    requires Inv(g, s)
    ensures s.mem.writePos == |s.t.pushed| % TWO_64 && s.mem.readPos == |s.t.popped| % TWO_64
    ensures |s.t.popped| + |Queue(s.t)| == |s.t.pushed| && |Queue(s.t)| <= g.slotCount
    ensures WrapSub(s.mem.writePos, s.mem.readPos) == |Queue(s.t)|
    ensures s.mem.writePos == s.mem.readPos <==> Queue(s.t) == []
    ensures !s.t.cons.CStoreRead? && Queue(s.t) != [] ==>
              Holds(s.mem.slots[IndexOf(g, |s.t.popped|)], Queue(s.t)[0])
  {
    hide FrameBytes, DecodeFrame, IndexOf, WrapSub;
    WrapSubExact(|s.t.pushed|, |s.t.popped|, g.slotCount);
    PositionsDistinguish(|s.t.pushed|, |s.t.popped|, g.slotCount);
    if !s.t.cons.CStoreRead? && |s.t.popped| < |s.t.pushed| { OldestHeld(g, s); }
  }

  lemma SlotFacts(g: Geometry, s: State, idx: nat)
    requires Inv(g, s) && Queue(s.t) != [] && s.t.cons.CLoadLen? && idx == SlotIndex(g, s.t.cons.r)
    ensures idx < g.slotCount && Holds(s.mem.slots[idx], Queue(s.t)[0])
    ensures DecodeFrame(FrameBytes(Queue(s.t)[0])) == Ok(Queue(s.t)[0])
  {
    hide FrameBytes, DecodeFrame, IndexOf, SlotIndex;
    IndexAgrees(g, |s.t.popped|);
    OldestHeld(g, s);
  }

  /** These bytes are long enough for a ring of geometry `g` and begin with its header. */
  predicate Accepts(g: Geometry, b: seq<Byte>) {
    |b| >= 64 + g.slotCount * (8 + g.slotBytes) && RingHeader(b, g)
  }

  /** Long enough, but not the beginning of any ring. */
  predicate NoRing(g: Geometry, b: seq<Byte>) {
    && |b| >= 64 + g.slotCount * (8 + g.slotBytes) && |b| >= 8
    && b[..8] != [0x53, 0x48, 0x4D, 0x31, 0x01, 0x00, 0x00, 0x00]
  }

  // A ring is accepted exactly for its own geometry.
  lemma AcceptsOwnGeometry(file: SharedMap, g: Geometry)
    requires Admitted(g)
    ensures file.Valid() ==> (Accepts(g, file.bytes[..]) <==> file.g == g)
  {
    hide LeBytes, LeValue, Inv, View, HeaderPrefix, ValidateHeader, RingHeader;
    if file.Valid() {
      PrefixOnTheWire(file.bytes[..], g);
      SlotRegions(file.g, 0, file.g.slotCount);
      PrefixDecides(file.bytes[..], file.g, g);
      ValidateAcceptsExactly(file.bytes[..], g);
    }
  }

  class ShmPacketRing {
    const shm: SharedMap
    var pushed: nat
    var popped: nat

    constructor (shm: SharedMap)
      ensures this.shm == shm && pushed == 0 && popped == 0
    {
      this.shm := shm;
      pushed, popped := 0, 0;
    }

    /** Opens a ring of geometry `g`, creating it or attaching to whatever bytes are in `file`. Attaching
        to a ring keeps what is in it. */
    static method Open(g: Geometry, create: bool, file: SharedMap) returns (r: Result<ShmPacketRing, ShmError>)
      requires g.slotCount < TWO_32 && g.slotBytes < TWO_32
      ensures r.Ok? <==> 0 < g.slotCount && 64 <= g.slotBytes && (create || Accepts(g, file.bytes[..]))
      ensures r.Err? ==> r.error == if 0 < g.slotCount && 64 <= g.slotBytes && NoRing(g, file.bytes[..]) then ShmError.BadHeader else Config
      ensures r.Ok? ==> r.value.shm.g == g && r.value.pushed == r.value.popped == 0
      ensures r.Ok? && create ==> fresh(r.value.shm) && fresh(r.value.shm.bytes)
      ensures r.Ok? && create ==> r.value.shm.Valid() && r.value.shm.Contents() == []
      ensures r.Ok? && !create ==> r.value.shm.bytes == file.bytes && (file.g == g ==> r.value.shm == file)
      ensures file.Valid() && Admitted(g) && !create ==> (r.Ok? <==> file.g == g)
    {
      hide LeBytes, LeValue, Inv, View, HeaderPrefix, ValidateHeader, RingHeader;
      if g.slotCount == 0 || g.slotBytes < 64 {
        return Err(Config);
      }
      SlotRegions(g, 0, g.slotCount);
      if create {
        var shm := new SharedMap.Create(g);
        var ring := new ShmPacketRing(shm);
        return Ok(ring);
      }
      AcceptsOwnGeometry(file, g);
      if file.bytes.Length < TotalBytes(g) {
        return Err(Config);
      }
      ValidateAcceptsExactly(file.bytes[..], g);
      PrefixOnTheWire(file.bytes[..], g);
      var valid := ValidateHeader(file.bytes[..], g.slotCount, g.slotBytes);
      if valid.Err? {
        return Err(valid.error);
      }
      var shm := file;
      if file.g != g {
        shm := new SharedMap.Attach(g, file.bytes, file.t);
      }
      var ring := new ShmPacketRing(shm);
      return Ok(ring);
    }

    /** Copies the frame into the claimed slot and publishes it. */
    method FillSlot(p: Packet, frame: seq<Byte>, w: U64, idx: nat)
      requires shm.Mapped() && frame == FrameBytes(p) && idx == SlotIndex(shm.g, w)
      requires shm.t.prod == PCopy(p, w, 0)
      modifies shm`t, shm.bytes
      ensures shm.Mapped()
      ensures shm.t == old(shm.t).(prod := PIdle, pushed := old(shm.t.pushed) + [p])
    {
      hide FrameBytes, View, Inv, SlotIndex, InBounds, HeaderPrefix, Loaded, Apply;
      ghost var start := shm.t;
      for k := 0 to |frame|
        invariant shm.Mapped()
        invariant shm.t == start.(prod := if k < |frame| then PCopy(p, w, k) else PStoreLen(p, w))
      {
        shm.Store(StoreByte(idx, k, frame[k]), ProducerStep);
      }
      shm.Store(StoreLen(idx, |frame| % TWO_32), ProducerStep);
      shm.Store(StoreState(idx, FULL), ProducerStep);
      shm.Store(StoreWritePos(WrapAdd(w, 1)), ProducerStep);
    }

    /** Reads the `n` bytes of the slot, which hold the frame of `first`. */
    method ReadSlot(r: U64, idx: nat, n: nat, ghost first: Packet) returns (data: seq<Byte>)
      requires shm.Mapped() && idx == SlotIndex(shm.g, r) < shm.g.slotCount
      requires shm.t.cons == CRead(r, n, []) && n == |FrameBytes(first)| && DecodeFrame(FrameBytes(first)) == Ok(first)
      requires var slot := View(shm.g, shm.bytes[..]).slots[idx]; n <= |slot.data| && slot.data[..n] == FrameBytes(first)
      modifies shm`t
      ensures shm.Mapped()
      ensures data == FrameBytes(first) && shm.t == old(shm.t).(cons := CStoreState(r, first))
    {
      hide FrameBytes, DecodeFrame, View, Inv, SlotIndex, InBounds, HeaderPrefix, ResumeConsumer;
      ghost var start, frame := shm.t, FrameBytes(first);
      ghost var stored := View(shm.g, shm.bytes[..]).slots[idx].data;
      data := [];
      while |data| < n
        invariant shm.Mapped() && |data| <= n
        invariant data == frame[..|data|]
        invariant shm.t == start.(cons := if |data| < n then CRead(r, n, data) else CStoreState(r, first))
        decreases n - |data|
      {
        ReadOn(shm.t, stored, frame, first);
        var byte := shm.Load(LoadByte(idx, |data|), ConsumerStep);
        assert byte == stored[|data|] == stored[..n][|data|];
        data := data + [byte];
      }
    }

    /** Decodes the packet in the slot, marks the slot EMPTY and moves the read position on. */
    method TakeSlot(r: U64, idx: nat) returns (decoded: Result<Packet, ProtocolError>)
      requires shm.Mapped() && shm.t.cons == CLoadLen(r) && Queue(shm.t) != []
      requires idx == SlotIndex(shm.g, r)
      modifies shm`t, shm.bytes
      ensures shm.Mapped()
      ensures var p := old(Queue(shm.t)[0]);
        decoded == Ok(p) && shm.t == old(shm.t).(cons := CIdle, popped := old(shm.t.popped) + [p])
    {
      hide DecodeFrame, FrameBytes, View, Inv, SlotIndex, IndexOf, InBounds, HeaderPrefix;
      ghost var first := Queue(shm.t)[0];
      SlotFacts(shm.g, State(View(shm.g, shm.bytes[..]), shm.t), idx);
      var n := shm.Load(LoadLen(idx), ConsumerStep);
      var data := ReadSlot(r, idx, n, first);
      decoded := DecodeFrame(data);
      if decoded.Ok? {
        shm.Store(StoreState(idx, EMPTY), ConsumerStep);
        shm.Store(StoreReadPos(WrapAdd(r, 1)), ConsumerStep);
      }
    }

    /** A packet is refused for its size, refused for lack of room, or appended to the queue. */
    method TryPush(p: Packet) returns (res: Result<(), ShmError>)
      requires shm.Valid()
      modifies this, shm`t, shm.bytes
      ensures shm.Valid()
      ensures res == if HEADER_LEN + |p.payload| > shm.g.slotBytes then Err(ShmError.FrameTooLarge)
                   else if old(shm.CanPush()) then Ok(()) else Err(ShmError.RingFull)
      ensures shm.Contents() == old(shm.Contents()) + (if res.Ok? then [p] else [])
      ensures |shm.t.pushed| == |old(shm.t.pushed)| + (if res.Ok? then 1 else 0)
      ensures res.Err? ==> shm.bytes[..] == old(shm.bytes[..])
      ensures pushed == old(pushed) + (if res.Ok? then 1 else 0) && popped == old(popped)
    {
      hide DecodeFrame, FrameBytes, View, Inv, SlotIndex, IndexOf, WrapSub, InBounds, HeaderPrefix;
      var g := shm.g;
      var frame := EncodeFrame(p);
      if |frame| > g.slotBytes {
        return Err(ShmError.FrameTooLarge);
      }
      PositionFacts(g, State(View(g, shm.bytes[..]), shm.t));
      IndexAgrees(g, |shm.t.pushed|);
      CallFollows(g, shm.bytes[..], shm.t, CallPush(p));
      shm.t := Resume(g, shm.t, CallPush(p), 0).0;

      var w := shm.Load(LoadWritePos, ProducerStep);
      var r := shm.Load(LoadReadPos, ProducerStep);
      if WrapSub(w, r) >= g.slotCount {
        return Err(ShmError.RingFull);
      }
      var idx := SlotIndex(g, w);
      var state := shm.Load(LoadState(idx), ProducerStep);
      if state != EMPTY {
        return Err(ShmError.RingFull);
      }
      FillSlot(p, frame, w, idx);
      pushed := pushed + 1;
      return Ok(());
    }

    /** Takes the oldest packet, or nothing exactly when the queue is empty; it never fails. */
    method TryPop() returns (res: Result<Option<Packet>, ShmError>)
      requires shm.Valid()
      modifies this, shm`t, shm.bytes
      ensures shm.Valid()
      ensures res == Ok(if old(shm.Contents()) == [] then None else Some(old(shm.Contents())[0]))
      ensures shm.Contents() == if old(shm.Contents()) == [] then [] else old(shm.Contents())[1..]
      ensures popped == old(popped) + (if old(shm.Contents()) == [] then 0 else 1) && pushed == old(pushed)
      ensures shm.t.pushed == old(shm.t.pushed)
    {
      hide DecodeFrame, FrameBytes, View, Inv, SlotIndex, IndexOf, WrapSub, InBounds, HeaderPrefix;
      var g := shm.g;
      PositionFacts(g, State(View(g, shm.bytes[..]), shm.t));
      IndexAgrees(g, |shm.t.popped|);
      CallFollows(g, shm.bytes[..], shm.t, CallPop);
      shm.t := Resume(g, shm.t, CallPop, 0).0;

      var r := shm.Load(LoadReadPos, ConsumerStep);
      var w := shm.Load(LoadWritePos, ConsumerStep);
      if r == w {
        return Ok(None);
      }
      var idx := SlotIndex(g, r);
      var state := shm.Load(LoadState(idx), ConsumerStep);
      if state != FULL {
        return Ok(None);
      }
      var decoded := TakeSlot(r, idx);
      match decoded
      case Err(e) =>
        return Err(ShmError.Protocol(e));
      case Ok(packet) =>
        popped := popped + 1;
        return Ok(Some(packet));
    }
  }

  /** Between calls, room in the queue is enough for a push to succeed, as long as the slot count
      divides 2^64 or fewer than 2^64 packets have been pushed. */
  lemma RoomIsEnough(g: Geometry, s: State)
    requires Inv(g, s) && s.t.prod.PIdle? && s.t.cons.CIdle?
    requires TWO_64 % g.slotCount == 0 || |s.t.pushed| < TWO_64
    ensures |Queue(s.t)| < g.slotCount ==> s.mem.slots[IndexOf(g, |s.t.pushed|)].state == EMPTY
  {
    hide FrameBytes, DecodeFrame, IndexOf, SlotIndex;
    var n := |s.t.pushed|;
    forall k | Lo(s.t) <= k < n && |Queue(s.t)| < g.slotCount ensures IndexOf(g, k) != IndexOf(g, n) {
      WindowApart(g, k, n);
    }
    assert |Queue(s.t)| < g.slotCount ==> !Owned(g, s.t, IndexOf(g, n));
  }

  class ShmPacketSink {
    const ring: ShmPacketRing

    constructor (ring: ShmPacketRing)
      ensures this.ring == ring
    {
      this.ring := ring;
    }

    /** Retries a full ring up to 10,000 times; the packet is pushed once or not at all. */
    method SendPacket(p: Packet) returns (res: Result<(), ShmError>)
      requires ring.shm.Valid()
      modifies ring, ring.shm`t, ring.shm.bytes
      ensures ring.shm.Valid()
      ensures res == if HEADER_LEN + |p.payload| > ring.shm.g.slotBytes then Err(ShmError.FrameTooLarge)
                     else if old(ring.shm.CanPush()) then Ok(()) else Err(ShmError.RingFull)
      ensures ring.shm.Contents() == old(ring.shm.Contents()) + (if res.Ok? then [p] else [])
      ensures ring.pushed == old(ring.pushed) + (if res.Ok? then 1 else 0)
    {
      hide Inv, View, IndexOf, HeaderPrefix;
      for attempt := 0 to 10_000
        invariant ring.shm.Valid() && ring.shm.bytes[..] == old(ring.shm.bytes[..])
        invariant ring.shm.Contents() == old(ring.shm.Contents()) && ring.pushed == old(ring.pushed)
        invariant |ring.shm.t.pushed| == |old(ring.shm.t.pushed)|
        invariant attempt > 0 ==> HEADER_LEN + |p.payload| <= ring.shm.g.slotBytes && !old(ring.shm.CanPush())
      {
        var r := ring.TryPush(p);
        if r != Err(ShmError.RingFull) {
          return r;
        }
      }
      return Err(ShmError.RingFull);
    }
  }

  class ShmPacketIO {
    const ring: ShmPacketRing
    var rx: seq<Packet>

    constructor (ring: ShmPacketRing)
      ensures this.ring == ring && rx == []
    {
      this.ring := ring;
      rx := [];
    }

    /** Moves packets from the ring to `rx` until `max` are moved or the ring is empty. */
    method PollRx(max: nat) returns (res: Result<nat, ShmError>)
      requires ring.shm.Valid()
      modifies this`rx, ring, ring.shm`t, ring.shm.bytes
      ensures ring.shm.Valid()
      ensures var n := Min(max, |old(ring.shm.Contents())|);
        res == Ok(n) && rx == old(rx) + old(ring.shm.Contents())[..n]
        && ring.shm.Contents() == old(ring.shm.Contents())[n..] && ring.popped == old(ring.popped) + n
    {
      hide SharedMap.Valid, SharedMap.Contents;
      ghost var queue := ring.shm.Contents();
      var n := 0;
      while n < max
        invariant ring.shm.Valid() && n <= max && n <= |queue|
        invariant ring.shm.Contents() == queue[n..]
        invariant rx == old(rx) + queue[..n] && ring.popped == old(ring.popped) + n
        decreases max - n
      {
        var popped := ring.TryPop();
        match popped
        case Err(e) => return Err(e);
        case Ok(None) => break;
        case Ok(Some(packet)) =>
          rx := rx + [packet];
          n := n + 1;
      }
      return Ok(n);
    }

    /** Delivers up to `max` packets, oldest first; nothing is lost, repeated or reordered. */
    method RxBurst(max: nat) returns (out: seq<Packet>)
      requires ring.shm.Valid()
      modifies this`rx, ring, ring.shm`t, ring.shm.bytes
      ensures ring.shm.Valid()
      ensures |out| == Min(max, |old(rx)| + Min(max, |old(ring.shm.Contents())|))
      ensures out + rx + ring.shm.Contents() == old(rx) + old(ring.shm.Contents())
    {
      hide SharedMap.Valid, SharedMap.Contents;
      ghost var all := rx + ring.shm.Contents();
      var polled := PollRx(max);
      assert rx + ring.shm.Contents() == all;
      var n := Min(max, |rx|);
      out := rx[..n];
      rx := rx[n..];
      assert out + rx + ring.shm.Contents() == all;
    }
  }
}
