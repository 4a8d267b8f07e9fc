/** The shared-memory ring as two programs interleaved on one memory, at the level of slots.

    Every atomic load and store of `try_push` and `try_pop` is one step, and the payload is
    copied in and read out one byte per step. A schedule is any sequence of calls and steps, so
    a statement over all schedules is a statement over all interleavings. */
module ShmMachine {
  import opened Types
  import opened Protocol

  const EMPTY: U32 := 0
  const FULL: U32 := 1

  datatype Geometry = Geometry(slotCount: nat, slotBytes: nat)

  /** What `open` admits, for sizes that fit the 32-bit fields of the ring header. */
  predicate Admitted(g: Geometry) {
    0 < g.slotCount < TWO_32 && 64 <= g.slotBytes < TWO_32
  }

  datatype Slot = Slot(state: U32, len: U32, data: seq<Byte>)

  datatype Mem = Mem(writePos: U64, readPos: U64, slots: seq<Slot>)

  // ---------- memory operations ----------

  datatype Op =
    | LoadWritePos
    | LoadReadPos
    | StoreWritePos(pos: U64)
    | StoreReadPos(pos: U64)
    | LoadState(idx: nat)
    | StoreState(idx: nat, state: U32)
    | LoadLen(idx: nat)
    | StoreLen(idx: nat, len: U32)
    | LoadByte(idx: nat, at: nat)
    | StoreByte(idx: nat, at: nat, byte: Byte)

  /** The operation stays inside the mapped slots. */
  predicate InBounds(g: Geometry, op: Op) {
    match op
    case LoadWritePos | LoadReadPos | StoreWritePos(_) | StoreReadPos(_) => true
    case LoadByte(_, _) | StoreByte(_, _, _) => op.idx < g.slotCount && op.at < g.slotBytes
    case _ => op.idx < g.slotCount
  }

  predicate Shaped(g: Geometry, m: Mem) {
    |m.slots| == g.slotCount && forall i :: 0 <= i < |m.slots| ==> |m.slots[i].data| == g.slotBytes
  }

  function Apply(g: Geometry, m: Mem, op: Op): (m': Mem)
    requires Shaped(g, m) && InBounds(g, op)
    ensures Shaped(g, m')
  {
    match op
    case StoreWritePos(v) => m.(writePos := v)
    case StoreReadPos(v) => m.(readPos := v)
    case StoreState(i, v) => m.(slots := m.slots[i := m.slots[i].(state := v)])
    case StoreLen(i, v) => m.(slots := m.slots[i := m.slots[i].(len := v)])
    case StoreByte(i, k, b) => m.(slots := m.slots[i := m.slots[i].(data := m.slots[i].data[k := b])])
    case _ => m
  }

  /** The value a load returns; stores return nothing, modelled as 0. */
  function Loaded(g: Geometry, m: Mem, op: Op): U64
    requires Shaped(g, m) && InBounds(g, op)
  {
    match op
    case LoadWritePos => m.writePos
    case LoadReadPos => m.readPos
    case LoadState(i) => m.slots[i].state
    case LoadLen(i) => m.slots[i].len
    case LoadByte(i, k) => m.slots[i].data[k]
    case _ => 0
  }

  // ---------- the two programs ----------

  /** Where the producer stands in `try_push`; `at` counts the bytes already copied. */
  datatype Producer =
    | PIdle
    | PLoadWrite(p: Packet)
    | PLoadRead(p: Packet, w: U64)
    | PLoadState(p: Packet, w: U64)
    | PCopy(p: Packet, w: U64, at: nat)
    | PStoreLen(p: Packet, w: U64)
    | PStoreState(p: Packet, w: U64)
    | PStoreWrite(p: Packet, w: U64)

  /** Where the consumer stands in `try_pop`; `buf` holds the bytes already read. */
  datatype Consumer =
    | CIdle
    | CLoadRead
    | CLoadWrite(r: U64)
    | CLoadState(r: U64)
    | CLoadLen(r: U64)
    | CRead(r: U64, len: nat, buf: seq<Byte>)
    | CStoreState(r: U64, p: Packet)
    | CStoreRead(r: U64, p: Packet)

  /** Both programs and the packets whose push and pop have taken effect, oldest first. */
  datatype Threads = Threads(
    prod: Producer, cons: Consumer, pushed: seq<Packet>, popped: seq<Packet>)

  datatype Event =
    | Quiet
    | Pushed(p: Packet)
    | Popped(p: Packet)
    | TooLarge            // FrameTooLarge
    | RingFull            // refused by the position check
    | SlotBusy            // RingFull from the slot-state check
    | RingEmpty           // None from the position check
    | SlotNotFull         // None from the slot-state check
    | DecodeFailed(e: ProtocolError)

  datatype Choice = CallPush(p: Packet) | CallPop | ProducerStep | ConsumerStep

  function SlotIndex(g: Geometry, pos: U64): nat
    requires g.slotCount > 0
  {
    pos % g.slotCount
  }

  function ProducerOp(g: Geometry, pr: Producer): Option<Op>
    requires g.slotCount > 0
  {
    match pr
    case PIdle => None
    case PLoadWrite(_) => Some(LoadWritePos)
    case PLoadRead(_, _) => Some(LoadReadPos)
    case PLoadState(_, w) => Some(LoadState(SlotIndex(g, w)))
    case PCopy(p, w, k) => if k < |FrameBytes(p)| then Some(StoreByte(SlotIndex(g, w), k, FrameBytes(p)[k])) else None
    case PStoreLen(p, w) => Some(StoreLen(SlotIndex(g, w), |FrameBytes(p)| % TWO_32))
    case PStoreState(_, w) => Some(StoreState(SlotIndex(g, w), FULL))
    case PStoreWrite(_, w) => Some(StoreWritePos(WrapAdd(w, 1)))
  }

  function ConsumerOp(g: Geometry, co: Consumer): Option<Op>
    requires g.slotCount > 0
  {
    match co
    case CIdle => None
    case CLoadRead => Some(LoadReadPos)
    case CLoadWrite(_) => Some(LoadWritePos)
    case CLoadState(r) => Some(LoadState(SlotIndex(g, r)))
    case CLoadLen(r) => Some(LoadLen(SlotIndex(g, r)))
    case CRead(r, n, buf) => if |buf| < n then Some(LoadByte(SlotIndex(g, r), |buf|)) else None
    case CStoreState(r, _) => Some(StoreState(SlotIndex(g, r), EMPTY))
    case CStoreRead(r, _) => Some(StoreReadPos(WrapAdd(r, 1)))
  }

  function OpOf(g: Geometry, t: Threads, c: Choice): Option<Op>
    requires g.slotCount > 0
  {
    match c
    case ProducerStep => ProducerOp(g, t.prod)
    case ConsumerStep => ConsumerOp(g, t.cons)
    case _ => None
  }

  /** Both programs continue, given the value `v` their operation returned. */
  function ResumeProducer(g: Geometry, t: Threads, v: U64): (Threads, Event) {
    match t.prod
    case PIdle => (t, Quiet)
    case PLoadWrite(p) => (t.(prod := PLoadRead(p, v)), Quiet)
    case PLoadRead(p, w) =>
      if WrapSub(w, v) >= g.slotCount then (t.(prod := PIdle), RingFull)
      else (t.(prod := PLoadState(p, w)), Quiet)
    case PLoadState(p, w) =>
      if v != EMPTY then (t.(prod := PIdle), SlotBusy)
      else (t.(prod := PCopy(p, w, 0)), Quiet)
    case PCopy(p, w, k) =>
      (t.(prod := if k + 1 < |FrameBytes(p)| then PCopy(p, w, k + 1) else PStoreLen(p, w)), Quiet)
    case PStoreLen(p, w) => (t.(prod := PStoreState(p, w)), Quiet)
    case PStoreState(p, w) => (t.(prod := PStoreWrite(p, w)), Quiet)
    case PStoreWrite(p, w) => (t.(prod := PIdle, pushed := t.pushed + [p]), Pushed(p))
  }

  function ResumeConsumer(t: Threads, v: U64): (Threads, Event) {
    match t.cons
    case CIdle => (t, Quiet)
    case CLoadRead => (t.(cons := CLoadWrite(v)), Quiet)
    case CLoadWrite(r) =>
      if r == v then (t.(cons := CIdle), RingEmpty) else (t.(cons := CLoadState(r)), Quiet)
    case CLoadState(r) =>
      if v != FULL then (t.(cons := CIdle), SlotNotFull) else (t.(cons := CLoadLen(r)), Quiet)
    case CLoadLen(r) => (t.(cons := CRead(r, v, [])), Quiet)
    case CRead(r, n, buf) =>
      var buf' := if |buf| < n then buf + [v % 0x100] else buf;
      if |buf'| < n then (t.(cons := CRead(r, n, buf')), Quiet)
      else (match DecodeFrame(buf')
            case Ok(p) => (t.(cons := CStoreState(r, p)), Quiet)
            case Err(e) => (t.(cons := CIdle), DecodeFailed(e)))
    case CStoreState(r, p) => (t.(cons := CStoreRead(r, p)), Quiet)
    case CStoreRead(r, p) => (t.(cons := CIdle, popped := t.popped + [p]), Popped(p))
  }

  function Resume(g: Geometry, t: Threads, c: Choice, v: U64): (Threads, Event) {
    match c
    case CallPush(p) =>
      if t.prod != PIdle then (t, Quiet)
      else if |FrameBytes(p)| > g.slotBytes then (t, TooLarge)
      else (t.(prod := PLoadWrite(p)), Quiet)
    case CallPop => if t.cons != CIdle then (t, Quiet) else (t.(cons := CLoadRead), Quiet)
    case ProducerStep => ResumeProducer(g, t, v)
    case ConsumerStep => ResumeConsumer(t, v)
  }

  datatype State = State(mem: Mem, t: Threads)

  /** One step on memory `s.mem`; an access outside the mapping would stop the process, here the machine. */
  function Step(g: Geometry, s: State, c: Choice): (r: (State, Event))
    requires Admitted(g) && Shaped(g, s.mem)
    ensures Shaped(g, r.0.mem)
  {
    match OpOf(g, s.t, c)
    case None => var (t', ev) := Resume(g, s.t, c, 0); (State(s.mem, t'), ev)
    case Some(op) =>
      if !InBounds(g, op) then (s, Quiet)
      else
        var (t', ev) := Resume(g, s.t, c, Loaded(g, s.mem, op));
        (State(Apply(g, s.mem, op), t'), ev)
  }

  function InitMem(g: Geometry): (m: Mem)
    ensures Shaped(g, m)
  {
    Mem(0, 0, seq(g.slotCount, _ => Slot(EMPTY, 0, seq(g.slotBytes, _ => 0))))
  }

  const START: Threads := Threads(PIdle, CIdle, [], [])

  /** The state after a schedule, starting from a freshly created ring. */
  function Run(g: Geometry, schedule: seq<Choice>): (s: State)
    requires Admitted(g)
    ensures Shaped(g, s.mem)
  {
    if schedule == [] then State(InitMem(g), START)
    else Step(g, Run(g, schedule[..|schedule| - 1]), schedule[|schedule| - 1]).0
  }

  // ---------- the invariant ----------

  /** The slot used by the `k`-th push, `k` counted without bound. */
  function IndexOf(g: Geometry, k: nat): (i: nat)
    requires Admitted(g)
    ensures i < g.slotCount
  {
    SlotIndex(g, k % TWO_64)
  }

  predicate Holds(slot: Slot, p: Packet) {
    var frame := FrameBytes(p);
    slot.state == FULL && slot.len == |frame| <= |slot.data| && slot.data[..|frame|] == frame
  }

  /** First push whose slot is still owned by the ring: the consumer gives a slot up when it marks it EMPTY. */
  function Lo(t: Threads): nat { if t.cons.CStoreRead? then |t.popped| + 1 else |t.popped| }

  /** One past the last push whose slot is marked FULL. */
  function Hi(t: Threads): nat { if t.prod.PStoreWrite? then |t.pushed| + 1 else |t.pushed| }

  function Entry(t: Threads, k: nat): Packet
    requires k < Hi(t)
  {
    if k < |t.pushed| then t.pushed[k] else t.prod.p
  }

  predicate Filling(pr: Producer) { pr.PCopy? || pr.PStoreLen? || pr.PStoreState? }

  predicate Reading(co: Consumer) { co.CLoadLen? || co.CRead? || co.CStoreState? }

  ghost predicate Positions(g: Geometry, s: State) {
    && s.t.popped <= s.t.pushed
    && |s.t.pushed| <= |s.t.popped| + g.slotCount
    && s.mem.writePos == |s.t.pushed| % TWO_64
    && s.mem.readPos == |s.t.popped| % TWO_64
    && Lo(s.t) <= |s.t.pushed|
  }

  ghost predicate Occupied(g: Geometry, s: State)
    requires Admitted(g) && Shaped(g, s.mem)
  {
    forall k {:trigger IndexOf(g, k)} :: Lo(s.t) <= k < Hi(s.t) ==> Holds(s.mem.slots[IndexOf(g, k)], Entry(s.t, k))
  }

  ghost predicate Apart(g: Geometry, t: Threads)
    requires Admitted(g)
  {
    forall j, k {:trigger IndexOf(g, j), IndexOf(g, k)} ::
      Lo(t) <= j < k < Hi(t) ==> IndexOf(g, j) != IndexOf(g, k)
  }

  ghost predicate Owned(g: Geometry, t: Threads, i: nat)
    requires Admitted(g)
  {
    exists k :: Lo(t) <= k < Hi(t) && IndexOf(g, k) == i
  }

  ghost predicate Tidy(g: Geometry, s: State)
    requires Admitted(g) && Shaped(g, s.mem)
  {
    forall i :: 0 <= i < g.slotCount && s.mem.slots[i].state != EMPTY ==> Owned(g, s.t, i)
  }

  ghost predicate ProducerOk(g: Geometry, s: State)
    requires Admitted(g) && Shaped(g, s.mem)
  {
    var t, n := s.t, |s.t.pushed|;
    var pr := t.prod;
    && (!pr.PIdle? ==> |FrameBytes(pr.p)| <= g.slotBytes)
    && (!pr.PIdle? && !pr.PLoadWrite? ==> pr.w == n % TWO_64)
    && (Filling(pr) || pr.PLoadState? || pr.PStoreWrite? ==> n < |t.popped| + g.slotCount)
    && (Filling(pr) ==>
          var slot := s.mem.slots[IndexOf(g, n)];
          && slot.state == EMPTY
          && (forall k {:trigger IndexOf(g, k)} :: Lo(t) <= k < n ==> IndexOf(g, k) != IndexOf(g, n))
          && (pr.PCopy? ==> pr.at < |FrameBytes(pr.p)| && slot.data[..pr.at] == FrameBytes(pr.p)[..pr.at])
          && (!pr.PCopy? ==> slot.data[..|FrameBytes(pr.p)|] == FrameBytes(pr.p))
          && (pr.PStoreState? ==> slot.len == |FrameBytes(pr.p)|))
  }

  ghost predicate ConsumerOk(s: State) {
    var t := s.t;
    var co := t.cons;
    && (!co.CIdle? && !co.CLoadRead? ==> co.r == |t.popped| % TWO_64)
    && (co.CLoadState? || Reading(co) || co.CStoreRead? ==> |t.popped| < |t.pushed|)
    && (co.CRead? ==> |co.buf| < co.len && co.len == |FrameBytes(t.pushed[|t.popped|])|
                      && co.buf == FrameBytes(t.pushed[|t.popped|])[..|co.buf|])
    && (co.CStoreState? || co.CStoreRead? ==> co.p == t.pushed[|t.popped|])
  }

  ghost predicate Inv(g: Geometry, s: State) {
    && Admitted(g) && Shaped(g, s.mem)
    && Positions(g, s) && Occupied(g, s) && Apart(g, s.t) && Tidy(g, s)
    && ProducerOk(g, s) && ConsumerOk(s)
  }

  lemma InitInv(g: Geometry)
    requires Admitted(g)
    ensures Inv(g, State(InitMem(g), START))
  {
  }

  // ---------- every step keeps the invariant ----------

  lemma IndexAgrees(g: Geometry, k: nat)
    requires Admitted(g)
    ensures SlotIndex(g, k % TWO_64) == IndexOf(g, k) < g.slotCount
  {
  }

  lemma CallInv(g: Geometry, s: State, c: Choice)
    requires Inv(g, s) && (c.CallPush? || c.CallPop?)
    ensures Inv(g, Step(g, s, c).0)
  {
    hide FrameBytes, DecodeFrame, IndexOf, SlotIndex;
    var s' := Step(g, s, c).0;
    assert forall i :: Owned(g, s.t, i) ==> Owned(g, s'.t, i);
  }

  lemma WrapSubExact(w: nat, r: nat, bound: nat)
    requires r <= w <= r + bound && bound < TWO_64
    ensures WrapSub(w % TWO_64, r % TWO_64) == w - r
  {
  }

  lemma PositionsDistinguish(w: nat, r: nat, bound: nat)
    requires r <= w <= r + bound && bound < TWO_64
    ensures w % TWO_64 == r % TWO_64 <==> w == r
  {
  }

  // Loads change no memory; what they return is what the invariant says it is.
  lemma ProducerLoadInv(g: Geometry, s: State)
    requires Inv(g, s) && (s.t.prod.PIdle? || s.t.prod.PLoadWrite? || s.t.prod.PLoadRead?)
    ensures Inv(g, Step(g, s, ProducerStep).0)
  {
    hide FrameBytes, DecodeFrame, IndexOf, SlotIndex, WrapSub;
    WrapSubExact(|s.t.pushed|, |s.t.popped|, g.slotCount);
    var s' := Step(g, s, ProducerStep).0;
    assert s'.mem == s.mem && Lo(s'.t) == Lo(s.t) && Hi(s'.t) == Hi(s.t);
    assert Occupied(g, s') && Apart(g, s'.t);
    assert forall i :: Owned(g, s.t, i) ==> Owned(g, s'.t, i);
  }

  // An EMPTY slot is claimed: it holds no queued packet, since those slots are FULL.
  lemma ProducerClaimInv(g: Geometry, s: State)
    requires Inv(g, s) && s.t.prod.PLoadState?
    ensures Inv(g, Step(g, s, ProducerStep).0)
  {
    hide FrameBytes, DecodeFrame, IndexOf, SlotIndex;
    IndexAgrees(g, |s.t.pushed|);
    var s' := Step(g, s, ProducerStep).0;
    assert s'.mem == s.mem && Lo(s'.t) == Lo(s.t) && Hi(s'.t) == Hi(s.t);
    assert Occupied(g, s') && Apart(g, s'.t);
    assert forall i :: Owned(g, s.t, i) ==> Owned(g, s'.t, i);
  }

  lemma ProducerFillInv(g: Geometry, s: State)
    requires Inv(g, s) && (s.t.prod.PCopy? || s.t.prod.PStoreLen?)
    ensures Inv(g, Step(g, s, ProducerStep).0)
  {
    hide FrameBytes, DecodeFrame, IndexOf, SlotIndex;
    IndexAgrees(g, |s.t.pushed|);
    var s' := Step(g, s, ProducerStep).0;
    assert forall i :: Owned(g, s.t, i) ==> Owned(g, s'.t, i);
    if s.t.prod.PCopy? {
      CopyOn(s.mem.slots[IndexOf(g, |s.t.pushed|)].data, FrameBytes(s.t.prod.p), s.t.prod.at);
    }
  }

  lemma ProducerMarkInv(g: Geometry, s: State)
    requires Inv(g, s) && s.t.prod.PStoreState?
    ensures Inv(g, Step(g, s, ProducerStep).0)
  {
    hide FrameBytes, DecodeFrame, IndexOf, SlotIndex;
    IndexAgrees(g, |s.t.pushed|);
    var s' := Step(g, s, ProducerStep).0;
    var n := |s.t.pushed|;
    assert Hi(s'.t) == n + 1 && Entry(s'.t, n) == s.t.prod.p;
    assert Owned(g, s'.t, IndexOf(g, n));
    assert forall i :: Owned(g, s.t, i) ==> Owned(g, s'.t, i);
  }

  lemma ProducerPublishInv(g: Geometry, s: State)
    requires Inv(g, s) && s.t.prod.PStoreWrite?
    ensures Inv(g, Step(g, s, ProducerStep).0)
  {
    hide FrameBytes, DecodeFrame, IndexOf, SlotIndex, WrapAdd;
    WrapNext(|s.t.pushed|);
    var s' := Step(g, s, ProducerStep).0;
    assert s'.mem.slots == s.mem.slots;
    assert Lo(s'.t) == Lo(s.t) && Hi(s'.t) == Hi(s.t);
    assert forall k :: 0 <= k < Hi(s.t) ==> Entry(s'.t, k) == Entry(s.t, k);
    assert Occupied(g, s');
    assert Apart(g, s'.t);
    assert Tidy(g, s') by {
      assert forall i :: Owned(g, s.t, i) ==> Owned(g, s'.t, i);
    }
  }

  // The slot the consumer stands on is FULL and holds the oldest packet until the consumer clears it.
  lemma OldestHeld(g: Geometry, s: State)
    requires Inv(g, s) && !s.t.cons.CStoreRead? && |s.t.popped| < |s.t.pushed|
    ensures Holds(s.mem.slots[IndexOf(g, |s.t.popped|)], s.t.pushed[|s.t.popped|])
    ensures DecodeFrame(FrameBytes(s.t.pushed[|s.t.popped|])) == Ok(s.t.pushed[|s.t.popped|])
  {
    hide FrameBytes, DecodeFrame, IndexOf;
    var r := |s.t.popped|;
    assert Holds(s.mem.slots[IndexOf(g, r)], Entry(s.t, r));
    FrameRoundTrip(s.t.pushed[r]);
  }

  lemma ConsumerLoadInv(g: Geometry, s: State)
    requires Inv(g, s) && !s.t.cons.CRead? && !s.t.cons.CStoreState? && !s.t.cons.CStoreRead?
    ensures Inv(g, Step(g, s, ConsumerStep).0)
    ensures Step(g, s, ConsumerStep).1 in {Quiet, RingEmpty}
  {
    hide FrameBytes, DecodeFrame, IndexOf, SlotIndex;
    IndexAgrees(g, |s.t.popped|);
    PositionsDistinguish(|s.t.pushed|, |s.t.popped|, g.slotCount);
    if |s.t.popped| < |s.t.pushed| {
      OldestHeld(g, s);
    }
    var s' := Step(g, s, ConsumerStep).0;
    assert s'.mem == s.mem && Lo(s'.t) == Lo(s.t) && Hi(s'.t) == Hi(s.t);
    assert Occupied(g, s') && Apart(g, s'.t);
    assert forall i :: Owned(g, s.t, i) ==> Owned(g, s'.t, i);
  }

  lemma ReadOn(t: Threads, data: seq<Byte>, frame: seq<Byte>, p: Packet)
    requires t.cons.CRead? && t.cons.len == |frame| <= |data| && data[..|frame|] == frame
    requires |t.cons.buf| < |frame| && t.cons.buf == frame[..|t.cons.buf|] && DecodeFrame(frame) == Ok(p)
    ensures var n, r := |t.cons.buf|, t.cons.r;
      ResumeConsumer(t, data[n]) ==
        (t.(cons := if n + 1 < |frame| then CRead(r, |frame|, frame[..n + 1]) else CStoreState(r, p)), Quiet)
  {
    hide DecodeFrame;
    var n := |t.cons.buf|;
    assert data[n] == data[..|frame|][n];
    assert frame[..n] + [frame[n]] == frame[..n + 1];
    assert frame[..|frame|] == frame;
  }

  lemma CopyOn(data: seq<Byte>, frame: seq<Byte>, n: nat)
    requires n < |frame| <= |data| && data[..n] == frame[..n]
    ensures data[n := frame[n]][..n + 1] == frame[..n + 1] && frame[..|frame|] == frame
  {
    assert data[n := frame[n]][..n + 1] == data[..n] + [frame[n]];
  }

  lemma ConsumerReadInv(g: Geometry, s: State)
    requires Inv(g, s) && s.t.cons.CRead?
    ensures Inv(g, Step(g, s, ConsumerStep).0)
    ensures Step(g, s, ConsumerStep).1 == Quiet
  {
    hide FrameBytes, DecodeFrame, IndexOf, SlotIndex, ResumeConsumer;
    IndexAgrees(g, |s.t.popped|);
    OldestHeld(g, s);
    var s' := Step(g, s, ConsumerStep).0;
    var p := s.t.pushed[|s.t.popped|];
    ReadOn(s.t, s.mem.slots[IndexOf(g, |s.t.popped|)].data, FrameBytes(p), p);
    assert s'.mem == s.mem && Lo(s'.t) == Lo(s.t) && Hi(s'.t) == Hi(s.t);
    assert Occupied(g, s') && Apart(g, s'.t);
    assert forall i :: Owned(g, s.t, i) ==> Owned(g, s'.t, i);
  }

  lemma ConsumerClearInv(g: Geometry, s: State)
    requires Inv(g, s) && s.t.cons.CStoreState?
    ensures Inv(g, Step(g, s, ConsumerStep).0)
  {
    hide FrameBytes, DecodeFrame, IndexOf, SlotIndex;
    IndexAgrees(g, |s.t.popped|);
    var s' := Step(g, s, ConsumerStep).0;
    var r := |s.t.popped|;
    forall i | 0 <= i < g.slotCount && s'.mem.slots[i].state != EMPTY ensures Owned(g, s'.t, i) {
      assert i != IndexOf(g, r);
      var k :| Lo(s.t) <= k < Hi(s.t) && IndexOf(g, k) == i;
      assert k != r;
    }
    assert forall k :: 0 <= k < Hi(s.t) ==> Entry(s'.t, k) == Entry(s.t, k);
  }

  lemma ConsumerReleaseInv(g: Geometry, s: State)
    requires Inv(g, s) && s.t.cons.CStoreRead?
    ensures Inv(g, Step(g, s, ConsumerStep).0)
  {
    hide FrameBytes, DecodeFrame, IndexOf, SlotIndex, WrapAdd;
    var s', r := Step(g, s, ConsumerStep).0, |s.t.popped|;
    WrapNext(r);
    assert s'.mem.slots == s.mem.slots;
    assert Lo(s'.t) == Lo(s.t) && Hi(s'.t) == Hi(s.t);
    assert s'.t.popped == s.t.pushed[..r] + [s.t.pushed[r]] == s.t.pushed[..r + 1];
    assert forall k :: 0 <= k < Hi(s.t) ==> Entry(s'.t, k) == Entry(s.t, k);
    assert Occupied(g, s') && Apart(g, s'.t);
    assert forall i :: Owned(g, s.t, i) ==> Owned(g, s'.t, i);
  }

  lemma StepInv(g: Geometry, s: State, c: Choice)
    requires Inv(g, s)
    ensures Inv(g, Step(g, s, c).0)
  {
    hide FrameBytes, DecodeFrame, IndexOf, SlotIndex;
    match c
    case CallPush(_) => CallInv(g, s, c);
    case CallPop => CallInv(g, s, c);
    case ProducerStep =>
      match s.t.prod {
        case PLoadState(_, _) => ProducerClaimInv(g, s);
        case PCopy(_, _, _) | PStoreLen(_, _) => ProducerFillInv(g, s);
        case PStoreState(_, _) => ProducerMarkInv(g, s);
        case PStoreWrite(_, _) => ProducerPublishInv(g, s);
        case _ => ProducerLoadInv(g, s);
      }
    case ConsumerStep =>
      match s.t.cons {
        case CRead(_, _, _) => ConsumerReadInv(g, s);
        case CStoreState(_, _) => ConsumerClearInv(g, s);
        case CStoreRead(_, _) => ConsumerReleaseInv(g, s);
        case _ => ConsumerLoadInv(g, s);
      }
  }

  lemma {:induction false} RunInv(g: Geometry, schedule: seq<Choice>)
    requires Admitted(g)
    ensures Inv(g, Run(g, schedule))
  {
    if schedule == [] {
      InitInv(g);
    } else {
      RunInv(g, schedule[..|schedule| - 1]);
      StepInv(g, Run(g, schedule[..|schedule| - 1]), schedule[|schedule| - 1]);
    }
  }
}
