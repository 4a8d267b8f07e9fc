/** What every interleaving of one producer and one consumer guarantees: the ring is a bounded
    FIFO of packets, a slot never has two users, and the slot-state checks are redundant exactly
    when the slot count divides 2^64. */
module ShmFifo {
  import opened Types
  import opened Arithmetic
  import opened Protocol
  import opened ShmMachine

  /** The packets pushed and not yet popped. */
  function Queue(t: Threads): seq<Packet> {
    if |t.popped| <= |t.pushed| then t.pushed[|t.popped|..] else []
  }

  /** The bounded queue the ring is meant to be: what an event means for its contents. */
  predicate FifoStep(capacity: nat, q: seq<Packet>, ev: Event, q': seq<Packet>) {
    match ev
    case Pushed(p) => |q| < capacity && q' == q + [p]
    case Popped(p) => q != [] && p == q[0] && q' == q[1..]
    case RingFull => |q| == capacity && q' == q
    case RingEmpty => q == [] && q' == q
    case SlotNotFull | DecodeFailed(_) => false
    case Quiet | TooLarge | SlotBusy => q' == q
  }

  lemma PopEventFits(g: Geometry, s: State, c: Choice)
    requires Inv(g, s) && (c.CallPop? || c.ConsumerStep?)
    ensures var (s', ev) := Step(g, s, c); FifoStep(g.slotCount, Queue(s.t), ev, Queue(s'.t))
  {
    hide FrameBytes, DecodeFrame;
    if c.ConsumerStep? {
      match s.t.cons {
        case CRead(_, _, _) => ConsumerReadInv(g, s);
        case CStoreState(_, _) =>
        case CStoreRead(_, _) =>
        case _ => ConsumerLoadInv(g, s); PositionsDistinguish(|s.t.pushed|, |s.t.popped|, g.slotCount);
      }
    }
  }

  lemma PushEventFits(g: Geometry, s: State, c: Choice)
    requires Inv(g, s) && (c.CallPush? || c.ProducerStep?)
    ensures var (s', ev) := Step(g, s, c); FifoStep(g.slotCount, Queue(s.t), ev, Queue(s'.t))
  {
    hide FrameBytes, DecodeFrame, WrapSub, SlotIndex;
    WrapSubExact(|s.t.pushed|, |s.t.popped|, g.slotCount);
    var (s', ev) := Step(g, s, c);
    if c.ProducerStep? && s.t.prod.PStoreWrite? && ev.Pushed? {
      assert Queue(s'.t) == Queue(s.t) + [ev.p];
    }
  }

  lemma QueueHolds(g: Geometry, s: State)
    requires Inv(g, s)
    ensures s.t.popped + Queue(s.t) == s.t.pushed && |Queue(s.t)| <= g.slotCount
  {
    hide Occupied, Apart, Tidy, ProducerOk, ConsumerOk;
  }

  /** Every step of every interleaving is a step of the bounded FIFO. */
  lemma RingRefinesFifo(g: Geometry, schedule: seq<Choice>, c: Choice)
    requires Admitted(g)
    ensures var s := Run(g, schedule);
      var (s', ev) := Step(g, s, c);
      && s.t.popped + Queue(s.t) == s.t.pushed
      && |Queue(s.t)| <= g.slotCount
      && FifoStep(g.slotCount, Queue(s.t), ev, Queue(s'.t))
  {
    hide Inv, Run, Step, Queue, FifoStep;
    RunInv(g, schedule);
    var s := Run(g, schedule);
    QueueHolds(g, s);
    if c.CallPop? || c.ConsumerStep? { PopEventFits(g, s, c); } else { PushEventFits(g, s, c); }
  }

  /** The shared memory itself carries the queue: every packet the consumer has not yet cleared is
      stored in its own slot, is marked FULL there, and decodes to what was pushed. */
  lemma MemoryCarriesQueue(g: Geometry, schedule: seq<Choice>, k: nat)
    requires Admitted(g)
    requires var t := Run(g, schedule).t; Lo(t) <= k < |t.pushed|
    ensures var s := Run(g, schedule);
      var slot := s.mem.slots[IndexOf(g, k)];
      && slot.state == FULL && slot.len <= g.slotBytes
      && DecodeFrame(slot.data[..slot.len]) == Ok(s.t.pushed[k])
      && s.mem.writePos == |s.t.pushed| % TWO_64 && s.mem.readPos == |s.t.popped| % TWO_64
      && forall j :: Lo(s.t) <= j < k ==> IndexOf(g, j) != IndexOf(g, k)
  {
    hide DecodeFrame, IndexOf;
    RunInv(g, schedule);
    var s := Run(g, schedule);
    assert Holds(s.mem.slots[IndexOf(g, k)], Entry(s.t, k));
    FrameRoundTrip(s.t.pushed[k]);
  }

  lemma OneUser(g: Geometry, s: State, c: Choice)
    requires Inv(g, s)
    ensures Filling(s.t.prod) && Reading(s.t.cons) ==> SlotIndex(g, s.t.prod.w) != SlotIndex(g, s.t.cons.r)
    ensures Filling(s.t.prod) ==> forall k {:trigger IndexOf(g, k)} ::
              Lo(s.t) <= k < |s.t.pushed| ==> IndexOf(g, k) != SlotIndex(g, s.t.prod.w)
    ensures var op := OpOf(g, s.t, c); op.Some? ==> InBounds(g, op.value)
  {
    hide FrameBytes, DecodeFrame, SlotIndex, IndexOf;
    IndexAgrees(g, |s.t.pushed|);
    IndexAgrees(g, |s.t.popped|);
    if Reading(s.t.cons) || s.t.cons.CLoadState? {
      OldestHeld(g, s);
      assert Lo(s.t) == |s.t.popped|;
    }
  }

  /** A slot has one user: while the producer fills a slot and the consumer reads one, they differ,
      and the slot being filled holds no queued packet. No access leaves the mapping. */
  lemma SlotsHaveOneUser(g: Geometry, schedule: seq<Choice>, c: Choice)
    requires Admitted(g)
    ensures var s := Run(g, schedule);
      && (Filling(s.t.prod) && Reading(s.t.cons) ==> SlotIndex(g, s.t.prod.w) != SlotIndex(g, s.t.cons.r))
      && (Filling(s.t.prod) ==> forall k {:trigger IndexOf(g, k)} ::
            Lo(s.t) <= k < |s.t.pushed| ==> IndexOf(g, k) != SlotIndex(g, s.t.prod.w))
      && (var op := OpOf(g, s.t, c); op.Some? ==> InBounds(g, op.value))
  {
    RunInv(g, schedule);
    OneUser(g, Run(g, schedule), c);
  }

  /** An upper bound on the own steps a call still needs, whatever the other side does. */
  function StepsLeft(pr: Producer): nat {
    match pr
    case PIdle => 0
    case PLoadWrite(p) => |FrameBytes(p)| + 6
    case PLoadRead(p, _) => |FrameBytes(p)| + 5
    case PLoadState(p, _) => |FrameBytes(p)| + 4
    case PCopy(p, _, k) => (if k < |FrameBytes(p)| then |FrameBytes(p)| - k else 1) + 3
    case PStoreLen(_, _) => 3
    case PStoreState(_, _) => 2
    case PStoreWrite(_, _) => 1
  }

  lemma PushStepsFewer(g: Geometry, s: State)
    requires Inv(g, s) && !s.t.prod.PIdle?
    ensures StepsLeft(Step(g, s, ProducerStep).0.t.prod) < StepsLeft(s.t.prod)
  {
    hide FrameBytes, DecodeFrame, SlotIndex, IndexOf, WrapSub;
    OneUser(g, s, ProducerStep);
  }

  /** `try_push` is wait-free: each of its steps brings it closer to returning, and nothing the
      consumer does sets it back. */
  lemma PushIsWaitFree(g: Geometry, schedule: seq<Choice>)
    requires Admitted(g)
    ensures var s := Run(g, schedule);
      && (!s.t.prod.PIdle? ==> StepsLeft(Step(g, s, ProducerStep).0.t.prod) < StepsLeft(s.t.prod))
      && Step(g, s, ConsumerStep).0.t.prod == s.t.prod
      && Step(g, s, CallPop).0.t.prod == s.t.prod
  {
    hide FrameBytes, DecodeFrame, SlotIndex, IndexOf, WrapSub, Run, StepsLeft, Inv;
    RunInv(g, schedule);
    if !Run(g, schedule).t.prod.PIdle? { PushStepsFewer(g, Run(g, schedule)); }
  }

  /** The same for a pop; the length field it reads is below 2^32. */
  function ConsumerStepsLeft(co: Consumer): nat {
    match co
    case CIdle => 0
    case CLoadRead => TWO_32 + 6
    case CLoadWrite(_) => TWO_32 + 5
    case CLoadState(_) => TWO_32 + 4
    case CLoadLen(_) => TWO_32 + 3
    case CRead(_, n, buf) => (if |buf| < n then n - |buf| else 1) + 2
    case CStoreState(_, _) => 2
    case CStoreRead(_, _) => 1
  }

  /** So is `try_pop`. */
  lemma PopIsWaitFree(g: Geometry, schedule: seq<Choice>, p: Packet)
    requires Admitted(g)
    ensures var s := Run(g, schedule);
      && (!s.t.cons.CIdle? ==> ConsumerStepsLeft(Step(g, s, ConsumerStep).0.t.cons) < ConsumerStepsLeft(s.t.cons))
      && Step(g, s, ProducerStep).0.t.cons == s.t.cons
      && Step(g, s, CallPush(p)).0.t.cons == s.t.cons
  {
    hide FrameBytes, DecodeFrame, SlotIndex, IndexOf, Run;
    SlotsHaveOneUser(g, schedule, ConsumerStep);
    RunInv(g, schedule);
  }

  // ---------- when the slot-state check is redundant ----------

  lemma SlotBusyMeansCollision(g: Geometry, s: State)
    requires Inv(g, s) && Step(g, s, ProducerStep).1 == SlotBusy
    ensures exists k :: Lo(s.t) <= k < |s.t.pushed| && IndexOf(g, k) == IndexOf(g, |s.t.pushed|)
    ensures |s.t.pushed| < |s.t.popped| + g.slotCount
  {
    hide FrameBytes, DecodeFrame, SlotIndex, IndexOf;
    IndexAgrees(g, |s.t.pushed|);
    assert Owned(g, s.t, IndexOf(g, |s.t.pushed|));
  }

  // Short of 2^64 pushes, or with a slot count dividing 2^64, consecutive pushes use distinct slots.
  lemma WindowApart(g: Geometry, j: nat, k: nat)
    requires Admitted(g) && j < k < j + g.slotCount
    requires TWO_64 % g.slotCount == 0 || k < TWO_64
    ensures IndexOf(g, j) != IndexOf(g, k)
  {
    if TWO_64 % g.slotCount == 0 {
      ModOfMod(j, g.slotCount, TWO_64);
      ModOfMod(k, g.slotCount, TWO_64);
    }
    ModApart(j, k, g.slotCount);
  }

  lemma NoSpuriousFull(g: Geometry, schedule: seq<Choice>)
    requires Admitted(g)
    requires TWO_64 % g.slotCount == 0 || |Run(g, schedule).t.pushed| < TWO_64
    ensures Step(g, Run(g, schedule), ProducerStep).1 != SlotBusy
  {
    RunInv(g, schedule);
    var s := Run(g, schedule);
    if Step(g, s, ProducerStep).1 == SlotBusy {
      SlotBusyMeansCollision(g, s);
      var k :| Lo(s.t) <= k < |s.t.pushed| && IndexOf(g, k) == IndexOf(g, |s.t.pushed|);
      WindowApart(g, k, |s.t.pushed|);
    }
  }

  // ---------- a run in which it is not redundant ----------

  const PROBE: Packet := Packet(0, 0, 0, [])

  lemma Extend(g: Geometry, schedule: seq<Choice>, c: Choice)
    requires Admitted(g)
    ensures Run(g, schedule + [c]) == Step(g, Run(g, schedule), c).0
  {
    assert (schedule + [c])[..|schedule|] == schedule;
  }

  // With the consumer at rest, a free slot and room in the ring, a push in progress runs to its end.
  lemma {:induction false} PushAlone(g: Geometry, schedule: seq<Choice>) returns (more: seq<Choice>)
    requires Admitted(g)
    requires var s := Run(g, schedule);
      && !s.t.prod.PIdle? && s.t.cons.CIdle?
      && |s.t.pushed| < |s.t.popped| + g.slotCount
      && (s.t.prod.PLoadWrite? || s.t.prod.PLoadRead? || s.t.prod.PLoadState?
          ==> s.mem.slots[IndexOf(g, |s.t.pushed|)].state == EMPTY)
    ensures var t := Run(g, schedule).t;
      Run(g, more).t == t.(prod := PIdle, pushed := t.pushed + [t.prod.p])
    decreases StepsLeft(Run(g, schedule).t.prod)
  {
    hide FrameBytes, DecodeFrame, IndexOf, SlotIndex, WrapSub;
    RunInv(g, schedule);
    var s := Run(g, schedule);
    IndexAgrees(g, |s.t.pushed|);
    WrapSubExact(|s.t.pushed|, |s.t.popped|, g.slotCount);
    Extend(g, schedule, ProducerStep);
    PushIsWaitFree(g, schedule);
    if s.t.prod.PStoreWrite? {
      more := schedule + [ProducerStep];
    } else {
      more := PushAlone(g, schedule + [ProducerStep]);
    }
  }

  // With the producer at rest and a packet queued, a step of a pop either finishes it or keeps it going.
  lemma PopStepAlone(g: Geometry, schedule: seq<Choice>)
    requires Admitted(g)
    requires var t := Run(g, schedule).t; !t.cons.CIdle? && t.prod.PIdle? && |t.popped| < |t.pushed|
    ensures var t, t' := Run(g, schedule).t, Step(g, Run(g, schedule), ConsumerStep).0.t;
      if t.cons.CStoreRead? then t' == t.(cons := CIdle, popped := t.popped + [t.pushed[|t.popped|]])
      else !t'.cons.CIdle? && t' == t.(cons := t'.cons)
  {
    hide FrameBytes, DecodeFrame, IndexOf, SlotIndex, Run;
    RunInv(g, schedule);
    var s := Run(g, schedule);
    IndexAgrees(g, |s.t.popped|);
    PositionsDistinguish(|s.t.pushed|, |s.t.popped|, g.slotCount);
    if !s.t.cons.CStoreRead? { OldestHeld(g, s); }
    if s.t.cons.CRead? { ConsumerReadInv(g, s); }
  }

  lemma {:induction false} PopAlone(g: Geometry, schedule: seq<Choice>) returns (more: seq<Choice>)
    requires Admitted(g)
    requires var t := Run(g, schedule).t; !t.cons.CIdle? && t.prod.PIdle? && |t.popped| < |t.pushed|
    ensures var t := Run(g, schedule).t;
      Run(g, more).t == t.(cons := CIdle, popped := t.popped + [t.pushed[|t.popped|]])
    decreases ConsumerStepsLeft(Run(g, schedule).t.cons)
  {
    hide Step, Run, ConsumerStepsLeft;
    more := schedule + [ConsumerStep];
    Extend(g, schedule, ConsumerStep);
    PopStepAlone(g, schedule);
    if !Run(g, schedule).t.cons.CStoreRead? {
      PopIsWaitFree(g, schedule, PROBE);
      more := PopAlone(g, more);
    }
  }

  lemma OnePush(g: Geometry, schedule: seq<Choice>) returns (more: seq<Choice>)
    requires Admitted(g)
    requires var s := Run(g, schedule);
      && s.t.prod.PIdle? && s.t.cons.CIdle? && |s.t.pushed| < |s.t.popped| + g.slotCount
      && s.mem.slots[IndexOf(g, |s.t.pushed|)].state == EMPTY
    ensures var t := Run(g, schedule).t; Run(g, more).t == t.(pushed := t.pushed + [PROBE])
  {
    Extend(g, schedule, CallPush(PROBE));
    more := PushAlone(g, schedule + [CallPush(PROBE)]);
  }

  // Pushing and popping in turn reaches any count of pushes with an empty ring.
  lemma {:induction false} Cycle(g: Geometry, n: nat) returns (schedule: seq<Choice>)
    requires Admitted(g)
    ensures var t := Run(g, schedule).t;
      t.prod.PIdle? && t.cons.CIdle? && |t.pushed| == |t.popped| == n
  {
    if n == 0 {
      schedule := [];
    } else {
      var before := Cycle(g, n - 1);
      RunInv(g, before);
      var s := Run(g, before);
      assert s.mem.slots[IndexOf(g, n - 1)].state == EMPTY by {
        hide IndexOf;
        assert forall i :: 0 <= i < g.slotCount ==> !Owned(g, s.t, i);
      }
      var pushed := OnePush(g, before);
      Extend(g, pushed, CallPop);
      schedule := PopAlone(g, pushed + [CallPop]);
    }
  }

  // From an empty ring, `m` pushes without a pop, all below position 2^64 and within the capacity.
  lemma {:induction false} Fill(g: Geometry, base: nat, m: nat) returns (schedule: seq<Choice>)
    requires Admitted(g) && m < g.slotCount && base + m <= TWO_64
    ensures var t := Run(g, schedule).t;
      t.prod.PIdle? && t.cons.CIdle? && |t.pushed| == base + m && |t.popped| == base
  {
    if m == 0 {
      schedule := Cycle(g, base);
    } else {
      var before := Fill(g, base, m - 1);
      RunInv(g, before);
      var s, n := Run(g, before), base + m - 1;
      assert s.mem.slots[IndexOf(g, n)].state == EMPTY by {
        forall k | base <= k < n ensures IndexOf(g, k) != IndexOf(g, n) { WindowApart(g, k, n); }
        hide IndexOf;
        assert !Owned(g, s.t, IndexOf(g, n));
      }
      schedule := OnePush(g, before);
    }
  }

  /** With a slot count that does not divide 2^64 there is a run in which a push is refused
      although the queue has room: the slot index jumps when the position wraps. */
  lemma SpuriousFullRun(g: Geometry) returns (schedule: seq<Choice>)
    requires Admitted(g) && TWO_64 % g.slotCount != 0
    ensures var s := Run(g, schedule);
      Step(g, s, ProducerStep).1 == SlotBusy && |Queue(s.t)| < g.slotCount
  {
    hide IndexOf, Step, Run;
    var m := TWO_64 % g.slotCount;
    var base := TWO_64 - m;
    CollisionAtWrap(g);
    var filled := Fill(g, base, m);
    schedule := ReachStateCheck(g, filled);
    SlotBusyAt(g, schedule, base);
  }

  lemma CollisionAtWrap(g: Geometry)
    requires Admitted(g)
    ensures IndexOf(g, TWO_64 - TWO_64 % g.slotCount) == IndexOf(g, TWO_64)
  {
    var m, q := TWO_64 % g.slotCount, TWO_64 / g.slotCount;
    assert TWO_64 - m == g.slotCount * q;
    if m != 0 {
      ModOfSum(0, q, g.slotCount);
    }
  }

  lemma SlotBusyAt(g: Geometry, schedule: seq<Choice>, k: nat)
    requires Admitted(g)
    requires var t := Run(g, schedule).t;
      t.prod.PLoadState? && Lo(t) <= k < |t.pushed| && IndexOf(g, k) == IndexOf(g, |t.pushed|)
    ensures Step(g, Run(g, schedule), ProducerStep).1 == SlotBusy
  {
    hide IndexOf, SlotIndex, FrameBytes, DecodeFrame;
    RunInv(g, schedule);
    var s := Run(g, schedule);
    IndexAgrees(g, |s.t.pushed|);
    assert Holds(s.mem.slots[IndexOf(g, k)], Entry(s.t, k));
  }

  // From rest with room in the ring, a push reaches its slot-state check.
  lemma ReachStateCheck(g: Geometry, schedule: seq<Choice>) returns (more: seq<Choice>)
    requires Admitted(g)
    requires var t := Run(g, schedule).t;
      t.prod.PIdle? && t.cons.CIdle? && |t.pushed| < |t.popped| + g.slotCount
    ensures var s := Run(g, schedule);
      Run(g, more) == s.(t := s.t.(prod := PLoadState(PROBE, |s.t.pushed| % TWO_64)))
  {
    hide SlotIndex, IndexOf, WrapSub;
    RunInv(g, schedule);
    var s := Run(g, schedule);
    WrapSubExact(|s.t.pushed|, |s.t.popped|, g.slotCount);
    var a := schedule + [CallPush(PROBE)];
    Extend(g, schedule, CallPush(PROBE));
    Extend(g, a, ProducerStep);
    Extend(g, a + [ProducerStep], ProducerStep);
    more := a + [ProducerStep] + [ProducerStep];
  }

  /** The slot-state check of `try_push` never refuses a push, in any interleaving of any length,
      if and only if the slot count divides 2^64. */
  lemma SlotCheckRedundantIff(g: Geometry)
    requires Admitted(g)
    ensures (forall schedule :: Step(g, Run(g, schedule), ProducerStep).1 != SlotBusy)
       <==> TWO_64 % g.slotCount == 0
  {
    if TWO_64 % g.slotCount == 0 {
      forall schedule ensures Step(g, Run(g, schedule), ProducerStep).1 != SlotBusy {
        NoSpuriousFull(g, schedule);
      }
    } else {
      var schedule := SpuriousFullRun(g);
    }
  }
}
