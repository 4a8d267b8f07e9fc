/** The GPU slot ring: Free, Receiving, Ready, Processing, Done and back to Free. */
module GpuRing {
  import opened Types

  datatype BufferState = Free | Receiving | Ready | Processing | Done

  datatype RingSlot = RingSlot(state: BufferState, payload: seq<Byte>, arriveNs: U64, doneNs: U64)

  datatype GpuError =
    | RingFull
    | InvalidTransition(from: BufferState, to: BufferState)
    | NoSlot(state: BufferState)
    | PayloadTooLarge

  /** The successor of a state in the cycle. */
  function Successor(s: BufferState): BufferState {
    match s
    case Free => Receiving
    case Receiving => Ready
    case Ready => Processing
    case Processing => Done
    case Done => Free
  }

  function FirstFrom(slots: seq<RingSlot>, s: BufferState, from: nat): (r: Option<nat>)
    requires from <= |slots|
    ensures r.Some? ==> from <= r.value < |slots| && slots[r.value].state == s
                        && forall k :: from <= k < r.value ==> slots[k].state != s
    ensures r.None? ==> forall k :: from <= k < |slots| ==> slots[k].state != s
    decreases |slots| - from
  {
    if from == |slots| then None
    else if slots[from].state == s then Some(from)
    else FirstFrom(slots, s, from + 1)
  }

  /** The lowest-indexed slot in a state. */
  function First(slots: seq<RingSlot>, s: BufferState): Option<nat> { FirstFrom(slots, s, 0) }

  function Count(slots: seq<RingSlot>, s: BufferState): nat {
    if slots == [] then 0
    else Count(slots[..|slots| - 1], s) + if slots[|slots| - 1].state == s then 1 else 0
  }

  // ---------- the calls as functions on the slots ----------

  datatype Config = Config(slotBytes: nat, kernelDelayNs: U64)

  datatype Call =
    | BeginReceive(arriveNs: U64)
    | CompleteReceive(idx: nat, data: seq<Byte>)
    | BeginProcess
    | CompleteProcess(idx: nat, doneNs: U64)
    | Release(idx: nat)

  /** The slot a call moves on, or why it moves none. */
  function Target(cfg: Config, slots: seq<RingSlot>, c: Call): (r: Result<nat, GpuError>)
    ensures r.Ok? ==> r.value < |slots|
  {
    match c
    case BeginReceive(_) =>
      (match First(slots, Free) case None => Err(RingFull) case Some(i) => Ok(i))
    case CompleteReceive(i, data) =>
      if i >= |slots| then Err(NoSlot(Receiving))
      else if slots[i].state != Receiving then Err(InvalidTransition(slots[i].state, Ready))
      else if |data| > cfg.slotBytes then Err(PayloadTooLarge)
      else Ok(i)
    case BeginProcess =>
      (match First(slots, Ready) case None => Err(NoSlot(Ready)) case Some(i) => Ok(i))
    case CompleteProcess(i, _) =>
      if i >= |slots| then Err(NoSlot(Processing))
      else if slots[i].state != Processing then Err(InvalidTransition(slots[i].state, Done))
      else Ok(i)
    case Release(i) =>
      if i >= |slots| then Err(NoSlot(Done))
      else if slots[i].state != Done then Err(InvalidTransition(slots[i].state, Free))
      else Ok(i)
  }

  function Moved(slot: RingSlot, c: Call): RingSlot {
    match c
    case BeginReceive(arrive) => RingSlot(Receiving, [], arrive, 0)
    case CompleteReceive(_, data) => slot.(state := Ready, payload := data)
    case BeginProcess => slot.(state := Processing)
    case CompleteProcess(_, done) => slot.(state := Done, doneNs := done)
    case Release(_) => slot.(state := Free, payload := [])
  }

  function After(cfg: Config, slots: seq<RingSlot>, c: Call): (slots': seq<RingSlot>)
    ensures |slots'| == |slots|
  {
    match Target(cfg, slots, c)
    case Err(_) => slots
    case Ok(i) => slots[i := Moved(slots[i], c)]
  }

  predicate WellFormed(cfg: Config, slots: seq<RingSlot>) {
    forall i :: 0 <= i < |slots| ==>
      && |slots[i].payload| <= cfg.slotBytes
      && (slots[i].state == Free || slots[i].state == Receiving ==> slots[i].payload == [])
  }

  /** The state a slot must be in for a call. */
  function Needs(c: Call): BufferState {
    match c
    case BeginReceive(_) => Free
    case CompleteReceive(_, _) => Receiving
    case BeginProcess => Ready
    case CompleteProcess(_, _) => Processing
    case Release(_) => Done
  }

  /** A call finds the lowest-indexed slot in the state it needs, or takes the one it names; each
      refusal names what is wrong. */
  lemma CallFinds(cfg: Config, slots: seq<RingSlot>, c: Call)
    ensures match Target(cfg, slots, c)
            case Ok(i) =>
              && slots[i].state == Needs(c)
              && (if c.BeginReceive? || c.BeginProcess? then forall k :: 0 <= k < i ==> slots[k].state != Needs(c)
                  else i == c.idx)
              && (c.CompleteReceive? ==> |c.data| <= cfg.slotBytes)
            case Err(RingFull) => c.BeginReceive? && forall k :: 0 <= k < |slots| ==> slots[k].state != Free
            case Err(NoSlot(state)) =>
              && state == Needs(c) && !c.BeginReceive?
              && (if c.BeginProcess? then forall k :: 0 <= k < |slots| ==> slots[k].state != Ready
                  else c.idx >= |slots|)
            case Err(InvalidTransition(from, to)) =>
              && !c.BeginReceive? && !c.BeginProcess? && c.idx < |slots|
              && from == slots[c.idx].state != Needs(c) && to == Successor(Needs(c))
            case Err(PayloadTooLarge) =>
              c.CompleteReceive? && c.idx < |slots| && slots[c.idx].state == Receiving && |c.data| > cfg.slotBytes
  {
  }

  /** Any call with any arguments moves at most one slot, one step along the cycle; a payload appears
      when reception completes, disappears on release, and is otherwise untouched. */
  lemma CallStepsCycle(cfg: Config, slots: seq<RingSlot>, c: Call, i: nat)
    requires WellFormed(cfg, slots) && i < |slots|
    ensures var slots' := After(cfg, slots, c);
      && WellFormed(cfg, slots')
      && (slots'[i] != slots[i] ==> Target(cfg, slots, c) == Ok(i) && slots'[i].state == Successor(slots[i].state))
      && (Target(cfg, slots, c) == Ok(i) ==> slots'[i].state == Successor(slots[i].state))
      && (slots'[i].payload != slots[i].payload ==> slots[i].state == Receiving || slots[i].state == Done)
  {
  }

  lemma {:induction false} CountUpdate(slots: seq<RingSlot>, i: nat, slot: RingSlot, s: BufferState)
    requires i < |slots|
    ensures Count(slots[i := slot], s) + (if slots[i].state == s then 1 else 0)
         == Count(slots, s) + (if slot.state == s then 1 else 0)
  {
    var front := slots[..|slots| - 1];
    if i == |slots| - 1 {
      assert slots[i := slot][..|slots| - 1] == front;
    } else {
      CountUpdate(front, i, slot, s);
      assert slots[i := slot][..|slots| - 1] == front[i := slot];
    }
  }

  lemma {:induction false} CountsSum(slots: seq<RingSlot>)
    ensures Count(slots, Free) + Count(slots, Receiving) + Count(slots, Ready)
          + Count(slots, Processing) + Count(slots, Done) == |slots|
  {
    if slots != [] { CountsSum(slots[..|slots| - 1]); }
  }

  // ---------- the whole cycle of one packet ----------

  /** `process_packet`: the five calls in turn, stopping at the first that fails. */
  function Process(cfg: Config, slots: seq<RingSlot>, data: seq<Byte>, arriveNs: U64)
    : (seq<RingSlot>, Result<U64, GpuError>)
  {
    match Target(cfg, slots, BeginReceive(arriveNs))
    case Err(e) => (slots, Err(e))
    case Ok(i) =>
      var s1 := After(cfg, slots, BeginReceive(arriveNs));
      (match Target(cfg, s1, CompleteReceive(i, data))
       case Err(e) => (s1, Err(e))
       case Ok(_) =>
         var s2 := After(cfg, s1, CompleteReceive(i, data));
         (match Target(cfg, s2, BeginProcess)
          case Err(e) => (s2, Err(e))
          case Ok(j) =>
            var doneAt := SatAdd(arriveNs, cfg.kernelDelayNs);
            var s3 := After(cfg, s2, BeginProcess);
            (match Target(cfg, s3, CompleteProcess(j, doneAt))
             case Err(e) => (s3, Err(e))
             case Ok(_) =>
               var s4 := After(cfg, s3, CompleteProcess(j, doneAt));
               (match Target(cfg, s4, Release(j))
                case Err(e) => (s4, Err(e))
                case Ok(_) => (After(cfg, s4, Release(j)), Ok(SatSub(doneAt, s3[j].arriveNs)))))))
  }

  /** What a packet's cycle amounts to: the payload goes into the lowest Free slot, and the lowest
      Ready slot, which may be another one, is run and freed. An oversized payload leaves its slot
      in Receiving. */
  lemma ProcessExactly(cfg: Config, slots: seq<RingSlot>, data: seq<Byte>, arriveNs: U64)
    ensures var (slots', r) := Process(cfg, slots, data, arriveNs);
      match First(slots, Free)
      case None => slots' == slots && r == Err(RingFull)
      case Some(f) =>
        if |data| > cfg.slotBytes then
          slots' == slots[f := RingSlot(Receiving, [], arriveNs, 0)] && r == Err(PayloadTooLarge)
        else
          var doneAt := SatAdd(arriveNs, cfg.kernelDelayNs);
          match First(slots, Ready)
          case Some(j) =>
            if j < f then
              && slots' == slots[f := RingSlot(Ready, data, arriveNs, 0)][j := RingSlot(Free, [], slots[j].arriveNs, doneAt)]
              && r == Ok(SatSub(doneAt, slots[j].arriveNs))
            else slots' == slots[f := RingSlot(Free, [], arriveNs, doneAt)] && r == Ok(SatSub(doneAt, arriveNs))
          case None => slots' == slots[f := RingSlot(Free, [], arriveNs, doneAt)] && r == Ok(SatSub(doneAt, arriveNs))
  {
    var free := First(slots, Free);
    if free.Some? && |data| <= cfg.slotBytes {
      var f := free.value;
      var s2 := slots[f := RingSlot(Ready, data, arriveNs, 0)];
      assert After(cfg, After(cfg, slots, BeginReceive(arriveNs)), CompleteReceive(f, data)) == s2;
      FirstReady(slots, f, s2[f]);
    }
  }

  lemma FirstUnique(slots: seq<RingSlot>, s: BufferState, i: nat)
    requires i < |slots| && slots[i].state == s && forall k :: 0 <= k < i ==> slots[k].state != s
    ensures First(slots, s) == Some(i)
  {
  }

  // With slot `f` newly Ready, the first Ready slot is the old first one if that comes before `f`.
  lemma FirstReady(slots: seq<RingSlot>, f: nat, slot: RingSlot)
    requires f < |slots| && slots[f].state != Ready && slot.state == Ready
    ensures var before := First(slots, Ready);
      First(slots[f := slot], Ready) == if before.Some? && before.value < f then before else Some(f)
  {
    var before := First(slots, Ready);
    FirstUnique(slots[f := slot], Ready, if before.Some? && before.value < f then before.value else f);
  }

  /** A packet that goes through leaves as many slots in each state as it found. */
  lemma ProcessKeepsCounts(cfg: Config, slots: seq<RingSlot>, data: seq<Byte>, arriveNs: U64, s: BufferState)
    ensures var (slots', r) := Process(cfg, slots, data, arriveNs);
      r.Ok? ==> Count(slots', s) == Count(slots, s)
  {
    hide Process, First;
    ProcessExactly(cfg, slots, data, arriveNs);
    var free, ready := First(slots, Free), First(slots, Ready);
    FirstIs(slots, Free);
    FirstIs(slots, Ready);
    if free.Some? && |data| <= cfg.slotBytes {
      var f, doneAt := free.value, SatAdd(arriveNs, cfg.kernelDelayNs);
      if ready.Some? && ready.value < f {
        var j := ready.value;
        var filled := RingSlot(Ready, data, arriveNs, 0);
        CountUpdate(slots, f, filled, s);
        CountUpdate(slots[f := filled], j, RingSlot(Free, [], slots[j].arriveNs, doneAt), s);
      } else {
        CountUpdate(slots, f, RingSlot(Free, [], arriveNs, doneAt), s);
      }
    }
  }

  lemma FirstIs(slots: seq<RingSlot>, s: BufferState)
    ensures var r := First(slots, s);
      if r.Some? then r.value < |slots| && slots[r.value].state == s
      else forall i :: 0 <= i < |slots| ==> slots[i].state != s
  {
  }

  // ---------- whole runs of calls ----------

  function FreeSlots(n: nat): (slots: seq<RingSlot>)
    ensures |slots| == n && forall i :: 0 <= i < n ==> slots[i] == RingSlot(Free, [], 0, 0)
  {
    seq(n, _ => RingSlot(Free, [], 0, 0))
  }

  /** The slots after any calls, starting from `n` Free ones. */
  function RunCalls(cfg: Config, n: nat, calls: seq<Call>): (slots: seq<RingSlot>)
    ensures |slots| == n
  {
    if calls == [] then FreeSlots(n)
    else After(cfg, RunCalls(cfg, n, calls[..|calls| - 1]), calls[|calls| - 1])
  }

  /** Packets arrive in the order of their times. */
  predicate ArrivalsInOrder(calls: seq<Call>) {
    forall i, j :: 0 <= i < j < |calls| && calls[i].BeginReceive? && calls[j].BeginReceive? ==>
      calls[i].arriveNs <= calls[j].arriveNs
  }

  /** The slot `BeginProcess` would take has waited at least as long as every other Ready one. */
  predicate TakesOldest(cfg: Config, slots: seq<RingSlot>) {
    var target := Target(cfg, slots, BeginProcess);
    target.Ok? ==> forall j :: 0 <= j < |slots| && slots[j].state == Ready ==>
                     slots[target.value].arriveNs <= slots[j].arriveNs
  }

  // Of two slots, the first one in a state is found.
  lemma FirstOfTwo(front: seq<RingSlot>, s: BufferState)
    requires |front| == 2 && (front[0].state == s || front[1].state == s)
    ensures First(front, s) == Some(if front[0].state == s then 0 else 1)
  {
    FirstUnique(front, s, if front[0].state == s then 0 else 1);
  }

  // Slots behind the one a call finds make no difference to it.
  lemma FrontDecides(cfg: Config, slots: seq<RingSlot>, c: Call, front: seq<RingSlot>)
    requires front <= slots && Target(cfg, front, c).Ok?
    ensures Target(cfg, slots, c) == Target(cfg, front, c) && After(cfg, front, c) <= After(cfg, slots, c)
  {
    var i := Target(cfg, front, c).value;
    if c.BeginReceive? { FirstUnique(slots, Free, i); }
    if c.BeginProcess? { FirstUnique(slots, Ready, i); }
  }

  // Call `k` of a run moves slot `i` of the first two.
  lemma FrontMoves(cfg: Config, n: nat, calls: seq<Call>, k: nat, front: seq<RingSlot>, i: nat)
    requires k < |calls| && |front| == 2 && i < 2 && front <= RunCalls(cfg, n, calls[..k])
    requires match calls[k]
             case BeginReceive(_) => front[i].state == Free && (i == 1 ==> front[0].state != Free)
             case BeginProcess => front[i].state == Ready && (i == 1 ==> front[0].state != Ready)
             case CompleteReceive(idx, data) => idx == i && front[i].state == Receiving && |data| <= cfg.slotBytes
             case CompleteProcess(idx, _) => idx == i && front[i].state == Processing
             case Release(idx) => idx == i && front[i].state == Done
    ensures front[i := Moved(front[i], calls[k])] <= RunCalls(cfg, n, calls[..k + 1])
  {
    hide RunCalls, First, Moved;
    if calls[k].BeginReceive? { FirstOfTwo(front, Free); }
    if calls[k].BeginProcess? { FirstOfTwo(front, Ready); }
    FrontDecides(cfg, RunCalls(cfg, n, calls[..k]), calls[k], front);
    assert calls[..k + 1][..k] == calls[..k];
    RunOneMore(cfg, n, calls[..k + 1]);
  }

  lemma RunOneMore(cfg: Config, n: nat, calls: seq<Call>)
    requires calls != []
    ensures RunCalls(cfg, n, calls) == After(cfg, RunCalls(cfg, n, calls[..|calls| - 1]), calls[|calls| - 1])
    ensures RunCalls(cfg, n, []) == FreeSlots(n)
  {
  }

  const OVERTAKING: seq<Call> :=
    [BeginReceive(0), CompleteReceive(0, []), BeginReceive(1), CompleteReceive(1, []),
     BeginProcess, CompleteProcess(0, 0), Release(0), BeginReceive(2), CompleteReceive(0, [])]

  lemma OvertakingInOrder()
    ensures ArrivalsInOrder(OVERTAKING)
  {
  }

  lemma BothReady(cfg: Config, n: nat)
    requires n >= 2
    ensures [RingSlot(Ready, [], 0, 0), RingSlot(Ready, [], 1, 0)] <= RunCalls(cfg, n, OVERTAKING[..4])
  {
    hide RunCalls, First, After, Target;
    var free := RingSlot(Free, [], 0, 0);
    RunOneMore(cfg, n, OVERTAKING);
    assert OVERTAKING[..0] == [];
    FrontMoves(cfg, n, OVERTAKING, 0, [free, free], 0);
    FrontMoves(cfg, n, OVERTAKING, 1, [RingSlot(Receiving, [], 0, 0), free], 0);
    FrontMoves(cfg, n, OVERTAKING, 2, [RingSlot(Ready, [], 0, 0), free], 1);
    FrontMoves(cfg, n, OVERTAKING, 3, [RingSlot(Ready, [], 0, 0), RingSlot(Receiving, [], 1, 0)], 1);
  }

  /** With two slots or more the newest packet can be next: slot 0 is received, slot 1 is received,
      slot 0 is run, freed and received again, and the packet in slot 1 still waits. */
  lemma NewestFirst(cfg: Config, n: nat)
    requires n >= 2
    ensures ArrivalsInOrder(OVERTAKING) && !TakesOldest(cfg, RunCalls(cfg, n, OVERTAKING))
  {
    hide RunCalls, First, After, Target, TakesOldest, ArrivalsInOrder;
    OvertakingInOrder();
    var second := RingSlot(Ready, [], 1, 0);
    BothReady(cfg, n);
    FrontMoves(cfg, n, OVERTAKING, 4, [RingSlot(Ready, [], 0, 0), second], 0);
    FrontMoves(cfg, n, OVERTAKING, 5, [RingSlot(Processing, [], 0, 0), second], 0);
    FrontMoves(cfg, n, OVERTAKING, 6, [RingSlot(Done, [], 0, 0), second], 0);
    FrontMoves(cfg, n, OVERTAKING, 7, [RingSlot(Free, [], 0, 0), second], 0);
    FrontMoves(cfg, n, OVERTAKING, 8, [RingSlot(Receiving, [], 2, 0), second], 0);
    assert OVERTAKING[..9] == OVERTAKING;
    NotOldest(cfg, RunCalls(cfg, n, OVERTAKING), RingSlot(Ready, [], 2, 0), second);
  }

  lemma NotOldest(cfg: Config, slots: seq<RingSlot>, a: RingSlot, b: RingSlot)
    requires [a, b] <= slots && a.state == b.state == Ready && a.arriveNs > b.arriveNs
    ensures !TakesOldest(cfg, slots)
  {
    FirstOfTwo([a, b], Ready);
    FrontDecides(cfg, slots, BeginProcess, [a, b]);
    assert slots[0] == a && slots[1] == b;
  }

  /** `begin_process` always takes the oldest Ready slot, packets arriving in time order, if and only
      if the ring has at most one slot. */
  lemma TakesOldestIff(cfg: Config, n: nat)
    ensures (forall calls :: ArrivalsInOrder(calls) ==> TakesOldest(cfg, RunCalls(cfg, n, calls))) <==> n <= 1
  {
    if n >= 2 {
      NewestFirst(cfg, n);
    }
  }

  // ---------- packets one after the other ----------

  /** The slots after `ProcessPacket` calls only, starting from `n` Free ones. */
  function RunPackets(cfg: Config, n: nat, packets: seq<(seq<Byte>, U64)>): seq<RingSlot> {
    if packets == [] then FreeSlots(n)
    else
      var last := packets[|packets| - 1];
      Process(cfg, RunPackets(cfg, n, packets[..|packets| - 1]), last.0, last.1).0
  }

  function Oversized(cfg: Config, packets: seq<(seq<Byte>, U64)>): nat {
    if packets == [] then 0
    else
      Oversized(cfg, packets[..|packets| - 1]) + if |packets[|packets| - 1].0| > cfg.slotBytes then 1 else 0
  }

  predicate Rests(slot: RingSlot) { slot.state == Free || slot.state == Receiving }

  // On a ring with nothing but Free and Receiving slots, an oversized packet costs the lowest Free slot.
  lemma PacketCosts(cfg: Config, slots: seq<RingSlot>, data: seq<Byte>, arriveNs: U64)
    requires forall i :: 0 <= i < |slots| ==> Rests(slots[i])
    ensures var (slots', r) := Process(cfg, slots, data, arriveNs);
      && |slots'| == |slots| && (forall i :: 0 <= i < |slots| ==> Rests(slots'[i]))
      && (forall i :: 0 <= i < |slots| && slots[i].state == Receiving ==> slots'[i] == slots[i])
      && (r == Err(RingFull) <==> Count(slots, Free) == 0)
      && Count(slots', Free) == Max(Count(slots, Free) - (if |data| > cfg.slotBytes then 1 else 0), 0)
  {
    hide Process, First, Count;
    ProcessExactly(cfg, slots, data, arriveNs);
    FirstIs(slots, Free);
    FirstIs(slots, Ready);
    NoneCounted(slots, Free);
    var free := First(slots, Free);
    if free.Some? {
      CountUpdate(slots, free.value, RingSlot(Receiving, [], arriveNs, 0), Free);
      CountUpdate(slots, free.value, RingSlot(Free, [], arriveNs, SatAdd(arriveNs, cfg.kernelDelayNs)), Free);
    }
  }

  lemma {:induction false} NoneCounted(slots: seq<RingSlot>, s: BufferState)
    ensures First(slots, s).None? <==> Count(slots, s) == 0
  {
    if slots != [] {
      hide First;
      var front := slots[..|slots| - 1];
      NoneCounted(front, s);
      FirstIs(front, s);
      FirstIs(slots, s);
    }
  }

  /** A packet too large for its slot costs that slot: when only packets are processed, the Free slots
      are those not yet lost, a slot left Receiving stays so, and the next packet is refused as RingFull
      if and only if at least as many oversized ones as there are slots have been tried. */
  lemma {:induction false} OversizedCostSlots(cfg: Config, n: nat, packets: seq<(seq<Byte>, U64)>,
                                              data: seq<Byte>, arriveNs: U64)
    ensures var slots := RunPackets(cfg, n, packets);
      var (slots', r) := Process(cfg, slots, data, arriveNs);
      && |slots| == |slots'| == n
      && (forall i :: 0 <= i < n ==> Rests(slots[i]))
      && Count(slots, Free) == Max(n - Oversized(cfg, packets), 0)
      && (r == Err(RingFull) <==> Oversized(cfg, packets) >= n)
      && (forall i :: 0 <= i < n && slots[i].state == Receiving ==> slots'[i] == slots[i])
  {
    hide Process, Count;
    if packets == [] {
      AllFree(FreeSlots(n));
    } else {
      var last := packets[|packets| - 1];
      OversizedCostSlots(cfg, n, packets[..|packets| - 1], last.0, last.1);
      PacketCosts(cfg, RunPackets(cfg, n, packets[..|packets| - 1]), last.0, last.1);
    }
    PacketCosts(cfg, RunPackets(cfg, n, packets), data, arriveNs);
  }

  lemma {:induction false} AllFree(slots: seq<RingSlot>)
    requires forall i :: 0 <= i < |slots| ==> slots[i].state == Free
    ensures Count(slots, Free) == |slots|
  {
    if slots != [] { AllFree(slots[..|slots| - 1]); }
  }

  // ---------- the ring as an object ----------

  class GpuRingBuffer {
    const slots: array<RingSlot>
    const cfg: Config

    ghost predicate Valid()
      reads this, slots
    {
      WellFormed(cfg, slots[..])
    }

    constructor (slotCount: nat, slotBytes: nat, kernelDelayNs: U64)
      ensures Valid() && fresh(slots) && slots.Length == slotCount && cfg == Config(slotBytes, kernelDelayNs)
      ensures forall i :: 0 <= i < slotCount ==> slots[i] == RingSlot(Free, [], 0, 0)
    {
      slots := new RingSlot[slotCount](_ => RingSlot(Free, [], 0, 0));
      cfg := Config(slotBytes, kernelDelayNs);
    }

    method FindState(s: BufferState) returns (r: Option<nat>)
      ensures r == First(slots[..], s)
    {
      for i := 0 to slots.Length
        invariant First(slots[..], s) == FirstFrom(slots[..], s, i)
      {
        if slots[i].state == s {
          return Some(i);
        }
      }
      return None;
    }

    /** Moves slot `idx` along the cycle, or reports the step as invalid. */
    method Transition(idx: nat, to: BufferState) returns (r: Result<(), GpuError>)
      requires idx < slots.Length
      modifies slots
      ensures r == if to == Successor(old(slots[idx].state)) then Ok(())
                   else Err(InvalidTransition(old(slots[idx].state), to))
      ensures slots[..] == if r.Ok? then old(slots[..])[idx := old(slots[idx]).(state := to)] else old(slots[..])
    {
      var from := slots[idx].state;
      var ok := match (from, to)
        case (Free, Receiving) => true
        case (Receiving, Ready) => true
        case (Ready, Processing) => true
        case (Processing, Done) => true
        case (Done, Free) => true
        case _ => false;
      if !ok {
        return Err(InvalidTransition(from, to));
      }
      slots[idx] := slots[idx].(state := to);
      return Ok(());
    }

    method BeginReceiveSlot(arriveNs: U64) returns (r: Result<nat, GpuError>)
      requires Valid()
      modifies slots
      ensures Valid() && r == Target(cfg, old(slots[..]), BeginReceive(arriveNs))
      ensures slots[..] == After(cfg, old(slots[..]), BeginReceive(arriveNs))
    {
      var found := FindState(Free);
      if found.None? {
        return Err(RingFull);
      }
      var idx := found.value;
      var moved := Transition(idx, Receiving);
      assert moved.Ok?;
      slots[idx] := slots[idx].(arriveNs := arriveNs, doneNs := 0, payload := []);
      return Ok(idx);
    }

    method CompleteReceiveSlot(idx: nat, data: seq<Byte>) returns (r: Result<nat, GpuError>)
      requires Valid()
      modifies slots
      ensures Valid() && r == Target(cfg, old(slots[..]), CompleteReceive(idx, data))
      ensures slots[..] == After(cfg, old(slots[..]), CompleteReceive(idx, data))
    {
      if idx >= slots.Length {
        return Err(NoSlot(Receiving));
      }
      if slots[idx].state != Receiving {
        return Err(InvalidTransition(slots[idx].state, Ready));
      }
      if |data| > cfg.slotBytes {
        return Err(PayloadTooLarge);
      }
      slots[idx] := slots[idx].(payload := data);
      var moved := Transition(idx, Ready);
      assert moved.Ok?;
      return Ok(idx);
    }

    method BeginProcessSlot(nowNs: U64) returns (r: Result<(nat, U64), GpuError>)
      requires Valid()
      modifies slots
      ensures Valid() && slots[..] == After(cfg, old(slots[..]), BeginProcess)
      ensures r == match Target(cfg, old(slots[..]), BeginProcess)
                   case Ok(i) => Ok((i, SatAdd(nowNs, cfg.kernelDelayNs)))
                   case Err(e) => Err(e)
    {
      var found := FindState(Ready);
      if found.None? {
        return Err(NoSlot(Ready));
      }
      var moved := Transition(found.value, Processing);
      assert moved.Ok?;
      return Ok((found.value, SatAdd(nowNs, cfg.kernelDelayNs)));
    }

    method CompleteProcessSlot(idx: nat, doneNs: U64) returns (r: Result<U64, GpuError>)
      requires Valid()
      modifies slots
      ensures Valid() && slots[..] == After(cfg, old(slots[..]), CompleteProcess(idx, doneNs))
      ensures match Target(cfg, old(slots[..]), CompleteProcess(idx, doneNs))
              case Ok(_) => r == Ok(SatSub(doneNs, old(slots[..])[idx].arriveNs))
              case Err(e) => r == Err(e)
    {
      if idx >= slots.Length {
        return Err(NoSlot(Processing));
      }
      if slots[idx].state != Processing {
        return Err(InvalidTransition(slots[idx].state, Done));
      }
      var latency := SatSub(doneNs, slots[idx].arriveNs);
      slots[idx] := slots[idx].(doneNs := doneNs);
      var moved := Transition(idx, Done);
      assert moved.Ok?;
      return Ok(latency);
    }

    method ReleaseSlot(idx: nat) returns (r: Result<nat, GpuError>)
      requires Valid()
      modifies slots
      ensures Valid() && r == Target(cfg, old(slots[..]), Release(idx))
      ensures slots[..] == After(cfg, old(slots[..]), Release(idx))
    {
      if idx >= slots.Length {
        return Err(NoSlot(Done));
      }
      if slots[idx].state != Done {
        return Err(InvalidTransition(slots[idx].state, Free));
      }
      slots[idx] := slots[idx].(payload := []);
      var moved := Transition(idx, Free);
      assert moved.Ok?;
      return Ok(idx);
    }

    method ProcessPacket(data: seq<Byte>, arriveNs: U64) returns (r: Result<U64, GpuError>)
      requires Valid()
      modifies slots
      ensures Valid() && (slots[..], r) == Process(cfg, old(slots[..]), data, arriveNs)
    {
      var begun := BeginReceiveSlot(arriveNs);
      if begun.Err? {
        return Err(begun.error);
      }
      var received := CompleteReceiveSlot(begun.value, data);
      if received.Err? {
        return Err(received.error);
      }
      var started := BeginProcessSlot(arriveNs);
      if started.Err? {
        return Err(started.error);
      }
      var (idx, doneAt) := started.value;
      r := CompleteProcessSlot(idx, doneAt);
      if r.Err? {
        return;
      }
      var released := ReleaseSlot(idx);
      if released.Err? {
        return Err(released.error);
      }
    }

    method CountState(s: BufferState) returns (n: nat)
      ensures n == Count(slots[..], s)
    {
      n := 0;
      for i := 0 to slots.Length
        invariant n == Count(slots[..i], s)
      {
        assert slots[..i + 1][..i] == slots[..i];
        if slots[i].state == s {
          n := n + 1;
        }
      }
      assert slots[..slots.Length] == slots[..];
    }

    method Occupied() returns (n: nat)
      ensures n + Count(slots[..], Free) == slots.Length
    {
      n := 0;
      for i := 0 to slots.Length
        invariant n + Count(slots[..i], Free) == i
      {
        assert slots[..i + 1][..i] == slots[..i];
        if slots[i].state != Free {
          n := n + 1;
        }
      }
      assert slots[..slots.Length] == slots[..];
    }
  }
}
