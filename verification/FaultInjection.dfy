/** Loss, mutation and the one-packet reorder buffer of the fault injector. */
module FaultInjection {
  import opened Types
  import opened Arithmetic

  /** `lossPeriod` is the rounded inverse of the loss rate, 0 when there is no random loss. */
  datatype Faults = Faults(
    enabled: bool,
    lossPeriod: nat,
    burstStart: U64,
    burstLength: U32,
    reorderDistance: U32,
    sequenceJump: U64,
    timestampSkewNs: int,
    extraLatencyNs: U64,
    kernelDelayNs: U64)

  function ExtraLatency(f: Faults): U64 { if f.enabled then f.extraLatencyNs else 0 }

  function KernelDelay(f: Faults): U64 { if f.enabled then f.kernelDelayNs else 0 }

  predicate ShouldDropDeterministic(f: Faults, sequence: U64) {
    f.enabled && f.lossPeriod > 0 && sequence % f.lossPeriod == 0
  }

  predicate ShouldDropBurst(f: Faults, sequence: U64) {
    f.enabled && f.burstLength > 0 && f.burstStart <= sequence < f.burstStart + f.burstLength
  }

  predicate ShouldDrop(f: Faults, sequence: U64) {
    ShouldDropDeterministic(f, sequence) || ShouldDropBurst(f, sequence)
  }

  /** The sequence saturates; a skewed timestamp is clamped at zero and truncated to 64 bits. */
  function Mutate(f: Faults, p: Packet): Packet {
    if !f.enabled then p
    else p.(sequence := SatAdd(p.sequence, f.sequenceJump),
            timestamp := if f.timestampSkewNs == 0 then p.timestamp
                         else Max(p.timestamp + f.timestampSkewNs, 0) % TWO_64)
  }

  predicate Dropped(f: Faults, p: Packet) { ShouldDrop(f, Mutate(f, p).sequence) }

  predicate Reorders(f: Faults) { f.enabled && f.reorderDistance > 0 }

  // ---------- the injector as a function ----------

  datatype Injector = Injector(held: Option<Packet>, countdown: U32, dropped: nat, reordered: nat)

  const IDLE: Injector := Injector(None, 0, 0, 0)

  function TickHold(s: Injector): (Injector, Option<Packet>) {
    if s.held.None? then (s, None)
    else if s.countdown <= 1 then (s.(held := None, countdown := 0), s.held)
    else (s.(countdown := s.countdown - 1), None)
  }

  function Listed(o: Option<Packet>): seq<Packet> { if o.Some? then [o.value] else [] }

  function Push(f: Faults, s: Injector, raw: Packet): (Injector, seq<Packet>) {
    var p := Mutate(f, raw);
    var (ticked, released) := TickHold(s);
    if ShouldDrop(f, p.sequence) then (ticked.(dropped := s.dropped + 1), Listed(released))
    else if Reorders(f) && ticked.held.None? && released.None? then
      (ticked.(held := Some(p), countdown := f.reorderDistance, reordered := s.reordered + 1), [])
    else (ticked, Listed(released) + [p])
  }

  /** The injector and all it has emitted after a run of pushes. */
  function Run(f: Faults, inputs: seq<Packet>): (Injector, seq<Packet>) {
    if inputs == [] then (IDLE, [])
    else
      var (s, out) := Run(f, inputs[..|inputs| - 1]);
      var (s', more) := Push(f, s, inputs[|inputs| - 1]);
      (s', out + more)
  }

  /** Everything a run emits once the held packet is flushed at the end of the stream. */
  function Flushed(f: Faults, inputs: seq<Packet>): seq<Packet> {
    var (s, out) := Run(f, inputs);
    out + Listed(s.held)
  }

  // ---------- order and conservation ----------

  /** `order` names, for each emitted packet, the input it came from; `holds` the inputs ever held
      back; `heldAt` the input held now. */
  datatype Account = Account(order: seq<nat>, holds: set<nat>, heldAt: Option<nat>)

  predicate Accounts(f: Faults, inputs: seq<Packet>, out: seq<Packet>, a: Account) {
    && |a.order| == |out|
    && (forall i :: 0 <= i < |out| ==> a.order[i] < |inputs| && out[i] == Mutate(f, inputs[a.order[i]]))
  }

  /** Every input that is not dropped is emitted once, or is the one now held. */
  ghost predicate Conserves(f: Faults, inputs: seq<Packet>, a: Account) {
    && (forall i, j :: 0 <= i < j < |a.order| ==> a.order[i] != a.order[j])
    && (forall k :: 0 <= k < |inputs| ==>
          (!Dropped(f, inputs[k]) <==> k in a.order || a.heldAt == Some(k)))
    && (a.heldAt.Some? ==> a.heldAt.value < |inputs| && a.heldAt.value !in a.order)
  }

  /** A packet is overtaken only if it was held, and only by the `d - 1` inputs right after it. */
  predicate Displaces(d: nat, a: Account) {
    forall i, j :: 0 <= i < j < |a.order| && a.order[i] > a.order[j] ==>
      a.order[j] in a.holds && a.order[i] < a.order[j] + d
  }

  ghost predicate Core(f: Faults, inputs: seq<Packet>, out: seq<Packet>, a: Account) {
    && Accounts(f, inputs, out, a) && Conserves(f, inputs, a) && Displaces(f.reorderDistance, a)
    && (forall k :: k in a.holds ==> k < |inputs|)
  }

  ghost predicate Explains(f: Faults, inputs: seq<Packet>, s: Injector, out: seq<Packet>, a: Account) {
    && Core(f, inputs, out, a)
    && |inputs| == |out| + s.dropped + (if s.held.Some? then 1 else 0)
    && |a.holds| == s.reordered
    && (s.held.Some? <==> a.heldAt.Some?)
    && (s.held.Some? ==>
          && a.heldAt.value in a.holds
          && s.held.value == Mutate(f, inputs[a.heldAt.value])
          && 1 <= s.countdown <= f.reorderDistance
          && |inputs| == a.heldAt.value + 1 + f.reorderDistance - s.countdown)
  }

  // The four ways an account grows.

  lemma ReleaseHeld(f: Faults, inputs: seq<Packet>, out: seq<Packet>, a: Account)
    requires Core(f, inputs, out, a) && a.heldAt.Some? && a.heldAt.value in a.holds
    requires |inputs| <= a.heldAt.value + f.reorderDistance
    ensures Core(f, inputs, out + [Mutate(f, inputs[a.heldAt.value])],
                 a.(order := a.order + [a.heldAt.value], heldAt := None))
  {
    hide Mutate, Dropped;
    var order' := a.order + [a.heldAt.value];
    assert forall k :: k in order' <==> k in a.order || k == a.heldAt.value;
  }

  lemma EmitInput(f: Faults, inputs: seq<Packet>, out: seq<Packet>, a: Account, raw: Packet)
    requires Core(f, inputs, out, a) && !Dropped(f, raw)
    ensures Core(f, inputs + [raw], out + [Mutate(f, raw)], a.(order := a.order + [|inputs|]))
  {
    hide Mutate, Dropped;
    var order' := a.order + [|inputs|];
    assert |inputs| !in a.order;
    assert forall k :: k in order' <==> k in a.order || k == |inputs|;
  }

  lemma HoldInput(f: Faults, inputs: seq<Packet>, out: seq<Packet>, a: Account, raw: Packet)
    requires Core(f, inputs, out, a) && !Dropped(f, raw) && a.heldAt.None?
    ensures Core(f, inputs + [raw], out, a.(holds := a.holds + {|inputs|}, heldAt := Some(|inputs|)))
  {
    hide Mutate, Dropped;
    assert |inputs| !in a.order;
  }

  lemma DropInput(f: Faults, inputs: seq<Packet>, out: seq<Packet>, a: Account, raw: Packet)
    requires Core(f, inputs, out, a) && Dropped(f, raw)
    ensures Core(f, inputs + [raw], out, a)
  {
    hide Mutate, Dropped;
    assert |inputs| !in a.order;
  }

  lemma CoreBounds(f: Faults, inputs: seq<Packet>, out: seq<Packet>, a: Account)
    requires Core(f, inputs, out, a)
    ensures a.heldAt.Some? ==> a.heldAt.value < |inputs|
    ensures |inputs| !in a.holds
  {
  }

  lemma PushExplained(f: Faults, inputs: seq<Packet>, s: Injector, out: seq<Packet>, a: Account, raw: Packet)
    returns (a': Account)
    requires Explains(f, inputs, s, out, a)
    ensures var (s', more) := Push(f, s, raw); |more| <= 2 && Explains(f, inputs + [raw], s', out + more, a')
  {
    hide Mutate, Core;
    var (ticked, released) := TickHold(s);
    a' := a;
    var out' := out;
    CoreBounds(f, inputs, out, a);
    if released.Some? {
      ReleaseHeld(f, inputs, out, a);
      a' := a.(order := a.order + [a.heldAt.value], heldAt := None);
      out' := out + [released.value];
    }
    if Dropped(f, raw) {
      DropInput(f, inputs, out', a', raw);
    } else if Reorders(f) && ticked.held.None? && released.None? {
      HoldInput(f, inputs, out', a', raw);
      a' := a'.(holds := a'.holds + {|inputs|}, heldAt := Some(|inputs|));
    } else {
      EmitInput(f, inputs, out', a', raw);
      a' := a'.(order := a'.order + [|inputs|]);
      out' := out' + [Mutate(f, raw)];
    }
    assert out + Push(f, s, raw).1 == out';
  }

  /** The account of a whole run exists. */
  lemma {:induction false} RunExplained(f: Faults, inputs: seq<Packet>) returns (a: Account)
    ensures var (s, out) := Run(f, inputs); Explains(f, inputs, s, out, a)
  {
    if inputs == [] {
      a := Account([], {}, None);
    } else {
      hide Mutate, Explains, Push;
      var before, raw := inputs[..|inputs| - 1], inputs[|inputs| - 1];
      a := RunExplained(f, before);
      var (s, out) := Run(f, before);
      a := PushExplained(f, before, s, out, a, raw);
      assert before + [raw] == inputs;
    }
  }

  /** What comes out of a whole run, flush included: every input that is not dropped, once, mutated;
      a packet is emitted late only if it was held, and then within `reorderDistance` of its place;
      all others keep their order. */
  lemma FlushedExplained(f: Faults, inputs: seq<Packet>) returns (order: seq<nat>, holds: set<nat>)
    ensures var out := Flushed(f, inputs);
      && |order| == |out|
      && (forall i :: 0 <= i < |out| ==> order[i] < |inputs| && out[i] == Mutate(f, inputs[order[i]]))
      && (forall i, j :: 0 <= i < j < |out| ==> order[i] != order[j])
      && (forall k :: 0 <= k < |inputs| ==> (!Dropped(f, inputs[k]) <==> k in order))
      && (forall i, j :: 0 <= i < j < |out| && order[i] > order[j] ==>
            order[j] in holds && order[i] < order[j] + f.reorderDistance)
      && |inputs| == |out| + Run(f, inputs).0.dropped && |holds| == Run(f, inputs).0.reordered
  {
    hide Mutate, Dropped;
    var a := RunExplained(f, inputs);
    var (s, out) := Run(f, inputs);
    if s.held.Some? {
      ReleaseHeld(f, inputs, out, a);
      a := a.(order := a.order + [a.heldAt.value], heldAt := None);
    }
    order, holds := a.order, a.holds;
  }

  function Range(lo: nat, hi: nat): (s: set<nat>)
    requires lo <= hi
    ensures |s| == hi - lo && forall k :: k in s <==> lo <= k < hi
    decreases hi - lo
  {
    if lo == hi then {} else Range(lo, hi - 1) + {hi - 1}
  }

  lemma {:induction false} SubsetSize(a: set<nat>, b: set<nat>)
    requires a <= b
    ensures |a| <= |b|
  {
    if a != {} {
      var x :| x in a;
      SubsetSize(a - {x}, b - {x});
    }
  }

  /** The packets that overtake the `j`-th emitted one. */
  function Overtakers(order: seq<nat>, j: nat): set<nat>
    requires j < |order|
  {
    set i | 0 <= i < j && order[i] > order[j] :: order[i]
  }

  /** A packet is overtaken by at most `reorderDistance - 1` packets. */
  lemma OvertakenByFew(f: Faults, inputs: seq<Packet>, j: nat) returns (order: seq<nat>)
    requires j < |Flushed(f, inputs)|
    ensures var out := Flushed(f, inputs);
      |order| == |out| && (forall i :: 0 <= i < |out| ==> order[i] < |inputs| && out[i] == Mutate(f, inputs[order[i]]))
      && |Overtakers(order, j)| <= Max(f.reorderDistance - 1, 0)
  {
    hide Mutate, Dropped;
    var holds;
    order, holds := FlushedExplained(f, inputs);
    var d := f.reorderDistance;
    if d == 0 {
      assert Overtakers(order, j) == {};
    } else {
      SubsetSize(Overtakers(order, j), Range(order[j] + 1, order[j] + d));
    }
  }

  /** The inputs that survive, mutated, in their order. */
  function Survivors(f: Faults, inputs: seq<Packet>): seq<Packet> {
    if inputs == [] then []
    else
      var p := inputs[|inputs| - 1];
      Survivors(f, inputs[..|inputs| - 1]) + if Dropped(f, p) then [] else [Mutate(f, p)]
  }

  lemma TickConserves(s: Injector)
    ensures var (ticked, released) := TickHold(s);
      && multiset(Listed(released)) + multiset(Listed(ticked.held)) == multiset(Listed(s.held))
      && ticked.dropped == s.dropped && (released.Some? ==> ticked.held.None?)
  {
  }

  lemma ListedNone()
    ensures Listed(None) == []
  {
  }

  lemma ListedSome(p: Packet)
    ensures Listed(Some(p)) == [p]
  {
  }

  lemma PushConserves(f: Faults, s: Injector, raw: Packet)
    ensures var (s', more) := Push(f, s, raw);
      && multiset(more) + multiset(Listed(s'.held))
         == multiset(Listed(s.held)) + multiset(if Dropped(f, raw) then [] else [Mutate(f, raw)])
      && s'.dropped == s.dropped + (if Dropped(f, raw) then 1 else 0)
  {
    hide Mutate, ShouldDrop, TickHold, Listed;
    var p := Mutate(f, raw);
    var released := TickHold(s).1;
    TickConserves(s);
    ListedNone();
    ListedSome(p);
    if !Dropped(f, raw) && Push(f, s, raw).1 != [] {
      assert multiset(Listed(released) + [p]) == multiset(Listed(released)) + multiset([p]);
    }
  }

  /** Nothing is lost, invented or duplicated: emitted and held packets are the survivors. */
  lemma {:induction false} Conservation(f: Faults, inputs: seq<Packet>)
    ensures var (s, out) := Run(f, inputs);
      && multiset(out) + multiset(Listed(s.held)) == multiset(Survivors(f, inputs))
      && |Survivors(f, inputs)| + s.dropped == |inputs|
  {
    hide Mutate, Dropped, Push, Listed;
    if inputs != [] {
      var before, raw := inputs[..|inputs| - 1], inputs[|inputs| - 1];
      Conservation(f, before);
      var (s, out) := Run(f, before);
      PushConserves(f, s, raw);
      var last := if Dropped(f, raw) then [] else [Mutate(f, raw)];
      assert Survivors(f, inputs) == Survivors(f, before) + last;
      var (s', more) := Push(f, s, raw);
      assert Run(f, inputs) == (s', out + more);
      calc {
        multiset(out + more) + multiset(Listed(s'.held));
        multiset(out) + (multiset(more) + multiset(Listed(s'.held)));
        multiset(out) + multiset(Listed(s.held)) + multiset(last);
        multiset(Survivors(f, inputs));
      }
    } else {
      ListedNone();
    }
  }

  /** What has come out after some inputs is the beginning of what the whole run will emit. */
  lemma {:induction false} EmittedIsPrefix(f: Faults, inputs: seq<Packet>, k: nat)
    requires k <= |inputs|
    ensures Run(f, inputs[..k]).1 <= Run(f, inputs).1 <= Flushed(f, inputs)
    decreases |inputs|
  {
    hide Push, Listed;
    if k == |inputs| {
      assert inputs[..k] == inputs;
    } else {
      var before := inputs[..|inputs| - 1];
      EmittedIsPrefix(f, before, k);
      assert before[..k] == inputs[..k];
    }
  }

  predicate StreamsWithin(packets: seq<Packet>, n: nat) {
    forall i :: 0 <= i < |packets| ==> 1 <= packets[i].stream <= n
  }

  lemma {:induction false} EmittedStreams(f: Faults, inputs: seq<Packet>, n: nat)
    requires StreamsWithin(inputs, n)
    ensures var (s, out) := Run(f, inputs);
      StreamsWithin(out, n) && StreamsWithin(Listed(s.held), n)
  {
    hide ShouldDrop;
    if inputs != [] {
      EmittedStreams(f, inputs[..|inputs| - 1], n);
      assert 1 <= inputs[|inputs| - 1].stream <= n;
    }
  }

  // ---------- which packets are lost and how the others change ----------

  /** A jump adds to the sequence, up to the last one; a skew moves the timestamp by its amount, not
      below 0, and past 64 bits it wraps. Nothing else changes, and without faults nothing does. */
  lemma MutateMeans(f: Faults, p: Packet)
    ensures var q := Mutate(f, p);
      && q.stream == p.stream && q.payload == p.payload && (!f.enabled ==> q == p)
      && (f.enabled ==>
            && q.sequence == Min(p.sequence + f.sequenceJump, U64_MAX)
            && (p.timestamp + f.timestampSkewNs < 0 ==> q.timestamp == 0)
            && (0 <= p.timestamp + f.timestampSkewNs <= U64_MAX ==> q.timestamp - p.timestamp == f.timestampSkewNs)
            && (p.timestamp + f.timestampSkewNs > U64_MAX ==>
                  q.timestamp == (p.timestamp + f.timestampSkewNs) % 0x1_0000_0000_0000_0000))
  {
  }

  /** A packet is lost for its sequence after the jump: a multiple of the loss period, or in the burst. */
  lemma DroppedIff(f: Faults, p: Packet)
    ensures var n := Min(p.sequence + f.sequenceJump, U64_MAX);
      Dropped(f, p) <==>
        && f.enabled
        && (|| (f.lossPeriod > 0 && n % f.lossPeriod == 0)
            || f.burstStart <= n < f.burstStart + f.burstLength)
  {
  }

  predicate Sequential(inputs: seq<Packet>) {
    forall i :: 0 <= i < |inputs| ==> inputs[i].sequence == i
  }

  lemma DropCounted(f: Faults, before: seq<Packet>, raw: Packet)
    ensures Run(f, before + [raw]).0.dropped == Run(f, before).0.dropped + (if Dropped(f, raw) then 1 else 0)
  {
    hide Push, Dropped;
    assert (before + [raw])[..|before|] == before;
    PushConserves(f, Run(f, before).0, raw);
  }

  lemma {:induction false} BurstCount(f: Faults, inputs: seq<Packet>)
    requires f.enabled && f.lossPeriod == 0 && f.sequenceJump == 0 && Sequential(inputs)
    ensures Run(f, inputs).0.dropped
         == Min(|inputs|, f.burstStart + f.burstLength) - Min(|inputs|, f.burstStart)
  {
    if inputs != [] {
      hide Run, Dropped;
      var before, raw := inputs[..|inputs| - 1], inputs[|inputs| - 1];
      BurstCount(f, before);
      DropCounted(f, before, raw);
      DroppedIff(f, raw);
      assert inputs == before + [raw];
    }
  }

  lemma {:induction false} PeriodCount(f: Faults, inputs: seq<Packet>)
    requires f.enabled && f.lossPeriod > 0 && f.burstLength == 0 && f.sequenceJump == 0 && Sequential(inputs)
    ensures Run(f, inputs).0.dropped == (|inputs| + f.lossPeriod - 1) / f.lossPeriod
  {
    if inputs == [] {
      DivModUnique(f.lossPeriod - 1, f.lossPeriod, 0, f.lossPeriod - 1);
    } else {
      hide Run, Dropped;
      var before, raw := inputs[..|inputs| - 1], inputs[|inputs| - 1];
      PeriodCount(f, before);
      DropCounted(f, before, raw);
      DroppedIff(f, raw);
      assert inputs == before + [raw];
      RoundedUp(|before|, f.lossPeriod);
    }
  }

  lemma RoundedUp(n: nat, p: nat)
    requires p > 0
    ensures (n + p) / p == (n + p - 1) / p + (if n % p == 0 then 1 else 0)
  {
    var q, r := n / p, n % p;
    assert n == p * q + r && p * (q + 1) == p * q + p;
    DivModUnique(n + p, p, q + 1, r);
    if r == 0 { DivModUnique(n + p - 1, p, q, p - 1); } else { DivModUnique(n + p - 1, p, q + 1, r - 1); }
  }

  /** Of the packets 0 to n - 1 a burst loses exactly those from its start on, and no others. */
  lemma BurstLoses(f: Faults, inputs: seq<Packet>) returns (order: seq<nat>)
    requires f.enabled && f.lossPeriod == 0 && f.sequenceJump == 0 && Sequential(inputs)
    ensures var out := Flushed(f, inputs);
      && |order| == |out| && (forall i :: 0 <= i < |out| ==> order[i] < |inputs| && out[i].sequence == order[i])
      && (forall k :: 0 <= k < |inputs| ==> (k !in order <==> f.burstStart <= k < f.burstStart + f.burstLength))
      && Run(f, inputs).0.dropped == Min(|inputs|, f.burstStart + f.burstLength) - Min(|inputs|, f.burstStart)
      && |out| + Run(f, inputs).0.dropped == |inputs|
  {
    hide Flushed, Run, Dropped, Mutate;
    var holds;
    order, holds := FlushedExplained(f, inputs);
    BurstCount(f, inputs);
    forall i | 0 <= i < |order| ensures Flushed(f, inputs)[i].sequence == order[i] {
      MutateMeans(f, inputs[order[i]]);
    }
    forall k | 0 <= k < |inputs| ensures k !in order <==> f.burstStart <= k < f.burstStart + f.burstLength {
      DroppedIff(f, inputs[k]);
    }
  }

  /** Of the packets 0 to n - 1 random loss of period p loses exactly the multiples of p. */
  lemma PeriodLoses(f: Faults, inputs: seq<Packet>) returns (order: seq<nat>)
    requires f.enabled && f.lossPeriod > 0 && f.burstLength == 0 && f.sequenceJump == 0 && Sequential(inputs)
    ensures var out := Flushed(f, inputs);
      && |order| == |out| && (forall i :: 0 <= i < |out| ==> order[i] < |inputs| && out[i].sequence == order[i])
      && (forall k :: 0 <= k < |inputs| ==> (k !in order <==> k % f.lossPeriod == 0))
      && Run(f, inputs).0.dropped == (|inputs| + f.lossPeriod - 1) / f.lossPeriod
      && |out| + Run(f, inputs).0.dropped == |inputs|
  {
    hide Flushed, Run, Dropped, Mutate;
    var holds;
    order, holds := FlushedExplained(f, inputs);
    PeriodCount(f, inputs);
    forall i | 0 <= i < |order| ensures Flushed(f, inputs)[i].sequence == order[i] {
      MutateMeans(f, inputs[order[i]]);
    }
    forall k | 0 <= k < |inputs| ensures k !in order <==> k % f.lossPeriod == 0 {
      DroppedIff(f, inputs[k]);
    }
  }

  // ---------- the reordering in closed form ----------

  /** The input emitted at place `i` when nothing is dropped: in each block of `d + 1` inputs the
      first one moves back to the last place but one. */
  function ClosedOrder(i: nat, d: nat): nat {
    var b, m := i / (d + 1), i % (d + 1);
    if m + 1 < d then i + 1 else if m + 1 == d then b * (d + 1) else i
  }

  lemma BlockPosition(d: nat, b: nat, m: nat)
    requires m <= d
    ensures ((d + 1) * b + m) / (d + 1) == b && ((d + 1) * b + m) % (d + 1) == m
  {
    DivModUnique((d + 1) * b + m, d + 1, b, m);
  }

  // After `b` full blocks and `m` packets of the next one.
  ghost predicate BlockState(f: Faults, inputs: seq<Packet>, s: Injector, out: seq<Packet>, b: nat, m: nat) {
    var d := f.reorderDistance;
    && |inputs| == (d + 1) * b + m && m <= d
    && |out| == |inputs| - (if m > 0 then 1 else 0)
    && (forall i {:trigger out[i]} {:trigger ClosedOrder(i, d)} :: 0 <= i < |out| ==>
          ClosedOrder(i, d) < |inputs| && out[i] == Mutate(f, inputs[ClosedOrder(i, d)]))
    && s.dropped == 0 && s.reordered == (if m > 0 then b + 1 else b)
    && (if m == 0 then s.held.None?
        else s.held == Some(Mutate(f, inputs[(d + 1) * b])) && s.countdown == d + 1 - m)
  }

  lemma BlockStep(f: Faults, inputs: seq<Packet>, s: Injector, out: seq<Packet>, b: nat, m: nat, raw: Packet)
    requires Reorders(f) && !Dropped(f, raw) && BlockState(f, inputs, s, out, b, m)
    ensures var (s', more) := Push(f, s, raw);
      var d := f.reorderDistance;
      BlockState(f, inputs + [raw], s', out + more, if m == d then b + 1 else b, if m == d then 0 else m + 1)
  {
    hide Mutate, ClosedOrder, ShouldDrop;
    var d := f.reorderDistance;
    var n := |inputs|;
    assert (d + 1) * (b + 1) == (d + 1) * b + (d + 1);
    var inputs' := inputs + [raw];
    if m > 0 {
      assert ClosedOrder(n - 1, d) == (if m < d then n else (d + 1) * b) && (m == d ==> ClosedOrder(n, d) == n) by {
        ClosedAt(d, b, m);
      }
    }
    var (s', more) := Push(f, s, raw);
    var out' := out + more;
    var b', m' := if m == d then b + 1 else b, if m == d then 0 else m + 1;
    forall i | 0 <= i < |out'|
      ensures ClosedOrder(i, d) < |inputs'| && out'[i] == Mutate(f, inputs'[ClosedOrder(i, d)])
    {
      if i < |out| {
        assert out'[i] == out[i];
        assert inputs'[ClosedOrder(i, d)] == inputs[ClosedOrder(i, d)];
      } else if i == n - 1 {
        assert m > 0;
      }
    }
    assert BlockState(f, inputs', s', out', b', m');
  }

  lemma ClosedAt(d: nat, b: nat, m: nat)
    requires 1 <= m <= d
    ensures var n := (d + 1) * b + m;
      ClosedOrder(n - 1, d) == (if m < d then n else (d + 1) * b) && (m == d ==> ClosedOrder(n, d) == n)
  {
    BlockPosition(d, b, m - 1);
    BlockPosition(d, b, m);
    assert b * (d + 1) == (d + 1) * b;
  }

  lemma {:induction false} RunInBlocks(f: Faults, inputs: seq<Packet>) returns (b: nat, m: nat)
    requires Reorders(f) && forall k :: 0 <= k < |inputs| ==> !Dropped(f, inputs[k])
    ensures var (s, out) := Run(f, inputs); BlockState(f, inputs, s, out, b, m)
  {
    hide Mutate, Dropped, ClosedOrder;
    if inputs == [] {
      b, m := 0, 0;
    } else {
      hide BlockState, Push;
      var before, raw := inputs[..|inputs| - 1], inputs[|inputs| - 1];
      b, m := RunInBlocks(f, before);
      var (s, out) := Run(f, before);
      BlockStep(f, before, s, out, b, m, raw);
      assert before + [raw] == inputs;
      b, m := if m == f.reorderDistance then b + 1 else b, if m == f.reorderDistance then 0 else m + 1;
    }
  }

  lemma CountStarted(n: nat, d: nat, b: nat, m: nat)
    requires 1 <= d && m <= d && n == (d + 1) * b + m
    ensures (n + d) / (d + 1) == (if m > 0 then b + 1 else b) && n % (d + 1) == m
  {
    BlockPosition(d, b, m);
    if m == 0 {
      BlockPosition(d, b, d);
    } else {
      assert (d + 1) * (b + 1) == (d + 1) * b + (d + 1);
      BlockPosition(d, b + 1, m - 1);
    }
  }

  lemma BlockOutcome(f: Faults, inputs: seq<Packet>, s: Injector, out: seq<Packet>, b: nat, m: nat)
    requires Reorders(f) && BlockState(f, inputs, s, out, b, m)
    ensures var n, d := |inputs|, f.reorderDistance;
      && |out| == n - (if n % (d + 1) == 0 then 0 else 1)
      && (forall i {:trigger out[i]} {:trigger ClosedOrder(i, d)} :: 0 <= i < |out| ==>
            ClosedOrder(i, d) < n && out[i] == Mutate(f, inputs[ClosedOrder(i, d)]))
      && s.reordered == (n + d) / (d + 1)
  {
    hide Mutate, ClosedOrder;
    CountStarted(|inputs|, f.reorderDistance, b, m);
  }

  /** Without drops the injector is a fixed permutation, holds one packet of each started block, and
      after `n` pushes has reordered `n / (d + 1)` packets, rounded up. */
  lemma ReorderClosedForm(f: Faults, inputs: seq<Packet>)
    requires Reorders(f) && forall k :: 0 <= k < |inputs| ==> !Dropped(f, inputs[k])
    ensures var (s, out) := Run(f, inputs);
      var n, d := |inputs|, f.reorderDistance;
      && |out| == n - (if n % (d + 1) == 0 then 0 else 1)
      && (forall i {:trigger out[i]} {:trigger ClosedOrder(i, d)} :: 0 <= i < |out| ==>
            ClosedOrder(i, d) < n && out[i] == Mutate(f, inputs[ClosedOrder(i, d)]))
      && s.reordered == (n + d) / (d + 1)
  {
    hide Mutate, Dropped, ClosedOrder, BlockState, Run;
    var b, m := RunInBlocks(f, inputs);
    var (s, out) := Run(f, inputs);
    BlockOutcome(f, inputs, s, out, b, m);
  }

  // ---------- the injector as an object ----------

  class FaultInjector {
    const cfg: Faults
    var held: Option<Packet>
    var heldCountdown: U32
    var dropped: nat
    var reordered: nat
    ghost var inputs: seq<Packet>
    ghost var emitted: seq<Packet>

    function State(): Injector
      reads this
    {
      Injector(held, heldCountdown, dropped, reordered)
    }

    /** The object has gone through the run of its inputs; flushing a held packet ends that run. */
    ghost predicate Valid()
      reads this
    {
      Run(cfg, inputs) == (State(), emitted)
    }

    constructor (cfg: Faults)
      ensures Valid() && this.cfg == cfg && inputs == [] && emitted == [] && dropped == 0
    {
      this.cfg := cfg;
      held, heldCountdown, dropped, reordered := None, 0, 0, 0;
      inputs, emitted := [], [];
    }

    method TickHeld() returns (released: Option<Packet>)
      modifies `held, `heldCountdown
      ensures (State(), released) == TickHold(old(State()))
    {
      if held.None? {
        return None;
      }
      if heldCountdown == 0 {
        released := held;
        held := None;
        return;
      }
      heldCountdown := heldCountdown - 1;
      if heldCountdown == 0 {
        released := held;
        held := None;
        return;
      }
      return None;
    }

    method PushPacket(raw: Packet) returns (out: seq<Packet>)
      requires Valid()
      modifies this
      ensures Valid() && inputs == old(inputs) + [raw] && emitted == old(emitted) + out
    {
      hide Mutate, ShouldDrop;
      assert (inputs + [raw])[..|inputs|] == inputs;
      inputs := inputs + [raw];
      var packet := Mutate(cfg, raw);
      if ShouldDrop(cfg, packet.sequence) {
        dropped := dropped + 1;
        var released := TickHeld();
        out := Listed(released);
        emitted := emitted + out;
        return;
      }
      var didRelease := held.Some? && heldCountdown <= 1;
      var released := TickHeld();
      out := Listed(released);
      if cfg.enabled && cfg.reorderDistance > 0 && held.None? && !didRelease {
        held := Some(packet);
        heldCountdown := cfg.reorderDistance;
        reordered := reordered + 1;
        emitted := emitted + out;
        return;
      }
      out := out + [packet];
      emitted := emitted + out;
    }

    /** Takes out the held packet; the first flush completes the run. */
    method Flush() returns (out: Option<Packet>)
      modifies `held, `heldCountdown, `emitted
      ensures out == old(held) && held.None? && emitted == old(emitted) + Listed(out)
      ensures old(Valid()) ==> emitted == Flushed(cfg, inputs)
    {
      heldCountdown := 0;
      out := held;
      held := None;
      emitted := emitted + Listed(out);
    }
  }
}
