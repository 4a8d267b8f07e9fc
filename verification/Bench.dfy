/** The whole bench run: every symbol of every stream, the final flush and the report. */
module Bench {
  import opened Types
  import opened Pipeline
  import Fpga
  import FI = FaultInjection
  import T = Transport
  import M = Metrics
  import Tr = Trace

  /** No packet of these arrivals stops the run. */
  ghost predicate RunsThrough(s: Setup, arrivals: seq<Packet>) {
    forall k :: 0 <= k < |arrivals| ==> !Stops(s, Simulate(s, arrivals[..k]).now, arrivals[k])
  }

  /** What reaches the pipeline over a whole run: the emissions, through the injector. */
  function Arrivals(s: Setup): seq<Packet> { FI.Flushed(s.faults, Rows(s, s.profile.symbolCount)) }

  lemma RunsThroughAppend(s: Setup, arrivals: seq<Packet>, p: Packet)
    ensures RunsThrough(s, arrivals + [p]) <==> RunsThrough(s, arrivals) && !Stops(s, Simulate(s, arrivals).now, p)
  {
    var longer := arrivals + [p];
    assert longer[..|arrivals|] == arrivals && longer[|arrivals|] == p;
    assert forall k :: 0 <= k < |arrivals| ==> longer[..k] == arrivals[..k] && longer[k] == arrivals[k];
  }

  lemma RunsThroughPrefix(s: Setup, arrivals: seq<Packet>, longer: seq<Packet>)
    requires arrivals <= longer && RunsThrough(s, longer)
    ensures RunsThrough(s, arrivals)
  {
    assert forall k :: 0 <= k < |arrivals| ==> longer[..k] == arrivals[..k] && longer[k] == arrivals[k];
  }

  // ---------- what the simple account comes to ----------

  /** The arrivals that are not late, in their order. */
  function OnTime(s: Setup, arrivals: seq<Packet>): seq<Packet> {
    if arrivals == [] then []
    else
      var before, p := arrivals[..|arrivals| - 1], arrivals[|arrivals| - 1];
      OnTime(s, before) + if Late(s, Simulate(s, before).now, p) then [] else [p]
  }

  /** Every on-time arrival is delivered once and in order, with one latency; every other is counted late. */
  lemma {:induction false} EveryArrivalCounted(s: Setup, arrivals: seq<Packet>)
    ensures var o := Simulate(s, arrivals);
      && o.delivered == OnTime(s, arrivals)
      && |o.delivered| + o.late == |arrivals| && |o.latencies| == |o.delivered|
  {
    if arrivals != [] {
      hide SatAdd, SatSub, WrapAdd, Late, ArriveNs, T.Expected;
      EveryArrivalCounted(s, arrivals[..|arrivals| - 1]);
    }
  }

  /** Whether the checker allows reordering makes no difference to a run. */
  lemma {:induction false} ReorderingIrrelevant(s: Setup, arrivals: seq<Packet>, allow: bool)
    ensures Simulate(s.(pol := s.pol.(allowReorder := allow)), arrivals) == Simulate(s, arrivals)
  {
    if arrivals == [] {
      NextIgnoresReordering(s, allow, StreamCount(s));
    } else {
      hide Handle, Initial;
      HandleIgnoresReordering(s, Simulate(s, arrivals[..|arrivals| - 1]), arrivals[|arrivals| - 1], allow);
      ReorderingIrrelevant(s, arrivals[..|arrivals| - 1], allow);
    }
  }

  lemma HandleIgnoresReordering(s: Setup, o: Summary, p: Packet, allow: bool)
    ensures Handle(s.(pol := s.pol.(allowReorder := allow)), o, p) == Handle(s, o, p)
  {
    hide SatAdd, SatSub, WrapAdd;
  }

  lemma {:induction false} NextIgnoresReordering(s: Setup, allow: bool, n: U32)
    ensures InitialNext(s.(pol := s.pol.(allowReorder := allow)), n) == InitialNext(s, n)
  {
    if n > 0 { NextIgnoresReordering(s, allow, n - 1); }
  }

  /** The sequence that continues a stream: one past its last packet, the start before any. */
  function NextOn(start: U64, packets: seq<Packet>, stream: U32): U64 {
    if packets == [] then start
    else
      var last := packets[|packets| - 1];
      if last.stream == stream then WrapAdd(last.sequence, 1) else NextOn(start, packets[..|packets| - 1], stream)
  }

  /** The packets that do not continue their stream. */
  function Jumps(start: U64, packets: seq<Packet>): nat {
    if packets == [] then 0
    else
      var before, last := packets[..|packets| - 1], packets[|packets| - 1];
      Jumps(start, before) + if last.sequence == NextOn(start, before, last.stream) then 0 else 1
  }

  lemma {:induction false} StartExpected(s: Setup, n: U32, stream: U32)
    ensures T.Expected(s.pol, InitialNext(s, n), stream) == s.pol.startSequence
  {
    if n > 0 { StartExpected(s, n - 1, stream); }
  }

  /** The gap counter is exactly the number of delivered packets that do not continue their stream. */
  lemma {:induction false} GapsAreJumps(s: Setup, arrivals: seq<Packet>, stream: U32)
    ensures var o := Simulate(s, arrivals);
      && o.gaps == Jumps(s.pol.startSequence, o.delivered)
      && T.Expected(s.pol, o.next, stream) == NextOn(s.pol.startSequence, o.delivered, stream)
  {
    hide SatAdd, SatSub, WrapAdd, InitialNext;
    if arrivals == [] {
      StartExpected(s, StreamCount(s), stream);
    } else {
      var before, p := arrivals[..|arrivals| - 1], arrivals[|arrivals| - 1];
      GapsAreJumps(s, before, stream);
      GapsAreJumps(s, before, p.stream);
      var delivered := Simulate(s, before).delivered;
      assert (delivered + [p])[..|delivered|] == delivered;
    }
  }

  /** The delays in front of the transport, and all delays of a packet's path, in the numbers of the
      configuration. */
  function ArrivalDelay(s: Setup, p: Packet): nat {
    (if s.profile.includeEthernetDelay then s.eth.serializeNs(|p.payload|) + s.eth.wireNs else 0)
    + (if s.faults.enabled then s.faults.extraLatencyNs else 0)
  }

  function PathNs(s: Setup, p: Packet): nat {
    ArrivalDelay(s, p)
    + (if s.profile.includeNicDma then s.nic.dmaLatencyNs else 0)
    + (if s.profile.includeGpuKernel && s.ringSlots > 0 then s.gpu.kernelDelayNs else 0)
    + (if s.faults.enabled then s.faults.kernelDelayNs else 0)
  }

  // The times of a packet's path, each in the configuration's numbers.
  lemma PathTimes(s: Setup, now: U64, p: Packet)
    ensures var start, arrives := Max(now, p.timestamp), ArriveNs(s, now, p);
      && arrives == Min(start + ArrivalDelay(s, p), U64_MAX)
      && HostNs(s, arrives)
         == Min(start + ArrivalDelay(s, p) + (if s.profile.includeNicDma then s.nic.dmaLatencyNs else 0), U64_MAX)
      && DoneNs(s, HostNs(s, arrives)) == Min(start + PathNs(s, p), U64_MAX)
  {
  }

  /** The clock never goes back. A packet arrives at the later of the clock and its timestamp plus the
      delays in front of the transport, and is late exactly when that is past the deadline; one in time
      leaves the clock behind its whole path, and its latency is the time since its timestamp, a miss
      exactly when past the budget. All times stop at the last one. */
  lemma LatencyBreakdown(s: Setup, o: Summary, p: Packet)
    ensures var o', start := Handle(s, o, p), Max(o.now, p.timestamp);
      var arrives := Min(start + ArrivalDelay(s, p), U64_MAX);
      && o.now <= o'.now && (Late(s, o.now, p) <==> arrives - p.timestamp > s.pol.maxLatencyNs)
      && (Late(s, o.now, p) ==> o' == o.(now := arrives, late := o.late + 1))
      && (!Late(s, o.now, p) ==>
            && o'.now == Min(start + PathNs(s, p), U64_MAX)
            && o'.latencies == o.latencies + [o'.now - p.timestamp]
            && o'.misses == (if o'.now - p.timestamp > s.profile.latencyBudgetNs then o.misses + 1 else o.misses)
            && o'.delivered == o.delivered + [p] && o'.late == o.late && o'.bytes == o.bytes + |p.payload|
            && o'.full == (if s.profile.includeGpuKernel && s.ringSlots == 0 then o.full + 1 else o.full))
  {
    hide WrapAdd, T.Expected, ArriveNs, HostNs, DoneNs, ArrivalDelay;
    PathTimes(s, o.now, p);
  }

  /** What a run has counted, from what it delivered. */
  function PayloadOf(packets: seq<Packet>): nat {
    if packets == [] then 0 else PayloadOf(packets[..|packets| - 1]) + |packets[|packets| - 1].payload|
  }

  function Over(latencies: seq<U64>, budget: U64): nat {
    if latencies == [] then 0
    else Over(latencies[..|latencies| - 1], budget) + if latencies[|latencies| - 1] > budget then 1 else 0
  }

  /** Bytes are those of the delivered payloads, misses the latencies over the budget, and every delivery
      is refused by a ring that has no slots. */
  lemma {:induction false} AccountAddsUp(s: Setup, arrivals: seq<Packet>)
    ensures var o := Simulate(s, arrivals);
      && o.bytes == PayloadOf(o.delivered) && o.misses == Over(o.latencies, s.profile.latencyBudgetNs)
      && o.full == if s.profile.includeGpuKernel && s.ringSlots == 0 then |o.delivered| else 0
  {
    hide PayloadOf, Over;
    NoneYet(s);
    if arrivals != [] {
      hide Handle, Late, PathNs, ArrivalDelay;
      var before, p := Simulate(s, arrivals[..|arrivals| - 1]), arrivals[|arrivals| - 1];
      AccountAddsUp(s, arrivals[..|arrivals| - 1]);
      LatencyBreakdown(s, before, p);
      var o := Handle(s, before, p);
      OneMoreDelivered(before.delivered, p, before.latencies, o.now - p.timestamp, s.profile.latencyBudgetNs);
    }
  }

  lemma NoneYet(s: Setup)
    ensures PayloadOf([]) == Over([], s.profile.latencyBudgetNs) == 0
  {
  }

  lemma OneMoreDelivered(packets: seq<Packet>, p: Packet, latencies: seq<U64>, latency: int, budget: U64)
    requires 0 <= latency <= U64_MAX
    ensures PayloadOf(packets + [p]) == PayloadOf(packets) + |p.payload|
    ensures Over(latencies + [latency], budget) == Over(latencies, budget) + (if latency > budget then 1 else 0)
  {
    assert (packets + [p])[..|packets|] == packets && (latencies + [latency])[..|latencies|] == latencies;
  }

  /** The traces of a run: one for each arrival, with its stages and their times. */
  function Traces(s: Setup, arrivals: seq<Packet>): (traces: seq<Tr.PacketTrace>)
    ensures |traces| == |arrivals|
  {
    if arrivals == [] then []
    else
      var before := arrivals[..|arrivals| - 1];
      Traces(s, before) + [TraceOf(s, Simulate(s, before).now, arrivals[|arrivals| - 1], |arrivals| % TWO_64)]
  }

  lemma TracesAppend(s: Setup, arrivals: seq<Packet>, p: Packet)
    ensures Traces(s, arrivals + [p])
         == Traces(s, arrivals) + [TraceOf(s, Simulate(s, arrivals).now, p, (|arrivals| + 1) % TWO_64)]
  {
    assert (arrivals + [p])[..|arrivals|] == arrivals;
  }

  /** Seven stages of a packet delivered at `done`, which reached the transport at `wire` and the host at
      `host`; a late packet is not seen behind the wire. */
  function Stages(p: Packet, late: bool, wire: U64, host: U64, done: U64): seq<Tr.StageStamp> {
    [Tr.StageStamp(Tr.FpgaTx, p.timestamp), Tr.StageStamp(Tr.WireDepart, wire)]
    + if late then []
      else [Tr.StageStamp(Tr.Cx5Rx, host), Tr.StageStamp(Tr.DmaDone, host), Tr.StageStamp(Tr.HostReady, host),
            Tr.StageStamp(Tr.GpuEnqueue, host), Tr.StageStamp(Tr.CudaDone, done)]
  }

  lemma TraceIs(s: Setup, now: U64, p: Packet, id: U64)
    requires id != 0
    ensures var wire := ArriveNs(s, now, p);
      var host := HostNs(s, wire);
      TraceOf(s, now, p, id) == Tr.PacketTrace(id, p.stream, p.sequence,
                                               Stages(p, Late(s, now, p), wire, host, DoneNs(s, host)))
  {
    hide ArriveNs, HostNs, DoneNs, Late;
  }

  function WireTime(s: Setup, now: U64, p: Packet): U64 {
    Min(Max(now, p.timestamp) + ArrivalDelay(s, p), U64_MAX)
  }

  function HostTime(s: Setup, now: U64, p: Packet): U64 {
    Min(Max(now, p.timestamp) + ArrivalDelay(s, p) + (if s.profile.includeNicDma then s.nic.dmaLatencyNs else 0), U64_MAX)
  }

  function DoneTime(s: Setup, now: U64, p: Packet): U64 {
    Min(Max(now, p.timestamp) + PathNs(s, p), U64_MAX)
  }

  lemma TimesAre(s: Setup, now: U64, p: Packet)
    ensures WireTime(s, now, p) == ArriveNs(s, now, p)
    ensures HostTime(s, now, p) == HostNs(s, ArriveNs(s, now, p))
    ensures DoneTime(s, now, p) == DoneNs(s, HostNs(s, ArriveNs(s, now, p)))
  {
    hide PathNs, ArrivalDelay, ArriveNs, HostNs, DoneNs;
    PathTimes(s, now, p);
  }

  /** The trace of an arrival short of the 2^64-th names it and times its stages: the FPGA at its
      timestamp, the wire on arrival, NIC and host after the DMA, the kernel at the end of its path. */
  lemma TraceTimes(s: Setup, arrivals: seq<Packet>, p: Packet)
    requires |arrivals| + 1 < TWO_64
    ensures var now := Simulate(s, arrivals).now;
      var stages := Stages(p, Late(s, now, p), WireTime(s, now, p), HostTime(s, now, p), DoneTime(s, now, p));
      Traces(s, arrivals + [p]) == Traces(s, arrivals) + [Tr.PacketTrace(|arrivals| + 1, p.stream, p.sequence, stages)]
  {
    hide Simulate, Traces, WireTime, HostTime, DoneTime, ArriveNs, HostNs, DoneNs, Late, TraceOf, Stages;
    TracesAppend(s, arrivals, p);
    TraceIs(s, Simulate(s, arrivals).now, p, |arrivals| + 1);
    TimesAre(s, Simulate(s, arrivals).now, p);
  }

  // ---------- a run without faults ----------

  lemma {:induction false} NoFaultsNoChange(f: FI.Faults, inputs: seq<Packet>)
    requires !f.enabled
    ensures FI.Run(f, inputs) == (FI.IDLE, inputs) && FI.Flushed(f, inputs) == inputs
  {
    if inputs != [] {
      var before, p := inputs[..|inputs| - 1], inputs[|inputs| - 1];
      NoFaultsNoChange(f, before);
      assert inputs == before + [p];
      assert FI.Push(f, FI.IDLE, p) == (FI.IDLE, [p]) by { assert FI.Listed(None) + [p] == [p]; }
    }
  }

  lemma NextOnAppend(start: U64, packets: seq<Packet>, p: Packet, stream: U32)
    ensures NextOn(start, packets + [p], stream)
         == if p.stream == stream then WrapAdd(p.sequence, 1) else NextOn(start, packets, stream)
    ensures Jumps(start, packets + [p])
         == Jumps(start, packets) + (if p.sequence == NextOn(start, packets, p.stream) then 0 else 1)
  {
    assert (packets + [p])[..|packets|] == packets;
  }

  // After `n` symbols and the first `i` streams of the next, every stream has gone on without a jump,
  // except that a start sequence other than 0 makes each first packet a jump.
  lemma {:induction false} EmissionsContinue(s: Setup, n: nat, i: nat, stream: U32)
    requires i <= StreamCount(s) && 1 <= stream <= StreamCount(s)
    ensures var ps, start := Rows(s, n) + Row(s, n, i), s.pol.startSequence;
      && NextOn(start, ps, stream)
         == (if stream <= i then (n + 1) % TWO_64 else if n > 0 then n % TWO_64 else start)
      && Jumps(start, ps) == (if start == 0 then 0 else if n > 0 then StreamCount(s) else i)
    decreases n, i
  {
    hide Row, Rows, WrapAdd, NextOn, Jumps, Fpga.Emission;
    var start := s.pol.startSequence;
    if i > 0 {
      RowEnds(s, n, i);
      var before, p := Rows(s, n) + Row(s, n, i - 1), Fpga.Emission(s.timing, s.wave, i, n);
      assert Rows(s, n) + Row(s, n, i) == before + [p];
      EmissionsContinue(s, n, i - 1, stream);
      EmissionsContinue(s, n, i - 1, i);
      NextOnAppend(start, before, p, stream);
    } else if n > 0 {
      RowsEnd(s, n);
      EmissionsContinue(s, n - 1, StreamCount(s), stream);
    } else {
      NoEmissions(s, stream);
    }
  }

  lemma RowEnds(s: Setup, n: nat, i: nat)
    requires 0 < i < TWO_32
    ensures var p := Fpga.Emission(s.timing, s.wave, i, n);
      && Row(s, n, i) == Row(s, n, i - 1) + [p] && p.stream == i
      && p.sequence == n % TWO_64 && WrapAdd(p.sequence, 1) == (n + 1) % TWO_64
  {
    hide Fpga.RadioTime, Fpga.SampleBytes;
  }

  lemma RowsEnd(s: Setup, n: nat)
    requires n > 0
    ensures Rows(s, n) + Row(s, n, 0) == Rows(s, n - 1) + Row(s, n - 1, StreamCount(s))
  {
    hide Fpga.Emission;
  }

  lemma NoEmissions(s: Setup, stream: U32)
    ensures var ps := Rows(s, 0) + Row(s, 0, 0);
      NextOn(s.pol.startSequence, ps, stream) == s.pol.startSequence && Jumps(s.pol.startSequence, ps) == 0
  {
    assert Rows(s, 0) + Row(s, 0, 0) == [];
  }

  /** Without faults and without late packets, every symbol of every stream is delivered in order,
      and a gap is counted only for the first packet of each stream when the start is not 0. */
  lemma CleanRun(s: Setup)
    requires !s.faults.enabled && Simulate(s, Arrivals(s)).late == 0
    ensures var o, n := Simulate(s, Arrivals(s)), s.profile.symbolCount;
      && o.delivered == Rows(s, n) && |o.delivered| == n * StreamCount(s)
      && o.gaps == (if s.pol.startSequence == 0 || n == 0 then 0 else StreamCount(s))
  {
    var n := s.profile.symbolCount;
    NoFaultsNoChange(s.faults, Rows(s, n));
    AllOnTime(s, Rows(s, n));
    GapsAreJumps(s, Rows(s, n), 1);
    EmissionsContinue(s, n, 0, 1);
    assert Rows(s, n) + Row(s, n, 0) == Rows(s, n);
  }

  lemma {:induction false} AllOnTime(s: Setup, arrivals: seq<Packet>)
    requires Simulate(s, arrivals).late == 0
    ensures Simulate(s, arrivals).delivered == arrivals
  {
    if arrivals != [] {
      hide SatAdd, SatSub, WrapAdd;
      var before := arrivals[..|arrivals| - 1];
      AllOnTime(s, before);
      assert arrivals == before + [arrivals[|arrivals| - 1]];
    }
  }

  /** Symbol `k` of stream `j + 1` is emission `k * streams + j`: symbol by symbol, stream by stream. */
  lemma {:induction false} EmissionAt(s: Setup, n: nat, k: nat, j: nat)
    requires k < n && j < Max(s.profile.streams, 1)
    ensures var i: int := k * Max(s.profile.streams, 1) + j;
      0 <= i < |Rows(s, n)| && Fpga.IsEmission(Rows(s, n)[i], s.timing, s.wave, j + 1, k)
  {
    hide Fpga.Emission, Fpga.IsEmission, Row, Rows;
    var streams := StreamCount(s);
    RowsSplit(s, n);
    PlaceInside(n, k, j, streams);
    if k < n - 1 {
      EmissionAt(s, n - 1, k, j);
    } else {
      RowAt(s, n - 1, streams, j);
      Fpga.EmissionIs(s.timing, s.wave, j + 1, k);
    }
  }

  lemma RowsSplit(s: Setup, n: nat)
    requires n > 0
    ensures Rows(s, n) == Rows(s, n - 1) + Row(s, n - 1, StreamCount(s))
  {
    hide Row;
  }

  lemma PlaceInside(n: nat, k: nat, j: nat, streams: nat)
    requires k < n && j < streams
    ensures 0 <= k * streams + j < n * streams
    ensures k < n - 1 ==> k * streams + j < (n - 1) * streams
  {
    assert (k + 1) * streams == k * streams + streams;
    assert (k + 1) * streams <= n * streams;
    if k < n - 1 { assert (k + 1) * streams <= (n - 1) * streams; }
  }

  lemma {:induction false} RowAt(s: Setup, n: nat, streams: nat, j: nat)
    requires j < streams < TWO_32
    ensures Row(s, n, streams)[j] == Fpga.Emission(s.timing, s.wave, j + 1, n)
  {
    hide Fpga.Emission;
    if j < streams - 1 { RowAt(s, n, streams - 1, j); }
  }

  // ---------- which configurations go through ----------

  /** The payload of every emission, in bytes. */
  function PayloadBytes(s: Setup): nat { 8 * s.timing.samplesPerSymbol }

  /** The NIC has no queue, or the ring no slot large enough for a symbol. */
  predicate Blocked(s: Setup) {
    || s.nic.rxQueueDepth == 0
    || (s.profile.includeGpuKernel && s.ringSlots > 0 && PayloadBytes(s) > s.gpu.slotBytes)
  }

  predicate Sized(packets: seq<Packet>, bytes: nat) {
    forall i :: 0 <= i < |packets| ==> |packets[i].payload| == bytes
  }

  lemma {:induction false} RowSized(s: Setup, n: nat, streams: nat)
    requires streams < TWO_32
    ensures Sized(Row(s, n, streams), PayloadBytes(s))
  {
    hide Fpga.RadioTime;
    if streams > 0 { RowSized(s, n, streams - 1); }
  }

  lemma {:induction false} RowsSized(s: Setup, n: nat)
    ensures Sized(Rows(s, n), PayloadBytes(s))
  {
    hide Row;
    if n > 0 {
      RowsSized(s, n - 1);
      RowSized(s, n - 1, StreamCount(s));
    }
  }

  lemma ArrivalsSized(s: Setup)
    ensures Sized(Arrivals(s), PayloadBytes(s))
  {
    hide Rows, FI.Flushed, FI.Run, FI.Dropped;
    var rows := Rows(s, s.profile.symbolCount);
    RowsSized(s, s.profile.symbolCount);
    var order, holds := FI.FlushedExplained(s.faults, rows);
  }

  lemma StopsIff(s: Setup, now: U64, p: Packet)
    requires |p.payload| == PayloadBytes(s)
    ensures Stops(s, now, p) <==> !Late(s, now, p) && Blocked(s)
  {
    hide Late;
  }

  lemma OnTimeAppend(s: Setup, arrivals: seq<Packet>, p: Packet)
    ensures OnTime(s, arrivals + [p])
         == OnTime(s, arrivals) + if Late(s, Simulate(s, arrivals).now, p) then [] else [p]
    ensures OnTime(s, []) == [] && RunsThrough(s, [])
  {
    hide Late, Simulate, Stops;
    assert (arrivals + [p])[..|arrivals|] == arrivals;
  }

  lemma {:induction false} SizedThroughIff(s: Setup, arrivals: seq<Packet>)
    requires Sized(arrivals, PayloadBytes(s))
    ensures RunsThrough(s, arrivals) <==> !Blocked(s) || OnTime(s, arrivals) == []
  {
    hide Simulate, Late, RunsThrough, Stops, Blocked, OnTime, PayloadBytes;
    if arrivals == [] {
      OnTimeAppend(s, [], Packet(0, 0, 0, []));
    } else {
      var before, p := arrivals[..|arrivals| - 1], arrivals[|arrivals| - 1];
      assert arrivals == before + [p];
      SizedThroughIff(s, before);
      RunsThroughAppend(s, before, p);
      OnTimeAppend(s, before, p);
      StopsIff(s, Simulate(s, before).now, p);
    }
  }

  /** A run goes through if and only if its configuration is not blocked, or no packet ever arrives in
      time to be stopped. */
  lemma RunsThroughIff(s: Setup)
    ensures RunsThrough(s, Arrivals(s)) <==> !Blocked(s) || OnTime(s, Arrivals(s)) == []
  {
    hide Arrivals, RunsThrough, OnTime, Blocked;
    ArrivalsSized(s);
    SizedThroughIff(s, Arrivals(s));
  }

  // ---------- a schedule that meets its deadlines ----------

  /** The time the path adds to each emission, and to all emissions of one symbol. */
  function StepNs(s: Setup): nat { PathNs(s, Fpga.Emission(s.timing, s.wave, 1, 0)) }

  function SymbolNs(s: Setup): nat { StreamCount(s) * StepNs(s) }

  lemma EmissionFacts(s: Setup, stream: U32, n: nat)
    ensures var p := Fpga.Emission(s.timing, s.wave, stream, n);
      PathNs(s, p) == StepNs(s) && p.timestamp == Fpga.RadioTime(s.timing, n).ns
  {
    hide Fpga.RadioTime;
  }

  // Saturation can only make a packet earlier.
  lemma HandleBounds(s: Setup, o: Summary, p: Packet)
    ensures Late(s, o.now, p) ==> Max(o.now - p.timestamp, 0) + PathNs(s, p) > s.pol.maxLatencyNs
    ensures !Late(s, o.now, p) ==>
              var o' := Handle(s, o, p);
              && o'.now <= Max(o.now, p.timestamp) + PathNs(s, p) && o'.late == o.late
              && o'.misses == (if o'.now - p.timestamp > s.profile.latencyBudgetNs then o.misses + 1 else o.misses)
  {
    hide Handle, Late, ArrivalDelay;
    LatencyBreakdown(s, o, p);
  }

  // One more emission of a symbol that began at `start`.
  lemma NextInTime(s: Setup, o: Summary, p: Packet, start: U64, i: nat)
    requires i < StreamCount(s) && SymbolNs(s) <= s.pol.maxLatencyNs && SymbolNs(s) <= s.profile.latencyBudgetNs
    requires p.timestamp == start && PathNs(s, p) == StepNs(s)
    requires o.now <= start + i * StepNs(s) && o.late == o.misses == 0
    ensures var o' := Handle(s, o, p); o'.now <= start + (i + 1) * StepNs(s) && o'.late == o'.misses == 0
  {
    hide Handle, PathNs, StepNs, ArriveNs;
    HandleBounds(s, o, p);
    StepsFit(StepNs(s), i, StreamCount(s));
  }

  lemma StepsFit(step: nat, i: nat, n: nat)
    requires i < n
    ensures (i + 1) * step == i * step + step && (i + 1) * step <= n * step
  {
  }

  // With `n` symbols and the first `i` streams of the next emitted, the pipeline is no more than `i`
  // steps behind the symbol.
  lemma {:induction false} KeepsUp(s: Setup, n: nat, i: nat)
    requires i <= StreamCount(s)
    requires SymbolNs(s) <= s.timing.symbolDurationNs
    requires SymbolNs(s) <= s.pol.maxLatencyNs && SymbolNs(s) <= s.profile.latencyBudgetNs
    ensures var o := Simulate(s, Rows(s, n) + Row(s, n, i));
      o.now <= Fpga.RadioTime(s.timing, n).ns + i * StepNs(s) && o.late == o.misses == 0
    decreases n, i
  {
    hide Row, Rows, Handle, StepNs, Fpga.RadioTime, Simulate, InitialNext;
    if i > 0 {
      RowEnds(s, n, i);
      var before, p := Rows(s, n) + Row(s, n, i - 1), Fpga.Emission(s.timing, s.wave, i, n);
      KeepsUp(s, n, i - 1);
      EmissionFacts(s, i, n);
      NextInTime(s, Simulate(s, before), p, Fpga.RadioTime(s.timing, n).ns, i - 1);
      SimulateAppend(s, before, p);
      assert Rows(s, n) + Row(s, n, i) == before + [p];
    } else if n > 0 {
      RowsEnd(s, n);
      KeepsUp(s, n - 1, StreamCount(s));
      SymbolLater(s, n - 1);
    } else {
      NothingLate(s);
    }
  }

  lemma SymbolLater(s: Setup, n: nat)
    ensures Fpga.RadioTime(s.timing, n + 1).ns == SatAdd(Fpga.RadioTime(s.timing, n).ns, s.timing.symbolDurationNs)
  {
    Fpga.ElapsedStep(s.timing.symbolDurationNs, n);
  }

  lemma NothingLate(s: Setup)
    ensures var o := Simulate(s, Rows(s, 0) + Row(s, 0, 0)); o.now == o.late == o.misses == 0
  {
    assert Rows(s, 0) + Row(s, 0, 0) == [];
  }

  /** Without faults, if the path of all streams together takes no longer than a symbol, than the
      transport's deadline and than the latency budget, then no packet is late and no budget missed:
      every symbol of every stream is delivered in order. A run that is not blocked then succeeds. */
  lemma ScheduleMeetsDeadlines(s: Setup)
    requires !s.faults.enabled && SymbolNs(s) <= s.timing.symbolDurationNs
    requires SymbolNs(s) <= s.pol.maxLatencyNs && SymbolNs(s) <= s.profile.latencyBudgetNs
    ensures var o, n := Simulate(s, Arrivals(s)), s.profile.symbolCount;
      && o.late == o.misses == 0 && o.delivered == Rows(s, n) && |o.delivered| == n * StreamCount(s)
      && o.gaps == (if s.pol.startSequence == 0 || n == 0 then 0 else StreamCount(s))
    ensures !Blocked(s) ==> RunsThrough(s, Arrivals(s))
  {
    hide Simulate, Row, SymbolNs, Blocked, RunsThrough;
    var n := s.profile.symbolCount;
    NoFaultsNoChange(s.faults, Rows(s, n));
    KeepsUp(s, n, 0);
    assert Rows(s, n) + Row(s, n, 0) == Rows(s, n) by { NoStreams(s, n); }
    CleanRun(s);
    RunsThroughIff(s);
  }

  lemma NoStreams(s: Setup, n: nat)
    ensures Row(s, n, 0) == []
  {
  }

  // ---------- the report ----------

  datatype Report = Report(
    packets: nat, bytes: nat, symbolMiss: nat, sequenceGaps: nat, latePackets: nat, dropped: nat,
    simDurationNs: U64, recoveryActions: nat, ringPeak: nat, latencies: seq<U64>, metrics: M.Counters)

  /** The report and the counters say what the simple account of the arrivals says. */
  ghost predicate Reports(s: Setup, r: Report) {
    var o := Simulate(s, Arrivals(s));
    && r.packets == |o.delivered| && r.bytes == o.bytes && r.symbolMiss == o.misses
    && r.sequenceGaps == o.gaps && r.latePackets == o.late && r.simDurationNs == o.now && r.latencies == o.latencies
    && r.dropped == FI.Run(s.faults, Rows(s, s.profile.symbolCount)).0.dropped
    && r.recoveryActions == (if s.hasRecovery then o.gaps + o.late + o.full else 0)
    && r.ringPeak == (if UsesRing(s) && r.packets > 0 then 1 else 0)
    && r.metrics.gapCount == r.sequenceGaps && r.metrics.latePacket == r.latePackets && r.metrics.drop == r.dropped
    && r.metrics.deadlineMiss == r.latePackets + r.symbolMiss
    && r.metrics.txPackets == r.metrics.symbolReceived == r.metrics.latencySamples == r.packets
    && r.metrics.rxPackets == 2 * r.packets && (UsesRing(s) ==> r.metrics.kernelExecutions == r.packets)
    && r.metrics.slotReceived == r.metrics.slotProcessed == r.packets && r.metrics.rxBytes == Min(r.bytes, U64_MAX)
    && r.metrics.hostUsed == r.bytes && r.metrics.gpuUsed == s.ringSlots * s.gpu.slotBytes && r.metrics.linkUp
    && r.metrics.bufferFull == r.metrics.overflow == Min(o.full, U64_MAX) && r.metrics.ringOccupancy == r.ringPeak
    && M.Summarizes(r.metrics, r.latencies)
  }

  /** Every emitted packet is delivered, late or dropped, and each delivery has a latency. */
  lemma ReportConserves(s: Setup, r: Report)
    requires Reports(s, r)
    ensures s.profile.symbolCount * StreamCount(s) == r.packets + r.latePackets + r.dropped
    ensures |r.latencies| == r.packets
  {
    hide M.Summarizes;
    var order, holds := FI.FlushedExplained(s.faults, Rows(s, s.profile.symbolCount));
    EveryArrivalCounted(s, Arrivals(s));
  }

  class PipelineBench {
    const s: Setup
    const run: PipelineRun
    const bank: FpgaBank
    const injector: FI.FaultInjector

    constructor (s: Setup)
      ensures this.s == s && Fresh()
      ensures fresh(run) && fresh(run.transport) && fresh(run.transport.checker) && fresh(run.nic)
      ensures fresh(run.ring.slots) && fresh(run.metrics) && fresh(run.tracer) && fresh(injector)
      ensures forall f :: f in bank.fpgas ==> fresh(f) && fresh(f.scheduler)
    {
      this.s := s;
      run := new PipelineRun(s);
      bank := new FpgaBank(s);
      injector := new FI.FaultInjector(s.faults);
    }

    /** The pipeline has handled exactly these arrivals and is quiet. */
    ghost predicate Handled(arrivals: seq<Packet>)
      reads run, run.transport, run.transport.checker, run.nic, run.ring, run.ring.slots, run.metrics, run.tracer
    {
      && run.s == s && run.Quiet() && run.Outcome() == Simulate(s, arrivals) && RunsThrough(s, arrivals) && run.drops == 0
      && run.tracer.log == (if s.traceEnabled then Traces(s, arrivals) else [])
    }

    method ProcessBatch(batch: seq<Packet>, ghost before: seq<Packet>) returns (r: Result<(), BenchError>)
      requires Handled(before) && FI.StreamsWithin(batch, StreamCount(s))
      modifies run, run.transport, run.transport.checker, run.nic, run.ring.slots, run.metrics, run.tracer
      ensures r.Ok? ==> Handled(before + batch)
      ensures r.Err? ==> !RunsThrough(s, before + batch)
    {
      hide Handle, Stops, RunsThrough, PipelineRun.Quiet, Traces, TraceOf, Simulate;
      assert before + batch[..0] == before;
      for i := 0 to |batch|
        invariant Handled(before + batch[..i])
      {
        ghost var done := before + batch[..i];
        assert before + batch[..i + 1] == done + [batch[i]];
        RunsThroughAppend(s, done, batch[i]);
        SimulateAppend(s, done, batch[i]);
        TracesAppend(s, done, batch[i]);
        var one := run.ProcessOne(batch[i]);
        if one.Err? {
          if RunsThrough(s, before + batch) {
            RunsThroughPrefix(s, done + [batch[i]], before + batch);
          }
          return one;
        }
      }
      assert batch[..|batch|] == batch;
      return Ok(());
    }

    /** All inputs so far went through the injector, and all it emitted through the pipeline. */
    ghost predicate Fed(inputs: seq<Packet>)
      reads injector, run, run.transport, run.transport.checker, run.nic, run.ring, run.ring.slots, run.metrics, run.tracer
    {
      injector.Valid() && injector.cfg == s.faults && injector.inputs == inputs && Handled(injector.emitted)
    }

    /** One emitted packet through the injector, and what comes out through the pipeline. */
    method Feed(p: Packet, ghost inputs: seq<Packet>) returns (r: Result<(), BenchError>)
      requires Fed(inputs) && FI.StreamsWithin(inputs + [p], StreamCount(s))
      modifies injector, run, run.transport, run.transport.checker, run.nic, run.ring.slots, run.metrics, run.tracer
      ensures r.Ok? ==> Fed(inputs + [p])
      ensures r.Err? ==> !RunsThrough(s, FI.Run(s.faults, inputs + [p]).1)
    {
      hide RunsThrough, PipelineRun.Quiet, PipelineRun.Outcome, FI.Run, FI.Flushed;
      ghost var before := injector.emitted;
      FI.EmittedStreams(s.faults, inputs + [p], StreamCount(s));
      var out := injector.PushPacket(p);
      assert FI.StreamsWithin(out, StreamCount(s)) by {
        assert forall i :: 0 <= i < |out| ==> injector.emitted[|before| + i] == out[i];
      }
      r := ProcessBatch(out, before);
    }

    /** Symbol `n` of stream `i + 1`. */
    method EmitAndFeed(n: nat, i: nat) returns (r: Result<(), BenchError>)
      requires bank.s == s && bank.At(n, i) && i < StreamCount(s) && Fed(Rows(s, n) + Row(s, n, i))
      modifies bank.fpgas, set f | f in bank.fpgas :: f.scheduler
      modifies injector, run, run.transport, run.transport.checker, run.nic, run.ring.slots, run.metrics, run.tracer
      ensures r.Ok? ==> bank.At(n, i + 1) && Fed(Rows(s, n) + Row(s, n, i + 1))
      ensures r.Err? ==> !RunsThrough(s, FI.Run(s.faults, Rows(s, n) + Row(s, n, i + 1)).1)
    {
      hide RunsThrough, PipelineRun.Quiet, PipelineRun.Outcome, FI.Run, FI.Flushed, FI.FaultInjector.Valid,
           Handled, Rows, Simulate, Fpga.Emission;
      ghost var inputs := Rows(s, n) + Row(s, n, i);
      var p := bank.Emit(n, i);
      assert inputs + [p] == Rows(s, n) + Row(s, n, i + 1);
      r := Feed(p, inputs);
    }

    /** Symbol `n` of every stream. */
    method RunSymbol(n: nat) returns (r: Result<(), BenchError>)
      requires bank.s == s && bank.At(n, 0) && Fed(Rows(s, n))
      modifies bank.fpgas, set f | f in bank.fpgas :: f.scheduler
      modifies injector, run, run.transport, run.transport.checker, run.nic, run.ring.slots, run.metrics, run.tracer
      ensures r.Ok? ==> bank.At(n + 1, 0) && Fed(Rows(s, n + 1))
      ensures r.Err? ==> !RunsThrough(s, FI.Run(s.faults, Rows(s, n + 1)).1)
    {
      hide RunsThrough, PipelineRun.Quiet, PipelineRun.Outcome, FI.Run, FI.FaultInjector.Valid, FpgaBank.At, Handled;
      ghost var rows := Rows(s, n);
      assert rows + Row(s, n, 0) == rows;
      for i := 0 to StreamCount(s)
        invariant bank.At(n, i) && Fed(rows + Row(s, n, i))
      {
        r := EmitAndFeed(n, i);
        if r.Err? {
          RowPrefix(s, n, i + 1, StreamCount(s));
          FailureStays(rows + Row(s, n, StreamCount(s)), |rows| + i + 1, rows + Row(s, n, i + 1));
          return;
        }
      }
      bank.NextSymbol(n);
      return Ok(());
    }

    lemma RowPrefix(s: Setup, n: nat, i: nat, streams: nat)
      requires i <= streams < TWO_32
      ensures Row(s, n, i) <= Row(s, n, streams)
    {
      if i < streams { RowPrefix(s, n, i, streams - 1); }
    }

    // A failure after some inputs remains a failure of the run that goes on.
    lemma FailureStays(inputs: seq<Packet>, k: nat, front: seq<Packet>)
      requires k <= |inputs| && front == inputs[..k] && !RunsThrough(s, FI.Run(s.faults, front).1)
      ensures !RunsThrough(s, FI.Run(s.faults, inputs).1) && !RunsThrough(s, FI.Flushed(s.faults, inputs))
    {
      hide RunsThrough, FI.Run, FI.Flushed;
      FI.EmittedIsPrefix(s.faults, inputs, k);
      var all := FI.Run(s.faults, inputs).1;
      if RunsThrough(s, all) { RunsThroughPrefix(s, FI.Run(s.faults, front).1, all); }
      if RunsThrough(s, FI.Flushed(s.faults, inputs)) {
        RunsThroughPrefix(s, FI.Run(s.faults, front).1, FI.Flushed(s.faults, inputs));
      }
    }

    /** The first flush completes the arrivals. */
    method FirstFlush() returns (flushed: Option<Packet>)
      requires Fed(Rows(s, s.profile.symbolCount))
      modifies injector
      ensures Handled(old(injector.emitted)) && injector.held.None? && injector.dropped == old(injector.dropped)
      ensures old(injector.emitted) + FI.Listed(flushed) == Arrivals(s)
      ensures FI.StreamsWithin(FI.Listed(flushed), StreamCount(s))
    {
      hide RunsThrough, FI.Run, Rows, PipelineRun.Quiet, PipelineRun.Outcome;
      FI.EmittedStreams(s.faults, Rows(s, s.profile.symbolCount), StreamCount(s));
      flushed := injector.Flush();
    }

    /** Everything held back comes out, and the injector stays empty. */
    method Drain() returns (r: Result<(), BenchError>)
      requires Fed(Rows(s, s.profile.symbolCount))
      modifies injector, run, run.transport, run.transport.checker, run.nic, run.ring.slots, run.metrics, run.tracer
      ensures r.Ok? ==> Handled(Arrivals(s)) && injector.dropped == old(injector.dropped)
      ensures r.Err? ==> !RunsThrough(s, Arrivals(s))
    {
      hide RunsThrough, Arrivals, Rows, Handled, PipelineRun.Quiet, PipelineRun.Outcome;
      ghost var done := injector.emitted;
      var flushed := FirstFlush();
      while flushed.Some?
        invariant Handled(done) && done + FI.Listed(flushed) == Arrivals(s)
        invariant FI.StreamsWithin(FI.Listed(flushed), StreamCount(s))
        invariant injector.held.None? && injector.dropped == old(injector.dropped)
        decreases if flushed.Some? then 1 else 0
      {
        r := ProcessBatch(FI.Listed(flushed), done);
        if r.Err? {
          return;
        }
        done := done + FI.Listed(flushed);
        flushed := injector.Flush();
      }
      assert done + FI.Listed(None) == done;
      return Ok(());
    }

    method MakeReport() returns (r: Report)
      requires Handled(Arrivals(s))
      requires injector.dropped == FI.Run(s.faults, Rows(s, s.profile.symbolCount)).0.dropped
      modifies run, run.metrics
      ensures Reports(s, r) && run.tracer.Valid() && run.tracer.log == old(run.tracer.log)
    {
      hide FI.Run, FI.Flushed, RunsThrough, Simulate, M.Summarizes, Recoveries, Log, Traces, Rows,
           PipelineRun.TransportQuiet, PipelineRun.NicQuiet, PipelineRun.RingQuiet, Tr.Window, Tr.AllInOrder, Tr.Numbered;
      run.RecordDrops(injector.dropped);
      SummarySamples(run.metrics.m, run.latencies);
      ActionsLogged(run.recovery);
      RecoveriesAre(run.transport.sequenceGaps, run.transport.latePackets, run.full);
      r := Report(run.packets, run.bytes, run.symbolMiss, run.transport.sequenceGaps, run.transport.latePackets,
                  injector.dropped, run.nowNs, if run.recovery.Some? then |run.recovery.value| else 0,
                  run.ringPeak, run.latencies, run.metrics.m);
    }

    lemma ActionsLogged(r: Option<seq<FaultClass>>)
      ensures Log(r).Some? == r.Some? && (r.Some? ==> |Log(r).value| == |r.value|)
    {
    }

    lemma SummarySamples(m: M.Counters, samples: seq<U64>)
      ensures M.Summarizes(m, samples) ==> m.latencySamples == |samples|
    {
    }

    ghost predicate Fresh()
      reads this, run, run.transport, run.transport.checker, run.nic, run.ring, run.ring.slots, run.metrics, run.tracer,
            injector, bank, bank.fpgas, set f | f in bank.fpgas :: f.scheduler
    {
      && run.s == s && run.Idle() && bank.At(0, 0) && bank.s == s
      && injector.Valid() && injector.cfg == s.faults && injector.inputs == [] && injector.emitted == []
    }

    /** Every symbol of every stream, unless one stops the run. */
    method RunSymbols() returns (r: Result<(), BenchError>)
      requires bank.s == s && bank.At(0, 0) && Fed(Rows(s, 0))
      modifies bank.fpgas, set f | f in bank.fpgas :: f.scheduler
      modifies injector, run, run.transport, run.transport.checker, run.nic, run.ring.slots, run.metrics, run.tracer
      ensures r.Ok? ==> Fed(Rows(s, s.profile.symbolCount))
      ensures r.Err? ==> !RunsThrough(s, Arrivals(s))
    {
      hide RunsThrough, FI.Flushed, FpgaBank.At, Fed;
      for n := 0 to s.profile.symbolCount
        invariant bank.At(n, 0) && Fed(Rows(s, n))
      {
        r := RunSymbol(n);
        if r.Err? {
          RowsPrefix(s, n + 1, s.profile.symbolCount);
          FailureStays(Rows(s, s.profile.symbolCount), |Rows(s, n + 1)|, Rows(s, n + 1));
          return;
        }
      }
      return Ok(());
    }

    /** A whole run. It fails exactly when the configuration is blocked and some packet arrives in time;
        otherwise its report is the simple account of the emissions as the injector passes them on. */
    method Run() returns (r: Result<Report, BenchError>)
      requires Fresh()
      modifies bank.fpgas, set f | f in bank.fpgas :: f.scheduler
      modifies injector, run, run.transport, run.transport.checker, run.nic, run.ring.slots, run.metrics, run.tracer
      ensures r.Err? <==> Blocked(s) && OnTime(s, Arrivals(s)) != []
      ensures r.Ok? ==> Reports(s, r.value)
      ensures r.Ok? ==> run.tracer.Valid() && run.tracer.log == (if s.traceEnabled then Traces(s, Arrivals(s)) else [])
    {
      hide Blocked, OnTime, Arrivals, RunsThrough, Reports, FI.Flushed, FpgaBank.At, PipelineRun.Quiet, PipelineRun.Idle;
      RunsThroughIff(s);
      run.Connect();
      NothingYet();
      hide Fed;
      var symbols := RunSymbols();
      if symbols.Err? {
        return Err(symbols.error);
      }
      FedDropped(Rows(s, s.profile.symbolCount));
      var drained := Drain();
      if drained.Err? {
        return Err(drained.error);
      }
      var report := MakeReport();
      return Ok(report);
    }

    lemma FedDropped(inputs: seq<Packet>)
      requires Fed(inputs)
      ensures injector.dropped == FI.Run(s.faults, inputs).0.dropped
    {
    }

    lemma NothingYet()
      requires run.s == s && run.Quiet() && run.Outcome() == Initial(s) && run.drops == 0
      requires injector.Valid() && injector.cfg == s.faults && injector.inputs == [] && injector.emitted == []
      requires run.tracer.log == []
      ensures Fed(Rows(s, 0))
    {
    }

    static lemma RowsPrefix(s: Setup, n: nat, total: nat)
      requires n <= total
      ensures Rows(s, n) <= Rows(s, total)
    {
      if n < total { RowsPrefix(s, n, total - 1); }
    }
  }
}