/** The end-to-end bench: emission, faults, transport, NIC, GPU ring and observability in one run,
    and the simple account of a run that all of it amounts to. */
module Pipeline {
  import opened Types
  import Fpga
  import FI = FaultInjection
  import T = Transport
  import N = Nic
  import G = GpuRing
  import M = Metrics
  import Tr = Trace

  datatype Profile = Profile(
    symbolCount: nat, streams: U32, latencyBudgetNs: U64,
    includeEthernetDelay: bool, includeNicDma: bool, includeGpuKernel: bool)

  /** `serializeNs` gives the delay of a payload of that many bytes. */
  datatype Ethernet = Ethernet(serializeNs: nat -> U64, wireNs: U64)

  datatype Setup = Setup(
    profile: Profile, timing: Fpga.Timing, wave: Fpga.Wave, eth: Ethernet, faults: FI.Faults, pol: T.Policy,
    nic: N.NicConfig, ringSlots: nat, gpu: G.Config, traceEnabled: bool, traceCapacity: nat, hasRecovery: bool)

  function StreamCount(s: Setup): (n: U32) ensures n > 0 { Max(s.profile.streams, 1) }

  // ---------- the simple account of a run ----------

  /** What a run has come to: the clock, the expected sequences, the packets delivered in order, and
      the counts of late packets, gaps, deadline misses and refusals of a ring without slots. */
  datatype Summary = Summary(
    now: U64, next: map<U32, U64>, delivered: seq<Packet>, late: nat, gaps: nat,
    latencies: seq<U64>, misses: nat, bytes: nat, full: nat)

  function InitialNext(s: Setup, streams: nat): (m: map<U32, U64>)
    requires streams < TWO_32
    ensures forall id :: id in m <==> 1 <= id <= streams
    ensures forall id :: id in m ==> m[id] == s.pol.startSequence
  {
    if streams == 0 then map[] else InitialNext(s, streams - 1)[streams := s.pol.startSequence]
  }

  function AllRunning(streams: nat): (m: map<U32, T.StreamState>)
    requires streams < TWO_32
    ensures forall id :: id in m <==> 1 <= id <= streams
    ensures forall id :: id in m ==> m[id] == T.Running
  {
    if streams == 0 then map[] else AllRunning(streams - 1)[streams := T.Running]
  }

  function Initial(s: Setup): Summary { Summary(0, InitialNext(s, StreamCount(s)), [], 0, 0, [], 0, 0, 0) }

  function WireNs(s: Setup, p: Packet): U64 {
    if s.profile.includeEthernetDelay then SatAdd(s.eth.serializeNs(|p.payload|), s.eth.wireNs) else 0
  }

  /** When a packet reaches the transport, the clock standing at `now`. */
  function ArriveNs(s: Setup, now: U64, p: Packet): U64 {
    SatAdd(SatAdd(Max(now, p.timestamp), WireNs(s, p)), FI.ExtraLatency(s.faults))
  }

  function HostNs(s: Setup, t: U64): U64 {
    if s.profile.includeNicDma then SatAdd(t, s.nic.dmaLatencyNs) else t
  }

  predicate UsesRing(s: Setup) { s.profile.includeGpuKernel && s.ringSlots > 0 }

  function KernelNs(s: Setup, t: U64): U64 {
    if UsesRing(s) then SatSub(SatAdd(t, s.gpu.kernelDelayNs), t) else 0
  }

  function DoneNs(s: Setup, t: U64): U64 { SatAdd(t, SatAdd(KernelNs(s, t), FI.KernelDelay(s.faults))) }

  predicate Late(s: Setup, now: U64, p: Packet) { T.IsLate(s.pol, p, ArriveNs(s, now, p)) }

  /** One packet: late and dropped, or delivered with its end-to-end latency. */
  function Handle(s: Setup, o: Summary, p: Packet): Summary {
    var t := ArriveNs(s, o.now, p);
    if Late(s, o.now, p) then o.(now := t, late := o.late + 1)
    else
      var done := DoneNs(s, HostNs(s, t));
      var e2e := SatSub(done, p.timestamp);
      Summary(done,
              o.next[p.stream := WrapAdd(p.sequence, 1)],
              o.delivered + [p],
              o.late,
              if p.sequence != T.Expected(s.pol, o.next, p.stream) then o.gaps + 1 else o.gaps,
              o.latencies + [e2e],
              if e2e > s.profile.latencyBudgetNs then o.misses + 1 else o.misses,
              o.bytes + |p.payload|,
              if Loses(s) then o.full + 1 else o.full)
  }

  /** The trace of one packet: a late one is not seen behind the wire. A trace whose id has wrapped to 0
      takes no stamps after its first. */
  function TraceOf(s: Setup, now: U64, p: Packet, id: U64): Tr.PacketTrace {
    var t := ArriveNs(s, now, p);
    var onWire := [Tr.StageStamp(Tr.FpgaTx, p.timestamp), Tr.StageStamp(Tr.WireDepart, t)];
    var stages := if Late(s, now, p) then onWire else onWire + HostStages(HostNs(s, t), DoneNs(s, HostNs(s, t)));
    Tr.PacketTrace(id, p.stream, p.sequence, if id == 0 then stages[..1] else stages)
  }

  function HostStages(host: U64, done: U64): seq<Tr.StageStamp> {
    [Tr.StageStamp(Tr.Cx5Rx, host), Tr.StageStamp(Tr.DmaDone, host)] + KernelStages(host, done)
  }

  function KernelStages(host: U64, done: U64): seq<Tr.StageStamp> {
    [Tr.StageStamp(Tr.HostReady, host), Tr.StageStamp(Tr.GpuEnqueue, host), Tr.StageStamp(Tr.CudaDone, done)]
  }

  /** Stage times in a trace never decrease, if its first stage is not later than its arrival. */
  lemma TraceInOrder(s: Setup, now: U64, p: Packet, id: U64)
    ensures Tr.StagesInOrder(TraceOf(s, now, p, id))
  {
    hide WireNs, FI.ExtraLatency, FI.KernelDelay, KernelNs, T.IsLate;
  }

  /** The account of a whole sequence of arrivals. It does not mention the queues, the ring slots or
      whether the checker allows reordering. */
  function Simulate(s: Setup, arrivals: seq<Packet>): Summary {
    if arrivals == [] then Initial(s)
    else Handle(s, Simulate(s, arrivals[..|arrivals| - 1]), arrivals[|arrivals| - 1])
  }

  lemma SimulateAppend(s: Setup, arrivals: seq<Packet>, p: Packet)
    ensures Simulate(s, arrivals + [p]) == Handle(s, Simulate(s, arrivals), p)
  {
    assert (arrivals + [p])[..|arrivals|] == arrivals;
  }

  /** Why a packet stops the run: it is on time and the NIC has no queue, or the ring no room for it. */
  predicate Stops(s: Setup, now: U64, p: Packet) {
    !Late(s, now, p) && (s.nic.rxQueueDepth == 0 || (UsesRing(s) && |p.payload| > s.gpu.slotBytes))
  }

  // ---------- the running bench ----------

  datatype FaultClass = SequenceGapFault | LatePacketFault | BufferOverflow

  datatype BenchError = Runtime

  /** What a run has counted outside its metrics; `recovered` holds the recovery actions. */
  datatype Totals = Totals(
    gaps: nat, late: nat, misses: nat, packets: nat, bytes: nat, latencies: seq<U64>, full: nat, ringPeak: nat,
    recovered: Option<multiset<FaultClass>>, drops: nat)

  /** A recovery action for each gap, late packet and refusal of a ring without slots. */
  function Recoveries(gaps: nat, late: nat, full: nat): multiset<FaultClass> {
    multiset{}[SequenceGapFault := gaps][LatePacketFault := late][BufferOverflow := full]
  }

  /** The counters agree with the run. Each delivery bumps `rxPackets` twice. */
  predicate Agrees(s: Setup, m: M.Counters, t: Totals) {
    && t.packets == |t.latencies|
    && m.gapCount == t.gaps && m.latePacket == t.late && m.drop == t.drops
    && m.deadlineMiss == m.slotDeadlineMiss == t.late + t.misses
    && m.txPackets == m.symbolReceived == t.packets && m.rxPackets == 2 * t.packets
    && M.Summarizes(m, t.latencies) && m.rxBytes == Min(t.bytes, U64_MAX)
    && m.slotReceived == m.slotProcessed == t.packets && m.hostUsed == t.bytes && m.linkUp
    && m.gpuUsed == s.ringSlots * s.gpu.slotBytes && m.bufferFull == m.overflow == Min(t.full, U64_MAX)
    && (UsesRing(s) ==> m.kernelExecutions == t.packets)
    && m.ringOccupancy == t.ringPeak == (if UsesRing(s) && t.packets > 0 then 1 else 0)
    && t.recovered == (if s.hasRecovery then Some(Recoveries(t.gaps, t.late, t.full)) else None)
  }

  lemma RecoveriesGrow(gaps: nat, late: nat, full: nat)
    ensures Recoveries(gaps + 1, late, full) == Recoveries(gaps, late, full) + multiset{SequenceGapFault}
    ensures Recoveries(gaps, late + 1, full) == Recoveries(gaps, late, full) + multiset{LatePacketFault}
    ensures Recoveries(gaps, late, full + 1) == Recoveries(gaps, late, full) + multiset{BufferOverflow}
  {
    RecoveriesAre(gaps, late, full);
    RecoveriesAre(gaps + 1, late, full);
    RecoveriesAre(gaps, late + 1, full);
    RecoveriesAre(gaps, late, full + 1);
  }

  lemma RecoveriesAre(gaps: nat, late: nat, full: nat)
    ensures var m := Recoveries(gaps, late, full);
      && m[SequenceGapFault] == gaps && m[LatePacketFault] == late && m[BufferOverflow] == full
      && |m| == gaps + late + full
  {
  }

  /** The recovery actions after one more; there are none without a policy. */
  function Applied(r: Option<seq<FaultClass>>, fault: FaultClass): Option<seq<FaultClass>> {
    match r
    case None => None
    case Some(applied) => Some(applied + [fault])
  }

  function Log(r: Option<seq<FaultClass>>): Option<multiset<FaultClass>> {
    match r
    case None => None
    case Some(applied) => Some(multiset(applied))
  }

  lemma LogGrows(r: Option<seq<FaultClass>>, fault: FaultClass)
    ensures Log(Applied(r, fault)) == Recovered(Log(r), fault)
  {
  }

  lemma NothingLogged()
    ensures Recoveries(0, 0, 0) == multiset{} && Log(Some([])) == Some(multiset{}) && Log(None) == None
  {
    RecoveriesAre(0, 0, 0);
  }

  function Recovered(r: Option<multiset<FaultClass>>, fault: FaultClass): Option<multiset<FaultClass>> {
    if r.Some? then Some(r.value + multiset{fault}) else None
  }

  // The counters after each part of a delivery.

  function AfterArrival(m: M.Counters, len: nat): M.Counters {
    m.(rxPackets := m.rxPackets + 2, rxBytes := Min(m.rxBytes + len, U64_MAX))
  }

  function AfterKernel(s: Setup, m: M.Counters, peak: nat, latency: U64): M.Counters {
    if UsesRing(s) then
      m.(ringOccupancy := peak, kernelLatencyNs := latency, kernelExecutions := m.kernelExecutions + 1)
    else if s.profile.includeGpuKernel then m.(bufferFull := SatAdd(m.bufferFull, 1), overflow := SatAdd(m.overflow, 1))
    else m
  }

  function AfterAccount(m: M.Counters, e2e: U64, miss: bool, host: nat, gpu: nat): M.Counters {
    M.Sampled(m, e2e).(txPackets := m.txPackets + 1,
                       symbolReceived := m.symbolReceived + 1, slotReceived := m.slotReceived + 1,
                       slotProcessed := m.slotProcessed + 1, hostUsed := host, gpuUsed := gpu,
                       deadlineMiss := if miss then m.deadlineMiss + 1 else m.deadlineMiss,
                       slotDeadlineMiss := if miss then m.slotDeadlineMiss + 1 else m.slotDeadlineMiss)
  }

  lemma GapAgrees(s: Setup, m: M.Counters, t: Totals)
    requires Agrees(s, m, t)
    ensures Agrees(s, m.(gapCount := m.gapCount + 1),
                   t.(gaps := t.gaps + 1, recovered := Recovered(t.recovered, SequenceGapFault)))
  {
    RecoveriesGrow(t.gaps, t.late, t.full);
    hide Recoveries;
  }

  lemma LateAgrees(s: Setup, m: M.Counters, t: Totals)
    requires Agrees(s, m, t)
    ensures Agrees(s, m.(latePacket := m.latePacket + 1, deadlineMiss := m.deadlineMiss + 1,
                         slotDeadlineMiss := m.slotDeadlineMiss + 1),
                   t.(late := t.late + 1, recovered := Recovered(t.recovered, LatePacketFault)))
  {
    RecoveriesGrow(t.gaps, t.late, t.full);
    hide Recoveries;
  }

  lemma DropAgrees(s: Setup, m: M.Counters, t: Totals)
    requires Agrees(s, m, t)
    ensures Agrees(s, m.(drop := m.drop + 1), t.(drops := t.drops + 1))
  {
  }

  predicate Loses(s: Setup) { s.profile.includeGpuKernel && s.ringSlots == 0 }

  function AfterTotals(s: Setup, t: Totals, len: nat, e2e: U64, miss: bool): Totals {
    var lost := if Loses(s) then 1 else 0;
    Totals(t.gaps, t.late, if miss then t.misses + 1 else t.misses, t.packets + 1, t.bytes + len,
           t.latencies + [e2e], t.full + lost, if UsesRing(s) then Max(t.ringPeak, 1) else t.ringPeak,
           if Loses(s) then Recovered(t.recovered, BufferOverflow) else t.recovered, t.drops)
  }

  lemma DeliverySummarizes(s: Setup, m: M.Counters, samples: seq<U64>, len: nat, peak: nat, latency: U64,
                           e2e: U64, miss: bool, host: nat, gpu: nat)
    requires M.Summarizes(m, samples)
    ensures M.Summarizes(AfterAccount(AfterKernel(s, AfterArrival(m, len), peak, latency), e2e, miss, host, gpu),
                         samples + [e2e])
  {
    M.SampleSummarizes(AfterKernel(s, AfterArrival(m, len), peak, latency), samples, e2e);
  }

  // One delivery, with all its counter updates, keeps the agreement.
  lemma DeliveryAgrees(s: Setup, m: M.Counters, t: Totals, len: nat, peak: nat, latency: U64,
                       e2e: U64, miss: bool, host: nat, gpu: nat)
    requires Agrees(s, m, t) && host == t.bytes + len && gpu == s.ringSlots * s.gpu.slotBytes
    requires peak == if UsesRing(s) then Max(t.ringPeak, 1) else t.ringPeak
    ensures Agrees(s, AfterAccount(AfterKernel(s, AfterArrival(m, len), peak, latency), e2e, miss, host, gpu),
                   AfterTotals(s, t, len, e2e, miss))
  {
    hide M.Summarizes, Recoveries;
    RecoveriesGrow(t.gaps, t.late, t.full);
    DeliverySummarizes(s, m, t.latencies, len, peak, latency, e2e, miss, host, gpu);
  }

  /** The traces before a packet, and the stages the packet has gone through. */
  datatype Trail = Trail(before: seq<Tr.PacketTrace>, p: Packet, stages: seq<Tr.StageStamp>) {
    function Shown(id: U64): Tr.PacketTrace
      requires stages != []
    {
      Tr.PacketTrace(id, p.stream, p.sequence, if id == 0 then stages[..1] else stages)
    }

    function On(stage: Tr.TraceStage, timeNs: U64): (t: Trail)
      ensures t.stages != []
    {
      this.(stages := stages + [Tr.StageStamp(stage, timeNs)])
    }

    function Then(more: seq<Tr.StageStamp>): Trail { this.(stages := stages + more) }
  }

  class PipelineRun {
    const s: Setup
    const transport: T.SimTransportEngine
    const nic: N.Cx5Nic
    const ring: G.GpuRingBuffer
    const metrics: M.MetricsEngine
    const tracer: Tr.TraceEngine
    var nowNs: U64
    var latencies: seq<U64>
    var bytes: nat
    var packets: nat
    var symbolMiss: nat
    var ringPeak: nat
    var recovery: Option<seq<FaultClass>>
    ghost var delivered: seq<Packet>
    ghost var full: nat
    ghost var drops: nat

    ghost function Outcome(): Summary
      reads this, transport, transport.checker
    {
      Summary(nowNs, transport.checker.next, delivered, transport.latePackets, transport.sequenceGaps,
              latencies, symbolMiss, bytes, full)
    }

    /** The transport carries every stream and has nothing waiting. */
    ghost predicate TransportQuiet()
      reads this, transport, transport.checker
    {
      && transport.Valid() && transport.pol == s.pol && transport.inbox == []
      && transport.link == T.LinkRunning && transport.streams == AllRunning(StreamCount(s))
    }

    ghost predicate NicQuiet()
      reads this, nic
    {
      && nic.Valid() && nic.cfg == s.nic && nic.pending == [] && nic.rxReady == [] && nic.delivered == delivered
    }

    ghost predicate RingQuiet()
      reads this, ring, ring.slots
    {
      && ring.Valid() && ring.cfg == s.gpu && ring.slots.Length == s.ringSlots
      && forall i :: 0 <= i < ring.slots.Length ==> ring.slots[i].state == G.Free
    }

    ghost predicate TracesInOrder()
      reads this, tracer
    {
      tracer.Valid() && tracer.enabled == s.traceEnabled && Tr.AllInOrder(tracer.log)
    }

    ghost function Tally(): Totals
      reads this, transport
    {
      Totals(transport.sequenceGaps, transport.latePackets, symbolMiss, packets, bytes, latencies, full, ringPeak,
             Log(recovery), drops)
    }

    ghost predicate Observed()
      reads this, transport, metrics
    {
      packets == |delivered| && Agrees(s, metrics.m, Tally())
    }

    /** Between two packets every queue is empty and every slot is Free. */
    ghost predicate Quiet()
      reads this, transport, transport.checker, nic, ring, ring.slots, metrics, tracer
    {
      TransportQuiet() && NicQuiet() && RingQuiet() && TracesInOrder() && Observed()
    }

    constructor (s: Setup)
      ensures this.s == s && Idle()
      ensures fresh(transport) && fresh(transport.checker) && fresh(nic) && fresh(ring) && fresh(ring.slots)
      ensures fresh(metrics) && fresh(tracer)
    {
      this.s := s;
      transport := new T.SimTransportEngine(s.pol);
      nic := new N.Cx5Nic(s.nic);
      ring := new G.GpuRingBuffer(s.ringSlots, s.gpu.slotBytes, s.gpu.kernelDelayNs);
      metrics := new M.MetricsEngine();
      tracer := new Tr.TraceEngine(s.traceEnabled, s.traceCapacity);
      nowNs, latencies, bytes, packets, symbolMiss, ringPeak := 0, [], 0, 0, 0, 0;
      recovery := if s.hasRecovery then Some([]) else None;
      delivered, full, drops := [], 0, 0;
    }

    /** Freshly created: nothing has happened and no stream exists. */
    ghost predicate Idle()
      reads this, transport, transport.checker, nic, ring, ring.slots, metrics, tracer
    {
      && transport.Valid() && transport.pol == s.pol && transport.Model() == T.FRESH
      && NicQuiet() && RingQuiet() && tracer.Valid() && tracer.enabled == s.traceEnabled && tracer.log == []
      && metrics.m == M.ZERO && Outcome() == Summary(0, map[], [], 0, 0, [], 0, 0, 0)
      && packets == ringPeak == drops == 0 && recovery == (if s.hasRecovery then Some([]) else None)
    }

    /** Brings the link up, then creates and starts every stream. */
    method Connect()
      requires Idle()
      modifies transport, transport.checker, metrics
      ensures Quiet() && Outcome() == Initial(s) && drops == 0 && tracer.log == []
    {
      hide InitialNext, AllRunning, Recoveries, Log;
      NothingLogged();
      CreateStreams();
      metrics.SetLinkUp(true);
      metrics.SetMemoryBuffers(0, ring.slots.Length * ring.cfg.slotBytes);
    }

    method CreateStreams()
      requires transport.Valid() && transport.pol == s.pol && transport.Model() == T.FRESH
      modifies transport, transport.checker
      ensures transport.Valid()
      ensures transport.Model() == T.FRESH.(
                link := T.LinkRunning, next := InitialNext(s, StreamCount(s)), streams := AllRunning(StreamCount(s)))
    {
      hide T.DoCreate, T.DoSetState;
      transport.SetLink(true);
      for id := 1 to StreamCount(s) + 1
        invariant transport.Valid() && transport.Model() == T.FRESH.(
                    link := T.LinkRunning, next := InitialNext(s, id - 1), streams := AllRunning(id - 1))
      {
        T.StreamUp(s.pol, transport.Model(), id);
        var created := transport.CreateStream(id);
        var started := transport.StartStream(id);
        assert created.Ok?;
      }
    }

    method Recover(fault: FaultClass)
      modifies `recovery
      ensures recovery == Applied(old(recovery), fault)
    {
      match recovery
      case None =>
      case Some(applied) => recovery := Some(applied + [fault]);
    }

    /** Accounts for a gap, expects the packet that revealed it and ingests that packet again. */
    method Resynchronize(p: Packet, got: U64) returns (r: Result<(), T.TransportError>)
      requires transport.Valid()
      modifies transport, transport.checker, metrics, `recovery
      ensures transport.Valid()
      ensures (transport.Model(), r) == T.DoIngest(transport.pol, T.DoRecover(old(transport.Model()), p.stream, got), p)
      ensures metrics.m == old(metrics.m).(gapCount := old(metrics.m.gapCount) + 1)
      ensures recovery == Applied(old(recovery), SequenceGapFault)
    {
      hide T.DoIngest, T.DoRecover;
      Recover(SequenceGapFault);
      transport.RecoverSequence(p.stream, got);
      metrics.RecordSequenceGap();
      r := transport.Ingest(p);
    }

    /** Ingests a packet, resynchronizing once on a gap, and accounts for a late one. */
    method AdmitPacket(p: Packet) returns (a: T.Admission)
      requires TransportQuiet() && Observed() && 1 <= p.stream <= StreamCount(s)
      modifies transport, transport.checker, metrics, `recovery
      ensures Observed() && transport.Valid()
      ensures var e := old(transport.Model()).(nowNs := nowNs); (transport.Model(), a) == T.Settled(s.pol, e, p)
    {
      hide T.DoIngest, T.DoRecover, T.Settled, Agrees, Applied, Log, Recovered;
      LogGrows(recovery, SequenceGapFault);
      LogGrows(recovery, LatePacketFault);
      GapAgrees(s, metrics.m, Tally());
      LateAgrees(s, metrics.m, Tally());
      transport.SetNow(nowNs);
      T.AdmitCases(s.pol, transport.Model(), p);
      var first := transport.Ingest(p);
      match first
      case Ok(_) => return T.Admitted(false);
      case Err(SequenceGap(_, got)) =>
        var second := Resynchronize(p, got);
        match second {
          case Ok(_) => return T.Admitted(true);
          case Err(e) => return T.Refused(e);
        }
      case Err(LatePacket(_, _)) =>
        Recover(LatePacketFault);
        metrics.RecordDeadlineMiss();
        metrics.RecordLatePacket();
        return T.TooLate;
      case Err(e) => return T.Refused(e);
    }

    // ---------- tracing ----------

    /** The log is as it was before the packet in hand, and its trace `id` with the stages of the trail. */
    ghost predicate Tracing(id: U64, trail: Trail)
      reads this, tracer
    {
      && tracer.Valid() && tracer.enabled == s.traceEnabled
      && trail.stages != [] && tracer.log == trail.before + (if tracer.enabled then [trail.Shown(id)] else [])
    }

    method StampNow(id: U64, stage: Tr.TraceStage, ghost trail: Trail)
      requires Tracing(id, trail)
      modifies tracer
      ensures Tracing(id, trail.On(stage, nowNs))
    {
      hide Tr.Stamped, Tr.Window;
      if tracer.enabled {
        Tr.StampNewest(trail.before, trail.Shown(id), stage, nowNs);
        assert trail.On(stage, nowNs).stages[..1] == trail.stages[..1];
      }
      tracer.Stamp(id, stage, nowNs);
    }

    method StartTrace(p: Packet) returns (id: U64)
      requires tracer.Valid() && tracer.enabled == s.traceEnabled
      modifies tracer
      ensures Tracing(id, Trail(old(tracer.log), p, [Tr.StageStamp(Tr.FpgaTx, p.timestamp)]))
      ensures s.traceEnabled ==> id == (|old(tracer.log)| + 1) % TWO_64
    {
      hide Tr.Window;
      id := tracer.Start(p.stream, p.sequence, Tr.FpgaTx, p.timestamp);
      assert [Tr.StageStamp(Tr.FpgaTx, p.timestamp)][..1] == [Tr.StageStamp(Tr.FpgaTx, p.timestamp)];
    }

    // ---------- NIC and ring ----------

    /** Through the NIC's queue, at depth 1 or more: exactly this packet is ready at the new time. */
    method ThroughDma(p: Packet) returns (r: Result<(), BenchError>)
      requires NicQuiet()
      modifies nic, `nowNs
      ensures r.Err? <==> s.nic.rxQueueDepth == 0
      ensures r.Ok? ==>
                && nowNs == HostNs(s, old(nowNs)) && nic.nowNs == nowNs
                && nic.Valid() && nic.pending == [] && nic.rxReady == [p] && nic.delivered == old(nic.delivered)
    {
      hide N.Ripe, N.Unripe, N.Packets, N.Cx5Nic.Conserved, N.Cx5Nic.Timely;
      var t := nowNs;
      N.PollOne(N.PendingRx(SatAdd(t, s.nic.dmaLatencyNs), p), t);
      N.PollOne(N.PendingRx(SatAdd(t, s.nic.dmaLatencyNs), p), SatAdd(t, s.nic.dmaLatencyNs));
      N.PollOne(N.PendingRx(t, p), t);
      N.PacketsOne(N.PendingRx(t, p));
      N.PacketsOne(N.PendingRx(SatAdd(t, s.nic.dmaLatencyNs), p));
      nic.AdvanceTime(nowNs);
      assert forall x: N.PendingRx :: nic.pending + [x] == [x];
      assert nic.rxReady == [];
      if s.profile.includeNicDma {
        var submitted := nic.SubmitRx(p);
        if submitted.Err? {
          return Err(Runtime);
        }
        nowNs := SatAdd(nowNs, nic.cfg.dmaLatencyNs);
        nic.AdvanceTime(nowNs);
      } else {
        var submitted := nic.SubmitRxReadyAt(p, nowNs);
        if submitted.Err? {
          return Err(Runtime);
        }
      }
      return Ok(());
    }

    method ReceiveBurst() returns (out: seq<Packet>)
      requires nic.Valid() && nic.pending == [] && |nic.rxReady| <= 32
      modifies nic
      ensures out == old(nic.rxReady) && nic.Valid() && nic.pending == [] && nic.rxReady == []
      ensures nic.delivered == old(nic.delivered) + out
    {
      hide N.Ripe, N.Unripe, N.Packets, N.Cx5Nic.Conserved, N.Cx5Nic.Timely;
      N.PollOne(N.PendingRx(0, Packet(0, 0, 0, [])), nic.nowNs);
      N.PacketsOne(N.PendingRx(0, Packet(0, 0, 0, [])));
      out := nic.RxBurst(32);
      assert |nic.rxReady| == 0;
      assert out == out + nic.rxReady;
    }

    // What one packet's cycle leaves of an all-Free ring.
    lemma CycleOfFreeRing(slots: seq<G.RingSlot>, data: seq<Byte>, t: U64)
      requires slots != [] && forall i :: 0 <= i < |slots| ==> slots[i].state == G.Free
      ensures G.Target(s.gpu, slots, G.BeginReceive(t)) == Ok(0) && G.Count(slots, G.Free) == |slots|
      ensures var (slots', r) := G.Process(s.gpu, slots, data, t);
        && r == (if |data| > s.gpu.slotBytes then Err(G.PayloadTooLarge) else Ok(SatSub(SatAdd(t, s.gpu.kernelDelayNs), t)))
        && (r.Ok? ==> |slots'| == |slots| && forall i :: 0 <= i < |slots| ==> slots'[i].state == G.Free)
    {
      G.ProcessExactly(s.gpu, slots, data, t);
      G.FirstUnique(slots, G.Free, 0);
      G.AllFree(slots);
    }

    /** The ring calls of one payload: the kernel latency, nothing without a kernel or without slots,
        or an error for a payload larger than a slot. */
    method RunKernel(data: seq<Byte>) returns (r: Result<U64, BenchError>)
      requires RingQuiet()
      modifies ring.slots, `ringPeak, `recovery, `full, metrics
      ensures r == if UsesRing(s) && |data| > s.gpu.slotBytes then Err(Runtime) else Ok(KernelNs(s, nowNs))
      ensures r.Ok? ==> RingQuiet()
      ensures full == old(full) + (if Loses(s) then 1 else 0)
      ensures ringPeak == if UsesRing(s) then Max(old(ringPeak), 1) else old(ringPeak)
      ensures recovery == old(if Loses(s) then Applied(recovery, BufferOverflow) else recovery)
      ensures r.Ok? ==> metrics.m == AfterKernel(s, old(metrics.m), ringPeak, r.value)
    {
      if !s.profile.includeGpuKernel {
        return Ok(0);
      }
      hide G.WellFormed, G.First, G.Count, G.Process;
      if ring.slots.Length > 0 {
        CycleOfFreeRing(ring.slots[..], data, nowNs);
      }
      ghost var before := ring.slots[..];
      var begun := ring.BeginReceiveSlot(nowNs);
      match begun
      case Ok(idx) =>
        r := UseSlot(idx, data, before);
      case Err(RingFull) =>
        metrics.RecordBufferFull();
        Recover(BufferOverflow);
        full := full + 1;
        return Ok(0);
      case Err(_) =>
        return Err(Runtime);
    }

    /** The rest of a payload's cycle once a slot is being received into. */
    method UseSlot(idx: nat, data: seq<Byte>, ghost before: seq<G.RingSlot>) returns (r: Result<U64, BenchError>)
      requires ring.Valid() && ring.cfg == s.gpu && ring.slots.Length == s.ringSlots == |before| > 0
      requires forall i :: 0 <= i < |before| ==> before[i].state == G.Free
      requires G.Target(s.gpu, before, G.BeginReceive(nowNs)) == Ok(idx)
      requires ring.slots[..] == G.After(s.gpu, before, G.BeginReceive(nowNs))
      modifies ring.slots, `ringPeak, metrics
      ensures r == if |data| > s.gpu.slotBytes then Err(Runtime) else Ok(SatSub(SatAdd(nowNs, s.gpu.kernelDelayNs), nowNs))
      ensures r.Ok? ==> RingQuiet()
      ensures ringPeak == Max(old(ringPeak), 1)
      ensures var m := old(metrics.m);
        r.Ok? ==> metrics.m == m.(ringOccupancy := ringPeak, kernelLatencyNs := r.value,
                                  kernelExecutions := m.kernelExecutions + 1)
    {
      hide G.WellFormed, G.First, G.Count, G.Process;
      CycleOfFreeRing(before, data, nowNs);
      G.CountUpdate(before, 0, G.RingSlot(G.Receiving, [], nowNs, 0), G.Free);
      var occupied := ring.Occupied();
      ringPeak := Max(ringPeak, occupied);
      metrics.SetRingOccupancy(ringPeak);
      var latency := FinishSlot(idx, data, before);
      if latency.Err? {
        return Err(Runtime);
      }
      metrics.RecordKernelNs(latency.value);
      return Ok(latency.value);
    }

    /** The ring calls after reception began, on a ring that was all Free `before`. */
    method FinishSlot(idx: nat, data: seq<Byte>, ghost before: seq<G.RingSlot>) returns (r: Result<U64, G.GpuError>)
      requires ring.Valid() && ring.cfg == s.gpu
      requires G.Target(s.gpu, before, G.BeginReceive(nowNs)) == Ok(idx)
      requires ring.slots[..] == G.After(s.gpu, before, G.BeginReceive(nowNs))
      modifies ring.slots
      ensures ring.Valid() && (ring.slots[..], r) == G.Process(s.gpu, before, data, nowNs)
    {
      hide G.Target, G.Moved, G.WellFormed;
      var received := ring.CompleteReceiveSlot(idx, data);
      if received.Err? {
        return Err(received.error);
      }
      var started := ring.BeginProcessSlot(nowNs);
      if started.Err? {
        return Err(started.error);
      }
      var (busy, doneAt) := started.value;
      r := ring.CompleteProcessSlot(busy, doneAt);
      if r.Err? {
        return;
      }
      var released := ring.ReleaseSlot(busy);
      if released.Err? {
        return Err(released.error);
      }
    }

    // ---------- one packet ----------

    /** Books a delivered packet whose cycle ended now. */
    method Account(d: Packet)
      modifies metrics, `latencies, `symbolMiss, `bytes, `packets, `delivered
      ensures var e2e := SatSub(nowNs, d.timestamp);
        var miss := e2e > s.profile.latencyBudgetNs;
        && latencies == old(latencies) + [e2e] && symbolMiss == old(symbolMiss) + (if miss then 1 else 0)
        && bytes == old(bytes) + |d.payload| && packets == old(packets) + 1 && delivered == old(delivered) + [d]
        && metrics.m == AfterAccount(old(metrics.m), e2e, miss, bytes, ring.slots.Length * ring.cfg.slotBytes)
    {
      var e2e := SatSub(nowNs, d.timestamp);
      latencies := latencies + [e2e];
      metrics.RecordLatencySample(e2e);
      metrics.RecordSymbol();
      metrics.SetMemoryBuffers(bytes + |d.payload|, ring.slots.Length * ring.cfg.slotBytes);
      if e2e > s.profile.latencyBudgetNs {
        symbolMiss := symbolMiss + 1;
        metrics.RecordDeadlineMiss();
      }
      bytes := bytes + |d.payload|;
      packets := packets + 1;
      metrics.RecordTx();
      delivered := delivered + [d];
    }

    /** From the host to the end of the kernel, for one packet out of the NIC. */
    method DeliverOne(d: Packet, id: U64, ghost trail: Trail) returns (r: Result<(), BenchError>)
      requires RingQuiet() && Observed() && Tracing(id, trail)
      modifies ring.slots, metrics, tracer, `nowNs, `latencies, `symbolMiss, `bytes, `packets, `delivered,
               `ringPeak, `recovery, `full
      ensures r.Err? <==> UsesRing(s) && |d.payload| > s.gpu.slotBytes
      ensures r.Ok? ==>
                var e2e := SatSub(nowNs, d.timestamp);
                && RingQuiet() && Observed() && Tracing(id, trail.Then(KernelStages(old(nowNs), nowNs)))
                && nowNs == DoneNs(s, old(nowNs)) && latencies == old(latencies) + [e2e]
                && symbolMiss == old(symbolMiss) + (if e2e > s.profile.latencyBudgetNs then 1 else 0)
                && bytes == old(bytes) + |d.payload| && delivered == old(delivered) + [d]
                && full == old(full) + (if Loses(s) then 1 else 0)
    {
      hide M.Summarizes, AfterArrival, AfterKernel, AfterAccount, Applied, Log, Recovered, Recoveries;
      ghost var m, t := metrics.m, Tally();
      LogGrows(recovery, BufferOverflow);
      r := ReachKernelEnd(d, id, trail);
      if r.Err? {
        return;
      }
      ghost var peak, latency := ringPeak, KernelNs(s, old(nowNs));
      Account(d);
      ghost var e2e := SatSub(nowNs, d.timestamp);
      ghost var miss := e2e > s.profile.latencyBudgetNs;
      DeliveryAgrees(s, m, t, |d.payload|, peak, latency, e2e, miss, bytes, ring.slots.Length * ring.cfg.slotBytes);
      assert Tally() == AfterTotals(s, t, |d.payload|, e2e, miss);
    }

    method ReachKernelEnd(d: Packet, id: U64, ghost trail: Trail) returns (r: Result<(), BenchError>)
      requires RingQuiet() && Tracing(id, trail)
      modifies ring.slots, metrics, tracer, `nowNs, `ringPeak, `recovery, `full
      ensures r.Err? <==> UsesRing(s) && |d.payload| > s.gpu.slotBytes
      ensures r.Ok? ==> RingQuiet() && Tracing(id, trail.Then(KernelStages(old(nowNs), nowNs))) && nowNs == DoneNs(s, old(nowNs))
      ensures r.Ok? ==>
                metrics.m == AfterKernel(s, AfterArrival(old(metrics.m), |d.payload|), ringPeak, KernelNs(s, old(nowNs)))
      ensures full == old(full) + (if Loses(s) then 1 else 0)
      ensures ringPeak == if UsesRing(s) then Max(old(ringPeak), 1) else old(ringPeak)
      ensures recovery == old(if Loses(s) then Applied(recovery, BufferOverflow) else recovery)
    {
      hide Tr.Window, KernelNs, G.WellFormed, AfterKernel, UsesRing, Loses;
      metrics.RecordRx();
      metrics.RecordRxBytes(|d.payload|);
      StampNow(id, Tr.HostReady, trail);
      ghost var ready := trail.On(Tr.HostReady, nowNs);
      StampNow(id, Tr.GpuEnqueue, ready);
      var kernel := RunKernel(d.payload);
      if kernel.Err? {
        return Err(Runtime);
      }
      ghost var queued := ready.On(Tr.GpuEnqueue, nowNs);
      nowNs := SatAdd(nowNs, SatAdd(kernel.value, FI.KernelDelay(s.faults)));
      StampNow(id, Tr.CudaDone, queued);
      assert queued.On(Tr.CudaDone, nowNs).stages == trail.Then(KernelStages(old(nowNs), nowNs)).stages;
      return Ok(());
    }

    /** Delivers a burst, which on a quiet pipeline is a single packet. */
    method DeliverBurst(out: seq<Packet>, id: U64, ghost d: Packet, ghost trail: Trail) returns (r: Result<(), BenchError>)
      requires RingQuiet() && Observed() && Tracing(id, trail) && out == [d]
      modifies ring.slots, metrics, tracer, `nowNs, `latencies, `symbolMiss, `bytes, `packets, `delivered,
               `ringPeak, `recovery, `full
      ensures r.Err? <==> UsesRing(s) && |d.payload| > s.gpu.slotBytes
      ensures r.Ok? ==>
                var e2e := SatSub(nowNs, d.timestamp);
                && RingQuiet() && Observed() && Tracing(id, trail.Then(KernelStages(old(nowNs), nowNs)))
                && nowNs == DoneNs(s, old(nowNs)) && latencies == old(latencies) + [e2e]
                && symbolMiss == old(symbolMiss) + (if e2e > s.profile.latencyBudgetNs then 1 else 0)
                && bytes == old(bytes) + |d.payload| && delivered == old(delivered) + [d]
                && full == old(full) + (if Loses(s) then 1 else 0)
    {
      for i := 0 to |out|
        invariant RingQuiet() && Observed()
        invariant Tracing(id, if i == 0 then trail else trail.Then(KernelStages(old(nowNs), nowNs)))
        invariant i == 0 ==>
                    && nowNs == old(nowNs) && latencies == old(latencies) && symbolMiss == old(symbolMiss)
                    && bytes == old(bytes) && delivered == old(delivered) && full == old(full)
        invariant i == 1 ==>
                    var e2e := SatSub(nowNs, d.timestamp);
                    && nowNs == DoneNs(s, old(nowNs)) && latencies == old(latencies) + [e2e]
                    && symbolMiss == old(symbolMiss) + (if e2e > s.profile.latencyBudgetNs then 1 else 0)
                    && bytes == old(bytes) + |d.payload| && delivered == old(delivered) + [d]
                    && full == old(full) + (if Loses(s) then 1 else 0)
                    && !(UsesRing(s) && |d.payload| > s.gpu.slotBytes)
      {
        hide DoneNs, UsesRing, Loses, Agrees, G.WellFormed, Tr.Window, KernelStages;
        var one := DeliverOne(out[i], id, trail);
        if one.Err? {
          return one;
        }
      }
      return Ok(());
    }

    /** From the transport to the end of the kernel. */
    method Deliver(p: Packet, id: U64, ghost trail: Trail) returns (r: Result<(), BenchError>)
      requires NicQuiet() && RingQuiet() && Observed() && Tracing(id, trail)
      modifies nic, ring.slots, metrics, tracer, `nowNs, `latencies, `symbolMiss, `bytes, `packets, `delivered,
               `ringPeak, `recovery, `full
      ensures r.Err? <==> s.nic.rxQueueDepth == 0 || (UsesRing(s) && |p.payload| > s.gpu.slotBytes)
      ensures r.Ok? ==>
                var e2e := SatSub(nowNs, p.timestamp);
                && NicQuiet() && RingQuiet() && Observed()
                && Tracing(id, trail.Then(HostStages(HostNs(s, old(nowNs)), nowNs)))
                && nowNs == DoneNs(s, HostNs(s, old(nowNs))) && latencies == old(latencies) + [e2e]
                && symbolMiss == old(symbolMiss) + (if e2e > s.profile.latencyBudgetNs then 1 else 0)
                && bytes == old(bytes) + |p.payload| && delivered == old(delivered) + [p]
                && full == old(full) + (if Loses(s) then 1 else 0)
    {
      hide DoneNs, UsesRing, Loses, Agrees, G.WellFormed, Tr.Window, KernelStages,
           N.Cx5Nic.Conserved, N.Cx5Nic.Timely;
      var through := ThroughDma(p);
      if through.Err? {
        return through;
      }
      StampNow(id, Tr.Cx5Rx, trail);
      StampNow(id, Tr.DmaDone, trail.On(Tr.Cx5Rx, nowNs));
      ghost var done := trail.On(Tr.Cx5Rx, nowNs).On(Tr.DmaDone, nowNs);
      ghost var host := nowNs;
      var out := ReceiveBurst();
      r := DeliverBurst(out, id, p, done);
      assert done.Then(KernelStages(host, nowNs)).stages == trail.Then(HostStages(host, nowNs)).stages;
    }

    /** Through ingest and receive: the packet itself, or nothing when it is late. */
    method Arrive(p: Packet) returns (r: Result<Option<Packet>, BenchError>)
      requires TransportQuiet() && Observed() && 1 <= p.stream <= StreamCount(s)
      modifies transport, transport.checker, metrics, `recovery
      ensures TransportQuiet() && Observed()
      ensures r == Ok(if T.IsLate(s.pol, p, nowNs) then None else Some(p))
      ensures T.IsLate(s.pol, p, nowNs) ==>
                && transport.checker.next == old(transport.checker.next)
                && transport.sequenceGaps == old(transport.sequenceGaps)
                && transport.latePackets == old(transport.latePackets) + 1
      ensures !T.IsLate(s.pol, p, nowNs) ==>
                && transport.checker.next == old(transport.checker.next)[p.stream := WrapAdd(p.sequence, 1)]
                && transport.sequenceGaps == old(transport.sequenceGaps)
                   + (if p.sequence != old(T.Expected(s.pol, transport.checker.next, p.stream)) then 1 else 0)
                && transport.latePackets == old(transport.latePackets)
    {
      hide Agrees, T.IsLate, WrapAdd, T.Expected;
      var a := AdmitPacket(p);
      match a
      case TooLate => return Ok(None);
      case Refused(_) => return Err(Runtime);
      case Admitted(_) =>
        var received := transport.Receive();
        return Ok(received);
    }

    /** One packet through the whole pipeline. It fails exactly when the packet stops the run;
        otherwise the pipeline is quiet again, the outcome is the simple account's and the packet's
        trace, if tracing is on, shows each stage with its time. */
    method ProcessOne(p: Packet) returns (r: Result<(), BenchError>)
      requires Quiet() && 1 <= p.stream <= StreamCount(s)
      modifies this, transport, transport.checker, nic, ring.slots, metrics, tracer
      ensures r.Err? <==> Stops(s, old(nowNs), p)
      ensures r.Ok? ==> Quiet() && Outcome() == Handle(s, old(Outcome()), p)
      ensures r.Ok? ==>
                tracer.log == if s.traceEnabled then
                                old(tracer.log) + [TraceOf(s, old(nowNs), p, (|old(tracer.log)| + 1) % TWO_64)]
                              else old(tracer.log)
      ensures drops == old(drops)
    {
      hide Tr.AllInOrder, Tr.Window, G.WellFormed, Agrees, DoneNs, HostNs, AllRunning, UsesRing, Loses,
           ArriveNs, T.IsLate, T.Expected, N.Cx5Nic.Conserved, N.Cx5Nic.Timely, HostStages, Tr.StagesInOrder;
      ghost var before := tracer.log;
      var id := StartTrace(p);
      ghost var t0 := nowNs;
      EnterWire(p);
      ghost var started := Trail(before, p, [Tr.StageStamp(Tr.FpgaTx, p.timestamp)]);
      StampNow(id, Tr.WireDepart, started);
      ghost var trail := started.On(Tr.WireDepart, nowNs);
      assert trail.stages == [Tr.StageStamp(Tr.FpgaTx, p.timestamp), Tr.StageStamp(Tr.WireDepart, nowNs)];
      TraceInOrder(s, t0, p, id);
      Tr.OneMoreInOrder(before, TraceOf(s, t0, p, id));
      var arrived := Arrive(p);
      match arrived
      case Err(e) => return Err(e);
      case Ok(None) => return Ok(());
      case Ok(Some(packet)) => r := Deliver(packet, id, trail);
    }

    method EnterWire(p: Packet)
      modifies `nowNs
      ensures nowNs == ArriveNs(s, old(nowNs), p)
    {
      var wire := if s.profile.includeEthernetDelay then SatAdd(s.eth.serializeNs(|p.payload|), s.eth.wireNs) else 0;
      nowNs := SatAdd(SatAdd(Max(nowNs, p.timestamp), wire), FI.ExtraLatency(s.faults));
    }

    method RecordDrops(n: nat)
      requires Quiet()
      modifies metrics, `drops
      ensures Quiet() && Outcome() == old(Outcome()) && drops == old(drops) + n
    {
      hide Agrees, AllRunning, N.Cx5Nic.Valid, G.GpuRingBuffer.Valid, Tr.TraceEngine.Valid, Tr.AllInOrder;
      for i := 0 to n
        invariant Quiet() && Outcome() == old(Outcome()) && drops == old(drops) + i
      {
        DropAgrees(s, metrics.m, Tally());
        metrics.RecordDrop();
        drops := drops + 1;
      }
    }
  }

  // ---------- what the emulators emit ----------

  /** The packets of symbol `n` from the first `streams` streams, in stream order. */
  function Row(s: Setup, n: nat, streams: nat): (r: seq<Packet>)
    requires streams < TWO_32
    ensures |r| == streams && FI.StreamsWithin(r, streams)
  {
    if streams == 0 then [] else Row(s, n, streams - 1) + [Fpga.Emission(s.timing, s.wave, streams, n)]
  }

  /** The packets of the first `n` symbols of all streams. */
  function Rows(s: Setup, n: nat): (r: seq<Packet>)
    ensures |r| == n * StreamCount(s) && FI.StreamsWithin(r, StreamCount(s))
  {
    if n == 0 then []
    else
      assert n * StreamCount(s) == (n - 1) * StreamCount(s) + StreamCount(s);
      Rows(s, n - 1) + Row(s, n - 1, StreamCount(s))
  }

  class FpgaBank {
    const s: Setup
    const fpgas: seq<Fpga.FpgaEmulator>

    /** The first `i` streams have emitted `n + 1` symbols, the others `n`. */
    ghost predicate At(n: nat, i: nat)
      reads this, fpgas, set f | f in fpgas :: f.scheduler
    {
      && |fpgas| == StreamCount(s)
      && (forall j, k :: 0 <= j < k < |fpgas| ==> fpgas[j] != fpgas[k] && fpgas[j].scheduler != fpgas[k].scheduler)
      && forall j :: 0 <= j < |fpgas| ==>
           && fpgas[j].Valid() && fpgas[j].stream == j + 1
           && fpgas[j].wave == s.wave && fpgas[j].scheduler.timing == s.timing
           && fpgas[j].scheduler.ticks == (if j < i then n + 1 else n)
    }

    constructor (s: Setup)
      ensures At(0, 0) && this.s == s
      ensures forall f :: f in fpgas ==> fresh(f) && fresh(f.scheduler)
    {
      var made: seq<Fpga.FpgaEmulator> := [];
      for j := 0 to StreamCount(s)
        invariant |made| == j
        invariant forall k, l :: 0 <= k < l < |made| ==> made[k] != made[l] && made[k].scheduler != made[l].scheduler
        invariant forall k :: 0 <= k < |made| ==>
                    && fresh(made[k]) && fresh(made[k].scheduler) && made[k].Valid() && made[k].stream == k + 1
                    && made[k].wave == s.wave && made[k].scheduler.timing == s.timing && made[k].scheduler.ticks == 0
      {
        var f := new Fpga.FpgaEmulator(s.timing, s.wave, j + 1);
        made := made + [f];
      }
      this.s := s;
      this.fpgas := made;
    }

    method Emit(n: nat, i: nat) returns (p: Packet)
      requires At(n, i) && i < StreamCount(s)
      modifies fpgas[i], fpgas[i].scheduler
      ensures At(n, i + 1)
      ensures p == Fpga.Emission(s.timing, s.wave, i + 1, n)
    {
      p := fpgas[i].EmitSymbol();
    }

    lemma NextSymbol(n: nat)
      requires At(n, StreamCount(s))
      ensures At(n + 1, 0)
    {
    }
  }
}
