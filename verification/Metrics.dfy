/** The layered counters the data plane maintains, and the running latency statistics. */
module Metrics {
  import opened Types

  datatype Counters = Counters(
    txPackets: nat, rxPackets: nat, rxBytes: U64, gapCount: nat, latePacket: nat, drop: nat,
    latencyMin: U64, latencyMax: U64, latencyLast: U64, latencySum: U64, latencySamples: nat, jitter: U64,
    deadlineMiss: nat, slotDeadlineMiss: nat, symbolReceived: nat, slotReceived: nat, slotProcessed: nat,
    hostUsed: nat, gpuUsed: nat, bufferFull: U64, overflow: U64, ringOccupancy: nat,
    kernelLatencyNs: U64, kernelExecutions: nat, linkUp: bool)

  const ZERO: Counters := Counters(0, 0, 0, 0, 0, 0, 0, 0, 0, 0, 0, 0, 0, 0, 0, 0, 0, 0, 0, 0, 0, 0, 0, 0, false)

  function Sum(s: seq<U64>): nat { if s == [] then 0 else Sum(s[..|s| - 1]) + s[|s| - 1] }

  function Least(s: seq<U64>): (m: U64)
    requires s != []
    ensures m in s && forall x :: x in s ==> m <= x
  {
    if |s| == 1 then s[0]
    else
      assert s == s[..|s| - 1] + [s[|s| - 1]];
      Min(Least(s[..|s| - 1]), s[|s| - 1])
  }

  function Greatest(s: seq<U64>): (m: U64)
    requires s != []
    ensures m in s && forall x :: x in s ==> x <= m
  {
    if |s| == 1 then s[0]
    else
      assert s == s[..|s| - 1] + [s[|s| - 1]];
      Max(Greatest(s[..|s| - 1]), s[|s| - 1])
  }

  function Distance(a: U64, b: U64): U64 { if a <= b then b - a else a - b }

  /** The last distance between two successive samples of which the first is not 0. */
  function JitterOf(samples: seq<U64>): U64 {
    if |samples| <= 1 then 0
    else
      var n := |samples|;
      if samples[n - 2] > 0 then Distance(samples[n - 2], samples[n - 1]) else JitterOf(samples[..n - 1])
  }

  /** The counters summarize these latency samples. */
  predicate Summarizes(m: Counters, samples: seq<U64>) {
    && m.latencySamples == |samples| && m.latencySum == Min(Sum(samples), U64_MAX) && m.jitter == JitterOf(samples)
    && (samples != [] ==>
          && m.latencyMin == Least(samples) && m.latencyMax == Greatest(samples)
          && m.latencyLast == samples[|samples| - 1])
  }

  /** The effect of recording a latency on the counters. */
  function Sampled(m: Counters, ns: U64): Counters {
    var first := m.latencySamples == 0;
    m.(latencyMin := if first then ns else Min(m.latencyMin, ns),
       latencyMax := if first then ns else Max(m.latencyMax, ns),
       jitter := if first || m.latencyLast == 0 then m.jitter
                 else if ns >= m.latencyLast then ns - m.latencyLast else m.latencyLast - ns,
       latencyLast := ns,
       latencySum := SatAdd(m.latencySum, ns),
       latencySamples := m.latencySamples + 1)
  }

  /** Each recorded sample keeps minimum, maximum, last and saturating sum exact. */
  lemma SampleSummarizes(m: Counters, samples: seq<U64>, ns: U64)
    requires Summarizes(m, samples)
    ensures Summarizes(Sampled(m, ns), samples + [ns])
  {
    assert (samples + [ns])[..|samples|] == samples;
  }

  class MetricsEngine {
    var m: Counters

    constructor ()
      ensures m == ZERO
    {
      m := ZERO;
    }

    method RecordRx()
      modifies this
      ensures m == old(m).(rxPackets := old(m.rxPackets) + 1)
    {
      m := m.(rxPackets := m.rxPackets + 1);
    }

    /** Counts the packet again, besides its bytes. */
    method RecordRxBytes(bytes: nat)
      modifies this
      ensures m == old(m).(rxPackets := old(m.rxPackets) + 1, rxBytes := Min(old(m.rxBytes) + bytes, U64_MAX))
    {
      m := m.(rxPackets := m.rxPackets + 1, rxBytes := Min(m.rxBytes + bytes, U64_MAX));
    }

    method RecordTx()
      modifies this
      ensures m == old(m).(txPackets := old(m.txPackets) + 1)
    {
      m := m.(txPackets := m.txPackets + 1);
    }

    method RecordDrop()
      modifies this
      ensures m == old(m).(drop := old(m.drop) + 1)
    {
      m := m.(drop := m.drop + 1);
    }

    method RecordSequenceGap()
      modifies this
      ensures m == old(m).(gapCount := old(m.gapCount) + 1)
    {
      m := m.(gapCount := m.gapCount + 1);
    }

    method RecordLatePacket()
      modifies this
      ensures m == old(m).(latePacket := old(m.latePacket) + 1)
    {
      m := m.(latePacket := m.latePacket + 1);
    }

    method RecordDeadlineMiss()
      modifies this
      ensures m == old(m).(deadlineMiss := old(m.deadlineMiss) + 1, slotDeadlineMiss := old(m.slotDeadlineMiss) + 1)
    {
      m := m.(deadlineMiss := m.deadlineMiss + 1, slotDeadlineMiss := m.slotDeadlineMiss + 1);
    }

    method RecordSymbol()
      modifies this
      ensures m == old(m).(symbolReceived := old(m.symbolReceived) + 1,
                           slotReceived := old(m.slotReceived) + 1, slotProcessed := old(m.slotProcessed) + 1)
    {
      m := m.(symbolReceived := m.symbolReceived + 1, slotReceived := m.slotReceived + 1,
              slotProcessed := m.slotProcessed + 1);
    }

    method RecordKernelNs(ns: U64)
      modifies this
      ensures m == old(m).(kernelLatencyNs := ns, kernelExecutions := old(m.kernelExecutions) + 1)
    {
      m := m.(kernelLatencyNs := ns, kernelExecutions := m.kernelExecutions + 1);
    }

    method RecordBufferFull()
      modifies this
      ensures m == old(m).(bufferFull := SatAdd(old(m.bufferFull), 1), overflow := SatAdd(old(m.overflow), 1))
    {
      m := m.(bufferFull := SatAdd(m.bufferFull, 1), overflow := SatAdd(m.overflow, 1));
    }

    method RecordLatencySample(ns: U64)
      modifies this
      ensures m == Sampled(old(m), ns)
    {
      if m.latencySamples == 0 {
        m := m.(latencyMin := ns, latencyMax := ns);
      } else {
        m := m.(latencyMin := Min(m.latencyMin, ns), latencyMax := Max(m.latencyMax, ns));
        if m.latencyLast > 0 {
          m := m.(jitter := if ns >= m.latencyLast then ns - m.latencyLast else m.latencyLast - ns);
        }
      }
      m := m.(latencyLast := ns, latencySum := SatAdd(m.latencySum, ns), latencySamples := m.latencySamples + 1);
    }

    method SetRingOccupancy(n: nat)
      modifies this
      ensures m == old(m).(ringOccupancy := n)
    {
      m := m.(ringOccupancy := n);
    }

    method SetMemoryBuffers(host: nat, gpu: nat)
      modifies this
      ensures m == old(m).(hostUsed := host, gpuUsed := gpu)
    {
      m := m.(hostUsed := host, gpuUsed := gpu);
    }

    method SetLinkUp(up: bool)
      modifies this
      ensures m == old(m).(linkUp := up)
    {
      m := m.(linkUp := up);
    }
  }
}
