/** The bounded ring of packet traces, as a window on an unbounded log. */
module Trace {
  import opened Types

  datatype TraceStage = FpgaTx | WireDepart | Cx5Rx | DmaDone | HostReady | GpuEnqueue | CudaStart | CudaDone

  datatype StageStamp = StageStamp(stage: TraceStage, timeNs: U64)

  datatype PacketTrace = PacketTrace(traceId: U64, stream: U32, sequence: U64, stages: seq<StageStamp>)

  /** One past the newest trace with that id; 0 if there is none. */
  function NewestWith(log: seq<PacketTrace>, id: U64): (n: nat)
    ensures n <= |log| && (n > 0 ==> log[n - 1].traceId == id)
    ensures forall k :: n <= k < |log| ==> log[k].traceId != id
  {
    if log == [] then 0
    else if log[|log| - 1].traceId == id then |log|
    else NewestWith(log[..|log| - 1], id)
  }

  function WithStage(t: PacketTrace, stage: TraceStage, timeNs: U64): PacketTrace {
    t.(stages := t.stages + [StageStamp(stage, timeNs)])
  }

  /** The log after stamping: the newest trace with that id gains a stage, evicted or not. Id 0 is none. */
  function Stamped(log: seq<PacketTrace>, id: U64, stage: TraceStage, timeNs: U64): (log': seq<PacketTrace>)
    ensures |log'| == |log|
  {
    var n := NewestWith(log, id);
    if id == 0 || n == 0 then log else log[n - 1 := WithStage(log[n - 1], stage, timeNs)]
  }

  /** Ids count the log from 1, modulo 2^64. */
  predicate Numbered(log: seq<PacketTrace>) {
    forall i :: 0 <= i < |log| ==> log[i].traceId == (i + 1) % TWO_64
  }

  /** `window` is the newest part of the log. */
  predicate Window(window: seq<PacketTrace>, log: seq<PacketTrace>) {
    |window| <= |log| && window == log[|log| - |window|..]
  }

  lemma WindowAppend(window: seq<PacketTrace>, log: seq<PacketTrace>, capacity: nat, trace: PacketTrace)
    requires Window(window, log) && 0 < capacity
    ensures Window((if |window| >= capacity && |window| > 0 then window[1..] else window) + [trace], log + [trace])
  {
  }

  /** Searching the window from the back and stamping what is found keeps it on the stamped log. If
      nothing is found, the newest trace with that id has been evicted, if there ever was one. */
  lemma WindowStamp(window: seq<PacketTrace>, log: seq<PacketTrace>, i: nat, id: U64, stage: TraceStage, timeNs: U64)
    requires Window(window, log) && id > 0
    requires i <= |window| && (forall k :: i <= k < |window| ==> window[k].traceId != id)
    requires i > 0 ==> window[i - 1].traceId == id
    ensures Window(if i > 0 then window[i - 1 := WithStage(window[i - 1], stage, timeNs)] else window,
                   Stamped(log, id, stage, timeNs))
  {
    hide NewestWith, WithStage;
    var base, n := |log| - |window|, NewestWith(log, id);
    assert forall k :: base <= k < |log| ==> log[k] == window[k - base];
    if i > 0 {
      assert log[base + i - 1].traceId == id;
      assert n == base + i;
    } else {
      assert n <= base;
    }
    var log' := Stamped(log, id, stage, timeNs);
    assert forall k :: base <= k < |log| && k != n - 1 ==> log'[k] == log[k];
  }

  predicate StagesInOrder(t: PacketTrace) {
    forall i, j :: 0 <= i < j < |t.stages| ==> t.stages[i].timeNs <= t.stages[j].timeNs
  }

  predicate AllInOrder(log: seq<PacketTrace>) {
    forall i :: 0 <= i < |log| ==> StagesInOrder(log[i])
  }

  /** Stamping the newest trace by its id adds the stage at its end. */
  lemma StampNewest(before: seq<PacketTrace>, t: PacketTrace, stage: TraceStage, timeNs: U64)
    ensures Stamped(before + [t], t.traceId, stage, timeNs)
         == before + [if t.traceId == 0 then t else t.(stages := t.stages + [StageStamp(stage, timeNs)])]
  {
    var log := before + [t];
    assert NewestWith(log, t.traceId) == |log|;
  }

  lemma OneMoreInOrder(log: seq<PacketTrace>, t: PacketTrace)
    requires AllInOrder(log) && StagesInOrder(t)
    ensures AllInOrder(log + [t])
  {
  }

  class TraceEngine {
    const capacity: nat
    const enabled: bool
    var traces: seq<PacketTrace>
    var nextId: U64
    var dropped: nat
    ghost var log: seq<PacketTrace>  // every trace ever started, with all its stamps

    /** The ring holds the newest entries of the log, up to its capacity; the others were dropped. */
    ghost predicate Valid()
      reads this
    {
      && capacity > 0 && nextId == (|log| + 1) % TWO_64
      && |traces| == Min(|log|, capacity) && dropped + |traces| == |log|
      && Window(traces, log) && Numbered(log)
    }

    constructor (enabled: bool, capacity: nat)
      ensures Valid() && this.enabled == enabled && this.capacity == Max(capacity, 1) && log == []
    {
      this.capacity := Max(capacity, 1);
      this.enabled := enabled;
      traces, nextId, dropped := [], 1, 0;
      log := [];
    }

    method Start(stream: U32, sequence: U64, first: TraceStage, timeNs: U64) returns (id: U64)
      requires Valid()
      modifies this
      ensures Valid()
      ensures !enabled ==> id == 0 && log == old(log)
      ensures enabled ==>
                && id == (|old(log)| + 1) % TWO_64
                && log == old(log) + [PacketTrace(id, stream, sequence, [StageStamp(first, timeNs)])]
    {
      hide Window, WrapAdd;
      WrapNext(|log| + 1);
      if !enabled {
        return 0;
      }
      id := nextId;
      nextId := WrapAdd(nextId, 1);
      var trace := PacketTrace(id, stream, sequence, [StageStamp(first, timeNs)]);
      WindowAppend(traces, log, capacity, trace);
      if |traces| >= capacity {
        traces := traces[1..];
        dropped := dropped + 1;
      }
      traces := traces + [trace];
      log := log + [trace];
    }

    method Stamp(id: U64, stage: TraceStage, timeNs: U64)
      requires Valid()
      modifies this
      ensures Valid()
      ensures log == if enabled then Stamped(old(log), id, stage, timeNs) else old(log)
    {
      hide Window;
      if !enabled || id == 0 {
        return;
      }
      var i := |traces|;
      while i > 0 && traces[i - 1].traceId != id
        invariant 0 <= i <= |traces|
        invariant forall k :: i <= k < |traces| ==> traces[k].traceId != id
      {
        i := i - 1;
      }
      WindowStamp(traces, log, i, id, stage, timeNs);
      log := Stamped(log, id, stage, timeNs);
      if i > 0 {
        traces := traces[i - 1 := WithStage(traces[i - 1], stage, timeNs)];
      }
    }
  }
}
