# Verified model of the packet data plane

This project models the data plane of the repository in Dafny and proves what it promises: the
shared-memory packet ring between two processes, the frame codec it carries, the radio clock and
packet emission, the fault injector, the transport's sequence and deadline checking with recovery,
the NIC's DMA queue, the GPU slot ring, pooled memory, packet traces and counters, and the
end-to-end bench run that composes them.

`dafny verify dfyconfig.toml` checks everything. Code that changes state in place is modelled by
classes and arrays whose methods are proved against functions on values; the properties of whole
runs are lemmas about those functions.

## How it is organised

| module | models |
|---|---|
| `Types`, `Arithmetic` | machine integers with saturating and wrapping arithmetic, `Packet`, division facts |
| `Protocol` | the 32-byte little-endian header and the frame codec |
| `ShmMachine` | `try_push` and `try_pop` as two programs on one memory, one atomic load or store, or one payload byte, per step; the invariant of every interleaving |
| `ShmFifo` | what every interleaving guarantees: refinement of a bounded FIFO, one user per slot, wait-freedom, and exactly when the slot-state check of a push is redundant |
| `ShmBytes` | the byte layout of the mapping; the byte-level machine shows exactly the slot-level machine |
| `ShmSend` | `send_packet` as a loop of pushes interleaved with the consumer |
| `ShmRing` | the calls of the ring, the sink and the packet source as code storing into an array |
| `Fpga` | the mixed-radix radio clock, the sequence counter, packet emission |
| `FaultInjection` | loss, mutation and the one-packet reorder buffer |
| `Transport` | stream and link states, `SequenceChecker`, `SimTransportEngine`, recovery |
| `Nic`, `GpuRing`, `Memory`, `Trace`, `Metrics` | the stateful components with their abstraction functions |
| `Pipeline` | the bench's per-packet step, `Simulate` (the simple account of a run), and the invariant between packets |
| `Bench` | the whole run, the report, and what the simple account comes to |

The central results:

* **Ring.** For every schedule of two interleaved programs (`ShmMachine.Run` over an arbitrary
  sequence of calls and steps) each step is a step of a bounded FIFO (`ShmFifo.RingRefinesFifo`):
  a push and a pop take effect at their position stores, `RingFull` by the position check and
  `None` occur only when the queue is full or empty at that moment, and no pop ever fails to decode.
  This holds for every slot count that `open` admits, also when the 64-bit positions wrap. What
  does depend on the slot count is the second check of `try_push`: the slot index jumps where the
  position wraps, so the slot-state check can refuse a push although the queue has room. It never
  does if and only if the slot count divides 2^64 (`ShmFifo.SlotCheckRedundantIff`).
* **Bytes.** Slot regions are disjoint and inside the mapping, and every byte-level run shows the
  slot-level run of the same schedule (`ShmBytes.BytesRefineSlots`), so each step on the mapped
  bytes is a step of the FIFO (`ShmBytes.BytesRefineFifo`).
* **Bench.** `Bench.PipelineBench.Run` fails exactly when its configuration is blocked (the NIC has
  depth 0, or a symbol's payload exceeds a ring slot) and some packet arrives in time; otherwise its
  report equals the fold `Simulate` over the emissions as the injector passes them on. `Simulate` does not mention the queues, the ring slots
  or reordering. About it: every emitted packet is delivered, late or dropped
  (`Bench.ReportConserves`); the gap counter is the number of delivered packets that do not
  continue their stream (`Bench.GapsAreJumps`); reordering is irrelevant
  (`Bench.ReorderingIrrelevant`); and a configuration whose path fits the symbol time and the
  deadlines never has a late packet (`Bench.ScheduleMeetsDeadlines`).
* **Invariant between packets.** `Pipeline.PipelineRun.Quiet`: inbox, pending and ready queues are
  empty, all slots are Free, traces are in time order and every counter agrees with the run.
  `ProcessOne` keeps it.

## Where code and documentation differ, or a promise has a condition

The model follows the code.

* `begin_process` is documented to take the oldest Ready slot and takes the lowest-indexed one
  (crates/gpu-runtime/src/ring.rs:132-136). Over all runs with packets arriving in time order it takes
  the oldest if and only if the ring has at most one slot (`GpuRing.TakesOldestIff`); for two slots
  or more `GpuRing.NewestFirst` is a run in which it does not.
* A payload too large for its slot leaves the slot in Receiving
  (crates/gpu-runtime/src/ring.rs:178-185). A caller of `process_packet` alone never gets it back:
  the ring is full for good once as many oversized packets as slots have been tried, and not before
  (`GpuRing.OversizedCostSlots`).
* `encode_frame` truncates a payload length to 32 bits (crates/aether-protocol/src/lib.rs:105-116);
  the codec round-trips exactly for payloads shorter than 2^32 bytes (`Protocol.FrameRoundTrip`).
* The two reserved header bytes are ignored when decoding, so a frame has 65,536 accepted images
  (`Protocol.DecodeAcceptsExactly`).
* `recover_sequence` records an expectation for a stream that does not exist. The expected streams
  are therefore only a superset of the existing ones (`Transport.StreamsAreExpected`), and the same
  ones exactly while no unknown stream is recovered (`Transport.ExpectedAreStreamsIff`).
* `recover_sequence` can also take an expectation back, and a sequence is then accepted twice
  (`Transport.RecoveryRepeats`); so can the wrap at the last sequence (`Transport.IncreaseFailsAtWrap`)
  and destroying a stream. A stream expects more than all it has accepted exactly while no call
  rewinds it in one of these ways (`Transport.AcceptedIncrease`); without recovery, destroying and
  reordering, sequences increase exactly as long as they fit below 2^64 (`Transport.IncreaseIffFits`),
  and modulo 2^64 they are always consecutive (`Transport.AcceptedAreConsecutive`).
* `record_rx` and `record_rx_bytes` both count the packet, so `rx_packets` is twice the number of
  deliveries (`Bench.Reports`).
* The saturating pool check decides as the exact sum does if and only if the pool is smaller than
  the largest `usize` (`Memory.PoolCheckExactIff`); at that limit the addition after it can overflow,
  and `Memory.PooledMemory.Allocate` requires that it does not.

## Model

| member | source | states |
|---|---|---|
| Protocol.LeBytesAt | crates/aether-protocol/src/lib.rs:42-52 | byte i of a number is its digit of weight 256^i: the least significant byte comes first |
| Protocol.LeValueOfBytes | crates/aether-protocol/src/lib.rs:42-78 | those bytes give back every number that fits them |
| Protocol.EncodeHeader | crates/aether-protocol/src/lib.rs:42-52 | magic, version, stream, timestamp, sequence and length stand at bytes 0, 4, 8, 12, 20 and 28, least significant byte first; bytes 6 and 7 are zero |
| Protocol.RawHeaderInverse | crates/aether-protocol/src/lib.rs:55-78 | 32 bytes parse to a header if and only if they are its image up to the two reserved bytes |
| Protocol.FrameOnTheWire | crates/aether-protocol/src/lib.rs:105-116 | a frame begins with 52 48 54 41 01 00 00 00; stream, timestamp, sequence and the length modulo 2^32 stand at 8, 12, 20 and 28, the payload from 32 on |
| Protocol.EncodeFrame | crates/aether-protocol/src/lib.rs:105-116 | the bytes built are that frame |
| Protocol.DecodeReadsTheWire | crates/aether-protocol/src/lib.rs:55-90 | any bytes decode to the packet their digits say, or to the first thing wrong with them: too short, another magic, another version, another length, each with its numbers |
| Protocol.DecodeAcceptsExactly | crates/aether-protocol/src/lib.rs:119-134 | bytes decode to a packet if and only if they are its frame up to the reserved bytes and its payload is shorter than 2^32 |
| Protocol.FrameRoundTrip | crates/aether-protocol/src/lib.rs:105-134 | decoding inverts encoding if and only if the payload is shorter than 2^32; otherwise the decoder reports the length mismatch |
| ShmMachine.StepInv | crates/shm-io/src/lib.rs:137-179 | every single load, store or byte copy of either side, and every call, keeps the ring invariant |
| ShmMachine.RunInv | crates/shm-io/src/lib.rs:137-179 | the invariant holds after every interleaving of any length from a fresh ring |
| ShmFifo.RingRefinesFifo | crates/shm-io/src/lib.rs:137-179 | popped followed by queued equals pushed; every step is a step of the FIFO of capacity slot_count; full and empty are reported only when true; a pop never finds its slot unmarked and never fails to decode |
| ShmFifo.MemoryCarriesQueue | crates/shm-io/src/lib.rs:137-179 | each queued packet lies in a slot of its own, marked FULL, and decodes to what was pushed; the positions are the counts modulo 2^64 |
| ShmFifo.SlotsHaveOneUser | crates/shm-io/src/lib.rs:142-175 | the slot being filled is never the slot being read and holds no queued packet; no access leaves the mapping |
| ShmFifo.PushIsWaitFree | crates/shm-io/src/lib.rs:137-159 | each own step brings a push closer to returning and nothing the consumer does sets it back |
| ShmFifo.PopIsWaitFree | crates/shm-io/src/lib.rs:161-179 | the same for a pop against the producer |
| ShmFifo.NoSpuriousFull | crates/shm-io/src/lib.rs:145-150 | with a slot count dividing 2^64, or before 2^64 pushes, the slot-state check refuses no push |
| ShmFifo.SpuriousFullRun | crates/shm-io/src/lib.rs:145-150 | for any other slot count a run in which the slot-state check refuses a push although the queue has room |
| ShmFifo.SlotCheckRedundantIff | crates/shm-io/src/lib.rs:145-150 | the slot-state check never refuses a push in any run if and only if the slot count divides 2^64 |
| ShmBytes.SlotRegions | crates/shm-io/src/lib.rs:117-135 | slot regions are disjoint, follow the header and lie inside the mapping |
| ShmBytes.StoreStaysInside | crates/shm-io/src/lib.rs:109-135 | an operation changes no byte outside its own cell, and never the 16 identifying bytes |
| ShmBytes.OperationShown | crates/shm-io/src/lib.rs:109-135 | each operation does to the bytes exactly what it does to the slots they show and returns the same value |
| ShmBytes.InitShown | crates/shm-io/src/lib.rs:185-198 | the bytes of a fresh ring show the empty ring |
| ShmBytes.BytesRefineSlots | crates/shm-io/src/lib.rs:109-179 | the bytes after any interleaving show exactly the slots of the same interleaving |
| ShmBytes.BytesRefineFifo | crates/shm-io/src/lib.rs:109-179 | each step on the mapped bytes, in every interleaving, is a step of the bounded FIFO, and the bytes hold every queued packet ready to decode |
| ShmBytes.MappingOnTheWire | crates/shm-io/src/lib.rs:109-198 | in every interleaving: the positions modulo 2^64 at bytes 16 and 24; packet k in the slot at 64 + (k mod 2^64 mod slot_count) * (8 + slot_bytes), with its mark 1, the frame length and the frame; all marks 0 when nothing is queued |
| ShmBytes.PrefixOnTheWire | crates/shm-io/src/lib.rs:185-212 | a ring begins with 53 48 4D 31 01 00 00 00, its slot count and its slot size, and only such bytes are its header |
| ShmBytes.ValidateAcceptsExactly | crates/shm-io/src/lib.rs:200-212 | any bytes are accepted for a geometry if and only if they begin with its header; bytes without magic and version are a bad header, others a mismatch |
| ShmBytes.ReopenAcceptsExactly | crates/shm-io/src/lib.rs:200-212 | after any run, reopening is accepted exactly for the geometry the ring was created with |
| ShmRing.InitRing | crates/shm-io/src/lib.rs:185-198 | whatever the mapping held, it becomes the image of an empty ring |
| ShmRing.ShmPacketRing.Open | crates/shm-io/src/lib.rs:63-103 | on any bytes: succeeds exactly for an admitted geometry that is created or whose header the file begins with, with the right error otherwise; creating gives an empty ring, attaching to a ring keeps what is in it |
| ShmRing.ShmPacketRing.TryPush | crates/shm-io/src/lib.rs:137-159 | between calls: refused for size, refused for room with not a byte changed, or appended to the queue |
| ShmRing.ShmPacketRing.TryPop | crates/shm-io/src/lib.rs:161-179 | takes the oldest packet, or nothing exactly when the queue is empty; never an error |
| ShmRing.RoomIsEnough | crates/shm-io/src/lib.rs:142-150 | between calls room in the queue is all a push needs, with a slot count dividing 2^64 or before 2^64 pushes |
| ShmRing.ShmPacketSink.SendPacket | crates/shm-io/src/lib.rs:227-236 | with the consumer at rest the packet is pushed once or not at all |
| ShmSend.SendPushesOnce | crates/shm-io/src/lib.rs:227-236 | in every interleaving with the consumer a send pushes its packet at most once, exactly once if and only if it returns successfully, and reports a full ring only after its last try |
| ShmSend.SendReturns | crates/shm-io/src/lib.rs:227-236 | every own step brings a send closer to returning and the consumer never sets it back |
| ShmRing.ShmPacketIO.PollRx | crates/shm-io/src/lib.rs:258-270 | moves exactly the oldest min(max, queued) packets to the receive buffer, in order |
| ShmRing.ShmPacketIO.RxBurst | crates/shm-io/src/lib.rs:278-282 | delivered, buffered and queued packets together stay the same sequence |
| Fpga.TickCounts | crates/fpga-emulator/src/lib.rs:79-92 | the saturating and wrapping increments step through div/mod radio time without losing a tick |
| Fpga.TimestampGenerator.TickSymbol | crates/fpga-emulator/src/lib.rs:79-92 | tick n since reset returns symbol n mod S, slot n / S mod L, frame n / (S * L) mod 2^32 and min(n * duration, 2^64 - 1) nanoseconds |
| Fpga.TimestampGenerator.Reset | crates/fpga-emulator/src/lib.rs:94-99 | time starts over at tick 0 |
| Fpga.SampleAt | crates/fpga-emulator/src/lib.rs:231-243 | sample k stands at byte 8k of a payload, its I word before its Q word |
| Fpga.FpgaEmulator.EmitSymbol | crates/fpga-emulator/src/lib.rs:231-283 | the n-th packet carries the stream, sequence n modulo 2^64, the time of tick n and the samples of that time in order, I before Q |
| FaultInjection.PushExplained | crates/fault-injection/src/lib.rs:113-153 | a push emits at most two packets and keeps the account of order, holds and counts |
| FaultInjection.FlushedExplained | crates/fault-injection/src/lib.rs:113-159 | a whole run with its flush emits exactly the mutated inputs that are not dropped, each once; only held packets are emitted late, by less than reorder_distance places; all others keep their order |
| FaultInjection.OvertakenByFew | crates/fault-injection/src/lib.rs:124-153 | at most reorder_distance - 1 packets overtake any packet |
| FaultInjection.MutateMeans | crates/fault-injection/src/lib.rs:72-86 | a jump adds to the sequence up to the last one; a skew moves the timestamp by its amount, not below 0; nothing else changes |
| FaultInjection.DroppedIff | crates/fault-injection/src/lib.rs:36-55 | a packet is lost if and only if its sequence after the jump is a multiple of the loss period or lies in the burst |
| FaultInjection.BurstLoses | crates/fault-injection/src/lib.rs:45-159 | of the packets 0 to n - 1 a burst loses exactly those from its start on, min(n, start + length) - min(n, start) of them |
| FaultInjection.PeriodLoses | crates/fault-injection/src/lib.rs:36-159 | of the packets 0 to n - 1 random loss of period p loses exactly the multiples of p, n / p rounded up of them |
| FaultInjection.Conservation | crates/fault-injection/src/lib.rs:113-153 | at every moment emitted and held packets are the surviving inputs as a multiset, and survivors plus dropped are the inputs |
| FaultInjection.ReorderClosedForm | crates/fault-injection/src/lib.rs:124-153 | without drops each block of d + 1 inputs leaves with its first one in place d - 1, and n pushes reorder n / (d + 1) rounded up |
| FaultInjection.EmittedIsPrefix | crates/fault-injection/src/lib.rs:113-159 | what is out after some inputs is a prefix of what the whole run emits |
| FaultInjection.EmittedStreams | crates/fault-injection/src/lib.rs:72-159 | faults never change which streams packets belong to |
| FaultInjection.FaultInjector.PushPacket | crates/fault-injection/src/lib.rs:113-141 | the object follows the run of its inputs |
| FaultInjection.FaultInjector.TickHeld | crates/fault-injection/src/lib.rs:143-153 | releases the held packet when its countdown ends, also from a countdown of 0 |
| FaultInjection.FaultInjector.Flush | crates/fault-injection/src/lib.rs:156-159 | hands out what is held; after the inputs of a run the emissions are then complete |
| Transport.StreamsAreExpected | crates/aether-transport/src/sim.rs:125-179 | after any calls every stream has an expected sequence |
| Transport.IngestOutcome | crates/aether-transport/src/sim.rs:52-79 | every outcome of an ingest with its numbers: what held of link, stream, time and sequence, and all that changed |
| Transport.StreamGoesOnAfterGap | crates/aether-transport/src/check.rs:52-65 | after a gap the stream accepts exactly the packet after the one skipped to, when reordering allows that, and otherwise exactly the one it still wants |
| Transport.CallControls | crates/aether-transport/src/sim.rs:82-211 | what each call does to the existence and running of every stream and to the link; a reset clears queues and counts and nothing else |
| Transport.ControlResults | crates/aether-transport/src/sim.rs:125-179 | creating needs a new stream, starting, stopping and destroying an existing one |
| Transport.UnknownStreamExpected | crates/aether-transport/src/check.rs:76-78 | recovering any stream that does not exist, to any sequence, records an expectation for it |
| Transport.CallKeepsKeysIff | crates/aether-transport/src/sim.rs:52-211 | a call makes the expected streams differ from the existing ones if and only if it recovers a stream that does not exist |
| Transport.ExpectedAreStreamsIff | crates/aether-transport/src/sim.rs:52-211 | over a run exactly the existing streams are expected at every moment if and only if no call recovers an unknown stream |
| Transport.ReceiveIsFifo | crates/aether-transport/src/sim.rs:52-121 | over any calls without reset, received followed by waiting equals accepted |
| Transport.CallExpects | crates/aether-transport/src/check.rs:52-65 | accepting means the sequence was expected; a late packet moves nothing; the expectation goes back if and only if the call ingests the last sequence in time on a carried stream, expecting it or allowed to skip to it |
| Transport.AcceptedAreConsecutive | crates/aether-transport/src/sim.rs:52-79 | without reordering, recovery and destroying, each stream accepts consecutive sequences modulo 2^64 from the start, across stops, link changes and resets |
| Transport.AcceptedIncrease | crates/aether-transport/src/sim.rs:52-211 | over any calls, every stream expects more than all it has accepted, at every moment, if and only if no call rewinds it (by wrapping, by recovering to a sequence already reached, by destroying); the accepted sequences then strictly increase, with or without reordering |
| Transport.IncreaseIffFits | crates/aether-transport/src/sim.rs:52-79 | without reordering, recovery and destroying, accepted sequences strictly increase if and only if no stream accepted more packets than there are sequences from the start to the last |
| Transport.RecoveryRepeats | crates/aether-transport/src/sim.rs:82-88 | recovering a stream to a sequence it has accepted makes it accept the same packet twice |
| Transport.SendKeepsOrder | crates/aether-transport/src/sim.rs:100-113 | over any calls without reset the outbox is what was sent, in order; a send succeeds if and only if link and stream carry it, and never disturbs reception |
| Transport.IncreaseFailsAtWrap | crates/aether-transport/src/check.rs:52-58 | a run on any stream that accepts the last sequence and then 0 |
| Transport.RecoveryNeverFails | crates/aether-transport/src/sim.rs:52-88 | on a running stream, resynchronizing and retrying never fails; every packet in time enters the inbox once, a gap is counted exactly for an unexpected sequence, and reordering makes no difference |
| Transport.SequenceChecker.Check | crates/aether-transport/src/check.rs:52-65 | checks against and updates the expectation as the engine of the run lemmas does |
| Transport.SimTransportEngine.Ingest | crates/aether-transport/src/sim.rs:52-79 | new state and result, in every error case, are those the run lemmas are about |
| Transport.SimTransportEngine.RecoverSequence | crates/aether-transport/src/sim.rs:82-88 | the stream, if it exists, and the link run again from the given sequence |
| Transport.SimTransportEngine.Receive | crates/aether-transport/src/sim.rs:115-121 | hands out the oldest accepted packet |
| Transport.SimTransportEngine.CreateStream | crates/aether-transport/src/sim.rs:125-139 | a new stream expects the start sequence unless it already had an expectation |
| Transport.SimTransportEngine.DestroyStream | crates/aether-transport/src/sim.rs:173-179 | stream and expectation disappear together |
| Transport.SimTransportEngine.ResetLink | crates/aether-transport/src/sim.rs:204-211 | queues and counts are cleared, streams and expectations survive |
| Nic.PollSplits | crates/cx5-emulator/src/lib.rs:117-129 | a poll loses and invents nothing |
| Nic.PollKeepsOrder | crates/cx5-emulator/src/lib.rs:117-129 | completed packets keep their order in the queue, and every due one is completed |
| Nic.PollTakesPrefix | crates/cx5-emulator/src/lib.rs:117-129 | a poll of a queue in ready order completes a prefix of it |
| Nic.Cx5Nic.PollCompletions | crates/cx5-emulator/src/lib.rs:117-129 | exactly the packets whose time has come become ready, in queue order; conservation is kept |
| Nic.Cx5Nic.AdvanceTime | crates/cx5-emulator/src/lib.rs:89-92 | sets the time and completes what is due at it |
| Nic.Cx5Nic.SubmitRx | crates/cx5-emulator/src/lib.rs:99-102 | refused exactly at the queue depth and then without effect; otherwise due after the DMA latency |
| Nic.Cx5Nic.SubmitRxReadyAt | crates/cx5-emulator/src/lib.rs:105-115 | the same with a given ready time |
| Nic.Cx5Nic.RxBurst | crates/cx5-emulator/src/lib.rs:141-145 | delivers the oldest ready packets, up to the limit |
| Nic.Cx5Nic.TxBurst | crates/cx5-emulator/src/lib.rs:147-156 | sends the prefix that fits the transmit queue |
| Nic.Cx5Nic.QueueAccounts | crates/cx5-emulator/src/lib.rs:89-145 | accepted packets are pending, ready or delivered; occupancy never exceeds the depth; nothing is delivered before its ready time |
| Nic.Cx5Nic.DeliveredInOrder | crates/cx5-emulator/src/lib.rs:89-145 | with monotone time and DMA submissions only, delivery order is submission order |
| GpuRing.CallStepsCycle | crates/gpu-runtime/src/ring.rs:80-175 | any call with any index moves at most one slot, one step along the cycle; Free and Receiving slots hold no payload; a payload changes only on completed reception and release |
| GpuRing.CallFinds | crates/gpu-runtime/src/ring.rs:76-175 | each call finds the lowest slot in the state it needs or takes the one it names; each refusal says which state, step or size was wrong |
| GpuRing.CountsSum | crates/gpu-runtime/src/ring.rs:187-189 | the five state counts sum to the slot count |
| GpuRing.ProcessExactly | crates/gpu-runtime/src/ring.rs:178-185 | the whole effect of a packet's cycle: the lowest Free slot is filled and the lowest Ready slot, possibly another, is run and freed |
| GpuRing.ProcessKeepsCounts | crates/gpu-runtime/src/ring.rs:178-185 | a successful cycle leaves every state count unchanged even when it runs another slot |
| GpuRing.NewestFirst | crates/gpu-runtime/src/ring.rs:76-141 | on any ring of two slots or more, a run with packets arriving in time order after which the newest packet is processed before an older one |
| GpuRing.TakesOldestIff | crates/gpu-runtime/src/ring.rs:132-141 | over all runs with packets arriving in time order, the oldest Ready slot is always processed first if and only if the ring has at most one slot |
| GpuRing.OversizedCostSlots | crates/gpu-runtime/src/ring.rs:178-185 | when packets are processed one after the other, each oversized one costs a slot for the rest of the run; the ring refuses the next packet as full if and only if as many oversized ones as slots were tried |
| GpuRing.GpuRingBuffer.FindState | crates/gpu-runtime/src/ring.rs:76-78 | finds the lowest-indexed slot in a state |
| GpuRing.GpuRingBuffer.Transition | crates/gpu-runtime/src/ring.rs:80-97 | accepts exactly the five steps of the cycle |
| GpuRing.GpuRingBuffer.BeginReceiveSlot | crates/gpu-runtime/src/ring.rs:100-110 | takes the lowest Free slot or reports a full ring |
| GpuRing.GpuRingBuffer.CompleteReceiveSlot | crates/gpu-runtime/src/ring.rs:113-130 | stores a payload that fits a receiving slot; each refusal leaves the ring alone |
| GpuRing.GpuRingBuffer.BeginProcessSlot | crates/gpu-runtime/src/ring.rs:133-141 | starts the lowest Ready slot with its completion time |
| GpuRing.GpuRingBuffer.CompleteProcessSlot | crates/gpu-runtime/src/ring.rs:144-159 | ends processing and reports the time since arrival |
| GpuRing.GpuRingBuffer.ReleaseSlot | crates/gpu-runtime/src/ring.rs:162-175 | frees a finished slot and its payload |
| GpuRing.GpuRingBuffer.ProcessPacket | crates/gpu-runtime/src/ring.rs:178-185 | the cycle the lemmas above describe, with its partial effect on error |
| GpuRing.GpuRingBuffer.CountState | crates/gpu-runtime/src/ring.rs:187-189 | counts the slots in a state |
| GpuRing.GpuRingBuffer.Occupied | crates/gpu-runtime/src/ring.rs:192-197 | counts the slots that are not Free |
| Metrics.SampleSummarizes | crates/metrics-engine/src/lib.rs:175-192 | after any samples, minimum, maximum, last, count, saturated sum and jitter are those of the list |
| Metrics.MetricsEngine.RecordLatencySample | crates/metrics-engine/src/lib.rs:175-192 | the in-place updates amount to that step, jitter included |
| Trace.TraceEngine.Start | crates/metrics-engine/src/trace.rs:78-99 | the ring stays the newest part of the log of all traces; evicted and kept traces together are those started |
| Trace.TraceEngine.Stamp | crates/metrics-engine/src/trace.rs:101-113 | the ring shows the log in which every stamp went to the newest trace with its id, evicted traces included, also after ids wrap |
| Trace.WindowAppend | crates/metrics-engine/src/trace.rs:78-99 | evicting the oldest and appending keeps the window on the log |
| Trace.WindowStamp | crates/metrics-engine/src/trace.rs:101-113 | stamping the entry found from the back keeps the window on the stamped log, ids repeating or not; nothing found means the newest such trace was evicted or never existed |
| Trace.StampNewest | crates/metrics-engine/src/trace.rs:101-113 | stamping the newest trace by its id adds the stage at its end and changes no other |
| Pipeline.TraceInOrder | crates/benchmark/src/pipeline.rs:229-384 | stage times within the trace of a packet never decrease |
| Memory.FreedStaysFreed | crates/memory-manager/src/lib.rs:49-97 | over any operations a freed id never becomes valid again and a buffer is unchanged by operations on others |
| Memory.ReadAfterWrites | crates/memory-manager/src/lib.rs:59-86 | over any operations that do not free the buffer, each byte is what the last write covering it stored, or what it was at first; a write that does not fit stores nothing |
| Memory.SimMemory.Allocate | crates/memory-manager/src/lib.rs:49-57 | a fresh id with zeroed bytes |
| Memory.SimMemory.Write | crates/memory-manager/src/lib.rs:59-73 | exactly the addressed bytes change, or an error and nothing does |
| Memory.SimMemory.Read | crates/memory-manager/src/lib.rs:75-86 | the addressed bytes, an unknown id or a range out of bounds, also when the range overflows |
| Memory.SimMemory.Free | crates/memory-manager/src/lib.rs:88-97 | the buffer is gone and its id stays unusable |
| Memory.TotalsUpdate | crates/memory-manager/src/lib.rs:199-250 | replacing one size changes the sum and the live count by exactly its difference |
| Memory.PoolCheckExactIff | crates/memory-manager/src/lib.rs:203-214 | the saturating pool check equals the exact one if and only if the pool is below the largest usize |
| Memory.PooledMemory.SumsFitBelowLimit | crates/memory-manager/src/lib.rs:203-224 | below the largest usize no admitted allocation can overflow its counter |
| Memory.PooledMemory.Allocate | crates/memory-manager/src/lib.rs:199-226 | succeeds exactly with room in the pool and a buffer left; the counters stay the exact sums over live buffers |
| Memory.PooledMemory.Write | crates/memory-manager/src/lib.rs:228-230 | as the inner store, with the accounting untouched |
| Memory.PooledMemory.Read | crates/memory-manager/src/lib.rs:232-234 | as the inner store |
| Memory.PooledMemory.Free | crates/memory-manager/src/lib.rs:236-250 | gives back exactly the buffer's bytes, the saturating subtractions never clipping; a failed call changes nothing |
| Memory.PooledMemory.Copy | crates/memory-manager/src/lib.rs:157-195 | a fresh buffer equal to the source range, all others unchanged; it takes the fixed time plus the transfer time of its direction, none within one kind; the inner write never fails and a refused copy changes nothing |
| Pipeline.InitialNext | crates/benchmark/src/pipeline.rs:176-192 | exactly the streams 1 to n have an expectation, and it is the start sequence |
| Pipeline.PipelineRun.Connect | crates/benchmark/src/pipeline.rs:176-199 | every stream runs, the pipeline is quiet and the account is the initial one |
| Pipeline.PipelineRun.AdmitPacket | crates/benchmark/src/pipeline.rs:241-276 | ingest with recover-and-retry amounts to the settled admission, and the counters still agree |
| Pipeline.PipelineRun.Arrive | crates/benchmark/src/pipeline.rs:241-283 | never fails; a packet is received exactly when it is not late, and it is that packet |
| Pipeline.PipelineRun.ThroughDma | crates/benchmark/src/pipeline.rs:285-295 | at depth 1 or more exactly this packet is ready at the new time, with or without DMA and at a saturated clock |
| Pipeline.PipelineRun.RunKernel | crates/benchmark/src/pipeline.rs:346-379 | on an all-Free ring of any size the kernel takes its delay, is refused only for an oversized payload, and leaves all slots Free; a ring without slots counts an overflow |
| Pipeline.PipelineRun.DeliverOne | crates/benchmark/src/pipeline.rs:298-411 | one delivery moves the clock, books one latency and keeps counters, slots and traces consistent |
| Pipeline.DeliveryAgrees | crates/benchmark/src/pipeline.rs:299-410 | one delivery with all its counter updates keeps counters and run in agreement |
| Pipeline.PipelineRun.ProcessOne | crates/benchmark/src/pipeline.rs:211-413 | fails exactly when the packet stops the run; otherwise the pipeline is quiet again, the outcome is the simple account's and the log has gained the packet's trace |
| Pipeline.PipelineRun.RecordDrops | crates/benchmark/src/pipeline.rs:456-458 | the drop counter gains exactly the injector's drops |
| Pipeline.FpgaBank.Emit | crates/benchmark/src/pipeline.rs:415-418 | symbol n of stream i + 1 is that stream's n-th emission |
| Bench.EveryArrivalCounted | crates/benchmark/src/pipeline.rs:211-413 | every arrival in time is delivered once, in order, with one latency; every other is counted late |
| Bench.ReorderingIrrelevant | crates/benchmark/src/pipeline.rs:241-276 | a run is the same with reordering allowed and not |
| Bench.GapsAreJumps | crates/benchmark/src/pipeline.rs:241-276 | the gap counter is the number of delivered packets that do not continue their stream, the first compared with the start sequence |
| Bench.LatencyBreakdown | crates/benchmark/src/pipeline.rs:230-384 | arrival is the later of clock and timestamp plus serialization, propagation and fault delay, late exactly past the deadline; delivery adds DMA, kernel and fault kernel delay; the latency is the time since the timestamp, a miss exactly past the budget; all in the numbers of the configuration |
| Bench.AccountAddsUp | crates/benchmark/src/pipeline.rs:366-410 | bytes are the delivered payloads, misses the latencies over the budget, overflows the deliveries to a ring without slots |
| Bench.TraceTimes | crates/benchmark/src/pipeline.rs:229-383 | the trace of each arrival names it and times its seven stages, a late one only its first two |
| Bench.EmissionAt | crates/benchmark/src/pipeline.rs:415-418 | emissions come symbol by symbol and within one stream by stream, each with its sequence, time and samples |
| Bench.CleanRun | crates/benchmark/src/pipeline.rs:415-494 | without faults and late packets all symbols of all streams are delivered in order, with no gap when the start is 0 |
| Bench.ScheduleMeetsDeadlines | crates/benchmark/src/pipeline.rs:230-494 | without faults, if the path of all streams together takes no longer than a symbol, the transport deadline and the latency budget, then in a run of any length no packet is late and no budget missed, and all symbols are delivered in order |
| Bench.RunsThroughIff | crates/benchmark/src/pipeline.rs:285-379 | a run goes through if and only if the NIC has a queue and the ring a slot large enough for a symbol, or no packet ever arrives in time |
| Bench.ReportConserves | crates/benchmark/src/pipeline.rs:415-494 | symbol_count * max(streams, 1) = packets + late_packets + dropped, and there is one latency per packet |
| Bench.PipelineBench.Feed | crates/benchmark/src/pipeline.rs:417-435 | what the injector emits for one input is processed, or the run cannot go through |
| Bench.PipelineBench.Drain | crates/benchmark/src/pipeline.rs:438-455 | the final flushes complete the arrivals, whatever was held |
| Bench.PipelineBench.MakeReport | crates/benchmark/src/pipeline.rs:456-494 | report and counters say what the account says: every packet, gap, late, drop, deadline, latency, byte, buffer and overflow counter, recovery actions, ring peak |
| Bench.PipelineBench.Run | crates/benchmark/src/pipeline.rs:115-495 | a whole run fails if and only if its configuration is blocked (no NIC queue, or slots smaller than a symbol) and some packet arrives in time; otherwise its report is the simple account of the emissions after the injector, for any faults, streams, depth, ring and budget |

## Left out

- Files and mappings: `open` as file I/O, a file longer than the ring, truncation of a file under a live mapping, and reopening while a call is in progress.
- Memory ordering weaker than sequential consistency, the alignment of atomics when slot_bytes is not a multiple of 4, a process dying inside a call, more than one producer or consumer.
- Geometries with slot_count or slot_bytes of 2^32 or more, which the 32-bit header fields cannot hold.
- ShmRing.ShmPacketSink.SendPacket: the code of a send with the consumer at rest; sends interleaved with the consumer are the subject of `ShmSend`.
- Event counters of 64 bits (packets, bytes, gaps, drops, pushed, popped) are unbounded here: they agree with the code up to 2^64 - 1 events.
- Floating point: serialization and wire delay, DMA and kernel delay, copy bandwidth and the loss rate enter as given numbers or functions; a configuration whose `burst_start + burst_length` exceeds 64 bits.
- Fpga.FpgaEmulator.EmitSymbol: the waveform, a floating-point sine, is a given function of time and index.
- Memory.PooledMemory.Allocate: at a pool limit of the largest usize, what an overflowing counter does; the precondition excludes just the calls that overflow, and there are none below that limit.
- Buffers of the memory backends are values inside the buffer table, so aliasing of a buffer's bytes is not modelled.
- Stream carrier, antenna, quality of service and the per-stream deadline, which no check reads.
- Events, trace export, percentiles, throughput, health, Prometheus and JSON output: reporting on top of the counters and latencies.
- The CUDA branch of the bench and the GPU runtime, `DpdkPacketIO`, UDP sockets, the command line, `SimGpu`, `SimPacketIO` and `MockTransportEngine`: foreign calls, I/O or thin stand-ins.
- Loading of configurations: a run starts from configurations already read.
- Metrics beyond the ones the bench records, and the sorting of latencies before percentiles.
