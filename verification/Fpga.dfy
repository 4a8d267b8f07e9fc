/** The radio clock, the sequence counter and the packets an FPGA emulator emits. */
module Fpga {
  import opened Types
  import opened Arithmetic

  datatype Timing = Timing(
    slotsPerSfn: U16, symbolsPerSlot: U8, symbolDurationNs: U64, samplesPerSymbol: nat)

  datatype RadioTimestamp = RadioTimestamp(sfn: U32, slot: U16, symbol: U8, ns: U64)

  function SymbolsPerSlot(t: Timing): (n: nat) ensures n > 0 { Max(t.symbolsPerSlot, 1) }

  function SlotsPerSfn(t: Timing): (n: nat) ensures n > 0 { Max(t.slotsPerSfn, 1) }

  function Quotient(n: nat, m: nat): nat requires m > 0 { n / m }

  function Remainder(n: nat, m: nat): (r: nat) requires m > 0 ensures r < m { n % m }

  function Elapsed(n: nat, duration: U64): U64 { Min(n * duration, U64_MAX) }

  /** Radio time after `n` symbols: plain division of the symbol count. */
  function RadioTime(t: Timing, n: nat): RadioTimestamp {
    var s, l := SymbolsPerSlot(t), SlotsPerSfn(t);
    RadioTimestamp(Quotient(n, s * l) % TWO_32, Remainder(Quotient(n, s), l), Remainder(n, s),
                   Elapsed(n, t.symbolDurationNs))
  }

  /** The time of tick `n`: its mixed-radix digits, and the nanoseconds, which stop at the last one. */
  predicate IsTime(ts: RadioTimestamp, t: Timing, n: nat) {
    var s, l := Max(t.symbolsPerSlot, 1), Max(t.slotsPerSfn, 1);
    && s * l > 0
    && ts.symbol == n % s && ts.slot == (n / s) % l && ts.sfn == (n / (s * l)) % 0x1_0000_0000
    && ts.ns == Min(n * t.symbolDurationNs, U64_MAX)
  }

  lemma RadioTimeIs(t: Timing, n: nat)
    ensures IsTime(RadioTime(t, n), t, n)
  {
    DivByProduct(n, Max(t.symbolsPerSlot, 1), Max(t.slotsPerSfn, 1));
  }

  /** One step of a mixed-radix digit. */
  lemma DigitStep(n: nat, m: nat)
    requires m > 0
    ensures Remainder(n + 1, m) == (if Remainder(n, m) + 1 >= m then 0 else Remainder(n, m) + 1)
    ensures Quotient(n + 1, m) == Quotient(n, m) + (if Remainder(n, m) + 1 >= m then 1 else 0)
  {
    assert n == m * (n / m) + n % m;
    if n % m + 1 >= m {
      assert m * (n / m + 1) == m * (n / m) + m;
      DivModUnique(n + 1, m, n / m + 1, 0);
    } else {
      DivModUnique(n + 1, m, n / m, n % m + 1);
    }
  }

  lemma DivDiv(n: nat, s: nat, l: nat)
    requires s > 0 && l > 0
    ensures s * l > 0 && Quotient(n, s * l) == Quotient(Quotient(n, s), l)
  {
    DivByProduct(n, s, l);
  }

  /** `tick_symbol` on the four counters, with their saturating and wrapping increments. */
  function Tick(t: Timing, c: RadioTimestamp): RadioTimestamp {
    var ns := SatAdd(c.ns, t.symbolDurationNs);
    var symbol := if c.symbol == 0xFF then 0xFF else c.symbol + 1;
    if symbol < t.symbolsPerSlot then RadioTimestamp(c.sfn, c.slot, symbol, ns)
    else
      var slot := if c.slot == 0xFFFF then 0xFFFF else c.slot + 1;
      if slot < t.slotsPerSfn then RadioTimestamp(c.sfn, slot, 0, ns)
      else RadioTimestamp((c.sfn + 1) % TWO_32, 0, 0, ns)
  }

  /** No tick is ever lost: the counters step through radio time one symbol at a time. */
  lemma TickCounts(t: Timing, n: nat)
    ensures Tick(t, RadioTime(t, n)) == RadioTime(t, n + 1)
  {
    hide Min, SatAdd, Tick, RadioTime, SymbolsPerSlot, SlotsPerSfn, Quotient, Remainder, Elapsed;
    var s, l := SymbolsPerSlot(t), SlotsPerSfn(t);
    RadioDigits(t, n);
    RadioDigits(t, n + 1);
    DigitStep(n, s);
    DigitStep(Quotient(n, s), l);
    ElapsedStep(t.symbolDurationNs, n);
    TickCarry(t, Remainder(n, s), Remainder(Quotient(n, s), l), Quotient(Quotient(n, s), l), Elapsed(n, t.symbolDurationNs));
  }

  lemma RadioDigits(t: Timing, n: nat)
    ensures var s, l := SymbolsPerSlot(t), SlotsPerSfn(t);
      RadioTime(t, n) == RadioTimestamp(Quotient(Quotient(n, s), l) % TWO_32, Remainder(Quotient(n, s), l),
                                        Remainder(n, s), Elapsed(n, t.symbolDurationNs))
  {
    hide Quotient, Remainder, Elapsed, SymbolsPerSlot, SlotsPerSfn;
    DivDiv(n, SymbolsPerSlot(t), SlotsPerSfn(t));
  }

  lemma ElapsedStep(duration: U64, n: nat)
    ensures SatAdd(Elapsed(n, duration), duration) == Elapsed(n + 1, duration)
  {
    assert (n + 1) * duration == n * duration + duration;
  }

  // The carries of a tick, in terms of the digits alone.
  lemma TickCarry(t: Timing, symbol: nat, slot: nat, frames: nat, ns: U64)
    requires symbol < SymbolsPerSlot(t) && slot < SlotsPerSfn(t)
    ensures
      var wrapSymbol := symbol + 1 >= SymbolsPerSlot(t);
      var wrapSlot := wrapSymbol && slot + 1 >= SlotsPerSfn(t);
      Tick(t, RadioTimestamp(frames % TWO_32, slot, symbol, ns))
        == RadioTimestamp((if wrapSlot then frames + 1 else frames) % TWO_32,
                          if wrapSlot then 0 else if wrapSymbol then slot + 1 else slot,
                          if wrapSymbol then 0 else symbol + 1,
                          SatAdd(ns, t.symbolDurationNs))
  {
  }

  class TimestampGenerator {
    const timing: Timing
    var sfn: U32
    var slot: U16
    var symbol: U8
    var ns: U64
    ghost var ticks: nat  // symbols since the last reset

    function Current(): RadioTimestamp
      reads this
    {
      RadioTimestamp(sfn, slot, symbol, ns)
    }

    /** The counters read what division of the symbol count gives. */
    ghost predicate Valid()
      reads this
    {
      Current() == RadioTime(timing, ticks)
    }

    constructor (timing: Timing)
      ensures Valid() && this.timing == timing && ticks == 0
    {
      this.timing := timing;
      sfn, slot, symbol, ns := 0, 0, 0, 0;
      ticks := 0;
      DivDiv(0, SymbolsPerSlot(timing), SlotsPerSfn(timing));
    }

    method TickSymbol() returns (ts: RadioTimestamp)
      requires Valid()
      modifies this
      ensures Valid() && ticks == old(ticks) + 1
      ensures ts == RadioTime(timing, old(ticks))
      ensures IsTime(ts, timing, old(ticks))
    {
      hide RadioTime;
      TickCounts(timing, ticks);
      ts := Current();
      ns := SatAdd(ns, timing.symbolDurationNs);
      symbol := if symbol == 0xFF then 0xFF else symbol + 1;
      if symbol >= timing.symbolsPerSlot {
        symbol := 0;
        slot := if slot == 0xFFFF then 0xFFFF else slot + 1;
        if slot >= timing.slotsPerSfn {
          slot := 0;
          sfn := (sfn + 1) % TWO_32;
        }
      }
      ticks := ticks + 1;
      RadioTimeIs(timing, ticks - 1);
    }

    method Reset()
      modifies this
      ensures Valid() && ticks == 0
    {
      sfn, slot, symbol, ns := 0, 0, 0, 0;
      ticks := 0;
      DivDiv(0, SymbolsPerSlot(timing), SlotsPerSfn(timing));
    }
  }

  // ---------- packets ----------

  type Word = s: seq<Byte> | |s| == 4 witness [0, 0, 0, 0]

  /** The two 32-bit words of sample `k` at a given time; the waveform is not modelled. */
  datatype Iq = Iq(i: Word, q: Word)

  type Wave = (U64, nat) -> Iq

  function SampleBytes(wave: Wave, ns: U64, count: nat): (s: seq<Byte>)
    ensures |s| == 8 * count
  {
    if count == 0 then []
    else SampleBytes(wave, ns, count - 1) + wave(ns, count - 1).i + wave(ns, count - 1).q
  }

  /** Sample `k` stands at byte 8k: its I word, then its Q word. */
  lemma {:induction false} SampleAt(wave: Wave, ns: U64, count: nat, k: nat)
    requires k < count
    ensures var payload := SampleBytes(wave, ns, count);
      payload[8 * k..8 * k + 4] == wave(ns, k).i && payload[8 * k + 4..8 * k + 8] == wave(ns, k).q
  {
    var payload, front := SampleBytes(wave, ns, count), SampleBytes(wave, ns, count - 1);
    if k < count - 1 {
      SampleAt(wave, ns, count - 1, k);
      assert payload[8 * k..8 * k + 4] == front[8 * k..8 * k + 4];
      assert payload[8 * k + 4..8 * k + 8] == front[8 * k + 4..8 * k + 8];
    }
  }

  /** The payload holds the samples taken at `ns`, one after the other, I before Q. */
  predicate HoldsSamples(payload: seq<Byte>, wave: Wave, ns: U64, count: nat) {
    && |payload| == 8 * count
    && forall k :: 0 <= k < count ==>
         payload[8 * k..8 * k + 4] == wave(ns, k).i && payload[8 * k + 4..8 * k + 8] == wave(ns, k).q
  }

  lemma SamplesHeld(wave: Wave, ns: U64, count: nat)
    ensures HoldsSamples(SampleBytes(wave, ns, count), wave, ns, count)
  {
    hide SampleBytes;
    forall k | 0 <= k < count
      ensures SampleBytes(wave, ns, count)[8 * k..8 * k + 4] == wave(ns, k).i
      ensures SampleBytes(wave, ns, count)[8 * k + 4..8 * k + 8] == wave(ns, k).q
    {
      SampleAt(wave, ns, count, k);
    }
  }

  /** The `n`-th packet a stream emits. */
  function Emission(t: Timing, wave: Wave, stream: U32, n: nat): Packet {
    var ns := RadioTime(t, n).ns;
    Packet(stream, n % TWO_64, ns, SampleBytes(wave, ns, t.samplesPerSymbol))
  }

  /** What the `n`-th packet of a stream says: its stream, sequence and time, and the samples of that time. */
  predicate IsEmission(p: Packet, t: Timing, wave: Wave, stream: U32, n: nat) {
    && p.stream == stream && p.sequence == n % 0x1_0000_0000_0000_0000
    && p.timestamp == Min(n * t.symbolDurationNs, U64_MAX)
    && HoldsSamples(p.payload, wave, p.timestamp, t.samplesPerSymbol)
  }

  lemma EmissionIs(t: Timing, wave: Wave, stream: U32, n: nat)
    ensures IsEmission(Emission(t, wave, stream, n), t, wave, stream, n)
  {
    hide RadioTime, HoldsSamples, SampleBytes;
    RadioTimeIs(t, n);
    SamplesHeld(wave, RadioTime(t, n).ns, t.samplesPerSymbol);
  }

  class FpgaEmulator {
    const scheduler: TimestampGenerator
    const wave: Wave
    const stream: U32
    var nextSequence: U64

    ghost predicate Valid()
      reads this, scheduler
    {
      scheduler.Valid() && nextSequence == scheduler.ticks % TWO_64
    }

    constructor (timing: Timing, wave: Wave, stream: U32)
      ensures Valid() && fresh(scheduler) && scheduler.ticks == 0
      ensures scheduler.timing == timing && this.wave == wave && this.stream == stream
    {
      scheduler := new TimestampGenerator(timing);
      this.wave := wave;
      this.stream := stream;
      nextSequence := 0;
    }

    method EmitSymbol() returns (p: Packet)
      requires Valid()
      modifies this, scheduler
      ensures Valid() && scheduler.ticks == old(scheduler.ticks) + 1
      ensures p == Emission(scheduler.timing, wave, stream, old(scheduler.ticks))
      ensures IsEmission(p, scheduler.timing, wave, stream, old(scheduler.ticks))
    {
      hide RadioTime, IsTime, IsEmission;
      EmissionIs(scheduler.timing, wave, stream, scheduler.ticks);
      var ts := scheduler.TickSymbol();
      var payload: seq<Byte> := [];
      for k := 0 to scheduler.timing.samplesPerSymbol
        invariant payload == SampleBytes(wave, ts.ns, k)
      {
        payload := payload + wave(ts.ns, k).i + wave(ts.ns, k).q;
      }
      var sequence := nextSequence;
      nextSequence := WrapAdd(nextSequence, 1);
      p := Packet(stream, sequence, ts.ns, payload);
    }
  }
}
