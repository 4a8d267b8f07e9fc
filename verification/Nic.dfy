/** The NIC's receive side: a DMA queue whose packets become visible at their ready time. */
module Nic {
  import opened Types

  datatype NicConfig = NicConfig(dmaLatencyNs: U64, rxQueueDepth: nat, txQueueDepth: nat)

  datatype NicError = QueueFull

  datatype PendingRx = PendingRx(readyAtNs: U64, packet: Packet)

  function Packets(ps: seq<PendingRx>): (s: seq<Packet>)
    ensures |s| == |ps|
  {
    seq(|ps|, i requires 0 <= i < |ps| => ps[i].packet)
  }

  lemma PacketsConcat(a: seq<PendingRx>, b: seq<PendingRx>)
    ensures Packets(a + b) == Packets(a) + Packets(b)
  {
  }

  lemma PacketsOne(p: PendingRx)
    ensures Packets([p]) == [p.packet] && Packets([]) == []
  {
  }

  /** The entries a poll at `now` completes, and the ones it leaves. */
  function Ripe(ps: seq<PendingRx>, now: U64): seq<PendingRx> {
    if ps == [] then []
    else Ripe(ps[..|ps| - 1], now) + if ps[|ps| - 1].readyAtNs <= now then [ps[|ps| - 1]] else []
  }

  function Unripe(ps: seq<PendingRx>, now: U64): seq<PendingRx> {
    if ps == [] then []
    else Unripe(ps[..|ps| - 1], now) + if ps[|ps| - 1].readyAtNs <= now then [] else [ps[|ps| - 1]]
  }

  lemma PollOne(p: PendingRx, now: U64)
    ensures Ripe([], now) == [] && Unripe([], now) == []
    ensures Ripe([p], now) == (if p.readyAtNs <= now then [p] else [])
    ensures Unripe([p], now) == (if p.readyAtNs <= now then [] else [p])
  {
    assert [p][..0] == [];
  }

  /** The completed entries keep their order in the queue; `places` says where they stood. */
  lemma {:induction false} PollKeepsOrder(ps: seq<PendingRx>, now: U64) returns (places: seq<nat>)
    ensures |places| == |Ripe(ps, now)|
    ensures forall i :: 0 <= i < |places| ==> places[i] < |ps| && ps[places[i]] == Ripe(ps, now)[i]
    ensures forall i, j :: 0 <= i < j < |places| ==> places[i] < places[j]
    ensures forall k :: 0 <= k < |ps| && ps[k].readyAtNs <= now ==> k in places
  {
    if ps == [] {
      places := [];
    } else {
      var front, last := ps[..|ps| - 1], ps[|ps| - 1];
      var before := PollKeepsOrder(front, now);
      places := before + if last.readyAtNs <= now then [|ps| - 1] else [];
      assert forall k :: k in before ==> k in places;
    }
  }

  predicate Sorted(ps: seq<PendingRx>) {
    forall i, j :: 0 <= i < j < |ps| ==> ps[i].readyAtNs <= ps[j].readyAtNs
  }

  lemma {:induction false} PollSelects(ps: seq<PendingRx>, now: U64)
    ensures forall p :: p in Ripe(ps, now) ==> p in ps && p.readyAtNs <= now
    ensures forall p :: p in Unripe(ps, now) ==> p in ps && p.readyAtNs > now
  {
    if ps != [] {
      PollSelects(ps[..|ps| - 1], now);
      assert ps == ps[..|ps| - 1] + [ps[|ps| - 1]];
    }
  }

  /** A poll loses and invents nothing. */
  lemma {:induction false} PollSplits(ps: seq<PendingRx>, now: U64)
    ensures multiset(Ripe(ps, now)) + multiset(Unripe(ps, now)) == multiset(ps)
    ensures |Ripe(ps, now)| + |Unripe(ps, now)| == |ps|
  {
    if ps != [] {
      PollEnds(ps, now);
      hide Ripe, Unripe;
      PollSplits(ps[..|ps| - 1], now);
    }
  }

  lemma PollEnds(ps: seq<PendingRx>, now: U64)
    requires ps != []
    ensures var front, last := ps[..|ps| - 1], ps[|ps| - 1];
      && ps == front + [last]
      && Ripe(ps, now) == Ripe(front, now) + (if last.readyAtNs <= now then [last] else [])
      && Unripe(ps, now) == Unripe(front, now) + (if last.readyAtNs <= now then [] else [last])
  {
  }

  lemma UnripeFrom(ps: seq<PendingRx>, now: U64, k: nat) returns (i: nat)
    requires k < |Unripe(ps, now)|
    ensures i < |ps| && ps[i] == Unripe(ps, now)[k] && ps[i].readyAtNs > now
  {
    hide Unripe;
    PollSelects(ps, now);
    assert Unripe(ps, now)[k] in Unripe(ps, now);
    i :| 0 <= i < |ps| && ps[i] == Unripe(ps, now)[k];
  }

  lemma SortedAppend(ps: seq<PendingRx>, last: PendingRx)
    requires Sorted(ps) && forall k :: 0 <= k < |ps| ==> ps[k].readyAtNs <= last.readyAtNs
    ensures Sorted(ps + [last])
  {
  }

  // In ready order, the last entry bounds all that are left before it.
  lemma LastBounds(front: seq<PendingRx>, last: PendingRx, now: U64)
    requires Sorted(front + [last])
    ensures Sorted(front)
    ensures last.readyAtNs <= now ==> Unripe(front, now) == []
    ensures Sorted(Unripe(front, now)) ==> Sorted(Unripe(front, now) + [last])
  {
    hide Unripe;
    var ps, rest := front + [last], Unripe(front, now);
    forall i, j | 0 <= i < j < |front| ensures front[i].readyAtNs <= front[j].readyAtNs {
      assert ps[i].readyAtNs <= ps[j].readyAtNs;
    }
    forall k | 0 <= k < |rest| ensures now < rest[k].readyAtNs <= last.readyAtNs {
      var i := UnripeFrom(front, now, k);
      assert ps[i].readyAtNs <= ps[|front|].readyAtNs;
    }
    assert |rest| > 0 ==> now < rest[0].readyAtNs <= last.readyAtNs;
    if Sorted(rest) { SortedAppend(rest, last); }
  }

  /** A poll of a queue in ready order completes a prefix of it. */
  lemma {:induction false} PollTakesPrefix(ps: seq<PendingRx>, now: U64)
    requires Sorted(ps)
    ensures Ripe(ps, now) + Unripe(ps, now) == ps && Sorted(Unripe(ps, now))
  {
    if ps != [] {
      hide Ripe, Unripe, Sorted;
      var front, last := ps[..|ps| - 1], ps[|ps| - 1];
      PollEnds(ps, now);
      LastBounds(front, last, now);
      PollTakesPrefix(front, now);
    }
  }

  lemma PollMoves(done: seq<PendingRx>, ps: seq<PendingRx>, now: U64)
    ensures multiset(done + Ripe(ps, now)) + multiset(Unripe(ps, now)) == multiset(done) + multiset(ps)
    ensures Sorted(ps) ==> (done + Ripe(ps, now)) + Unripe(ps, now) == done + ps && Sorted(Unripe(ps, now))
  {
    hide Ripe, Unripe;
    PollSplits(ps, now);
    if Sorted(ps) {
      PollTakesPrefix(ps, now);
      assert (done + Ripe(ps, now)) + Unripe(ps, now) == done + (Ripe(ps, now) + Unripe(ps, now));
    }
  }

  lemma QueueGrows(done: seq<PendingRx>, ps: seq<PendingRx>, all: seq<PendingRx>, p: PendingRx)
    requires multiset(done) + multiset(ps) == multiset(all)
    ensures multiset(done) + multiset(ps + [p]) == multiset(all + [p])
    ensures done + ps == all ==> done + (ps + [p]) == all + [p]
  {
    assert done + (ps + [p]) == (done + ps) + [p];
  }

  lemma SteadyGrows(ps: seq<PendingRx>, p: PendingRx)
    requires Sorted(ps) && forall q :: q in ps ==> q.readyAtNs <= p.readyAtNs
    ensures Sorted(ps + [p]) && forall q :: q in ps + [p] ==> q.readyAtNs <= p.readyAtNs
  {
    hide Sorted;
    SortedAppend(ps, p);
  }

  class Cx5Nic {
    const cfg: NicConfig
    var nowNs: U64
    var pending: seq<PendingRx>
    var rxReady: seq<Packet>
    var tx: seq<Packet>
    var completions: nat
    ghost var accepted: seq<PendingRx>   // every packet submitted and not refused
    ghost var completed: seq<PendingRx>  // every packet whose DMA completed
    ghost var delivered: seq<Packet>     // every packet handed to the host
    ghost var clock: U64                 // the latest time ever set
    ghost var steady: bool               // time never went back and every submission took the DMA latency

    ghost predicate Conserved()
      reads this
    {
      && |accepted| == |pending| + completions && completions == |delivered| + |rxReady|
      && multiset(completed) + multiset(pending) == multiset(accepted)
      && Packets(completed) == delivered + rxReady
    }

    /** Nothing completes early, and steady traffic stays in submission order. */
    ghost predicate Timely()
      reads this
    {
      && nowNs <= clock && (forall p :: p in completed ==> p.readyAtNs <= clock)
      && (steady ==> && clock == nowNs && Sorted(pending) && completed + pending == accepted
                     && forall p :: p in pending ==> p.readyAtNs <= SatAdd(nowNs, cfg.dmaLatencyNs))
    }

    ghost predicate Valid()
      reads this
    {
      |pending| + |rxReady| <= cfg.rxQueueDepth && Conserved() && Timely()
    }

    constructor (cfg: NicConfig)
      ensures Valid() && this.cfg == cfg && steady && nowNs == clock == 0
      ensures pending == [] && rxReady == [] && accepted == [] && delivered == [] && completions == 0
    {
      this.cfg := cfg;
      nowNs, clock, completions := 0, 0, 0;
      pending, rxReady, tx := [], [], [];
      accepted, completed, delivered := [], [], [];
      steady := true;
    }

    /** Moves the completed packets of `pending` to `rxReady`. */
    method Drain()
      modifies `pending, `rxReady, `completions
      ensures rxReady == old(rxReady) + Packets(Ripe(old(pending), nowNs))
      ensures pending == Unripe(old(pending), nowNs)
      ensures completions == old(completions) + |Ripe(old(pending), nowNs)|
    {
      hide Packets;
      ghost var before := pending;
      PacketsOne(PendingRx(0, Packet(0, 0, 0, [])));
      var still: seq<PendingRx> := [];
      for i := 0 to |pending|
        invariant pending == before
        invariant rxReady == old(rxReady) + Packets(Ripe(before[..i], nowNs))
        invariant still == Unripe(before[..i], nowNs)
        invariant completions == old(completions) + |Ripe(before[..i], nowNs)|
      {
        var p := pending[i];
        assert before[..i + 1][..i] == before[..i];
        ghost var ripe := Ripe(before[..i], nowNs);
        if p.readyAtNs <= nowNs {
          PacketsConcat(ripe, [p]);
          PacketsOne(p);
          assert Ripe(before[..i + 1], nowNs) == ripe + [p];
          rxReady := rxReady + [p.packet];
          completions := completions + 1;
        } else {
          assert Ripe(before[..i + 1], nowNs) == ripe;
          still := still + [p];
        }
      }
      assert before[..|before|] == before;
      pending := still;
    }

    method PollCompletions()
      requires Valid()
      modifies `pending, `rxReady, `completions, `completed
      ensures Valid()
      ensures rxReady == old(rxReady) + Packets(Ripe(old(pending), nowNs))
      ensures pending == Unripe(old(pending), nowNs)
    {
      hide Packets, Ripe, Unripe, Sorted;
      ghost var before, done := pending, completed;
      Drain();
      ghost var ripe := Ripe(before, nowNs);
      PollMoves(done, before, nowNs);
      PollSplits(before, nowNs);
      PollSelects(before, nowNs);
      PacketsConcat(done, ripe);
      completed := done + ripe;
    }

    method AdvanceTime(now: U64)
      requires Valid()
      modifies `nowNs, `clock, `steady, `pending, `rxReady, `completions, `completed
      ensures Valid() && nowNs == now && clock == Max(old(clock), now)
      ensures rxReady == old(rxReady) + Packets(Ripe(old(pending), now))
      ensures pending == Unripe(old(pending), now)
      ensures steady == (old(steady) && old(nowNs) <= now)
    {
      hide Packets, Ripe, Unripe;
      steady := steady && nowNs <= now;
      clock := Max(clock, now);
      nowNs := now;
      PollCompletions();
    }

    method Enqueue(entry: PendingRx)
      requires Valid() && |pending| + |rxReady| < cfg.rxQueueDepth
      modifies `pending, `accepted, `steady
      ensures Valid()
      ensures pending == old(pending) + [entry] && accepted == old(accepted) + [entry]
      ensures steady == (old(steady) && entry.readyAtNs == SatAdd(nowNs, cfg.dmaLatencyNs))
    {
      hide Packets, SatAdd, Sorted;
      QueueGrows(completed, pending, accepted, entry);
      if steady && entry.readyAtNs == SatAdd(nowNs, cfg.dmaLatencyNs) {
        SteadyGrows(pending, entry);
      }
      steady := steady && entry.readyAtNs == SatAdd(nowNs, cfg.dmaLatencyNs);
      pending := pending + [entry];
      accepted := accepted + [entry];
    }

    /** Accepted unless the queue is at its depth; a refused packet changes nothing. */
    method SubmitRxReadyAt(p: Packet, readyAtNs: U64) returns (r: Result<(), NicError>)
      requires Valid()
      modifies `pending, `rxReady, `completions, `completed, `accepted, `steady
      ensures Valid()
      ensures r == if |old(pending)| + |old(rxReady)| >= cfg.rxQueueDepth then Err(QueueFull) else Ok(())
      ensures r.Err? ==> pending == old(pending) && rxReady == old(rxReady) && accepted == old(accepted) && steady == old(steady)
      ensures r.Ok? ==>
                var queue := old(pending) + [PendingRx(readyAtNs, p)];
                && accepted == old(accepted) + [PendingRx(readyAtNs, p)]
                && pending == Unripe(queue, nowNs) && rxReady == old(rxReady) + Packets(Ripe(queue, nowNs))
                && steady == (old(steady) && readyAtNs == SatAdd(nowNs, cfg.dmaLatencyNs))
    {
      if |pending| + |rxReady| >= cfg.rxQueueDepth {
        return Err(QueueFull);
      }
      hide Packets, Ripe, Unripe, SatAdd;
      Enqueue(PendingRx(readyAtNs, p));
      PollCompletions();
      return Ok(());
    }

    method SubmitRx(p: Packet) returns (r: Result<(), NicError>)
      requires Valid()
      modifies `pending, `rxReady, `completions, `completed, `accepted, `steady
      ensures Valid()
      ensures r == if |old(pending)| + |old(rxReady)| >= cfg.rxQueueDepth then Err(QueueFull) else Ok(())
      ensures r.Err? ==> pending == old(pending) && rxReady == old(rxReady) && accepted == old(accepted)
      ensures steady == old(steady)
      ensures r.Ok? ==>
                var queue := old(pending) + [PendingRx(SatAdd(nowNs, cfg.dmaLatencyNs), p)];
                && accepted == old(accepted) + [PendingRx(SatAdd(nowNs, cfg.dmaLatencyNs), p)]
                && pending == Unripe(queue, nowNs) && rxReady == old(rxReady) + Packets(Ripe(queue, nowNs))
    {
      r := SubmitRxReadyAt(p, SatAdd(nowNs, cfg.dmaLatencyNs));
    }

    method RxBurst(max: nat) returns (out: seq<Packet>)
      requires Valid()
      modifies `pending, `rxReady, `completions, `completed, `delivered
      ensures Valid()
      ensures out + rxReady == old(rxReady) + Packets(Ripe(old(pending), nowNs))
      ensures |out| == Min(max, |old(rxReady)| + |Ripe(old(pending), nowNs)|)
      ensures pending == Unripe(old(pending), nowNs)
      ensures delivered == old(delivered) + out
    {
      hide Packets, Ripe, Unripe;
      PollCompletions();
      var n := Min(max, |rxReady|);
      out := rxReady[..n];
      rxReady := rxReady[n..];
      delivered := delivered + out;
      assert Packets(completed) == delivered + rxReady;
    }

    /** Takes as many packets as there is room for. */
    method TxBurst(packets: seq<Packet>) returns (n: nat)
      modifies `tx
      ensures n == Min(|packets|, Max(cfg.txQueueDepth - |old(tx)|, 0)) && tx == old(tx) + packets[..n]
    {
      n := |packets|;
      if |tx| + n > cfg.txQueueDepth {
        var room := Max(cfg.txQueueDepth - |tx|, 0);
        tx := tx + packets[..room];
        return room;
      }
      tx := tx + packets;
      assert packets[..n] == packets;
    }

    /** Every accepted packet is in exactly one place, the queue never exceeds its depth, and each
        delivered packet was accepted with a ready time the clock has reached. */
    lemma QueueAccounts()
      requires Valid()
      ensures |accepted| == |pending| + |rxReady| + |delivered| && |pending| + |rxReady| <= cfg.rxQueueDepth
      ensures forall i :: 0 <= i < |delivered| ==>
                completed[i] in accepted && completed[i].packet == delivered[i] && completed[i].readyAtNs <= clock
    {
      forall i | 0 <= i < |delivered|
        ensures completed[i] in accepted && completed[i].packet == delivered[i] && completed[i].readyAtNs <= clock
      {
        assert Packets(completed)[i] == (delivered + rxReady)[i];
        assert completed[i] in completed;
        assert completed[i] in multiset(accepted);
      }
    }

    /** With time never going back and all submissions through the DMA, packets are delivered in the
        order they were submitted, none before its ready time. */
    lemma DeliveredInOrder()
      requires Valid() && steady
      ensures delivered <= Packets(accepted)
      ensures forall i :: 0 <= i < |delivered| ==> accepted[i].readyAtNs <= nowNs
    {
      forall i | 0 <= i < |delivered|
        ensures Packets(accepted)[i] == delivered[i] && accepted[i].readyAtNs <= nowNs
      {
        assert Packets(completed)[i] == (delivered + rxReady)[i];
        assert completed[i] in completed;
        assert accepted[i] == (completed + pending)[i];
      }
    }
  }
}
