/** Per-stream sequence checking, lateness, recovery and the link and stream states around them. */
module Transport {
  import opened Types

  datatype StreamState = Idle | Running | Stopped | Error

  datatype LinkState = Init | Discovery | Ready | LinkRunning | LinkError | Recovery

  datatype TransportError =
    | StreamNotFound(stream: U32)
    | StreamExists(stream: U32)
    | StreamNotRunning(stream: U32)
    | LinkNotReady
    | SequenceGap(expected: U64, got: U64)
    | LatePacket(latencyNs: U64, maxNs: U64)

  datatype Policy = Policy(maxLatencyNs: U64, allowReorder: bool, startSequence: U64)

  // ---------- the engine as functions on its state ----------

  datatype Engine = Engine(
    streams: map<U32, StreamState>,
    inbox: seq<Packet>,
    outbox: seq<Packet>,
    link: LinkState,
    next: map<U32, U64>,
    nowNs: U64,
    gaps: nat,
    late: nat)

  const FRESH: Engine := Engine(map[], [], [], Init, map[], 0, 0, 0)

  function Expected(pol: Policy, next: map<U32, U64>, stream: U32): U64 {
    if stream in next then next[stream] else pol.startSequence
  }

  function CheckTimestamp(pol: Policy, p: Packet, nowNs: U64): Result<(), TransportError> {
    var latency := SatSub(nowNs, p.timestamp);
    if latency > pol.maxLatencyNs then Err(LatePacket(latency, pol.maxLatencyNs)) else Ok(())
  }

  function CheckSequence(pol: Policy, next: map<U32, U64>, p: Packet): (map<U32, U64>, Result<(), TransportError>) {
    var expected, got := Expected(pol, next, p.stream), p.sequence;
    if got == expected then (next[p.stream := WrapAdd(expected, 1)], Ok(()))
    else if pol.allowReorder && got > expected then (next[p.stream := WrapAdd(got, 1)], Err(SequenceGap(expected, got)))
    else (next, Err(SequenceGap(expected, got)))
  }

  predicate LinkUsable(e: Engine) { e.link == LinkRunning || e.link == Ready }

  predicate Runs(e: Engine, stream: U32) { stream in e.streams && e.streams[stream] == Running }

  predicate Carries(e: Engine, stream: U32) { LinkUsable(e) && Runs(e, stream) }

  /** Link, then stream, as `ingest` and `send` check them. */
  function CheckPath(e: Engine, stream: U32): Result<(), TransportError> {
    if e.link != LinkRunning && e.link != Ready then Err(LinkNotReady)
    else if stream !in e.streams then Err(StreamNotFound(stream))
    else if e.streams[stream] != Running then Err(StreamNotRunning(stream))
    else Ok(())
  }

  function DoIngest(pol: Policy, e: Engine, p: Packet): (Engine, Result<(), TransportError>) {
    var path := CheckPath(e, p.stream);
    if path.Err? then (e, path)
    else
      var ts := CheckTimestamp(pol, p, e.nowNs);
      if ts.Err? then (e.(late := e.late + 1), ts)
      else
        var (next, r) := CheckSequence(pol, e.next, p);
        if r.Ok? then (e.(next := next, inbox := e.inbox + [p]), r)
        else (e.(next := next, gaps := e.gaps + 1), r)
  }

  function DoReceive(e: Engine): (Engine, Option<Packet>) {
    if e.inbox == [] then (e, None) else (e.(inbox := e.inbox[1..]), Some(e.inbox[0]))
  }

  function DoRecover(e: Engine, stream: U32, nextSeq: U64): Engine {
    e.(next := e.next[stream := nextSeq],
       streams := if stream in e.streams then e.streams[stream := Running] else e.streams,
       link := LinkRunning)
  }

  function DoSend(e: Engine, p: Packet): (Engine, Result<(), TransportError>) {
    var path := CheckPath(e, p.stream);
    if path.Err? then (e, path) else (e.(outbox := e.outbox + [p]), path)
  }

  function DoCreate(pol: Policy, e: Engine, stream: U32): (Engine, Result<U32, TransportError>) {
    if stream in e.streams then (e, Err(StreamExists(stream)))
    else (e.(next := if stream in e.next then e.next else e.next[stream := pol.startSequence],
             streams := e.streams[stream := Idle]), Ok(stream))
  }

  function DoSetState(e: Engine, stream: U32, state: StreamState): (Engine, Result<(), TransportError>) {
    if stream !in e.streams then (e, Err(StreamNotFound(stream)))
    else (e.(streams := e.streams[stream := state]), Ok(()))
  }

  function DoDestroy(e: Engine, stream: U32): (Engine, Result<(), TransportError>) {
    if stream !in e.streams then (e, Err(StreamNotFound(stream)))
    else (e.(streams := e.streams - {stream}, next := e.next - {stream}), Ok(()))
  }

  function DoReset(e: Engine): Engine {
    e.(link := Init, inbox := [], outbox := [], gaps := 0, late := 0)
  }

  predicate IsLate(pol: Policy, p: Packet, nowNs: U64) {
    SatSub(nowNs, p.timestamp) > pol.maxLatencyNs
  }

  // ---------- runs of calls ----------

  datatype Call =
    | Ingest(p: Packet)
    | Receive
    | Send(p: Packet)
    | Create(stream: U32)
    | Start(stream: U32)
    | Stop(stream: U32)
    | Destroy(stream: U32)
    | LinkUp
    | LinkDown
    | Reset
    | Recover(stream: U32, nextSeq: U64)
    | SetNow(nowNs: U64)

  function Perform(pol: Policy, e: Engine, c: Call): Engine {
    match c
    case Ingest(p) => DoIngest(pol, e, p).0
    case Receive => DoReceive(e).0
    case Send(p) => DoSend(e, p).0
    case Create(s) => DoCreate(pol, e, s).0
    case Start(s) => DoSetState(e, s, Running).0
    case Stop(s) => DoSetState(e, s, Stopped).0
    case Destroy(s) => DoDestroy(e, s).0
    case LinkUp => e.(link := LinkRunning)
    case LinkDown => e.(link := Init)
    case Reset => DoReset(e)
    case Recover(s, n) => DoRecover(e, s, n)
    case SetNow(t) => e.(nowNs := t)
  }

  function Run(pol: Policy, calls: seq<Call>): Engine {
    if calls == [] then FRESH else Perform(pol, Run(pol, calls[..|calls| - 1]), calls[|calls| - 1])
  }

  /** The packet one call accepts into the inbox, and the one it hands out. */
  function Takes(pol: Policy, e: Engine, c: Call): seq<Packet> {
    if c.Ingest? && DoIngest(pol, e, c.p).1.Ok? then [c.p] else []
  }

  function Gives(e: Engine, c: Call): seq<Packet> {
    if c.Receive? && e.inbox != [] then [e.inbox[0]] else []
  }

  /** The packets `ingest` accepted in a run, in order. */
  function Accepted(pol: Policy, calls: seq<Call>): seq<Packet> {
    if calls == [] then []
    else
      var before := calls[..|calls| - 1];
      Accepted(pol, before) + Takes(pol, Run(pol, before), calls[|calls| - 1])
  }

  /** The packets `receive` handed out in a run, in order. */
  function Received(pol: Policy, calls: seq<Call>): seq<Packet> {
    if calls == [] then []
    else
      var before := calls[..|calls| - 1];
      Received(pol, before) + Gives(Run(pol, before), calls[|calls| - 1])
  }

  function CountOn(packets: seq<Packet>, stream: U32): nat {
    if packets == [] then 0
    else CountOn(packets[..|packets| - 1], stream) + if packets[|packets| - 1].stream == stream then 1 else 0
  }

  lemma CountOnAppend(packets: seq<Packet>, p: Packet, stream: U32)
    ensures CountOn(packets + [p], stream) == CountOn(packets, stream) + (if p.stream == stream then 1 else 0)
  {
    assert (packets + [p])[..|packets|] == packets;
  }

  /** Every outcome of `ingest` says what held before it and what it changed. */
  lemma IngestOutcome(pol: Policy, e: Engine, p: Packet)
    ensures var (e', r) := DoIngest(pol, e, p);
      var s, expected := p.stream, if p.stream in e.next then e.next[p.stream] else pol.startSequence;
      match r
      case Ok(_) =>
        && LinkUsable(e) && Runs(e, s) && e.nowNs - p.timestamp <= pol.maxLatencyNs && p.sequence == expected
        && e' == e.(inbox := e.inbox + [p], next := e.next[s := (p.sequence + 1) % 0x1_0000_0000_0000_0000])
      case Err(LinkNotReady) => !LinkUsable(e) && e' == e
      case Err(StreamNotFound(x)) => LinkUsable(e) && x == s && s !in e.streams && e' == e
      case Err(StreamNotRunning(x)) => LinkUsable(e) && x == s && s in e.streams && !Runs(e, s) && e' == e
      case Err(LatePacket(latency, most)) =>
        && LinkUsable(e) && Runs(e, s) && latency == e.nowNs - p.timestamp > most == pol.maxLatencyNs
        && e' == e.(late := e.late + 1)
      case Err(SequenceGap(wanted, got)) =>
        && LinkUsable(e) && Runs(e, s) && e.nowNs - p.timestamp <= pol.maxLatencyNs
        && wanted == expected != got == p.sequence
        && e' == e.(gaps := e.gaps + 1,
                    next := if pol.allowReorder && got > wanted then e.next[s := (got + 1) % 0x1_0000_0000_0000_0000]
                            else e.next)
      case Err(StreamExists(_)) => false
  {
  }

  /** After a gap, the stream goes on behind the packet that revealed it if that may be skipped to, and
      still waits for the one it wanted if not. */
  lemma StreamGoesOnAfterGap(pol: Policy, e: Engine, p: Packet, q: Packet)
    requires Carries(e, p.stream) && q.stream == p.stream
    requires !IsLate(pol, p, e.nowNs) && !IsLate(pol, q, e.nowNs)
    requires p.sequence != Expected(pol, e.next, p.stream)
    ensures DoIngest(pol, DoIngest(pol, e, p).0, q).1.Ok? <==>
              if pol.allowReorder && p.sequence > Expected(pol, e.next, p.stream) then
                q.sequence == (p.sequence + 1) % 0x1_0000_0000_0000_0000
              else q.sequence == Expected(pol, e.next, p.stream)
  {
    IngestOutcome(pol, e, p);
    IngestOutcome(pol, DoIngest(pol, e, p).0, q);
  }

  /** What each call does to a stream's existence, to its running and to the link, and that a reset
      clears the queues and counts and nothing else. */
  lemma CallControls(pol: Policy, e: Engine, c: Call, s: U32)
    ensures var e' := Perform(pol, e, c);
      && (s in e'.streams <==> match c
                               case Create(id) => id == s || s in e.streams
                               case Destroy(id) => id != s && s in e.streams
                               case _ => s in e.streams)
      && (Runs(e', s) <==> match c
                           case Start(id) => Runs(e, s) || (id == s && s in e.streams)
                           case Recover(id, _) => Runs(e, s) || (id == s && s in e.streams)
                           case Stop(id) => id != s && Runs(e, s)
                           case Destroy(id) => id != s && Runs(e, s)
                           case _ => Runs(e, s))
      && (LinkUsable(e') <==> match c
                              case LinkUp => true
                              case Recover(_, _) => true
                              case LinkDown => false
                              case Reset => false
                              case _ => LinkUsable(e))
      && (c.Reset? ==> e'.inbox == e'.outbox == [] && e'.gaps == e'.late == 0 && e'.next == e.next && e'.nowNs == e.nowNs)
  {
  }

  /** Starting, stopping and destroying need the stream; creating needs it not to exist yet. */
  lemma ControlResults(pol: Policy, e: Engine, s: U32, state: StreamState)
    ensures DoCreate(pol, e, s).1 == (if s in e.streams then Err(StreamExists(s)) else Ok(s))
    ensures DoSetState(e, s, state).1 == DoDestroy(e, s).1 == (if s in e.streams then Ok(()) else Err(StreamNotFound(s)))
  {
  }

  /** Every stream has an expected sequence, whatever calls were made; the converse fails, since
      recovering an unknown stream records one too. */
  lemma {:induction false} StreamsAreExpected(pol: Policy, calls: seq<Call>)
    ensures var e := Run(pol, calls); e.streams.Keys <= e.next.Keys
  {
    if calls != [] {
      hide Perform;
      var before, c := calls[..|calls| - 1], calls[|calls| - 1];
      StreamsAreExpected(pol, before);
      CallKeepsExpected(pol, Run(pol, before), c);
    }
  }

  lemma CallKeepsExpected(pol: Policy, e: Engine, c: Call)
    requires e.streams.Keys <= e.next.Keys
    ensures Perform(pol, e, c).streams.Keys <= Perform(pol, e, c).next.Keys
  {
  }

  /** A call gives the streams and the expectations different keys exactly when it recovers a stream
      that does not exist. */
  lemma CallKeepsKeysIff(pol: Policy, e: Engine, c: Call)
    requires e.streams.Keys == e.next.Keys
    ensures Perform(pol, e, c).streams.Keys == Perform(pol, e, c).next.Keys
       <==> !(c.Recover? && c.stream !in e.streams)
  {
    if c.Recover? { assert c.stream in Perform(pol, e, c).next.Keys; }
  }

  lemma UnknownStreamExpected(pol: Policy, stream: U32, n: U64)
    ensures var e := Run(pol, [Recover(stream, n)]);
      e.streams == map[] && e.next == map[stream := n] && RecoversUnknown(pol, [Recover(stream, n)])
  {
    assert [Recover(stream, n)][..0] == [];
  }

  /** Exactly the existing streams are expected, at every moment of a run. */
  predicate AlwaysSameKeys(pol: Policy, calls: seq<Call>) {
    var e := Run(pol, calls);
    e.streams.Keys == e.next.Keys && (calls != [] ==> AlwaysSameKeys(pol, calls[..|calls| - 1]))
  }

  /** Some call of a run recovers a stream that does not exist at that moment. */
  predicate RecoversUnknown(pol: Policy, calls: seq<Call>) {
    calls != [] &&
    var before, c := calls[..|calls| - 1], calls[|calls| - 1];
    RecoversUnknown(pol, before) || (c.Recover? && c.stream !in Run(pol, before).streams)
  }

  /** Exactly the existing streams are expected throughout a run if and only if no call recovers an
      unknown stream. */
  lemma {:induction false} ExpectedAreStreamsIff(pol: Policy, calls: seq<Call>)
    ensures AlwaysSameKeys(pol, calls) <==> !RecoversUnknown(pol, calls)
  {
    hide Perform;
    if calls != [] {
      var before, c := calls[..|calls| - 1], calls[|calls| - 1];
      ExpectedAreStreamsIff(pol, before);
      if AlwaysSameKeys(pol, before) { CallKeepsKeysIff(pol, Run(pol, before), c); }
    }
  }

  lemma InboxIsQueue(pol: Policy, e: Engine, c: Call)
    requires !c.Reset?
    ensures Gives(e, c) + Perform(pol, e, c).inbox == e.inbox + Takes(pol, e, c)
  {
  }

  /** Accepted packets are received first in, first out, as long as the engine is not reset. */
  lemma {:induction false} ReceiveIsFifo(pol: Policy, calls: seq<Call>)
    requires Reset !in calls
    ensures Received(pol, calls) + Run(pol, calls).inbox == Accepted(pol, calls)
  {
    if calls != [] {
      hide Perform, Takes, Gives;
      var before, c := calls[..|calls| - 1], calls[|calls| - 1];
      ReceiveIsFifo(pol, before);
      var e := Run(pol, before);
      InboxIsQueue(pol, e, c);
      assert (Received(pol, before) + Gives(e, c)) + Perform(pol, e, c).inbox
          == Received(pol, before) + (Gives(e, c) + Perform(pol, e, c).inbox);
    }
  }

  function Posts(e: Engine, c: Call): seq<Packet> {
    if c.Send? && DoSend(e, c.p).1.Ok? then [c.p] else []
  }

  /** The packets `send` accepted in a run, in order. */
  function Sent(pol: Policy, calls: seq<Call>): seq<Packet> {
    if calls == [] then []
    else
      var before := calls[..|calls| - 1];
      Sent(pol, before) + Posts(Run(pol, before), calls[|calls| - 1])
  }

  /** Packets go out in the order they were sent, none lost or added, as long as the engine is not
      reset; a send succeeds exactly on a link and stream that carry it, and never disturbs reception. */
  lemma {:induction false} SendKeepsOrder(pol: Policy, calls: seq<Call>, p: Packet)
    requires Reset !in calls
    ensures Run(pol, calls).outbox == Sent(pol, calls)
    ensures var e := Run(pol, calls); var (e', r) := DoSend(e, p);
      (r.Ok? <==> Carries(e, p.stream)) && e'.inbox == e.inbox && e'.next == e.next && e'.late == e.late && e'.gaps == e.gaps
  {
    hide Perform, Posts, Run, Sent, DoSend;
    SendSpared(Run(pol, calls), p);
    SentOneMore(pol, calls);
    if calls != [] {
      SendKeepsOrder(pol, calls[..|calls| - 1], p);
      OutboxIsLog(pol, Run(pol, calls[..|calls| - 1]), calls[|calls| - 1]);
    }
  }

  lemma SentOneMore(pol: Policy, calls: seq<Call>)
    ensures calls == [] ==> Run(pol, calls).outbox == Sent(pol, calls) == []
    ensures calls != [] ==>
              var before, c := calls[..|calls| - 1], calls[|calls| - 1];
              && Run(pol, calls) == Perform(pol, Run(pol, before), c)
              && Sent(pol, calls) == Sent(pol, before) + Posts(Run(pol, before), c)
  {
  }

  lemma OutboxIsLog(pol: Policy, e: Engine, c: Call)
    requires !c.Reset?
    ensures Perform(pol, e, c).outbox == e.outbox + Posts(e, c)
  {
  }

  lemma SendSpared(e: Engine, p: Packet)
    ensures var (e', r) := DoSend(e, p);
      (r.Ok? <==> Carries(e, p.stream)) && e'.inbox == e.inbox && e'.next == e.next && e'.late == e.late && e'.gaps == e.gaps
  {
  }

  predicate Undisturbed(c: Call) { !c.Recover? && !c.Destroy? }

  /** Why a call wraps the expectation of the stream it is about: it ingests the last sequence, on a
      stream that carries it and in time, and that sequence is expected or may be skipped to. */
  predicate Wraps(pol: Policy, e: Engine, c: Call) {
    && c.Ingest? && c.p.sequence == U64_MAX && Carries(e, c.p.stream) && !IsLate(pol, c.p, e.nowNs)
    && (pol.allowReorder || Expected(pol, e.next, c.p.stream) == U64_MAX)
  }

  /** What one call does to the expectations: accepting a packet means its sequence was expected, a late
      packet moves nothing, and the expectation goes back exactly when the call wraps it. */
  lemma CallExpects(pol: Policy, e: Engine, c: Call, s: U32)
    requires Undisturbed(c)
    ensures var before, after := Expected(pol, e.next, s), Expected(pol, Perform(pol, e, c).next, s);
      && (Takes(pol, e, c) != [] && c.p.stream == s ==> c.p.sequence == before && after == WrapAdd(before, 1))
      && (Takes(pol, e, c) != [] && c.p.stream != s ==> after == before)
      && (Takes(pol, e, c) == [] && !pol.allowReorder ==> after == before)
      && (after < before <==> Wraps(pol, e, c) && c.p.stream == s && before > 0)
      && (c.Ingest? && IsLate(pol, c.p, e.nowNs) ==> after == before)
  {
  }

  lemma CountShifts(start: U64, n: nat)
    ensures WrapAdd(WrapAdd(start, n % TWO_64), 1) == WrapAdd(start, (n + 1) % TWO_64)
  {
    hide WrapAdd;
    var m := n % TWO_64;
    assert (n + 1) % TWO_64 == if m + 1 == TWO_64 then 0 else m + 1;
    WrapCases(start, m);
    WrapCases(WrapAdd(start, m), 1);
    WrapCases(start, (n + 1) % TWO_64);
  }

  predicate Consecutive(pol: Policy, packets: seq<Packet>) {
    forall i :: 0 <= i < |packets| ==>
      packets[i].sequence == WrapAdd(pol.startSequence, CountOn(packets[..i], packets[i].stream) % TWO_64)
  }

  ghost predicate Counted(pol: Policy, next: map<U32, U64>, packets: seq<Packet>) {
    forall s: U32 :: Expected(pol, next, s) == WrapAdd(pol.startSequence, CountOn(packets, s) % TWO_64)
  }

  lemma ConsecutiveAppend(pol: Policy, acc: seq<Packet>, p: Packet)
    requires Consecutive(pol, acc)
    requires p.sequence == WrapAdd(pol.startSequence, CountOn(acc, p.stream) % TWO_64)
    ensures Consecutive(pol, acc + [p])
  {
    hide WrapAdd, CountOn;
    var acc' := acc + [p];
    forall i | 0 <= i < |acc'|
      ensures acc'[i].sequence == WrapAdd(pol.startSequence, CountOn(acc'[..i], acc'[i].stream) % TWO_64)
    {
      assert acc'[..i] == acc[..i];
      if i < |acc| { assert acc'[i] == acc[i]; } else { assert acc[..i] == acc; }
    }
  }

  lemma CountedStep(pol: Policy, e: Engine, c: Call, acc: seq<Packet>, s: U32)
    requires !pol.allowReorder && Undisturbed(c)
    requires Expected(pol, e.next, s) == WrapAdd(pol.startSequence, CountOn(acc, s) % TWO_64)
    ensures Expected(pol, Perform(pol, e, c).next, s)
         == WrapAdd(pol.startSequence, CountOn(acc + Takes(pol, e, c), s) % TWO_64)
  {
    hide Perform, Takes, Expected, WrapAdd, CountOn;
    TakesAtMostOne(pol, e, c);
    CallExpects(pol, e, c, s);
    if Takes(pol, e, c) != [] {
      CountOnAppend(acc, c.p, s);
      CountShifts(pol.startSequence, CountOn(acc, s));
    } else {
      assert acc + Takes(pol, e, c) == acc;
    }
  }

  lemma ConsecutiveStep(pol: Policy, e: Engine, c: Call, acc: seq<Packet>)
    requires !pol.allowReorder && Undisturbed(c) && Consecutive(pol, acc) && Counted(pol, e.next, acc)
    ensures var acc' := acc + Takes(pol, e, c);
      Consecutive(pol, acc') && Counted(pol, Perform(pol, e, c).next, acc')
  {
    hide Perform, Takes, Expected, WrapAdd, CountOn, Consecutive;
    TakesAtMostOne(pol, e, c);
    if Takes(pol, e, c) != [] {
      CallExpects(pol, e, c, c.p.stream);
      ConsecutiveAppend(pol, acc, c.p);
    } else {
      assert acc + Takes(pol, e, c) == acc;
    }
    forall s: U32
      ensures Expected(pol, Perform(pol, e, c).next, s)
           == WrapAdd(pol.startSequence, CountOn(acc + Takes(pol, e, c), s) % TWO_64)
    {
      CountedStep(pol, e, c, acc, s);
    }
  }

  /** Without reordering, each stream accepts consecutive sequences from the start sequence, modulo
      2^64, across link and stream stops and resets; the expected sequence counts them. */
  lemma {:induction false} AcceptedAreConsecutive(pol: Policy, calls: seq<Call>)
    requires !pol.allowReorder && forall c :: c in calls ==> Undisturbed(c)
    ensures Consecutive(pol, Accepted(pol, calls)) && Counted(pol, Run(pol, calls).next, Accepted(pol, calls))
  {
    if calls == [] {
      NothingExpected(pol);
    } else {
      hide Perform, Takes, Consecutive, Counted;
      var before, c := calls[..|calls| - 1], calls[|calls| - 1];
      AcceptedAreConsecutive(pol, before);
      ConsecutiveStep(pol, Run(pol, before), c, Accepted(pol, before));
    }
  }

  lemma NothingExpected(pol: Policy)
    ensures forall s: U32 :: Expected(pol, map[], s) == WrapAdd(pol.startSequence, 0)
  {
  }

  lemma TakesAtMostOne(pol: Policy, e: Engine, c: Call)
    ensures Takes(pol, e, c) == [] || (c.Ingest? && Takes(pol, e, c) == [c.p])
  {
  }

  predicate AllBelow(pol: Policy, packets: seq<Packet>, next: map<U32, U64>) {
    forall i :: 0 <= i < |packets| ==> packets[i].sequence < Expected(pol, next, packets[i].stream)
  }

  predicate Increasing(packets: seq<Packet>) {
    forall i, j :: 0 <= i < j < |packets| && packets[i].stream == packets[j].stream ==>
      packets[i].sequence < packets[j].sequence
  }

  /** Some packet of the stream has this sequence or a later one. */
  predicate Reached(packets: seq<Packet>, stream: U32, sequence: U64) {
    exists i :: 0 <= i < |packets| && packets[i].stream == stream && packets[i].sequence >= sequence
  }

  /** A call that takes the expectation back to where the stream has already accepted packets: it wraps
      it, recovers to a sequence already reached, or destroys the stream. */
  predicate Rewinds(pol: Policy, e: Engine, c: Call, acc: seq<Packet>) {
    match c
    case Ingest(p) =>
      Wraps(pol, e, c) && (Expected(pol, e.next, p.stream) == U64_MAX || Reached(acc, p.stream, 0))
    case Recover(s, n) => Reached(acc, s, n)
    case Destroy(s) => s in e.streams && Reached(acc, s, pol.startSequence)
    case _ => false
  }

  /** At every moment of a run, each stream expects more than any sequence it has accepted. */
  predicate AlwaysAbove(pol: Policy, calls: seq<Call>) {
    AllBelow(pol, Accepted(pol, calls), Run(pol, calls).next)
    && (calls != [] ==> AlwaysAbove(pol, calls[..|calls| - 1]))
  }

  predicate EverRewinds(pol: Policy, calls: seq<Call>) {
    calls != [] &&
    var before := calls[..|calls| - 1];
    EverRewinds(pol, before) || Rewinds(pol, Run(pol, before), calls[|calls| - 1], Accepted(pol, before))
  }

  lemma IngestExpects(pol: Policy, e: Engine, c: Call, s: U32)
    requires c.Ingest?
    ensures var before, after := Expected(pol, e.next, s), Expected(pol, Perform(pol, e, c).next, s);
      if c.p.stream != s then after == before
      else if Wraps(pol, e, c) then after == 0 && Takes(pol, e, c) == (if before == U64_MAX then [c.p] else [])
      else before <= after && (Takes(pol, e, c) != [] ==> c.p.sequence < after)
  {
  }

  lemma OtherCallExpects(pol: Policy, e: Engine, c: Call, s: U32)
    requires !c.Ingest?
    ensures Takes(pol, e, c) == []
    ensures Expected(pol, Perform(pol, e, c).next, s)
         == match c
            case Recover(id, n) => if id == s then n else Expected(pol, e.next, s)
            case Destroy(id) => if id == s && id in e.streams then pol.startSequence else Expected(pol, e.next, s)
            case _ => Expected(pol, e.next, s)
  {
  }

  lemma IngestKeepsAboveIff(pol: Policy, e: Engine, c: Call, acc: seq<Packet>)
    requires AllBelow(pol, acc, e.next) && c.Ingest?
    ensures AllBelow(pol, acc + Takes(pol, e, c), Perform(pol, e, c).next) <==> !Rewinds(pol, e, c, acc)
  {
    hide Perform, Takes, Expected, Wraps;
    TakesAtMostOne(pol, e, c);
    IngestExpects(pol, e, c, c.p.stream);
    var acc' := acc + Takes(pol, e, c);
    assert forall i :: 0 <= i < |acc| ==> acc'[i] == acc[i];
    assert Takes(pol, e, c) != [] ==> acc'[|acc|] == c.p;
    forall i | 0 <= i < |acc| && acc[i].stream != c.p.stream
      ensures acc[i].sequence < Expected(pol, Perform(pol, e, c).next, acc[i].stream)
    {
      IngestExpects(pol, e, c, acc[i].stream);
    }
    if Rewinds(pol, e, c, acc) && Takes(pol, e, c) == [] {
      var i :| 0 <= i < |acc| && acc[i].stream == c.p.stream && acc[i].sequence >= 0;
      assert acc'[i] == acc[i];
    }
  }

  lemma CallKeepsAboveIff(pol: Policy, e: Engine, c: Call, acc: seq<Packet>)
    requires AllBelow(pol, acc, e.next)
    ensures AllBelow(pol, acc + Takes(pol, e, c), Perform(pol, e, c).next) <==> !Rewinds(pol, e, c, acc)
  {
    hide Perform, Takes, Expected, Wraps;
    if c.Ingest? {
      IngestKeepsAboveIff(pol, e, c, acc);
    } else {
      OtherCallExpects(pol, e, c, 0);
      assert acc + Takes(pol, e, c) == acc;
      forall s: U32 { OtherCallExpects(pol, e, c, s); }
    }
  }

  /** Whatever calls are made, every stream expects more than all it has accepted, at every moment of the
      run, if and only if no call rewinds it; and then the sequences accepted on a stream strictly
      increase, reordering allowed or not. */
  lemma {:induction false} AcceptedIncrease(pol: Policy, calls: seq<Call>)
    ensures AlwaysAbove(pol, calls) <==> !EverRewinds(pol, calls)
    ensures !EverRewinds(pol, calls) ==> Increasing(Accepted(pol, calls))
  {
    if calls != [] {
      hide Perform, Takes, AllBelow, Increasing, Rewinds;
      var before, c := calls[..|calls| - 1], calls[|calls| - 1];
      AcceptedIncrease(pol, before);
      if AlwaysAbove(pol, before) {
        CallKeepsAboveIff(pol, Run(pol, before), c, Accepted(pol, before));
        IncreaseStep(pol, Run(pol, before), c, Accepted(pol, before));
      }
    }
  }

  lemma IncreaseStep(pol: Policy, e: Engine, c: Call, acc: seq<Packet>)
    requires AllBelow(pol, acc, e.next) && Increasing(acc)
    ensures Increasing(acc + Takes(pol, e, c))
  {
    hide Perform, Takes, Expected;
    TakesAtMostOne(pol, e, c);
    if Takes(pol, e, c) != [] { CallExpects(pol, e, c, c.p.stream); }
  }

  // ---------- exactly when strict streams increase ----------

  lemma {:induction false} CountOnPrefix(packets: seq<Packet>, k: nat, stream: U32)
    requires k <= |packets|
    ensures CountOn(packets[..k], stream) <= CountOn(packets, stream)
    ensures k < |packets| && packets[k].stream == stream ==>
              CountOn(packets[..k], stream) < CountOn(packets, stream)
  {
    if k == |packets| {
      assert packets[..k] == packets;
    } else {
      var front := packets[..|packets| - 1];
      CountOnPrefix(front, k, stream);
      assert front[..k] == packets[..k];
    }
  }

  /** The packet of a stream that has `n` others of it before. */
  lemma {:induction false} NthOn(packets: seq<Packet>, stream: U32, n: nat) returns (i: nat)
    requires n < CountOn(packets, stream)
    ensures i < |packets| && packets[i].stream == stream && CountOn(packets[..i], stream) == n
  {
    var front := packets[..|packets| - 1];
    if n < CountOn(front, stream) {
      i := NthOn(front, stream, n);
      assert packets[..i] == front[..i];
    } else {
      i := |packets| - 1;
    }
  }

  /** Consecutive packets fit below 2^64 on every stream. */
  predicate Fits(pol: Policy, packets: seq<Packet>) {
    forall s: U32 :: pol.startSequence + CountOn(packets, s) <= TWO_64
  }

  // Below 2^64 the sequences do not wrap.
  lemma SequenceAt(pol: Policy, packets: seq<Packet>, i: nat)
    requires Consecutive(pol, packets) && Fits(pol, packets) && i < |packets|
    ensures packets[i].sequence == pol.startSequence + CountOn(packets[..i], packets[i].stream)
  {
    hide CountOn;
    CountOnPrefix(packets, i, packets[i].stream);
    assert pol.startSequence + CountOn(packets, packets[i].stream) <= TWO_64;
  }

  lemma FitsIncrease(pol: Policy, packets: seq<Packet>)
    requires Consecutive(pol, packets) && Fits(pol, packets)
    ensures Increasing(packets)
  {
    hide CountOn, Consecutive, Fits;
    forall i, j | 0 <= i < j < |packets| && packets[i].stream == packets[j].stream
      ensures packets[i].sequence < packets[j].sequence
    {
      SequenceAt(pol, packets, i);
      SequenceAt(pol, packets, j);
      CountOnPrefix(packets[..j], i, packets[i].stream);
      assert packets[..j][..i] == packets[..i];
    }
  }

  lemma FewerIsEarlier(packets: seq<Packet>, i: nat, j: nat, s: U32)
    requires i <= |packets| && j <= |packets| && CountOn(packets[..i], s) < CountOn(packets[..j], s)
    ensures i < j
  {
    hide CountOn;
    var k := Min(i, j);
    CountOnPrefix(packets[..i], k, s);
    assert packets[..i][..k] == packets[..k];
  }

  lemma ExcessRepeats(pol: Policy, packets: seq<Packet>, s: U32)
    requires Consecutive(pol, packets) && pol.startSequence + CountOn(packets, s) > TWO_64
    ensures !Increasing(packets)
  {
    hide CountOn, WrapAdd;
    var n := U64_MAX - pol.startSequence;
    var i := NthOn(packets, s, n);
    var j := NthOn(packets, s, n + 1);
    FewerIsEarlier(packets, i, j, s);
    LastAndFirst(pol.startSequence);
    assert packets[i].sequence == U64_MAX && packets[j].sequence == 0;
  }

  lemma LastAndFirst(start: U64)
    ensures var n := U64_MAX - start;
      WrapAdd(start, n % TWO_64) == U64_MAX && WrapAdd(start, (n + 1) % TWO_64) == 0
  {
  }

  /** Without reordering, recovery and destroying, accepted sequences strictly increase if and only if
      no stream has accepted more packets than there are sequences from the start to the last one. */
  lemma IncreaseIffFits(pol: Policy, calls: seq<Call>)
    requires !pol.allowReorder && forall c :: c in calls ==> Undisturbed(c)
    ensures Increasing(Accepted(pol, calls)) <==> Fits(pol, Accepted(pol, calls))
  {
    hide Consecutive, Counted, Increasing;
    var acc := Accepted(pol, calls);
    AcceptedAreConsecutive(pol, calls);
    if Fits(pol, acc) {
      FitsIncrease(pol, acc);
    } else {
      var s: U32 :| pol.startSequence + CountOn(acc, s) > TWO_64;
      ExcessRepeats(pol, acc, s);
    }
  }

  lemma Append(pol: Policy, calls: seq<Call>, c: Call)
    ensures Run(pol, calls + [c]) == Perform(pol, Run(pol, calls), c)
    ensures Accepted(pol, calls + [c]) == Accepted(pol, calls) + Takes(pol, Run(pol, calls), c)
  {
    assert (calls + [c])[..|calls|] == calls;
  }

  lemma NoCalls(pol: Policy)
    ensures Run(pol, []) == FRESH && Accepted(pol, []) == []
  {
  }

  lemma ConnectStream(pol: Policy, stream: U32)
    ensures var calls := [LinkUp, Create(stream), Start(stream)];
      && Accepted(pol, calls) == []
      && Run(pol, calls) == FRESH.(streams := map[stream := Running], link := LinkRunning, next := map[stream := pol.startSequence])
  {
    hide Run, Accepted;
    NoCalls(pol);
    Append(pol, [], LinkUp);
    Append(pol, [LinkUp], Create(stream));
    Append(pol, [LinkUp, Create(stream)], Start(stream));
    assert [] + [LinkUp] == [LinkUp] && [LinkUp] + [Create(stream)] == [LinkUp, Create(stream)];
    assert [LinkUp, Create(stream)] + [Start(stream)] == [LinkUp, Create(stream), Start(stream)];
  }

  lemma IngestExpected(pol: Policy, e: Engine, p: Packet)
    requires Carries(e, p.stream) && !IsLate(pol, p, e.nowNs) && p.sequence == Expected(pol, e.next, p.stream)
    ensures Takes(pol, e, Ingest(p)) == [p]
    ensures Perform(pol, e, Ingest(p)) == e.(next := e.next[p.stream := WrapAdd(p.sequence, 1)], inbox := e.inbox + [p])
  {
  }

  /** At the last sequence the expectation wraps, and the increase is lost. */
  lemma IncreaseFailsAtWrap(stream: U32) returns (calls: seq<Call>)
    ensures forall c :: c in calls ==> Undisturbed(c)
    ensures var pol := Policy(0, false, U64_MAX);
      Accepted(pol, calls) == [Packet(stream, U64_MAX, 0, []), Packet(stream, 0, 0, [])]
  {
    hide Run, Accepted, Perform, Takes;
    var pol := Policy(0, false, U64_MAX);
    var up := [LinkUp, Create(stream), Start(stream)];
    var p, q := Packet(stream, U64_MAX, 0, []), Packet(stream, 0, 0, []);
    ConnectStream(pol, stream);
    Append(pol, up, Ingest(p));
    IngestExpected(pol, Run(pol, up), p);
    Append(pol, up + [Ingest(p)], Ingest(q));
    IngestExpected(pol, Run(pol, up + [Ingest(p)]), q);
    calls := up + [Ingest(p)] + [Ingest(q)];
  }

  /** Recovering a stream to a sequence it has already accepted makes it accept that packet again. */
  lemma RecoveryRepeats(pol: Policy, stream: U32) returns (calls: seq<Call>, p: Packet)
    ensures Accepted(pol, calls) == [p, p] && p.stream == stream && EverRewinds(pol, calls)
  {
    hide Run, Accepted, Perform, Takes;
    p := Packet(stream, pol.startSequence, 0, []);
    var once := [LinkUp, Create(stream), Start(stream), Ingest(p)];
    ConnectStream(pol, stream);
    assert once == [LinkUp, Create(stream), Start(stream)] + [Ingest(p)];
    Append(pol, [LinkUp, Create(stream), Start(stream)], Ingest(p));
    IngestExpected(pol, Run(pol, [LinkUp, Create(stream), Start(stream)]), p);
    Append(pol, once, Recover(stream, p.sequence));
    RecoverTakesNone(pol, Run(pol, once), stream, p.sequence);
    var back := once + [Recover(stream, p.sequence)];
    Append(pol, back, Ingest(p));
    IngestExpected(pol, Run(pol, back), p);
    calls := back + [Ingest(p)];
    AcceptedIncrease(pol, calls);
    assert !Increasing([p, p]) by { assert [p, p][0].stream == [p, p][1].stream; }
  }

  lemma RecoverTakesNone(pol: Policy, e: Engine, stream: U32, n: U64)
    ensures Takes(pol, e, Recover(stream, n)) == [] && Perform(pol, e, Recover(stream, n)) == DoRecover(e, stream, n)
  {
  }

  // ---------- recovery ----------

  datatype Admission = Admitted(gap: bool) | TooLate | Refused(e: TransportError)

  /** What the receive path does with a packet: on a gap, resynchronize to it and ingest it again. */
  function Admit(pol: Policy, e: Engine, p: Packet): (Engine, Admission) {
    var (e1, first) := DoIngest(pol, e, p);
    match first
    case Ok(_) => (e1, Admitted(false))
    case Err(SequenceGap(_, got)) =>
      var (e2, second) := DoIngest(pol, DoRecover(e1, p.stream, got), p);
      (match second
       case Ok(_) => (e2, Admitted(true))
       case Err(err) => (e2, Refused(err)))
    case Err(LatePacket(_, _)) => (e1, TooLate)
    case Err(err) => (e1, Refused(err))
  }

  /** What admission amounts to on a running stream, and it does not depend on `allowReorder`. */
  function Settled(pol: Policy, e: Engine, p: Packet): (Engine, Admission) {
    if IsLate(pol, p, e.nowNs) then (e.(late := e.late + 1), TooLate)
    else
      var gap := p.sequence != Expected(pol, e.next, p.stream);
      (e.(inbox := e.inbox + [p],
          next := e.next[p.stream := WrapAdd(p.sequence, 1)],
          gaps := if gap then e.gaps + 1 else e.gaps,
          link := if gap then LinkRunning else e.link), Admitted(gap))
  }

  // The first ingest decides, and after a resynchronization the second one succeeds.
  lemma AdmitCases(pol: Policy, e: Engine, p: Packet)
    requires Carries(e, p.stream)
    ensures var (e1, first) := DoIngest(pol, e, p);
      var (e', a) := Settled(pol, e, p);
      match first
      case Ok(_) => e' == e1 && a == Admitted(false) && e1.gaps == e.gaps && e1.late == e.late
      case Err(SequenceGap(_, got)) =>
        && DoIngest(pol, DoRecover(e1, p.stream, got), p) == (e', Ok(()))
        && a == Admitted(true) && e'.gaps == e.gaps + 1 && e'.late == e.late
      case Err(LatePacket(_, _)) => e' == e1 && a == TooLate && e1.gaps == e.gaps && e1.late == e.late + 1
      case Err(_) => false
  {
    hide WrapAdd;
    if !IsLate(pol, p, e.nowNs) && p.sequence != Expected(pol, e.next, p.stream) {
      var e1 := DoIngest(pol, e, p).0;
      var e2 := DoRecover(e1, p.stream, p.sequence);
      assert e2.streams == e.streams;
      assert CheckSequence(pol, e2.next, p) == (e2.next[p.stream := WrapAdd(p.sequence, 1)], Ok(()));
      assert e2.next[p.stream := WrapAdd(p.sequence, 1)] == e.next[p.stream := WrapAdd(p.sequence, 1)];
    }
  }

  /** On a running stream, recovery never fails: a late packet only counts, any other packet enters
      the inbox once, a gap being counted exactly when its sequence was not the expected one. The
      outcome is the same whether reordering is allowed or not. */
  lemma RecoveryNeverFails(pol: Policy, e: Engine, p: Packet)
    requires Carries(e, p.stream)
    ensures Admit(pol, e, p) == Settled(pol, e, p)
    ensures !Admit(pol, e, p).1.Refused?
    ensures Admit(pol.(allowReorder := !pol.allowReorder), e, p) == Admit(pol, e, p)
  {
    hide DoIngest, DoRecover;
    AdmitCases(pol, e, p);
    AdmitCases(pol.(allowReorder := !pol.allowReorder), e, p);
  }

  // Creating and starting a new stream.
  lemma StreamUp(pol: Policy, e: Engine, stream: U32)
    requires stream !in e.streams && stream !in e.next
    ensures DoCreate(pol, e, stream).1.Ok?
    ensures DoSetState(DoCreate(pol, e, stream).0, stream, Running).0
         == e.(streams := e.streams[stream := Running], next := e.next[stream := pol.startSequence])
  {
    assert e.streams[stream := Idle][stream := Running] == e.streams[stream := Running];
  }

  // ---------- the engine as objects ----------

  class SequenceChecker {
    var next: map<U32, U64>
    const start: U64
    const allowReorder: bool

    constructor (start: U64, allowReorder: bool)
      ensures next == map[] && this.start == start && this.allowReorder == allowReorder
    {
      next := map[];
      this.start := start;
      this.allowReorder := allowReorder;
    }

    method RegisterStream(stream: U32)
      modifies this
      ensures next == if stream in old(next) then old(next) else old(next)[stream := start]
    {
      if stream !in next {
        next := next[stream := start];
      }
    }

    method UnregisterStream(stream: U32)
      modifies this
      ensures next == old(next) - {stream}
    {
      next := next - {stream};
    }

    method Check(p: Packet, ghost pol: Policy) returns (r: Result<(), TransportError>)
      requires pol.startSequence == start && pol.allowReorder == allowReorder
      modifies this
      ensures (next, r) == CheckSequence(pol, old(next), p)
    {
      var expected := if p.stream in next then next[p.stream] else start;
      var got := p.sequence;
      if got == expected {
        next := next[p.stream := WrapAdd(expected, 1)];
        return Ok(());
      }
      if allowReorder && got > expected {
        next := next[p.stream := WrapAdd(got, 1)];
        return Err(SequenceGap(expected, got));
      }
      return Err(SequenceGap(expected, got));
    }

    method Resync(stream: U32, nextSeq: U64)
      modifies this
      ensures next == old(next)[stream := nextSeq]
    {
      next := next[stream := nextSeq];
    }
  }

  class SimTransportEngine {
    const pol: Policy
    const checker: SequenceChecker
    var streams: map<U32, StreamState>
    var inbox: seq<Packet>
    var outbox: seq<Packet>
    var link: LinkState
    var nowNs: U64
    var sequenceGaps: nat
    var latePackets: nat

    ghost predicate Valid()
      reads this
    {
      checker.start == pol.startSequence && checker.allowReorder == pol.allowReorder
    }

    ghost function Model(): Engine
      reads this, checker
    {
      Engine(streams, inbox, outbox, link, checker.next, nowNs, sequenceGaps, latePackets)
    }

    constructor (pol: Policy)
      ensures Valid() && fresh(checker) && this.pol == pol && Model() == FRESH
    {
      this.pol := pol;
      checker := new SequenceChecker(pol.startSequence, pol.allowReorder);
      streams := map[];
      inbox, outbox := [], [];
      link := Init;
      nowNs, sequenceGaps, latePackets := 0, 0, 0;
    }

    method SetNow(now: U64)
      requires Valid()
      modifies `nowNs
      ensures Valid() && Model() == old(Model()).(nowNs := now)
    {
      nowNs := now;
    }

    method Ingest(p: Packet) returns (r: Result<(), TransportError>)
      requires Valid()
      modifies this, checker
      ensures Valid() && (Model(), r) == DoIngest(pol, old(Model()), p)
    {
      if link != LinkRunning && link != Ready {
        return Err(LinkNotReady);
      }
      if p.stream !in streams {
        return Err(StreamNotFound(p.stream));
      }
      if streams[p.stream] != Running {
        return Err(StreamNotRunning(p.stream));
      }
      var ts := CheckTimestamp(pol, p, nowNs);
      if ts.Err? {
        latePackets := latePackets + 1;
        return ts;
      }
      r := checker.Check(p, pol);
      match r
      case Ok(_) => inbox := inbox + [p];
      case Err(_) => sequenceGaps := sequenceGaps + 1;
    }

    method RecoverSequence(stream: U32, nextSeq: U64)
      requires Valid()
      modifies this, checker
      ensures Valid() && Model() == DoRecover(old(Model()), stream, nextSeq)
    {
      checker.Resync(stream, nextSeq);
      if stream in streams {
        streams := streams[stream := Running];
      }
      link := LinkRunning;
    }

    method Send(p: Packet) returns (r: Result<(), TransportError>)
      requires Valid()
      modifies `outbox
      ensures Valid() && (Model(), r) == DoSend(old(Model()), p)
    {
      if link != LinkRunning && link != Ready {
        return Err(LinkNotReady);
      }
      if p.stream !in streams {
        return Err(StreamNotFound(p.stream));
      }
      if streams[p.stream] != Running {
        return Err(StreamNotRunning(p.stream));
      }
      outbox := outbox + [p];
      return Ok(());
    }

    method Receive() returns (p: Option<Packet>)
      requires Valid()
      modifies `inbox
      ensures Valid() && (Model(), p) == DoReceive(old(Model()))
    {
      if inbox == [] {
        return None;
      }
      p := Some(inbox[0]);
      inbox := inbox[1..];
    }

    method CreateStream(stream: U32) returns (r: Result<U32, TransportError>)
      requires Valid()
      modifies this, checker
      ensures Valid() && (Model(), r) == DoCreate(pol, old(Model()), stream)
    {
      if stream in streams {
        return Err(StreamExists(stream));
      }
      checker.RegisterStream(stream);
      streams := streams[stream := Idle];
      return Ok(stream);
    }

    method StartStream(stream: U32) returns (r: Result<(), TransportError>)
      requires Valid()
      modifies `streams
      ensures Valid() && (Model(), r) == DoSetState(old(Model()), stream, Running)
    {
      if stream !in streams {
        return Err(StreamNotFound(stream));
      }
      streams := streams[stream := Running];
      return Ok(());
    }

    method StopStream(stream: U32) returns (r: Result<(), TransportError>)
      requires Valid()
      modifies `streams
      ensures Valid() && (Model(), r) == DoSetState(old(Model()), stream, Stopped)
    {
      if stream !in streams {
        return Err(StreamNotFound(stream));
      }
      streams := streams[stream := Stopped];
      return Ok(());
    }

    method DestroyStream(stream: U32) returns (r: Result<(), TransportError>)
      requires Valid()
      modifies this, checker
      ensures Valid() && (Model(), r) == DoDestroy(old(Model()), stream)
    {
      if stream !in streams {
        return Err(StreamNotFound(stream));
      }
      streams := streams - {stream};
      checker.UnregisterStream(stream);
      return Ok(());
    }

    method SetLink(up: bool)
      requires Valid()
      modifies `link
      ensures Valid() && Model() == old(Model()).(link := if up then LinkRunning else Init)
    {
      link := if up then LinkRunning else Init;
    }

    method ResetLink()
      requires Valid()
      modifies this
      ensures Valid() && Model() == DoReset(old(Model()))
    {
      link := Init;
      inbox, outbox := [], [];
      sequenceGaps, latePackets := 0, 0;
    }
  }
}
