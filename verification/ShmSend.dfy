/** Sending through the shared ring: a loop of pushes, interleaved with the consumer. */
module ShmSend {
  import opened Types
  import opened Protocol
  import opened ShmMachine
  import opened ShmFifo

  const TRIES: nat := 10_000

  datatype Outcome = Sent | Refused | Oversized

  /** The ring, and where the sender of `p` stands: the pushes it has begun, and how it returned. */
  datatype Send = Send(s: State, p: Packet, tries: nat, outcome: Option<Outcome>)

  /** One step of the sender: it begins a push, or continues the one in progress, until one succeeds,
      the packet proves too large, or the last try is refused. */
  function SenderStep(g: Geometry, x: Send): (x': Send)
    requires Admitted(g) && Shaped(g, x.s.mem)
    ensures Shaped(g, x'.s.mem)
  {
    if x.outcome.Some? then x
    else if x.s.t.prod.PIdle? then
      var (s', ev) := Step(g, x.s, CallPush(x.p));
      x.(s := s', tries := x.tries + 1, outcome := if ev.TooLarge? then Some(Oversized) else None)
    else
      var (s', ev) := Step(g, x.s, ProducerStep);
      x.(s := s', outcome := match ev
                             case Pushed(_) => Some(Sent)
                             case RingFull | SlotBusy => if x.tries == TRIES then Some(Refused) else None
                             case _ => None)
  }

  /** A step of the sender or, at any time, one of the consumer. */
  function SendStep(g: Geometry, x: Send, c: Choice): (x': Send)
    requires Admitted(g) && Shaped(g, x.s.mem)
    ensures Shaped(g, x'.s.mem)
  {
    match c
    case ProducerStep => SenderStep(g, x)
    case CallPush(_) => x
    case _ => x.(s := Step(g, x.s, c).0)
  }

  function RunSend(g: Geometry, schedule: seq<Choice>, p: Packet, choices: seq<Choice>): (x: Send)
    requires Admitted(g)
    ensures Shaped(g, x.s.mem)
  {
    if choices == [] then Send(Run(g, schedule), p, 0, None)
    else SendStep(g, RunSend(g, schedule, p, choices[..|choices| - 1]), choices[|choices| - 1])
  }

  /** While it runs, the sender has pushed nothing; once it has returned, its packet or nothing. */
  predicate Proper(g: Geometry, pushed: seq<Packet>, x: Send) {
    && x.s.t.pushed == pushed + (if x.outcome == Some(Sent) then [x.p] else [])
    && (if x.s.t.prod.PIdle? then x.outcome.None? ==> x.tries < TRIES
        else x.outcome.None? && x.s.t.prod.p == x.p && 0 < x.tries <= TRIES)
    && (x.outcome == Some(Refused) ==> x.tries == TRIES)
    && (x.outcome.Some? || x.tries > 0 ==> (x.outcome == Some(Oversized) <==> |FrameBytes(x.p)| > g.slotBytes))
  }

  lemma SenderStepProper(g: Geometry, pushed: seq<Packet>, x: Send)
    requires Inv(g, x.s) && Proper(g, pushed, x)
    ensures Proper(g, pushed, SenderStep(g, x)) && SenderStep(g, x).p == x.p
  {
    hide FrameBytes, DecodeFrame, IndexOf, SlotIndex, WrapSub, WrapAdd;
    OneUser(g, x.s, ProducerStep);
  }

  lemma OtherStepProper(g: Geometry, pushed: seq<Packet>, x: Send, c: Choice)
    requires Inv(g, x.s) && Proper(g, pushed, x) && (c.CallPop? || c.ConsumerStep?)
    ensures Proper(g, pushed, SendStep(g, x, c))
  {
    hide FrameBytes, DecodeFrame, IndexOf, SlotIndex, WrapAdd;
  }

  // The ring a sender leaves is one the two programs alone could leave.
  lemma ExtendSend(g: Geometry, schedule: seq<Choice>, x: Send, c: Choice) returns (more: seq<Choice>)
    requires Admitted(g) && x.s == Run(g, schedule)
    ensures Run(g, more) == SendStep(g, x, c).s
  {
    hide Step, Run;
    var d := if c.ProducerStep? && x.s.t.prod.PIdle? then CallPush(x.p) else c;
    Extend(g, schedule, d);
    more := if c.CallPush? || (c.ProducerStep? && x.outcome.Some?) then schedule else schedule + [d];
  }

  /** Whatever the consumer does meanwhile, a send pushes its packet at most once, and exactly once if
      and only if it returns successfully; it reports a full ring only after its last try. Throughout,
      the ring is in a state of the two-program machine, so it remains the FIFO. */
  lemma {:induction false} SendPushesOnce(g: Geometry, schedule: seq<Choice>, p: Packet, choices: seq<Choice>)
    returns (whole: seq<Choice>)
    requires Admitted(g) && Run(g, schedule).t.prod.PIdle?
    ensures var x := RunSend(g, schedule, p, choices);
      && x.p == p && Proper(g, Run(g, schedule).t.pushed, x) && Run(g, whole) == x.s
  {
    hide Step, SendStep, Run, Inv, FrameBytes;
    var pushed := Run(g, schedule).t.pushed;
    if choices == [] {
      whole := schedule;
    } else {
      var before, c := choices[..|choices| - 1], choices[|choices| - 1];
      whole := SendPushesOnce(g, schedule, p, before);
      var x := RunSend(g, schedule, p, before);
      RunInv(g, whole);
      SendStepProper(g, pushed, x, c);
      whole := ExtendSend(g, whole, x, c);
    }
  }

  lemma SendStepProper(g: Geometry, pushed: seq<Packet>, x: Send, c: Choice)
    requires Inv(g, x.s) && Proper(g, pushed, x)
    ensures Proper(g, pushed, SendStep(g, x, c)) && SendStep(g, x, c).p == x.p
  {
    hide Step, Inv, FrameBytes, SenderStep, Proper;
    match c
    case ProducerStep => SenderStepProper(g, pushed, x);
    case CallPush(_) =>
    case _ => OtherStepProper(g, pushed, x, c);
  }

  /** The steps a sender may still take before it returns. */
  function SendLeft(x: Send): int {
    if x.outcome.Some? then 0
    else (TRIES - x.tries) * (|FrameBytes(x.p)| + 8) + StepsLeft(x.s.t.prod) + 1
  }

  /** Each step of the sender brings it closer to returning, and the consumer never sets it back. */
  lemma SendReturns(g: Geometry, pushed: seq<Packet>, x: Send, c: Choice)
    requires Inv(g, x.s) && Proper(g, pushed, x)
    ensures 0 <= SendLeft(SendStep(g, x, c)) <= SendLeft(x)
    ensures c.ProducerStep? && x.outcome.None? ==> SendLeft(SendStep(g, x, c)) < SendLeft(x)
  {
    hide FrameBytes, DecodeFrame, Step, StepsLeft, SenderStep, SendLeft,
         Positions, Occupied, Apart, Tidy, ProducerOk, ConsumerOk;
    ConsumerSparesPush(g, x.s, c);
    LeftBounds(x);
    if c.ProducerStep? && x.outcome.None? {
      if x.s.t.prod.PIdle? { TryCosts(g, x); } else { PushGoesOn(g, x); }
      LeftBounds(SenderStep(g, x));
    } else if c.ProducerStep? {
      Returned(g, x);
    } else {
      SameLeft(x, SendStep(g, x, c));
    }
  }

  lemma SameLeft(x: Send, x': Send)
    requires x'.outcome == x.outcome && x'.tries == x.tries && x'.p == x.p && x'.s.t.prod == x.s.t.prod
    ensures SendLeft(x') == SendLeft(x)
  {
  }

  lemma Returned(g: Geometry, x: Send)
    requires Admitted(g) && Shaped(g, x.s.mem) && x.outcome.Some?
    ensures SenderStep(g, x) == x
  {
  }

  lemma ConsumerSparesPush(g: Geometry, s: State, c: Choice)
    requires Admitted(g) && Shaped(g, s.mem)
    ensures c.CallPop? || c.ConsumerStep? ==> Step(g, s, c).0.t.prod == s.t.prod
  {
    hide FrameBytes, DecodeFrame, SlotIndex;
  }

  lemma LeftBounds(x: Send)
    ensures x.outcome.Some? || x.tries <= TRIES ==> 0 <= SendLeft(x)
  {
    hide FrameBytes;
  }

  // Beginning a push uses up one try, which is worth more than all the steps of the push.
  lemma TryCosts(g: Geometry, x: Send)
    requires Inv(g, x.s) && x.outcome.None? && x.s.t.prod.PIdle? && x.tries < TRIES
    ensures var x' := SenderStep(g, x); x'.tries <= TRIES && SendLeft(x') < SendLeft(x)
  {
    hide FrameBytes, DecodeFrame, Step, StepsLeft, Positions, Occupied, Apart, Tidy, ProducerOk, ConsumerOk;
    PushIsShort(g, x.s, x.p);
    TryIsWorth(TRIES - x.tries, |FrameBytes(x.p)| + 8);
  }

  lemma PushIsShort(g: Geometry, s: State, p: Packet)
    requires Admitted(g) && Shaped(g, s.mem) && s.t.prod.PIdle?
    ensures StepsLeft(Step(g, s, CallPush(p)).0.t.prod) <= |FrameBytes(p)| + 6 && StepsLeft(s.t.prod) == 0
  {
    hide FrameBytes;
  }

  lemma TryIsWorth(tries: nat, m: nat)
    requires tries > 0
    ensures tries * m == (tries - 1) * m + m && (tries - 1) * m >= 0
  {
  }

  lemma PushGoesOn(g: Geometry, x: Send)
    requires Inv(g, x.s) && x.outcome.None? && !x.s.t.prod.PIdle? && x.tries <= TRIES
    ensures var x' := SenderStep(g, x); x'.tries <= TRIES && SendLeft(x') < SendLeft(x)
  {
    hide FrameBytes, DecodeFrame, Inv, Step, StepsLeft;
    PushStepsFewer(g, x.s);
    assert (TRIES - x.tries) * (|FrameBytes(x.p)| + 8) >= 0;
  }
}
