/** The 32-byte little-endian frame header and the frame codec. */
module Protocol {
  import opened Types
  import opened Arithmetic

  const AETHER_MAGIC: U32 := 0x4154_4852
  const AETHER_VERSION: U16 := 1
  const HEADER_LEN: nat := 32

  datatype Header = Header(
    magic: U32, version: U16, stream: U32, timestamp: U64, sequence: U64, payloadLen: U32)

  datatype ProtocolError =
    | Truncated(got: nat, need: nat)
    | BadMagic(magic: U32)
    | UnsupportedVersion(version: U16)
    | PayloadLenMismatch(header: U32, body: nat)

  // ---------- little-endian numbers ----------

  function Pow256(n: nat): (r: nat)
    ensures r > 0
  {
    if n == 0 then 1 else 0x100 * Pow256(n - 1)
  }

  function LeBytes(v: nat, n: nat): (s: seq<Byte>)
    ensures |s| == n
  {
    if n == 0 then [] else [v % 0x100] + LeBytes(v / 0x100, n - 1)
  }

  function LeValue(s: seq<Byte>): (v: nat)
    ensures v < Pow256(|s|)
  {
    if s == [] then 0 else s[0] + 0x100 * LeValue(s[1..])
  }

  lemma Widths()
    ensures Pow256(2) == 0x1_0000 && Pow256(4) == TWO_32 && Pow256(8) == TWO_64
  {
    assert Pow256(1) == 0x100;
    assert Pow256(2) == 0x1_0000;
    assert Pow256(3) == 0x100_0000;
    assert Pow256(4) == TWO_32;
    assert Pow256(5) == 0x100_0000_0000;
    assert Pow256(6) == 0x1_0000_0000_0000;
    assert Pow256(7) == 0x100_0000_0000_0000;
  }

  lemma {:induction false} LeValueOfBytes(v: nat, n: nat)
    requires v < Pow256(n)
    ensures LeValue(LeBytes(v, n)) == v
  {
    if n > 0 {
      LeValueOfBytes(v / 0x100, n - 1);
      assert LeBytes(v, n)[1..] == LeBytes(v / 0x100, n - 1);
    }
  }

  lemma {:induction false} LeBytesOfValue(s: seq<Byte>)
    ensures LeBytes(LeValue(s), |s|) == s
  {
    if s != [] {
      var tail := LeValue(s[1..]);
      assert (s[0] + 0x100 * tail) % 0x100 == s[0] && (s[0] + 0x100 * tail) / 0x100 == tail;
      LeBytesOfValue(s[1..]);
    }
  }

  function Le16(s: seq<Byte>): U16
    requires |s| == 2
  {
    Widths(); LeValue(s)
  }

  function Le32(s: seq<Byte>): U32
    requires |s| == 4
  {
    Widths(); LeValue(s)
  }

  function Le64(s: seq<Byte>): U64
    requires |s| == 8
  {
    Widths(); LeValue(s)
  }

  lemma LeInverse(s2: seq<Byte>, s4: seq<Byte>, s8: seq<Byte>, v2: U16, v4: U32, v8: U64)
    requires |s2| == 2 && |s4| == 4 && |s8| == 8
    ensures s2 == LeBytes(v2, 2) <==> v2 == Le16(s2)
    ensures s4 == LeBytes(v4, 4) <==> v4 == Le32(s4)
    ensures s8 == LeBytes(v8, 8) <==> v8 == Le64(s8)
  {
    Widths();
    LeValueOfBytes(v2, 2); LeValueOfBytes(v4, 4); LeValueOfBytes(v8, 8);
    LeBytesOfValue(s2); LeBytesOfValue(s4); LeBytesOfValue(s8);
  }

  /** Byte `i` of a number, counted from the least significant one. */
  function Digit(v: nat, i: nat): Byte { (v / Pow256(i)) % 0x100 }

  /** The least significant byte comes first. */
  lemma {:induction false} LeBytesAt(v: nat, n: nat, i: nat)
    requires i < n
    ensures LeBytes(v, n)[i] == (v / Pow256(i)) % 0x100
  {
    if i > 0 {
      LeBytesAt(v / 0x100, n - 1, i - 1);
      DivByProduct(v, 0x100, Pow256(i - 1));
    }
  }

  /** The `n` bytes of `b` from `at` on are the number `v`, least significant byte first. */
  predicate Carries(b: seq<Byte>, at: nat, n: nat, v: nat) {
    at + n <= |b| && v < Pow256(n) && forall i :: 0 <= i < n ==> b[at + i] == Digit(v, i)
  }

  lemma CarriesBytes(b: seq<Byte>, at: nat, n: nat, v: nat)
    requires at + n <= |b| && v < Pow256(n)
    ensures Carries(b, at, n, v) <==> b[at..at + n] == LeBytes(v, n)
  {
    hide LeBytes, Digit;
    var s := b[at..at + n];
    forall i | 0 <= i < n ensures LeBytes(v, n)[i] == Digit(v, i) && s[i] == b[at + i] {
      DigitAt(v, n, i);
    }
    if Carries(b, at, n, v) {
      assert forall i :: 0 <= i < n ==> s[i] == LeBytes(v, n)[i];
    }
  }

  lemma DigitAt(v: nat, n: nat, i: nat)
    requires i < n
    ensures LeBytes(v, n)[i] == Digit(v, i)
  {
    LeBytesAt(v, n, i);
  }

  // ---------- header ----------

  function NewHeader(stream: U32, timestamp: U64, sequence: U64, payloadLen: U32): Header {
    Header(AETHER_MAGIC, AETHER_VERSION, stream, timestamp, sequence, payloadLen)
  }

  /** A header image carrying `x` and `y` in its two reserved bytes. */
  function HeaderImage(h: Header, x: Byte, y: Byte): (s: seq<Byte>)
    ensures |s| == HEADER_LEN
  {
    LeBytes(h.magic, 4) + LeBytes(h.version, 2) + [x, y] + LeBytes(h.stream, 4)
    + LeBytes(h.timestamp, 8) + LeBytes(h.sequence, 8) + LeBytes(h.payloadLen, 4)
  }

  /** The wire image of a header; bytes 6 and 7 are reserved and sent as zero. */
  function HeaderBytes(h: Header): (s: seq<Byte>)
    ensures |s| == HEADER_LEN
  {
    HeaderImage(h, 0, 0)
  }

  /** Copies `src` into `buf` at `at`, as `copy_from_slice` does. */
  method CopySlice(buf: array<Byte>, at: nat, src: seq<Byte>)
    requires at + |src| <= buf.Length
    modifies buf
    ensures buf[..] == old(buf[..at]) + src + old(buf[at + |src|..])
    ensures forall k :: 0 <= k < buf.Length && !(at <= k < at + |src|) ==> buf[k] == old(buf[k])
  {
    for k := 0 to |src|
      invariant buf[..at] == old(buf[..at])
      invariant buf[at..at + k] == src[..k]
      invariant forall j :: at + k <= j < buf.Length ==> buf[j] == old(buf[j])
    {
      buf[at + k] := src[k];
    }
  }

  /** Writes the next field behind the `done` bytes; what follows stays zero. */
  method PutField(buf: array<Byte>, at: nat, src: seq<Byte>, ghost done: seq<Byte>)
    requires at + |src| <= buf.Length && buf[..at] == done
    requires forall k :: at <= k < buf.Length ==> buf[k] == 0
    modifies buf
    ensures buf[..at + |src|] == done + src
    ensures forall k :: at + |src| <= k < buf.Length ==> buf[k] == 0
  {
    CopySlice(buf, at, src);
  }

  /** Where each field of a header stands. */
  predicate HeaderCarried(b: seq<Byte>, h: Header) {
    && |b| >= 32
    && Carries(b, 0, 4, h.magic) && Carries(b, 4, 2, h.version) && Carries(b, 8, 4, h.stream)
    && Carries(b, 12, 8, h.timestamp) && Carries(b, 20, 8, h.sequence) && Carries(b, 28, 4, h.payloadLen)
  }

  lemma ImageCarries(b: seq<Byte>, h: Header, x: Byte, y: Byte)
    requires |b| >= 32 && b[..32] == HeaderImage(h, x, y)
    ensures HeaderCarried(b, h) && b[6] == x && b[7] == y
  {
    hide LeBytes, Carries, HeaderImage, Pow256;
    Widths();
    ImageFields(h, x, y);
    var e := b[..32];
    assert b[0..4] == e[0..4] && b[4..6] == e[4..6] && b[6] == e[6] && b[7] == e[7];
    assert b[8..12] == e[8..12] && b[12..20] == e[12..20];
    assert b[20..28] == e[20..28] && b[28..32] == e[28..32];
    CarriesBytes(b, 0, 4, h.magic); CarriesBytes(b, 4, 2, h.version); CarriesBytes(b, 8, 4, h.stream);
    CarriesBytes(b, 12, 8, h.timestamp); CarriesBytes(b, 20, 8, h.sequence); CarriesBytes(b, 28, 4, h.payloadLen);
  }

  method EncodeHeader(h: Header) returns (buf: array<Byte>)
    ensures fresh(buf)
    ensures buf[..] == HeaderBytes(h) && HeaderCarried(buf[..], h) && buf[6] == buf[7] == 0
  {
    hide LeBytes;
    buf := new Byte[32](_ => 0);
    PutField(buf, 0, LeBytes(h.magic, 4), []);
    PutField(buf, 4, LeBytes(h.version, 2), buf[..4]);
    ghost var six := buf[..6];
    assert buf[..8] == six + [0, 0];
    PutField(buf, 8, LeBytes(h.stream, 4), buf[..8]);
    PutField(buf, 12, LeBytes(h.timestamp, 8), buf[..12]);
    PutField(buf, 20, LeBytes(h.sequence, 8), buf[..20]);
    PutField(buf, 28, LeBytes(h.payloadLen, 4), buf[..28]);
    assert buf[..] == buf[..32];
    ImageCarries(buf[..], h, 0, 0);
  }

  function Validate(h: Header): Result<(), ProtocolError> {
    if h.magic != AETHER_MAGIC then Err(BadMagic(h.magic))
    else if h.version != AETHER_VERSION then Err(UnsupportedVersion(h.version))
    else Ok(())
  }

  function RawHeader(b: seq<Byte>): Header
    requires |b| >= HEADER_LEN
  {
    Header(Le32(b[0..4]), Le16(b[4..6]), Le32(b[8..12]), Le64(b[12..20]), Le64(b[20..28]), Le32(b[28..32]))
  }

  function DecodeHeader(b: seq<Byte>): Result<Header, ProtocolError> {
    if |b| < HEADER_LEN then Err(Truncated(|b|, HEADER_LEN))
    else
      var h := RawHeader(b);
      match Validate(h)
      case Ok(_) => Ok(h)
      case Err(e) => Err(e)
  }

  lemma ImageFields(h: Header, x: Byte, y: Byte)
    ensures var e := HeaderImage(h, x, y);
      && e[0..4] == LeBytes(h.magic, 4) && e[4..6] == LeBytes(h.version, 2) && e[6] == x && e[7] == y
      && e[8..12] == LeBytes(h.stream, 4) && e[12..20] == LeBytes(h.timestamp, 8)
      && e[20..28] == LeBytes(h.sequence, 8) && e[28..32] == LeBytes(h.payloadLen, 4)
  {
  }

  lemma Regroup(b: seq<Byte>)
    requires |b| >= HEADER_LEN
    ensures b[..32] == b[0..4] + b[4..6] + [b[6], b[7]] + b[8..12] + b[12..20] + b[20..28] + b[28..32]
  {
  }

  lemma FieldsInverse(b: seq<Byte>, h: Header)
    requires |b| >= HEADER_LEN
    ensures RawHeader(b) == h
       <==> && b[0..4] == LeBytes(h.magic, 4) && b[4..6] == LeBytes(h.version, 2)
            && b[8..12] == LeBytes(h.stream, 4) && b[12..20] == LeBytes(h.timestamp, 8)
            && b[20..28] == LeBytes(h.sequence, 8) && b[28..32] == LeBytes(h.payloadLen, 4)
  {
    LeInverse(b[4..6], b[0..4], b[12..20], h.version, h.magic, h.timestamp);
    LeInverse(b[4..6], b[8..12], b[20..28], h.version, h.stream, h.sequence);
    LeInverse(b[4..6], b[28..32], b[20..28], h.version, h.payloadLen, h.sequence);
  }

  // The bytes of a header determine it, and it determines all but the reserved two.
  lemma RawHeaderInverse(b: seq<Byte>, h: Header)
    requires |b| >= HEADER_LEN
    ensures RawHeader(b) == h <==> b[..32] == HeaderImage(h, b[6], b[7])
  {
    FieldsInverse(b, h);
    Regroup(b);
    if b[..32] == HeaderImage(h, b[6], b[7]) {
      RawHeaderOfImage(b, h);
    }
  }

  lemma RawHeaderOfImage(b: seq<Byte>, h: Header)
    requires |b| >= HEADER_LEN && b[..32] == HeaderImage(h, b[6], b[7])
    ensures RawHeader(b) == h
  {
    hide HeaderImage, RawHeader, LeBytes, LeValue;
    var e := HeaderImage(h, b[6], b[7]);
    ImageFields(h, b[6], b[7]);
    FieldsInverse(b, h);
    assert b[0..4] == e[0..4] && b[4..6] == e[4..6];
    assert b[8..12] == e[8..12] && b[12..20] == e[12..20];
    assert b[20..28] == e[20..28] && b[28..32] == e[28..32];
  }

  // ---------- frames ----------

  /** `payload.len() as u32` truncates. */
  function FrameHeader(p: Packet): Header {
    NewHeader(p.stream, p.timestamp, p.sequence, |p.payload| % TWO_32)
  }

  function FrameBytes(p: Packet): (s: seq<Byte>)
    ensures |s| == HEADER_LEN + |p.payload|
  {
    HeaderBytes(FrameHeader(p)) + p.payload
  }

  /** A frame byte by byte: "RHTA", version 1, two free bytes, then stream, timestamp, sequence, the
      payload's length modulo 2^32, and the payload. */
  predicate FrameCarried(b: seq<Byte>, p: Packet) {
    && |b| == 32 + |p.payload|
    && b[..6] == [0x52, 0x48, 0x54, 0x41, 0x01, 0x00]
    && Carries(b, 8, 4, p.stream) && Carries(b, 12, 8, p.timestamp) && Carries(b, 20, 8, p.sequence)
    && Carries(b, 28, 4, |p.payload| % 0x1_0000_0000) && b[32..] == p.payload
  }

  lemma MagicBytes(b: seq<Byte>)
    requires |b| >= 6
    ensures Carries(b, 0, 4, AETHER_MAGIC) <==> b[..4] == [0x52, 0x48, 0x54, 0x41]
    ensures Carries(b, 4, 2, AETHER_VERSION) <==> b[4..6] == [0x01, 0x00]
  {
    assert Pow256(0) == 1 && Pow256(1) == 0x100 && Pow256(2) == 0x1_0000 && Pow256(3) == 0x100_0000;
    Widths();
    assert Digit(AETHER_MAGIC, 0) == 0x52 && Digit(AETHER_MAGIC, 1) == 0x48;
    assert Digit(AETHER_MAGIC, 2) == 0x54 && Digit(AETHER_MAGIC, 3) == 0x41;
    assert Digit(AETHER_VERSION, 0) == 1 && Digit(AETHER_VERSION, 1) == 0;
    assert b[..4] == [b[0], b[1], b[2], b[3]] && b[4..6] == [b[4], b[5]];
    FourCarried(b, AETHER_MAGIC);
    TwoCarried(b, 4, AETHER_VERSION);
  }

  lemma FourCarried(b: seq<Byte>, v: U32)
    requires |b| >= 4
    ensures Carries(b, 0, 4, v) <==> b[0] == Digit(v, 0) && b[1] == Digit(v, 1) && b[2] == Digit(v, 2) && b[3] == Digit(v, 3)
  {
    hide Digit;
    Widths();
    assert forall i :: 0 <= i < 4 ==> b[0 + i] == b[i];
  }

  lemma TwoCarried(b: seq<Byte>, at: nat, v: U16)
    requires |b| >= at + 2
    ensures Carries(b, at, 2, v) <==> b[at] == Digit(v, 0) && b[at + 1] == Digit(v, 1)
  {
    hide Digit;
    Widths();
    assert b[at + 0] == b[at];
  }

  lemma FrameOnTheWire(p: Packet)
    ensures FrameCarried(FrameBytes(p), p) && FrameBytes(p)[6] == FrameBytes(p)[7] == 0
  {
    hide HeaderImage, Carries;
    var b := FrameBytes(p);
    assert b[..32] == HeaderImage(FrameHeader(p), 0, 0);
    ImageCarries(b, FrameHeader(p), 0, 0);
    MagicBytes(b);
    assert b[..6] == b[..4] + b[4..6];
  }

  method EncodeFrame(p: Packet) returns (out: seq<Byte>)
    ensures out == FrameBytes(p) && FrameCarried(out, p)
  {
    FrameOnTheWire(p);
    var header := EncodeHeader(FrameHeader(p));
    out := header[..];
    out := out + p.payload;
  }

  function DecodeFrame(b: seq<Byte>): Result<Packet, ProtocolError> {
    match DecodeHeader(b)
    case Err(e) => Err(e)
    case Ok(h) =>
      if |b| - 32 != h.payloadLen then Err(PayloadLenMismatch(h.payloadLen, |b| - 32))
      else Ok(Packet(h.stream, h.sequence, h.timestamp, b[32..]))
  }

  /** The frame of `p` with `x` and `y` in the reserved bytes. */
  function FrameImage(p: Packet, x: Byte, y: Byte): seq<Byte> {
    HeaderImage(FrameHeader(p), x, y) + p.payload
  }

  /** A byte string decodes to `p` exactly when it is the frame of `p` up to the two reserved bytes. */
  lemma DecodeAcceptsExactly(b: seq<Byte>, p: Packet)
    ensures DecodeFrame(b) == Ok(p)
       <==> |p.payload| < TWO_32 && |b| >= HEADER_LEN && b == FrameImage(p, b[6], b[7])
  {
    hide HeaderImage, RawHeader;
    if |b| >= HEADER_LEN {
      RawHeaderInverse(b, FrameHeader(p));
      SplitAt32(b, HeaderImage(FrameHeader(p), b[6], b[7]), p.payload);
    }
  }

  lemma SplitAt32(b: seq<Byte>, head: seq<Byte>, tail: seq<Byte>)
    requires |b| >= HEADER_LEN == |head|
    ensures b == head + tail <==> b[..32] == head && b[32..] == tail
  {
    assert b == b[..32] + b[32..];
    assert (head + tail)[..32] == head && (head + tail)[32..] == tail;
  }

  /** Decoding inverts encoding exactly for payloads whose length fits the header's 32 bits;
      any longer payload is refused by its own decoder. */
  lemma FrameRoundTrip(p: Packet)
    ensures DecodeFrame(FrameBytes(p)) == Ok(p) <==> |p.payload| < TWO_32
    ensures |p.payload| >= TWO_32 ==>
              DecodeFrame(FrameBytes(p)) == Err(PayloadLenMismatch(|p.payload| % TWO_32, |p.payload|))
  {
    var b := FrameBytes(p);
    ImageFields(FrameHeader(p), 0, 0);
    assert b[6] == 0 && b[7] == 0;
    assert b[..32] == HeaderImage(FrameHeader(p), 0, 0);
    RawHeaderInverse(b, FrameHeader(p));
    assert b == FrameImage(p, 0, 0);
    DecodeAcceptsExactly(b, p);
  }

  lemma RawCarried(b: seq<Byte>)
    requires |b| >= 32
    ensures HeaderCarried(b, RawHeader(b))
  {
    hide RawHeader, HeaderImage, HeaderCarried;
    RawHeaderInverse(b, RawHeader(b));
    ImageCarries(b, RawHeader(b), b[6], b[7]);
  }

  /** What any bytes decode to, byte by byte: a frame to its packet, anything else to the first thing
      wrong with it. */
  lemma DecodeReadsTheWire(b: seq<Byte>)
    ensures match DecodeFrame(b)
            case Ok(p) => FrameCarried(b, p)
            case Err(Truncated(got, need)) => got == |b| < 32 == need
            case Err(BadMagic(m)) => |b| >= 32 && Carries(b, 0, 4, m) && b[..4] != [0x52, 0x48, 0x54, 0x41]
            case Err(UnsupportedVersion(v)) =>
              |b| >= 32 && b[..4] == [0x52, 0x48, 0x54, 0x41] && Carries(b, 4, 2, v) && v != 1
            case Err(PayloadLenMismatch(h, body)) =>
              && |b| >= 32 && b[..6] == [0x52, 0x48, 0x54, 0x41, 0x01, 0x00]
              && Carries(b, 28, 4, h) && body == |b| - 32 != h
  {
    hide RawHeader, Carries;
    if |b| >= 32 {
      RawCarried(b);
      MagicBytes(b);
      MagicOnce(b, RawHeader(b).magic);
      assert b[..6] == b[..4] + b[4..6];
    }
  }

  // The bytes of a number determine it.
  lemma MagicOnce(b: seq<Byte>, m: U32)
    requires |b| >= 32 && Carries(b, 0, 4, m)
    ensures Carries(b, 0, 4, AETHER_MAGIC) ==> m == AETHER_MAGIC
  {
    hide Carries, LeBytes, LeValue;
    Widths();
    CarriesBytes(b, 0, 4, m);
    CarriesBytes(b, 0, 4, AETHER_MAGIC);
    LeValueOfBytes(m, 4);
    LeValueOfBytes(AETHER_MAGIC, 4);
  }
}
