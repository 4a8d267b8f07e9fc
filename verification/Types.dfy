/** Machine integers, their saturating and wrapping arithmetic, and the packet
    that travels through every stage of the data plane. */
module Types {
  const TWO_32: nat := 0x1_0000_0000
  const TWO_64: nat := 0x1_0000_0000_0000_0000
  const U64_MAX: nat := 0xFFFF_FFFF_FFFF_FFFF

  type Byte = n: nat | n < 0x100
  type U8 = n: nat | n < 0x100
  type U16 = n: nat | n < 0x1_0000
  type U32 = n: nat | n < TWO_32
  type U64 = n: nat | n < TWO_64

  datatype Option<+T> = None | Some(value: T)

  datatype Result<+T, +E> = Ok(value: T) | Err(error: E)

  datatype Packet = Packet(stream: U32, sequence: U64, timestamp: U64, payload: seq<Byte>)

  function Min(a: int, b: int): int { if a <= b then a else b }

  function Max(a: int, b: int): int { if a <= b then b else a }

  function SatAdd(a: U64, b: U64): U64 { if a + b <= U64_MAX then a + b else U64_MAX }

  function SatSub(a: U64, b: U64): U64 { if b <= a then a - b else 0 }

  function WrapAdd(a: U64, b: U64): U64 { (a + b) % TWO_64 }

  function WrapSub(a: U64, b: U64): U64 { (a - b) % TWO_64 }

  lemma WrapNext(k: nat)
    ensures WrapAdd(k % TWO_64, 1) == (k + 1) % TWO_64
  {
  }

  lemma WrapCases(a: U64, b: U64)
    ensures WrapAdd(a, b) == if a + b < TWO_64 then a + b else a + b - TWO_64
  {
  }
}
