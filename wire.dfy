/**
 * Wire-level primitives: the six wire types of the protobuf encoding, the
 * typed tag `(id << 3) + wireType` in Java's 32-bit int arithmetic, and the
 * base-128 varint used for length prefixes ("Message Structure" and "Base 128
 * Varints" in the Protocol Buffers Encoding guide).
 */
module Wire {

  newtype byte = x: int | 0 <= x < 256

  datatype Result<T, E> = Ok(value: T) | Err(error: E)

  /** The constants of WireType, in declaration order. */
  datatype WireType = VInt | Fixed64Bit | LengthPrefixed | GroupStart | GroupEnd | Fixed32Bit

  /** Java's `ordinal()`: the position of the constant in the declaration. */
  function Ordinal(w: WireType): (n: nat)
    ensures n <= 5
  {
    match w
    case VInt => 0
    case Fixed64Bit => 1
    case LengthPrefixed => 2
    case GroupStart => 3
    case GroupEnd => 4
    case Fixed32Bit => 5
  }

  /** `WireType.valueOf(int)`: the constant numbered `n`, or the "Unrecognized wire type" error. */
  function ValueOf(n: int): (r: Result<WireType, int>)
    ensures r.Ok? <==> 0 <= n <= 5
    ensures r.Ok? ==> Ordinal(r.value) == n
    ensures r.Err? ==> r.error == n
  {
    if n == 0 then Ok(VInt)
    else if n == 1 then Ok(Fixed64Bit)
    else if n == 2 then Ok(LengthPrefixed)
    else if n == 3 then Ok(GroupStart)
    else if n == 4 then Ok(GroupEnd)
    else if n == 5 then Ok(Fixed32Bit)
    else Err(n)
  }

  /** valueOf inverts ordinal: every constant is recovered from its number. */
  lemma ValueOfOrdinal(w: WireType)
    ensures ValueOf(Ordinal(w)) == Ok(w)
  {
  }

  /** Distinct constants have distinct numbers, so the numbering is a bijection onto 0..5. */
  lemma OrdinalInjective(w1: WireType, w2: WireType)
    requires Ordinal(w1) == Ordinal(w2)
    ensures w1 == w2
  {
    ValueOfOrdinal(w1);
    ValueOfOrdinal(w2);
  }

  const TwoTo31: int := 0x8000_0000
  const TwoTo32: int := 0x1_0000_0000

  predicate IsInt32(x: int)
  {
    -TwoTo31 <= x < TwoTo31
  }

  /** Java's `int`. */
  type Int32 = x: int | -0x8000_0000 <= x < 0x8000_0000

  /** Java int arithmetic: reduce a mathematical integer to 32-bit two's complement. */
  function ToInt32(x: int): (r: int)
    ensures IsInt32(r)
    ensures (r - x) % TwoTo32 == 0
    ensures IsInt32(x) ==> r == x
  {
    (x + TwoTo31) % TwoTo32 - TwoTo31
  }

  /** Java's `(tag << 3) + wireType` on ints. */
  function TypedTag(tag: int, wireType: int): (r: int)
    requires IsInt32(tag)
    requires 0 <= wireType < 8
    ensures IsInt32(r)
    ensures 0 <= tag < 0x1000_0000 ==> r == tag * 8 + wireType
  {
    ToInt32(ToInt32(tag * 8) + wireType)
  }

  /**
   * For every field id that fits the 29-bit tag space of the encoding, the typed
   * tag decodes back into the id (high bits) and the wire type (low 3 bits).
   */
  lemma TypedTagDecodes(tag: int, w: WireType)
    requires 0 <= tag < 0x1000_0000
    ensures TypedTag(tag, Ordinal(w)) / 8 == tag
    ensures TypedTag(tag, Ordinal(w)) % 8 == Ordinal(w)
    ensures ValueOf(TypedTag(tag, Ordinal(w)) % 8) == Ok(w)
  {
    ValueOfOrdinal(w);
  }

  /** Tag bytes the tests of the source expect for single-byte typed tags. */
  lemma TypedTagVectors()
    ensures TypedTag(1, Ordinal(VInt)) == 0x08 && TypedTag(2, Ordinal(VInt)) == 0x10
    ensures TypedTag(3, Ordinal(LengthPrefixed)) == 0x1A && TypedTag(5, Ordinal(LengthPrefixed)) == 0x2A
    ensures TypedTag(7, Ordinal(LengthPrefixed)) == 0x3A
  {
  }

  /**
   * `ProtobufUtil.lengthAsBytes`: the base-128 varint of a length, low 7-bit
   * group first, with the high bit set on every byte but the last.
   */
  function LengthAsBytes(n: nat): (bs: seq<byte>)
    ensures 1 <= |bs|
    ensures bs[|bs| - 1] < 128
    ensures forall i :: 0 <= i < |bs| - 1 ==> bs[i] >= 128
    decreases n
  {
    if n < 128 then [n as byte]
    else
      var low := n % 128;
      assert 0 <= low < 128 && n / 128 < n;
      var rest := LengthAsBytes(n / 128);
      var bs := [(128 + low) as byte] + rest;
      assert forall i :: 1 <= i < |bs| ==> bs[i] == rest[i - 1];
      bs
  }

  /** Decodes a varint at the start of `bs`: its value and the number of bytes it takes. */
  function DecodeVarint(bs: seq<byte>): (r: Result<(nat, nat), ()>)
    ensures r.Ok? ==> 1 <= r.value.1 <= |bs|
    decreases |bs|
  {
    if bs == [] then Err(())
    else if bs[0] < 128 then Ok((bs[0] as nat, 1))
    else match DecodeVarint(bs[1..])
      case Err(_) => Err(())
      case Ok((v, k)) => Ok(((bs[0] as nat - 128) + 128 * v, k + 1))
  }

  /** Round trip: a varint read back from the front of any byte string gives the length and its own size. */
  lemma {:induction false} DecodeLengthAsBytes(n: nat, rest: seq<byte>)
    ensures DecodeVarint(LengthAsBytes(n) + rest) == Ok((n, |LengthAsBytes(n)|))
    decreases n
  {
    if n >= 128 {
      DecodeLengthAsBytes(n / 128, rest);
      var bs := LengthAsBytes(n) + rest;
      assert bs[1..] == LengthAsBytes(n / 128) + rest;
    }
  }

  /** Byte counts the source's tests pin: up to 127 one byte, 128..16383 two bytes, above 0x3FFF at least three. */
  lemma {:induction false} LengthAsBytesSize(n: nat)
    ensures n < 128 ==> LengthAsBytes(n) == [n as byte]
    ensures 128 <= n < 0x4000 ==> LengthAsBytes(n) == [(0x80 + n % 0x80) as byte, (n / 0x80) as byte]
    ensures n >= 0x4000 ==> |LengthAsBytes(n)| >= 3
  {
    if n >= 0x4000 {
      assert n / 128 >= 128;
      assert |LengthAsBytes(n / 128)| >= 2;
    }
  }
}
