/**
 MD5 as sections 3.1 to 3.5 of RFC 1321 define it.  The operations on words are those
 of a machine whose addition is associative and commutative; the machine of 32-bit
 vectors is one.
 */
module Md5Spec {

  const TWO_8: nat := 0x100
  const TWO_32: nat := 0x1_0000_0000
  const TWO_64: nat := 0x1_0000_0000_0000_0000

  type Byte = b: nat | b < TWO_8
  type Word = w: nat | w < TWO_32

  // ------------------------------------------------------------------- words

  datatype Alu = Alu(add: (Word, Word) -> Word, and: (Word, Word) -> Word, or: (Word, Word) -> Word,
                     xor: (Word, Word) -> Word, not: Word -> Word, rotate: (Word, Word) -> Word)

  function Bits(x: Word): bv32 { x as bv32 }

  function Add(x: Word, y: Word): Word { (x + y) % TWO_32 }

  function OfBits(b: bv32): Word { b as nat }

  function And(x: Word, y: Word): Word { OfBits(Bits(x) & Bits(y)) }

  function Or(x: Word, y: Word): Word { OfBits(Bits(x) | Bits(y)) }

  function Xor(x: Word, y: Word): Word { OfBits(Bits(x) ^ Bits(y)) }

  function Not(x: Word): Word { OfBits(!Bits(x)) }

  function RotateLeft(x: Word, s: Word): Word {
    if s <= 32 then OfBits((Bits(x) << s) | (Bits(x) >> (32 - s))) else x
  }

  const MACHINE: Alu := Alu(Add, And, Or, Xor, Not, RotateLeft)

  /** Addition is commutative and associative. */
  ghost predicate AddLaw(m: Alu, x: Word, y: Word, z: Word) {
    m.add(x, y) == m.add(y, x) && m.add(m.add(x, y), z) == m.add(x, m.add(y, z))
  }

  ghost predicate Lawful(m: Alu) { forall x, y, z :: AddLaw(m, x, y, z) }

  lemma AddLaws(x: Word, y: Word, z: Word)
    ensures Add(x, y) == Add(y, x) && Add(Add(x, y), z) == Add(x, Add(y, z))
  {
  }

  lemma MachineIsLawful()
    ensures Lawful(MACHINE)
  {
    forall x, y, z
      ensures AddLaw(MACHINE, x, y, z)
    {
      AddLaws(x, y, z);
    }
  }

  datatype State = State(a: Word, b: Word, c: Word, d: Word)

  const INITIAL: State := State(0x67452301, 0xefcdab89, 0x98badcfe, 0x10325476)

  // ------------------------------------------------------------- compression

  function F(m: Alu, x: Word, y: Word, z: Word): Word { m.or(m.and(x, y), m.and(m.not(x), z)) }
  function G(m: Alu, x: Word, y: Word, z: Word): Word { m.or(m.and(x, z), m.and(y, m.not(z))) }
  function H(m: Alu, x: Word, y: Word, z: Word): Word { m.xor(m.xor(x, y), z) }
  function I(m: Alu, x: Word, y: Word, z: Word): Word { m.xor(y, m.or(x, m.not(z))) }

  /** The table of section 3.4, from T[1] to T[64], sixteen entries a round. */
  function T(round: nat, i: nat): Word {
    match (round, i)
    case (0, 0) => 0xd76aa478        case (0, 1) => 0xe8c7b756        case (0, 2) => 0x242070db        case (0, 3) => 0xc1bdceee
    case (0, 4) => 0xf57c0faf        case (0, 5) => 0x4787c62a        case (0, 6) => 0xa8304613        case (0, 7) => 0xfd469501
    case (0, 8) => 0x698098d8        case (0, 9) => 0x8b44f7af        case (0, 10) => 0xffff5bb1        case (0, 11) => 0x895cd7be
    case (0, 12) => 0x6b901122        case (0, 13) => 0xfd987193        case (0, 14) => 0xa679438e        case (0, 15) => 0x49b40821
    case (1, 0) => 0xf61e2562        case (1, 1) => 0xc040b340        case (1, 2) => 0x265e5a51        case (1, 3) => 0xe9b6c7aa
    case (1, 4) => 0xd62f105d        case (1, 5) => 0x2441453        case (1, 6) => 0xd8a1e681        case (1, 7) => 0xe7d3fbc8
    case (1, 8) => 0x21e1cde6        case (1, 9) => 0xc33707d6        case (1, 10) => 0xf4d50d87        case (1, 11) => 0x455a14ed
    case (1, 12) => 0xa9e3e905        case (1, 13) => 0xfcefa3f8        case (1, 14) => 0x676f02d9        case (1, 15) => 0x8d2a4c8a
    case (2, 0) => 0xfffa3942        case (2, 1) => 0x8771f681        case (2, 2) => 0x6d9d6122        case (2, 3) => 0xfde5380c
    case (2, 4) => 0xa4beea44        case (2, 5) => 0x4bdecfa9        case (2, 6) => 0xf6bb4b60        case (2, 7) => 0xbebfbc70
    case (2, 8) => 0x289b7ec6        case (2, 9) => 0xeaa127fa        case (2, 10) => 0xd4ef3085        case (2, 11) => 0x4881d05
    case (2, 12) => 0xd9d4d039        case (2, 13) => 0xe6db99e5        case (2, 14) => 0x1fa27cf8        case (2, 15) => 0xc4ac5665
    case (3, 0) => 0xf4292244        case (3, 1) => 0x432aff97        case (3, 2) => 0xab9423a7        case (3, 3) => 0xfc93a039
    case (3, 4) => 0x655b59c3        case (3, 5) => 0x8f0ccc92        case (3, 6) => 0xffeff47d        case (3, 7) => 0x85845dd1
    case (3, 8) => 0x6fa87e4f        case (3, 9) => 0xfe2ce6e0        case (3, 10) => 0xa3014314        case (3, 11) => 0x4e0811a1
    case (3, 12) => 0xf7537e82        case (3, 13) => 0xbd3af235        case (3, 14) => 0x2ad7d2bb        case (3, 15) => 0xeb86d391
    case _ => 0
  }

  /** How far the operations rotate; the same four times a round. */
  function Shift(round: nat, i: nat): Word {
    match (round, i % 4)
    case (0, 0) => 7    case (0, 1) => 12    case (0, 2) => 17    case (0, 3) => 22
    case (1, 0) => 5    case (1, 1) => 9    case (1, 2) => 14    case (1, 3) => 20
    case (2, 0) => 4    case (2, 1) => 11    case (2, 2) => 16    case (2, 3) => 23
    case (3, 0) => 6    case (3, 1) => 10    case (3, 2) => 15    case (3, 3) => 21
    case _ => 0
  }

  /** Which word of the block the i-th operation of a round takes. */
  function WordOf(round: nat, i: nat): (k: nat)
    requires round < 4
    ensures k < 16
  {
    if round == 0 then i % 16
    else if round == 1 then (5 * i + 1) % 16
    else if round == 2 then (3 * i + 5) % 16
    else 7 * i % 16
  }

  function Mix(m: Alu, round: nat, x: Word, y: Word, z: Word): Word
    requires round < 4
  {
    if round == 0 then F(m, x, y, z) else if round == 1 then G(m, x, y, z)
    else if round == 2 then H(m, x, y, z) else I(m, x, y, z)
  }

  /** One operation of a round.  The registers change their roles from one to the next. */
  function Operation(m: Alu, round: nat, i: nat, s: State, x: seq<Word>): State
    requires round < 4 && i < 16 && |x| == 16
  {
    var sum := m.add(m.add(m.add(s.a, Mix(m, round, s.b, s.c, s.d)), x[WordOf(round, i)]), T(round, i));
    State(s.d, m.add(s.b, m.rotate(sum, Shift(round, i))), s.b, s.c)
  }

  /** The operations of a round from the i-th on. */
  function Operations(m: Alu, round: nat, i: nat, s: State, x: seq<Word>): State
    requires round < 4 && i <= 16 && |x| == 16
    decreases 16 - i, s
  {
    if i == 16 then s else Operations(m, round, i + 1, Operation(m, round, i, s, x), x)
  }

  function Rounds(m: Alu, s: State, x: seq<Word>): State
    requires |x| == 16
  {
    Operations(m, 3, 0, Operations(m, 2, 0, Operations(m, 1, 0, Operations(m, 0, 0, s, x), x), x), x)
  }

  // -------------------------------------------------------- bytes and blocks

  /** The k-th word of a block, low-order byte first. */
  function WordAt(block: seq<Byte>, k: nat): Word
    requires 4 * k + 4 <= |block|
  {
    (block[4 * k] as int) + 0x100 * (block[4 * k + 1] as int) + 0x1_0000 * (block[4 * k + 2] as int)
    + 0x100_0000 * (block[4 * k + 3] as int)
  }

  function Words(block: seq<Byte>): (x: seq<Word>)
    requires |block| == 64
    ensures |x| == 16
  {
    seq(16, k requires 0 <= k < 16 => WordAt(block, k))
  }

  function WordBytes(w: Word): (s: seq<Byte>)
    ensures |s| == 4
  {
    [w % 0x100, w / 0x100 % 0x100, w / 0x1_0000 % 0x100, w / 0x100_0000]
  }

  function Bytes(words: seq<Word>): (s: seq<Byte>)
    ensures |s| == 4 * |words|
    decreases |words|
  {
    if words == [] then [] else Bytes(words[..|words| - 1]) + WordBytes(words[|words| - 1])
  }

  function Compress(m: Alu, s: State, block: seq<Byte>): State
    requires |block| == 64
  {
    var r := Rounds(m, s, Words(block));
    State(m.add(s.a, r.a), m.add(s.b, r.b), m.add(s.c, r.c), m.add(s.d, r.d))
  }

  type Compression = (State, seq<Byte>) -> State

  /** All blocks of the data, one after the other. */
  function Absorb(f: Compression, s: State, data: seq<Byte>): State
    requires |data| % 64 == 0
    decreases |data|
  {
    if data == [] then s else f(Absorb(f, s, data[..|data| - 64]), data[|data| - 64..])
  }

  function CompressionOf(m: Alu): Compression {
    (s: State, block: seq<Byte>) => if |block| == 64 then Compress(m, s, block) else s
  }

  // ----------------------------------------------------------------- padding

  function Zeros(n: nat): (s: seq<Byte>)
    ensures |s| == n
  {
    seq(n, _ => 0)
  }

  /** Section 3.1: a one bit and zeros up to 56 bytes modulo 64, at least one byte. */
  function Padding(length: nat): seq<Byte> { [0x80] + Zeros((55 - length) % 64) }

  /** Section 3.2: the length in bits modulo 2^64, low-order word first. */
  function LengthBytes(length: nat): seq<Byte> { Bytes([8 * length % TWO_32, 8 * length / TWO_32 % TWO_32]) }

  function Padded(message: seq<Byte>): (p: seq<Byte>)
    ensures |p| % 64 == 0 && message <= p
  {
    message + Padding(|message|) + LengthBytes(|message|)
  }

  /** Section 3.5. */
  function Output(s: State): seq<Byte> { Bytes([s.a, s.b, s.c, s.d]) }

  function DigestBy(f: Compression, message: seq<Byte>): seq<Byte> { Output(Absorb(f, INITIAL, Padded(message))) }

  function Digest(m: Alu, message: seq<Byte>): seq<Byte> { DigestBy(CompressionOf(m), message) }

  lemma AbsorbNext(f: Compression, s: State, data: seq<Byte>, block: seq<Byte>)
    requires |data| % 64 == 0 && |block| == 64
    ensures |data + block| % 64 == 0 && Absorb(f, s, data + block) == f(Absorb(f, s, data), block)
  {
    var all := data + block;
    assert all[..|all| - 64] == data && all[|all| - 64..] == block;
  }

  ghost predicate CompressesAt(m: Alu, f: Compression, s: State, block: seq<Byte>) {
    |block| == 64 ==> f(s, block) == Compress(m, s, block)
  }

  ghost predicate Compresses(m: Alu, f: Compression) { forall s, block :: CompressesAt(m, f, s, block) }

  lemma CompressionCompresses(m: Alu)
    ensures Compresses(m, CompressionOf(m))
  {
    forall s, block
      ensures CompressesAt(m, CompressionOf(m), s, block)
    {
    }
  }

  lemma {:induction false} AbsorbSame(m: Alu, f: Compression, g: Compression, s: State, data: seq<Byte>)
    requires Compresses(m, f) && Compresses(m, g) && |data| % 64 == 0
    ensures Absorb(f, s, data) == Absorb(g, s, data)
    decreases |data|
  {
    if data != [] {
      var short, last := data[..|data| - 64], data[|data| - 64..];
      AbsorbSame(m, f, g, s, short);
      assert CompressesAt(m, f, Absorb(f, s, short), last) && CompressesAt(m, g, Absorb(f, s, short), last);
    }
  }
}
