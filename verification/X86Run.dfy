/**
 What the machine does when it runs the sequences that SubstrateX86.hpp emits.
 */
module X86Run {
  import opened X86Machine
  import opened X86Emit

  /** The bytes `part` stand at offset k of the code. */
  predicate At(code: Code, k: nat, part: seq<Byte>) {
    k + |part| <= |code.bytes| && forall i :: 0 <= i < |part| ==> code.bytes[k + i] == part[i]
  }

  /** The code does not wrap around the address space. */
  predicate Mapped(code: Code) { code.base + |code.bytes| < TWO_64 }

  lemma AtHead(code: Code, k: nat, a: seq<Byte>, b: seq<Byte>)
    requires At(code, k, a + b)
    ensures At(code, k, a) && At(code, k + |a|, b)
  {
    forall i | 0 <= i < |a|
      ensures code.bytes[k + i] == a[i]
    {
      assert (a + b)[i] == a[i];
    }
    forall i | 0 <= i < |b|
      ensures code.bytes[k + |a| + i] == b[i]
    {
      assert (a + b)[|a| + i] == b[i];
    }
  }

  lemma NextPlace(code: Code, k: nat, part: seq<Byte>, pc: Word)
    requires Mapped(code) && At(code, k, part) && pc == code.base + k
    ensures Plus(pc, |part|) == pc + |part| < TWO_64
  {
  }

  /** The step at a place is the instruction that its bytes decode to. */
  lemma StepAt(isa: Isa, code: Code, k: nat, part: seq<Byte>, s: Cpu) returns (rest: seq<Byte>)
    requires Mapped(code) && At(code, k, part) && |part| > 0 && s.pc == code.base + k
    ensures Step(isa, code, s)
         == Execute(isa, Decode(isa, part + rest).op, Decode(isa, part + rest).len, s)
  {
    rest := code.bytes[k + |part|..];
    assert code.bytes[k..] == part + rest;
  }

  // ---------------------------------------------------------------- decoding

  lemma DecodeSkip(isa: Isa, size: Word, rest: seq<Byte>)
    ensures Decode(isa, SkipBytes(size) + rest) == Decoded(Jump(Signed32(size % TWO_32)), 5)
  {
    var v := size % TWO_32;
    ValueAtBytes32([0xe9], v, rest);
  }

  lemma DecodeCall(isa: Isa, v: nat, rest: seq<Byte>)
    requires v < TWO_32
    ensures Decode(isa, [0xe8] + Bytes32(v) + rest) == Decoded(Call(Signed32(v)), 5)
  {
    ValueAtBytes32([0xe8], v, rest);
  }

  lemma DecodeCond(isa: Isa, op: Byte, d: Byte, rest: seq<Byte>)
    requires IsCond(op)
    ensures Decode(isa, [op, d] + rest) == Decoded(Cond(op, Signed8(d)), 2)
  {
  }

  lemma DecodeShort(isa: Isa, d: Byte, rest: seq<Byte>)
    ensures Decode(isa, [0xeb, d] + rest) == Decoded(Jump(Signed8(d)), 2)
  {
  }

  lemma DecodeRet(isa: Isa, rest: seq<Byte>)
    ensures Decode(isa, [0xc3] + rest) == Decoded(Ret, 1)
  {
  }

  lemma DecodePush(isa: Isa, v: nat, rest: seq<Byte>)
    requires v < TWO_32
    ensures Decode(isa, [0x68] + Bytes32(v) + rest) == Decoded(PushImm(Wrap(Signed32(v))), 5)
  {
    ValueAtBytes32([0x68], v, rest);
  }

  lemma DecodeHigh(isa: Isa, v: nat, rest: seq<Byte>)
    requires v < TWO_32
    ensures Decode(isa, [0xc7, 0x44, 0x24, 0x04] + Bytes32(v) + rest) == Decoded(StoreHigh(v), 8)
  {
    ValueAtBytes32([0xc7, 0x44, 0x24, 0x04], v, rest);
  }

  lemma DecodePop(isa: Isa, r: Reg, rest: seq<Byte>)
    ensures Decode(isa, PopBytes(r) + rest) == Decoded(Pop(r), SizeOfPop(r))
  {
  }

  /** The load that MSWriteMove64(r, r) emits is the intended one exactly when the low
      three bits of r do not select the forms with a SIB byte or a displacement. */
  lemma MoveDecodes(isa: Isa, r: Reg, rest: seq<Byte>)
    ensures Decode(isa, Move64Bytes(r, r) + rest) == Decoded(LoadReg(r, r), 3) <==> r % 8 != 4 && r % 8 != 5
  {
    MoveCode(isa, r, rest);
    MoveExactly(Move64Bytes(r, r) + rest, r);
  }

  lemma MoveCode(isa: Isa, r: Reg, rest: seq<Byte>)
    ensures var code := Move64Bytes(r, r) + rest;
            code[0] == 0x48 + r / 8 * 5 && code[2] == r % 8 * 9 && Decode(isa, code) == DecodeMove(code)
  {
    MoveRange(r / 8, r % 8);
  }

  lemma MoveRange(high: nat, low: nat)
    requires high < 2 && low < 8
    ensures 0x48 <= 0x48 + high * 4 + high < 0x50 && low * 8 + low < 0x40
  {
  }

  lemma MoveExactly(code: seq<Byte>, r: Reg)
    requires |code| >= 3 && code[0] == 0x48 + r / 8 * 5 && code[2] == r % 8 * 9
    ensures DecodeMove(code) == Decoded(LoadReg(r, r), 3) <==> r % 8 != 4 && r % 8 != 5
  {
    MoveFields(r / 8, r % 8);
  }

  lemma MoveFields(high: nat, low: nat)
    requires high < 2 && low < 8
    ensures var rex := (0x48 + high * 5) % 16; rex / 4 % 2 == high && rex % 2 == high
    ensures low * 9 / 8 % 8 == low && low * 9 % 8 == low
  {
    assert high == 0 || high == 1;
    assert low * 9 == 8 * low + low;
  }

  // ---------------------------------------------------------------- the stack

  /** The n addresses from a on. */
  ghost function Span(a: Word, n: nat): iset<Word> { iset x: Word | InRange(x, a, n) }

  /** Where a push writes when the stack pointer is sp. */
  ghost function Slot(sp: Word): iset<Word> { Span(Plus(sp, -8), 8) }

  /** Registers and flags agree, and so does memory but for the addresses in `dirt`. */
  ghost predicate Same(dirt: iset<Word>, c: Core, d: Core) {
    c.regs == d.regs && c.flags == d.flags && Alike(dirt, c.mem, d.mem)
  }

  ghost predicate Alike(dirt: iset<Word>, m: Memory, k: Memory) {
    forall x: Word :: x !in dirt ==> Peek(m, x) == Peek(k, x)
  }

  /** An n-byte read at a touches no dirt. */
  ghost predicate Clear(dirt: iset<Word>, a: Word, n: nat) {
    forall x: Word :: InRange(x, a, n) ==> x !in dirt
  }

  lemma LoadAlike(dirt: iset<Word>, m: Memory, k: Memory, a: Word)
    requires Alike(dirt, m, k) && Clear(dirt, a, 8)
    ensures Load64(m, a) == Load64(k, a)
  {
    LoadSame(m, k, a, 8);
  }

  /** A store changes no other address. */
  lemma StoreAlike(m: Memory, a: Word, v: Word, n: nat)
    requires n <= 16
    ensures Alike(Span(a, n), m, Store(m, a, v, n))
  {
    forall x: Word | x !in Span(a, n)
      ensures Peek(m, x) == Peek(Store(m, a, v, n), x)
    {
      PeekStore(m, a, v, n, x);
    }
  }

  lemma Power8()
    ensures Power256(4) == TWO_32 && Power256(8) == TWO_64
  {
    assert Power256(1) == TWO_8;
    assert Power256(2) == 0x1_0000;
    assert Power256(3) == 0x100_0000;
    assert Power256(4) == TWO_32;
    assert Power256(5) == 0x100_0000_0000;
    assert Power256(6) == 0x1_0000_0000_0000;
    assert Power256(7) == 0x100_0000_0000_0000;
  }

  lemma LoadPushed(m: Memory, a: Word, v: Word)
    ensures Load64(Store(m, a, v, 8), a) == v
  {
    LoadWidth(m, a, v, 8);
  }

  lemma LoadWidth(m: Memory, a: Word, v: Word, n: nat)
    requires n == 8
    ensures Load(Store(m, a, v, n), a, n) == v
  {
    WordFits(v, n);
    LoadStore(m, a, v, n);
  }

  lemma WordFits(v: Word, n: nat)
    requires n == 8
    ensures v < Power256(n)
  {
    Power8();
  }

  /** Four bytes hold what the value is modulo 2^32. */
  lemma StoreLow(m: Memory, a: Word, v: nat, u: nat, n: nat)
    requires Power256(n) == TWO_32 && v % TWO_32 == u % TWO_32
    ensures Store(m, a, v, n) == Store(m, a, u, n)
  {
    StoreLowSteps(m, a, v, u, n);
  }

  lemma {:induction false} StoreLowSteps(m: Memory, a: Word, v: nat, u: nat, n: nat)
    requires v % Power256(n) == u % Power256(n)
    ensures Store(m, a, v, n) == Store(m, a, u, n)
    decreases n
  {
    if n > 0 {
      LowByte(v, u, Power256(n - 1));
      StoreLowSteps(m[a := v % TWO_8], Plus(a, 1), v / TWO_8, u / TWO_8, n - 1);
    }
  }

  lemma LowByte(v: nat, u: nat, p: nat)
    requires p > 0 && v % (TWO_8 * p) == u % (TWO_8 * p)
    ensures v % TWO_8 == u % TWO_8 && (v / TWO_8) % p == (u / TWO_8) % p
  {
    ByteOf(v, p);
    ByteOf(u, p);
  }

  lemma ByteOf(v: nat, p: nat)
    requires p > 0
    ensures v % TWO_8 == v % (TWO_8 * p) % TWO_8 && (v / TWO_8) % p == v % (TWO_8 * p) / TWO_8
  {
    var q, r := v / TWO_8, v % TWO_8;
    var x, y := q / p, q % p;
    assert v == (TWO_8 * p) * x + (TWO_8 * y + r) by {
      assert TWO_8 * (p * x) == (TWO_8 * p) * x;
    }
    RemainderUnique(v, TWO_8 * p, x, TWO_8 * y + r);
  }

  lemma {:induction false} StoreCommute(m: Memory, a: Word, c: Byte, b: Word, v: nat, n: nat)
    requires n <= 16 && !InRange(a, b, n)
    ensures Store(m, b, v, n)[a := c] == Store(m[a := c], b, v, n)
    decreases n
  {
    if n > 0 {
      RangeStep(a, b, n);
      StoreCommute(m[b := v % TWO_8], a, c, Plus(b, 1), v / TWO_8, n - 1);
      assert m[b := v % TWO_8][a := c] == m[a := c][b := v % TWO_8];
    }
  }

  /** A second store of the same width hides the first. */
  lemma {:induction false} StoreTwice(m: Memory, a: Word, v: nat, u: nat, n: nat)
    requires n <= 15
    ensures Store(Store(m, a, v, n), a, u, n) == Store(m, a, u, n)
    decreases n
  {
    if n > 0 {
      var b := Plus(a, 1);
      NotAhead(a, n - 1);
      StoreCommute(m[a := v % TWO_8], a, u % TWO_8, b, v / TWO_8, n - 1);
      assert m[a := v % TWO_8][a := u % TWO_8] == m[a := u % TWO_8];
      StoreTwice(m[a := u % TWO_8], b, v / TWO_8, u / TWO_8, n - 1);
    }
  }

  lemma SignKeepsLow(low: nat)
    requires low < TWO_32
    ensures Wrap(Signed32(low)) % TWO_32 == low
  {
  }

  /** The two stores of MSPushPointer leave the whole pointer. */
  lemma PushHalves(m: Memory, a: Word, wide: Word, target: Word, n: nat)
    requires n <= 7 && Power256(n) == TWO_32
    requires wide % TWO_32 == target % TWO_32
    ensures Store(Store(m, a, wide, n + n), Plus(a, n), target / TWO_32, n) == Store(m, a, target, n + n)
  {
    Halves(m, a, wide, n);
    Halves(m, a, target, n);
    StoreLow(m, a, wide, target, n);
    StoreTwice(Store(m, a, wide, n), Plus(a, n), wide / TWO_32, target / TWO_32, n);
  }

  lemma Halves(m: Memory, a: Word, v: Word, n: nat)
    requires n <= 8 && Power256(n) == TWO_32
    ensures Store(m, a, v, n + n) == Store(Store(m, a, v, n), Plus(a, n), v / TWO_32, n)
  {
    StoreSplit(m, a, v, n, n);
  }

  lemma PushWhole(m: Memory, a: Word, target: Word)
    ensures Store(Store(m, a, Wrap(Signed32(target % TWO_32)), 8), Plus(a, 4), target / TWO_32, 4)
         == Store(m, a, target, 8)
  {
    Power8();
    SignKeepsLow(target % TWO_32);
    PushHalves(m, a, Wrap(Signed32(target % TWO_32)), target, 4);
  }
}
