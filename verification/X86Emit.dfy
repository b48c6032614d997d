/**
 SubstrateX86.hpp for x86-64: the sizes of the instruction sequences that
 Substrate writes, and the bytes themselves.
 */
module X86Emit {
  import opened X86Machine

  predicate Is32BitOffset(target: Word, source: Word) {
    var offset := Signed64(Minus(target, source));
    -0x8000_0000 <= offset < 0x8000_0000
  }

  const SIZE_OF_SKIP: nat := 5
  const SIZE_OF_MOVE64: nat := 3

  function SizeOfPushPointer(target: Word): nat { if target / TWO_32 == 0 then 5 else 13 }

  function SizeOfJump(target: Word, source: Word): nat {
    if Is32BitOffset(target, Plus(source, 5)) then SIZE_OF_SKIP else SizeOfPushPointer(target) + 1
  }

  /** The size when the place of the jump is not known yet. */
  function SizeOfBlindJump(target: Word): nat { SizeOfPushPointer(target) + 1 }

  function SizeOfPop(r: Reg): nat { if r / 8 != 0 then 2 else 1 }

  function SkipBytes(size: Word): seq<Byte> { [0xe9] + Bytes32(size % TWO_32) }

  function PushPointerBytes(target: Word): seq<Byte> {
    var high := target / TWO_32;
    [0x68] + Bytes32(target % TWO_32) + (if high != 0 then [0xc7, 0x44, 0x24, 0x04] + Bytes32(high) else [])
  }

  /** A jump to target, written at `at`. */
  function JumpBytes(at: Word, target: Word): (s: seq<Byte>)
    ensures |s| == SizeOfJump(target, at)
    ensures |s| <= SizeOfBlindJump(target)
  {
    if Is32BitOffset(target, Plus(at, 5)) then SkipBytes(Minus(target, Plus(at, 5)))
    else PushPointerBytes(target) + [0xc3]
  }

  function PopBytes(r: Reg): (s: seq<Byte>)
    ensures |s| == SizeOfPop(r)
  {
    (if r / 8 != 0 then [0x41] else []) + [0x58 + r % 8]
  }

  function Move64Bytes(source: Reg, target: Reg): seq<Byte> {
    [0x48 + target / 8 * 4 + source / 8, 0x8b, target % 8 * 8 + source % 8]
  }

  // --------------------------------------------------- one instruction of the prologue

  /** What hde64_disasm reports, as far as it is used. */
  datatype Hde = Hde(len: nat, opcode: Byte, modrm: Byte, rexR: nat, modrmReg: nat, disp32: nat)

  /** (modrm & 0xc7) == 0x05 */
  predicate IsRip(h: Hde) { h.modrm / 64 == 0 && h.modrm % 8 == 5 }

  predicate Sane(h: Hde, code: seq<Byte>) {
    && 0 < h.len <= |code| && h.rexR < 2 && h.modrmReg < 8 && h.disp32 < TWO_32
    && (code[0] == 0xe8 || code[0] == 0xe9 ==> h.len == 5)
    && (code[0] == 0xeb || IsCond(code[0]) ==> h.len == 2)
    && (code[0] == 0xe8 || code[0] == 0xe9 || code[0] == 0xeb || IsCond(code[0]) ==> !IsRip(h))
  }

  function RipReg(h: Hde): Reg
    requires h.rexR < 2 && h.modrmReg < 8
  {
    h.rexR * 8 + h.modrmReg
  }

  /** The target of the relative instruction code that stands at `from`. */
  function Target32(from: Word, h: Hde, code: seq<Byte>): Word
    requires |code| >= 5
  {
    Plus(from, h.len + Signed32(ValueAt(code, 1)))
  }

  function Target8(from: Word, h: Hde, code: seq<Byte>): Word
    requires |code| >= 2
  {
    Plus(from, h.len + Signed8(code[1]))
  }

  function RipTarget(from: Word, h: Hde): Word
    requires h.disp32 < TWO_32
  {
    Plus(from, h.len + Signed32(h.disp32))
  }

  /** A call that returns behind the jump to its target. */
  function CallBytes(at: Word, destiny: Word): seq<Byte> {
    [0xe8] + Bytes32(SIZE_OF_SKIP) + SkipBytes(SizeOfJump(destiny, Plus(at, 10))) + JumpBytes(Plus(at, 10), destiny)
  }

  /** A conditional jump over a short jump over the jump to the target. */
  function CondBytes(at: Word, op: Byte, destiny: Word): seq<Byte> {
    [op, 2, 0xeb, SizeOfJump(destiny, Plus(at, 4))] + JumpBytes(Plus(at, 4), destiny)
  }

  function RipLoadBytes(destiny: Word, r: Reg): seq<Byte> {
    PushPointerBytes(destiny) + PopBytes(r) + Move64Bytes(r, r)
  }

  /** What the second pass writes at `at` for the instruction that stood at `from`. */
  function Relocated(from: Word, h: Hde, code: seq<Byte>, at: Word): seq<Byte>
    requires Sane(h, code)
  {
    if IsRip(h) then
      if h.opcode == 0x8b then
        RipLoadBytes(RipTarget(from, h), RipReg(h))
      else code[..h.len]
    else if code[0] == 0xe8 then
      if ValueAt(code, 1) == 0 then PushPointerBytes(Plus(from, h.len))
      else CallBytes(at, Target32(from, h, code))
    else if code[0] == 0xeb then JumpBytes(at, Target8(from, h, code))
    else if code[0] == 0xe9 then JumpBytes(at, Target32(from, h, code))
    else if IsCond(code[0]) then CondBytes(at, code[0], Target8(from, h, code))
    else code[..h.len]
  }

  /** What the first pass adds to `length` for the instruction, beyond its own width. */
  function Growth(from: Word, h: Hde, code: seq<Byte>): int
    requires Sane(h, code)
  {
    if IsRip(h) then
      if h.opcode == 0x8b then
        SizeOfPushPointer(RipTarget(from, h)) + SizeOfPop(RipReg(h)) + SIZE_OF_MOVE64 - h.len
      else 0
    else if code[0] == 0xe8 then
      if ValueAt(code, 1) == 0 then SizeOfPushPointer(Target32(from, h, code)) - h.len
      else SIZE_OF_SKIP + SizeOfBlindJump(Target32(from, h, code))
    else if code[0] == 0xeb then SizeOfBlindJump(Target8(from, h, code)) - h.len
    else if code[0] == 0xe9 then SizeOfBlindJump(Target32(from, h, code)) - h.len
    else if IsCond(code[0]) then h.len + SizeOfBlindJump(Target8(from, h, code))
    else 0
  }

  /** The sizing pass never reserves less than the emission pass writes. */
  lemma RelocatedFits(from: Word, h: Hde, code: seq<Byte>, at: Word)
    requires Sane(h, code)
    ensures |Relocated(from, h, code, at)| <= h.len + Growth(from, h, code)
    ensures 0 <= h.len + Growth(from, h, code)
  {
  }
}
