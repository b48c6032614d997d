/**
 Thumb instructions as SubstrateHook.cpp tells them apart and writes them, and what
 the ARM architecture makes of the pc-relative ones.  Halfwords and words carry
 their widths; bit operations on disjoint fields are written as arithmetic.
 */
module Thumb {

  const TWO_16: nat := 0x1_0000
  const TWO_32: nat := 0x1_0000_0000

  type Half = h: nat | h < TWO_16
  type Word = w: nat | w < TWO_32
  type Low = r: nat | r < 8

  function Wrap(x: int): Word { x % TWO_32 }

  /** Reading the pc for a literal aligns it to a word. */
  function Aligned(x: nat): nat { x - x % 4 }

  /** An n-bit value as a signed number, m being 2^n. */
  function Signed(v: nat, m: nat): int
    requires v < m
  {
    if 2 * v < m then v else v - m
  }

  function Bit(v: nat, m: nat): (b: nat)
    requires m > 0
    ensures b < 2
  {
    v / m % 2
  }

  // ------------------------------------------------------- telling them apart

  datatype Kind = Load | Branch | WideBranch | Call | Compare | WideLoad | AddPc | Wide | Narrow

  /** T$32bit$i */
  predicate Is32(h: Half) { h / 0x2000 == 7 && h / 0x800 % 4 != 0 }

  predicate IsLoad(h: Half) { h / 0x800 == 9 }

  predicate IsBranch(h: Half) { h / 0x1000 == 0xd && h / 0x200 % 8 != 7 }

  predicate IsWideBranch(h: Half, g: Half) {
    h / 0x800 == 0x1e && g / 0x4000 == 2 && (Bit(g, 0x1000) == 1 || h / 0x80 % 8 != 7)
  }

  predicate IsCall(h: Half, g: Half) { h / 0x800 == 0x1e && g / 0x4000 == 3 && (Bit(g, 0x1000) == 1 || g % 2 == 0) }

  /** cbz and cbnz */
  predicate IsCompare(h: Half) { h / 0x1000 == 0xb && Bit(h, 0x400) == 0 && Bit(h, 0x100) == 1 }

  predicate IsWideLoad(h: Half) { h == 0xf85f || h == 0xf8df }

  /** add with the pc as second operand */
  predicate IsAddPc(h: Half) { h / 0x100 == 0x44 && h / 8 % 16 == 15 }

  /** The tests in the order of the two passes; g is the halfword after h. */
  function KindOf(h: Half, g: Half): Kind {
    if IsLoad(h) then Load
    else if IsBranch(h) then Branch
    else if IsWideBranch(h, g) then WideBranch
    else if IsCall(h, g) then Call
    else if IsCompare(h) then Compare
    else if IsWideLoad(h) then WideLoad
    else if IsAddPc(h) then AddPc
    else if Is32(h) then Wide
    else Narrow
  }

  /** How many halfwords the passes step over. */
  function Width(k: Kind): nat { if k.WideBranch? || k.Call? || k.WideLoad? || k.Wide? then 2 else 1 }

  function ScanWidth(h: Half): nat { if Is32(h) then 2 else 1 }

  /** The passes step as the scan does, and look at a second halfword only where the
      instruction has one. */
  lemma WidthAgrees(h: Half, g: Half)
    ensures Width(KindOf(h, g)) == ScanWidth(h)
    ensures !Is32(h) ==> forall f: Half :: KindOf(h, f) == KindOf(h, g)
  {
    if IsWideBranch(h, g) || IsCall(h, g) || IsWideLoad(h) {
      assert Is32(h);
    }
    if !Is32(h) {
      forall f: Half
        ensures KindOf(h, f) == KindOf(h, g)
      {
        assert h / 0x800 != 0x1e;
      }
    }
  }

  // ------------------------------------------------------------------ writing

  /** ldr rd, [pc, #im * 4] */
  function LdrPc(rd: Low, im: nat): Half { 0x4800 + rd * 0x100 + im % 0x100 }

  /** ldr rd, [rd] */
  function LdrSelf(rd: Low): Half { 0x6800 + rd * 8 + rd }

  /** push {r} and pop {r} */
  function PushLow(r: Low): Half { 0xb400 + Power(r) }

  function PopLow(r: Low): Half { 0xbc00 + Power(r) }

  function Power(r: Low): (p: nat)
    ensures 0 < p <= 0x80
  {
    if r == 0 then 1 else if r == 1 then 2 else if r == 2 then 4 else if r == 3 then 8
    else if r == 4 then 0x10 else if r == 5 then 0x20 else if r == 6 then 0x40 else 0x80
  }

  /** mov rd, rm and add rd, rm */
  function MovReg(rd: nat, rm: nat): Half
    requires rd < 16 && rm < 16
  {
    0x4600 + rd / 8 * 0x80 + rm * 8 + rd % 8
  }

  function AddReg(rd: nat, rm: nat): Half
    requires rd < 16 && rm < 16
  {
    0x4400 + rd / 8 * 0x80 + rm * 8 + rd % 8
  }

  const BX_PC: Half := 0x4778
  const BLX_LR: Half := 0x47f0
  const NOP: Half := 0x46c0
  const R6: Low := 6
  const R7: Low := 7
  const LR: nat := 14
  const PC: nat := 15
  const AL: nat := 14

  /** b<cond> #im */
  function BranchBy(cond: nat, im: nat): Half
    requires cond < 15
  {
    if cond == AL then 0xe000 + im / 2 % 0x800 else 0xd000 + cond * 0x100 + im / 2 % 0x100
  }

  /** cbz or cbnz rn, #im */
  function CompareBy(op: nat, rn: Low, im: nat): Half
    requires op < 2
  {
    0xb100 + op * 0x800 + im / 0x40 % 2 * 0x200 + im / 2 % 0x20 * 8 + rn
  }

  /** mrs rd, apsr and msr apsr_nzcvqg, rn */
  function MrsApsr(rd: Low): seq<Half> { [0xf3ef, 0x8000 + rd * 0x100] }

  function MsrApsr(rn: Low): seq<Half> { [0xf380 + rn, 0x8c00] }

  /** ldr rt, [rn, #im] for an offset that is not negative */
  function WideLdr(rt: nat, rn: nat, im: nat): (s: seq<Half>)
    requires rt < 16 && rn < 16 && im < 0x1000
    ensures |s| == 2
  {
    [0xf8d0 + rn, rt * 0x1000 + im]
  }

  /** The two halfwords of a word, the low one first. */
  function Halves(w: Word): (s: seq<Half>)
    ensures |s| == 2 && Joined(s[0], s[1]) == w
  {
    [w % TWO_16, w / TWO_16]
  }

  function Joined(low: Half, high: Half): Word { low + high * TWO_16 }

  /** ldr pc, [pc, #-4] in ARM state */
  const LDR_PC_NEXT: Word := 0xe51f_f004

  // --------------------------------------- what the architecture makes of them

  /** The word that `ldr rd, [pc, #imm8 * 4]` at an address reads. */
  function LoadTarget(at: nat, h: Half): Word { Wrap(Aligned(at + 4) + h % 0x100 * 4) }

  function LoadRegister(h: Half): Low { h / 0x100 % 8 }

  /** The word that the 32-bit `ldr rt, [pc, #+/-imm12]` reads. */
  function WideLoadTarget(at: nat, h: Half, g: Half): Word {
    Wrap(Aligned(at + 4) + if Bit(h, 0x80) == 1 then g % 0x1000 else -(g % 0x1000))
  }

  function WideLoadRegister(g: Half): nat { g / 0x1000 }

  /** Where `b<cond>` leads, in its two 16-bit encodings. */
  function BranchTarget(at: nat, h: Half): Word {
    if h / 0x800 == 0x1c then Wrap(at + 4 + Signed(h % 0x800 * 2, 0x1000))
    else Wrap(at + 4 + Signed(h % 0x100 * 2, 0x200))
  }

  /** The condition of a branch, AL for the one that has none. */
  function Condition(h: Half): nat { if h / 0x800 == 0x1c then AL else h / 0x100 % 16 }

  /** I1 and I2 of the 32-bit branches. */
  function Inverted(j: nat, s: nat): nat { if j == s then 1 else 0 }

  /** The offset S:I1:I2:imm10:imm11:0 of encodings B.W T4, BL and BLX. */
  function FarOffset(h: Half, g: Half): int {
    var s := Bit(h, 0x400);
    Signed(s * 0x100_0000 + Inverted(Bit(g, 0x2000), s) * 0x80_0000 + Inverted(Bit(g, 0x800), s) * 0x40_0000
           + h % 0x400 * 0x1000 + g % 0x800 * 2, 0x200_0000)
  }

  /** The offset S:J2:J1:imm6:imm11:0 of encoding B.W T3. */
  function NearOffset(h: Half, g: Half): int {
    Signed(Bit(h, 0x400) * 0x10_0000 + Bit(g, 0x800) * 0x8_0000 + Bit(g, 0x2000) * 0x4_0000
           + h % 0x40 * 0x1000 + g % 0x800 * 2, 0x20_0000)
  }

  function WideBranchTarget(at: nat, h: Half, g: Half): Word {
    Wrap(at + 4 + if Bit(g, 0x1000) == 1 then FarOffset(h, g) else NearOffset(h, g))
  }

  function WideCondition(h: Half, g: Half): nat { if Bit(g, 0x1000) == 1 then AL else h / 0x40 % 16 }

  /** Where bl leads, the lowest bit telling that it stays in Thumb state, and where
      blx leads, which aligns the pc and changes to ARM state. */
  function CallTarget(at: nat, h: Half, g: Half): Word {
    if Bit(g, 0x1000) == 1 then Wrap(at + 4 + FarOffset(h, g) + 1) else Wrap(Aligned(at + 4) + FarOffset(h, g))
  }

  /** How far ahead cbz and cbnz branch, beyond the pc. */
  function CompareSpan(h: Half): nat { Bit(h, 0x200) * 0x40 + h / 8 % 0x20 * 2 }

  function CompareTarget(at: nat, h: Half): Word { Wrap(at + 4 + CompareSpan(h)) }

  /** What decides whether cbz or cbnz branches. */
  function CompareOperand(h: Half): (nat, Low) { (Bit(h, 0x800), h % 8) }

  // ------------------------------------------- other instructions that read the pc

  /** ldrb, ldrh, ldrsb, ldrsh and ldr with a label */
  predicate IsLiteralLoad(h: Half) {
    h / 0x200 == 0x7c && Bit(h, 0x10) == 1 && h % 16 == PC && Bit(h, 0x100) + h / 0x20 % 4 < 3
  }

  /** ldrd with a label */
  predicate IsPairLoad(h: Half) {
    && h / 0x200 == 0x74 && Bit(h, 0x40) == 1 && Bit(h, 0x10) == 1 && h % 16 == PC
    && (Bit(h, 0x100) == 1 || Bit(h, 0x20) == 1)
  }

  /** tbb and tbh: they branch ahead of the pc by what the table says, wherever it stands */
  predicate IsTableBranch(h: Half, g: Half) { h / 0x10 == 0xe8d && g / 0x20 == 0x780 }

  /** vldr and ldc with a label */
  predicate IsCoprocessorLoad(h: Half) { (h / 0x100 == 0xed || h / 0x100 == 0xfd) && h % 0x40 == 0x1f }

  /** The 32-bit adr, which adds or subtracts. */
  predicate IsWideAdr(h: Half, g: Half) { (h == 0xf20f || h == 0xf60f || h == 0xf2af || h == 0xf6af) && g < 0x8000 }

  predicate IsAdr(h: Half) { h / 0x800 == 0x14 }

  /** b without a condition, in 16 bits */
  predicate IsShortBranch(h: Half) { h / 0x800 == 0x1c }

  /** add, cmp, mov and bx on registers, where one that is read is the pc */
  predicate IsOnPc(h: Half) {
    h / 0x400 == 0x11 && (h / 8 % 16 == PC || (h / 0x200 % 2 == 0 && Bit(h, 0x80) == 1 && h % 8 == 7))
  }

  /** The instruction uses the address it stands at, other than to return behind itself. */
  predicate ReadsPc(h: Half, g: Half) {
    || IsLiteralLoad(h) || IsPairLoad(h) || IsTableBranch(h, g) || IsCoprocessorLoad(h) || IsWideAdr(h, g)
    || IsAdr(h) || IsShortBranch(h) || IsOnPc(h)
  }

  /** What it reads there: four bytes on, at a word boundary for labels. */
  function PcRead(h: Half, g: Half, at: nat): nat {
    if IsTableBranch(h, g) || IsShortBranch(h) || IsOnPc(h) then at + 4 else Aligned(at + 4)
  }
}
