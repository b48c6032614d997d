/**
 What becomes of an instruction with opcode 8b that the decoder reports as relative to
 rip: when the emitted push, pop and load do its work.
 */
module X86RipLoad {
  import opened X86Machine
  import opened X86Emit
  import opened X86Run
  import opened X86Sequences
  import opened Hde64
  import opened Hde64Forms

  // ------------------------------------------------------------- the original

  /** What the prefixes make of `mov r, [rip + disp32]`: how many bytes it loads, whether
      from the base of fs or gs, whether with a 32-bit address, and whether it is valid. */
  datatype Access = Access(size: nat, segment: bool, short: bool, valid: bool)

  predicate HasPrefix(code: Stream, n: nat, b: Byte) { exists i: nat :: i < n && code(i) == b }

  function AccessOf(code: Stream): Access {
    var pre := Prefixes(code, 0, false, false);
    var n: nat := pre.next - 1;
    var wide := pre.c / 0x10 == 4 && pre.c % 0x10 / 8 == 1;
    Access(if wide then 8 else if pre.has66 then 2 else 4,
           HasPrefix(code, n, 0x64) || HasPrefix(code, n, 0x65), pre.has67,
           !HasPrefix(code, n, 0xf0) && Disasm(Real(), code).raw <= 15)
  }

  /** A load of two bytes keeps the rest of the register, one of four clears it. */
  function Filled(was: Word, mem: Memory, a: Word, size: nat): Word {
    if size == 8 then Load64(mem, a)
    else if size == 4 then Wrap(Load(mem, a, 4))
    else Wrap(was - was % 0x1_0000 + Load(mem, a, 2))
  }

  function AddressOf(access: Access, segmentBase: Word, destiny: Word): Word {
    if access.segment then Plus(segmentBase, destiny) else destiny
  }

  /** Its effect on everything but the program counter. */
  function Original(access: Access, segmentBase: Word, destiny: Word, r: Reg, core: Core): Core {
    core.(regs := core.regs[r := Filled(core.regs[r], core.mem, AddressOf(access, segmentBase, destiny), access.size)])
  }

  /** How many bytes it has: the decoder does not know that a 32-bit address has a
      displacement too. */
  function TrueLength(access: Access, h: Hde): nat { h.len + if access.short then 4 else 0 }

  // ---------------------------------------------------------------- the copy

  function PushSteps(destiny: Word): nat { if destiny < TWO_32 then 1 else 2 }

  /** The emitted code at k does what the instruction does, wherever it runs and whatever
      the state, if neither reads the slot below the stack pointer. */
  ghost predicate Works(isa: Isa, buffer: Code, k: nat, access: Access, h: Hde, destiny: Word, r: Reg) {
    && access.valid && TrueLength(access, h) == h.len
    && forall s: Cpu, segmentBase: Word ::
         Free(buffer, k, access, destiny, s, segmentBase) ==> WorksFor(isa, buffer, access, destiny, r, s, segmentBase)
  }

  ghost predicate Free(buffer: Code, k: nat, access: Access, destiny: Word, s: Cpu, segmentBase: Word) {
    && s.pc == buffer.base + k && Clear(Slot(s.core.regs[RSP]), destiny, 8)
    && Clear(Slot(s.core.regs[RSP]), AddressOf(access, segmentBase, destiny), 8)
  }

  ghost predicate WorksFor(isa: Isa, buffer: Code, access: Access, destiny: Word, r: Reg, s: Cpu, segmentBase: Word) {
    var u := Steps(isa, buffer, s, PushSteps(destiny) + 2);
    u.pc == s.pc + |RipLoadBytes(destiny, r)| &&
    Same(Slot(s.core.regs[RSP]), Original(access, segmentBase, destiny, r, s.core), u.core)
  }

  /** When it does: all of it can be seen in the instruction and its address. */
  predicate Fine(access: Access, destiny: Word, r: Reg) {
    access.valid && access.size == 8 && !access.segment && !access.short && r % 8 != 4 && r % 8 != 5 && Pushable(destiny)
  }

  // -------------------------------------------------------- what the copy does

  /** What the emitted push leaves on the stack. */
  function Pushed(destiny: Word): Word { if destiny < TWO_32 then Wrap(Signed32(destiny)) else destiny }

  lemma PushedExactly(destiny: Word)
    ensures Pushed(destiny) == destiny <==> Pushable(destiny)
  {
  }

  lemma LowWord(destiny: Word)
    requires destiny < TWO_32
    ensures destiny % TWO_32 == destiny && destiny / TWO_32 == 0
  {
  }

  lemma PushAny(isa: Isa, code: Code, k: nat, destiny: Word, s: Cpu)
    requires Mapped(code) && At(code, k, PushPointerBytes(destiny)) && s.pc == code.base + k
    ensures Steps(isa, code, s, PushSteps(destiny))
         == Cpu(s.pc + |PushPointerBytes(destiny)|, Push(s.core, Pushed(destiny)))
  {
    PushLow(isa, code, k, destiny, s);
    if destiny < TWO_32 {
      LowWord(destiny);
      FirstStep(isa, code, s, 0);
      FirstStep(isa, code, Step(isa, code, s), 0);
    } else {
      PushBoth(isa, code, k, destiny, s);
    }
  }

  /** What stands where the load was emitted, for the registers that it cannot name. */
  lemma MoveMisread(isa: Isa, r: Reg, rest: seq<Byte>)
    requires r % 8 == 4 || r % 8 == 5
    ensures var d := Decode(isa, Move64Bytes(r, r) + rest); d.op.Unknown? || (d.op.LoadRip? && d.len == 7)
  {
    MoveCode(isa, r, rest);
    MoveFields(r / 8, r % 8);
  }

  lemma MoveAstray(isa: Isa, code: Code, k: nat, r: Reg, t: Cpu)
    requires Mapped(code) && At(code, k, Move64Bytes(r, r)) && (r % 8 == 4 || r % 8 == 5) && t.pc == code.base + k
    ensures Step(isa, code, t).pc != t.pc + 3
  {
    var rest := StepAt(isa, code, k, Move64Bytes(r, r), t);
    MoveMisread(isa, r, rest);
    SevenNotThree(t.pc);
  }

  lemma SevenNotThree(pc: Word)
    ensures Plus(pc, 7) != pc + 3
  {
  }

  /** The whole sequence for the other registers. */
  lemma LoadAny(isa: Isa, code: Code, k: nat, destiny: Word, r: Reg, s: Cpu)
    requires Mapped(code) && At(code, k, RipLoadBytes(destiny, r)) && s.pc == code.base + k && r % 8 != 4 && r % 8 != 5
    ensures var v, mem := Pushed(destiny), Push(s.core, Pushed(destiny)).mem;
            Steps(isa, code, s, PushSteps(destiny) + 2)
            == Cpu(s.pc + |RipLoadBytes(destiny, r)|, s.core.(mem := mem, regs := s.core.regs[r := Load64(mem, v)]))
  {
    var v, n := Pushed(destiny), PushSteps(destiny);
    RipLoadParts(code, k, destiny, r);
    PushAny(isa, code, k, destiny, s);
    var t := Cpu(s.pc + |PushPointerBytes(destiny)|, Push(s.core, v));
    RunPopMove(isa, code, k + |PushPointerBytes(destiny)|, s.core, v, r, t);
    StepsSum(isa, code, s, n, 2);
  }

  lemma LoadAstray(isa: Isa, code: Code, k: nat, destiny: Word, r: Reg, s: Cpu)
    requires Mapped(code) && At(code, k, RipLoadBytes(destiny, r)) && s.pc == code.base + k && (r % 8 == 4 || r % 8 == 5)
    ensures Steps(isa, code, s, PushSteps(destiny) + 2).pc != s.pc + |RipLoadBytes(destiny, r)|
  {
    var n, j := PushSteps(destiny), k + |PushPointerBytes(destiny)|;
    RipLoadParts(code, k, destiny, r);
    AtHead(code, j, PopBytes(r), Move64Bytes(r, r));
    PushAny(isa, code, k, destiny, s);
    var t := Steps(isa, code, s, n);
    StepPop(isa, code, j, s.core, Pushed(destiny), r, t);
    MoveAstray(isa, code, j + SizeOfPop(r), r, Step(isa, code, t));
    StepsSum(isa, code, s, n, 2);
    FirstStep(isa, code, t, 1);
    FirstStep(isa, code, Step(isa, code, t), 0);
    FirstStep(isa, code, Step(isa, code, Step(isa, code, t)), 0);
  }

  // ------------------------------------------------------------ when it is fine

  lemma FineWorks(isa: Isa, code: Code, k: nat, access: Access, h: Hde, destiny: Word, r: Reg)
    requires Mapped(code) && At(code, k, RipLoadBytes(destiny, r)) && Fine(access, destiny, r)
    ensures Works(isa, code, k, access, h, destiny, r)
  {
    forall s: Cpu, segmentBase: Word | Free(code, k, access, destiny, s, segmentBase)
      ensures WorksFor(isa, code, access, destiny, r, s, segmentBase)
    {
      PushedExactly(destiny);
      LoadAny(isa, code, k, destiny, r, s);
      LoadedSame(s.core, destiny, r);
    }
  }

  // -------------------------------------------------------------- when it is not

  /** A state in which only one byte is not zero, the eighth of what the copy loads; the
      stack is elsewhere. */
  function Telling(code: Code, k: nat, v: Word): Cpu
    requires code.base + k < TWO_64
  {
    Cpu(code.base + k, Core(seq(16, i => if i == RSP then Plus(v, 64) else 0), 0, map[Plus(v, 7) := 1]))
  }

  /** What the copy then loads has its top byte set. */
  lemma TopByte(mem: Memory, v: Word)
    requires Peek(mem, Plus(v, 7)) == 1
    ensures Load64(mem, v) >= 0x100_0000_0000_0000
  {
    Ahead(v);
    var b1, b2, b3 := Plus(v, 1), Plus(v, 2), Plus(v, 3);
    assert Load(mem, Plus(v, 8), 0) == 0;
    assert Load(mem, Plus(v, 7), 1) == 1;
    assert Load(mem, Plus(v, 6), 2) >= TWO_8;
    assert Load(mem, Plus(v, 5), 3) >= 0x1_0000;
    assert Load(mem, Plus(v, 4), 4) >= 0x100_0000;
    assert Load(mem, b3, 5) >= 0x1_0000_0000;
    assert Load(mem, b2, 6) >= 0x100_0000_0000;
    assert Load(mem, b1, 7) >= 0x1_0000_0000_0000;
    assert Load(mem, v, 8) >= 0x100_0000_0000_0000;
    LoadBelow(mem, v, 8);
    Eight();
  }

  lemma Eight()
    ensures Power256(8) == TWO_64
  {
    Power8();
  }

  lemma Ahead(v: Word)
    ensures Plus(Plus(v, 1), 1) == Plus(v, 2) && Plus(Plus(v, 2), 1) == Plus(v, 3) && Plus(Plus(v, 3), 1) == Plus(v, 4)
    ensures Plus(Plus(v, 4), 1) == Plus(v, 5) && Plus(Plus(v, 5), 1) == Plus(v, 6) && Plus(Plus(v, 6), 1) == Plus(v, 7)
  {
    NextOf(v, 1);
    NextOf(v, 2);
    NextOf(v, 3);
    NextOf(v, 4);
    NextOf(v, 5);
    NextOf(v, 6);
  }

  lemma NextOf(v: Word, k: nat)
    ensures Plus(Plus(v, k), 1) == Plus(v, k + 1)
  {
  }

  lemma {:induction false} LoadBelow(mem: Memory, a: Word, n: nat)
    ensures Load(mem, a, n) < Power256(n)
    decreases n
  {
    if n > 0 {
      LoadBelow(mem, Plus(a, 1), n - 1);
    }
  }

  /** Where no byte is set, nothing is loaded. */
  lemma {:induction false} LoadNothing(mem: Memory, a: Word, n: nat)
    requires n <= 16 && forall x: Word :: InRange(x, a, n) ==> Peek(mem, x) == 0
    ensures Load(mem, a, n) == 0
    decreases n
  {
    if n > 0 {
      RangeStep(a, a, n);
      forall x: Word | InRange(x, Plus(a, 1), n - 1)
        ensures Peek(mem, x) == 0
      {
        RangeStep(x, a, n);
      }
      LoadNothing(mem, Plus(a, 1), n - 1);
    }
  }

  /** The addresses that matter lie at these distances from what the copy loads. */
  predicate Distance(v: Word, a: Word) { Minus(a, v) == 0 || Minus(a, v) == 0x1000 || Minus(a, v) == TWO_32 }

  lemma SlotAway(v: Word, a: Word)
    requires Distance(v, a)
    ensures Clear(Slot(Plus(v, 64)), a, 8)
  {
    forall x: Word | InRange(x, a, 8)
      ensures x !in Slot(Plus(v, 64))
    {
      SlotOffset(v, x);
      OffsetSum(v, a, x);
    }
  }

  lemma SlotOffset(v: Word, x: Word)
    ensures x in Slot(Plus(v, 64)) ==> 56 <= Minus(x, v) < 64
  {
    assert Plus(Plus(v, 64), -8) == Plus(v, 56);
    if Minus(x, Plus(v, 56)) < 8 {
      FarOffset(v, x);
    }
  }

  lemma FarOffset(v: Word, x: Word)
    requires Minus(x, Plus(v, 56)) < 8
    ensures 56 <= Minus(x, v) < 64
  {
  }

  lemma OffsetSum(v: Word, a: Word, x: Word)
    requires Distance(v, a) && InRange(x, a, 8)
    ensures Minus(a, v) <= Minus(x, v) < Minus(a, v) + 8
  {
  }

  /** What is loaded elsewhere is nothing. */
  lemma ElsewhereNothing(v: Word, a: Word)
    requires Distance(v, a) && Minus(a, v) != 0
    ensures Load64(map[Plus(v, 7) := 1], a) == 0
  {
    forall x: Word | InRange(x, a, 8)
      ensures Peek(map[Plus(v, 7) := 1], x) == 0
    {
      OffsetSum(v, a, x);
      SevenAhead(v);
    }
    LoadNothing(map[Plus(v, 7) := 1], a, 8);
  }

  lemma SevenAhead(v: Word)
    ensures Minus(Plus(v, 7), v) == 7
  {
  }

  lemma PushedDistance(destiny: Word)
    ensures Distance(Pushed(destiny), destiny)
    ensures Minus(destiny, Pushed(destiny)) == 0 <==> Pushable(destiny)
  {
  }

  /** A segment base that moves the load away. */
  lemma MovedAway(v: Word, destiny: Word)
    ensures Plus(Minus(Plus(v, 0x1000), destiny), destiny) == Plus(v, 0x1000) && Minus(Plus(v, 0x1000), v) == 0x1000
  {
  }

  function TellingBase(access: Access, destiny: Word): Word {
    if access.segment then Minus(Plus(Pushed(destiny), 0x1000), destiny) else 0
  }

  lemma TellingFree(code: Code, k: nat, access: Access, destiny: Word)
    requires code.base + k < TWO_64
    ensures var v := Pushed(destiny);
            && Distance(v, AddressOf(access, TellingBase(access, destiny), destiny))
            && (Minus(AddressOf(access, TellingBase(access, destiny), destiny), v) == 0 <==> !access.segment && Pushable(destiny))
            && Free(code, k, access, destiny, Telling(code, k, v), TellingBase(access, destiny))
            && Clear(Slot(Telling(code, k, v).core.regs[RSP]), v, 8)
  {
    var v := Pushed(destiny);
    PushedDistance(destiny);
    MovedAway(v, destiny);
    SlotAway(v, destiny);
    SlotAway(v, AddressOf(access, TellingBase(access, destiny), destiny));
    MinusSelf(v);
    SlotAway(v, v);
  }

  lemma MinusSelf(v: Word)
    ensures Minus(v, v) == 0
  {
  }

  /** The original leaves less than the copy in the register. */
  lemma TellingOriginal(access: Access, v: Word, a: Word)
    requires Distance(v, a) && (access.size != 8 || Minus(a, v) != 0)
    ensures Filled(0, map[Plus(v, 7) := 1], a, access.size) < 0x100_0000_0000_0000
  {
    var mem := map[Plus(v, 7) := 1];
    if access.size == 8 {
      ElsewhereNothing(v, a);
    } else if access.size == 4 {
      LoadBelow(mem, a, 4);
      Power8();
    } else {
      LoadBelow(mem, a, 2);
      Two();
    }
  }

  lemma Two()
    ensures Power256(2) == 0x1_0000
  {
    assert Power256(1) == TWO_8;
  }

  lemma TellingCopy(code: Code, k: nat, v: Word)
    requires code.base + k < TWO_64 && Clear(Slot(Telling(code, k, v).core.regs[RSP]), v, 8)
    ensures Load64(Push(Telling(code, k, v).core, v).mem, v) >= 0x100_0000_0000_0000
  {
    var core := Telling(code, k, v).core;
    StoreAlike(core.mem, Plus(core.regs[RSP], -8), v, 8);
    LoadAlike(Slot(core.regs[RSP]), core.mem, Push(core, v).mem, v);
    TopByte(core.mem, v);
  }

  lemma NotFineFails(isa: Isa, code: Code, k: nat, access: Access, h: Hde, destiny: Word, r: Reg)
    requires Mapped(code) && At(code, k, RipLoadBytes(destiny, r)) && !Fine(access, destiny, r) && access.valid && !access.short
    ensures !Works(isa, code, k, access, h, destiny, r)
  {
    var v, base := Pushed(destiny), TellingBase(access, destiny);
    var s := Telling(code, k, v);
    TellingFree(code, k, access, destiny);
    if r % 8 == 4 || r % 8 == 5 {
      LoadAstray(isa, code, k, destiny, r, s);
    } else {
      LoadAny(isa, code, k, destiny, r, s);
      TellingOriginal(access, v, AddressOf(access, base, destiny));
      TellingCopy(code, k, v);
      TellingDiffers(access, base, destiny, r, s);
    }
    assert !WorksFor(isa, code, access, destiny, r, s, base);
  }

  lemma TellingDiffers(access: Access, base: Word, destiny: Word, r: Reg, s: Cpu)
    requires s.core.regs[r] == 0
    requires Filled(0, s.core.mem, AddressOf(access, base, destiny), access.size) < 0x100_0000_0000_0000
    requires Load64(Push(s.core, Pushed(destiny)).mem, Pushed(destiny)) >= 0x100_0000_0000_0000
    ensures Original(access, base, destiny, r, s.core).regs[r]
         != s.core.regs[r := Load64(Push(s.core, Pushed(destiny)).mem, Pushed(destiny))][r]
  {
  }

  // -------------------------------------------------------------------- both

  /** The report that both passes take for a load relative to rip. */
  predicate Taken(h: Hde) { IsRip(h) && h.opcode == 0x8b }

  /** For every instruction that is taken for one: the emitted sequence does its work if
      and only if it is a valid 64-bit load with REX.W, no segment base and no 32-bit
      address, into a register other than those with low bits 4 and 5, from an address
      that survives the push. */
  lemma RipLoadExactly(isa: Isa, instruction: Stream, from: Word, code: Code, k: nat)
    requires var h := Reported(Disasm(Real(), instruction));
             Taken(h) && Mapped(code) && At(code, k, RipLoadBytes(RipTarget(from, h), RipReg(h)))
    ensures var h, access := Reported(Disasm(Real(), instruction)), AccessOf(instruction);
            Works(isa, code, k, access, h, RipTarget(from, h), RipReg(h)) <==> Fine(access, RipTarget(from, h), RipReg(h))
  {
    ExactlyFor(isa, code, k, AccessOf(instruction), Reported(Disasm(Real(), instruction)),
               RipTarget(from, Reported(Disasm(Real(), instruction))), RipReg(Reported(Disasm(Real(), instruction))));
  }

  lemma ExactlyFor(isa: Isa, code: Code, k: nat, access: Access, h: Hde, destiny: Word, r: Reg)
    requires Mapped(code) && At(code, k, RipLoadBytes(destiny, r))
    ensures Works(isa, code, k, access, h, destiny, r) <==> Fine(access, destiny, r)
  {
    if Fine(access, destiny, r) {
      FineWorks(isa, code, k, access, h, destiny, r);
    } else if access.valid && !access.short {
      NotFineFails(isa, code, k, access, h, destiny, r);
    }
  }

  /** mov r32, [rip + disp32] has no REX prefix, is taken all the same, and never fine. */
  lemma NarrowLoadTaken(instruction: Stream, from: Word)
    requires instruction(0) == 0x8b && instruction(1) < 0x40 && instruction(1) % 8 == 5
    ensures var h := Reported(Disasm(Real(), instruction));
            Taken(h) && AccessOf(instruction).size == 4 && !Fine(AccessOf(instruction), RipTarget(from, h), RipReg(h))
  {
    RealKnown();
    BareLoad(Real(), instruction);
    NarrowTaken(Disasm(Real(), instruction));
  }

  lemma NarrowTaken(r: Result)
    requires r.raw == 6 && r.opcode == 0x8b && r.modrm < 0x40 && r.modrm % 8 == 5
    ensures Taken(Reported(r))
  {
  }
}
