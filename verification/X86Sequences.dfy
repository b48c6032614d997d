/**
 Each sequence that the second pass emits does the work of the instruction that it
 replaces.  The sequences may scribble on the slot below the stack pointer.
 */
module X86Sequences {
  import opened X86Machine
  import opened X86Emit
  import opened X86Run

  /** The pointers that survive MSPushPointer: push imm32 sign-extends, and the upper
      half is written only when it is not zero. */
  predicate Pushable(target: Word) { target < TWO_31 || TWO_32 <= target }

  predicate Jumpable(target: Word, source: Word) { Is32BitOffset(target, Plus(source, 5)) || Pushable(target) }

  lemma DifferentPush(core: Core, v: Word, u: Word)
    requires v != u
    ensures Push(core, v) != Push(core, u)
  {
    var a := Plus(core.regs[RSP], -8);
    LoadPushed(core.mem, a, v);
    LoadPushed(core.mem, a, u);
  }

  lemma PushFirst(isa: Isa, code: Code, k: nat, low: nat, s: Cpu)
    requires low < TWO_32 && Mapped(code) && s.pc == code.base + k
    requires At(code, k, [0x68] + Bytes32(low))
    ensures Step(isa, code, s) == Cpu(s.pc + 5, Push(s.core, Wrap(Signed32(low))))
  {
    var rest := StepAt(isa, code, k, [0x68] + Bytes32(low), s);
    DecodePush(isa, low, rest);
    ExecutePush(isa, Wrap(Signed32(low)), s);
  }

  lemma ExecutePush(isa: Isa, v: Word, s: Cpu)
    requires s.pc + 5 < TWO_64
    ensures Execute(isa, PushImm(v), 5, s) == Cpu(s.pc + 5, Push(s.core, v))
  {
  }

  lemma PushSecond(isa: Isa, code: Code, k: nat, high: nat, t: Cpu)
    requires high < TWO_32 && Mapped(code) && t.pc == code.base + k
    requires At(code, k, [0xc7, 0x44, 0x24, 0x04] + Bytes32(high))
    ensures Step(isa, code, t) == Cpu(t.pc + 8, HighStored(t.core, high))
  {
    var rest := StepAt(isa, code, k, [0xc7, 0x44, 0x24, 0x04] + Bytes32(high), t);
    DecodeHigh(isa, high, rest);
    ExecuteHigh(isa, high, t);
  }

  function HighStored(core: Core, high: nat): Core {
    core.(mem := Store(core.mem, Plus(core.regs[RSP], 4), high, 4))
  }

  lemma ExecuteHigh(isa: Isa, high: nat, t: Cpu)
    requires t.pc + 8 < TWO_64
    ensures Execute(isa, StoreHigh(high), 8, t) == Cpu(t.pc + 8, HighStored(t.core, high))
  {
  }

  lemma PushLow(isa: Isa, code: Code, k: nat, target: Word, s: Cpu)
    requires Mapped(code) && At(code, k, PushPointerBytes(target)) && s.pc == code.base + k
    ensures Step(isa, code, s) == Cpu(s.pc + 5, Push(s.core, Wrap(Signed32(target % TWO_32))))
    ensures s.pc + 5 < TWO_64
    ensures target / TWO_32 != 0 ==> At(code, k + 5, [0xc7, 0x44, 0x24, 0x04] + Bytes32(target / TWO_32))
    ensures |PushPointerBytes(target)| == if target / TWO_32 != 0 then 13 else 5
  {
    var first := [0x68] + Bytes32(target % TWO_32);
    var second := if target / TWO_32 != 0 then [0xc7, 0x44, 0x24, 0x04] + Bytes32(target / TWO_32) else [];
    AtHead(code, k, first, second);
    PushFirst(isa, code, k, target % TWO_32, s);
  }

  lemma PushBoth(isa: Isa, code: Code, k: nat, target: Word, s: Cpu)
    requires Mapped(code) && At(code, k, PushPointerBytes(target)) && s.pc == code.base + k && TWO_32 <= target
    ensures Steps(isa, code, s, 2) == Cpu(s.pc + 13, Push(s.core, target))
  {
    PushLow(isa, code, k, target, s);
    var t := Step(isa, code, s);
    PushSecond(isa, code, k + 5, target / TWO_32, t);
    PushWhole(s.core.mem, Plus(s.core.regs[RSP], -8), target);
    FirstStep(isa, code, s, 1);
    FirstStep(isa, code, t, 0);
    FirstStep(isa, code, Step(isa, code, t), 0);
  }

  lemma Extended(target: Word)
    requires target < TWO_32
    ensures Wrap(Signed32(target % TWO_32)) == target <==> target < TWO_31
  {
  }

  lemma PushShort(isa: Isa, code: Code, k: nat, target: Word, s: Cpu)
    requires Mapped(code) && At(code, k, PushPointerBytes(target)) && s.pc == code.base + k && target < TWO_32
    ensures Steps(isa, code, s, 1).pc == s.pc + 5
    ensures Steps(isa, code, s, 1).core == Push(s.core, target) <==> target < TWO_31
  {
    var v := Wrap(Signed32(target % TWO_32));
    PushLow(isa, code, k, target, s);
    FirstStep(isa, code, s, 0);
    FirstStep(isa, code, Step(isa, code, s), 0);
    Extended(target);
    if v != target {
      DifferentPush(s.core, v, target);
    }
  }

  /** The emitted push leaves the pointer on the stack, and nothing else different,
      exactly when the pointer is pushable. */
  lemma RunPush(isa: Isa, code: Code, k: nat, target: Word, s: Cpu) returns (m: nat)
    requires Mapped(code) && At(code, k, PushPointerBytes(target)) && s.pc == code.base + k
    ensures 1 <= m <= 2
    ensures Steps(isa, code, s, m).pc == s.pc + |PushPointerBytes(target)|
    ensures Steps(isa, code, s, m).core == Push(s.core, target) <==> Pushable(target)
  {
    PushLow(isa, code, k, target, s);
    if target < TWO_32 {
      m := 1;
      PushShort(isa, code, k, target, s);
    } else {
      m := 2;
      PushBoth(isa, code, k, target, s);
    }
  }

  lemma Displacement(target: Word, next: Word)
    requires Is32BitOffset(target, next)
    ensures Plus(next, Signed32(Minus(target, next) % TWO_32)) == target
  {
  }

  /** A jump as MSWriteSkip writes it. */
  lemma RunSkip(isa: Isa, code: Code, k: nat, size: Word, s: Cpu)
    requires Mapped(code) && At(code, k, SkipBytes(size)) && s.pc == code.base + k
    ensures Step(isa, code, s) == s.(pc := Plus(s.pc + 5, Signed32(size % TWO_32)))
  {
    var rest := StepAt(isa, code, k, SkipBytes(size), s);
    DecodeSkip(isa, size, rest);
    ExecuteSkip(isa, Signed32(size % TWO_32), s);
  }

  lemma ExecuteSkip(isa: Isa, rel: int, s: Cpu)
    requires s.pc + 5 < TWO_64
    ensures Execute(isa, Jump(rel), 5, s) == s.(pc := Plus(s.pc + 5, rel))
  {
  }

  lemma DownUp(sp: Word)
    ensures Plus(Plus(sp, -8), 8) == sp
  {
  }

  /** What a pop finds after a push. */
  lemma PopPushed(core: Core, target: Word)
    ensures var c := Push(core, target); var sp := c.regs[RSP];
            Load64(c.mem, sp) == target && c.regs[RSP := Plus(sp, 8)] == core.regs
  {
    var sp := core.regs[RSP];
    LoadPushed(core.mem, Plus(sp, -8), target);
    DownUp(sp);
    assert core.regs[RSP := Plus(sp, -8)][RSP := sp] == core.regs;
  }

  lemma ExecuteRet(isa: Isa, t: Cpu)
    ensures Execute(isa, Ret, 1, t)
         == Cpu(Load64(t.core.mem, t.core.regs[RSP]), t.core.(regs := t.core.regs[RSP := Plus(t.core.regs[RSP], 8)]))
  {
  }

  lemma RunRet(isa: Isa, code: Code, k: nat, core: Core, target: Word, t: Cpu)
    requires Mapped(code) && At(code, k, [0xc3])
    requires t.pc == code.base + k && t.core == Push(core, target)
    ensures Step(isa, code, t) == Cpu(target, Push(core, target).(regs := core.regs))
  {
    var rest := StepAt(isa, code, k, [0xc3], t);
    DecodeRet(isa, rest);
    ExecuteRet(isa, t);
    PopPushed(core, target);
  }

  lemma FirstStep(isa: Isa, code: Code, s: Cpu, n: nat)
    ensures Steps(isa, code, s, 1 + n) == Steps(isa, code, Step(isa, code, s), n)
    ensures Steps(isa, code, s, 0) == s
  {
  }

  lemma LastStep(isa: Isa, code: Code, s: Cpu, n: nat)
    ensures Steps(isa, code, s, n + 1) == Step(isa, code, Steps(isa, code, s, n))
  {
    StepsSum(isa, code, s, n, 1);
    FirstStep(isa, code, Steps(isa, code, s, n), 0);
  }

  /** What a push and a pop leave behind is the same machine, but for the slot. */
  lemma PushedSame(core: Core, v: Word)
    ensures Same(Slot(core.regs[RSP]), core, Push(core, v).(regs := core.regs))
  {
    StoreAlike(core.mem, Plus(core.regs[RSP], -8), v, 8);
  }

  /** The emitted jump reaches its target with nothing changed but the slot. */
  lemma RunJump(isa: Isa, code: Code, k: nat, target: Word, s: Cpu) returns (m: nat)
    requires Mapped(code) && At(code, k, JumpBytes(s.pc, target)) && s.pc == code.base + k
    requires Jumpable(target, s.pc)
    ensures 1 <= m <= 3
    ensures Steps(isa, code, s, m).pc == target
    ensures Same(Slot(s.core.regs[RSP]), s.core, Steps(isa, code, s, m).core)
  {
    if Is32BitOffset(target, Plus(s.pc, 5)) {
      m := 1;
      RunNear(isa, code, k, target, s);
      FirstStep(isa, code, s, 0);
      FirstStep(isa, code, Step(isa, code, s), 0);
    } else {
      m := RunFar(isa, code, k, target, s);
    }
  }

  lemma RunNear(isa: Isa, code: Code, k: nat, target: Word, s: Cpu)
    requires Mapped(code) && At(code, k, SkipBytes(Minus(target, Plus(s.pc, 5)))) && s.pc == code.base + k
    requires Is32BitOffset(target, Plus(s.pc, 5))
    ensures Step(isa, code, s) == s.(pc := target)
  {
    RunSkip(isa, code, k, Minus(target, Plus(s.pc, 5)), s);
    NextPlace(code, k, SkipBytes(Minus(target, Plus(s.pc, 5))), s.pc);
    Displacement(target, Plus(s.pc, 5));
  }

  lemma RunFar(isa: Isa, code: Code, k: nat, target: Word, s: Cpu) returns (m: nat)
    requires Mapped(code) && At(code, k, PushPointerBytes(target) + [0xc3]) && s.pc == code.base + k
    requires Pushable(target)
    ensures 2 <= m <= 3
    ensures Steps(isa, code, s, m).pc == target
    ensures Same(Slot(s.core.regs[RSP]), s.core, Steps(isa, code, s, m).core)
  {
    AtHead(code, k, PushPointerBytes(target), [0xc3]);
    var n := RunPush(isa, code, k, target, s);
    RunRet(isa, code, k + |PushPointerBytes(target)|, s.core, target, Steps(isa, code, s, n));
    LastStep(isa, code, s, n);
    PushedSame(s.core, target);
    m := n + 1;
  }

  lemma StepPop(isa: Isa, code: Code, k: nat, core: Core, target: Word, r: Reg, t: Cpu)
    requires Mapped(code) && At(code, k, PopBytes(r)) && t.pc == code.base + k && t.core == Push(core, target)
    ensures Step(isa, code, t) == Cpu(t.pc + SizeOfPop(r), t.core.(regs := core.regs[r := target]))
  {
    var rest := StepAt(isa, code, k, PopBytes(r), t);
    DecodePop(isa, r, rest);
    ExecutePop(isa, SizeOfPop(r), r, t);
    PopPushed(core, target);
  }

  lemma ExecutePop(isa: Isa, len: nat, r: Reg, t: Cpu)
    requires t.pc + len < TWO_64
    ensures Execute(isa, Pop(r), len, t)
         == Cpu(t.pc + len, t.core.(regs := t.core.regs[RSP := Plus(t.core.regs[RSP], 8)]
                                                       [r := Load64(t.core.mem, t.core.regs[RSP])]))
  {
  }

  lemma StepMove(isa: Isa, code: Code, k: nat, r: Reg, t: Cpu)
    requires Mapped(code) && At(code, k, Move64Bytes(r, r)) && r % 8 != 4 && r % 8 != 5 && t.pc == code.base + k
    ensures Step(isa, code, t)
         == Cpu(t.pc + 3, t.core.(regs := t.core.regs[r := Load64(t.core.mem, t.core.regs[r])]))
  {
    var rest := StepAt(isa, code, k, Move64Bytes(r, r), t);
    MoveDecodes(isa, r, rest);
    ExecuteMove(isa, r, t);
  }

  lemma ExecuteMove(isa: Isa, r: Reg, t: Cpu)
    requires t.pc + 3 < TWO_64
    ensures Execute(isa, LoadReg(r, r), 3, t)
         == Cpu(t.pc + 3, t.core.(regs := t.core.regs[r := Load64(t.core.mem, t.core.regs[r])]))
  {
  }

  /** pop r; mov r, [r] */
  lemma RunPopMove(isa: Isa, code: Code, k: nat, core: Core, target: Word, r: Reg, t: Cpu)
    requires Mapped(code) && At(code, k, PopBytes(r) + Move64Bytes(r, r)) && r % 8 != 4 && r % 8 != 5
    requires t.pc == code.base + k && t.core == Push(core, target)
    ensures Steps(isa, code, t, 2)
         == Cpu(t.pc + SizeOfPop(r) + 3, t.core.(regs := core.regs[r := Load64(t.core.mem, target)]))
  {
    AtHead(code, k, PopBytes(r), Move64Bytes(r, r));
    StepPop(isa, code, k, core, target, r, t);
    var u := Step(isa, code, t);
    StepMove(isa, code, k + SizeOfPop(r), r, u);
    assert core.regs[r := target][r := Load64(t.core.mem, target)] == core.regs[r := Load64(t.core.mem, target)];
    FirstStep(isa, code, t, 1);
    FirstStep(isa, code, u, 0);
    FirstStep(isa, code, Step(isa, code, u), 0);
  }

  /** The core after `mov r, [a]`. */
  function Loaded(core: Core, r: Reg, a: Word): Core { core.(regs := core.regs[r := Load64(core.mem, a)]) }

  lemma LoadedSame(core: Core, destiny: Word, r: Reg)
    requires Clear(Slot(core.regs[RSP]), destiny, 8)
    ensures var k := Push(core, destiny).mem;
            Same(Slot(core.regs[RSP]), Loaded(core, r, destiny),
                 core.(mem := k, regs := core.regs[r := Load64(k, destiny)]))
  {
    StoreAlike(core.mem, Plus(core.regs[RSP], -8), destiny, 8);
    LoadAlike(Slot(core.regs[RSP]), core.mem, Push(core, destiny).mem, destiny);
  }

  lemma RipLoadEnd(isa: Isa, code: Code, k: nat, core: Core, destiny: Word, r: Reg, t: Cpu) returns (m: nat, u: Cpu)
    requires Mapped(code) && At(code, k, PopBytes(r) + Move64Bytes(r, r)) && r % 8 != 4 && r % 8 != 5
    requires t.pc == code.base + k && t.core == Push(core, destiny) && Clear(Slot(core.regs[RSP]), destiny, 8)
    ensures m == 2 && u == Steps(isa, code, t, m)
    ensures u.pc == t.pc + SizeOfPop(r) + 3
    ensures Same(Slot(core.regs[RSP]), Loaded(core, r, destiny), u.core)
  {
    m := 2;
    u := Steps(isa, code, t, m);
    RunPopMove(isa, code, k, core, destiny, r, t);
    LoadedSame(core, destiny, r);
  }

  lemma RipLoadParts(code: Code, k: nat, destiny: Word, r: Reg)
    requires At(code, k, RipLoadBytes(destiny, r))
    ensures var push := PushPointerBytes(destiny);
            At(code, k, push) && At(code, k + |push|, PopBytes(r) + Move64Bytes(r, r)) &&
            |RipLoadBytes(destiny, r)| == |push| + SizeOfPop(r) + 3
  {
    var push := PushPointerBytes(destiny);
    Append(push, PopBytes(r), Move64Bytes(r, r));
    AtHead(code, k, push, PopBytes(r) + Move64Bytes(r, r));
  }

  /** The emitted load leaves in the register what the original finds at its target. */
  lemma RunRipLoad(isa: Isa, code: Code, k: nat, destiny: Word, r: Reg, s: Cpu) returns (m: nat, u: Cpu)
    requires Mapped(code) && s.pc == code.base + k && At(code, k, PushPointerBytes(destiny))
    requires At(code, k + |PushPointerBytes(destiny)|, PopBytes(r) + Move64Bytes(r, r))
    requires r % 8 != 4 && r % 8 != 5 && Pushable(destiny)
    requires Clear(Slot(s.core.regs[RSP]), destiny, 8)
    ensures 1 <= m <= 4 && u == Steps(isa, code, s, m)
    ensures u.pc == s.pc + |PushPointerBytes(destiny)| + SizeOfPop(r) + 3
    ensures Same(Slot(s.core.regs[RSP]), Loaded(s.core, r, destiny), u.core)
  {
    var n := RunPush(isa, code, k, destiny, s);
    var t := Steps(isa, code, s, n);
    m, u := RipLoadEnd(isa, code, k + |PushPointerBytes(destiny)|, s.core, destiny, r, t);
    StepsSum(isa, code, s, n, m);
    m := n + m;
  }

  lemma StepCall(isa: Isa, code: Code, k: nat, s: Cpu)
    requires Mapped(code) && At(code, k, [0xe8] + Bytes32(5)) && s.pc == code.base + k && s.pc + 10 < TWO_64
    ensures Step(isa, code, s) == Cpu(s.pc + 10, Push(s.core, s.pc + 5))
  {
    var rest := StepAt(isa, code, k, [0xe8] + Bytes32(5), s);
    DecodeCall(isa, 5, rest);
    ExecuteCall(isa, 5, s);
  }

  lemma ExecuteCall(isa: Isa, rel: nat, s: Cpu)
    requires s.pc + 5 + rel < TWO_64
    ensures Execute(isa, Call(rel), 5, s) == Cpu(s.pc + 5 + rel, Push(s.core, s.pc + 5))
  {
  }

  /** The emitted call reaches its target with the address of the skip as its return
      address. */
  lemma RunCall(isa: Isa, code: Code, k: nat, destiny: Word, s: Cpu) returns (m: nat, u: Cpu)
    requires Mapped(code) && s.pc == code.base + k && s.pc + 10 < TWO_64
    requires At(code, k, [0xe8] + Bytes32(5)) && At(code, k + 10, JumpBytes(s.pc + 10, destiny))
    requires Jumpable(destiny, s.pc + 10)
    ensures 1 <= m <= 4 && u == Steps(isa, code, s, m)
    ensures u.pc == destiny && Same(Slot(u.core.regs[RSP]), Push(s.core, s.pc + 5), u.core)
  {
    StepCall(isa, code, k, s);
    var t := Cpu(s.pc + 10, Push(s.core, s.pc + 5));
    m := RunJump(isa, code, k + 10, destiny, t);
    u := Steps(isa, code, t, m);
    FirstStep(isa, code, s, m);
    m := 1 + m;
  }

  lemma CallParts(code: Code, k: nat, destiny: Word, at: Word)
    requires Mapped(code) && At(code, k, CallBytes(at, destiny)) && at == code.base + k
    ensures At(code, k, [0xe8] + Bytes32(5))
    ensures At(code, k + 5, SkipBytes(SizeOfJump(destiny, Plus(at, 10))))
    ensures At(code, k + 10, JumpBytes(Plus(at, 10), destiny))
    ensures |CallBytes(at, destiny)| == 10 + SizeOfJump(destiny, Plus(at, 10))
    ensures at + |CallBytes(at, destiny)| < TWO_64 && Plus(at, 10) == at + 10
  {
    var head, skip := [0xe8] + Bytes32(5), SkipBytes(SizeOfJump(destiny, Plus(at, 10)));
    var jump := JumpBytes(Plus(at, 10), destiny);
    AtThree(code, k, head, skip, jump);
    NextPlace(code, k + 5, skip, at + 5);
  }

  lemma AtThree(code: Code, k: nat, a: seq<Byte>, b: seq<Byte>, c: seq<Byte>)
    requires At(code, k, a + b + c)
    ensures At(code, k, a) && At(code, k + |a|, b) && At(code, k + |a| + |b|, c)
  {
    AtHead(code, k, a + b, c);
    AtHead(code, k, a, b);
  }

  /** Where the callee returns to, one jump leads behind the emitted call. */
  lemma RunReturn(isa: Isa, code: Code, k: nat, destiny: Word, at: Word, s: Cpu)
    requires Mapped(code) && At(code, k, CallBytes(at, destiny)) && at == code.base + k
    requires s.pc == at + 5
    ensures Step(isa, code, s) == s.(pc := at + |CallBytes(at, destiny)|)
  {
    CallParts(code, k, destiny, at);
    var size := SizeOfJump(destiny, Plus(at, 10));
    RunSkip(isa, code, k + 5, size, s);
    SmallSkip(s.pc, size);
  }

  lemma SmallSkip(pc: Word, size: nat)
    requires size <= 14 && pc + 5 + size < TWO_64
    ensures Plus(pc + 5, Signed32(size % TWO_32)) == pc + 5 + size
  {
  }

  lemma StepCond(isa: Isa, code: Code, k: nat, op: Byte, s: Cpu)
    requires Mapped(code) && IsCond(op) && At(code, k, [op, 2]) && s.pc == code.base + k && s.pc + 4 < TWO_64
    ensures Step(isa, code, s) == s.(pc := if isa.taken(op, s.core.flags, s.core.regs[RCX]) then s.pc + 4 else s.pc + 2)
  {
    var rest := StepAt(isa, code, k, [op, 2], s);
    DecodeCond(isa, op, 2, rest);
  }

  lemma StepShort(isa: Isa, code: Code, k: nat, d: Byte, s: Cpu)
    requires Mapped(code) && At(code, k, [0xeb, d]) && s.pc == code.base + k && d < 0x80 && s.pc + 2 + d < TWO_64
    ensures Step(isa, code, s) == s.(pc := s.pc + 2 + d)
  {
    var rest := StepAt(isa, code, k, [0xeb, d], s);
    DecodeShort(isa, d, rest);
  }

  lemma CondParts(code: Code, k: nat, op: Byte, destiny: Word, at: Word)
    requires Mapped(code) && At(code, k, CondBytes(at, op, destiny)) && at == code.base + k
    ensures At(code, k, [op, 2])
    ensures At(code, k + 2, [0xeb, SizeOfJump(destiny, Plus(at, 4))])
    ensures At(code, k + 4, JumpBytes(Plus(at, 4), destiny))
    ensures |CondBytes(at, op, destiny)| == 4 + SizeOfJump(destiny, Plus(at, 4))
    ensures Plus(at, 4) == at + 4
  {
    var size := SizeOfJump(destiny, Plus(at, 4));
    assert [op, 2, 0xeb, size] == [op, 2] + [0xeb, size];
    AtHead(code, k, [op, 2, 0xeb, size], JumpBytes(Plus(at, 4), destiny));
    AtHead(code, k, [op, 2], [0xeb, size]);
  }

  /** The emitted conditional jump takes the same branch. */
  lemma RunCond(isa: Isa, code: Code, k: nat, op: Byte, destiny: Word, s: Cpu) returns (m: nat)
    requires Mapped(code) && IsCond(op) && At(code, k, CondBytes(s.pc, op, destiny)) && s.pc == code.base + k
    requires Jumpable(destiny, Plus(s.pc, 4))
    ensures 1 <= m <= 4
    ensures Steps(isa, code, s, m).pc
         == if isa.taken(op, s.core.flags, s.core.regs[RCX]) then destiny else s.pc + |CondBytes(s.pc, op, destiny)|
    ensures Same(Slot(s.core.regs[RSP]), s.core, Steps(isa, code, s, m).core)
    ensures !isa.taken(op, s.core.flags, s.core.regs[RCX]) ==> Steps(isa, code, s, m).core == s.core
  {
    CondParts(code, k, op, destiny, s.pc);
    StepCond(isa, code, k, op, s);
    var t := Step(isa, code, s);
    if isa.taken(op, s.core.flags, s.core.regs[RCX]) {
      var n := RunJump(isa, code, k + 4, destiny, t);
      m := 1 + n;
      FirstStep(isa, code, s, n);
    } else {
      StepShort(isa, code, k + 2, SizeOfJump(destiny, Plus(s.pc, 4)), t);
      FirstStep(isa, code, s, 1);
      FirstStep(isa, code, t, 0);
      m := 2;
    }
  }
}
