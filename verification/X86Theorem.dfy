/**
 The prologue and its relocated copy run alike, step by step and over whole runs.
 */
module X86Theorem {
  import opened X86Machine
  import opened X86Emit
  import opened X86Relocate
  import opened X86Run
  import opened X86Sequences
  import opened X86Meaning
  import opened X86Simulation

  lemma ExecuteLen(isa: Isa, op: Op, len: nat, s: Cpu)
    requires IsCopied(op)
    ensures Execute(isa, op, len, s).pc == if op.Ret? then Load64(s.core.mem, s.core.regs[RSP]) else Plus(s.pc, len)
    ensures Execute(isa, op, len, s).core == Effect(isa, op, s.core)
  {
  }

  /** What a copied instruction does to everything but the program counter. */
  function Effect(isa: Isa, op: Op, core: Core): Core
    requires IsCopied(op)
  {
    var sp := core.regs[RSP];
    match op
    case PushImm(v) => Push(core, v)
    case StoreHigh(v) => core.(mem := Store(core.mem, Plus(sp, 4), v, 4))
    case Pop(r) => core.(regs := core.regs[RSP := Plus(sp, 8)][r := Load64(core.mem, sp)])
    case LoadReg(dst, src) => core.(regs := core.regs[dst := Load64(core.mem, core.regs[src])])
    case Ret => core.(regs := core.regs[RSP := Plus(sp, 8)])
    case Plain(bytes) => isa.effect(bytes, core)
  }

  /** The dirt that it leaves. */
  ghost function Cleaned(isa: Isa, op: Op, dirt: iset<Word>, core: Core): iset<Word>
    requires IsCopied(op)
  {
    match op
    case PushImm(_) => dirt - Slot(core.regs[RSP])
    case StoreHigh(_) => dirt - Span(Plus(core.regs[RSP], 4), 4)
    case Plain(bytes) => Swept(isa, bytes, dirt, core)
    case _ => dirt
  }

  /** A copied instruction that reads no dirt keeps equal cores equal. */
  lemma EffectSame(isa: Isa, op: Op, dirt: iset<Word>, c: Core, d: Core)
    requires IsCopied(op) && Same(dirt, c, d) && Harmless(isa, op, dirt, c)
    ensures Same(Cleaned(isa, op, dirt, c), Effect(isa, op, c), Effect(isa, op, d))
  {
    var sp := c.regs[RSP];
    match op
    case PushImm(v) => SamePush(dirt, c, d, v);
    case StoreHigh(v) => AlikeStored(dirt, c.mem, d.mem, Plus(sp, 4), v, 4);
    case Pop(r) => LoadAlike(dirt, c.mem, d.mem, sp);
    case LoadReg(_, src) => LoadAlike(dirt, c.mem, d.mem, c.regs[src]);
    case Ret =>
    case Plain(bytes) => SameSwept(isa, bytes, dirt, c, d);
  }

  /** The step of the original. */
  lemma OriginalStep(w: Site, s: Cpu)
    requires Inside(Original(w), s.pc)
    ensures var d := Decoding(w, s.pc - w.area);
            Step(w.isa, Original(w), s) == Execute(w.isa, d.op, d.len, s)
  {
  }

  lemma SameSame(dirt: iset<Word>, more: iset<Word>, a: Core, b: Core, c: Core)
    requires Same(dirt, a, b) && Same(more, b, c)
    ensures Same(dirt + more, a, c)
  {
  }

  /** The jump behind the relocated prologue stands at `at` and can be trusted. */
  predicate Final(w: Site, at: int) {
    && w.buffer.base <= at < TWO_64 && At(w.buffer, at - w.buffer.base, JumpBytes(at, Plus(w.area, |w.backup|)))
    && Outside(w, Plus(w.area, |w.backup|)) && Jumpable(Plus(w.area, |w.backup|), at)
  }

  /** It leads on in the original. */
  lemma RunBack(w: Site, dirt: iset<Word>, s: Cpu, t: Cpu) returns (m: nat)
    requires Mapped(w.buffer) && Final(w, t.pc)
    requires s.pc == Plus(w.area, |w.backup|) && Same(dirt, s.core, t.core)
    ensures 1 <= m <= 3
    ensures Left(w, dirt, s, Steps(w.isa, w.buffer, t, m))
  {
    m := RunJump(w.isa, w.buffer, t.pc - w.buffer.base, s.pc, t);
    SameSame(dirt, Slot(s.core.regs[RSP]), s.core, t.core, Steps(w.isa, w.buffer, t, m).core);
  }

  /** Both stand at the instruction at `offset`, with what was emitted for it. */
  ghost predicate Ready(w: Site, offset: nat, part: seq<Byte>, dirt: iset<Word>, s: Cpu, t: Cpu) {
    && offset < |w.backup| && Mapped(Original(w)) && Mapped(w.buffer)
    && s.pc == w.area + offset && w.buffer.base <= t.pc && At(w.buffer, t.pc - w.buffer.base, part)
    && Same(dirt, s.core, t.core)
  }

  lemma OriginalJump(w: Site, offset: nat, s: Cpu)
    requires offset < |w.backup| && s.pc == w.area + offset && Decoding(w, offset).op.Jump?
    ensures Step(w.isa, Original(w), s) == s.(pc := Plus(Behind(w, offset), Decoding(w, offset).op.rel))
  {
    OriginalStep(w, s);
    PlusInt(w.area, offset, Decoding(w, offset).len);
  }

  lemma JumpCase(w: Site, offset: nat, target: Word, dirt: iset<Word>, s: Cpu, t: Cpu) returns (m: nat)
    requires Ready(w, offset, JumpBytes(t.pc, target), dirt, s, t)
    requires Decoding(w, offset).op.Jump? && target == Plus(Behind(w, offset), Decoding(w, offset).op.rel)
    requires Outside(w, target) && Jumpable(target, t.pc)
    ensures 1 <= m <= 3
    ensures Left(w, dirt, Step(w.isa, Original(w), s), Steps(w.isa, w.buffer, t, m))
  {
    OriginalJump(w, offset, s);
    m := RunJump(w.isa, w.buffer, t.pc - w.buffer.base, target, t);
    SameSame(dirt, Slot(s.core.regs[RSP]), s.core, t.core, Steps(w.isa, w.buffer, t, m).core);
  }

  lemma OriginalCond(w: Site, offset: nat, s: Cpu)
    requires offset < |w.backup| && s.pc == w.area + offset && Decoding(w, offset).op.Cond?
    ensures var op := Decoding(w, offset).op;
            Step(w.isa, Original(w), s)
            == s.(pc := if w.isa.taken(op.op, s.core.flags, s.core.regs[RCX]) then Plus(Behind(w, offset), op.rel)
                        else Behind(w, offset))
  {
    OriginalStep(w, s);
    PlusInt(w.area, offset, Decoding(w, offset).len);
  }

  /** A conditional jump leaves or falls through on both sides. */
  lemma CondCase(w: Site, offset: nat, target: Word, dirt: iset<Word>, s: Cpu, t: Cpu) returns (m: nat)
    requires offset < |w.backup| && Decoding(w, offset).op.Cond? && IsCond(Decoding(w, offset).op.op)
    requires Ready(w, offset, CondBytes(t.pc, Decoding(w, offset).op.op, target), dirt, s, t)
    requires target == Plus(Behind(w, offset), Decoding(w, offset).op.rel)
    requires Outside(w, target) && Jumpable(target, Plus(t.pc, 4))
    ensures 1 <= m <= 4
    ensures var p, q := Step(w.isa, Original(w), s), Steps(w.isa, w.buffer, t, m);
            Left(w, dirt, p, q) ||
            (p.pc == Behind(w, offset) && q.pc == t.pc + |CondBytes(t.pc, Decoding(w, offset).op.op, target)| &&
             Same(dirt, p.core, q.core))
  {
    OriginalCond(w, offset, s);
    m := RunCond(w.isa, w.buffer, t.pc - w.buffer.base, Decoding(w, offset).op.op, target, t);
    var q := Steps(w.isa, w.buffer, t, m);
    SameSame(dirt, Slot(s.core.regs[RSP]), s.core, t.core, q.core);
  }

  lemma OriginalCall(w: Site, offset: nat, s: Cpu)
    requires offset < |w.backup| && s.pc == w.area + offset && Decoding(w, offset).op.Call?
    ensures Step(w.isa, Original(w), s)
         == Cpu(Plus(Behind(w, offset), Decoding(w, offset).op.rel), Push(s.core, Behind(w, offset)))
  {
    OriginalStep(w, s);
    PlusInt(w.area, offset, Decoding(w, offset).len);
  }

  lemma PlusZero(a: Word)
    ensures Plus(a, 0) == a
  {
  }

  /** A call of the next instruction pushes the address of the original. */
  lemma NextCase(w: Site, offset: nat, dirt: iset<Word>, s: Cpu, t: Cpu) returns (m: nat)
    requires offset < |w.backup| && Ready(w, offset, PushPointerBytes(Behind(w, offset)), dirt, s, t)
    requires Decoding(w, offset).op.Call? && Decoding(w, offset).op.rel == 0 && Pushable(Behind(w, offset))
    ensures 1 <= m <= 2
    ensures var p, q := Step(w.isa, Original(w), s), Steps(w.isa, w.buffer, t, m);
            p.pc == Behind(w, offset) && q.pc == t.pc + |PushPointerBytes(Behind(w, offset))| &&
            Same(dirt - Slot(s.core.regs[RSP]), p.core, q.core)
  {
    OriginalCall(w, offset, s);
    PlusZero(Behind(w, offset));
    m := RunPush(w.isa, w.buffer, t.pc - w.buffer.base, Behind(w, offset), t);
    SamePush(dirt, s.core, t.core, Behind(w, offset));
  }

  /** The memories after pushes of different return addresses. */
  lemma PushedAlike(dirt: iset<Word>, m: Memory, k: Memory, e: Memory, sp: Word, v: Word, u: Word)
    requires Alike(dirt, m, k) && Alike(Slot(sp), Store(k, sp, u, 8), e)
    ensures Alike(dirt - Span(sp, 8) + Span(sp, 8) + Slot(sp), Store(m, sp, v, 8), e)
  {
    forall x: Word | x !in dirt - Span(sp, 8) + Span(sp, 8) + Slot(sp)
      ensures Peek(Store(m, sp, v, 8), x) == Peek(e, x)
    {
      PeekStore(m, sp, v, 8, x);
      PeekStore(k, sp, u, 8, x);
    }
  }

  /** The eight bytes at an address and the eight below it do not meet. */
  lemma SlotApart(sp: Word)
    ensures Clear(Slot(sp), sp, 8)
  {
  }

  lemma PushedLoads(c: Core, d: Core, e: Core, v: Word, u: Word)
    requires c.regs == d.regs && Same(Slot(Push(d, u).regs[RSP]), Push(d, u), e)
    ensures var p := Push(c, v); var sp := p.regs[RSP]; Load64(p.mem, sp) == v && Load64(e.mem, sp) == u
  {
    var sp := Plus(c.regs[RSP], -8);
    LoadPushed(c.mem, sp, v);
    LoadPushed(d.mem, sp, u);
    SlotApart(sp);
    LoadAlike(Slot(sp), Push(d, u).mem, e.mem, sp);
  }

  lemma CallRelated(w: Site, offset: nat, target: Word, dirt: iset<Word>, c: Core, d: Core, q: Cpu)
    requires Tiles(w.hde, w.backup, 0) && OnBoundary(w, 0, offset) && IsCallAt(w, offset)
    requires Place(w, offset) + 5 < TWO_64 && w.area + offset + 5 < TWO_64
    requires Same(dirt, c, d) && Same(Slot(q.core.regs[RSP]), Push(d, Place(w, offset) + 5), q.core)
    requires q.pc == target && Outside(w, target)
    ensures Called(w, offset, dirt - Slot(c.regs[RSP]), Cpu(target, Push(c, w.area + offset + 5)), q)
  {
    PushedLoads(c, d, q.core, w.area + offset + 5, Place(w, offset) + 5);
    PushedAlike(dirt, c.mem, d.mem, q.core.mem, Plus(c.regs[RSP], -8), w.area + offset + 5, Place(w, offset) + 5);
  }

  lemma OriginalLoad(w: Site, offset: nat, s: Cpu)
    requires offset < |w.backup| && s.pc == w.area + offset && Decoding(w, offset).op.LoadRip?
    ensures var op := Decoding(w, offset).op;
            Step(w.isa, Original(w), s)
            == Cpu(Behind(w, offset), Loaded(s.core, op.dst, Plus(Behind(w, offset), op.rel)))
  {
    OriginalStep(w, s);
    PlusInt(w.area, offset, Decoding(w, offset).len);
  }

  lemma LoadedAlike(dirt: iset<Word>, c: Core, d: Core, r: Reg, a: Word)
    requires Same(dirt, c, d) && Clear(dirt, a, 8)
    ensures Same(dirt, Loaded(c, r, a), Loaded(d, r, a))
  {
    LoadAlike(dirt, c.mem, d.mem, a);
  }

  lemma ClearParts(dirt: iset<Word>, more: iset<Word>, a: Word, n: nat)
    requires Clear(dirt + more, a, n)
    ensures Clear(dirt, a, n) && Clear(more, a, n)
  {
    forall x: Word | InRange(x, a, n)
      ensures x !in dirt && x !in more
    {
      assert x !in dirt + more;
    }
  }

  /** A load relative to the program counter finds the same word. */
  lemma LoadCase(w: Site, offset: nat, target: Word, dirt: iset<Word>, s: Cpu, t: Cpu) returns (m: nat)
    requires offset < |w.backup| && Decoding(w, offset).op.LoadRip?
    requires Ready(w, offset, RipLoadBytes(target, Decoding(w, offset).op.dst), dirt, s, t)
    requires target == Plus(Behind(w, offset), Decoding(w, offset).op.rel) && Pushable(target)
    requires Decoding(w, offset).op.dst % 8 != 4 && Decoding(w, offset).op.dst % 8 != 5
    requires Clear(dirt + Slot(s.core.regs[RSP]), target, 8)
    ensures 1 <= m <= 4
    ensures var p, q := Step(w.isa, Original(w), s), Steps(w.isa, w.buffer, t, m);
            p.pc == Behind(w, offset) && q.pc == t.pc + |RipLoadBytes(target, Decoding(w, offset).op.dst)| &&
            Same(dirt + Slot(s.core.regs[RSP]), p.core, q.core)
  {
    var r := Decoding(w, offset).op.dst;
    var slot := Slot(s.core.regs[RSP]);
    ClearParts(dirt, slot, target, 8);
    OriginalLoad(w, offset, s);
    RipLoadParts(w.buffer, t.pc - w.buffer.base, target, r);
    var u: Cpu;
    m, u := RunRipLoad(w.isa, w.buffer, t.pc - w.buffer.base, target, r, t);
    LoadedAlike(dirt, s.core, t.core, r, target);
    SameSame(dirt, slot, Loaded(s.core, r, target), Loaded(t.core, r, target), u.core);
  }

  lemma OriginalCopied(w: Site, offset: nat, s: Cpu)
    requires offset < |w.backup| && s.pc == w.area + offset && IsCopied(Decoding(w, offset).op)
    ensures var op := Decoding(w, offset).op;
            Step(w.isa, Original(w), s)
            == Cpu(if op.Ret? then Load64(s.core.mem, s.core.regs[RSP]) else Behind(w, offset),
                   Effect(w.isa, op, s.core))
  {
    OriginalStep(w, s);
    PlusInt(w.area, offset, Decoding(w, offset).len);
    ExecuteLen(w.isa, Decoding(w, offset).op, Decoding(w, offset).len, s);
  }

  lemma BufferCopied(isa: Isa, code: Code, k: nat, part: seq<Byte>, d: Decoded, t: Cpu)
    requires Mapped(code) && At(code, k, part) && t.pc == code.base + k
    requires IsCopied(d.op) && d.len == |part| > 0
    requires forall rest: seq<Byte> :: Decode(isa, part + rest) == d
    ensures Steps(isa, code, t, 1)
         == Cpu(if d.op.Ret? then Load64(t.core.mem, t.core.regs[RSP]) else t.pc + |part|, Effect(isa, d.op, t.core))
  {
    var rest := StepAt(isa, code, k, part, t);
    NextPlace(code, k, part, t.pc);
    ExecuteLen(isa, d.op, |part|, t);
    FirstStep(isa, code, t, 0);
    FirstStep(isa, code, Step(isa, code, t), 0);
  }

  /** What the model asks of a copied instruction: that it reads no dirt. */
  ghost predicate Harmless(isa: Isa, op: Op, dirt: iset<Word>, core: Core) {
    match op
    case Plain(bytes) => Blind(isa, bytes, dirt, core)
    case Pop(_) => Clear(dirt, core.regs[RSP], 8)
    case Ret => Clear(dirt, core.regs[RSP], 8)
    case LoadReg(_, src) => Clear(dirt, core.regs[src], 8)
    case _ => true
  }

  lemma HarmlessHere(w: Site, offset: nat, dirt: iset<Word>, s: Cpu)
    requires offset < |w.backup| && s.pc == w.area + offset && Healthy(w, dirt, s) && IsCopied(Decoding(w, offset).op)
    ensures Harmless(w.isa, Decoding(w, offset).op, dirt, s.core)
    ensures Stained(w, dirt, s) == Cleaned(w.isa, Decoding(w, offset).op, dirt, s.core)
  {
  }

  /** A copied instruction does the same in its new place. */
  lemma CopiedCase(w: Site, offset: nat, part: seq<Byte>, dirt: iset<Word>, s: Cpu, t: Cpu)
    requires Ready(w, offset, part, dirt, s, t) && IsCopied(Decoding(w, offset).op)
    requires |part| == Decoding(w, offset).len > 0
    requires forall rest: seq<Byte> :: Decode(w.isa, part + rest) == Decoding(w, offset)
    requires Harmless(w.isa, Decoding(w, offset).op, dirt, s.core)
    ensures var p, q := Step(w.isa, Original(w), s), Steps(w.isa, w.buffer, t, 1);
            var op := Decoding(w, offset).op;
            && Same(Cleaned(w.isa, op, dirt, s.core), p.core, q.core)
            && if op.Ret? then p.pc == q.pc == Load64(s.core.mem, s.core.regs[RSP])
               else p.pc == Behind(w, offset) && q.pc == t.pc + |part|
  {
    var op := Decoding(w, offset).op;
    OriginalCopied(w, offset, s);
    BufferCopied(w.isa, w.buffer, t.pc - w.buffer.base, part, Decoding(w, offset), t);
    EffectSame(w.isa, op, dirt, s.core, t.core);
    if op.Ret? {
      LoadAlike(dirt, s.core.mem, t.core.mem, s.core.regs[RSP]);
    }
  }

  /** The code that stands at the place of the instruction, and the way to the next. */
  ghost predicate Found(w: Site, offset: nat, part: seq<Byte>, at: Word) {
    && Tiles(w.hde, w.backup, 0) && Mapped(Original(w)) && Mapped(w.buffer)
    && offset < |w.backup| && OnBoundary(w, 0, offset) && at == Place(w, offset)
    && w.buffer.base <= at && At(w.buffer, at - w.buffer.base, part)
    && var next := offset + Decoding(w, offset).len;
       next <= |w.backup| && OnBoundary(w, 0, next) && Place(w, next) == at + |part| &&
       (next == |w.backup| ==> Final(w, at + |part|))
  }

  lemma Find(w: Site, offset: nat)
    requires Valid(w) && OnBoundary(w, 0, offset) && offset < |w.backup|
    ensures Understood(w, offset, Place(w, offset))
    ensures Found(w, offset, w.emit(offset, Place(w, offset)), Place(w, offset))
  {
    Whole(w);
    assert Cleared(w, offset);
    FindEnd(w, offset);
    FindPart(w, offset);
  }

  lemma FindPart(w: Site, offset: nat)
    requires Laid(w) && Mapped(Original(w)) && OnBoundary(w, 0, offset) && offset < |w.backup|
    requires Report(w, offset).len == Decoding(w, offset).len
    requires OnBoundary(w, 0, |w.backup|) ==> Final(w, Place(w, |w.backup|))
    ensures Found(w, offset, w.emit(offset, Place(w, offset)), Place(w, offset))
  {
    Fetch(w, offset);
  }

  lemma FindEnd(w: Site, offset: nat)
    requires Valid(w) && OnBoundary(w, 0, offset)
    ensures OnBoundary(w, 0, |w.backup|) ==> Final(w, Place(w, |w.backup|))
  {
    if OnBoundary(w, 0, |w.backup|) {
      WindowEnd(w);
    }
  }

  lemma WindowEnd(w: Site)
    requires Valid(w) && OnBoundary(w, 0, |w.backup|)
    ensures Final(w, Place(w, |w.backup|))
  {
    Whole(w);
    FetchBack(w);
    BackPlace(w);
  }

  lemma ArriveInside(w: Site, next: nat, dirt: iset<Word>, p: Cpu, q: Cpu)
    requires Tiles(w.hde, w.backup, 0) && Mapped(Original(w)) && OnBoundary(w, 0, next) && next < |w.backup|
    requires p.pc == Plus(w.area, next) && q.pc == Place(w, next) && Same(dirt, p.core, q.core)
    ensures Inner(w, dirt, p, q)
  {
  }

  /** Behind an instruction that both fell through, they stand at the next or leave. */
  lemma Arrive(w: Site, offset: nat, part: seq<Byte>, at: Word, dirt: iset<Word>, p: Cpu, q: Cpu) returns (m: nat)
    requires Found(w, offset, part, at)
    requires p.pc == Behind(w, offset) && q.pc == at + |part| && Same(dirt, p.core, q.core)
    ensures m <= 3
    ensures var u := Steps(w.isa, w.buffer, q, m); Inner(w, dirt, p, u) || Left(w, dirt, p, u)
  {
    var next := offset + Decoding(w, offset).len;
    if next < |w.backup| {
      m := 0;
      FirstStep(w.isa, w.buffer, q, 0);
      ArriveInside(w, next, dirt, p, q);
    } else {
      m := RunBack(w, dirt, p, q);
    }
  }

  /** After m steps of the buffer the two stand at the next instruction, have left
      together, or have called the same function. */
  ghost predicate Answered(w: Site, offset: nat, dirt: iset<Word>, p: Cpu, t: Cpu, m: nat)
    requires Tiles(w.hde, w.backup, 0)
  {
    1 <= m <= 8 && Related(w, offset, dirt, p, Steps(w.isa, w.buffer, t, m))
  }

  lemma Onward(w: Site, offset: nat, part: seq<Byte>, at: Word, dirt: iset<Word>, p: Cpu, t: Cpu, m: nat) returns (n: nat)
    requires Found(w, offset, part, at) && 1 <= m <= 5
    requires var q := Steps(w.isa, w.buffer, t, m);
             p.pc == Behind(w, offset) && q.pc == at + |part| && Same(dirt, p.core, q.core)
    ensures Answered(w, offset, dirt, p, t, n)
  {
    var k := Arrive(w, offset, part, at, dirt, p, Steps(w.isa, w.buffer, t, m));
    StepsSum(w.isa, w.buffer, t, m, k);
    n := m + k;
  }

  /** All that is known when both stand at the instruction at `offset`. */
  ghost predicate Poised(w: Site, offset: nat, part: seq<Byte>, dirt: iset<Word>, s: Cpu, t: Cpu) {
    Found(w, offset, part, t.pc) && Ready(w, offset, part, dirt, s, t) && Understood(w, offset, t.pc)
  }

  lemma JumpSimulated(w: Site, offset: nat, part: seq<Byte>, dirt: iset<Word>, s: Cpu, t: Cpu) returns (m: nat)
    requires Poised(w, offset, part, dirt, s, t) && Decoding(w, offset).op.Jump?
    requires part == JumpBytes(t.pc, Plus(Behind(w, offset), Decoding(w, offset).op.rel))
    ensures Answered(w, offset, Stained(w, dirt, s), Step(w.isa, Original(w), s), t, m)
  {
    m := JumpCase(w, offset, Plus(Behind(w, offset), Decoding(w, offset).op.rel), dirt, s, t);
  }

  lemma CondSimulated(w: Site, offset: nat, part: seq<Byte>, dirt: iset<Word>, s: Cpu, t: Cpu) returns (m: nat)
    requires Poised(w, offset, part, dirt, s, t) && Decoding(w, offset).op.Cond? && IsCond(Decoding(w, offset).op.op)
    requires var op := Decoding(w, offset).op; part == CondBytes(t.pc, op.op, Plus(Behind(w, offset), op.rel))
    ensures Answered(w, offset, Stained(w, dirt, s), Step(w.isa, Original(w), s), t, m)
  {
    var p := Step(w.isa, Original(w), s);
    m := CondCase(w, offset, Plus(Behind(w, offset), Decoding(w, offset).op.rel), dirt, s, t);
    if !Left(w, dirt, p, Steps(w.isa, w.buffer, t, m)) {
      m := Onward(w, offset, part, t.pc, dirt, p, t, m);
    }
  }

  lemma NextSimulated(w: Site, offset: nat, part: seq<Byte>, dirt: iset<Word>, s: Cpu, t: Cpu) returns (m: nat)
    requires Poised(w, offset, part, dirt, s, t) && Decoding(w, offset).op.Call? && Decoding(w, offset).op.rel == 0
    requires part == PushPointerBytes(Behind(w, offset))
    ensures Answered(w, offset, Stained(w, dirt, s), Step(w.isa, Original(w), s), t, m)
  {
    m := NextCase(w, offset, dirt, s, t);
    m := Onward(w, offset, part, t.pc, Stained(w, dirt, s), Step(w.isa, Original(w), s), t, m);
  }

  /** The call of the original, its target and its return address given. */
  lemma CallTaken(w: Site, offset: nat, target: Word, behind: Word, dirt: iset<Word>, s: Cpu)
    requires IsCallAt(w, offset) && s.pc == w.area + offset && Mapped(Original(w)) && behind == Behind(w, offset)
    requires target == Plus(behind, Decoding(w, offset).op.rel)
    ensures Step(w.isa, Original(w), s) == Cpu(target, Push(s.core, behind)) && Stained(w, dirt, s) == dirt - Slot(s.core.regs[RSP])
  {
    OriginalCall(w, offset, s);
  }

  lemma CallSimulated(w: Site, offset: nat, part: seq<Byte>, dirt: iset<Word>, s: Cpu, t: Cpu) returns (m: nat)
    requires Poised(w, offset, part, dirt, s, t) && IsCallAt(w, offset) && Decoding(w, offset).len == 5
    requires part == CallBytes(t.pc, Plus(Behind(w, offset), Decoding(w, offset).op.rel))
    ensures Answered(w, offset, Stained(w, dirt, s), Step(w.isa, Original(w), s), t, m)
  {
    var behind := Behind(w, offset);
    var target := Plus(behind, Decoding(w, offset).op.rel);
    CallTaken(w, offset, target, behind, dirt, s);
    CallReaches(w, offset, target, t.pc);
    BehindCall(w, offset);
    m := CallDone(w, offset, part, target, dirt, s, t, Cpu(target, Push(s.core, behind)));
  }

  /** A call reaches the same function, with a return address in the buffer. */
  lemma CallDone(w: Site, offset: nat, part: seq<Byte>, target: Word, dirt: iset<Word>, s: Cpu, t: Cpu, p: Cpu) returns (m: nat)
    requires Tiles(w.hde, w.backup, 0) && OnBoundary(w, 0, offset) && IsCallAt(w, offset) && t.pc == Place(w, offset)
    requires Mapped(w.buffer) && w.buffer.base <= t.pc && At(w.buffer, t.pc - w.buffer.base, part)
    requires part == CallBytes(t.pc, target) && Outside(w, target) && Jumpable(target, Plus(t.pc, 10))
    requires s.pc == w.area + offset && Same(dirt, s.core, t.core) && w.area + offset + 5 < TWO_64
    requires p == Cpu(target, Push(s.core, w.area + offset + 5))
    ensures Answered(w, offset, dirt - Slot(s.core.regs[RSP]), p, t, m)
  {
    var u: Cpu;
    m, u := CallRuns(w.isa, w.buffer, part, target, t);
    CallMeets(w, offset, target, dirt, s, t, p, m, u);
  }

  lemma CallMeets(w: Site, offset: nat, target: Word, dirt: iset<Word>, s: Cpu, t: Cpu, p: Cpu, m: nat, u: Cpu)
    requires Tiles(w.hde, w.backup, 0) && OnBoundary(w, 0, offset) && IsCallAt(w, offset) && t.pc == Place(w, offset)
    requires t.pc + 10 < TWO_64 && w.area + offset + 5 < TWO_64 && Same(dirt, s.core, t.core) && Outside(w, target)
    requires p == Cpu(target, Push(s.core, w.area + offset + 5))
    requires 1 <= m <= 4 && u == Steps(w.isa, w.buffer, t, m)
    requires u.pc == target && Same(Slot(u.core.regs[RSP]), Push(t.core, t.pc + 5), u.core)
    ensures Answered(w, offset, dirt - Slot(s.core.regs[RSP]), p, t, m)
  {
    CallRelated(w, offset, target, dirt, s.core, t.core, u);
  }

  lemma CallRuns(isa: Isa, code: Code, part: seq<Byte>, target: Word, t: Cpu) returns (m: nat, u: Cpu)
    requires Mapped(code) && code.base <= t.pc && At(code, t.pc - code.base, part) && part == CallBytes(t.pc, target)
    requires Jumpable(target, Plus(t.pc, 10))
    ensures 1 <= m <= 4 && u == Steps(isa, code, t, m) && t.pc + 10 < TWO_64
    ensures u.pc == target && Same(Slot(u.core.regs[RSP]), Push(t.core, t.pc + 5), u.core)
  {
    CallWritten(code, part, target, t.pc);
    PlusTen(t.pc);
    m, u := RunCall(isa, code, t.pc - code.base, target, t);
  }

  lemma CallWritten(code: Code, part: seq<Byte>, target: Word, at: Word)
    requires Mapped(code) && code.base <= at && At(code, at - code.base, part) && part == CallBytes(at, target)
    ensures at + 10 < TWO_64 && At(code, at - code.base, [0xe8] + Bytes32(5))
    ensures At(code, at - code.base + 10, JumpBytes(at + 10, target))
  {
    CallParts(code, at - code.base, target, at);
  }

  lemma CallReaches(w: Site, offset: nat, target: Word, at: Word)
    requires offset < |w.backup| && Understood(w, offset, at) && IsCallAt(w, offset)
    requires target == Plus(Behind(w, offset), Decoding(w, offset).op.rel)
    ensures Outside(w, target) && Jumpable(target, Plus(at, 10))
  {
  }

  lemma PlusTen(at: Word)
    requires at + 10 < TWO_64
    ensures Plus(at, 10) == at + 10
  {
  }

  lemma BehindCall(w: Site, offset: nat)
    requires Mapped(Original(w)) && offset < |w.backup| && offset + Decoding(w, offset).len <= |w.backup|
    ensures Behind(w, offset) == w.area + offset + Decoding(w, offset).len
  {
  }

  lemma LoadSimulated(w: Site, offset: nat, part: seq<Byte>, dirt: iset<Word>, s: Cpu, t: Cpu) returns (m: nat)
    requires Poised(w, offset, part, dirt, s, t) && Decoding(w, offset).op.LoadRip? && Healthy(w, dirt, s)
    requires var op := Decoding(w, offset).op; part == RipLoadBytes(Plus(Behind(w, offset), op.rel), op.dst)
    ensures Answered(w, offset, Stained(w, dirt, s), Step(w.isa, Original(w), s), t, m)
  {
    ClearHere(w, offset, dirt, s);
    m := LoadCase(w, offset, Plus(Behind(w, offset), Decoding(w, offset).op.rel), dirt, s, t);
    m := Onward(w, offset, part, t.pc, Stained(w, dirt, s), Step(w.isa, Original(w), s), t, m);
  }

  lemma ClearHere(w: Site, offset: nat, dirt: iset<Word>, s: Cpu)
    requires offset < |w.backup| && s.pc == w.area + offset && Healthy(w, dirt, s) && Decoding(w, offset).op.LoadRip?
    ensures Clear(dirt + Slot(s.core.regs[RSP]), Plus(Behind(w, offset), Decoding(w, offset).op.rel), 8)
  {
    PlusInt(w.area, offset, Decoding(w, offset).len);
  }

  lemma CopiedSimulated(w: Site, offset: nat, part: seq<Byte>, dirt: iset<Word>, s: Cpu, t: Cpu) returns (m: nat)
    requires Poised(w, offset, part, dirt, s, t) && IsCopied(Decoding(w, offset).op) && Healthy(w, dirt, s)
    requires |part| == Decoding(w, offset).len > 0
    requires forall rest: seq<Byte> :: Decode(w.isa, part + rest) == Decoding(w, offset)
    ensures Answered(w, offset, Stained(w, dirt, s), Step(w.isa, Original(w), s), t, m)
  {
    var p, more := Step(w.isa, Original(w), s), Stained(w, dirt, s);
    HarmlessHere(w, offset, dirt, s);
    CopiedCase(w, offset, part, dirt, s, t);
    if Decoding(w, offset).op.Ret? {
      m := 1;
      Leaves(w, more, p, Steps(w.isa, w.buffer, t, 1));
    } else {
      m := Onward(w, offset, part, t.pc, more, p, t, 1);
    }
  }

  lemma Leaves(w: Site, dirt: iset<Word>, p: Cpu, q: Cpu)
    requires p.pc == q.pc && Outside(w, p.pc) && Same(dirt, p.core, q.core)
    ensures Left(w, dirt, p, q)
  {
  }

  lemma CopiedStable(w: Site, offset: nat, at: Word)
    requires Emits(w) && offset < |w.backup| && Understood(w, offset, at) && IsCopied(Decoding(w, offset).op)
    ensures |w.emit(offset, at)| == Decoding(w, offset).len > 0
    ensures forall rest: seq<Byte> :: Decode(w.isa, w.emit(offset, at) + rest) == Decoding(w, offset)
  {
    forall rest: seq<Byte>
      ensures Decode(w.isa, w.emit(offset, at) + rest) == Decoding(w, offset)
    {
      CopiedPart(w, offset, at, rest);
    }
    CopiedPart(w, offset, at, []);
  }

  lemma Poise(w: Site, dirt: iset<Word>, s: Cpu, t: Cpu)
    requires Valid(w) && Inner(w, dirt, s, t)
    ensures var offset := s.pc - w.area; Poised(w, offset, w.emit(offset, t.pc), dirt, s, t) && Emits(w)
  {
    var offset := s.pc - w.area;
    Find(w, offset);
    ReadyHere(w, offset, w.emit(offset, t.pc), dirt, s, t);
  }

  lemma ReadyHere(w: Site, offset: nat, part: seq<Byte>, dirt: iset<Word>, s: Cpu, t: Cpu)
    requires Found(w, offset, part, t.pc) && s.pc == w.area + offset && Same(dirt, s.core, t.core)
    ensures Ready(w, offset, part, dirt, s, t)
  {
  }

  lemma Dispatch(w: Site, offset: nat, dirt: iset<Word>, s: Cpu, t: Cpu) returns (m: nat)
    requires Emits(w) && Poised(w, offset, w.emit(offset, t.pc), dirt, s, t) && Healthy(w, dirt, s)
    ensures Answered(w, offset, Stained(w, dirt, s), Step(w.isa, Original(w), s), t, m)
  {
    var op, part := Decoding(w, offset).op, w.emit(offset, t.pc);
    if op.Jump? {
      JumpPart(w, offset, t.pc);
      m := JumpSimulated(w, offset, part, dirt, s, t);
    } else if op.Cond? {
      CondPart(w, offset, t.pc);
      m := CondSimulated(w, offset, part, dirt, s, t);
    } else if op.Call? {
      CallPart(w, offset, t.pc);
      if op.rel == 0 {
        m := NextSimulated(w, offset, part, dirt, s, t);
      } else {
        m := CallSimulated(w, offset, part, dirt, s, t);
      }
    } else if op.LoadRip? {
      LoadPart(w, offset, t.pc);
      m := LoadSimulated(w, offset, part, dirt, s, t);
    } else {
      CopiedStable(w, offset, t.pc);
      m := CopiedSimulated(w, offset, part, dirt, s, t);
    }
  }

  /** Each instruction of the prologue that reads no dirt is answered by at most eight of
      the buffer. */
  lemma StepSimulated(w: Site, dirt: iset<Word>, s: Cpu, t: Cpu) returns (m: nat)
    requires Valid(w) && Inner(w, dirt, s, t) && Healthy(w, dirt, s)
    ensures Answered(w, s.pc - w.area, Stained(w, dirt, s), Step(w.isa, Original(w), s), t, m)
  {
    Poise(w, dirt, s, t);
    m := Dispatch(w, s.pc - w.area, dirt, s, t);
  }

  lemma ReturnLands(w: Site, at: Word, target: Word, part: seq<Byte>, t: Cpu)
    requires Mapped(w.buffer) && w.buffer.base <= at && At(w.buffer, at - w.buffer.base, part)
    requires part == CallBytes(at, target) && t.pc == at + 5
    ensures Step(w.isa, w.buffer, t) == t.(pc := at + |part|)
  {
    RunReturn(w.isa, w.buffer, at - w.buffer.base, target, at, t);
  }

  lemma ReturnArrives(w: Site, offset: nat, part: seq<Byte>, at: Word, dirt: iset<Word>, s: Cpu, t: Cpu, u: Cpu) returns (m: nat)
    requires Found(w, offset, part, at) && s.pc == Behind(w, offset) && u.pc == at + |part| && Same(dirt, s.core, u.core)
    requires Step(w.isa, w.buffer, t) == u
    ensures 1 <= m <= 4
    ensures var v := Steps(w.isa, w.buffer, t, m); Inner(w, dirt, s, v) || Left(w, dirt, s, v)
  {
    var k := Arrive(w, offset, part, at, dirt, s, u);
    FirstStep(w.isa, w.buffer, t, k);
    m := 1 + k;
  }

  lemma ReturnOnward(w: Site, offset: nat, part: seq<Byte>, at: Word, target: Word, dirt: iset<Word>, s: Cpu, t: Cpu)
      returns (m: nat)
    requires Found(w, offset, part, at) && part == CallBytes(at, target)
    requires s.pc == Behind(w, offset) && t.pc == at + 5 && Same(dirt, s.core, t.core)
    ensures 1 <= m <= 4
    ensures var u := Steps(w.isa, w.buffer, t, m); Inner(w, dirt, s, u) || Left(w, dirt, s, u)
  {
    ReturnLands(w, at, target, part, t);
    m := ReturnArrives(w, offset, part, at, dirt, s, t, t.(pc := at + |part|));
  }

  /** Where the callee returns, both continue behind the call. */
  lemma ReturnSimulated(w: Site, offset: nat, dirt: iset<Word>, s: Cpu, t: Cpu) returns (m: nat)
    requires Valid(w) && OnBoundary(w, 0, offset) && IsCallAt(w, offset)
    requires s.pc == w.area + offset + 5 && t.pc == Place(w, offset) + 5 && Same(dirt, s.core, t.core)
    ensures 1 <= m <= 4
    ensures var u := Steps(w.isa, w.buffer, t, m); Inner(w, dirt, s, u) || Left(w, dirt, s, u)
  {
    Find(w, offset);
    CallPart(w, offset, Place(w, offset));
    BehindCall(w, offset);
    var at, target := Place(w, offset), Plus(Behind(w, offset), Decoding(w, offset).op.rel);
    m := ReturnOnward(w, offset, CallBytes(at, target), at, target, dirt, s, t);
  }

  // -------------------------------------------------------------- whole runs

  /** The dirt after n steps of the original. */
  ghost function StainedBy(w: Site, dirt: iset<Word>, s: Cpu, n: nat): iset<Word>
    decreases n
  {
    if n == 0 then dirt else StainedBy(w, Stained(w, dirt, s), Step(w.isa, Original(w), s), n - 1)
  }

  /** No step of the original reads dirt. */
  ghost predicate HealthyRun(w: Site, dirt: iset<Word>, s: Cpu, n: nat)
    decreases n
  {
    Healthy(w, dirt, s) && (n > 0 ==> HealthyRun(w, Stained(w, dirt, s), Step(w.isa, Original(w), s), n - 1))
  }

  /** Only slots below the stack pointers that the original had on its way are dirty. */
  lemma {:induction false} DirtIsBelow(w: Site, dirt: iset<Word>, s: Cpu, n: nat, x: Word)
    requires x in StainedBy(w, dirt, s, n)
    ensures x in dirt || exists k: nat :: k < n && x in Slot(Steps(w.isa, Original(w), s, k).core.regs[RSP])
    decreases n
  {
    if n > 0 && x !in dirt {
      var p, more := Step(w.isa, Original(w), s), Stained(w, dirt, s);
      DirtIsBelow(w, more, p, n - 1, x);
      if x in more {
        FirstStep(w.isa, Original(w), s, 0);
        assert x in Slot(Steps(w.isa, Original(w), s, 0).core.regs[RSP]);
      } else {
        var k: nat :| k < n - 1 && x in Slot(Steps(w.isa, Original(w), p, k).core.regs[RSP]);
        FirstStep(w.isa, Original(w), s, k);
        assert x in Slot(Steps(w.isa, Original(w), s, 1 + k).core.regs[RSP]);
      }
    }
  }

  /** Where the original stands after n steps, the buffer stands, or has left with it. */
  ghost predicate Reached(w: Site, dirt: iset<Word>, p: Cpu, q: Cpu)
    requires Tiles(w.hde, w.backup, 0)
  {
    Inner(w, dirt, p, q) || Left(w, dirt, p, q) || exists offset: nat :: Called(w, offset, dirt, p, q)
  }

  lemma {:induction false} StandsStill(isa: Isa, code: Code, s: Cpu, n: nat)
    requires !Inside(code, s.pc)
    ensures Steps(isa, code, s, n) == s
    decreases n
  {
    if n > 0 {
      StandsStill(isa, code, s, n - 1);
    }
  }

  lemma {:induction false} StaysClean(w: Site, dirt: iset<Word>, s: Cpu, n: nat)
    requires !Inside(Original(w), s.pc)
    ensures StainedBy(w, dirt, s, n) == dirt
    decreases n
  {
    if n > 0 {
      StaysClean(w, dirt, s, n - 1);
    }
  }

  /** n steps of the original are matched by m of the buffer. */
  ghost predicate Matched(w: Site, dirt: iset<Word>, s: Cpu, t: Cpu, n: nat, m: nat)
    requires Tiles(w.hde, w.backup, 0)
  {
    Reached(w, StainedBy(w, dirt, s, n), Steps(w.isa, Original(w), s, n), Steps(w.isa, w.buffer, t, m))
  }

  /** Once it has left, the original stands still in the model. */
  lemma LeftForGood(w: Site, offset: nat, dirt: iset<Word>, p: Cpu, q: Cpu, n: nat)
    requires Tiles(w.hde, w.backup, 0) && Related(w, offset, dirt, p, q) && !Inner(w, dirt, p, q)
    ensures Matched(w, dirt, p, q, n, 0)
  {
    StandsStill(w.isa, Original(w), p, n);
    StaysClean(w, dirt, p, n);
    FirstStep(w.isa, w.buffer, q, 0);
  }

  lemma MatchedSum(w: Site, dirt: iset<Word>, s: Cpu, t: Cpu, p: Cpu, n: nat, k: nat, m: nat)
    requires Tiles(w.hde, w.backup, 0) && n > 0 && p == Step(w.isa, Original(w), s)
    requires Matched(w, Stained(w, dirt, s), p, Steps(w.isa, w.buffer, t, k), n - 1, m)
    ensures Matched(w, dirt, s, t, n, k + m)
  {
    FirstStep(w.isa, Original(w), s, n - 1);
    StepsSum(w.isa, w.buffer, t, k, m);
  }

  lemma HealthyFirst(w: Site, dirt: iset<Word>, s: Cpu, n: nat)
    requires HealthyRun(w, dirt, s, n) && n > 0
    ensures Healthy(w, dirt, s) && HealthyRun(w, Stained(w, dirt, s), Step(w.isa, Original(w), s), n - 1)
  {
  }

  /** One step is answered, and what is left to do is done from there. */
  lemma {:induction false} RunFurther(w: Site, dirt: iset<Word>, s: Cpu, t: Cpu, n: nat) returns (m: nat)
    requires Valid(w) && Inner(w, dirt, s, t) && HealthyRun(w, dirt, s, n) && n > 0
    ensures Matched(w, dirt, s, t, n, m)
    decreases n, 0
  {
    HealthyFirst(w, dirt, s, n);
    var k := StepSimulated(w, dirt, s, t);
    var rest := RestSimulated(w, s.pc - w.area, Stained(w, dirt, s), Step(w.isa, Original(w), s),
                              Steps(w.isa, w.buffer, t, k), n - 1);
    MatchedSum(w, dirt, s, t, Step(w.isa, Original(w), s), n, k, rest);
    m := k + rest;
  }

  lemma NothingMatched(w: Site, dirt: iset<Word>, s: Cpu, t: Cpu)
    requires Tiles(w.hde, w.backup, 0) && Inner(w, dirt, s, t)
    ensures Matched(w, dirt, s, t, 0, 0)
  {
  }

  /** Any number of steps of the original is matched by the relocated prologue. */
  lemma {:induction false} RunSimulated(w: Site, dirt: iset<Word>, s: Cpu, t: Cpu, n: nat) returns (m: nat)
    requires Valid(w) && Inner(w, dirt, s, t) && HealthyRun(w, dirt, s, n)
    ensures Matched(w, dirt, s, t, n, m)
    decreases n, 1
  {
    if n == 0 {
      m := 0;
      NothingMatched(w, dirt, s, t);
    } else {
      m := RunFurther(w, dirt, s, t, n);
    }
  }

  lemma {:induction false} RestSimulated(w: Site, offset: nat, dirt: iset<Word>, p: Cpu, q: Cpu, n: nat) returns (m: nat)
    requires Valid(w) && Related(w, offset, dirt, p, q) && HealthyRun(w, dirt, p, n)
    ensures Matched(w, dirt, p, q, n, m)
    decreases n, 2
  {
    if Inner(w, dirt, p, q) {
      m := RunSimulated(w, dirt, p, q, n);
    } else {
      LeftForGood(w, offset, dirt, p, q, n);
      m := 0;
    }
  }

  /** As no jump leads into the window, a step inside goes on to the next instruction. */
  lemma Advances(w: Site, offset: nat, at: Word, dirt: iset<Word>, s: Cpu)
    requires offset < |w.backup| && s.pc == w.area + offset && Understood(w, offset, at) && Healthy(w, dirt, s)
    requires Mapped(Original(w)) && offset + Decoding(w, offset).len <= |w.backup|
    ensures var p := Step(w.isa, Original(w), s); Inside(Original(w), p.pc) ==> s.pc < p.pc
  {
    var op := Decoding(w, offset).op;
    BehindCall(w, offset);
    if op.Jump? {
      OriginalJump(w, offset, s);
    } else if op.Cond? {
      OriginalCond(w, offset, s);
    } else if op.Call? {
      OriginalCall(w, offset, s);
      PlusZero(Behind(w, offset));
    } else if op.LoadRip? {
      OriginalLoad(w, offset, s);
    } else {
      OriginalCopied(w, offset, s);
    }
  }

  lemma Advance(w: Site, dirt: iset<Word>, s: Cpu)
    requires Valid(w) && Inside(Original(w), s.pc) && OnBoundary(w, 0, s.pc - w.area) && Healthy(w, dirt, s)
    ensures var p := Step(w.isa, Original(w), s); Inside(Original(w), p.pc) ==> s.pc < p.pc
  {
    Find(w, s.pc - w.area);
    Advances(w, s.pc - w.area, Place(w, s.pc - w.area), dirt, s);
  }

  /** The original leaves its prologue after at most as many steps as it has bytes. */
  lemma {:induction false} RestLeaves(w: Site, dirt: iset<Word>, s: Cpu, t: Cpu, n: nat)
    requires Valid(w) && Inner(w, dirt, s, t) && HealthyRun(w, dirt, s, n) && s.pc + n >= w.area + |w.backup|
    ensures !Inside(Original(w), Steps(w.isa, Original(w), s, n).pc)
    decreases n
  {
    var p := Step(w.isa, Original(w), s);
    HealthyFirst(w, dirt, s, n);
    var k := StepSimulated(w, dirt, s, t);
    Advance(w, dirt, s);
    FirstStep(w.isa, Original(w), s, n - 1);
    if Inner(w, Stained(w, dirt, s), p, Steps(w.isa, w.buffer, t, k)) {
      RestLeaves(w, Stained(w, dirt, s), p, Steps(w.isa, w.buffer, t, k), n - 1);
    } else {
      StandsStill(w.isa, Original(w), p, n - 1);
    }
  }

  /** Started alike, the function and its relocated copy leave the prologue alike: they
      go on at the same address with the same registers, flags and memory but for dirt, or
      have called the same function from the same call, with the return address that
      ReturnSimulated takes back into the buffer.  The dirt is what DirtIsBelow says. */
  lemma RelocationPreservesMeaning(w: Site, dirt: iset<Word>, s: Cpu, t: Cpu) returns (m: nat)
    requires Valid(w) && |w.backup| > 0 && HealthyRun(w, dirt, s, |w.backup|)
    requires s.pc == w.area && t.pc == w.buffer.base && Same(dirt, s.core, t.core)
    ensures var p, q := Steps(w.isa, Original(w), s, |w.backup|), Steps(w.isa, w.buffer, t, m);
            var more := StainedBy(w, dirt, s, |w.backup|);
            Left(w, more, p, q) || exists offset: nat :: Called(w, offset, more, p, q)
  {
    m := RunSimulated(w, dirt, s, t, |w.backup|);
    RestLeaves(w, dirt, s, t, |w.backup|);
  }
}
