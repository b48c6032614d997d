/**
 The simulation theorems of the relocated prologue.
 */
module X86Simulation {
  import opened X86Machine
  import opened X86Emit
  import opened X86Relocate
  import opened X86Run
  import opened X86Sequences
  import opened X86Meaning

  // -------------------------------------------------------------- assumptions

  ghost predicate Unextended(isa: Isa, bytes: seq<Byte>) {
    forall rest: seq<Byte> :: Decode(isa, bytes + rest) == Decoded(Plain(bytes), |bytes|)
  }

  /** Neither in the overwritten window nor in the buffer. */
  predicate Outside(w: Site, target: Word) {
    !Inside(Original(w), target) && !Inside(w.buffer, target)
  }

  function Decoding(w: Site, offset: nat): Decoded
    requires offset <= |w.backup|
  {
    Decode(w.isa, Rest(w, offset))
  }

  /** What SubstrateHookFunction relies on for the instruction at `offset`: the length
      decoder agrees with the machine, and no address is out of the reach of the
      emitted code. */
  ghost predicate Understood(w: Site, offset: nat, at: Word)
    requires offset < |w.backup|
  {
    var code := Rest(w, offset);
    var h, d := w.hde(code), Decode(w.isa, code);
    var next := Plus(w.area, offset + d.len);
    && Sane(h, code) && h.len == d.len
    && match d.op
       case Call(rel) =>
         if rel == 0 then Pushable(next) else Outside(w, Plus(next, rel)) && Jumpable(Plus(next, rel), Plus(at, 10))
       case Jump(rel) => Outside(w, Plus(next, rel)) && Jumpable(Plus(next, rel), at)
       case Cond(_, rel) => Outside(w, Plus(next, rel)) && Jumpable(Plus(next, rel), Plus(at, 4))
       case LoadRip(dst, rel) =>
         && IsRip(h) && h.opcode == 0x8b && RipReg(h) == dst && Signed32(h.disp32) == rel
         && dst % 8 != 4 && dst % 8 != 5 && Pushable(Plus(next, rel))
       case Plain(bytes) => !IsRip(h) && Unextended(w.isa, bytes)
       case Unknown => false
       case _ => !IsRip(h)
  }

  ghost predicate Cleared(w: Site, offset: nat)
    requires Tiles(w.hde, w.backup, 0) && offset < |w.backup|
  {
    OnBoundary(w, 0, offset) ==> Understood(w, offset, Place(w, offset))
  }

  ghost predicate Valid(w: Site) {
    && Tiles(w.hde, w.backup, 0) && Emits(w) && Mapped(Original(w)) && Mapped(w.buffer)
    && w.buffer.bytes == Image(w.hde, w.area, w.backup, w.buffer.base)
    && (forall offset: nat :: offset < |w.backup| ==> Cleared(w, offset))
    && Outside(w, Plus(w.area, |w.backup|))
    && (OnBoundary(w, 0, |w.backup|) ==> Jumpable(Plus(w.area, |w.backup|), Place(w, |w.backup|)))
  }

  // ---------------------------------------------------------------------- dirt

  /** What the emitted code has scribbled is `dirt`: the addresses where the two memories
      may differ.  A copied instruction is blind to the dirt if it finds the same,
      whatever lies there. */
  ghost predicate Blind(isa: Isa, bytes: seq<Byte>, dirt: iset<Word>, core: Core) {
    forall other: Core :: Same(dirt, core, other) ==> Same(dirt, isa.effect(bytes, core), isa.effect(bytes, other))
  }

  /** The dirt that a copied instruction leaves: what it does not overwrite. */
  ghost function Swept(isa: Isa, bytes: seq<Byte>, dirt: iset<Word>, core: Core): iset<Word> {
    iset x: Word | x in dirt && Survives(isa, bytes, dirt, core, x)
  }

  ghost predicate Survives(isa: Isa, bytes: seq<Byte>, dirt: iset<Word>, core: Core, x: Word) {
    exists other: Core :: Same(dirt, core, other) &&
      Peek(isa.effect(bytes, core).mem, x) != Peek(isa.effect(bytes, other).mem, x)
  }

  /** The dirt after one step of the original: the slot that an emitted load scribbles
      is added, and what a push or a store overwrites is taken away. */
  ghost function Stained(w: Site, dirt: iset<Word>, s: Cpu): iset<Word> {
    if !Inside(Original(w), s.pc) then dirt
    else
      var sp := s.core.regs[RSP];
      match Decoding(w, s.pc - w.area).op
      case Call(_) => dirt - Slot(sp)
      case PushImm(_) => dirt - Slot(sp)
      case StoreHigh(_) => dirt - Span(Plus(sp, 4), 4)
      case LoadRip(_, _) => dirt + Slot(sp)
      case Plain(bytes) => Swept(w.isa, bytes, dirt, s.core)
      case _ => dirt
  }

  /** The instruction at the program counter reads no dirt, and if it returns it leaves. */
  ghost predicate Healthy(w: Site, dirt: iset<Word>, s: Cpu) {
    Inside(Original(w), s.pc) ==>
      var sp := s.core.regs[RSP];
      var d := Decoding(w, s.pc - w.area);
      match d.op
      case LoadRip(_, rel) => Clear(dirt + Slot(sp), Plus(Plus(s.pc, d.len), rel), 8)
      case LoadReg(_, src) => Clear(dirt, s.core.regs[src], 8)
      case Pop(_) => Clear(dirt, sp, 8)
      case Ret => Clear(dirt, sp, 8) && Outside(w, Load64(s.core.mem, sp))
      case Plain(bytes) => Blind(w.isa, bytes, dirt, s.core)
      case _ => true
  }

  // ----------------------------------------------------------------- relation

  /** Both stand at the same instruction of the prologue. */
  ghost predicate Inner(w: Site, dirt: iset<Word>, s: Cpu, t: Cpu)
    requires Tiles(w.hde, w.backup, 0)
  {
    && Inside(Original(w), s.pc) && OnBoundary(w, 0, s.pc - w.area)
    && t.pc == Place(w, s.pc - w.area) && Same(dirt, s.core, t.core)
  }

  /** Both left to the same place; the jump may have scribbled the slot below the stack
      pointer. */
  ghost predicate Left(w: Site, dirt: iset<Word>, s: Cpu, t: Cpu) {
    s.pc == t.pc && Outside(w, s.pc) && Same(dirt + Slot(s.core.regs[RSP]), s.core, t.core)
  }

  ghost predicate IsCallAt(w: Site, offset: nat) {
    offset < |w.backup| && Decoding(w, offset).op.Call? && Decoding(w, offset).op.rel != 0
  }

  /** Both called the same function from the call at `offset`, and differ in the return
      address only: behind the call, and the skip behind the emitted call. */
  ghost predicate Called(w: Site, offset: nat, dirt: iset<Word>, s: Cpu, t: Cpu)
    requires Tiles(w.hde, w.backup, 0)
  {
    var sp := s.core.regs[RSP];
    && OnBoundary(w, 0, offset) && IsCallAt(w, offset)
    && s.pc == t.pc && Outside(w, s.pc)
    && s.core.regs == t.core.regs && s.core.flags == t.core.flags
    && Load64(s.core.mem, sp) == w.area + offset + 5
    && Load64(t.core.mem, sp) == Place(w, offset) + 5
    && Alike(dirt + Span(sp, 8) + Slot(sp), s.core.mem, t.core.mem)
  }

  ghost predicate Related(w: Site, offset: nat, dirt: iset<Word>, s: Cpu, t: Cpu)
    requires Tiles(w.hde, w.backup, 0)
  {
    Inner(w, dirt, s, t) || Left(w, dirt, s, t) || Called(w, offset, dirt, s, t)
  }

  // ------------------------------------------------------- copied instructions

  lemma {:induction false} PeekStored(m: Memory, k: Memory, a: Word, v: nat, n: nat, x: Word)
    requires Peek(m, x) == Peek(k, x)
    ensures Peek(Store(m, a, v, n), x) == Peek(Store(k, a, v, n), x)
    decreases n
  {
    if n > 0 {
      PeekStored(m[a := v % TWO_8], k[a := v % TWO_8], Plus(a, 1), v / TWO_8, n - 1, x);
    }
  }

  lemma {:induction false} PeekInside(m: Memory, k: Memory, a: Word, v: nat, n: nat, x: Word)
    requires n <= 15 && InRange(x, a, n)
    ensures Peek(Store(m, a, v, n), x) == Peek(Store(k, a, v, n), x)
    decreases n
  {
    RangeStep(x, a, n);
    var b, c := m[a := v % TWO_8], k[a := v % TWO_8];
    if InRange(x, Plus(a, 1), n - 1) {
      PeekInside(b, c, Plus(a, 1), v / TWO_8, n - 1, x);
    } else {
      PeekStored(b, c, Plus(a, 1), v / TWO_8, n - 1, x);
    }
  }

  /** A store of the same value cleans what it covers. */
  lemma AlikeStored(dirt: iset<Word>, m: Memory, k: Memory, a: Word, v: nat, n: nat)
    requires Alike(dirt, m, k) && n <= 15
    ensures Alike(dirt - Span(a, n), Store(m, a, v, n), Store(k, a, v, n))
  {
    forall x: Word | x !in dirt - Span(a, n)
      ensures Peek(Store(m, a, v, n), x) == Peek(Store(k, a, v, n), x)
    {
      if InRange(x, a, n) {
        PeekInside(m, k, a, v, n, x);
      } else {
        PeekStored(m, k, a, v, n, x);
      }
    }
  }

  /** So does a push. */
  lemma SamePush(dirt: iset<Word>, c: Core, d: Core, v: Word)
    requires Same(dirt, c, d)
    ensures Same(dirt - Slot(c.regs[RSP]), Push(c, v), Push(d, v))
  {
    AlikeStored(dirt, c.mem, d.mem, Plus(c.regs[RSP], -8), v, 8);
  }

  lemma SameSwept(isa: Isa, bytes: seq<Byte>, dirt: iset<Word>, c: Core, d: Core)
    requires Same(dirt, c, d) && Blind(isa, bytes, dirt, c)
    ensures Same(Swept(isa, bytes, dirt, c), isa.effect(bytes, c), isa.effect(bytes, d))
  {
  }

  // ------------------------------------------------------------ what was emitted

  lemma PlusInt(a: Word, j: nat, k: int)
    ensures Plus(Plus(a, j), k) == Plus(a, j + k)
  {
  }

  /** The address behind the instruction at `offset`. */
  function Behind(w: Site, offset: nat): Word
    requires offset <= |w.backup|
  {
    Plus(w.area, offset + Decoding(w, offset).len)
  }

  lemma JumpRelocated(isa: Isa, from: Word, h: Hde, code: seq<Byte>, at: Word)
    requires Sane(h, code) && Decode(isa, code).op.Jump? && h.len == Decode(isa, code).len
    ensures var d := Decode(isa, code); Relocated(from, h, code, at) == JumpBytes(at, Plus(from, d.len + d.op.rel))
  {
  }

  lemma CondRelocated(isa: Isa, from: Word, h: Hde, code: seq<Byte>, at: Word)
    requires Sane(h, code) && Decode(isa, code).op.Cond? && h.len == Decode(isa, code).len
    ensures var d := Decode(isa, code);
            IsCond(d.op.op) && Relocated(from, h, code, at) == CondBytes(at, d.op.op, Plus(from, d.len + d.op.rel))
  {
  }

  lemma CallRelocated(isa: Isa, from: Word, h: Hde, code: seq<Byte>, at: Word)
    requires Sane(h, code) && Decode(isa, code).op.Call? && h.len == Decode(isa, code).len
    ensures var d := Decode(isa, code);
            d.len == 5 &&
            Relocated(from, h, code, at) == if d.op.rel == 0 then PushPointerBytes(Plus(from, d.len))
                                            else CallBytes(at, Plus(from, d.len + d.op.rel))
  {
  }

  /** The address behind the instruction, and those relative to it. */
  lemma BehindPlus(w: Site, offset: nat, rel: int)
    requires offset < |w.backup|
    ensures var len := Decoding(w, offset).len;
            Plus(Plus(w.area, offset), len) == Behind(w, offset) &&
            Plus(Plus(w.area, offset), len + rel) == Plus(Behind(w, offset), rel)
  {
    var len := Decoding(w, offset).len;
    PlusInt(w.area, offset, len);
    PlusInt(w.area, offset, len + rel);
    PlusInt(w.area, offset + len, rel);
  }

  lemma JumpPart(w: Site, offset: nat, at: Word)
    requires Emits(w) && offset < |w.backup| && Understood(w, offset, at) && Decoding(w, offset).op.Jump?
    ensures w.emit(offset, at) == JumpBytes(at, Plus(Behind(w, offset), Decoding(w, offset).op.rel))
  {
    EmitsAt(w, offset, at);
    JumpRelocated(w.isa, Plus(w.area, offset), Report(w, offset), Rest(w, offset), at);
    BehindPlus(w, offset, Decoding(w, offset).op.rel);
  }

  lemma CondPart(w: Site, offset: nat, at: Word)
    requires Emits(w) && offset < |w.backup| && Understood(w, offset, at) && Decoding(w, offset).op.Cond?
    ensures var d := Decoding(w, offset);
            IsCond(d.op.op) && w.emit(offset, at) == CondBytes(at, d.op.op, Plus(Behind(w, offset), d.op.rel))
  {
    EmitsAt(w, offset, at);
    CondRelocated(w.isa, Plus(w.area, offset), Report(w, offset), Rest(w, offset), at);
    BehindPlus(w, offset, Decoding(w, offset).op.rel);
  }

  lemma CallPart(w: Site, offset: nat, at: Word)
    requires Emits(w) && offset < |w.backup| && Understood(w, offset, at) && Decoding(w, offset).op.Call?
    ensures var rel := Decoding(w, offset).op.rel;
            Decoding(w, offset).len == 5 &&
            w.emit(offset, at) == if rel == 0 then PushPointerBytes(Behind(w, offset))
                                  else CallBytes(at, Plus(Behind(w, offset), rel))
  {
    EmitsAt(w, offset, at);
    CallRelocated(w.isa, Plus(w.area, offset), Report(w, offset), Rest(w, offset), at);
    BehindPlus(w, offset, Decoding(w, offset).op.rel);
  }

  lemma LoadPart(w: Site, offset: nat, at: Word)
    requires Emits(w) && offset < |w.backup| && Understood(w, offset, at) && Decoding(w, offset).op.LoadRip?
    ensures var d := Decoding(w, offset);
            w.emit(offset, at) == RipLoadBytes(Plus(Behind(w, offset), d.op.rel), d.op.dst)
  {
    EmitsAt(w, offset, at);
    BehindPlus(w, offset, Decoding(w, offset).op.rel);
  }

  predicate IsCopied(op: Op) { op.Plain? || op.PushImm? || op.StoreHigh? || op.Pop? || op.LoadReg? || op.Ret? }

  lemma CopiedPart(w: Site, offset: nat, at: Word, rest: seq<Byte>)
    requires Emits(w) && offset < |w.backup| && Understood(w, offset, at) && IsCopied(Decoding(w, offset).op)
    ensures var d := Decoding(w, offset); var part := w.emit(offset, at);
            0 < d.len <= |Rest(w, offset)| && part == Rest(w, offset)[..d.len] &&
            Decode(w.isa, part + rest) == d
  {
    var code := Rest(w, offset);
    EmitsAt(w, offset, at);
    CopiedDecodes(w.isa, code, rest);
  }

  /** Other bytes behind a copied instruction do not change it. */
  lemma CopiedDecodes(isa: Isa, code: seq<Byte>, rest: seq<Byte>)
    requires var d := Decode(isa, code);
             IsCopied(d.op) && d.len <= |code| && (d.op.Plain? ==> Unextended(isa, d.op.bytes))
    ensures var d := Decode(isa, code); Decode(isa, code[..d.len] + rest) == d
  {
    var d := Decode(isa, code);
    var other := code[..d.len] + rest;
    if d.op.StoreHigh? {
      assert other[..4] == code[..4];
    }
  }
}
