/**
 A small x86-64 machine: the instructions that SubstrateHook.cpp relocates, those
 that it emits, and `Plain` instructions that it copies, whose effect is left
 open.  Registers and addresses are 64-bit words with explicit wrap-around and
 memory is a byte map.
 */
module X86Machine {

  const TWO_8: nat := 0x100
  const TWO_31: nat := 0x8000_0000
  const TWO_32: nat := 0x1_0000_0000
  const TWO_63: nat := 0x8000_0000_0000_0000
  const TWO_64: nat := 0x1_0000_0000_0000_0000

  type Byte = b: nat | b < TWO_8
  type Word = w: nat | w < TWO_64
  type Reg = r: nat | r < 16
  type Regs = s: seq<Word> | |s| == 16 witness seq(16, _ => 0)
  type Memory = map<Word, Byte>

  const RCX: Reg := 1
  const RSP: Reg := 4

  // -------------------------------------------------------------- arithmetic

  function Wrap(x: int): Word { x % TWO_64 }

  /** Address arithmetic. */
  function Plus(a: int, k: int): Word { (a + k) % TWO_64 }

  function Minus(x: int, a: int): Word { (x - a) % TWO_64 }

  function Signed8(b: Byte): int { if b < 0x80 then b else b - TWO_8 }

  function Signed32(v: nat): int
    requires v < TWO_32
  {
    if v < TWO_31 then v else v - TWO_32
  }

  function Signed64(w: Word): int { if w < TWO_63 then w else w - TWO_64 }

  /** The 32-bit little-endian bytes of v. */
  function Bytes32(v: nat): (s: seq<Byte>)
    requires v < TWO_32
    ensures |s| == 4
  {
    var w := v / 0x100;
    var x := w / 0x100;
    [v % 0x100, w % 0x100, x % 0x100, x / 0x100]
  }

  /** The 32-bit little-endian value at an index. */
  function ValueAt(s: seq<Byte>, i: nat): (v: nat)
    requires i + 4 <= |s|
    ensures v < TWO_32
  {
    s[i] as int + 0x100 * (s[i + 1] as int) + 0x1_0000 * (s[i + 2] as int) + 0x100_0000 * (s[i + 3] as int)
  }

  lemma ValueAtBytes32(head: seq<Byte>, v: nat, rest: seq<Byte>)
    requires v < TWO_32
    ensures ValueAt(head + Bytes32(v) + rest, |head|) == v
  {
  }

  lemma Append<T>(a: seq<T>, b: seq<T>, c: seq<T>)
    ensures a + b + c == a + (b + c)
  {
  }

  // ------------------------------------------------------------------ memory

  function Peek(mem: Memory, a: Word): Byte { if a in mem then mem[a] else 0 }

  /** n bytes at a, little-endian. */
  function Load(mem: Memory, a: Word, n: nat): nat
    decreases n, a
  {
    if n == 0 then 0 else (Peek(mem, a) as int) + TWO_8 * Load(mem, Plus(a, 1), n - 1)
  }

  function Store(mem: Memory, a: Word, v: nat, n: nat): Memory
    decreases n, a
  {
    if n == 0 then mem else Store(mem[a := v % TWO_8], Plus(a, 1), v / TWO_8, n - 1)
  }

  /** The n addresses from a on. */
  ghost predicate InRange(x: Word, a: Word, n: nat) { Minus(x, a) < n }

  function Power256(n: nat): (p: nat)
    ensures p > 0
  { if n == 0 then 1 else TWO_8 * Power256(n - 1) }

  lemma RangeStep(x: Word, a: Word, n: nat)
    requires 0 < n <= 16
    ensures InRange(x, a, n) <==> x == a || InRange(x, Plus(a, 1), n - 1)
    ensures n <= 15 ==> !InRange(a, Plus(a, 1), n)
  {
  }

  lemma {:induction false} PeekStore(mem: Memory, a: Word, v: nat, n: nat, x: Word)
    requires n <= 16 && !InRange(x, a, n)
    ensures Peek(Store(mem, a, v, n), x) == Peek(mem, x)
    decreases n
  {
    if n > 0 {
      RangeStep(x, a, n);
      PeekStore(mem[a := v % TWO_8], Plus(a, 1), v / TWO_8, n - 1, x);
    }
  }

  lemma {:induction false} LoadSame(m: Memory, k: Memory, a: Word, n: nat)
    requires n <= 16 && forall x: Word :: InRange(x, a, n) ==> Peek(m, x) == Peek(k, x)
    ensures Load(m, a, n) == Load(k, a, n)
    decreases n
  {
    if n > 0 {
      forall x: Word | InRange(x, Plus(a, 1), n - 1)
        ensures Peek(m, x) == Peek(k, x)
      {
        RangeStep(x, a, n);
      }
      RangeStep(a, a, n);
      LoadSame(m, k, Plus(a, 1), n - 1);
    }
  }

  lemma NotAhead(a: Word, n: nat)
    requires n <= 15
    ensures !InRange(a, Plus(a, 1), n)
  {
  }

  lemma QuotientBelow(v: nat, p: nat)
    requires v < TWO_8 * p
    ensures v / TWO_8 < p
  {
  }

  lemma {:induction false} LoadStore(mem: Memory, a: Word, v: nat, n: nat)
    requires n <= 16 && v < Power256(n)
    ensures Load(Store(mem, a, v, n), a, n) == v
    decreases n
  {
    if n > 0 {
      var b, q := v % TWO_8, v / TWO_8;
      assert v == b + TWO_8 * q;
      var m, c := mem[a := b], Plus(a, 1);
      QuotientBelow(v, Power256(n - 1));
      LoadStore(m, c, q, n - 1);
      NotAhead(a, n - 1);
      PeekStore(m, c, q, n - 1, a);
      var k := Store(m, c, q, n - 1);
      assert Store(mem, a, v, n) == k;
      assert Peek(k, a) == b;
      assert Load(k, a, n) == b + TWO_8 * Load(k, c, n - 1);
    }
  }

  lemma RemainderUnique(v: int, d: int, x: int, r: int)
    requires d > 0 && v == d * x + r && 0 <= r < d
    ensures v % d == r && v / d == x
  {
    var q, s := v / d, v % d;
    assert d * (x - q) == s - r by {
      assert v == d * q + s;
    }
    assert d * (q - x) == r - s;
    if x > q {
      ProductAtLeast(d, x - q);
    } else if x < q {
      ProductAtLeast(d, q - x);
    }
  }

  lemma ProductAtLeast(d: int, k: int)
    requires d > 0 && k >= 1
    ensures d * k >= d
  {
  }

  /** Storing v and then its replacement's upper half leaves the lower half of v and
      the new upper half. */
  lemma {:induction false} StoreSplit(mem: Memory, a: Word, v: nat, n: nat, k: nat)
    requires n + k <= 16
    ensures Store(mem, a, v, n + k) == Store(Store(mem, a, v, n), Plus(a, n), v / Power256(n), k)
    decreases n
  {
    if n == 0 {
      NextPlus(a, 0);
    } else {
      var m, b, u := mem[a := v % TWO_8], Plus(a, 1), v / TWO_8;
      StoreSplit(m, b, u, n - 1, k);
      NextPlus(a, n - 1);
      DivSplit(v, Power256(n - 1));
      assert Store(mem, a, v, n) == Store(m, b, u, n - 1);
      assert Store(mem, a, v, n + k) == Store(m, b, u, n - 1 + k);
    }
  }

  lemma NextPlus(a: Word, n: nat)
    ensures Plus(Plus(a, 1), n) == Plus(a, n + 1) && Plus(a, 0) == a
  {
  }

  lemma DivSplit(v: nat, p: nat)
    requires p > 0
    ensures v / (TWO_8 * p) == v / TWO_8 / p
  {
    var q, r := v / TWO_8, v % TWO_8;
    var x, y := q / p, q % p;
    assert v == (TWO_8 * p) * x + (TWO_8 * y + r) by {
      assert TWO_8 * (p * x) == (TWO_8 * p) * x;
    }
    RemainderUnique(v, TWO_8 * p, x, TWO_8 * y + r);
  }

  // ----------------------------------------------------------------- machine

  /** Everything but the program counter. */
  datatype Core = Core(regs: Regs, flags: int, mem: Memory)

  datatype Cpu = Cpu(pc: Word, core: Core)

  /** What the model leaves open: the width and the effect of instructions that are
      copied unchanged, and when a conditional jump is taken. */
  datatype Isa = Isa(width: seq<Byte> -> nat, effect: (seq<Byte>, Core) -> Core, taken: (Byte, int, Word) -> bool)

  datatype Op =
    | Call(rel: int)
    | Jump(rel: int)
    | Cond(op: Byte, rel: int)       // 70..7f and e3
    | PushImm(value: Word)           // 68
    | StoreHigh(high: nat)           // mov dword [rsp+4], imm32
    | Ret
    | Pop(r: Reg)
    | LoadReg(dst: Reg, src: Reg)    // mov r64, [r64]
    | LoadRip(dst: Reg, rel: int)    // mov r64, [rip+rel]
    | Plain(bytes: seq<Byte>)
    | Unknown

  datatype Decoded = Decoded(op: Op, len: nat)

  predicate IsCond(b: Byte) { b == 0xe3 || b / 16 == 7 }

  /** REX.W 8b with mod == 0. */
  function DecodeMove(code: seq<Byte>): Decoded
    requires |code| >= 3
  {
    var rex, modrm := code[0] % 16, code[2];
    var dst: Reg := (rex / 4 % 2) * 8 + modrm / 8 % 8;
    var base := rex % 2 * 8 + modrm % 8;
    if modrm % 8 == 5 then
      if |code| >= 7 then Decoded(LoadRip(dst, Signed32(ValueAt(code, 3))), 7) else Decoded(Unknown, 0)
    else if modrm % 8 == 4 then Decoded(Unknown, 0)
    else Decoded(LoadReg(dst, base), 3)
  }

  function Decode(isa: Isa, code: seq<Byte>): Decoded {
    if code == [] then Decoded(Unknown, 0)
    else
      var c := code[0];
      if c == 0xe8 && |code| >= 5 then Decoded(Call(Signed32(ValueAt(code, 1))), 5)
      else if c == 0xe9 && |code| >= 5 then Decoded(Jump(Signed32(ValueAt(code, 1))), 5)
      else if c == 0xeb && |code| >= 2 then Decoded(Jump(Signed8(code[1])), 2)
      else if IsCond(c) && |code| >= 2 then Decoded(Cond(c, Signed8(code[1])), 2)
      else if c == 0x68 && |code| >= 5 then Decoded(PushImm(Wrap(Signed32(ValueAt(code, 1)))), 5)
      else if |code| >= 8 && c == 0xc7 && code[1] == 0x44 && code[2] == 0x24 && code[3] == 0x04 then Decoded(StoreHigh(ValueAt(code, 4)), 8)
      else if c == 0xc3 then Decoded(Ret, 1)
      else if 0x58 <= c < 0x60 then Decoded(Pop(c - 0x58), 1)
      else if c == 0x41 && |code| >= 2 && 0x58 <= code[1] < 0x60 then Decoded(Pop(8 + code[1] - 0x58), 2)
      else if 0x48 <= c < 0x50 && |code| >= 3 && code[1] == 0x8b && code[2] < 0x40 then DecodeMove(code)
      else
        var w := isa.width(code);
        if 0 < w <= |code| then Decoded(Plain(code[..w]), w) else Decoded(Unknown, 0)
  }

  function Push(core: Core, v: Word): Core {
    var sp := Plus(core.regs[RSP], -8);
    core.(regs := core.regs[RSP := sp], mem := Store(core.mem, sp, v, 8))
  }

  /** One instruction of width len that starts at pc. */
  function Execute(isa: Isa, op: Op, len: nat, s: Cpu): Cpu {
    var next := Plus(s.pc, len);
    var core := s.core;
    var sp := core.regs[RSP];
    match op
    case Call(rel) => Cpu(Plus(next, rel), Push(core, next))
    case Jump(rel) => Cpu(Plus(next, rel), core)
    case Cond(b, rel) => Cpu(if isa.taken(b, core.flags, core.regs[RCX]) then Plus(next, rel) else next, core)
    case PushImm(v) => Cpu(next, Push(core, v))
    case StoreHigh(v) => Cpu(next, core.(mem := Store(core.mem, Plus(sp, 4), v, 4)))
    case Ret => Cpu(Load64(core.mem, sp), core.(regs := core.regs[RSP := Plus(sp, 8)]))
    case Pop(r) =>
      Cpu(next, core.(regs := core.regs[RSP := Plus(sp, 8)][r := Load64(core.mem, sp)]))
    case LoadReg(dst, src) => Cpu(next, core.(regs := core.regs[dst := Load64(core.mem, core.regs[src])]))
    case LoadRip(dst, rel) => Cpu(next, core.(regs := core.regs[dst := Load64(core.mem, Plus(next, rel))]))
    case Plain(bytes) => Cpu(next, isa.effect(bytes, core))
    case Unknown => s
  }

  function Load64(mem: Memory, a: Word): Word { Wrap(Load(mem, a, 8)) }

  /** Code at an address. */
  datatype Code = Code(base: Word, bytes: seq<Byte>)

  predicate Inside(code: Code, pc: Word) { code.base <= pc < code.base + |code.bytes| }

  /** One step of the machine while it runs in code; elsewhere it stands still. */
  function Step(isa: Isa, code: Code, s: Cpu): Cpu {
    if !Inside(code, s.pc) then s
    else
      var d := Decode(isa, code.bytes[s.pc - code.base..]);
      Execute(isa, d.op, d.len, s)
  }

  function Steps(isa: Isa, code: Code, s: Cpu, n: nat): Cpu
    decreases n, s.pc
  {
    if n == 0 then s else Steps(isa, code, Step(isa, code, s), n - 1)
  }

  lemma {:induction false} StepsSum(isa: Isa, code: Code, s: Cpu, m: nat, n: nat)
    ensures Steps(isa, code, s, m + n) == Steps(isa, code, Steps(isa, code, s, m), n)
    decreases m
  {
    if m > 0 {
      StepsSum(isa, code, Step(isa, code, s), m - 1, n);
    }
  }
}
