/**
 What the decoder reports for the instructions that the relocation reads or writes.
 */
module Hde64Forms {
  import opened X86Machine
  import opened Hde64

  function FirstFlags(t: nat -> Byte, c: Byte): Byte { t(t(c / 4) + c % 4) }

  /** The flags of the opcodes that the relocation, or what it writes, is about. */
  ghost predicate KnownAt(t: nat -> Byte, c: Byte) {
    && (c == 0xe8 || c == 0xe9 ==> FirstFlags(t, c) == 0x50)
    && (c == 0xeb || IsCond(c) ==> FirstFlags(t, c) == 0x20)
    && (c == 0x89 || c == 0x8b ==> FirstFlags(t, c) == 1)
    && (c == 0x83 ==> FirstFlags(t, c) == 3)
    && (c == 0x68 ==> FirstFlags(t, c) == 0x10)
    && (0x50 <= c < 0x60 || c == 0xc3 ==> FirstFlags(t, c) == 0)
    && (c == 0xc7 ==> FirstFlags(t, c) == 0xc2 && t(0x42) == 0x11)
  }

  ghost predicate Known(t: nat -> Byte) { forall c: Byte :: KnownAt(t, c) }

  /** The entries of the first level that they need, ... */
  ghost predicate Firsts(t: nat -> Byte) {
    && t(20) == 192 && t(21) == 192 && t(22) == 192 && t(23) == 192 && t(26) == 204
    && t(28) == 161 && t(29) == 161 && t(30) == 161 && t(31) == 161
    && t(32) == 177 && t(34) == 165 && t(48) == 152 && t(49) == 200 && t(56) == 161 && t(58) == 158
  }

  /** ... and of the second. */
  ghost predicate Seconds(t: nat -> Byte) {
    && t(155) == 0 && t(158) == 0x50 && t(159) == 0x50
    && t(161) == 0x20 && t(162) == 0x20 && t(163) == 0x20 && t(164) == 0x20
    && t(166) == 1 && t(168) == 1 && t(180) == 3
    && t(192) == 0 && t(193) == 0 && t(194) == 0 && t(195) == 0 && t(203) == 0xc2 && t(204) == 0x10 && t(0x42) == 0x11
  }

  lemma RealFirsts()
    ensures Firsts(Real())
  {
  }

  lemma RealSeconds()
    ensures Seconds(Real())
  {
  }

  lemma EntriesKnown(t: nat -> Byte, c: Byte)
    requires Firsts(t) && Seconds(t)
    ensures KnownAt(t, c)
  {
    if 0x70 <= c < 0x80 {
      assert c / 4 == 28 || c / 4 == 29 || c / 4 == 30 || c / 4 == 31;
    } else if 0x50 <= c < 0x60 {
      assert c / 4 == 20 || c / 4 == 21 || c / 4 == 22 || c / 4 == 23;
    }
  }

  lemma RealKnown()
    ensures Known(Real())
  {
    RealFirsts();
    RealSeconds();
    AllKnown(Real());
  }

  lemma AllKnown(t: nat -> Byte)
    requires Firsts(t) && Seconds(t)
    ensures Known(t)
  {
    forall c: Byte
      ensures KnownAt(t, c)
    {
      EntriesKnown(t, c);
    }
  }

  /** An opcode without prefixes. */
  lemma Bare(t: nat -> Byte, code: Stream, f: Byte)
    requires !IsPrefix(code(0)) && code(0) / 0x10 != 4 && code(0) != 0x0f && code(0) / 4 != 0x28
    requires FirstFlags(t, code(0)) == f && f < 0x80 && f % 2 == 0
    ensures Disasm(t, code) == Result(1 + ImmSize(f, false, false), code(0), 0, 0, 0, 0)
  {
    assert Prefixes(code, 0, false, false) == Pre(1, code(0), false, false);
    assert GetOp(code, Pre(1, code(0), false, false)) == Coded(1, code(0), 0, code(0), false, false, false, 0, false);
  }

  /** call and jmp with 32 bits of displacement have five bytes, the short jumps two, and
      none of them looks like an access relative to rip. */
  lemma RelativeLengths(t: nat -> Byte, code: Stream)
    requires Known(t)
    ensures code(0) == 0xe8 || code(0) == 0xe9 ==> Disasm(t, code) == Result(5, code(0), 0, 0, 0, 0)
    ensures code(0) == 0xeb || IsCond(code(0)) ==> Disasm(t, code) == Result(2, code(0), 0, 0, 0, 0)
  {
    assert KnownAt(t, code(0));
    Sizes();
    if code(0) == 0xe8 || code(0) == 0xe9 {
      Bare(t, code, 0x50);
    } else if code(0) == 0xeb || IsCond(code(0)) {
      Bare(t, code, 0x20);
    }
  }

  lemma Sizes()
    ensures ImmSize(0x50, false, false) == 4 && ImmSize(0x20, false, false) == 1 && ImmSize(0x11, false, false) == 4
    ensures ImmSize(0x10, false, false) == 4 && ImmSize(3, false, false) == 1
    ensures ImmSize(0, false, false) == 0 && ImmSize(1, false, false) == 0
  {
  }

  // --------------------------------------------------------- with a REX prefix

  /** A REX prefix and a one-byte opcode. */
  lemma RexOp(code: Stream)
    requires 0x40 <= code(0) < 0x50 && !(0x40 <= code(1) < 0x50) && code(1) != 0x0f && code(1) / 4 != 0x28
    ensures Prefixes(code, 0, false, false) == Pre(1, code(0), false, false)
    ensures var op64 := code(0) % 0x10 / 8 == 1 && code(1) / 8 == 0x17;
            GetOp(code, Pre(1, code(0), false, false))
            == Coded(2, code(1), 0, code(1), op64, false, false, code(0) % 8 / 4, false)
  {
    RexIs(code(0));
  }

  lemma RexIs(c: Byte)
    requires 0x40 <= c < 0x50
    ensures !IsPrefix(c) && c / 0x10 == 4
  {
  }

  lemma OpFlags(t: nat -> Byte, op: Coded, f: Byte)
    requires !op.bad && op.opcode == op.key && op.opcode != 0x0f && FirstFlags(t, op.key) == f && f < 0x80
    ensures Lookup(t, op) == f
  {
  }

  /** A register operand. */
  lemma RegisterForm(t: nat -> Byte, code: Stream, f: Byte)
    requires 0x40 <= code(0) < 0x50 && code(1) / 8 != 0x17 && !(0x40 <= code(1) < 0x50) && code(1) != 0x0f
    requires code(1) / 4 != 0x28 && code(1) < 0xf0 && code(2) >= 0xc0
    requires FirstFlags(t, code(1)) == f && f < 0x80 && f % 2 == 1
    ensures Disasm(t, code)
         == Result(3 + ImmSize(f, false, false), code(1), code(2), code(0) % 8 / 4, code(2) % 0x40 / 8, 0)
  {
    RexOp(code);
    var op := Coded(2, code(1), 0, code(1), false, false, false, code(0) % 8 / 4, false);
    OpFlags(t, op, f);
    assert GetOperand(code, op, f) == Operand(3, f, code(2), code(2) % 0x40 / 8, 0);
  }

  /** A load of a register through a register, or relative to rip. */
  lemma LoadForm(t: nat -> Byte, code: Stream)
    requires Known(t) && 0x40 <= code(0) < 0x50 && code(1) == 0x8b && code(2) < 0x40 && code(2) % 8 != 4
    ensures var rip := code(2) % 8 == 5;
            Disasm(t, code) == Result(if rip then 7 else 3, 0x8b, code(2), code(0) % 8 / 4, code(2) / 8,
                                      if rip then Little(code, 3, 4) else 0)
  {
    RexOp(code);
    var op := Coded(2, 0x8b, 0, 0x8b, false, false, false, code(0) % 8 / 4, false);
    assert KnownAt(t, 0x8b);
    OpFlags(t, op, 1);
    LoadOperand(code, op);
    Sizes();
  }

  lemma LoadOperand(code: Stream, op: Coded)
    requires code(2) < 0x40 && code(2) % 8 != 4 && op.next == 2 && op.second == 0 && !op.has67 && op.key == 0x8b
    ensures GetOperand(code, op, 1)
         == if code(2) % 8 == 5 then Operand(7, 1, code(2), code(2) / 8, Little(code, 3, 4))
            else Operand(3, 1, code(2), code(2) / 8, 0)
  {
  }

  /** The same relative to rip without a REX prefix. */
  lemma BareLoad(t: nat -> Byte, code: Stream)
    requires Known(t) && code(0) == 0x8b && code(1) < 0x40 && code(1) % 8 == 5
    ensures Prefixes(code, 0, false, false) == Pre(1, 0x8b, false, false)
    ensures Disasm(t, code) == Result(6, 0x8b, code(1), 0, code(1) / 8, Little(code, 2, 4))
  {
    var op := Coded(1, 0x8b, 0, 0x8b, false, false, false, 0, false);
    assert Prefixes(code, 0, false, false) == Pre(1, 0x8b, false, false);
    assert GetOp(code, Pre(1, 0x8b, false, false)) == op;
    assert KnownAt(t, 0x8b);
    OpFlags(t, op, 1);
    assert GetOperand(code, op, 1) == Operand(6, 1, code(1), code(1) / 8, Little(code, 2, 4));
    Sizes();
  }

  // ------------------------------------------------------ what is written itself

  /** pop r, with and without a REX prefix, and ret */
  lemma BareForms(t: nat -> Byte, code: Stream)
    requires Known(t)
    ensures 0x50 <= code(0) < 0x60 || code(0) == 0xc3 ==> Disasm(t, code) == Result(1, code(0), 0, 0, 0, 0)
    ensures code(0) == 0x68 ==> Disasm(t, code) == Result(5, 0x68, 0, 0, 0, 0)
  {
    assert KnownAt(t, code(0));
    Sizes();
    if 0x50 <= code(0) < 0x60 || code(0) == 0xc3 {
      Bare(t, code, 0);
    } else if code(0) == 0x68 {
      Bare(t, code, 0x10);
    }
  }

  lemma RexPop(t: nat -> Byte, code: Stream)
    requires Known(t) && code(0) == 0x41 && 0x58 <= code(1) < 0x60
    ensures Disasm(t, code) == Result(2, code(1), 0, 0, 0, 0)
  {
    RexOp(code);
    assert KnownAt(t, code(1));
    OpFlags(t, Coded(2, code(1), 0, code(1), false, false, false, 0, false), 0);
    Sizes();
  }

  /** mov dword [rsp + disp8], imm32 */
  lemma StoreForm(t: nat -> Byte, code: Stream)
    requires Known(t) && code(0) == 0xc7 && code(1) == 0x44
    ensures Disasm(t, code) == Result(8, 0xc7, 0x44, 0, 0, code(3))
  {
    assert KnownAt(t, 0xc7);
    var op := Coded(1, 0xc7, 0, 0xc7, false, false, false, 0, false);
    assert Prefixes(code, 0, false, false) == Pre(1, 0xc7, false, false);
    assert GetOp(code, Pre(1, 0xc7, false, false)) == op;
    assert Lookup(t, op) == 0x11;
    assert GetOperand(code, op, 0x11) == Operand(4, 0x11, 0x44, 0, code(3));
    Sizes();
  }
}
