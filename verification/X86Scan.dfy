/**
 The scan of the prologue with the decoder: it ends, and the window it takes is cut into
 whole instructions when the saved copy is decoded again, whatever lies behind the copy.
 */
module X86Scan {
  import opened X86Machine
  import opened X86Emit
  import opened X86Relocate
  import opened Hde64
  import opened Hde64Forms

  function Shifted(memory: Stream, i: nat): Stream { (k: nat) => memory(i + k) }

  /** A copy, and what happens to lie behind it. */
  function Before(s: seq<Byte>, junk: Stream): Stream { (k: nat) => if k < |s| then s[k] else junk(k) }

  /** MSGetInstructionWidthIntel at an index of the memory. */
  function WidthAt(memory: Stream, i: nat): nat { Reported(Disasm(Real(), Shifted(memory, i))).len }

  /** hde64_disasm on a copy. */
  function Decoder(junk: Stream): Disassembler { (s: seq<Byte>) => Reported(Disasm(Real(), Before(s, junk))) }

  function Widths(memory: Stream): nat -> nat { (i: nat) => WidthAt(memory, i) }

  ghost predicate Bounded(width: nat -> nat) { forall i: nat :: 1 <= width(i) <= 15 }

  lemma WidthsBounded(memory: Stream)
    ensures Bounded(Widths(memory))
  {
    forall i: nat
      ensures 1 <= Widths(memory)(i) <= 15
    {
      LengthBounds(Real(), Shifted(memory, i));
    }
  }

  /** Whole instructions fit exactly between two indexes. */
  ghost predicate Spans(width: nat -> nat, i: nat, n: nat)
    decreases n - i
  {
    i == n || (i < n && 0 < width(i) && Spans(width, i + width(i), n))
  }

  lemma {:induction false} SpansNext(width: nat -> nat, i: nat, n: nat)
    requires Spans(width, i, n) && Bounded(width)
    ensures Spans(width, i, n + width(n))
    decreases n - i
  {
    if i < n {
      SpansNext(width, i + width(i), n);
    } else {
      assert Spans(width, n + width(n), n + width(n));
    }
  }

  lemma {:induction false} SpansBound(width: nat -> nat, i: nat, n: nat)
    requires Spans(width, i, n)
    ensures i <= n
    decreases n - i
  {
    if i < n {
      SpansBound(width, i + width(i), n);
    }
  }

  function Window(memory: Stream, n: nat): (b: seq<Byte>)
    ensures |b| == n && forall i :: 0 <= i < n ==> b[i] == memory(i)
  {
    seq(n, i requires 0 <= i < n => memory(i))
  }

  /** The copy is decoded as the memory was. */
  lemma SameWidth(memory: Stream, b: seq<Byte>, i: nat, junk: Stream)
    requires i < |b| && b == Window(memory, |b|) && i + WidthAt(memory, i) <= |b|
    ensures Decoder(junk)(b[i..]).len == WidthAt(memory, i)
  {
    var c, d := Shifted(memory, i), Before(b[i..], junk);
    assert Agree(c, d, WidthAt(memory, i));
    Local(Real(), c, d);
  }

  /** Whatever it is given, the decoder reports what the relocation counts on. */
  lemma DecoderSane(s: seq<Byte>, junk: Stream)
    requires s != [] && Decoder(junk)(s).len <= |s|
    ensures Sane(Decoder(junk)(s), s)
  {
    var code := Before(s, junk);
    LengthBounds(Real(), code);
    RealKnown();
    RelativeLengths(Real(), code);
    SaneFields(Disasm(Real(), code), s);
  }

  lemma SaneFields(r: Result, s: seq<Byte>)
    requires s != [] && 0 < Reported(r).len <= |s| && r.rexR < 2 && r.reg < 8 && r.disp < TWO_32
    requires s[0] == 0xe8 || s[0] == 0xe9 ==> r == Result(5, s[0], 0, 0, 0, 0)
    requires s[0] == 0xeb || IsCond(s[0]) ==> r == Result(2, s[0], 0, 0, 0, 0)
    ensures Sane(Reported(r), s)
  {
  }

  /** The decoder cuts the copy as the scan cut the memory. */
  ghost predicate Faithful(hde: Disassembler, width: nat -> nat, b: seq<Byte>) {
    forall i: nat :: i < |b| && i + width(i) <= |b| ==> FaithfulAt(hde, width, b, i)
  }

  ghost predicate FaithfulAt(hde: Disassembler, width: nat -> nat, b: seq<Byte>, i: nat)
    requires i < |b|
  {
    hde(b[i..]).len == width(i) && Sane(hde(b[i..]), b[i..])
  }

  lemma DecoderFaithful(memory: Stream, b: seq<Byte>, junk: Stream)
    requires b == Window(memory, |b|)
    ensures Faithful(Decoder(junk), Widths(memory), b)
  {
    forall i: nat | i < |b| && i + Widths(memory)(i) <= |b|
      ensures FaithfulAt(Decoder(junk), Widths(memory), b, i)
    {
      SameWidth(memory, b, i, junk);
      DecoderSane(b[i..], junk);
    }
  }

  lemma {:induction false} SpansTiles(hde: Disassembler, width: nat -> nat, b: seq<Byte>, i: nat)
    requires Faithful(hde, width, b) && Spans(width, i, |b|)
    ensures i <= |b| && Tiles(hde, b, i)
    decreases |b| - i
  {
    if i < |b| {
      SpansBound(width, i + width(i), |b|);
      assert FaithfulAt(hde, width, b, i);
      SpansTiles(hde, width, b, i + width(i));
    }
  }

  lemma WindowTiles(memory: Stream, b: seq<Byte>, junk: Stream)
    requires b == Window(memory, |b|) && Spans(Widths(memory), 0, |b|)
    ensures Tiles(Decoder(junk), b, 0)
  {
    DecoderFaithful(memory, b, junk);
    SpansTiles(Decoder(junk), Widths(memory), b, 0);
  }

  /** The loop that finds how much of the function to save: it never meets a width of
      zero, and takes less than fifteen bytes more than required. */
  method Used(width: nat -> nat, required: nat) returns (used: nat)
    requires Bounded(width)
    ensures required <= used && (required > 0 ==> used <= required + 14) && Spans(width, 0, used)
  {
    used := 0;
    while used < required
      invariant Spans(width, 0, used) && (used > 0 ==> used <= required + 14)
    {
      SpansNext(width, 0, used);
      used := used + width(used);
    }
  }

  /** The saved copy is cut into whole instructions by the decoder itself, whatever lies
      behind it. */
  method Scan(memory: Stream, required: nat) returns (b: seq<Byte>)
    ensures required <= |b| && (required > 0 ==> |b| <= required + 14) && b == Window(memory, |b|)
    ensures forall junk: Stream :: Tiles(Decoder(junk), b, 0)
  {
    WidthsBounded(memory);
    var used := Used(Widths(memory), required);
    b := Window(memory, used);
    forall junk: Stream
      ensures Tiles(Decoder(junk), b, 0)
    {
      WindowTiles(memory, b, junk);
    }
  }

  // ------------------------------------------------------ decoder and machine

  /** What the theorems ask of the decoder for an instruction that the machine knows: the
      same length, and for a load relative to rip the same register and displacement. */
  predicate Agrees(h: Hde, d: Decoded) {
    && h.len == d.len
    && if d.op.LoadRip? then IsRip(h) && h.opcode == 0x8b && RipRegister(h) == d.op.dst && Displaced(h) == d.op.rel
       else !IsRip(h)
  }

  function RipRegister(h: Hde): nat { h.rexR * 8 + h.modrmReg }

  function Displaced(h: Hde): int { if h.disp32 < TWO_32 then Signed32(h.disp32) else 0 }

  lemma LoadAgrees(isa: Isa, s: seq<Byte>, junk: Stream)
    requires Decode(isa, s).op.LoadReg? || Decode(isa, s).op.LoadRip?
    ensures Agrees(Decoder(junk)(s), Decode(isa, s))
  {
    var code := Before(s, junk);
    RealKnown();
    LoadForm(Real(), code);
    LoadFields(code(0), code(2));
    LoadReported(isa, s, code, Disasm(Real(), code));
  }

  lemma LoadFields(rex: Byte, modrm: Byte)
    requires 0x48 <= rex < 0x50 && modrm < 0x40
    ensures rex % 16 / 4 % 2 == rex % 8 / 4 && modrm / 8 % 8 == modrm / 8 && modrm / 64 == 0
  {
  }

  lemma LoadReported(isa: Isa, s: seq<Byte>, code: Stream, r: Result)
    requires var op := Decode(isa, s).op; op.LoadReg? || op.LoadRip?
    requires forall k: nat :: k < |s| ==> code(k) == s[k]
    requires s[0] % 16 / 4 % 2 == s[0] % 8 / 4 && s[2] / 8 % 8 == s[2] / 8 && s[2] / 64 == 0
    requires var rip := s[2] % 8 == 5;
             r == Result(if rip then 7 else 3, 0x8b, s[2], s[0] % 8 / 4, s[2] / 8, if rip then Little(code, 3, 4) else 0)
    ensures Agrees(Reported(r), Decode(isa, s))
  {
  }

  /** The decoder agrees with the machine on every instruction that the machine knows. */
  lemma DecoderAgrees(isa: Isa, s: seq<Byte>, junk: Stream)
    requires !Decode(isa, s).op.Plain? && !Decode(isa, s).op.Unknown?
    ensures Agrees(Decoder(junk)(s), Decode(isa, s)) && Sane(Decoder(junk)(s), s)
  {
    KnownAgrees(isa, s, junk);
    KnownFits(isa, s, Decoder(junk)(s));
    DecoderSane(s, junk);
  }

  lemma KnownFits(isa: Isa, s: seq<Byte>, h: Hde)
    requires !Decode(isa, s).op.Plain? && !Decode(isa, s).op.Unknown? && Agrees(h, Decode(isa, s))
    ensures s != [] && h.len <= |s|
  {
  }

  lemma KnownAgrees(isa: Isa, s: seq<Byte>, junk: Stream)
    requires !Decode(isa, s).op.Plain? && !Decode(isa, s).op.Unknown?
    ensures Agrees(Decoder(junk)(s), Decode(isa, s))
  {
    var op := Decode(isa, s).op;
    if op.LoadReg? || op.LoadRip? {
      LoadAgrees(isa, s, junk);
    } else {
      OtherAgrees(isa, s, junk);
    }
  }

  lemma OtherAgrees(isa: Isa, s: seq<Byte>, junk: Stream)
    requires var op := Decode(isa, s).op; !op.Plain? && !op.Unknown? && !op.LoadReg? && !op.LoadRip?
    ensures Agrees(Decoder(junk)(s), Decode(isa, s))
  {
    RealKnown();
    OtherRaw(Real(), isa, s, Before(s, junk));
    OtherReported(isa, s, Disasm(Real(), Before(s, junk)));
  }

  lemma OtherRaw(t: nat -> Byte, isa: Isa, s: seq<Byte>, code: Stream)
    requires var op := Decode(isa, s).op; !op.Plain? && !op.Unknown? && !op.LoadReg? && !op.LoadRip?
    requires Known(t) && forall k: nat :: k < |s| ==> code(k) == s[k]
    ensures Disasm(t, code).raw == Decode(isa, s).len && (Disasm(t, code).modrm == 0 || Disasm(t, code).modrm == 0x44)
  {
    var op := Decode(isa, s).op;
    if op.Call? || op.Jump? || op.Cond? {
      RelativeLengths(t, code);
    } else if op.StoreHigh? {
      StoreForm(t, code);
    } else if s[0] == 0x41 {
      RexPop(t, code);
    } else {
      BareForms(t, code);
    }
  }

  lemma OtherReported(isa: Isa, s: seq<Byte>, r: Result)
    requires var op := Decode(isa, s).op; !op.Plain? && !op.Unknown? && !op.LoadReg? && !op.LoadRip?
    requires r.raw == Decode(isa, s).len && (r.modrm == 0 || r.modrm == 0x44)
    ensures Agrees(Reported(r), Decode(isa, s))
  {
  }
}
