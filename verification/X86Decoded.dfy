/**
 The theorems with the decoder itself in the place of a reported length, and the
 commonest prologue of all.
 */
module X86Decoded {
  import opened X86Machine
  import opened X86Emit
  import opened X86Relocate
  import opened X86Run
  import opened X86Sequences
  import opened X86Meaning
  import opened X86Simulation
  import opened X86Theorem
  import opened Hde64
  import opened Hde64Forms
  import opened X86Scan

  /** What is left to ask of an instruction that the machine knows: that targets lie
      outside and can be reached, and that the load can be written. */
  predicate InReach(w: Site, offset: nat, at: Word)
    requires offset < |w.backup|
  {
    var d := Decoding(w, offset);
    var next := Plus(w.area, offset + d.len);
    match d.op
    case Call(rel) =>
      if rel == 0 then Pushable(next) else Outside(w, Plus(next, rel)) && Jumpable(Plus(next, rel), Plus(at, 10))
    case Jump(rel) => Outside(w, Plus(next, rel)) && Jumpable(Plus(next, rel), at)
    case Cond(_, rel) => Outside(w, Plus(next, rel)) && Jumpable(Plus(next, rel), Plus(at, 4))
    case LoadRip(dst, rel) => dst % 8 != 4 && dst % 8 != 5 && Pushable(Plus(next, rel))
    case Plain(_) => false
    case Unknown => false
    case _ => true
  }

  /** With the decoder in place, an instruction that the machine knows meets all that the
      theorems ask once it is in reach. */
  lemma DecoderUnderstands(w: Site, offset: nat, at: Word, junk: Stream)
    requires w.hde == Decoder(junk) && offset < |w.backup| && InReach(w, offset, at)
    ensures Understood(w, offset, at)
  {
    DecoderAgrees(w.isa, Rest(w, offset), junk);
    AgreesUnderstood(w, offset, at, Report(w, offset));
  }

  lemma AgreesUnderstood(w: Site, offset: nat, at: Word, h: Hde)
    requires offset < |w.backup| && InReach(w, offset, at) && h == Report(w, offset)
    requires Agrees(h, Decoding(w, offset)) && Sane(h, Rest(w, offset))
    ensures Understood(w, offset, at)
  {
  }

  // ------------------------------------------------------------- a frame prologue

  const RBP: Reg := 5

  /** push rbp; mov rbp, rsp; sub rsp, n */
  function FramePrologue(n: Byte): seq<Byte> { [0x55, 0x48, 0x89, 0xe5, 0x48, 0x83, 0xec, n] }

  /** What the architecture says of the three instructions. */
  ghost predicate KnowsFrames(isa: Isa, flags: (Word, Byte) -> int) { FrameWidths(isa) && FrameEffects(isa, flags) }

  ghost predicate FrameWidths(isa: Isa) {
    && (forall rest: seq<Byte> :: isa.width([0x55] + rest) == 1 && isa.width([0x48, 0x89, 0xe5] + rest) == 3)
    && (forall rest: seq<Byte>, n: Byte :: isa.width([0x48, 0x83, 0xec, n] + rest) == 4)
  }

  ghost predicate FrameEffects(isa: Isa, flags: (Word, Byte) -> int) {
    && (forall c: Core :: isa.effect([0x55], c) == Push(c, c.regs[RBP]))
    && (forall c: Core :: isa.effect([0x48, 0x89, 0xe5], c) == c.(regs := c.regs[RBP := c.regs[RSP]]))
    && (forall c: Core, n: Byte :: isa.effect([0x48, 0x83, 0xec, n], c) == Lowered(c, n, flags))
  }

  function Lowered(c: Core, n: Byte, flags: (Word, Byte) -> int): Core {
    var sp := c.regs[RSP];
    Core(c.regs[RSP := Plus(sp, -Signed8(n))], flags(sp, n), c.mem)
  }

  /** A machine that knows just these. */
  function FrameIsa(flags: (Word, Byte) -> int): Isa {
    Isa((code: seq<Byte>) => if Starts(code, [0x55]) then 1 else if Starts(code, [0x48, 0x89, 0xe5]) then 3 else 4,
        (bytes: seq<Byte>, c: Core) =>
          if bytes == [0x55] then Push(c, c.regs[RBP])
          else if bytes == [0x48, 0x89, 0xe5] then c.(regs := c.regs[RBP := c.regs[RSP]])
          else if |bytes| == 4 then Lowered(c, bytes[3], flags) else c,
        (op: Byte, f: int, cx: Word) => false)
  }

  lemma FrameStarts(rest: seq<Byte>, n: Byte)
    ensures Starts([0x55] + rest, [0x55])
    ensures var s := [0x48, 0x89, 0xe5] + rest; !Starts(s, [0x55]) && Starts(s, [0x48, 0x89, 0xe5])
    ensures var s := [0x48, 0x83, 0xec, n] + rest; !Starts(s, [0x55]) && !Starts(s, [0x48, 0x89, 0xe5])
  {
    var s, part := [0x48, 0x83, 0xec, n] + rest, [0x48, 0x89, 0xe5];
    assert s[1] != part[1];
    var u := [0x48, 0x89, 0xe5] + rest;
    assert u[0] == 0x48 && u[1] == 0x89 && u[2] == 0xe5;
  }

  lemma WidthsKnown(flags: (Word, Byte) -> int)
    ensures FrameWidths(FrameIsa(flags))
  {
    var isa := FrameIsa(flags);
    forall rest: seq<Byte>
      ensures isa.width([0x55] + rest) == 1 && isa.width([0x48, 0x89, 0xe5] + rest) == 3
    {
      FrameStarts(rest, 0);
    }
    forall rest: seq<Byte>, n: Byte
      ensures isa.width([0x48, 0x83, 0xec, n] + rest) == 4
    {
      FrameStarts(rest, n);
    }
  }

  lemma FramesKnown(flags: (Word, Byte) -> int)
    ensures KnowsFrames(FrameIsa(flags), flags)
  {
    WidthsKnown(flags);
  }

  /** None of the three reads dirt, whatever the dirt is. */
  lemma FrameBlind(isa: Isa, flags: (Word, Byte) -> int, dirt: iset<Word>, c: Core, n: Byte)
    requires KnowsFrames(isa, flags)
    ensures Blind(isa, [0x55], dirt, c) && Blind(isa, [0x48, 0x89, 0xe5], dirt, c)
    ensures Blind(isa, [0x48, 0x83, 0xec, n], dirt, c)
  {
    forall other: Core | Same(dirt, c, other)
      ensures Same(dirt, isa.effect([0x55], c), isa.effect([0x55], other))
    {
      SamePush(dirt, c, other, c.regs[RBP]);
      assert dirt - Slot(c.regs[RSP]) <= dirt;
    }
  }

  lemma FrameDecodes(isa: Isa, flags: (Word, Byte) -> int, n: Byte, rest: seq<Byte>)
    requires KnowsFrames(isa, flags)
    ensures Decode(isa, [0x55] + rest) == Decoded(Plain([0x55]), 1)
    ensures Decode(isa, [0x48, 0x89, 0xe5] + rest) == Decoded(Plain([0x48, 0x89, 0xe5]), 3)
    ensures Decode(isa, [0x48, 0x83, 0xec, n] + rest) == Decoded(Plain([0x48, 0x83, 0xec, n]), 4)
  {
    var a, b, c := [0x55] + rest, [0x48, 0x89, 0xe5] + rest, [0x48, 0x83, 0xec, n] + rest;
    assert a[..1] == [0x55] && b[..3] == [0x48, 0x89, 0xe5] && c[..4] == [0x48, 0x83, 0xec, n];
  }

  /** The three instructions at the start of some bytes. */
  predicate Starts(s: seq<Byte>, part: seq<Byte>) { |part| <= |s| && forall i :: 0 <= i < |part| ==> s[i] == part[i] }

  lemma FrameReports(s: seq<Byte>, n: Byte, junk: Stream)
    ensures Starts(s, [0x55]) ==> Decoder(junk)(s) == Hde(1, 0x55, 0, 0, 0, 0)
    ensures Starts(s, [0x48, 0x89, 0xe5]) ==> Decoder(junk)(s) == Hde(3, 0x89, 0xe5, 0, 4, 0)
    ensures Starts(s, [0x48, 0x83, 0xec, n]) ==> Decoder(junk)(s) == Hde(4, 0x83, 0xec, 0, 5, 0)
  {
    RealKnown();
    FrameRaw(Real(), Before(s, junk));
    FrameHde(s, n, Before(s, junk), Disasm(Real(), Before(s, junk)));
  }

  lemma FrameHde(s: seq<Byte>, n: Byte, code: Stream, r: Result)
    requires forall k: nat :: k < |s| ==> code(k) == s[k]
    requires code(0) == 0x55 ==> r == Result(1, 0x55, 0, 0, 0, 0)
    requires code(0) == 0x48 && code(1) == 0x89 && code(2) == 0xe5 ==> r == Result(3, 0x89, 0xe5, 0, 4, 0)
    requires code(0) == 0x48 && code(1) == 0x83 && code(2) == 0xec ==> r == Result(4, 0x83, 0xec, 0, 5, 0)
    ensures Starts(s, [0x55]) ==> Reported(r) == Hde(1, 0x55, 0, 0, 0, 0)
    ensures Starts(s, [0x48, 0x89, 0xe5]) ==> Reported(r) == Hde(3, 0x89, 0xe5, 0, 4, 0)
    ensures Starts(s, [0x48, 0x83, 0xec, n]) ==> Reported(r) == Hde(4, 0x83, 0xec, 0, 5, 0)
  {
  }

  lemma FrameRaw(t: nat -> Byte, code: Stream)
    requires Known(t)
    ensures code(0) == 0x55 ==> Disasm(t, code) == Result(1, 0x55, 0, 0, 0, 0)
    ensures code(0) == 0x48 && code(1) == 0x89 && code(2) == 0xe5 ==> Disasm(t, code) == Result(3, 0x89, 0xe5, 0, 4, 0)
    ensures code(0) == 0x48 && code(1) == 0x83 && code(2) == 0xec ==> Disasm(t, code) == Result(4, 0x83, 0xec, 0, 5, 0)
  {
    Sizes();
    BareForms(t, code);
    assert KnownAt(t, 0x89) && KnownAt(t, 0x83);
    if code(0) == 0x48 && code(1) == 0x89 && code(2) == 0xe5 {
      RegisterForm(t, code, 1);
    }
    if code(0) == 0x48 && code(1) == 0x83 && code(2) == 0xec {
      RegisterForm(t, code, 3);
    }
  }

  /** What the second pass writes, as a function. */
  function Emitter(hde: Disassembler, area: Word, backup: seq<Byte>): (nat, Word) -> seq<Byte> {
    (offset: nat, at: Word) =>
      if offset < |backup| && Sane(hde(backup[offset..]), backup[offset..])
      then Relocated(Plus(area, offset), hde(backup[offset..]), backup[offset..], at) else []
  }

  ghost function FrameSite(isa: Isa, area: Word, base: Word, n: Byte, junk: Stream): Site
    requires Tiles(Decoder(junk), FramePrologue(n), 0)
  {
    var backup, hde := FramePrologue(n), Decoder(junk);
    Site(isa, hde, area, backup, Code(base, Image(hde, area, backup, base)), Emitter(hde, area, backup))
  }

  lemma FrameParts(n: Byte)
    ensures var s := FramePrologue(n);
            && s[0..] == [0x55] + s[1..] && s[1..] == [0x48, 0x89, 0xe5] + s[4..]
            && s[4..] == [0x48, 0x83, 0xec, n] + s[8..] && |s| == 8
  {
  }

  lemma FrameTold(junk: Stream, rest: seq<Byte>, n: Byte)
    ensures Decoder(junk)([0x55] + rest) == Hde(1, 0x55, 0, 0, 0, 0)
    ensures Decoder(junk)([0x48, 0x89, 0xe5] + rest) == Hde(3, 0x89, 0xe5, 0, 4, 0)
    ensures Decoder(junk)([0x48, 0x83, 0xec, n] + rest) == Hde(4, 0x83, 0xec, 0, 5, 0)
  {
    FrameReports([0x55] + rest, n, junk);
    FrameReports([0x48, 0x89, 0xe5] + rest, n, junk);
    FrameReports([0x48, 0x83, 0xec, n] + rest, n, junk);
  }

  lemma FrameTiles(n: Byte, junk: Stream)
    ensures var s, hde := FramePrologue(n), Decoder(junk);
            && hde(s[0..]) == Hde(1, 0x55, 0, 0, 0, 0) && hde(s[1..]) == Hde(3, 0x89, 0xe5, 0, 4, 0)
            && hde(s[4..]) == Hde(4, 0x83, 0xec, 0, 5, 0) && Tiles(hde, s, 0)
  {
    var s := FramePrologue(n);
    FrameParts(n);
    FrameTold(junk, s[1..], n);
    FrameTold(junk, s[4..], n);
    FrameTold(junk, s[8..], n);
    FrameTiled(Decoder(junk), n);
  }

  lemma FrameTiled(hde: Disassembler, n: Byte)
    requires var s := FramePrologue(n);
             && hde(s[0..]) == Hde(1, 0x55, 0, 0, 0, 0) && hde(s[1..]) == Hde(3, 0x89, 0xe5, 0, 4, 0)
             && hde(s[4..]) == Hde(4, 0x83, 0xec, 0, 5, 0)
    ensures Tiles(hde, FramePrologue(n), 0)
  {
    var s := FramePrologue(n);
    assert Tiles(hde, s, 8);
    assert Tiles(hde, s, 4);
    assert Tiles(hde, s, 1);
  }

  /** A site with that prologue, rightly reported and laid out. */
  ghost predicate IsFrame(w: Site, n: Byte, flags: (Word, Byte) -> int) {
    && w.backup == FramePrologue(n) && KnowsFrames(w.isa, flags)
    && w.hde(w.backup[0..]) == Hde(1, 0x55, 0, 0, 0, 0) && w.hde(w.backup[1..]) == Hde(3, 0x89, 0xe5, 0, 4, 0)
    && w.hde(w.backup[4..]) == Hde(4, 0x83, 0xec, 0, 5, 0)
    && Tiles(w.hde, w.backup, 0) && Emits(w) && Mapped(Original(w)) && Mapped(w.buffer)
    && w.buffer.bytes == Image(w.hde, w.area, w.backup, w.buffer.base)
  }

  lemma FrameDecoding(w: Site, n: Byte, flags: (Word, Byte) -> int)
    requires IsFrame(w, n, flags)
    ensures Decoding(w, 0) == Decoded(Plain([0x55]), 1) && Unextended(w.isa, [0x55])
    ensures Decoding(w, 1) == Decoded(Plain([0x48, 0x89, 0xe5]), 3) && Unextended(w.isa, [0x48, 0x89, 0xe5])
    ensures Decoding(w, 4) == Decoded(Plain([0x48, 0x83, 0xec, n]), 4) && Unextended(w.isa, [0x48, 0x83, 0xec, n])
  {
    FrameParts(n);
    forall rest: seq<Byte>
      ensures Decode(w.isa, [0x55] + rest) == Decoded(Plain([0x55]), 1)
      ensures Decode(w.isa, [0x48, 0x89, 0xe5] + rest) == Decoded(Plain([0x48, 0x89, 0xe5]), 3)
      ensures Decode(w.isa, [0x48, 0x83, 0xec, n] + rest) == Decoded(Plain([0x48, 0x83, 0xec, n]), 4)
    {
      FrameDecodes(w.isa, flags, n, rest);
    }
  }

  lemma FrameUnderstood(w: Site, n: Byte, flags: (Word, Byte) -> int, offset: nat, at: Word)
    requires IsFrame(w, n, flags) && (offset == 0 || offset == 1 || offset == 4)
    ensures Understood(w, offset, at)
  {
    FrameDecoding(w, n, flags);
    FrameParts(n);
  }

  lemma FrameBoundaries(w: Site, n: Byte, flags: (Word, Byte) -> int, offset: nat)
    requires IsFrame(w, n, flags)
    ensures OnBoundary(w, 0, offset) <==> offset == 0 || offset == 1 || offset == 4 || offset == 8
  {
    FrameSteps(w, n, flags);
    assert OnBoundary(w, 8, offset) <==> offset == 8;
    assert OnBoundary(w, 4, offset) <==> offset == 4 || offset == 8;
    assert OnBoundary(w, 1, offset) <==> offset == 1 || offset == 4 || offset == 8;
  }

  lemma FrameSteps(w: Site, n: Byte, flags: (Word, Byte) -> int)
    requires IsFrame(w, n, flags)
    ensures Report(w, 0).len == 1 && Report(w, 1).len == 3 && Report(w, 4).len == 4
    ensures Tiles(w.hde, w.backup, 1) && Tiles(w.hde, w.backup, 4) && Tiles(w.hde, w.backup, 8)
  {
  }

  lemma FrameEmits(w: Site, n: Byte, flags: (Word, Byte) -> int, at: Word)
    requires IsFrame(w, n, flags)
    ensures |w.emit(0, at)| == 1 && |w.emit(1, at)| == 3 && |w.emit(4, at)| == 4
  {
    FrameSteps(w, n, flags);
    EmitsAt(w, 0, at);
    EmitsAt(w, 1, at);
    EmitsAt(w, 4, at);
  }

  lemma FrameEnd(w: Site, n: Byte, flags: (Word, Byte) -> int)
    requires IsFrame(w, n, flags)
    ensures OnBoundary(w, 0, 8) && Place(w, 8) == Plus(Plus(Plus(w.buffer.base, 1), 3), 4)
  {
    var a := w.buffer.base;
    var b := Plus(a, 1);
    var c := Plus(b, 3);
    FrameBoundaries(w, n, flags, 8);
    FrameSteps(w, n, flags);
    FrameEmits(w, n, flags, a);
    FrameEmits(w, n, flags, b);
    FrameEmits(w, n, flags, c);
    assert OnBoundary(w, 8, 8) && OnBoundary(w, 4, 8) && OnBoundary(w, 1, 8);
    assert PlaceFrom(w, 8, Plus(c, 4), 8) == Plus(c, 4);
    assert PlaceFrom(w, 4, c, 8) == Plus(c, 4);
    assert PlaceFrom(w, 1, b, 8) == Plus(c, 4);
  }

  /** The commonest prologue meets every premise, wherever the way back can be written. */
  lemma FrameValid(w: Site, n: Byte, flags: (Word, Byte) -> int)
    requires IsFrame(w, n, flags) && Outside(w, Plus(w.area, 8))
    requires Jumpable(Plus(w.area, 8), Plus(Plus(Plus(w.buffer.base, 1), 3), 4))
    ensures Valid(w)
  {
    FrameEnd(w, n, flags);
    forall offset: nat | offset < |w.backup|
      ensures Cleared(w, offset)
    {
      FrameBoundaries(w, n, flags, offset);
      if OnBoundary(w, 0, offset) {
        FrameUnderstood(w, n, flags, offset, Place(w, offset));
      }
    }
  }

  predicate AtFrame(w: Site, pc: Word) {
    !Inside(Original(w), pc) || pc == w.area || pc == w.area + 1 || pc == w.area + 4
  }

  lemma PlainStep(w: Site, offset: nat, d: Decoded, dirt: iset<Word>, s: Cpu)
    requires offset < |w.backup| && offset + d.len <= |w.backup| && Mapped(Original(w)) && s.pc == w.area + offset
    requires Decoding(w, offset) == d && d.op.Plain? && Blind(w.isa, d.op.bytes, dirt, s.core)
    ensures Healthy(w, dirt, s) && Step(w.isa, Original(w), s).pc == w.area + offset + d.len
  {
    OriginalCopied(w, offset, s);
    BehindCall(w, offset);
  }

  lemma FrameHealthyStep(w: Site, n: Byte, flags: (Word, Byte) -> int, dirt: iset<Word>, s: Cpu)
    requires IsFrame(w, n, flags) && AtFrame(w, s.pc)
    ensures Healthy(w, dirt, s) && AtFrame(w, Step(w.isa, Original(w), s).pc)
  {
    FrameDecoding(w, n, flags);
    FrameBlind(w.isa, flags, dirt, s.core, n);
    if s.pc == w.area {
      PlainStep(w, 0, Decoding(w, 0), dirt, s);
    } else if s.pc == w.area + 1 {
      PlainStep(w, 1, Decoding(w, 1), dirt, s);
    } else if s.pc == w.area + 4 {
      PlainStep(w, 4, Decoding(w, 4), dirt, s);
    }
  }

  /** It reads no dirt, wherever it starts and whatever the dirt is. */
  lemma {:induction false} FrameHealthy(w: Site, n: Byte, flags: (Word, Byte) -> int, dirt: iset<Word>, s: Cpu, steps: nat)
    requires IsFrame(w, n, flags) && AtFrame(w, s.pc)
    ensures HealthyRun(w, dirt, s, steps)
    decreases steps
  {
    FrameHealthyStep(w, n, flags, dirt, s);
    if steps > 0 {
      FrameHealthy(w, n, flags, Stained(w, dirt, s), Step(w.isa, Original(w), s), steps - 1);
    }
  }

  lemma CopiedLength(from: Word, h: Hde, code: seq<Byte>, at: Word)
    requires Sane(h, code) && !IsRip(h) && (code[0] == 0x55 || code[0] == 0x48)
    ensures |Relocated(from, h, code, at)| == h.len
  {
  }

  lemma FrameEmitted(hde: Disassembler, area: Word, n: Byte, at: Word)
    requires var s := FramePrologue(n);
             && hde(s[0..]) == Hde(1, 0x55, 0, 0, 0, 0) && hde(s[1..]) == Hde(3, 0x89, 0xe5, 0, 4, 0)
             && hde(s[4..]) == Hde(4, 0x83, 0xec, 0, 5, 0) && Tiles(hde, s, 0)
    ensures |Emitted(hde, area, FramePrologue(n), 0, at)| == 8
  {
    var s := FramePrologue(n);
    var b := Plus(at, 1);
    var c := Plus(b, 3);
    FrameTiled(hde, n);
    CopiedLength(Plus(area, 0), hde(s[0..]), s[0..], at);
    CopiedLength(Plus(area, 1), hde(s[1..]), s[1..], b);
    CopiedLength(Plus(area, 4), hde(s[4..]), s[4..], c);
    EmittedStep(hde, area, s, 0, at);
    EmittedStep(hde, area, s, 1, b);
    EmittedStep(hde, area, s, 4, c);
    assert Tiles(hde, s, 8) && Emitted(hde, area, s, 8, Plus(c, 4)) == [];
  }

  lemma EmitterEmits(isa: Isa, hde: Disassembler, area: Word, backup: seq<Byte>, buffer: Code)
    ensures Emits(Site(isa, hde, area, backup, buffer, Emitter(hde, area, backup)))
  {
    var w := Site(isa, hde, area, backup, buffer, Emitter(hde, area, backup));
    forall offset: nat, at: Word | offset < |backup|
      ensures EmitsHere(w, offset, at)
    {
    }
  }

  lemma FrameSiteIs(isa: Isa, flags: (Word, Byte) -> int, area: Word, base: Word, n: Byte, junk: Stream)
    requires KnowsFrames(isa, flags) && area + 8 < TWO_64 && base + 22 < TWO_64
    ensures Tiles(Decoder(junk), FramePrologue(n), 0)
    ensures var w := FrameSite(isa, area, base, n, junk); IsFrame(w, n, flags) && |w.buffer.bytes| <= 22
  {
    FrameTiles(n, junk);
    var hde, s := Decoder(junk), FramePrologue(n);
    FrameEmitted(hde, area, n, base);
    EmitterEmits(isa, hde, area, s, Code(base, Image(hde, area, s, base)));
  }

  /** So the copy of that prologue, as the decoder and the two passes make it, does what
      the prologue does. */
  lemma FramePreserved(isa: Isa, flags: (Word, Byte) -> int, area: Word, base: Word, n: Byte, junk: Stream,
                       s: Cpu, t: Cpu) returns (w: Site, m: nat)
    requires KnowsFrames(isa, flags) && area + 8 < TWO_64 && base + 22 < TWO_64
    requires Apart(area, base) && Jumpable(area + 8, base + 8)
    requires s.pc == area && t.pc == base && s.core == t.core
    ensures Tiles(Decoder(junk), FramePrologue(n), 0) && w == FrameSite(isa, area, base, n, junk) && Valid(w)
    ensures var p, q := Steps(isa, Original(w), s, 8), Steps(isa, w.buffer, t, m);
            Left(w, StainedBy(w, iset{}, s, 8), p, q)
  {
    FrameTiles(n, junk);
    w := FrameSite(isa, area, base, n, junk);
    FrameSiteIs(isa, flags, area, base, n, junk);
    FrameAddresses(area, base);
    FrameValid(w, n, flags);
    FrameHealthy(w, n, flags, iset{}, s, 8);
    m := RelocationPreservesMeaning(w, iset{}, s, t);
    FrameLeft(w, n, flags, StainedBy(w, iset{}, s, 8), Steps(isa, Original(w), s, 8), Steps(isa, w.buffer, t, m));
  }

  lemma FrameCallsNothing(w: Site, n: Byte, flags: (Word, Byte) -> int, offset: nat)
    requires IsFrame(w, n, flags)
    ensures !(OnBoundary(w, 0, offset) && IsCallAt(w, offset))
  {
    if offset < |w.backup| {
      FrameBoundaries(w, n, flags, offset);
      FrameDecoding(w, n, flags);
    }
  }

  lemma FrameLeft(w: Site, n: Byte, flags: (Word, Byte) -> int, dirt: iset<Word>, p: Cpu, q: Cpu)
    requires IsFrame(w, n, flags) && (Left(w, dirt, p, q) || exists offset: nat :: Called(w, offset, dirt, p, q))
    ensures Left(w, dirt, p, q)
  {
    if !Left(w, dirt, p, q) {
      var offset: nat :| Called(w, offset, dirt, p, q);
      FrameCallsNothing(w, n, flags, offset);
      assert false;
    }
  }

  lemma FrameAddresses(area: Word, base: Word)
    requires area + 8 < TWO_64 && base + 22 < TWO_64
    ensures Plus(area, 8) == area + 8 && Plus(Plus(Plus(base, 1), 3), 4) == base + 8
  {
  }

  /** The function goes on behind its first eight bytes, not in the buffer. */
  predicate Apart(area: nat, base: nat) { area + 8 < base || base + 22 <= area + 8 }
}
