/**
 What the written Thumb code does: each replacement reads the literal, or reaches the
 stub, that was written for it, and so does the work of the original instruction; an
 instruction that is copied reads the same pc - with exceptions that are told exactly.
 */
module ThumbReach {
  import opened Thumb
  import opened ThumbLayout

  /** The aligned word at an index of the buffer. */
  predicate WordIs(out: seq<Half>, i: nat, w: Word) { i % 2 == 0 && i + 2 <= |out| && Joined(out[i], out[i + 1]) == w }

  /** Where `ldr pc, [pc, #+/-imm12]` at an address reads in ARM state. */
  function ArmLoadTarget(at: nat, w: Word): int { at + 8 + if w / 0x80_0000 % 2 == 1 then w % 0x1000 else -(w % 0x1000) }

  /** The instruction behind `bx pc` reads the word that follows it. */
  lemma LoadsNext(at: nat)
    ensures ArmLoadTarget(at, LDR_PC_NEXT) == at + 4 && LDR_PC_NEXT / 0x1000 % 0x100 == 0xff
  {
  }

  /** bx pc on a word boundary, the ARM load behind it, and the word that it loads. */
  predicate LeavesFor(out: seq<Half>, i: nat, target: Word) {
    && i % 2 == 0 && i + 6 <= |out| && out[i] == BX_PC
    && WordIs(out, i + 2, LDR_PC_NEXT) && WordIs(out, i + 4, target)
  }

  /** In a buffer on a word boundary bx pc goes on in ARM state behind the nop, and the load
      there reads the target. */
  lemma StubLoads(out: seq<Half>, base: nat, i: nat, target: Word)
    requires LeavesFor(out, i, target) && base % 4 == 0
    ensures Aligned(base + 2 * i + 4) == base + 2 * (i + 2) && WordIs(out, i + 2, LDR_PC_NEXT)
    ensures ArmLoadTarget(base + 2 * (i + 2), LDR_PC_NEXT) == base + 2 * (i + 4) && WordIs(out, i + 4, target)
  {
    LoadsNext(base + 2 * (i + 2));
  }

  // ----------------------------------------------- the meaning of a replacement

  /** ldr rd, label; ldr rd, [rd] */
  predicate LoadMeans(out: seq<Half>, base: nat, rd: Low, target: Word, start: nat, end: nat)
    requires start + 2 <= |out| && end >= 2
  {
    && LoadTarget(base + 2 * start, out[start]) == base + 2 * (end - 2) && LoadRegister(out[start]) == rd
    && out[start + 1] == LdrSelf(rd) && WordIs(out, end - 2, target)
  }

  predicate BranchMeans(out: seq<Half>, base: nat, cond: nat, target: nat, start: nat, end: nat)
    requires start + 1 <= |out| && end >= 6
  {
    && BranchTarget(base + 2 * start, out[start]) == base + 2 * (end - 6) && Condition(out[start]) == cond
    && target + 1 < TWO_32 && LeavesFor(out, end - 6, target + 1)
  }

  /** push {r7}; ldr r7; mov lr, r7; pop {r7}; blx lr */
  predicate CallMeans(out: seq<Half>, base: nat, target: Word, start: nat, end: nat)
    requires start + 5 <= |out| && end >= 2
  {
    && LoadTarget(base + 2 * (start + 1), out[start + 1]) == base + 2 * (end - 2) && LoadRegister(out[start + 1]) == R7
    && out[start] == PushLow(R7) && out[start + 2] == MovReg(LR, R7) && out[start + 3] == PopLow(R7)
    && out[start + 4] == BLX_LR && WordIs(out, end - 2, target)
  }

  /** The register that the code saves is not the one tested, and both ways restore it. */
  predicate CompareMeans(out: seq<Half>, base: nat, op: nat, rn: Low, target: nat, start: nat, end: nat)
    requires start + 7 <= |out| && 10 <= end <= |out|
  {
    && CompareTarget(base + 2 * (start + 3), out[start + 3]) == base + 2 * (end - 10)
    && CompareOperand(out[start + 3]) == (op, rn)
    && (exists rt: Low :: rt != rn && Saves(out, start, end, rt))
    && target + 1 < TWO_32 && LeavesFor(out, end - 6, target + 1)
  }

  predicate PairAt(out: seq<Half>, i: nat, pair: seq<Half>)
    requires i + 2 <= |out| && |pair| == 2
  {
    out[i] == pair[0] && out[i + 1] == pair[1]
  }

  predicate Saves(out: seq<Half>, start: nat, end: nat, rt: Low)
    requires start + 7 <= |out| && 10 <= end <= |out|
  {
    && out[start] == PushLow(rt) && PairAt(out, start + 1, MrsApsr(rt))
    && PairAt(out, start + 4, MsrApsr(rt)) && out[start + 6] == PopLow(rt)
    && PairAt(out, end - 10, MsrApsr(rt)) && out[end - 8] == PopLow(rt)
  }

  /** ldr rt, label; ldr rt, [rt] */
  predicate WideLoadMeans(out: seq<Half>, base: nat, rt: nat, target: Word, start: nat, end: nat)
    requires start + 4 <= |out| && end >= 2
  {
    && rt < 16 && rt != PC
    && WideLoadTarget(base + 2 * start, out[start], out[start + 1]) == base + 2 * (end - 2)
    && IsWideLoad(out[start]) && WideLoadRegister(out[start + 1]) == rt
    && PairAt(out, start + 2, WideLdr(rt, rt, 0)) && WordIs(out, end - 2, target)
  }

  /** push {rt}; mov rt, rd; ldr rd; add rd, rt; pop {rt} */
  predicate AddMeans(out: seq<Half>, base: nat, rd: Low, value: Word, start: nat, end: nat)
    requires start + 5 <= |out| && end >= 2
  {
    var rt := Scratch(rd);
    && rt != rd
    && LoadTarget(base + 2 * (start + 2), out[start + 2]) == base + 2 * (end - 2) && LoadRegister(out[start + 2]) == rd
    && out[start] == PushLow(rt) && out[start + 1] == MovReg(rt, rd) && out[start + 3] == AddReg(rd, rt)
    && out[start + 4] == PopLow(rt) && WordIs(out, end - 2, value)
  }

  /** What the free part from `start` to `end` got does the work of the instruction. */
  predicate Means(out: seq<Half>, base: nat, h: Half, g: Half, at: nat, start: nat, end: nat)
  {
    start + Room(KindOf(h, g)) <= end <= |out| &&
    match KindOf(h, g)
    case Load => LoadMeans(out, base, LoadRegister(h), LoadTarget(at, h), start, end)
    case Branch => BranchMeans(out, base, Condition(h), BranchTarget(at, h), start, end)
    case WideBranch => BranchMeans(out, base, WideCondition(h, g), WideBranchTarget(at, h, g), start, end)
    case Call => CallMeans(out, base, CallTarget(at, h, g), start, end)
    case Compare => CompareMeans(out, base, Bit(h, 0x800), h % 8, CompareTarget(at, h), start, end)
    case WideLoad => WideLoadMeans(out, base, WideLoadRegister(g), WideLoadTarget(at, h, g), start, end)
    case AddPc => Bit(h, 0x80) == 0 && AddMeans(out, base, h % 8, Wrap(at + 4), start, end)
    case Wide => out[start] == h && out[start + 1] == g && SamePc(h, g, at, base + 2 * start)
    case Narrow => out[start] == h && SamePc(h, g, at, base + 2 * start)
  }

  /** At both addresses the instruction finds the same pc, if it reads it. */
  predicate SamePc(h: Half, g: Half, at: nat, to: nat) { ReadsPc(h, g) ==> PcRead(h, g, at) == PcRead(h, g, to) }

  /** When it does: cbz reaches 126 bytes, blx needs an aligned pc, a 32-bit load must not
      load the pc, and what is copied must not read it; room is what this instruction and
      the later ones take. */
  predicate Fits(h: Half, g: Half, at: nat, room: nat) {
    match KindOf(h, g)
    case Call => Bit(g, 0x1000) == 1 || at % 4 == 0
    case Compare => room <= 72
    case WideLoad => WideLoadRegister(g) != PC
    case Wide => !ReadsPc(h, g)
    case Narrow => !ReadsPc(h, g)
    case _ => true
  }

  // ----------------------------------------------------------- literals and loads

  /** A pc-relative load reads the word that its label names. */
  lemma LoadReaches(base: nat, l: nat, r: nat, rd: Low)
    requires base % 4 == 0 && r % 2 == 0 && l + 2 <= r <= l + 200 && base + 2 * r < TWO_32
    ensures LoadTarget(base + 2 * l, LdrPc(rd, Label(l, r) / 4)) == base + 2 * r
    ensures LoadRegister(LdrPc(rd, Label(l, r) / 4)) == rd
  {
    LabelWords(base, l, r);
    LdrFields(rd, Label(l, r) / 4);
  }

  lemma LdrFields(rd: Low, im: nat)
    requires im < 0x100
    ensures LdrPc(rd, im) % 0x100 == im && LoadRegister(LdrPc(rd, im)) == rd
  {
  }

  lemma LabelWords(base: nat, l: nat, r: nat)
    requires base % 4 == 0 && r % 2 == 0 && l + 2 <= r <= l + 200
    ensures Label(l, r) % 4 == 0 && Label(l, r) < 0x400
    ensures Aligned(base + 2 * l + 4) + Label(l, r) == base + 2 * r
  {
    assert (base + 2 * l + 4) % 4 == if l % 2 == 0 then 0 else 2;
  }

  /** The label of a call, which always adds two, comes to the same. */
  lemma CallLabel(l: nat, r: nat)
    requires r % 2 == 0 && l + 2 <= r
    ensures ((r - l) * 2 - 4 + 2) / 4 == Label(l, r) / 4
  {
    if l % 2 == 0 {
      var q := (r - l) / 2 - 1;
      assert r - l == 2 * (q + 1);
      Fourths(q);
    }
  }

  lemma Fourths(q: nat)
    ensures (4 * q + 2) / 4 == q && 4 * q / 4 == q
  {
  }

  lemma WideLoadReaches(base: nat, l: nat, r: nat, rt: nat)
    requires base % 4 == 0 && r % 2 == 0 && l + 2 <= r <= l + 200 && base + 2 * r < TWO_32 && rt < 16
    ensures var s := WideLdr(rt, PC, Label(l, r));
            WideLoadTarget(base + 2 * l, s[0], s[1]) == base + 2 * r && IsWideLoad(s[0]) && WideLoadRegister(s[1]) == rt
  {
    LabelWords(base, l, r);
    WideFields(rt, Label(l, r));
    var s := WideLdr(rt, PC, Label(l, r));
    WideAhead(base + 2 * l, s[0], s[1], Label(l, r), base + 2 * r);
  }

  lemma WideAhead(at: nat, h: Half, g: Half, im: nat, target: nat)
    requires Bit(h, 0x80) == 1 && g % 0x1000 == im && Aligned(at + 4) + im == target && target < TWO_32
    ensures WideLoadTarget(at, h, g) == target
  {
    WrapSmall(target);
  }

  lemma WideFields(rt: nat, im: nat)
    requires rt < 16 && im < 0x1000
    ensures var s := WideLdr(rt, PC, im);
            s[0] == 0xf8df && Bit(s[0], 0x80) == 1 && s[1] % 0x1000 == im && WideLoadRegister(s[1]) == rt
  {
  }

  lemma EvenAligned(x: nat)
    requires x % 2 == 0
    ensures WithoutTwo(x) == Aligned(x)
  {
  }

  lemma WordAt(out: seq<Half>, i: nat, w: Word)
    requires Holds(out, i, Halves(w)) && i % 2 == 0
    ensures WordIs(out, i, w)
  {
    assert out[i] == Halves(w)[0] && out[i + 1] == Halves(w)[1];
  }

  lemma StubLeaves(out: seq<Half>, i: nat, target: Word)
    requires Holds(out, i, Stub(target)) && i % 2 == 0
    ensures LeavesFor(out, i, target)
  {
    var s := Stub(target);
    assert s[2..4] == Halves(LDR_PC_NEXT) && s[4..] == Halves(target);
    assert out[i + 0] == s[0] && out[i + 2] == s[2] && out[i + 3] == s[3] && out[i + 4] == s[4] && out[i + 5] == s[5];
  }

  // -------------------------------------------------------------------- branches

  lemma BranchFields(cond: nat, k: nat)
    requires k < 0x80 && cond <= AL
    ensures Condition(BranchBy(cond, 2 * k)) == cond
    ensures var h := BranchBy(cond, 2 * k);
            if h / 0x800 == 0x1c then h % 0x800 == k else h % 0x100 == k
  {
    if cond != AL {
      assert BranchBy(cond, 2 * k) == 0xd000 + cond * 0x100 + k;
    }
  }

  /** A conditional branch spans 254 bytes, which no window exceeds. */
  lemma BranchReaches(base: nat, start: nat, end: nat, cond: nat)
    requires start + 13 <= end <= start + 135 && base + 2 * end < TWO_32 && cond <= AL
    ensures BranchTarget(base + 2 * start, BranchBy(cond, (end - 6 - start) * 2 - 4)) == base + 2 * (end - 6)
    ensures Condition(BranchBy(cond, (end - 6 - start) * 2 - 4)) == cond
  {
    var k := end - 6 - start - 2;
    assert (end - 6 - start) * 2 - 4 == 2 * k;
    BranchFields(cond, k);
    BranchAhead(base + 2 * start, BranchBy(cond, 2 * k), k);
  }

  lemma BranchAhead(at: nat, h: Half, k: nat)
    requires k < 0x80 && at + 4 + 2 * k < TWO_32
    requires if h / 0x800 == 0x1c then h % 0x800 == k else h % 0x100 == k
    ensures BranchTarget(at, h) == at + 4 + 2 * k
  {
  }

  /** The stub of cbz is in reach exactly if it is no more than 126 bytes ahead. */
  lemma CompareReaches(base: nat, start: nat, end: nat, op: nat, rn: Low)
    requires start + 23 <= end <= start + 200 && base + 2 * end < TWO_32 && op < 2
    ensures var h := CompareBy(op, rn, (end - 10 - (start + 3)) * 2 - 4);
            CompareTarget(base + 2 * (start + 3), h) == base + 2 * (end - 10) <==> end <= start + 78
  {
    var im := (end - 10 - (start + 3)) * 2 - 4;
    assert im == 2 * (end - start) - 30;
    CompareFields(op, rn, im);
    SpanOnly(im);
    WrapSmall(base + 2 * (start + 3) + 4 + CompareSpan(CompareBy(op, rn, im)));
  }

  lemma WrapSmall(x: nat)
    requires x < TWO_32
    ensures Wrap(x) == x
  {
  }

  lemma SpanOnly(im: nat)
    requires im < 0x200
    ensures im % 0x80 <= im && (im % 0x80 == im <==> im < 0x80)
  {
  }

  lemma CompareFields(op: nat, rn: Low, im: nat)
    requires op < 2 && im % 2 == 0 && im < 0x200
    ensures var h := CompareBy(op, rn, im); CompareSpan(h) == im % 0x80 && CompareOperand(h) == (op, rn)
  {
    var a, c := im / 0x40 % 2, im / 2 % 0x20;
    Spread(im);
    Fields(op, a, c, rn);
  }

  lemma Fields(op: nat, a: nat, c: nat, rn: nat)
    requires op < 2 && a < 2 && c < 0x20 && rn < 8
    ensures var h := 0xb100 + op * 0x800 + a * 0x200 + c * 8 + rn;
            Bit(h, 0x200) == a && h / 8 % 0x20 == c && Bit(h, 0x800) == op && h % 8 == rn
  {
    var h := 0xb100 + op * 0x800 + a * 0x200 + c * 8 + rn;
    assert h / 8 == 0x1620 + op * 0x100 + a * 0x40 + c;
    assert h / 0x200 == 0x58 + op * 4 + a;
    assert h / 0x800 == 0x16 + op;
  }

  lemma Spread(im: nat)
    requires im % 2 == 0 && im < 0x200
    ensures im / 0x40 % 2 * 0x40 + im / 2 % 0x20 * 2 == im % 0x80
  {
    var k := im / 2;
    Halved(k);
    Split(k / 0x20, k % 0x20);
    Doubled(k);
  }

  lemma Halved(k: nat)
    ensures 2 * k / 0x40 == k / 0x20
  {
  }

  lemma Split(a: nat, c: nat)
    requires c < 0x20
    ensures (0x20 * a + c) % 0x40 == a % 2 * 0x20 + c
  {
    assert 0x20 * a + c == 0x40 * (a / 2) + (a % 2 * 0x20 + c);
    Rest(a / 2, a % 2 * 0x20 + c);
  }

  lemma Rest(q: nat, r: nat)
    requires r < 0x40
    ensures (0x40 * q + r) % 0x40 == r
  {
  }

  lemma Doubled(k: nat)
    ensures 2 * k % 0x80 == 2 * (k % 0x40)
  {
  }

  // ----------------------------------------------------- targets of the original

  lemma WrapOdd(x: int)
    requires x % 2 == 0
    ensures Wrap(x) + 1 == Wrap(x + 1)
  {
    var q, r := x / TWO_32, x % TWO_32;
    assert x == 2 * (q * 0x8000_0000) + r;
    assert r % 2 == 0 && r + 1 < TWO_32;
    WrapIs(x + 1, q, r + 1);
  }

  lemma WrapIs(x: int, q: int, r: int)
    requires x == q * TWO_32 + r && 0 <= r < TWO_32
    ensures Wrap(x) == r
  {
  }

  /** The Thumb bit may be added before the sign is extended. */
  lemma SignedOdd(v: nat, m: nat)
    requires v % 2 == 0 && v < m && m % 4 == 0
    ensures v + 1 < m && Signed(v + 1, m) == Signed(v, m) + 1 && Signed(v, m) % 2 == 0
  {
    var k, j := v / 2, m / 4;
    assert v == 2 * k && m == 4 * j;
  }

  lemma BranchLiteral(h: Half, g: Half, at: nat)
    requires KindOf(h, g) == Branch && at % 2 == 0
    ensures BranchTarget(at, h) + 1 == Literal(h, g, at)
  {
    SignedOdd(h % 0x100 * 2, 0x200);
    WrapOdd(at + 4 + Signed(h % 0x100 * 2, 0x200));
  }

  /** The field imm10 is the condition field and imm6 together. */
  lemma TenBits(h: Half)
    ensures h % 0x400 == h / 0x40 % 16 * 0x40 + h % 0x40
  {
  }

  lemma FarIsOffset(h: Half, g: Half)
    ensures var v := FarBits(h, g) + h % 0x400 * 0x1000 + g % 0x800 * 2;
            v % 2 == 0 && v < 0x200_0000 && FarOffset(h, g) == Signed(v, 0x200_0000)
  {
    FarSum(Bit(h, 0x400), Inverted(Bit(g, 0x2000), Bit(h, 0x400)), Inverted(Bit(g, 0x800), Bit(h, 0x400)),
           h % 0x400, g % 0x800);
  }

  lemma FarSum(s: nat, i: nat, j: nat, x: nat, y: nat)
    requires s < 2 && i < 2 && j < 2 && x < 0x400 && y < 0x800
    ensures var v := s * 0x100_0000 + i * 0x80_0000 + j * 0x40_0000 + x * 0x1000 + y * 2; v % 2 == 0 && v < 0x200_0000
  {
    var half := s * 0x80_0000 + i * 0x40_0000 + j * 0x20_0000 + x * 0x800 + y;
    assert s * 0x100_0000 + i * 0x80_0000 + j * 0x40_0000 + x * 0x1000 + y * 2 == 2 * half;
  }

  lemma NearSum(s: nat, i: nat, j: nat, x: nat, y: nat)
    requires s < 2 && i < 2 && j < 2 && x < 0x40 && y < 0x800
    ensures var v := s * 0x10_0000 + i * 0x8_0000 + j * 0x4_0000 + x * 0x1000 + y * 2; v % 2 == 0 && v < 0x20_0000
  {
    var half := s * 0x8_0000 + i * 0x4_0000 + j * 0x2_0000 + x * 0x800 + y;
    assert s * 0x10_0000 + i * 0x8_0000 + j * 0x4_0000 + x * 0x1000 + y * 2 == 2 * half;
  }

  lemma WideJumpOdd(h: Half, g: Half)
    ensures var far := if Bit(g, 0x1000) == 1 then FarOffset(h, g) else NearOffset(h, g);
            WideJump(h, g) == far + 1 && far % 2 == 0
  {
    if Bit(g, 0x1000) == 1 {
      TenBits(h);
      FarIsOffset(h, g);
      SignedOdd(FarBits(h, g) + h % 0x400 * 0x1000 + g % 0x800 * 2, 0x200_0000);
    } else {
      NearSum(Bit(h, 0x400), Bit(g, 0x800), Bit(g, 0x2000), h % 0x40, g % 0x800);
      SignedOdd(Bit(h, 0x400) * 0x10_0000 + Bit(g, 0x800) * 0x8_0000 + Bit(g, 0x2000) * 0x4_0000
                + h % 0x40 * 0x1000 + g % 0x800 * 2, 0x20_0000);
    }
  }

  lemma WideBranchLiteral(h: Half, g: Half, at: nat)
    requires KindOf(h, g) == WideBranch && at % 2 == 0
    ensures WideBranchTarget(at, h, g) + 1 == Literal(h, g, at)
  {
    var far := if Bit(g, 0x1000) == 1 then FarOffset(h, g) else NearOffset(h, g);
    WideJumpOdd(h, g);
    assert (at + 4 + far) % 2 == 0 by {
      EvenSum(at + 4, far);
    }
    WrapOdd(at + 4 + far);
    assert WideBranchTarget(at, h, g) == Wrap(at + 4 + far);
    assert Literal(h, g, at) == Wrap(at + 4 + WideJump(h, g));
  }

  lemma EvenSum(x: int, y: int)
    requires x % 2 == 0 && y % 2 == 0
    ensures (x + y) % 2 == 0
  {
  }

  /** The literal of a call is the target, except that blx is taken to start from a pc
      that is not aligned. */
  lemma CallLiteral(h: Half, g: Half, at: nat)
    requires KindOf(h, g) == Call && at % 2 == 0
    ensures CallTarget(at, h, g) == Literal(h, g, at) <==> Bit(g, 0x1000) == 1 || at % 4 == 0
  {
    var v := FarBits(h, g) + h % 0x400 * 0x1000 + g % 0x800 * 2;
    FarIsOffset(h, g);
    SignedOdd(v, 0x200_0000);
    if Bit(g, 0x1000) == 0 {
      TwoLess(at + 4, FarOffset(h, g));
    }
  }

  lemma TwoLess(x: nat, off: int)
    requires x % 2 == 0
    ensures Wrap(Aligned(x) + off) == Wrap(x + off) <==> x % 4 == 0
  {
    if x % 4 != 0 {
      assert Aligned(x) == x - 2;
      NotSame(x + off);
    }
  }

  lemma NotSame(y: int)
    ensures Wrap(y - 2) != Wrap(y)
  {
  }

  lemma OddAhead(x: int, y: int)
    requires x % 2 == 0 && y % 2 == 0
    ensures Wrap(x + y) + 1 == Wrap(x + y + 1)
  {
    EvenSum(x, y);
    WrapOdd(x + y);
  }

  lemma SpanEven(h: Half)
    ensures CompareSpan(h) % 2 == 0
  {
    assert CompareSpan(h) == 2 * (Bit(h, 0x200) * 0x20 + h / 8 % 0x20);
  }

  lemma CompareLiteral(h: Half, g: Half, at: nat)
    requires KindOf(h, g) == Compare && at % 2 == 0
    ensures CompareTarget(at, h) + 1 == Literal(h, g, at)
  {
    SpanEven(h);
    OddAhead(at + 4, CompareSpan(h));
    assert Literal(h, g, at) == Wrap(at + 4 + CompareSpan(h) + 1);
  }

  lemma LoadLiteral(h: Half, g: Half, at: nat)
    requires at % 2 == 0
    ensures KindOf(h, g) == Load ==> Literal(h, g, at) == LoadTarget(at, h)
    ensures KindOf(h, g) == WideLoad ==> Literal(h, g, at) == WideLoadTarget(at, h, g)
  {
    EvenAligned(at + 4);
  }

  // --------------------------------------------------------------- instructions

  /** The buffer is mapped at a word boundary, and the back of the free part is aligned. */
  predicate Mapped(out: seq<Half>, base: nat, end: nat) {
    base % 4 == 0 && base + 2 * |out| < TWO_32 && end % 2 == 0
  }

  lemma LoadWorks(out: seq<Half>, base: nat, h: Half, g: Half, at: nat, start: nat, end: nat)
    requires KindOf(h, g) == Load && Put(out, h, g, at, start, end) && Mapped(out, base, end) && at % 2 == 0
    ensures LoadMeans(out, base, LoadRegister(h), LoadTarget(at, h), start, end)
  {
    var code := Code(h, g, start, end);
    assert out[start + 0] == code[0] && out[start + 1] == code[1];
    LoadReaches(base, start, end - 2, LoadRegister(h));
    LoadLiteral(h, g, at);
    WordAt(out, end - 2, Literal(h, g, at));
  }

  lemma BranchPut(out: seq<Half>, h: Half, g: Half, at: nat, start: nat, end: nat)
    requires KindOf(h, g) == Branch || KindOf(h, g) == WideBranch
    requires Put(out, h, g, at, start, end)
    ensures var cond := if IsBranch(h) then h / 0x100 % 16 else WideCondition(h, g);
            cond <= AL && out[start] == BranchBy(cond, (end - 6 - start) * 2 - 4)
    ensures Holds(out, end - 6, Stub(Literal(h, g, at)))
  {
    Conditions(h, g);
    var code := Code(h, g, start, end);
    assert out[start + 0] == code[0];
  }

  lemma BranchCore(out: seq<Half>, base: nat, cond: nat, target: Word, start: nat, end: nat)
    requires start + 13 <= end <= start + 135 && end <= |out| && Mapped(out, base, end) && cond <= AL
    requires out[start] == BranchBy(cond, (end - 6 - start) * 2 - 4) && target > 0 && Holds(out, end - 6, Stub(target))
    ensures BranchMeans(out, base, cond, target - 1, start, end)
  {
    BranchReaches(base, start, end, cond);
    StubLeaves(out, end - 6, target);
  }

  /** The condition and the target of the original. */
  lemma BranchIs(h: Half, g: Half, at: nat)
    requires KindOf(h, g) == Branch && at % 2 == 0
    ensures Literal(h, g, at) == BranchTarget(at, h) + 1 && Condition(h) == h / 0x100 % 16 && IsBranch(h)
  {
    BranchLiteral(h, g, at);
  }

  lemma BranchWorks(out: seq<Half>, base: nat, h: Half, g: Half, at: nat, start: nat, end: nat)
    requires KindOf(h, g) == Branch || KindOf(h, g) == WideBranch
    requires Put(out, h, g, at, start, end) && Mapped(out, base, end) && at % 2 == 0 && end <= start + 135
    ensures Means(out, base, h, g, at, start, end)
  {
    BranchPut(out, h, g, at, start, end);
    if KindOf(h, g) == Branch {
      BranchIs(h, g, at);
      BranchCore(out, base, Condition(h), Literal(h, g, at), start, end);
    } else {
      WideBranchLiteral(h, g, at);
      BranchCore(out, base, WideCondition(h, g), Literal(h, g, at), start, end);
    }
  }

  lemma CallWorks(out: seq<Half>, base: nat, h: Half, g: Half, at: nat, start: nat, end: nat)
    requires KindOf(h, g) == Call && Put(out, h, g, at, start, end) && Mapped(out, base, end) && at % 2 == 0
    ensures CallMeans(out, base, CallTarget(at, h, g), start, end) <==> Bit(g, 0x1000) == 1 || at % 4 == 0
  {
    var code := Code(h, g, start, end);
    assert out[start + 0] == code[0] && out[start + 1] == code[1] && out[start + 2] == code[2];
    assert out[start + 3] == code[3] && out[start + 4] == code[4];
    CallLabel(start + 1, end - 2);
    LoadReaches(base, start + 1, end - 2, R7);
    CallLiteral(h, g, at);
    WordAt(out, end - 2, Literal(h, g, at));
  }

  lemma WideLoadPut(out: seq<Half>, h: Half, g: Half, at: nat, start: nat, end: nat)
    requires KindOf(h, g) == WideLoad && Put(out, h, g, at, start, end)
    ensures var rt := WideLoadRegister(g);
            PairAt(out, start, WideLdr(rt, PC, Label(start, end - 2))) && PairAt(out, start + 2, WideLdr(rt, rt, 0))
    ensures Holds(out, end - 2, Halves(Literal(h, g, at)))
  {
    var code := Code(h, g, start, end);
    assert out[start + 0] == code[0] && out[start + 1] == code[1];
    assert out[start + 2] == code[2] && out[start + 3] == code[3];
  }

  lemma WideLoadCore(out: seq<Half>, base: nat, rt: nat, start: nat, end: nat, target: Word)
    requires start + 12 <= end <= start + 200 && end <= |out| && Mapped(out, base, end) && rt < 16
    requires PairAt(out, start, WideLdr(rt, PC, Label(start, end - 2))) && PairAt(out, start + 2, WideLdr(rt, rt, 0))
    requires Holds(out, end - 2, Halves(target))
    ensures WideLoadMeans(out, base, rt, target, start, end) <==> rt != PC
  {
    WideLoadReaches(base, start, end - 2, rt);
    WordAt(out, end - 2, target);
  }

  lemma WideLoadWorks(out: seq<Half>, base: nat, h: Half, g: Half, at: nat, start: nat, end: nat)
    requires KindOf(h, g) == WideLoad && Put(out, h, g, at, start, end) && Mapped(out, base, end) && at % 2 == 0
    ensures WideLoadMeans(out, base, WideLoadRegister(g), WideLoadTarget(at, h, g), start, end)
       <==> WideLoadRegister(g) != PC
  {
    WideLoadPut(out, h, g, at, start, end);
    LoadLiteral(h, g, at);
    WideLoadCore(out, base, WideLoadRegister(g), start, end, Literal(h, g, at));
  }

  lemma AddWorks(out: seq<Half>, base: nat, h: Half, g: Half, at: nat, start: nat, end: nat)
    requires KindOf(h, g) == AddPc && Put(out, h, g, at, start, end) && Mapped(out, base, end)
    requires !Refused(h, g)
    ensures AddMeans(out, base, h % 8, Wrap(at + 4), start, end)
  {
    var code := Code(h, g, start, end);
    assert out[start + 0] == code[0] && out[start + 1] == code[1] && out[start + 2] == code[2];
    assert out[start + 3] == code[3] && out[start + 4] == code[4];
    LoadReaches(base, start + 2, end - 2, h % 8);
    WordAt(out, end - 2, Literal(h, g, at));
  }

  lemma CompareSaves(out: seq<Half>, h: Half, g: Half, at: nat, start: nat, end: nat)
    requires KindOf(h, g) == Compare && Put(out, h, g, at, start, end)
    ensures Scratch(h % 8) != h % 8 && Saves(out, start, end, Scratch(h % 8))
    ensures out[start + 3] == CompareBy(Bit(h, 0x800), h % 8, (end - 10 - (start + 3)) * 2 - 4)
    ensures Holds(out, end - 6, Stub(Literal(h, g, at)))
  {
    var code, pool, rt := Code(h, g, start, end), Pool(h, g, at), Scratch(h % 8);
    assert out[start + 0] == code[0] && out[start + 1] == code[1] && out[start + 2] == code[2];
    assert out[start + 3] == code[3] && out[start + 4] == code[4] && out[start + 5] == code[5] && out[start + 6] == code[6];
    assert out[end - 10 + 0] == pool[0] && out[end - 10 + 1] == pool[1] && out[end - 10 + 2] == pool[2];
    forall i | 0 <= i < 6
      ensures out[end - 6 + i] == Stub(Literal(h, g, at))[i]
    {
      assert out[end - 10 + (4 + i)] == pool[4 + i];
    }
  }

  lemma CompareCore(out: seq<Half>, base: nat, op: nat, rn: Low, start: nat, end: nat, rt: Low, target: Word)
    requires start + 23 <= end <= start + 200 && end <= |out| && Mapped(out, base, end) && op < 2
    requires rt != rn && Saves(out, start, end, rt) && target > 0
    requires out[start + 3] == CompareBy(op, rn, (end - 10 - (start + 3)) * 2 - 4)
    requires Holds(out, end - 6, Stub(target))
    ensures CompareMeans(out, base, op, rn, target - 1, start, end) <==> end <= start + 78
  {
    CompareReaches(base, start, end, op, rn);
    CompareFields(op, rn, (end - 10 - (start + 3)) * 2 - 4);
    StubLeaves(out, end - 6, target);
  }

  lemma CompareWorks(out: seq<Half>, base: nat, h: Half, g: Half, at: nat, start: nat, end: nat)
    requires KindOf(h, g) == Compare && Put(out, h, g, at, start, end) && Mapped(out, base, end) && at % 2 == 0
    ensures CompareMeans(out, base, Bit(h, 0x800), h % 8, CompareTarget(at, h), start, end) <==> end <= start + 78
  {
    CompareSaves(out, h, g, at, start, end);
    CompareLiteral(h, g, at);
    CompareCore(out, base, Bit(h, 0x800), h % 8, start, end, Scratch(h % 8), Literal(h, g, at));
  }

  /** The buffer and the instruction do not overlap. */
  predicate Apart(out: seq<Half>, base: nat, at: nat) {
    base % 4 == 0 && |out| % 2 == 0 && at % 2 == 0 && (at < base || base + 2 * |out| <= at)
  }

  lemma WordBelow(x: nat, y: nat)
    requires x < y && y % 4 == 0
    ensures Aligned(x) < y
  {
  }

  lemma OtherWord(low: nat, high: nat, at: nat, to: nat)
    requires low % 4 == 0 && high % 4 == 0 && low <= to < high && (at < low || high <= at)
    ensures Aligned(at) != Aligned(to)
  {
    if at < low {
      WordBelow(at, low);
      AlignedAbove(low, to);
    } else {
      WordBelow(to, high);
      AlignedAbove(high, at);
    }
  }

  lemma AlignedAbove(x: nat, y: nat)
    requires x <= y && x % 4 == 0
    ensures x <= Aligned(y)
  {
  }

  lemma AlignedFour(x: nat)
    ensures Aligned(x + 4) == Aligned(x) + 4
  {
  }

  /** No pc that is read in the buffer is the one that is read in the function. */
  lemma OtherPc(out: seq<Half>, base: nat, h: Half, g: Half, at: nat, start: nat)
    requires Apart(out, base, at) && start < |out|
    ensures SamePc(h, g, at, base + 2 * start) <==> !ReadsPc(h, g)
  {
    OtherWord(base, base + 2 * |out|, at, base + 2 * start);
    AlignedFour(at);
    AlignedFour(base + 2 * start);
  }

  lemma SameWorks(out: seq<Half>, base: nat, h: Half, g: Half, at: nat, start: nat, end: nat)
    requires KindOf(h, g) == Wide || KindOf(h, g) == Narrow
    requires Put(out, h, g, at, start, end) && Apart(out, base, at)
    ensures Means(out, base, h, g, at, start, end) <==> !ReadsPc(h, g)
  {
    var code := Code(h, g, start, end);
    assert out[start + 0] == code[0];
    if KindOf(h, g) == Wide {
      assert out[start + 1] == code[1];
    }
    OtherPc(out, base, h, g, at, start);
  }
}
