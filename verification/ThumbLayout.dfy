/**
 SubstrateHookFunctionThumb: the scan, the sizing pass, and the pass that writes the
 code from the front of the buffer while literals and stubs grow from its back.
 Addresses are bytes; indexes into the window and the buffer are halfwords.
 */
module ThumbLayout {
  import opened Thumb

  /** What the sizing pass adds for an instruction, in halfwords. */
  function Growth(k: Kind): nat {
    match k
    case Load => 3
    case Branch => 6
    case WideBranch => 5
    case Call => 5
    case Compare => 16
    case WideLoad => 4
    case AddPc => 6
    case _ => 0
  }

  /** The halfwords that the second pass writes in front and at the back. */
  function Front(k: Kind): nat {
    match k
    case Load => 2
    case Branch => 1
    case WideBranch => 1
    case Call => 5
    case Compare => 7
    case WideLoad => 4
    case AddPc => 5
    case Wide => 2
    case Narrow => 1
  }

  function Back(k: Kind): nat {
    match k
    case Branch => 6
    case WideBranch => 6
    case Compare => 10
    case Wide => 0
    case Narrow => 0
    case _ => 2
  }

  function Room(k: Kind): nat { Front(k) + Back(k) }

  /** The instruction at an index of the window. */
  function Second(b: seq<Half>, i: nat): Half { if i + 1 < |b| then b[i + 1] else 0 }

  function KindAt(b: seq<Half>, i: nat): Kind
    requires i < |b|
  {
    KindOf(b[i], Second(b, i))
  }

  /** The scan cuts b[i..] into whole instructions. */
  ghost predicate Tiles(b: seq<Half>, i: nat)
    decreases |b| - i
  {
    i == |b| || (i < |b| && Tiles(b, i + ScanWidth(b[i])))
  }

  lemma TilesStep(b: seq<Half>, i: nat)
    requires Tiles(b, i) && i < |b|
    ensures i < i + Width(KindAt(b, i)) <= |b| && Tiles(b, i + Width(KindAt(b, i)))
    ensures Width(KindAt(b, i)) == 2 ==> i + 1 < |b|
  {
    WidthAgrees(b[i], Second(b, i));
  }

  ghost function TotalRoom(b: seq<Half>, i: nat): nat
    requires Tiles(b, i)
    decreases |b| - i
  {
    if i == |b| then 0 else
    TilesStep(b, i);
    Room(KindAt(b, i)) + TotalRoom(b, i + Width(KindAt(b, i)))
  }

  lemma RoomStep(b: seq<Half>, i: nat)
    requires Tiles(b, i) && i < |b|
    ensures var k := KindAt(b, i);
            && i < i + Width(k) <= |b| && Tiles(b, i + Width(k))
            && TotalRoom(b, i) == Width(k) + Growth(k) + TotalRoom(b, i + Width(k))
  {
    TilesStep(b, i);
    Balanced(KindAt(b, i));
  }

  /** The sizing pass counts for each instruction what the second pass writes. */
  lemma Balanced(k: Kind)
    ensures Width(k) + Growth(k) == Room(k)
  {
  }

  lemma {:induction false} RoomBound(b: seq<Half>, i: nat)
    requires Tiles(b, i)
    ensures |b| - i <= TotalRoom(b, i) <= 17 * (|b| - i)
    decreases |b| - i
  {
    if i < |b| {
      TilesStep(b, i);
      RoomBound(b, i + Width(KindAt(b, i)));
    }
  }

  // ---------------------------------------------------------------- the scan

  /** The halfwords in memory from the function on. */
  type Memory = nat -> Half

  function Window(memory: Memory, n: nat): (b: seq<Half>)
    ensures |b| == n && forall i :: 0 <= i < n ==> b[i] == memory(i)
  {
    seq(n, i requires 0 <= i < n => memory(i))
  }

  /** The instructions of memory fit exactly between two indexes. */
  ghost predicate Spans(memory: Memory, i: nat, n: nat)
    decreases n - i
  {
    i == n || (i < n && Spans(memory, i + ScanWidth(memory(i)), n))
  }

  lemma {:induction false} SpansNext(memory: Memory, i: nat, n: nat)
    requires Spans(memory, i, n)
    ensures Spans(memory, i, n + ScanWidth(memory(n)))
    decreases n - i
  {
    if i < n {
      SpansNext(memory, i + ScanWidth(memory(i)), n);
    } else {
      assert Spans(memory, n + ScanWidth(memory(n)), n + ScanWidth(memory(n)));
    }
  }

  lemma {:induction false} SpansTiles(memory: Memory, i: nat, n: nat)
    requires Spans(memory, i, n) && i <= n
    ensures Tiles(Window(memory, n), i)
    decreases n - i
  {
    if i < n {
      SpansTiles(memory, i + ScanWidth(memory(i)), n);
    }
  }

  /** The window is the shortest run of whole instructions that covers the bytes to be
      overwritten: one halfword of alignment, if needed, and six more. */
  method Scan(memory: Memory, area: nat) returns (b: seq<Half>)
    requires area % 2 == 0
    ensures b == Window(memory, |b|) && Tiles(b, 0)
    ensures var required := 6 + area / 2 % 2; required <= |b| <= required + 1
  {
    var align := area / 2 % 2;
    var required := align + 6;
    var used := 0;
    while used < required
      invariant used <= required + 1 && Spans(memory, 0, used)
    {
      SpansNext(memory, 0, used);
      used := used + ScanWidth(memory(used));
    }
    SpansTiles(memory, 0, used);
    b := Window(memory, used);
  }

  // ------------------------------------------------------------- the sizing pass

  method SizingPass(b: seq<Half>) returns (length: nat)
    requires Tiles(b, 0)
    ensures length == 2 * TotalRoom(b, 0)
  {
    length := 2 * |b|;
    var offset := 0;
    while offset != |b|
      invariant offset <= |b| && Tiles(b, offset)
      invariant length + 2 * TotalRoom(b, offset) == 2 * (|b| - offset) + 2 * TotalRoom(b, 0)
      decreases |b| - offset
    {
      RoomStep(b, offset);
      var k := KindAt(b, offset);
      length := length + 2 * Growth(k);
      offset := offset + Width(k);
    }
  }

  // --------------------------------------------------------- what is written

  /** T$Label */
  function Label(l: nat, r: nat): nat
    requires l + 2 <= r
  {
    (r - l) * 2 - 4 + if l % 2 == 0 then 0 else 2
  }

  function Scratch(r: Low): Low { if r == R7 then R6 else R7 }

  /** Branches with a condition have one of the fourteen conditions. */
  lemma Conditions(h: Half, g: Half)
    ensures KindOf(h, g) == Branch ==> h / 0x100 % 16 < AL
    ensures KindOf(h, g) == WideBranch ==> WideCondition(h, g) <= AL
    ensures KindOf(h, g) == WideBranch && WideCondition(h, g) == AL ==> Bit(g, 0x1000) == 1
  {
    if IsBranch(h) {
      BranchCondition(h);
    }
    if IsWideBranch(h, g) && Bit(g, 0x1000) == 0 {
      NearCondition(h);
    }
  }

  lemma BranchCondition(h: Half)
    requires h / 0x200 % 8 != 7
    ensures h / 0x100 % 16 < AL
  {
    assert h / 0x200 == h / 0x100 / 2;
  }

  lemma NearCondition(h: Half)
    requires h / 0x80 % 8 != 7
    ensures h / 0x40 % 16 < AL
  {
    assert h / 0x80 == h / 0x40 / 2;
  }

  /** The code for the instruction (h, g), with the free part of the buffer from
      halfword `start` to halfword `end`. */
  function Code(h: Half, g: Half, start: nat, end: nat): (s: seq<Half>)
    requires start + Room(KindOf(h, g)) + 6 <= end <= start + 200
    ensures |s| == Front(KindOf(h, g))
  {
    Conditions(h, g);
    match KindOf(h, g)
    case Load => var rd := LoadRegister(h); [LdrPc(rd, Label(start, end - 2) / 4), LdrSelf(rd)]
    case Branch => [BranchBy(h / 0x100 % 16, (end - 6 - start) * 2 - 4)]
    case WideBranch => [BranchBy(WideCondition(h, g), (end - 6 - start) * 2 - 4)]
    case Call =>
      [PushLow(R7), LdrPc(R7, ((end - 2 - (start + 1)) * 2 - 4 + 2) / 4), MovReg(LR, R7), PopLow(R7), BLX_LR]
    case Compare =>
      var rt := Scratch(h % 8);
      [PushLow(rt)] + MrsApsr(rt) + [CompareBy(Bit(h, 0x800), h % 8, (end - 10 - (start + 3)) * 2 - 4)]
      + MsrApsr(rt) + [PopLow(rt)]
    case WideLoad =>
      var rt := WideLoadRegister(g);
      WideLdr(rt, PC, Label(start, end - 2)) + WideLdr(rt, rt, 0)
    case AddPc =>
      var rd := h % 8;
      var rt := Scratch(rd);
      [PushLow(rt), MovReg(rt, rd), LdrPc(rd, Label(start + 2, end - 2) / 4), AddReg(rd, rt), PopLow(rt)]
    case Wide => [h, g]
    case Narrow => [h]
  }

  /** Code that leaves for a target: bx pc; nop; ldr pc, [pc, #-4]; target */
  function Stub(target: Word): (s: seq<Half>)
    ensures |s| == 6
  {
    [BX_PC, NOP] + Halves(LDR_PC_NEXT) + Halves(target)
  }

  /** x & ~0x2 */
  function WithoutTwo(x: nat): nat { if Bit(x, 2) == 1 then x - 2 else x }

  function FarBits(h: Half, g: Half): nat {
    var s := Bit(h, 0x400);
    s * 0x100_0000 + (if s == Bit(g, 0x2000) then 1 else 0) * 0x80_0000 + (if s == Bit(g, 0x800) then 1 else 0) * 0x40_0000
  }

  function WideJump(h: Half, g: Half): int {
    var low := 1 + g % 0x800 * 2 + h % 0x40 * 0x1000;
    if Bit(g, 0x1000) == 1 then Signed(low + FarBits(h, g) + h / 0x40 % 16 * 0x4_0000, 0x200_0000)
    else Signed(low + Bit(h, 0x400) * 0x10_0000 + Bit(g, 0x800) * 0x8_0000 + Bit(g, 0x2000) * 0x4_0000, 0x20_0000)
  }

  /** The word that the pool keeps for the instruction (h, g) at an address. */
  function Literal(h: Half, g: Half, at: nat): Word {
    match KindOf(h, g)
    case Load => Wrap(WithoutTwo(at + 4) + h % 0x100 * 4)
    case Branch => Wrap(at + 4 + Signed(h % 0x100 * 2 + 1, 0x200))
    case WideBranch => Wrap(at + 4 + WideJump(h, g))
    case Call =>
      Wrap(at + 4 + Signed(FarBits(h, g) + h % 0x400 * 0x1000 + g % 0x800 * 2 + Bit(g, 0x1000), 0x200_0000))
    case Compare => Wrap(at + 4 + 1 + Bit(h, 0x200) * 0x40 + h / 8 % 0x20 * 2)
    case WideLoad => Wrap(WithoutTwo(at + 4) + if Bit(h, 0x80) == 0 then -(g % 0x1000) else g % 0x1000)
    case AddPc => Wrap(at + 4)
    case _ => 0
  }

  /** What the instruction puts at the back, in the order of addresses. */
  function Pool(h: Half, g: Half, at: nat): (s: seq<Half>)
    ensures |s| == Back(KindOf(h, g))
  {
    match KindOf(h, g)
    case Branch => Stub(Literal(h, g, at))
    case WideBranch => Stub(Literal(h, g, at))
    case Compare => var rt := Scratch(h % 8); MsrApsr(rt) + [PopLow(rt), NOP] + Stub(Literal(h, g, at))
    case Wide => []
    case Narrow => []
    case _ => Halves(Literal(h, g, at))
  }

  // --------------------------------------------------------- the second pass

  predicate Holds(out: seq<Half>, at: nat, piece: seq<Half>) {
    at + |piece| <= |out| && forall i :: 0 <= i < |piece| ==> out[at + i] == piece[i]
  }

  /** The buffers agree outside the free part. */
  ghost predicate Outside(was: seq<Half>, now: seq<Half>, start: nat, end: nat) {
    |was| == |now| && forall j :: 0 <= j < |was| && (j < start || end <= j) ==> now[j] == was[j]
  }

  /** Code and pool of the instruction stand in the buffer. */
  ghost predicate Put(out: seq<Half>, h: Half, g: Half, at: nat, start: nat, end: nat) {
    && start + Room(KindOf(h, g)) + 6 <= end <= start + 200 && end <= |out|
    && Holds(out, start, Code(h, g, start, end))
    && Holds(out, end - Back(KindOf(h, g)), Pool(h, g, at))
  }

  /** An instruction of the window and the free part of the buffer as it is written. */
  datatype Piece = Piece(index: nat, h: Half, g: Half, start: nat, end: nat)

  function PieceAt(b: seq<Half>, i: nat, start: nat, end: nat): Piece
    requires i < |b|
  {
    Piece(i, b[i], Second(b, i), start, end)
  }

  /** Where the instructions from index i on come to stand. */
  ghost function Pieces(b: seq<Half>, i: nat, start: nat, end: nat): seq<Piece>
    requires Tiles(b, i) && start + TotalRoom(b, i) <= end
    decreases |b| - i
  {
    if i == |b| then [] else
    TilesStep(b, i);
    var k := KindAt(b, i);
    [PieceAt(b, i, start, end)] + Pieces(b, i + Width(k), start + Front(k), end - Back(k))
  }

  /** The start of the free part once the rest of the window is written. */
  ghost function Finish(b: seq<Half>, i: nat, start: nat): nat
    requires Tiles(b, i)
    decreases |b| - i
  {
    if i == |b| then start else
    TilesStep(b, i);
    Finish(b, i + Width(KindAt(b, i)), start + Front(KindAt(b, i)))
  }

  ghost predicate PutAt(out: seq<Half>, area: nat, p: Piece) {
    Put(out, p.h, p.g, area + 2 * p.index, p.start, p.end)
  }

  ghost predicate AllPut(out: seq<Half>, area: nat, pieces: seq<Piece>) {
    forall p :: p in pieces ==> PutAt(out, area, p)
  }

  /** What was written for p lies outside the free part. */
  ghost predicate Clears(p: Piece, start: nat, end: nat) {
    var k := KindOf(p.h, p.g);
    p.start + Front(k) <= start <= end <= p.end - Back(k)
  }

  ghost predicate AllClear(pieces: seq<Piece>, start: nat, end: nat) {
    forall p :: p in pieces ==> Clears(p, start, end)
  }

  method PutWord(buffer: array<Half>, at: nat, w: Word)
    requires at + 2 <= buffer.Length
    modifies buffer
    ensures Holds(buffer[..], at, Halves(w)) && Outside(old(buffer[..]), buffer[..], at, at + 2)
  {
    buffer[at], buffer[at + 1] := Halves(w)[0], Halves(w)[1];
  }

  /** Three words: the stub that leaves for a target. */
  method PutStub(buffer: array<Half>, at: nat, target: Word)
    requires at + 6 <= buffer.Length
    modifies buffer
    ensures Holds(buffer[..], at, Stub(target)) && Outside(old(buffer[..]), buffer[..], at, at + 6)
  {
    PutWord(buffer, at + 4, target);
    PutWord(buffer, at + 2, LDR_PC_NEXT);
    PutWord(buffer, at, Joined(BX_PC, NOP));
  }

  method PutLoad(buffer: array<Half>, h: Half, g: Half, at: nat, start: nat, end: nat)
    requires KindOf(h, g) == Load && start + 10 <= end <= start + 200 && end <= buffer.Length
    modifies buffer
    ensures Put(buffer[..], h, g, at, start, end) && Outside(old(buffer[..]), buffer[..], start, end)
  {
    var rd := LoadRegister(h);
    buffer[start] := LdrPc(rd, Label(start, end - 2) / 4);
    buffer[start + 1] := LdrSelf(rd);
    PutWord(buffer, end - 2, Literal(h, g, at));
  }

  method PutBranch(buffer: array<Half>, h: Half, g: Half, at: nat, start: nat, end: nat)
    requires KindOf(h, g) == Branch || KindOf(h, g) == WideBranch
    requires start + 13 <= end <= start + 200 && end <= buffer.Length
    modifies buffer
    ensures Put(buffer[..], h, g, at, start, end) && Outside(old(buffer[..]), buffer[..], start, end)
  {
    Conditions(h, g);
    var cond := if IsBranch(h) then h / 0x100 % 16 else WideCondition(h, g);
    buffer[start] := BranchBy(cond, (end - 6 - start) * 2 - 4);
    PutStub(buffer, end - 6, Literal(h, g, at));
  }

  lemma HoldsKept(was: seq<Half>, now: seq<Half>, at: nat, piece: seq<Half>, start: nat, end: nat)
    requires Holds(was, at, piece) && Outside(was, now, start, end) && (at + |piece| <= start || end <= at)
    ensures Holds(now, at, piece)
  {
  }

  method PutFive(buffer: array<Half>, at: nat, u: Half, v: Half, w: Half, x: Half, y: Half)
    requires at + 5 <= buffer.Length
    modifies buffer
    ensures Holds(buffer[..], at, [u, v, w, x, y]) && Outside(old(buffer[..]), buffer[..], at, at + 5)
  {
    buffer[at], buffer[at + 1], buffer[at + 2], buffer[at + 3], buffer[at + 4] := u, v, w, x, y;
  }

  method PutCall(buffer: array<Half>, h: Half, g: Half, at: nat, start: nat, end: nat)
    requires KindOf(h, g) == Call && start + 13 <= end <= start + 200 && end <= buffer.Length
    modifies buffer
    ensures Put(buffer[..], h, g, at, start, end) && Outside(old(buffer[..]), buffer[..], start, end)
  {
    PutFive(buffer, start, PushLow(R7), LdrPc(R7, ((end - 2 - (start + 1)) * 2 - 4 + 2) / 4), MovReg(LR, R7),
            PopLow(R7), BLX_LR);
    ghost var was := buffer[..];
    PutWord(buffer, end - 2, Literal(h, g, at));
    HoldsKept(was, buffer[..], start, Code(h, g, start, end), end - 2, end);
  }

  method PutPair(buffer: array<Half>, at: nat, pair: seq<Half>)
    requires at + 2 <= buffer.Length && |pair| == 2
    modifies buffer
    ensures Holds(buffer[..], at, pair) && Outside(old(buffer[..]), buffer[..], at, at + 2)
  {
    buffer[at], buffer[at + 1] := pair[0], pair[1];
  }

  method PutCompareCode(buffer: array<Half>, start: nat, rt: Low, compare: Half)
    requires start + 7 <= buffer.Length
    modifies buffer
    ensures Holds(buffer[..], start, [PushLow(rt)] + MrsApsr(rt) + [compare] + MsrApsr(rt) + [PopLow(rt)])
    ensures Outside(old(buffer[..]), buffer[..], start, start + 7)
  {
    buffer[start] := PushLow(rt);
    buffer[start + 1], buffer[start + 2] := MrsApsr(rt)[0], MrsApsr(rt)[1];
    buffer[start + 3] := compare;
    buffer[start + 4], buffer[start + 5] := MsrApsr(rt)[0], MsrApsr(rt)[1];
    buffer[start + 6] := PopLow(rt);
  }

  method PutComparePool(buffer: array<Half>, at: nat, rt: Low, target: Word)
    requires at + 10 <= buffer.Length
    modifies buffer
    ensures Holds(buffer[..], at, MsrApsr(rt) + [PopLow(rt), NOP] + Stub(target))
    ensures Outside(old(buffer[..]), buffer[..], at, at + 10)
  {
    PutStub(buffer, at + 4, target);
    ghost var was := buffer[..];
    PutWord(buffer, at + 2, Joined(PopLow(rt), NOP));
    PutWord(buffer, at, Joined(MsrApsr(rt)[0], MsrApsr(rt)[1]));
    HoldsKept(was, buffer[..], at + 4, Stub(target), at, at + 4);
  }

  method PutCompare(buffer: array<Half>, h: Half, g: Half, at: nat, start: nat, end: nat)
    requires KindOf(h, g) == Compare && start + 23 <= end <= start + 200 && end <= buffer.Length
    modifies buffer
    ensures Put(buffer[..], h, g, at, start, end) && Outside(old(buffer[..]), buffer[..], start, end)
  {
    var rt := Scratch(h % 8);
    PutCompareCode(buffer, start, rt, CompareBy(Bit(h, 0x800), h % 8, (end - 10 - (start + 3)) * 2 - 4));
    ghost var was := buffer[..];
    PutComparePool(buffer, end - 10, rt, Literal(h, g, at));
    HoldsKept(was, buffer[..], start, Code(h, g, start, end), end - 10, end);
  }

  method PutWideLoad(buffer: array<Half>, h: Half, g: Half, at: nat, start: nat, end: nat)
    requires KindOf(h, g) == WideLoad && start + 12 <= end <= start + 200 && end <= buffer.Length
    modifies buffer
    ensures Put(buffer[..], h, g, at, start, end) && Outside(old(buffer[..]), buffer[..], start, end)
  {
    var rt := WideLoadRegister(g);
    PutPair(buffer, start, WideLdr(rt, PC, Label(start, end - 2)));
    PutPair(buffer, start + 2, WideLdr(rt, rt, 0));
    ghost var was := buffer[..];
    PutWord(buffer, end - 2, Literal(h, g, at));
    HoldsKept(was, buffer[..], start, Code(h, g, start, end), end - 2, end);
  }

  method PutAddPc(buffer: array<Half>, h: Half, g: Half, at: nat, start: nat, end: nat)
    requires KindOf(h, g) == AddPc && start + 13 <= end <= start + 200 && end <= buffer.Length
    modifies buffer
    ensures Put(buffer[..], h, g, at, start, end) && Outside(old(buffer[..]), buffer[..], start, end)
  {
    var rd := h % 8;
    var rt := Scratch(rd);
    PutFive(buffer, start, PushLow(rt), MovReg(rt, rd), LdrPc(rd, Label(start + 2, end - 2) / 4), AddReg(rd, rt),
            PopLow(rt));
    ghost var was := buffer[..];
    PutWord(buffer, end - 2, Literal(h, g, at));
    HoldsKept(was, buffer[..], start, Code(h, g, start, end), end - 2, end);
  }

  /** An instruction that stays as it is. */
  method PutSame(buffer: array<Half>, h: Half, g: Half, at: nat, start: nat, end: nat)
    requires KindOf(h, g) == Wide || KindOf(h, g) == Narrow
    requires start + Front(KindOf(h, g)) + 6 <= end <= start + 200 && end <= buffer.Length
    modifies buffer
    ensures Put(buffer[..], h, g, at, start, end) && Outside(old(buffer[..]), buffer[..], start, end)
  {
    buffer[start] := h;
    if Is32(h) {
      buffer[start + 1] := g;
    }
  }

  /** add with a high register as its destination: the pass gives up. */
  predicate Refused(h: Half, g: Half) { KindOf(h, g) == AddPc && Bit(h, 0x80) == 1 }

  /** One turn of the second loop. */
  method PutNext(buffer: array<Half>, h: Half, g: Half, at: nat, start: nat, end: nat)
    requires start + Room(KindOf(h, g)) + 6 <= end <= start + 200 && end <= buffer.Length && !Refused(h, g)
    modifies buffer
    ensures Put(buffer[..], h, g, at, start, end) && Outside(old(buffer[..]), buffer[..], start, end)
  {
    match KindOf(h, g) {
      case Load => PutLoad(buffer, h, g, at, start, end);
      case Branch => PutBranch(buffer, h, g, at, start, end);
      case WideBranch => PutBranch(buffer, h, g, at, start, end);
      case Call => PutCall(buffer, h, g, at, start, end);
      case Compare => PutCompare(buffer, h, g, at, start, end);
      case WideLoad => PutWideLoad(buffer, h, g, at, start, end);
      case AddPc => PutAddPc(buffer, h, g, at, start, end);
      case _ => PutSame(buffer, h, g, at, start, end);
    }
  }

  lemma PutKept(was: seq<Half>, now: seq<Half>, area: nat, p: Piece, start: nat, end: nat)
    requires PutAt(was, area, p) && Outside(was, now, start, end) && Clears(p, start, end)
    ensures PutAt(now, area, p)
  {
    HoldsKept(was, now, p.start, Code(p.h, p.g, p.start, p.end), start, end);
    HoldsKept(was, now, p.end - Back(KindOf(p.h, p.g)), Pool(p.h, p.g, area + 2 * p.index), start, end);
  }

  lemma AllKept(was: seq<Half>, now: seq<Half>, area: nat, pieces: seq<Piece>, start: nat, end: nat)
    requires AllPut(was, area, pieces) && Outside(was, now, start, end) && AllClear(pieces, start, end)
    ensures AllPut(now, area, pieces)
  {
    forall p | p in pieces
      ensures PutAt(now, area, p)
    {
      PutKept(was, now, area, p, start, end);
    }
  }

  lemma OneMore(out: seq<Half>, area: nat, pieces: seq<Piece>, p: Piece)
    requires AllPut(out, area, pieces) && AllClear(pieces, p.start, p.end) && PutAt(out, area, p)
    ensures var k := KindOf(p.h, p.g);
            AllPut(out, area, pieces + [p]) && AllClear(pieces + [p], p.start + Front(k), p.end - Back(k))
  {
    var k := KindOf(p.h, p.g);
    forall q | q in pieces + [p]
      ensures PutAt(out, area, q) && Clears(q, p.start + Front(k), p.end - Back(k))
    {
      if q in pieces {
        assert Clears(q, p.start, p.end);
      }
    }
  }

  /** What the second loop has done when it stands at index i. */
  ghost predicate WrittenTo(out: seq<Half>, b: seq<Half>, area: nat, pad: nat, i: nat, start: nat, end: nat, done: seq<Piece>)
  {
    && Tiles(b, 0) && Tiles(b, i) && i <= |b| && end <= |out| && end == start + TotalRoom(b, i) + 6 <= start + 200
    && pad + TotalRoom(b, 0) <= |out|
    && Pieces(b, 0, pad, |out|) == done + Pieces(b, i, start, end) && Finish(b, 0, pad) == Finish(b, i, start)
    && AllPut(out, area, done) && AllClear(done, start, end)
  }

  lemma PiecesStep(b: seq<Half>, i: nat, start: nat, end: nat, done: seq<Piece>)
    requires Tiles(b, i) && i < |b| && start + TotalRoom(b, i) <= end
    ensures i + Width(KindAt(b, i)) <= |b| && Tiles(b, i + Width(KindAt(b, i)))
    ensures TotalRoom(b, i) == Room(KindAt(b, i)) + TotalRoom(b, i + Width(KindAt(b, i)))
    ensures var k := KindAt(b, i);
            done + Pieces(b, i, start, end)
            == done + [PieceAt(b, i, start, end)] + Pieces(b, i + Width(k), start + Front(k), end - Back(k))
    ensures Finish(b, i, start) == Finish(b, i + Width(KindAt(b, i)), start + Front(KindAt(b, i)))
  {
    TilesStep(b, i);
  }

  lemma WrittenNext(was: seq<Half>, now: seq<Half>, b: seq<Half>, area: nat, pad: nat, i: nat, start: nat, end: nat,
                    done: seq<Piece>)
    requires WrittenTo(was, b, area, pad, i, start, end, done) && i < |b|
    requires Outside(was, now, start, end) && PutAt(now, area, PieceAt(b, i, start, end))
    ensures var k := KindAt(b, i);
            WrittenTo(now, b, area, pad, i + Width(k), start + Front(k), end - Back(k), done + [PieceAt(b, i, start, end)])
  {
    PiecesStep(b, i, start, end, done);
    AllKept(was, now, area, done, start, end);
    OneMore(now, area, done, PieceAt(b, i, start, end));
  }

  /** Some add in the window makes the pass give up. */
  ghost predicate Refuses(b: seq<Half>, i: nat)
    requires Tiles(b, i)
    decreases |b| - i
  {
    i < |b| &&
    (TilesStep(b, i);
     Refused(b[i], Second(b, i)) || Refuses(b, i + Width(KindAt(b, i))))
  }

  lemma RefusesStep(b: seq<Half>, i: nat)
    requires Tiles(b, i) && i < |b|
    ensures i + Width(KindAt(b, i)) <= |b| && Tiles(b, i + Width(KindAt(b, i)))
    ensures Refuses(b, i) <==> Refused(b[i], Second(b, i)) || Refuses(b, i + Width(KindAt(b, i)))
  {
    TilesStep(b, i);
  }

  /** One turn of the second loop, unless it gives up. */
  method PutTurn(buffer: array<Half>, b: seq<Half>, area: nat, pad: nat, offset: nat, start: nat, end: nat,
                 ghost done: seq<Piece>) returns (ok: bool, next: nat, front: nat, back: nat, ghost more: seq<Piece>)
    requires WrittenTo(buffer[..], b, area, pad, offset, start, end, done) && offset < |b|
    modifies buffer
    ensures !ok ==> Refuses(b, offset)
    ensures ok ==> offset < next && WrittenTo(buffer[..], b, area, pad, next, front, back, more)
    ensures ok ==> (Refuses(b, offset) <==> Refuses(b, next))
  {
    var h, g := b[offset], Second(b, offset);
    RefusesStep(b, offset);
    ok := !Refused(h, g);
    next, front, back, more := offset, start, end, done;
    if ok {
      next, front, back, more := PutHere(buffer, b, area, pad, offset, start, end, done);
    }
  }

  method PutPiece(buffer: array<Half>, area: nat, p: Piece)
    requires p.start + Room(KindOf(p.h, p.g)) + 6 <= p.end <= p.start + 200 && p.end <= buffer.Length && !Refused(p.h, p.g)
    modifies buffer
    ensures PutAt(buffer[..], area, p) && Outside(old(buffer[..]), buffer[..], p.start, p.end)
  {
    PutNext(buffer, p.h, p.g, area + 2 * p.index, p.start, p.end);
  }

  method PutHere(buffer: array<Half>, b: seq<Half>, area: nat, pad: nat, offset: nat, start: nat, end: nat,
                 ghost done: seq<Piece>) returns (next: nat, front: nat, back: nat, ghost more: seq<Piece>)
    requires WrittenTo(buffer[..], b, area, pad, offset, start, end, done) && offset < |b|
    requires !Refused(b[offset], Second(b, offset))
    modifies buffer
    ensures next == offset + Width(KindAt(b, offset)) && WrittenTo(buffer[..], b, area, pad, next, front, back, more)
  {
    ghost var was := buffer[..];
    var k, p := KindAt(b, offset), PieceAt(b, offset, start, end);
    RoomFor(was, b, area, pad, offset, start, end, done, p);
    PutPiece(buffer, area, p);
    WrittenNext(was, buffer[..], b, area, pad, offset, start, end, done);
    next, front, back, more := offset + Width(k), start + Front(k), end - Back(k), done + [p];
  }

  lemma WrittenStart(out: seq<Half>, b: seq<Half>, area: nat, pad: nat)
    requires Tiles(b, 0) && |b| <= 8 && pad < 2 && |out| == pad + TotalRoom(b, 0) + 6
    ensures WrittenTo(out, b, area, pad, 0, pad, |out|, [])
  {
    RoomBound(b, 0);
    assert [] + Pieces(b, 0, pad, |out|) == Pieces(b, 0, pad, |out|);
  }

  lemma WrittenEnd(out: seq<Half>, b: seq<Half>, area: nat, pad: nat, start: nat, end: nat, done: seq<Piece>)
    requires WrittenTo(out, b, area, pad, |b|, start, end, done)
    ensures start == Finish(b, 0, pad) && end == start + 6 && done == Pieces(b, 0, pad, |out|)
  {
    assert done + Pieces(b, |b|, start, end) == done;
  }

  /** The second loop: it ends with exactly six halfwords free, or gives up. */
  method EmissionPass(buffer: array<Half>, b: seq<Half>, area: nat, pad: nat) returns (ok: bool, start: nat)
    requires Tiles(b, 0) && |b| <= 8 && pad < 2 && buffer.Length == pad + TotalRoom(b, 0) + 6
    modifies buffer
    ensures ok <==> !Refuses(b, 0)
    ensures ok ==> start == Finish(b, 0, pad) && start + 6 <= buffer.Length
    ensures ok ==> WrittenTo(buffer[..], b, area, pad, |b|, start, start + 6, Pieces(b, 0, pad, buffer.Length))
  {
    WrittenStart(buffer[..], b, area, pad);
    start := pad;
    var end: nat := buffer.Length;
    var offset: nat := 0;
    ghost var done: seq<Piece> := [];
    while offset != |b|
      invariant WrittenTo(buffer[..], b, area, pad, offset, start, end, done) && (Refuses(b, offset) <==> Refuses(b, 0))
      decreases |b| - offset
    {
      ok, offset, start, end, done := PutTurn(buffer, b, area, pad, offset, start, end, done);
      if !ok {
        return;
      }
    }
    ok := true;
    WrittenEnd(buffer[..], b, area, pad, start, end, done);
  }

  lemma RoomFor(out: seq<Half>, b: seq<Half>, area: nat, pad: nat, i: nat, start: nat, end: nat, done: seq<Piece>, p: Piece)
    requires WrittenTo(out, b, area, pad, i, start, end, done) && i < |b| && p == PieceAt(b, i, start, end)
    ensures p.start + Room(KindOf(p.h, p.g)) + 6 <= p.end <= p.start + 200 && p.end <= |out|
  {
    RoomLeft(b, i);
  }

  lemma RoomLeft(b: seq<Half>, i: nat)
    requires Tiles(b, i) && i < |b|
    ensures Room(KindAt(b, i)) <= TotalRoom(b, i)
  {
  }

  /** Every instruction of the window is in the buffer, and the way back fills the rest. */
  ghost predicate Relocated(out: seq<Half>, b: seq<Half>, area: nat, pad: nat) {
    && Tiles(b, 0) && |out| == pad + TotalRoom(b, 0) + 6 && |out| % 2 == 0 && Finish(b, 0, pad) + 6 <= |out|
    && AllPut(out, area, Pieces(b, 0, pad, |out|))
    && Holds(out, Finish(b, 0, pad), Stub(Wrap(area + 2 * |b| + 1)))
  }

  /** The six halfwords that remain take the stub that leads behind the window. */
  method PutEnd(buffer: array<Half>, b: seq<Half>, area: nat, pad: nat, start: nat)
    requires Tiles(b, 0) && buffer.Length == pad + TotalRoom(b, 0) + 6 && buffer.Length % 2 == 0
    requires start == Finish(b, 0, pad) && start + 6 <= buffer.Length
    requires WrittenTo(buffer[..], b, area, pad, |b|, start, start + 6, Pieces(b, 0, pad, buffer.Length))
    modifies buffer
    ensures Relocated(buffer[..], b, area, pad)
  {
    ghost var was := buffer[..];
    buffer[start], buffer[start + 1] := BX_PC, NOP;
    PutWord(buffer, start + 2, LDR_PC_NEXT);
    PutWord(buffer, start + 4, Wrap(area + 2 * |b| + 1));
    AllKept(was, buffer[..], area, Pieces(b, 0, pad, buffer.Length), start, start + 6);
  }

  /** The whole relocation: the window is scanned, sized and written. */
  method Relocate(memory: Memory, area: nat) returns (buffer: array<Half>, b: seq<Half>, pad: nat, ok: bool)
    requires area % 2 == 0
    ensures b == Window(memory, |b|) && Tiles(b, 0) && 6 + area / 2 % 2 <= |b| <= 7 + area / 2 % 2
    ensures fresh(buffer) && pad < 2
    ensures ok <==> !Refuses(b, 0)
    ensures ok ==> Relocated(buffer[..], b, area, pad)
  {
    b := Scan(memory, area);
    var length := SizingPass(b);
    pad := length / 2 % 2;
    buffer := new Half[(length + (pad + 2) * 2 + 8) / 2];
    var start;
    ok, start := EmissionPass(buffer, b, area, pad);
    if ok {
      PutEnd(buffer, b, area, pad, start);
    }
  }
}
