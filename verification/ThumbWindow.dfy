/**
 A whole relocated window: which of its instructions keep their meaning, told by the
 window and its address alone.  Beyond what each replacement does, the window is
 overwritten, so nothing may lead into it or be read from it, and a condition that an IT
 instruction left pending covers one instruction, not the several that replace it.
 */
module ThumbWindow {
  import opened Thumb
  import opened ThumbIt
  import opened ThumbLayout
  import opened ThumbReach

  // --------------------------------------------------------- the overwritten bytes

  /** The bytes from x on are none of the window's. */
  predicate Untouched(area: nat, n: nat, x: int, bytes: nat) { x + bytes <= area || area + 2 * n <= x }

  /** What the instruction leads to, or loads, is not overwritten; the lowest bit of a
      call's target is no part of the address. */
  predicate Standing(h: Half, g: Half, at: nat, area: nat, n: nat) {
    match KindOf(h, g)
    case Load => Untouched(area, n, LoadTarget(at, h), 4)
    case Branch => Untouched(area, n, BranchTarget(at, h), 1)
    case WideBranch => Untouched(area, n, WideBranchTarget(at, h, g), 1)
    case Call => Untouched(area, n, CallTarget(at, h, g) - Bit(g, 0x1000), 1)
    case Compare => Untouched(area, n, CompareTarget(at, h), 1)
    case WideLoad => Untouched(area, n, WideLoadTarget(at, h, g), 4)
    case _ => true
  }

  // ------------------------------------------------------------ pending conditions

  /** How many instructions the next n halfwords of the buffer are. */
  function Instructions(out: seq<Half>, i: nat, n: nat): nat
    requires i + n <= |out|
    decreases n
  {
    if n == 0 then 0 else
    var w := ScanWidth(out[i]);
    if n <= w then 1 else 1 + Instructions(out, i + w, n - w)
  }

  /** As the instructions of Code count. */
  function Steps(k: Kind): (n: nat)
    ensures n > 0
  {
    match k
    case Load => 2
    case Call => 5
    case Compare => 5
    case WideLoad => 2
    case AddPc => 5
    case _ => 1
  }

  /** What is written in front runs under the condition of the instruction, and a stub,
      which changes to ARM state, under none. */
  ghost predicate Runs(out: seq<Half>, h: Half, g: Half, start: nat, s: It) {
    var k := KindOf(h, g);
    && start + Front(k) <= |out| && RunsAsOne(s, Instructions(out, start, Front(k)))
    && (k == Branch || k == WideBranch ==> NoneAhead(Later(s, 1)))
  }

  /** No condition is pending, or one instruction stays one; a branch ends its block. */
  predicate ItFits(k: Kind, s: It) {
    match k
    case Wide => true
    case Narrow => true
    case Branch => Unconditional(Later(s, 1))
    case WideBranch => Unconditional(Later(s, 1))
    case _ => Unconditional(s)
  }

  lemma NarrowCode(rd: Low, rm: nat, im: nat)
    requires rm < 16
    ensures ScanWidth(PushLow(rd)) == 1 && ScanWidth(PopLow(rd)) == 1 && ScanWidth(LdrPc(rd, im)) == 1
    ensures ScanWidth(LdrSelf(rd)) == 1 && ScanWidth(MovReg(rd, rm)) == 1 && ScanWidth(AddReg(rd, rm)) == 1
  {
  }

  lemma NarrowMov(rd: nat, rm: nat)
    requires rd < 16 && rm < 16
    ensures ScanWidth(MovReg(rd, rm)) == 1
  {
  }

  lemma NarrowJumps(cond: nat, op: nat, rn: Low, im: nat)
    requires cond < 15 && op < 2
    ensures ScanWidth(BranchBy(cond, im)) == 1 && ScanWidth(CompareBy(op, rn, im)) == 1
  {
  }

  lemma WideCode(rt: nat, rn: nat, im: nat, r: Low)
    requires rt < 16 && rn < 16 && im < 0x1000
    ensures ScanWidth(WideLdr(rt, rn, im)[0]) == 2 && ScanWidth(MrsApsr(r)[0]) == 2 && ScanWidth(MsrApsr(r)[0]) == 2
  {
  }

  lemma FiveNarrow(out: seq<Half>, i: nat)
    requires i + 5 <= |out| && forall j :: i <= j < i + 5 ==> ScanWidth(out[j]) == 1
    ensures Instructions(out, i, 5) == 5
  {
    assert Instructions(out, i + 4, 1) == 1;
    assert Instructions(out, i + 3, 2) == 2;
    assert Instructions(out, i + 2, 3) == 3;
  }

  /** push; mrs; cbz; msr; pop */
  lemma CompareCounts(out: seq<Half>, i: nat)
    requires i + 7 <= |out| && ScanWidth(out[i]) == 1 && ScanWidth(out[i + 1]) == 2 && ScanWidth(out[i + 3]) == 1
    requires ScanWidth(out[i + 4]) == 2
    ensures Instructions(out, i, 7) == 5
  {
    assert Instructions(out, i + 6, 1) == 1;
    assert Instructions(out, i + 4, 3) == 2;
    assert Instructions(out, i + 3, 4) == 3;
    assert Instructions(out, i + 1, 6) == 4;
  }

  lemma FiveCounted(out: seq<Half>, h: Half, g: Half, at: nat, start: nat, end: nat)
    requires Put(out, h, g, at, start, end) && (KindOf(h, g) == Call || KindOf(h, g) == AddPc)
    ensures Instructions(out, start, 5) == 5
  {
    var code := Code(h, g, start, end);
    assert out[start + 0] == code[0] && out[start + 1] == code[1] && out[start + 2] == code[2];
    assert out[start + 3] == code[3] && out[start + 4] == code[4];
    if KindOf(h, g) == Call {
      NarrowCode(R7, R7, ((end - 2 - (start + 1)) * 2 - 4 + 2) / 4);
      NarrowMov(LR, R7);
    } else {
      var rd := h % 8;
      var rt := Scratch(rd);
      NarrowCode(rt, rd, 0);
      NarrowCode(rd, rt, Label(start + 2, end - 2) / 4);
    }
    FiveNarrow(out, start);
  }

  lemma CompareCounted(out: seq<Half>, h: Half, g: Half, at: nat, start: nat, end: nat)
    requires Put(out, h, g, at, start, end) && KindOf(h, g) == Compare
    ensures Instructions(out, start, 7) == 5
  {
    CompareSaves(out, h, g, at, start, end);
    var rt := Scratch(h % 8);
    NarrowCode(rt, 0, 0);
    NarrowJumps(0, Bit(h, 0x800), h % 8, (end - 10 - (start + 3)) * 2 - 4);
    WideCode(0, 0, 0, rt);
    CompareCounts(out, start);
  }

  lemma LoadsCounted(out: seq<Half>, h: Half, g: Half, at: nat, start: nat, end: nat)
    requires Put(out, h, g, at, start, end) && (KindOf(h, g) == Load || KindOf(h, g) == WideLoad)
    ensures Instructions(out, start, Front(KindOf(h, g))) == 2
  {
    if KindOf(h, g) == Load {
      var code := Code(h, g, start, end);
      assert out[start + 0] == code[0] && out[start + 1] == code[1];
      NarrowCode(LoadRegister(h), 0, Label(start, end - 2) / 4);
      assert Instructions(out, start + 1, 1) == 1;
    } else {
      WideLoadPut(out, h, g, at, start, end);
      WideCode(WideLoadRegister(g), PC, Label(start, end - 2), 0);
      assert Instructions(out, start + 2, 2) == 1;
    }
  }

  lemma OneCounted(out: seq<Half>, h: Half, g: Half, at: nat, start: nat, end: nat)
    requires Put(out, h, g, at, start, end) && Steps(KindOf(h, g)) == 1
    ensures Instructions(out, start, Front(KindOf(h, g))) == 1
  {
    var code := Code(h, g, start, end);
    assert out[start + 0] == code[0];
    WidthAgrees(h, g);
  }

  /** What Code writes is as many instructions as Steps says. */
  lemma Counted(out: seq<Half>, h: Half, g: Half, at: nat, start: nat, end: nat)
    requires Put(out, h, g, at, start, end)
    ensures Instructions(out, start, Front(KindOf(h, g))) == Steps(KindOf(h, g))
  {
    match KindOf(h, g) {
      case Load => LoadsCounted(out, h, g, at, start, end);
      case WideLoad => LoadsCounted(out, h, g, at, start, end);
      case Call => FiveCounted(out, h, g, at, start, end);
      case AddPc => FiveCounted(out, h, g, at, start, end);
      case Compare => CompareCounted(out, h, g, at, start, end);
      case _ => OneCounted(out, h, g, at, start, end);
    }
  }

  lemma RunsExactly(out: seq<Half>, h: Half, g: Half, at: nat, start: nat, end: nat, s: It)
    requires Put(out, h, g, at, start, end)
    ensures Runs(out, h, g, start, s) <==> ItFits(KindOf(h, g), s)
  {
    Counted(out, h, g, at, start, end);
    RunsAsOneExactly(s, Steps(KindOf(h, g)));
    NothingPending(Later(s, 1));
  }
  // ------------------------------------------------------------- whole windows

  /** What a piece and the later ones take: the free part without the way back. */
  function Taken(p: Piece): int { p.end - p.start - 6 }

  /** A piece with an instruction that is not refused, and room for it and the later ones. */
  ghost predicate Sound(b: seq<Half>, p: Piece) {
    && p.index < |b| && !Refused(p.h, p.g) && p.end % 2 == 0
    && Room(KindOf(p.h, p.g)) <= Taken(p) <= Room(KindOf(p.h, p.g)) + 17 * 7
  }

  lemma BackEven(k: Kind)
    ensures Back(k) % 2 == 0
  {
  }

  /** What is left of the window at index i, and the free part of the buffer for it. */
  ghost predicate Remaining(b: seq<Half>, i: nat, start: nat, end: nat) {
    Tiles(b, i) && !Refuses(b, i) && end == start + TotalRoom(b, i) + 6 && end % 2 == 0
  }

  lemma RemainingStep(b: seq<Half>, i: nat, start: nat, end: nat)
    requires Remaining(b, i, start, end) && i < |b| <= 8
    ensures Sound(b, PieceAt(b, i, start, end)) && Taken(PieceAt(b, i, start, end)) == TotalRoom(b, i)
    ensures var k := KindAt(b, i);
            i + Width(k) <= |b| && Remaining(b, i + Width(k), start + Front(k), end - Back(k))
    ensures var k := KindAt(b, i);
            Pieces(b, i, start, end) == [PieceAt(b, i, start, end)] + Pieces(b, i + Width(k), start + Front(k), end - Back(k))
  {
    RefusesStep(b, i);
    PiecesStep(b, i, start, end, []);
    BackEven(KindAt(b, i));
    GapBound(b, i);
  }

  /** The room of a piece is told by the window and its index in it. */
  ghost predicate RoomIs(b: seq<Half>, p: Piece) { Tiles(b, p.index) && Taken(p) == TotalRoom(b, p.index) }

  ghost predicate PiecesSound(b: seq<Half>, ps: seq<Piece>) {
    forall p :: p in ps ==> Sound(b, p) && RoomIs(b, p)
  }

  lemma {:induction false} AllSound(b: seq<Half>, i: nat, start: nat, end: nat)
    requires Remaining(b, i, start, end) && |b| <= 8
    ensures PiecesSound(b, Pieces(b, i, start, end))
    decreases |b| - i
  {
    if i < |b| {
      RemainingStep(b, i, start, end);
      var k := KindAt(b, i);
      AllSound(b, i + Width(k), start + Front(k), end - Back(k));
    }
  }

  /** One instruction of the window: where the next is, and what it takes of the buffer. */
  lemma FinishTurn(b: seq<Half>, i: nat, start: nat) returns (j: nat, front: nat, half: nat)
    requires Tiles(b, i) && i < |b|
    ensures i < j <= |b| && Tiles(b, j)
    ensures TotalRoom(b, i) == front + 2 * half + TotalRoom(b, j) && Finish(b, i, start) == Finish(b, j, start + front)
  {
    TilesStep(b, i);
    var k := KindAt(b, i);
    j, front, half := i + Width(k), Front(k), Back(k) / 2;
    BackEven(k);
  }

  lemma {:induction false} FinishEven(b: seq<Half>, i: nat, start: nat) returns (half: nat)
    requires Tiles(b, i)
    ensures start + TotalRoom(b, i) == Finish(b, i, start) + 2 * half
    decreases |b| - i
  {
    half := 0;
    if i < |b| {
      var j, front, back := FinishTurn(b, i, start);
      half := FinishEven(b, j, start + front);
      half := half + back;
    }
  }

  lemma GapBound(b: seq<Half>, i: nat)
    requires i < |b| <= 8 && Tiles(b, i)
    ensures Room(KindAt(b, i)) <= TotalRoom(b, i) <= Room(KindAt(b, i)) + 17 * 7
  {
    TilesStep(b, i);
    RoomBound(b, i + Width(KindAt(b, i)));
  }

  /** What was written for p does the work of its instruction, whose pending conditions
      are s: under the same conditions, and with nothing of it overwritten. */
  ghost predicate PieceMeans(out: seq<Half>, base: nat, b: seq<Half>, area: nat, p: Piece, s: It) {
    var at := area + 2 * p.index;
    Means(out, base, p.h, p.g, at, p.start, p.end) && Standing(p.h, p.g, at, area, |b|) && Runs(out, p.h, p.g, p.start, s)
  }

  /** The instruction of p fits: a condition on the window and its address alone. */
  predicate PieceFits(b: seq<Half>, area: nat, p: Piece, s: It) {
    var at := area + 2 * p.index;
    Taken(p) >= 0 && Fits(p.h, p.g, at, Taken(p)) && Standing(p.h, p.g, at, area, |b|) && ItFits(KindOf(p.h, p.g), s)
  }

  /** The buffer and the function's window do not overlap. */
  predicate Mapping(out: seq<Half>, base: nat, b: seq<Half>, area: nat) {
    && base % 4 == 0 && base + 2 * |out| < TWO_32 && |out| % 2 == 0 && area % 2 == 0
    && (area + 2 * |b| <= base || base + 2 * |out| <= area)
  }

  /** A replacement does the work of its instruction exactly when the instruction fits. */
  lemma PutWorks(out: seq<Half>, base: nat, at: nat, p: Piece, room: nat)
    requires Put(out, p.h, p.g, at, p.start, p.end) && Mapped(out, base, p.end) && Apart(out, base, at) && !Refused(p.h, p.g)
    requires p.end == p.start + room + 6 && Room(KindOf(p.h, p.g)) <= room <= Room(KindOf(p.h, p.g)) + 17 * 7
    ensures Means(out, base, p.h, p.g, at, p.start, p.end) <==> Fits(p.h, p.g, at, room)
  {
    var h, g, start, end := p.h, p.g, p.start, p.end;
    match KindOf(h, g) {
      case Load => LoadWorks(out, base, h, g, at, start, end);
      case Branch => BranchWorks(out, base, h, g, at, start, end);
      case WideBranch => BranchWorks(out, base, h, g, at, start, end);
      case Call => CallWorks(out, base, h, g, at, start, end);
      case Compare => CompareWorks(out, base, h, g, at, start, end);
      case WideLoad => WideLoadWorks(out, base, h, g, at, start, end);
      case AddPc => AddWorks(out, base, h, g, at, start, end);
      case _ => SameWorks(out, base, h, g, at, start, end);
    }
  }

  lemma IndexApart(out: seq<Half>, base: nat, b: seq<Half>, area: nat, i: nat)
    requires Mapping(out, base, b, area) && i < |b|
    ensures Apart(out, base, area + 2 * i)
  {
  }

  /** The same with what is pending, room being what the piece and the later ones take. */
  lemma CodeWorks(out: seq<Half>, base: nat, at: nat, p: Piece, room: nat, s: It)
    requires Put(out, p.h, p.g, at, p.start, p.end) && Mapped(out, base, p.end) && Apart(out, base, at) && !Refused(p.h, p.g)
    requires p.end == p.start + room + 6 && Room(KindOf(p.h, p.g)) <= room <= Room(KindOf(p.h, p.g)) + 17 * 7
    ensures Means(out, base, p.h, p.g, at, p.start, p.end) && Runs(out, p.h, p.g, p.start, s)
       <==> Fits(p.h, p.g, at, room) && ItFits(KindOf(p.h, p.g), s)
  {
    PutWorks(out, base, at, p, room);
    RunsExactly(out, p.h, p.g, at, p.start, p.end, s);
  }

  /** Every instruction of the window keeps its meaning if and only if it fits. */
  lemma PieceWorks(out: seq<Half>, base: nat, b: seq<Half>, area: nat, p: Piece, s: It)
    requires Sound(b, p) && PutAt(out, area, p) && Mapping(out, base, b, area)
    ensures PieceMeans(out, base, b, area, p, s) <==> PieceFits(b, area, p, s)
  {
    IndexApart(out, base, b, area, p.index);
    CodeWorks(out, base, area + 2 * p.index, p, Taken(p), s);
  }

  lemma WayBack(out: seq<Half>, b: seq<Half>, area: nat, pad: nat)
    requires Relocated(out, b, area, pad)
    ensures LeavesFor(out, Finish(b, 0, pad), Wrap(area + 2 * |b| + 1))
  {
    var half := FinishEven(b, 0, pad);
    EvenRest(|out|, Finish(b, 0, pad), half);
    StubLeaves(out, Finish(b, 0, pad), Wrap(area + 2 * |b| + 1));
  }

  lemma EvenRest(n: nat, f: nat, half: nat)
    requires n % 2 == 0 && n == f + 2 * half + 6
    ensures f % 2 == 0
  {
  }

  /** The pending conditions in the buffer behind what was written for p. */
  function CopyAfter(out: seq<Half>, p: Piece, t: It): It
    requires p.start + Front(KindOf(p.h, p.g)) <= |out|
  {
    if IsIt(p.h) then p.h % 0x100 else Later(t, Instructions(out, p.start, Front(KindOf(p.h, p.g))))
  }

  /** What was written for the pieces does what their instructions do: the same conditions
      are pending there (t) as in the window (s), each piece keeps its meaning, and the way
      back behind the last one is taken whatever the flags are. */
  ghost predicate CopyMeans(out: seq<Half>, base: nat, b: seq<Half>, area: nat, ps: seq<Piece>, s: It, t: It) {
    SameAhead(t, s) &&
    if ps == [] then NoneAhead(s) else
    PieceMeans(out, base, b, area, ps[0], s) && CopyMeans(out, base, b, area, ps[1..], After(s, ps[0].h), CopyAfter(out, ps[0], t))
  }

  /** Every instruction fits, and no condition reaches past the last. */
  predicate AllFit(b: seq<Half>, area: nat, ps: seq<Piece>, s: It) {
    if ps == [] then Unconditional(s) else
    PieceFits(b, area, ps[0], s) && AllFit(b, area, ps[1..], After(s, ps[0].h))
  }

  lemma ConditionsFollow(out: seq<Half>, p: Piece, s: It, t: It)
    requires SameAhead(t, s) && Runs(out, p.h, p.g, p.start, s)
    ensures SameAhead(CopyAfter(out, p, t), After(s, p.h))
  {
    if !IsIt(p.h) {
      CopyStep(t, s, Instructions(out, p.start, Front(KindOf(p.h, p.g))));
      assert Later(s, 1) == Advance(s);
    }
  }

  /** Whatever is pending, the piece keeps its meaning exactly if it fits. */
  ghost predicate Exact(out: seq<Half>, base: nat, b: seq<Half>, area: nat, p: Piece) {
    forall s :: PieceMeans(out, base, b, area, p, s) <==> PieceFits(b, area, p, s)
  }

  ghost predicate AllExact(out: seq<Half>, base: nat, b: seq<Half>, area: nat, ps: seq<Piece>) {
    forall p :: p in ps ==> Exact(out, base, b, area, p)
  }

  lemma {:induction false} CopyWorks(out: seq<Half>, base: nat, b: seq<Half>, area: nat, ps: seq<Piece>, s: It, t: It)
    requires AllExact(out, base, b, area, ps) && SameAhead(t, s)
    ensures CopyMeans(out, base, b, area, ps, s, t) <==> AllFit(b, area, ps, s)
  {
    if ps == [] {
      NothingPending(s);
    } else {
      assert Exact(out, base, b, area, ps[0]);
      if PieceMeans(out, base, b, area, ps[0], s) {
        ConditionsFollow(out, ps[0], s, t);
        CopyWorks(out, base, b, area, ps[1..], After(s, ps[0].h), CopyAfter(out, ps[0], t));
      }
    }
  }

  lemma PiecesExact(out: seq<Half>, base: nat, b: seq<Half>, area: nat, pad: nat)
    requires Relocated(out, b, area, pad) && |b| <= 8 && !Refuses(b, 0) && Mapping(out, base, b, area)
    ensures AllExact(out, base, b, area, Pieces(b, 0, pad, |out|))
  {
    AllSound(b, 0, pad, |out|);
    forall p, s | p in Pieces(b, 0, pad, |out|)
      ensures PieceMeans(out, base, b, area, p, s) <==> PieceFits(b, area, p, s)
    {
      assert Sound(b, p) && PutAt(out, area, p);
      PieceWorks(out, base, b, area, p, s);
    }
  }

  /** Every relocated window leads back behind itself.  It does what the function's first
      instructions do if and only if each of them fits and no condition reaches past them;
      and each replacement alone keeps its instruction's meaning if and only if that fits. */
  lemma WindowWorks(out: seq<Half>, base: nat, b: seq<Half>, area: nat, pad: nat)
    requires Relocated(out, b, area, pad) && |b| <= 8 && !Refuses(b, 0) && Mapping(out, base, b, area)
    ensures LeavesFor(out, Finish(b, 0, pad), Wrap(area + 2 * |b| + 1))
    ensures var ps := Pieces(b, 0, pad, |out|);
            && (CopyMeans(out, base, b, area, ps, 0, 0) <==> AllFit(b, area, ps, 0))
            && AllExact(out, base, b, area, ps) && PiecesSound(b, ps)
  {
    WayBack(out, b, area, pad);
    AllSound(b, 0, pad, |out|);
    PiecesExact(out, base, b, area, pad);
    CopyWorks(out, base, b, area, Pieces(b, 0, pad, |out|), 0, 0);
  }

  // -------------------------------------------------- the families that do not fit

  /** In a window of nothing but cbz and cbnz only the last four fit. */
  lemma {:induction false} ManyCompares(b: seq<Half>, i: nat, at: nat)
    requires i <= |b| && forall j :: i <= j < |b| ==> IsCompare(b[j])
    ensures Tiles(b, i) && !Refuses(b, i) && TotalRoom(b, i) == 17 * (|b| - i)
    ensures i < |b| ==> KindAt(b, i) == Compare && (Fits(b[i], Second(b, i), at, TotalRoom(b, i)) <==> |b| - i <= 4)
    decreases |b| - i
  {
    if i < |b| {
      CompareKind(b[i], Second(b, i));
      ManyCompares(b, i + 1, at);
    }
  }

  lemma CompareKind(h: Half, g: Half)
    requires IsCompare(h)
    ensures KindOf(h, g) == Compare && ScanWidth(h) == 1
  {
  }

  /** blx in the second half of a word, whatever its offset, and each load of the pc. */
  lemma Misfits(s: nat, x: nat, y: nat, j: nat, u: nat, im: nat, at: nat, room: nat)
    requires at % 4 == 2 && s < 2 && x < 0x400 && y < 0x400 && j < 4 && u < 2 && im < 0x1000
    ensures var h, g := 0xf000 + s * 0x400 + x, 0xc000 + j / 2 * 0x2000 + j % 2 * 0x800 + y * 2;
            KindOf(h, g) == Call && !Fits(h, g, at, room)
    ensures var h, g := 0xf85f + u * 0x80, 0xf000 + im; KindOf(h, g) == WideLoad && !Fits(h, g, at, room)
  {
    BlxForm(s * 0x400 + x, j / 2, j % 2, y);
    assert (0xf000 + im) / 0x1000 == 15;
  }

  lemma BlxForm(x: nat, i: nat, j: nat, y: nat)
    requires x < 0x800 && i < 2 && j < 2 && y < 0x400
    ensures var h, g := 0xf000 + x, 0xc000 + i * 0x2000 + j * 0x800 + y * 2;
            h / 0x800 == 0x1e && g / 0x4000 == 3 && Bit(g, 0x1000) == 0 && g % 2 == 0
  {
    var z := i * 0x1000 + j * 0x400 + y;
    assert i * 0x2000 + j * 0x800 + y * 2 == 2 * z;
    BlxLow(i, j * 0x800 + y * 2);
  }

  lemma BlxLow(i: nat, low: nat)
    requires i < 2 && low < 0x1000
    ensures (0xc000 + i * 0x2000 + low) / 0x1000 == 0xc + 2 * i
  {
  }

  /** 16-bit readers of the pc that are copied: adr, b, and add, cmp, mov and bx on it. */
  lemma ShortReaders(h: Half, g: Half, rd: nat, rm: nat, at: nat, room: nat)
    requires rd < 16 && rm < 15
    requires h / 0x800 == 0x14 || h / 0x800 == 0x1c || h == MovReg(rd, PC) || h == AddReg(PC, rm) || h == BX_PC
    ensures KindOf(h, g) == Narrow && !Fits(h, g, at, room)
  {
    if h == MovReg(rd, PC) {
      PcSource(rd / 8, rd % 8);
    } else if h == AddReg(PC, rm) {
      PcGoal(rm);
    }
  }

  lemma PcSource(high: nat, low: nat)
    requires high < 2 && low < 8
    ensures var h := 0x4600 + high * 0x80 + PC * 8 + low; h / 0x400 == 0x11 && h / 8 % 16 == PC && h / 0x100 == 0x46
  {
  }

  lemma PcGoal(rm: nat)
    requires rm < 15
    ensures var h := 0x4480 + rm * 8 + 7;
            h / 0x400 == 0x11 && h / 0x200 % 2 == 0 && Bit(h, 0x80) == 1 && h % 8 == 7 && h / 0x100 == 0x44 && h / 8 % 16 == rm
  {
  }

  /** What a 32-bit instruction that is copied and reads the pc comes to. */
  predicate Reader(h: Half, g: Half, at: nat, room: nat) { KindOf(h, g) == Wide && ReadsPc(h, g) && !Fits(h, g, at, room) }

  /** tbb [rn, rm] and tbh [rn, rm, lsl #1] for every pair of registers */
  lemma TableBranches(rn: nat, rm: nat, wide: nat, at: nat, room: nat)
    requires rn < 16 && rm < 16 && wide < 2
    ensures Reader(0xe8d0 + rn, 0xf000 + wide * 0x10 + rm, at, room)
  {
  }

  /** adr rd, label, ahead (0xf20f) and back (0xf2af) */
  lemma WideAddresses(i: nat, g: Half, at: nat, room: nat)
    requires i < 2 && g < 0x8000
    ensures Reader(0xf20f + i * 0x400, g, at, room) && Reader(0xf2af + i * 0x400, g, at, room)
  {
  }

  /** ldrb, ldrh, ldrsb and ldrsh with a label: sign, direction and size */
  lemma LabelLoads(s: nat, u: nat, size: nat, g: Half, at: nat, room: nat)
    requires s < 2 && u < 2 && size < 2
    ensures Reader(0xf81f + s * 0x100 + u * 0x80 + size * 0x20, g, at, room)
  {
  }

  /** ldrd, and vldr and ldc and their second forms, with a label */
  lemma LongLoads(u: nat, d: nat, second: nat, g: Half, at: nat, room: nat)
    requires u < 2 && d < 2 && second < 2
    ensures Reader(0xe95f + u * 0x80, g, at, room) && Reader(0xed1f + second * 0x1000 + u * 0x80 + d * 0x40, g, at, room)
  {
  }

  /** All 32-bit readers of the pc, by their encodings. */
  lemma WideReaders(h: Half, g: Half, at: nat, room: nat)
    requires IsTableBranch(h, g) || IsWideAdr(h, g) || IsPairLoad(h) || IsCoprocessorLoad(h) || (IsLiteralLoad(h) && !IsWideLoad(h))
    ensures Reader(h, g, at, room)
  {
  }

  /** Behind an IT instruction with a condition no replacement of several instructions
      fits, and a window must not end there. */
  lemma BehindIt(b: seq<Half>, area: nat, p: Piece, s: It, h: Half)
    requires IsIt(h) && h / 0x10 % 0x10 != AL
    ensures var t := After(s, h); Steps(KindOf(p.h, p.g)) > 1 ==> !PieceFits(b, area, p, t)
    ensures !AllFit(b, area, [], After(s, h))
  {
    var t := After(s, h);
    assert t / 0x10 == h / 0x10 % 0x10;
    assert t > 0;
  }

  /** A literal in the window: exactly when the offset does not lead past its end. */
  lemma LiteralInTheWindow(area: nat, n: nat, i: nat, rd: Low, im: nat, g: Half)
    requires i < n && area % 2 == 0 && im < 0x100 && area + 2 * n + 0x400 < TWO_32
    ensures KindOf(LdrPc(rd, im), g) == Load
    ensures Standing(LdrPc(rd, im), g, area + 2 * i, area, n) <==> area + 2 * n <= Aligned(area + 2 * i + 4) + 4 * im
  {
    LdrFields(rd, im);
    LiteralNear(area + 2 * i);
    WrapSmall(Aligned(area + 2 * i + 4) + im * 4);
  }

  lemma LiteralNear(at: nat)
    requires at % 2 == 0
    ensures at + 2 <= Aligned(at + 4) <= at + 4
  {
  }

  /** A target in the window: a conditional branch back by k halfwords, exactly when that
      many are before it. */
  lemma TargetInTheWindow(area: nat, n: nat, i: nat, cond: nat, k: nat, g: Half)
    requires i < n && cond < AL && k < 0x7f && 0x100 <= area && area + 2 * n < TWO_32
    ensures var h := 0xd0fe + cond * 0x100 - k;
            h < TWO_16 && KindOf(h, g) == Branch && (Standing(h, g, area + 2 * i, area, n) <==> i < k)
  {
    BackBranch(cond, k, g);
    BackTarget(area + 2 * i, cond, k);
  }

  lemma BackBranch(cond: nat, k: nat, g: Half)
    requires cond < AL && k < 0x7f
    ensures var h := 0xd0fe + cond * 0x100 - k; h < TWO_16 && KindOf(h, g) == Branch && h / 0x800 != 0x1c && h % 0x100 == 0xfe - k
  {
  }

  /** 0xfe is two halfwords back from the pc, to the branch itself. */
  lemma BackTarget(at: nat, cond: nat, k: nat)
    requires cond < AL && k < 0x7f && 2 * k <= at < TWO_32
    ensures BranchTarget(at, 0xd0fe + cond * 0x100 - k) == at - 2 * k
  {
    BackBranch(cond, k, 0);
    assert Signed((0xfe - k) * 2, 0x200) == -4 - 2 * k;
    WrapSmall(at - 2 * k);
  }
}
