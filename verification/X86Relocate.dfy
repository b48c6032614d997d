/**
 The two passes of SubstrateHookFunction (x86-64) over the saved prologue: the
 first computes the size of the relocated code, the second writes it.
 */
module X86Relocate {
  import opened X86Machine
  import opened X86Emit

  type Disassembler = seq<Byte> -> Hde

  /** The decoder's widths cut backup[offset..] into whole instructions. */
  ghost predicate Tiles(hde: Disassembler, backup: seq<Byte>, offset: nat)
    decreases |backup| - offset
  {
    offset == |backup| ||
    (offset < |backup| && Sane(hde(backup[offset..]), backup[offset..]) &&
     Tiles(hde, backup, offset + hde(backup[offset..]).len))
  }

  /** All the code the second pass writes from `offset` on, the first byte at `at`. */
  ghost function Emitted(hde: Disassembler, area: Word, backup: seq<Byte>, offset: nat, at: Word): seq<Byte>
    requires Tiles(hde, backup, offset)
    decreases |backup| - offset
  {
    if offset == |backup| then []
    else
      var code := backup[offset..];
      var h := hde(code);
      var part := Relocated(Plus(area, offset), h, code, at);
      part + Emitted(hde, area, backup, offset + h.len, Plus(at, |part|))
  }

  lemma EmittedStep(hde: Disassembler, area: Word, backup: seq<Byte>, offset: nat, at: Word)
    requires Tiles(hde, backup, offset) && offset < |backup|
    ensures var code := backup[offset..];
            var part := Relocated(Plus(area, offset), hde(code), code, at);
            Emitted(hde, area, backup, offset, at)
            == part + Emitted(hde, area, backup, offset + hde(code).len, Plus(at, |part|))
  {
  }

  lemma EmittedPart(hde: Disassembler, area: Word, all: seq<Byte>, offset: nat, at: Word, code: seq<Byte>, part: seq<Byte>)
    requires Tiles(hde, all, offset) && offset < |all| && code == all[offset..] && Sane(hde(code), code)
    requires part == Relocated(Plus(area, offset), hde(code), code, at)
    ensures Tiles(hde, all, offset + hde(code).len)
    ensures Emitted(hde, area, all, offset, at) == part + Emitted(hde, area, all, offset + hde(code).len, Plus(at, |part|))
  {
    EmittedStep(hde, area, all, offset, at);
  }

  ghost function TotalGrowth(hde: Disassembler, area: Word, backup: seq<Byte>, offset: nat): int
    requires Tiles(hde, backup, offset)
    decreases |backup| - offset
  {
    if offset == |backup| then 0
    else
      var code := backup[offset..];
      Growth(Plus(area, offset), hde(code), code) + TotalGrowth(hde, area, backup, offset + hde(code).len)
  }

  /** The relocated prologue with the jump back behind it. */
  ghost function Image(hde: Disassembler, area: Word, backup: seq<Byte>, at: Word): seq<Byte>
    requires Tiles(hde, backup, 0)
  {
    var body := Emitted(hde, area, backup, 0, at);
    body + JumpBytes(Plus(at, |body|), Plus(area, |backup|))
  }

  lemma {:induction false} EmittedFits(hde: Disassembler, area: Word, backup: seq<Byte>, offset: nat, at: Word)
    requires Tiles(hde, backup, offset)
    ensures |Emitted(hde, area, backup, offset, at)| <= |backup| - offset + TotalGrowth(hde, area, backup, offset)
    decreases |backup| - offset
  {
    if offset < |backup| {
      var code := backup[offset..];
      var h := hde(code);
      RelocatedFits(Plus(area, offset), h, code, at);
      EmittedFits(hde, area, backup, offset + h.len, Plus(at, |Relocated(Plus(area, offset), h, code, at)|));
    }
  }

  /** The length the first pass arrives at. */
  ghost function Length(hde: Disassembler, area: Word, backup: seq<Byte>): int
    requires Tiles(hde, backup, 0)
  {
    |backup| + SizeOfBlindJump(Plus(area, |backup|)) + TotalGrowth(hde, area, backup, 0)
  }

  /** The sizing pass bounds the emission pass, for every window and every place of the buffer. */
  lemma ImageFits(hde: Disassembler, area: Word, backup: seq<Byte>, at: Word)
    requires Tiles(hde, backup, 0)
    ensures |Image(hde, area, backup, at)| <= Length(hde, area, backup)
  {
    EmittedFits(hde, area, backup, 0, at);
  }

  // ---------------------------------------------------------------- first pass

  /** One turn of the sizing loop.  `length` is unsigned: that the subtractions stay
      above zero is part of what is checked. */
  method Resize(from: Word, h: Hde, code: seq<Byte>, before: nat) returns (length: nat)
    requires Sane(h, code) && h.len <= before
    ensures length == before + Growth(from, h, code)
  {
    length := before;
    if IsRip(h) {
      if h.opcode == 0x8b {
        length := length - h.len;
        length := length + SizeOfPushPointer(RipTarget(from, h));
        length := length + SizeOfPop(RipReg(h));
        length := length + SIZE_OF_MOVE64;
      }
    } else if code[0] == 0xe8 {
      var destiny := Target32(from, h, code);
      if ValueAt(code, 1) == 0 {
        length := length - h.len;
        length := length + SizeOfPushPointer(destiny);
      } else {
        length := length + SIZE_OF_SKIP;
        length := length + SizeOfBlindJump(destiny);
      }
    } else if code[0] == 0xeb {
      length := length - h.len;
      length := length + SizeOfBlindJump(Target8(from, h, code));
    } else if code[0] == 0xe9 {
      length := length - h.len;
      length := length + SizeOfBlindJump(Target32(from, h, code));
    } else if IsCond(code[0]) {
      length := length + h.len;
      length := length + SizeOfBlindJump(Target8(from, h, code));
    }
  }

  /** The sizing loop. */
  method SizingPass(hde: Disassembler, area: Word, backup: array<Byte>) returns (length: nat)
    requires Tiles(hde, backup[..], 0)
    ensures length == Length(hde, area, backup[..])
  {
    var used := backup.Length;
    length := used + SizeOfBlindJump(Plus(area, used));
    ghost var all := backup[..];
    var offset := 0;
    while offset != used
      invariant 0 <= offset <= used && Tiles(hde, all, offset)
      invariant length >= used - offset
      invariant length + TotalGrowth(hde, area, all, offset) == Length(hde, area, all)
      decreases used - offset
    {
      var code := backup[offset..];
      assert code == all[offset..];
      var h := hde(code);
      RelocatedFits(Plus(area, offset), h, code, 0);
      length := Resize(Plus(area, offset), h, code, length);
      offset := offset + h.len;
    }
  }

  // --------------------------------------------------------------- second pass

  /** The buffer that the code is written to, the address it is mapped at and the
      cursor `current`. */
  class Writer {
    const buffer: array<Byte>
    const base: Word
    var current: nat

    constructor (length: nat, base: Word)
      ensures fresh(buffer) && buffer.Length == length && this.base == base && current == 0
    {
      buffer := new Byte[length](_ => 0);
      this.base := base;
      current := 0;
    }

    function Here(): Word
      reads this
    {
      Plus(base, current)
    }

    ghost function Written(): seq<Byte>
      reads this, buffer
      requires current <= buffer.Length
    {
      buffer[..current]
    }

    /** MSWrite(buffer, data, size) */
    method Write(data: seq<Byte>)
      requires current + |data| <= buffer.Length
      modifies this`current, buffer
      ensures current == old(current) + |data|
      ensures Written() == old(Written()) + data
    {
      ghost var was := Written();
      for k := 0 to |data|
        invariant current == old(current)
        invariant buffer[..current + k] == was + data[..k]
      {
        buffer[current + k] := data[k];
        assert buffer[..current + k + 1] == buffer[..current + k] + [data[k]];
      }
      current := current + |data|;
    }

    method WriteSkip(size: Word)
      requires current + 5 <= buffer.Length
      modifies this`current, buffer
      ensures current == old(current) + 5
      ensures Written() == old(Written()) + SkipBytes(size)
    {
      Write([0xe9]);
      Write(Bytes32(size % TWO_32));
    }

    /** mov dword [rsp+4], high */
    method WriteHigh(high: nat)
      requires high < TWO_32 && current + 8 <= buffer.Length
      modifies this`current, buffer
      ensures current == old(current) + 8
      ensures Written() == old(Written()) + ([0xc7, 0x44, 0x24, 0x04] + Bytes32(high))
    {
      ghost var was := Written();
      Write([0xc7]);
      Write([0x44]);
      Append(was, [0xc7], [0x44]);
      Write([0x24]);
      Append(was, [0xc7] + [0x44], [0x24]);
      Write([0x04]);
      Append(was, [0xc7] + [0x44] + [0x24], [0x04]);
      assert [0xc7] + [0x44] + [0x24] + [0x04] == [0xc7, 0x44, 0x24, 0x04];
      Write(Bytes32(high));
      Append(was, [0xc7, 0x44, 0x24, 0x04], Bytes32(high));
    }

    method PushPointer(target: Word)
      requires current + SizeOfPushPointer(target) <= buffer.Length
      modifies this`current, buffer
      ensures current == old(current) + SizeOfPushPointer(target)
      ensures Written() == old(Written()) + PushPointerBytes(target)
    {
      ghost var was := Written();
      var low, high := Bytes32(target % TWO_32), target / TWO_32;
      Write([0x68]);
      Write(low);
      Append(was, [0x68], low);
      if high != 0 {
        WriteHigh(high);
        Append(was, [0x68] + low, [0xc7, 0x44, 0x24, 0x04] + Bytes32(high));
      }
    }

    method WriteJump(target: Word)
      requires current + SizeOfJump(target, Here()) <= buffer.Length
      modifies this`current, buffer
      ensures current == old(current) + old(SizeOfJump(target, Here()))
      ensures Written() == old(Written()) + JumpBytes(old(Here()), target)
    {
      var source := Here();
      if Is32BitOffset(target, Plus(source, 5)) {
        WriteSkip(Minus(target, Plus(source, 5)));
      } else {
        PushPointer(target);
        Write([0xc3]);
      }
    }

    method WritePop(target: Reg)
      requires current + SizeOfPop(target) <= buffer.Length
      modifies this`current, buffer
      ensures current == old(current) + SizeOfPop(target)
      ensures Written() == old(Written()) + PopBytes(target)
    {
      if target / 8 != 0 {
        Write([0x41]);
      }
      Write([0x58 + target % 8]);
    }

    method WriteMove64(source: Reg, target: Reg)
      requires current + 3 <= buffer.Length
      modifies this`current, buffer
      ensures current == old(current) + 3
      ensures Written() == old(Written()) + Move64Bytes(source, target)
    {
      Write([0x48 + target / 8 * 4 + source / 8]);
      Write([0x8b]);
      Write([target % 8 * 8 + source % 8]);
    }

    method WriteRipLoad(destiny: Word, r: Reg)
      requires current + |RipLoadBytes(destiny, r)| <= buffer.Length
      modifies this`current, buffer
      ensures current == old(current) + |RipLoadBytes(destiny, r)|
      ensures Written() == old(Written()) + RipLoadBytes(destiny, r)
    {
      ghost var was := Written();
      PushPointer(destiny);
      WritePop(r);
      Append(was, PushPointerBytes(destiny), PopBytes(r));
      WriteMove64(r, r);
      Append(was, PushPointerBytes(destiny) + PopBytes(r), Move64Bytes(r, r));
    }

    method WriteCall(destiny: Word)
      requires current + |CallBytes(Here(), destiny)| <= buffer.Length
      modifies this`current, buffer
      ensures current == old(current) + old(|CallBytes(Here(), destiny)|)
      ensures Written() == old(Written()) + old(CallBytes(Here(), destiny))
    {
      ghost var was, at := Written(), Here();
      Write([0xe8]);
      Write(Bytes32(SIZE_OF_SKIP));
      Append(was, [0xe8], Bytes32(SIZE_OF_SKIP));
      PlusPlus(base, old(current), 5);
      PlusPlus(Plus(base, old(current)), 5, 5);
      PlusPlus(base, old(current), 10);
      var size := SizeOfJump(destiny, Plus(Here(), SIZE_OF_SKIP));
      WriteSkip(size);
      Append(was, [0xe8] + Bytes32(SIZE_OF_SKIP), SkipBytes(size));
      assert Here() == Plus(at, 10);
      WriteJump(destiny);
      Append(was, [0xe8] + Bytes32(SIZE_OF_SKIP) + SkipBytes(size), JumpBytes(Plus(at, 10), destiny));
    }

    /** The conditional jump and the short jump behind it, over `size` bytes. */
    method WriteCondHead(op: Byte, size: Byte)
      requires current + 4 <= buffer.Length
      modifies this`current, buffer
      ensures current == old(current) + 4
      ensures Written() == old(Written()) + [op, 2, 0xeb, size]
    {
      ghost var was := Written();
      Write([op]);
      Write([2]);
      Append(was, [op], [2]);
      Write([0xeb]);
      Append(was, [op] + [2], [0xeb]);
      Write([size]);
      Append(was, [op] + [2] + [0xeb], [size]);
      assert [op] + [2] + [0xeb] + [size] == [op, 2, 0xeb, size];
    }

    method WriteCond(op: Byte, destiny: Word)
      requires current + |CondBytes(Here(), op, destiny)| <= buffer.Length
      modifies this`current, buffer
      ensures current == old(current) + old(|CondBytes(Here(), op, destiny)|)
      ensures Written() == old(Written()) + old(CondBytes(Here(), op, destiny))
    {
      ghost var was, at := Written(), Here();
      PlusPlus(base, current, 4);
      var size := SizeOfJump(destiny, Plus(base, current + 4));
      WriteCondHead(op, size);
      WriteJump(destiny);
      Append(was, [op, 2, 0xeb, size], JumpBytes(Plus(at, 4), destiny));
    }

    /** One turn of the second loop. */
    method WriteRelocated(from: Word, h: Hde, code: seq<Byte>)
      requires Sane(h, code)
      requires current + |Relocated(from, h, code, Here())| <= buffer.Length
      modifies this`current, buffer
      ensures current == old(current) + old(|Relocated(from, h, code, Here())|)
      ensures Written() == old(Written()) + old(Relocated(from, h, code, Here()))
    {
      if IsRip(h) {
        if h.opcode == 0x8b {
          WriteRipLoad(RipTarget(from, h), RipReg(h));
        } else {
          Write(code[..h.len]);
        }
      } else if code[0] == 0xe8 {
        if ValueAt(code, 1) == 0 {
          PushPointer(Plus(from, h.len));
        } else {
          WriteCall(Target32(from, h, code));
        }
      } else if code[0] == 0xeb {
        WriteJump(Target8(from, h, code));
      } else if code[0] == 0xe9 {
        WriteJump(Target32(from, h, code));
      } else if IsCond(code[0]) {
        WriteCond(code[0], Target8(from, h, code));
      } else {
        Write(code[..h.len]);
      }
    }
  }

  /** What is written and what is still to come make up the whole. */
  ghost predicate OnTrack(w: Writer, hde: Disassembler, area: Word, all: seq<Byte>, offset: nat, body: seq<Byte>)
    reads w, w.buffer
  {
    && Tiles(hde, all, offset) && w.current <= |body| <= w.buffer.Length
    && w.Written() + Emitted(hde, area, all, offset, w.Here()) == body
  }

  lemma Regroup(was: seq<Byte>, part: seq<Byte>, rest: seq<Byte>, body: seq<Byte>)
    requires was + (part + rest) == body
    ensures was + part + rest == body && |was + part| <= |body|
  {
  }

  lemma NextCursor(base: Word, was: seq<Byte>, part: seq<Byte>)
    ensures Plus(Plus(base, |was|), |part|) == Plus(base, |was + part|)
  {
    PlusPlus(base, |was|, |part|);
  }

  lemma PartAndRest(hde: Disassembler, area: Word, all: seq<Byte>, offset: nat, here: Word, was: seq<Byte>, body: seq<Byte>,
                    code: seq<Byte>, part: seq<Byte>) returns (rest: seq<Byte>)
    requires Tiles(hde, all, offset) && offset < |all| && code == all[offset..] && Sane(hde(code), code)
    requires was + Emitted(hde, area, all, offset, here) == body
    requires part == Relocated(Plus(area, offset), hde(code), code, here)
    ensures Tiles(hde, all, offset + hde(code).len) && |was + part| <= |body| && was + part + rest == body
    ensures rest == Emitted(hde, area, all, offset + hde(code).len, Plus(here, |part|))
  {
    EmittedPart(hde, area, all, offset, here, code, part);
    rest := Emitted(hde, area, all, offset + hde(code).len, Plus(here, |part|));
    Regroup(was, part, rest, body);
  }

  /** One instruction more of the whole is to be written. */
  lemma Onward(hde: Disassembler, area: Word, all: seq<Byte>, offset: nat, here: Word, was: seq<Byte>, body: seq<Byte>,
               code: seq<Byte>) returns (part: seq<Byte>, rest: seq<Byte>)
    requires Tiles(hde, all, offset) && offset < |all| && code == all[offset..]
    requires was + Emitted(hde, area, all, offset, here) == body
    ensures Sane(hde(code), code) && part == Relocated(Plus(area, offset), hde(code), code, here)
    ensures Tiles(hde, all, offset + hde(code).len) && |was + part| <= |body| && was + part + rest == body
    ensures rest == Emitted(hde, area, all, offset + hde(code).len, Plus(here, |part|))
  {
    part := Relocated(Plus(area, offset), hde(code), code, here);
    rest := PartAndRest(hde, area, all, offset, here, was, body, code, part);
  }

  /** Writing one instruction, `part`, with `rest` still to come. */
  method WriteNext(w: Writer, from: Word, h: Hde, code: seq<Byte>, ghost here: Word, ghost part: seq<Byte>,
                   ghost rest: seq<Byte>, ghost body: seq<Byte>)
    requires Sane(h, code) && w.current <= w.buffer.Length && |body| <= w.buffer.Length
    requires here == w.Here() && part == Relocated(from, h, code, here) && w.Written() + part + rest == body
    modifies w`current, w.buffer
    ensures w.current <= |body| && w.Written() + rest == body && w.Here() == Plus(here, |part|)
  {
    ghost var was := w.Written();
    assert |was + part| <= |body|;
    w.WriteRelocated(from, h, code);
    NextCursor(w.base, was, part);
  }

  lemma TurnParts(w: Writer, hde: Disassembler, area: Word, all: seq<Byte>, offset: nat, body: seq<Byte>, code: seq<Byte>)
      returns (part: seq<Byte>, rest: seq<Byte>)
    requires offset < |all| && OnTrack(w, hde, area, all, offset, body) && code == all[offset..]
    ensures w.current <= w.buffer.Length && |body| <= w.buffer.Length && Sane(hde(code), code)
    ensures part == Relocated(Plus(area, offset), hde(code), code, w.Here()) && w.Written() + part + rest == body
    ensures offset + hde(code).len <= |all| && Tiles(hde, all, offset + hde(code).len)
    ensures rest == Emitted(hde, area, all, offset + hde(code).len, Plus(w.Here(), |part|))
  {
    part, rest := Onward(hde, area, all, offset, w.Here(), w.Written(), body, code);
  }

  lemma StaysOnTrack(w: Writer, hde: Disassembler, area: Word, all: seq<Byte>, next: nat, body: seq<Byte>,
                     rest: seq<Byte>, at: Word)
    requires Tiles(hde, all, next) && rest == Emitted(hde, area, all, next, at) && at == w.Here()
    requires w.current <= |body| <= w.buffer.Length && w.Written() + rest == body
    ensures OnTrack(w, hde, area, all, next, body)
  {
  }

  /** One turn of the second loop, on the bytes of the prologue. */
  method WriteTurn(w: Writer, hde: Disassembler, area: Word, all: seq<Byte>, offset: nat, ghost body: seq<Byte>)
      returns (next: nat)
    requires offset < |all| && OnTrack(w, hde, area, all, offset, body)
    modifies w`current, w.buffer
    ensures offset < next <= |all| && OnTrack(w, hde, area, all, next, body)
  {
    var code := all[offset..];
    ghost var part, rest := TurnParts(w, hde, area, all, offset, body, code);
    var h := hde(code);
    ghost var here := w.Here();
    WriteNext(w, Plus(area, offset), h, code, here, part, rest, body);
    next := offset + h.len;
    StaysOnTrack(w, hde, area, all, next, body, rest, Plus(here, |part|));
  }

  method RelocateNext(w: Writer, hde: Disassembler, area: Word, backup: array<Byte>, offset: nat, ghost body: seq<Byte>)
      returns (next: nat)
    requires offset < backup.Length && backup != w.buffer && OnTrack(w, hde, area, backup[..], offset, body)
    modifies w`current, w.buffer
    ensures offset < next <= backup.Length
    ensures OnTrack(w, hde, area, backup[..], next, body)
  {
    var all := backup[..];
    next := WriteTurn(w, hde, area, all, offset, body);
    assert backup[..] == all;
  }

  /** The second loop. */
  method RelocateAll(w: Writer, hde: Disassembler, area: Word, backup: array<Byte>, ghost body: seq<Byte>)
    requires backup != w.buffer && OnTrack(w, hde, area, backup[..], 0, body)
    modifies w`current, w.buffer
    ensures w.current == |body| <= w.buffer.Length && w.Written() == body
  {
    var used := backup.Length;
    ghost var all := backup[..];
    var offset := 0;
    while offset != used
      invariant 0 <= offset <= used && backup[..] == all
      invariant OnTrack(w, hde, area, all, offset, body)
      decreases used - offset
    {
      offset := RelocateNext(w, hde, area, backup, offset, body);
    }
  }

  /** The jump behind the relocated prologue. */
  method Finish(w: Writer, target: Word, ghost body: seq<Byte>)
    requires w.current == |body| && w.current + |JumpBytes(w.Here(), target)| <= w.buffer.Length && w.Written() == body
    modifies w`current, w.buffer
    ensures w.current <= w.buffer.Length && w.Written() == body + old(JumpBytes(w.Here(), target))
  {
    w.WriteJump(target);
  }

  /** The first pass and the allocation. */
  method Allocate(hde: Disassembler, area: Word, backup: array<Byte>, base: Word) returns (w: Writer)
    requires Tiles(hde, backup[..], 0)
    ensures fresh(w) && fresh(w.buffer) && w.base == base && w.current == 0
    ensures w.buffer.Length == Length(hde, area, backup[..])
  {
    var length := SizingPass(hde, area, backup);
    w := new Writer(length, base);
  }

  lemma AtStart(w: Writer, hde: Disassembler, area: Word, backup: seq<Byte>)
    requires Tiles(hde, backup, 0) && w.current == 0 && w.buffer.Length == Length(hde, area, backup)
    ensures OnTrack(w, hde, area, backup, 0, Emitted(hde, area, backup, 0, w.base))
  {
    EmittedFits(hde, area, backup, 0, w.base);
    var body := Emitted(hde, area, backup, 0, w.base);
    assert w.Here() == w.base;
    assert [] + body == body;
  }

  /** Both passes and the jump back: the buffer is allocated at the size of the first
      pass, is never overrun, and starts with the relocated prologue. */
  method Relocate(hde: Disassembler, area: Word, backup: array<Byte>, base: Word) returns (w: Writer)
    requires Tiles(hde, backup[..], 0)
    ensures fresh(w) && fresh(w.buffer) && w.base == base && w.current <= w.buffer.Length
    ensures w.buffer.Length == Length(hde, area, backup[..])
    ensures w.Written() == Image(hde, area, backup[..], base)
  {
    w := Allocate(hde, area, backup, base);
    ghost var all := backup[..];
    ghost var body := Emitted(hde, area, all, 0, base);
    AtStart(w, hde, area, all);
    ImageFits(hde, area, all, base);
    RelocateAll(w, hde, area, backup, body);
    assert backup[..] == all;
    Finish(w, Plus(area, backup.Length), body);
  }

  lemma PlusPlus(a: Word, j: nat, k: nat)
    ensures Plus(Plus(a, j), k) == Plus(a, j + k)
  {
  }

  /** Redirecting the function: a jump to the replacement and 0x90 up to the next
      whole instruction. */
  method Patch(area: array<Byte>, at: Word, target: Word, used: nat)
    requires SizeOfJump(target, at) <= used <= area.Length
    modifies area
    ensures area[..used] == JumpBytes(at, target) + seq(used - SizeOfJump(target, at), _ => 0x90)
    ensures area[used..] == old(area[used..])
  {
    var jump := JumpBytes(at, target);
    for k := 0 to |jump|
      invariant area[..k] == jump[..k]
      invariant area[used..] == old(area[used..])
    {
      area[k] := jump[k];
    }
    ghost var blanks := seq(used - |jump|, _ => 0x90);
    for k := |jump| to used
      invariant area[..k] == jump + blanks[..k - |jump|]
      invariant area[used..] == old(area[used..])
    {
      area[k] := 0x90;
      assert area[..k + 1] == area[..k] + [0x90];
    }
  }
}
