/**
 Relocation preserves meaning: the emitted buffer simulates the saved prologue
 instruction by instruction.
 */
module X86Meaning {
  import opened X86Machine
  import opened X86Emit
  import opened X86Relocate
  import X86Run

  /** A function at `area` whose first bytes `backup` were relocated to `buffer`, and
      what the second pass writes for the instruction at an offset at an address. */
  datatype Site = Site(isa: Isa, hde: Disassembler, area: Word, backup: seq<Byte>, buffer: Code,
                       emit: (nat, Word) -> seq<Byte>)

  function Original(w: Site): Code { Code(w.area, w.backup) }

  function Rest(w: Site, offset: nat): seq<Byte>
    requires offset <= |w.backup|
  {
    w.backup[offset..]
  }

  function Report(w: Site, offset: nat): Hde
    requires offset <= |w.backup|
  {
    w.hde(Rest(w, offset))
  }

  ghost predicate EmitsHere(w: Site, offset: nat, at: Word)
    requires offset < |w.backup|
  {
    Sane(Report(w, offset), Rest(w, offset)) ==>
    w.emit(offset, at) == Relocated(Plus(w.area, offset), Report(w, offset), Rest(w, offset), at)
  }

  ghost predicate Emits(w: Site) {
    forall offset: nat, at: Word :: offset < |w.backup| ==> EmitsHere(w, offset, at)
  }

  // -------------------------------------------------------------- boundaries

  /** An instruction of the window starts at `offset`, or it is the end. */
  ghost predicate OnBoundary(w: Site, from: nat, offset: nat)
    requires Tiles(w.hde, w.backup, from)
    decreases |w.backup| - from
  {
    from == offset || (from < |w.backup| && OnBoundary(w, from + Report(w, from).len, offset))
  }

  /** Where the code for the instruction at `offset` starts, if that for `from` starts at `at`. */
  ghost function PlaceFrom(w: Site, from: nat, at: Word, offset: nat): Word
    requires Tiles(w.hde, w.backup, from) && OnBoundary(w, from, offset)
    decreases |w.backup| - from
  {
    if from == offset then at
    else PlaceFrom(w, from + Report(w, from).len, Plus(at, |w.emit(from, at)|), offset)
  }

  ghost function Place(w: Site, offset: nat): Word
    requires Tiles(w.hde, w.backup, 0) && OnBoundary(w, 0, offset)
  {
    PlaceFrom(w, 0, w.buffer.base, offset)
  }

  lemma {:induction false} NextBoundary(w: Site, from: nat, at: Word, offset: nat)
    requires Tiles(w.hde, w.backup, from) && OnBoundary(w, from, offset) && offset < |w.backup|
    ensures Tiles(w.hde, w.backup, offset)
    ensures var next := offset + Report(w, offset).len;
            OnBoundary(w, from, next) && next <= |w.backup| &&
            PlaceFrom(w, from, at, next)
            == Plus(PlaceFrom(w, from, at, offset), |w.emit(offset, PlaceFrom(w, from, at, offset))|)
    decreases |w.backup| - from
  {
    if from == offset {
      var next := offset + Report(w, offset).len;
      assert OnBoundary(w, next, next);
    } else {
      NextBoundary(w, from + Report(w, from).len, Plus(at, |w.emit(from, at)|), offset);
      BoundaryAfter(w, from + Report(w, from).len, offset);
    }
  }

  lemma {:induction false} BoundaryAfter(w: Site, from: nat, offset: nat)
    requires Tiles(w.hde, w.backup, from) && OnBoundary(w, from, offset)
    ensures from <= offset <= |w.backup|
    decreases |w.backup| - from
  {
    if from != offset {
      BoundaryAfter(w, from + Report(w, from).len, offset);
    }
  }

  /** All that is emitted from `from` on, and `tail`. */
  ghost function All(w: Site, from: nat, at: Word, tail: seq<Byte>): seq<Byte>
    requires Tiles(w.hde, w.backup, from)
    decreases |w.backup| - from
  {
    if from == |w.backup| then tail
    else
      var part := w.emit(from, at);
      part + All(w, from + Report(w, from).len, Plus(at, |part|), tail)
  }

  lemma EmittedFirst(w: Site, from: nat, at: Word)
    requires Emits(w) && Tiles(w.hde, w.backup, from) && from < |w.backup|
    ensures var part := w.emit(from, at);
            Emitted(w.hde, w.area, w.backup, from, at)
            == part + Emitted(w.hde, w.area, w.backup, from + Report(w, from).len, Plus(at, |part|))
  {
    var part := w.emit(from, at);
    assert part == Relocated(Plus(w.area, from), Report(w, from), Rest(w, from), at) by {
      EmitsAt(w, from, at);
    }
    EmittedPart(w.hde, w.area, w.backup, from, at, Rest(w, from), part);
  }

  lemma EmitsAt(w: Site, offset: nat, at: Word)
    requires Emits(w) && offset < |w.backup| && Sane(Report(w, offset), Rest(w, offset))
    ensures w.emit(offset, at) == Relocated(Plus(w.area, offset), Report(w, offset), Rest(w, offset), at)
  {
    assert EmitsHere(w, offset, at);
  }

  lemma AllFirst(w: Site, from: nat, at: Word, tail: seq<Byte>, rest: seq<Byte>)
    requires Tiles(w.hde, w.backup, from) && from < |w.backup|
    requires All(w, from + Report(w, from).len, Plus(at, |w.emit(from, at)|), tail) == rest + tail
    ensures All(w, from, at, tail) == w.emit(from, at) + rest + tail
  {
    Prefixed(w.emit(from, at), rest, tail, All(w, from + Report(w, from).len, Plus(at, |w.emit(from, at)|), tail));
  }

  lemma Prefixed(part: seq<Byte>, rest: seq<Byte>, tail: seq<Byte>, all: seq<Byte>)
    requires all == rest + tail
    ensures part + all == part + rest + tail
  {
  }

  lemma AllNext(w: Site, from: nat, at: Word, tail: seq<Byte>)
    requires Emits(w) && Tiles(w.hde, w.backup, from) && from < |w.backup|
    requires var next, after := from + Report(w, from).len, Plus(at, |w.emit(from, at)|);
             All(w, next, after, tail) == Emitted(w.hde, w.area, w.backup, next, after) + tail
    ensures All(w, from, at, tail) == Emitted(w.hde, w.area, w.backup, from, at) + tail
  {
    EmittedFirst(w, from, at);
    AllFirst(w, from, at, tail,
             Emitted(w.hde, w.area, w.backup, from + Report(w, from).len, Plus(at, |w.emit(from, at)|)));
  }

  lemma {:induction false} AllEmitted(w: Site, from: nat, at: Word, tail: seq<Byte>)
    requires Emits(w) && Tiles(w.hde, w.backup, from)
    ensures All(w, from, at, tail) == Emitted(w.hde, w.area, w.backup, from, at) + tail
    decreases |w.backup| - from
  {
    if from == |w.backup| {
      assert [] + tail == tail;
    } else {
      AllEmitted(w, from + Report(w, from).len, Plus(at, |w.emit(from, at)|), tail);
      AllNext(w, from, at, tail);
    }
  }

  /** The jump behind the relocated prologue. */
  ghost function Back(w: Site): seq<Byte>
    requires Tiles(w.hde, w.backup, 0)
  {
    JumpBytes(Plus(w.buffer.base, |All(w, 0, w.buffer.base, [])|), Plus(w.area, |w.backup|))
  }

  /** At the place of a boundary stands all the code from there on. */
  lemma {:induction false} Located(w: Site, from: nat, at: Word, offset: nat, tail: seq<Byte>)
    requires Tiles(w.hde, w.backup, from) && OnBoundary(w, from, offset)
    requires X86Run.Mapped(w.buffer) && w.buffer.base <= at
    requires X86Run.At(w.buffer, at - w.buffer.base, All(w, from, at, tail))
    ensures var place := PlaceFrom(w, from, at, offset);
            Tiles(w.hde, w.backup, offset) && w.buffer.base <= place &&
            X86Run.At(w.buffer, place - w.buffer.base, All(w, offset, place, tail))
    decreases |w.backup| - from
  {
    if from != offset {
      var part := w.emit(from, at);
      var next := from + Report(w, from).len;
      FetchPart(w.buffer, at, part, All(w, next, Plus(at, |part|), tail));
      Located(w, next, Plus(at, |part|), offset, tail);
    }
  }

  lemma FetchPart(code: Code, place: Word, part: seq<Byte>, tail: seq<Byte>)
    requires X86Run.Mapped(code) && code.base <= place && X86Run.At(code, place - code.base, part + tail)
    ensures X86Run.At(code, place - code.base, part) && Plus(place, |part|) == place + |part|
    ensures X86Run.At(code, place + |part| - code.base, tail)
  {
    X86Run.AtHead(code, place - code.base, part, tail);
    X86Run.NextPlace(code, place - code.base, part, place);
  }

  /** The buffer holds all that the second pass wrote. */
  ghost predicate Laid(w: Site) {
    && Tiles(w.hde, w.backup, 0) && X86Run.Mapped(w.buffer)
    && X86Run.At(w.buffer, 0, All(w, 0, w.buffer.base, Back(w)))
  }

  lemma Whole(w: Site)
    requires Tiles(w.hde, w.backup, 0) && X86Run.Mapped(w.buffer) && Emits(w)
    requires w.buffer.bytes == Image(w.hde, w.area, w.backup, w.buffer.base)
    ensures Laid(w)
  {
    var body := Emitted(w.hde, w.area, w.backup, 0, w.buffer.base);
    AllEmitted(w, 0, w.buffer.base, []);
    assert body + [] == body;
    AllEmitted(w, 0, w.buffer.base, Back(w));
  }

  lemma Reach(w: Site, offset: nat)
    requires Laid(w) && OnBoundary(w, 0, offset)
    ensures Tiles(w.hde, w.backup, offset)
    ensures var place := Place(w, offset);
            w.buffer.base <= place && X86Run.At(w.buffer, place - w.buffer.base, All(w, offset, place, Back(w)))
  {
    Located(w, 0, w.buffer.base, offset, Back(w));
  }

  /** The code at a boundary of the window is what the second pass wrote for it, and the
      next boundary follows. */
  lemma Fetch(w: Site, offset: nat)
    requires Laid(w) && OnBoundary(w, 0, offset) && offset < |w.backup|
    ensures var place := Place(w, offset); var next := offset + Report(w, offset).len;
            Tiles(w.hde, w.backup, offset) &&
            var part := w.emit(offset, place);
            w.buffer.base <= place && X86Run.At(w.buffer, place - w.buffer.base, part) &&
            OnBoundary(w, 0, next) && next <= |w.backup| && Place(w, next) == place + |part|
  {
    var place := Place(w, offset);
    var part := w.emit(offset, place);
    NextBoundary(w, 0, w.buffer.base, offset);
    Reach(w, offset);
    FetchPart(w.buffer, place, part, All(w, offset + Report(w, offset).len, Plus(place, |part|), Back(w)));
  }

  /** Behind the last instruction stands the jump back. */
  lemma FetchBack(w: Site)
    requires Laid(w) && OnBoundary(w, 0, |w.backup|)
    ensures var place := Place(w, |w.backup|);
            w.buffer.base <= place && X86Run.At(w.buffer, place - w.buffer.base, Back(w))
  {
    Reach(w, |w.backup|);
  }

  lemma BackPlace(w: Site)
    requires Tiles(w.hde, w.backup, 0) && OnBoundary(w, 0, |w.backup|)
    ensures Back(w) == JumpBytes(Place(w, |w.backup|), Plus(w.area, |w.backup|))
  {
    LastPlace(w, 0, w.buffer.base);
  }

  lemma {:induction false} LastPlace(w: Site, from: nat, at: Word)
    requires Tiles(w.hde, w.backup, from) && OnBoundary(w, from, |w.backup|)
    ensures PlaceFrom(w, from, at, |w.backup|) == Plus(at, |All(w, from, at, [])|)
    decreases |w.backup| - from
  {
    if from < |w.backup| {
      var part := w.emit(from, at);
      var next := from + Report(w, from).len;
      LastPlace(w, next, Plus(at, |part|));
      PlusPlus(at, |part|, |All(w, next, Plus(at, |part|), [])|);
    }
  }
}
