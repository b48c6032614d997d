/**
 trampoline.cpp: the stack of active hooks of a thread, the chain of CALL_PREV calls,
 and the memory that trampolines are made in.
 */
module Trampoline {
  import opened Hooks
  import opened HooksObject

  // ---------------------------------------------------------- CALL_PREV chains

  /** get_previous_from_hook, or nothing where it aborts. */
  datatype Option<T> = None | Some(value: T)

  function Previous(runList: seq<Pointer>, hook: Pointer): Option<Pointer> {
    var i := First(runList, hook);
    if i == 0 || i == |runList| then None else Some(runList[i - 1])
  }

  lemma FirstLeast(s: seq<Pointer>, i: nat)
    requires i < |s|
    ensures First(s, s[i]) <= i
  {
  }

  /** The functions that run when each calls the previous one, from `hook` on. */
  function Chain(runList: seq<Pointer>, hook: Pointer): (c: seq<Pointer>)
    requires hook in runList
    ensures |c| > 0 && c[0] == hook
    decreases First(runList, hook)
  {
    if First(runList, hook) == 0 then [hook]
    else
      var i := First(runList, hook);
      FirstLeast(runList, i - 1);
      [hook] + Chain(runList, runList[i - 1])
  }

  /** The chain steps strictly towards the original function, never twice to the same
      function, and ends at the original. */
  lemma {:induction false} ChainDescends(runList: seq<Pointer>, hook: Pointer)
    requires hook in runList
    ensures var c := Chain(runList, hook);
            c[|c| - 1] == runList[0] &&
            (forall k :: 0 <= k < |c| ==> c[k] in runList) &&
            (forall j, k :: 0 <= j < k < |c| ==> First(runList, c[k]) < First(runList, c[j])) &&
            (forall k :: 0 <= k < |c| - 1 ==> Previous(runList, c[k]) == Some(c[k + 1])) &&
            Previous(runList, c[|c| - 1]) == None
    decreases First(runList, hook)
  {
    var i := First(runList, hook);
    if i > 0 {
      FirstLeast(runList, i - 1);
      ChainDescends(runList, runList[i - 1]);
    }
  }

  function Reverse(s: seq<Pointer>): (r: seq<Pointer>)
    ensures |r| == |s| && forall k :: 0 <= k < |s| ==> r[k] == s[|s| - 1 - k]
  {
    seq(|s|, k requires 0 <= k < |s| => s[|s| - 1 - k])
  }

  predicate Distinct(s: seq<Pointer>) { forall i, j :: 0 <= i < j < |s| ==> s[i] != s[j] }

  lemma {:induction false} DistinctChain(runList: seq<Pointer>, i: nat)
    requires Distinct(runList) && i < |runList|
    ensures Chain(runList, runList[i]) == Reverse(runList[..i + 1])
    decreases i
  {
    FirstLeast(runList, i);
    assert First(runList, runList[i]) == i;
    if i > 0 {
      DistinctChain(runList, i - 1);
      assert Reverse(runList[..i + 1]) == [runList[i]] + Reverse(runList[..i]);
    }
  }

  lemma DescendingDistinct(runList: seq<Pointer>, c: seq<Pointer>)
    requires c == Reverse(runList)
    requires forall j, k :: 0 <= j < k < |c| ==> First(runList, c[k]) < First(runList, c[j])
    ensures Distinct(runList)
  {
    forall i, j | 0 <= i < j < |runList|
      ensures runList[i] != runList[j]
    {
      var last := |runList| - 1;
      assert c[last - i] == runList[i] && c[last - j] == runList[j];
    }
  }

  /** From the last entry of a run list, every hook runs once, in reverse order, exactly
      if no hook is in it twice. */
  lemma AllRunInReverse(runList: seq<Pointer>)
    requires runList != []
    ensures Chain(runList, runList[|runList| - 1]) == Reverse(runList) <==> Distinct(runList)
  {
    var last := |runList| - 1;
    if Distinct(runList) {
      DistinctChain(runList, last);
      assert runList[..last + 1] == runList;
    }
    if Chain(runList, runList[last]) == Reverse(runList) {
      ChainDescends(runList, runList[last]);
      DescendingDistinct(runList, Chain(runList, runList[last]));
    }
  }

  // ----------------------------------------------------------- the hook stack

  datatype Frame = Frame(id: nat, returnAddress: Pointer, runList: seq<Pointer>)

  class TrampolineHookInfo {
    const id: nat
    const returnAddress: Pointer
    const previous: TrampolineHookInfo?
    const runList: seq<Pointer>

    constructor (id: nat, returnAddress: Pointer, previous: TrampolineHookInfo?, runList: seq<Pointer>)
      ensures this.id == id && this.returnAddress == returnAddress && this.previous == previous && this.runList == runList
    {
      this.id, this.returnAddress, this.previous, this.runList := id, returnAddress, previous, runList;
    }
  }

  /** The thread-local stack, innermost frame first. */
  class HookStack {
    var info: TrampolineHookInfo?
    ghost var frames: seq<Frame>

    ghost predicate Valid()
      reads this
    {
      Linked(info, frames)
    }

    constructor ()
      ensures Valid() && frames == []
    {
      info, frames := null, [];
    }

    /** push_hook_stack, on what get_run_list finds for the hook; without a run list it aborts. */
    method Push(globals: Globals, hook: nat, returnAddress: Pointer) returns (called: Option<Pointer>)
      requires Valid() && globals.Valid()
      modifies this
      ensures Valid()
      ensures var runList := RunList(globals.registry, hook);
              if runList == [] then called == None && frames == old(frames)
              else called == Some(runList[|runList| - 1]) && frames == [Frame(hook, returnAddress, runList)] + old(frames)
    {
      var runList := globals.GetRunList(hook);
      if |runList| == 0 {
        return None;
      }
      info := new TrampolineHookInfo(hook, returnAddress, info, runList);
      frames := [Frame(hook, returnAddress, runList)] + frames;
      called := Some(info.runList[|info.runList| - 1]);
    }

    method Pop() returns (returnAddress: Pointer)
      requires Valid() && frames != []
      modifies this
      ensures Valid() && returnAddress == old(frames)[0].returnAddress && frames == old(frames)[1..]
    {
      returnAddress := info.returnAddress;
      info := info.previous;
      frames := frames[1..];
    }

    /** get_previous_from_hook */
    method GetPrevious(hook: Pointer) returns (previous: Option<Pointer>)
      requires Valid()
      ensures previous == if frames == [] then None else Previous(frames[0].runList, hook)
    {
      if info == null {
        return None;
      }
      var i := 0;
      while i < |info.runList| && info.runList[i] != hook
        invariant i <= |info.runList| && hook !in info.runList[..i]
      {
        i := i + 1;
      }
      FirstUnique(info.runList, hook, i);
      previous := if i == 0 || i == |info.runList| then None else Some(info.runList[i - 1]);
    }
  }

  ghost predicate Linked(info: TrampolineHookInfo?, frames: seq<Frame>)
    decreases |frames|
  {
    if frames == [] then info == null
    else info != null && frames[0] == Frame(info.id, info.returnAddress, info.runList) && Linked(info.previous, frames[1..])
  }

  // --------------------------------------------------------- well-nested runs

  datatype Event = PushEvent(frame: Frame) | PopEvent

  datatype Result = Result(frames: seq<Frame>, returned: seq<Pointer>)

  /** What a run of pushes and pops leaves, and what the pops return. */
  function Execute(frames: seq<Frame>, events: seq<Event>): Option<Result>
    decreases |events|
  {
    if events == [] then Some(Result(frames, []))
    else if events[0].PushEvent? then Execute([events[0].frame] + frames, events[1..])
    else if frames == [] then None
    else
      match Execute(frames[1..], events[1..])
      case None => None
      case Some(r) => Some(Result(r.frames, [frames[0].returnAddress] + r.returned))
  }

  /** Hooked calls, one after another, that make hooked calls inside. */
  datatype CallTree = NoCalls | Call(frame: Frame, inner: CallTree, rest: CallTree)

  function Events(t: CallTree): seq<Event> {
    match t
    case NoCalls => []
    case Call(frame, inner, rest) => [PushEvent(frame)] + (Events(inner) + ([PopEvent] + Events(rest)))
  }

  /** The return addresses in the order in which the calls end. */
  function Returns(t: CallTree): seq<Pointer> {
    match t
    case NoCalls => []
    case Call(frame, inner, rest) => Returns(inner) + ([frame.returnAddress] + Returns(rest))
  }

  function Then(r: Option<Result>, events: seq<Event>): Option<Result> {
    match r
    case None => None
    case Some(r) =>
      match Execute(r.frames, events)
      case None => None
      case Some(s) => Some(Result(s.frames, r.returned + s.returned))
  }

  lemma {:induction false} ExecuteSum(frames: seq<Frame>, a: seq<Event>, b: seq<Event>)
    ensures Execute(frames, a + b) == Then(Execute(frames, a), b)
    decreases |a|
  {
    if a == [] {
      assert a + b == b;
      if Execute(frames, b).Some? {
        assert [] + Execute(frames, b).value.returned == Execute(frames, b).value.returned;
      }
    } else {
      assert (a + b)[1..] == a[1..] + b && (a + b)[0] == a[0];
      if a[0].PushEvent? {
        ExecuteSum([a[0].frame] + frames, a[1..], b);
      } else if frames != [] {
        ExecuteSum(frames[1..], a[1..], b);
        var r := Execute(frames[1..], a[1..]);
        if r.Some? && Execute(r.value.frames, b).Some? {
          var s := Execute(r.value.frames, b).value.returned;
          var ret := [frames[0].returnAddress];
          assert ret + r.value.returned + s == ret + (r.value.returned + s);
        }
      }
    }
  }

  /** In every well-nested run each pop returns the return address of its own push, and
      the stack ends as it began. */
  lemma {:induction false} PopsMatchPushes(frames: seq<Frame>, t: CallTree)
    ensures Execute(frames, Events(t)) == Some(Result(frames, Returns(t)))
    decreases t
  {
    match t
    case NoCalls =>
    case Call(frame, inner, rest) =>
      var inside, tail := [frame] + frames, [PopEvent] + Events(rest);
      PopsMatchPushes(inside, inner);
      PopsMatchPushes(frames, rest);
      assert Events(t)[1..] == Events(inner) + tail;
      ExecuteSum(inside, Events(inner), tail);
      assert tail[1..] == Events(rest) && inside[1..] == frames;
      assert Execute(inside, tail) == Some(Result(frames, [frame.returnAddress] + Returns(rest)));
  }

  // ------------------------------------------------------- trampoline memory

  const BLOCK_SIZE: nat := 4096
  const ALIGNMENT: nat := 4

  datatype Block = Block(base: Pointer, used: nat)
  datatype Piece = Piece(start: Pointer, size: nat)

  predicate Apart(a: Pointer, n: nat, b: Pointer, m: nat) { a + n <= b || b + m <= a }

  function RoundUp(size: nat): (r: nat)
    ensures size <= r < size + ALIGNMENT && r % ALIGNMENT == 0
  {
    (size + (ALIGNMENT - 1)) / ALIGNMENT * ALIGNMENT
  }

  /** The list of blocks, the pieces that were cut from them, and the block of each. */
  class Allocator {
    var blocks: seq<Block>
    ghost var pieces: seq<Piece>
    ghost var homes: seq<nat>

    ghost predicate Valid()
      reads this
    {
      && |homes| == |pieces|
      && (forall i :: 0 <= i < |blocks| ==> blocks[i].base % ALIGNMENT == 0 && blocks[i].used % ALIGNMENT == 0 && blocks[i].used <= BLOCK_SIZE)
      && (forall i, j :: 0 <= i < j < |blocks| ==> Apart(blocks[i].base, BLOCK_SIZE, blocks[j].base, BLOCK_SIZE))
      && (forall k :: 0 <= k < |pieces| ==> pieces[k].start % ALIGNMENT == 0 && Within(pieces[k], homes[k], blocks))
      && (forall j, k :: 0 <= j < k < |pieces| ==> Apart(pieces[j].start, pieces[j].size, pieces[k].start, pieces[k].size))
    }

    constructor ()
      ensures Valid() && pieces == []
    {
      blocks, pieces, homes := [], [], [];
    }

    method AddBlock(mapped: Pointer)
      requires Valid() && mapped % ALIGNMENT == 0
      requires forall i :: 0 <= i < |blocks| ==> Apart(blocks[i].base, BLOCK_SIZE, mapped, BLOCK_SIZE)
      modifies this`blocks
      ensures Valid() && blocks == old(blocks) + [Block(mapped, 0)]
    {
      blocks := blocks + [Block(mapped, 0)];
    }

    lemma Unused(last: nat, size: nat, k: nat)
      requires Valid() && last < |blocks| && blocks[last].used + size <= BLOCK_SIZE && k < |pieces|
      requires last == |blocks| - 1
      ensures Apart(pieces[k].start, pieces[k].size, blocks[last].base + blocks[last].used, size)
    {
      var i := homes[k];
      assert Within(pieces[k], i, blocks);
      if i < last {
        assert Apart(blocks[i].base, BLOCK_SIZE, blocks[last].base, BLOCK_SIZE);
      }
    }

    method Extend(last: nat, size: nat)
      requires Valid() && last < |blocks| && size % ALIGNMENT == 0 && blocks[last].used + size <= BLOCK_SIZE
      modifies this`blocks
      ensures Valid() && blocks == old(blocks)[last := Block(old(blocks)[last].base, old(blocks)[last].used + size)]
    {
      blocks := blocks[last := Block(blocks[last].base, blocks[last].used + size)];
    }

    /** allocator_block::allocate on the last block. */
    method Cut(size: nat) returns (start: Pointer)
      requires Valid() && blocks != [] && size % ALIGNMENT == 0 && blocks[|blocks| - 1].used + size <= BLOCK_SIZE
      modifies this
      ensures Valid() && pieces == old(pieces) + [Piece(start, size)]
      ensures |blocks| == |old(blocks)|
    {
      var last := |blocks| - 1;
      start := blocks[last].base + blocks[last].used;
      forall k | 0 <= k < |pieces|
        ensures Apart(pieces[k].start, pieces[k].size, start, size)
      {
        Unused(last, size, k);
      }
      Extend(last, size);
      pieces, homes := pieces + [Piece(start, size)], homes + [last];
    }

    /** allocate; `mapped` is what mmap would return for a new block.  It gives nothing,
        where the source throws bad_alloc, exactly if the size does not fit a block. */
    method Allocate(size: nat, mapped: Pointer) returns (start: Option<Pointer>)
      requires Valid() && mapped % ALIGNMENT == 0
      requires forall i :: 0 <= i < |blocks| ==> Apart(blocks[i].base, BLOCK_SIZE, mapped, BLOCK_SIZE)
      modifies this
      ensures Valid()
      ensures start == None <==> RoundUp(size) > BLOCK_SIZE
      ensures pieces == if start == None then old(pieces) else old(pieces) + [Piece(start.value, RoundUp(size))]
    {
      var rounded := RoundUp(size);
      if blocks == [] || BLOCK_SIZE - blocks[|blocks| - 1].used < rounded {
        AddBlock(mapped);
      }
      if BLOCK_SIZE - blocks[|blocks| - 1].used < rounded {
        return None;
      }
      var piece := Cut(rounded);
      return Some(piece);
    }
  }

  /** The piece lies in the used part of the i-th block. */
  ghost predicate Within(p: Piece, i: nat, blocks: seq<Block>) {
    i < |blocks| && blocks[i].base <= p.start && p.start + p.size <= blocks[i].base + blocks[i].used
  }
}
