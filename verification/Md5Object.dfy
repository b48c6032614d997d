/**
 md5.cpp as it is written: state, count and buffer updated in place.
 */
module Md5Object {
  import opened Md5Spec
  import opened Md5Rounds
  import opened Md5

  /** The state and the count stand for the message, and the buffer for its tail. */
  ghost predicate Stands(f: Compression, message: seq<Byte>, state: State, count0: Word, count1: Word, buffer: seq<Byte>) {
    && state == Absorb(f, INITIAL, WholeBlocks(message))
    && count0 == LowWord(|message|) && count1 == HighWord(|message|)
    && |buffer| == 64 && buffer[..|message| % 64] == Tail(message)
  }

  lemma Joined(a: seq<Byte>, b: seq<Byte>, j: nat, i: nat)
    requires j <= i <= |b|
    ensures a + b[..j] + b[j..i] == a + b[..i]
  {
  }

  lemma Joined2(a: seq<Byte>, b: seq<Byte>, j: nat, i: nat)
    requires j + 64 <= i <= |b|
    ensures a + b[j..i - 64] + b[i - 64..i] == a + b[j..i]
  {
  }

  class MD5 {
    const alu: Alu
    const buffer: array<Byte>
    const digest: array<Byte>
    var state: State
    var count0: Word
    var count1: Word
    var finished: bool

    ghost const compress: Compression
    ghost var message: seq<Byte>

    /** Between calls the object never holds itself for finished. */
    ghost predicate Valid()
      reads this, buffer
    {
      Sound() && !finished
    }

    ghost predicate Sound()
      reads this, buffer
    {
      Ready() && Stands(compress, message, state, count0, count1, buffer[..])
    }

    constructor ()
      ensures Valid() && fresh(buffer) && fresh(digest) && alu == MACHINE && message == []
    {
      alu := MACHINE;
      compress := CompressionOf(MACHINE);
      buffer := new Byte[64](_ => 0);
      digest := new Byte[16](_ => 0);
      state, count0, count1, finished := INITIAL, 0, 0, false;
      message := [];
      new;
      MachineIsLawful();
      CompressionCompresses(MACHINE);
    }

    method Reset()
      requires Valid()
      modifies this
      ensures Valid() && message == []
    {
      finished := false;
      count0, count1 := 0, 0;
      state := INITIAL;
      message := [];
    }

    /** memcpy(&_buffer[at], bytes, |bytes|) */
    method CopyToBuffer(at: nat, bytes: seq<Byte>)
      requires at + |bytes| <= buffer.Length
      modifies buffer
      ensures buffer[..at] == old(buffer[..at]) && buffer[at..at + |bytes|] == bytes
      ensures buffer[at + |bytes|..] == old(buffer[at + |bytes|..])
    {
      for k := 0 to |bytes|
        invariant buffer[..at] == old(buffer[..at]) && buffer[at..at + k] == bytes[..k]
        invariant buffer[at + |bytes|..] == old(buffer[at + |bytes|..])
      {
        buffer[at + k] := bytes[k];
        assert buffer[at..at + k + 1] == buffer[at..at + k] + [bytes[k]];
      }
    }

    method Decode(block: seq<Byte>) returns (x: seq<Word>)
      requires |block| == 64
      ensures x == Words(block)
    {
      x := [];
      var j := 0;
      while j < 64
        invariant j == 4 * |x| <= 64
        invariant forall k :: 0 <= k < |x| ==> x[k] == WordAt(block, k)
      {
        x := x + [WordAt(block, j / 4)];
        j := j + 4;
      }
    }

    method Transform(block: seq<Byte>)
      requires Lawful(alu) && Compresses(alu, compress) && |block| == 64
      modifies this`state
      ensures state == compress(old(state), block)
    {
      assert CompressesAt(alu, compress, state, block);
      var x := Decode(block);
      var r := Round1(alu, state, x);
      r := Round2(alu, r, x);
      r := Round3(alu, r, x);
      r := Round4(alu, r, x);
      state := State(alu.add(state.a, r.a), alu.add(state.b, r.b), alu.add(state.c, r.c), alu.add(state.d, r.d));
    }

    method Encode(input: seq<Word>) returns (output: seq<Byte>)
      ensures output == Bytes(input)
    {
      output := [];
      for i := 0 to |input|
        invariant output == Bytes(input[..i])
      {
        output := output + WordBytes(input[i]);
        assert input[..i + 1][..i] == input[..i];
      }
      assert input[..|input|] == input;
    }
  
    /** The number of bits, in two words. */
    method CountBits(length: nat)
      requires length < TWO_32
      modifies this`count0, this`count1
      ensures count0 == AddLow(old(count0), length) && count1 == AddHigh(old(count0), old(count1), length)
    {
      var low := length % TWO_32 * 8 % TWO_32;
      count0 := (count0 + low) % TWO_32;
      if count0 < low {
        count1 := (count1 + 1) % TWO_32;
      }
      ModAdd(old(count1) + (if count0 < low then 1 else 0), length % TWO_32 / 0x2000_0000);
      count1 := (count1 + length % TWO_32 / 0x2000_0000) % TWO_32;
    }

    method Count(input: seq<Byte>)
      requires |input| < TWO_32 && count0 == LowWord(|message|) && count1 == HighWord(|message|)
      modifies this`count0, this`count1
      ensures count0 == LowWord(|message + input|) && count1 == HighWord(|message + input|)
    {
      CountAdds(|message|, |input|);
      CountBits(|input|);
    }

    /** How many bytes wait in the buffer. */
    method Index() returns (index: nat)
      requires count0 == LowWord(|message|)
      ensures index == |message| % 64
    {
      LowWordIndex(|message|);
      index := count0 / 8 % 64;
    }

    /** The whole blocks of the input from `from` on, so many; i + 63 is a 32-bit sum. */
    method AbsorbBlocks(input: seq<Byte>, from: nat, ghost blocks: nat, ghost done: seq<Byte>)
        returns (i: nat, ghost all: seq<Byte>)
      requires Ready() && from + 64 * blocks <= |input| < from + 64 * blocks + 64
      requires |input| < TWO_32 && from + 64 * blocks <= TWO_32 - 64
      requires |done| % 64 == 0 && state == Absorb(compress, INITIAL, done)
      modifies this`state
      ensures from <= i <= |input| < i + 64 && all == done + input[from..i]
      ensures |all| % 64 == 0 && state == Absorb(compress, INITIAL, all)
    {
      i, all := from, done;
      assert done + input[from..from] == done;
      ghost var last, left := from + 64 * blocks, blocks;
      var more := OneMore(i, |input|);
      while more
        invariant from <= i <= last && last - i == 64 * left && (more <==> left > 0)
        invariant all == done + input[from..i] && |all| % 64 == 0 && state == Absorb(compress, INITIAL, all)
        decreases left
      {
        i, all := AbsorbBlock(input, from, i, done, all);
        left := left - 1;
        more := OneMore(i, |input|);
      }
    }

    /** The test of the loop. */
    method OneMore(i: nat, length: nat) returns (more: bool)
      requires i <= length < TWO_32 && i <= TWO_32 - 64
      ensures more <==> i + 64 <= length
    {
      more := (i + 63) % TWO_32 < length;
    }

    method AbsorbBlock(input: seq<Byte>, from: nat, i: nat, ghost done: seq<Byte>, ghost before: seq<Byte>)
        returns (next: nat, ghost all: seq<Byte>)
      requires Ready() && from <= i && i + 64 <= |input| && before == done + input[from..i]
      requires |before| % 64 == 0 && state == Absorb(compress, INITIAL, before)
      modifies this`state
      ensures next == i + 64 && all == done + input[from..next]
      ensures |all| % 64 == 0 && state == Absorb(compress, INITIAL, all)
    {
      AbsorbNext(compress, INITIAL, before, input[i..i + 64]);
      Transform(input[i..i + 64]);
      next := i + 64;
      all := before + input[i..next];
      Joined2(done, input, from, next);
    }

    /** Fills the buffer up and absorbs it. */
    method TakeFirst(index: nat, input: seq<Byte>) returns (ghost done: seq<Byte>)
      requires Ready() && index == |message| % 64 && buffer[..index] == Tail(message)
      requires state == Absorb(compress, INITIAL, WholeBlocks(message)) && 64 - index <= |input|
      modifies this`state, buffer
      ensures done == message + input[..64 - index] && |done| % 64 == 0 && state == Absorb(compress, INITIAL, done)
      ensures buffer[..] == Tail(message) + input[..64 - index]
    {
      done := message + input[..64 - index];
      FirstBlock(compress, message, input);
      CopyToBuffer(index, input[..64 - index]);
      assert buffer[..] == Tail(message) + input[..64 - index];
      Transform(buffer[..]);
    }

    /** Fills the buffer up and absorbs it and all further whole blocks. */
    method TakeBlocks(index: nat, input: seq<Byte>) returns (i: nat, ghost all: seq<Byte>)
      requires Ready() && index == |message| % 64 && buffer[..index] == Tail(message)
      requires state == Absorb(compress, INITIAL, WholeBlocks(message)) && 64 - index <= |input| && Safe(index, |input|)
      modifies this`state, buffer
      ensures i <= |input| < i + 64 && all == message + input[..i] && |all| % 64 == 0
      ensures state == Absorb(compress, INITIAL, all)
      ensures buffer[..] == Tail(message) + input[..64 - index]
    {
      ghost var done := TakeFirst(index, input);
      i, all := AbsorbBlocks(input, 64 - index, Blocks(index, |input|), done);
      Joined(message, input, 64 - index, i);
    }

    ghost predicate Ready()
      reads this
    {
      buffer.Length == 64 && digest.Length == 16 && buffer != digest && Lawful(alu) && Compresses(alu, compress)
    }

    /** The long case of update: at least one block is absorbed. */
    method UpdateBlocks(index: nat, input: seq<Byte>)
      requires Ready() && index == |message| % 64 && buffer[..index] == Tail(message)
      requires state == Absorb(compress, INITIAL, WholeBlocks(message)) && 64 - index <= |input| && Safe(index, |input|)
      modifies this`state, buffer
      ensures state == Absorb(compress, INITIAL, WholeBlocks(message + input))
      ensures buffer[..|message + input| % 64] == Tail(message + input)
      ensures buffer[..] == Buffered(old(buffer[..]), index, input)
    {
      ghost var was := buffer[..];
      var i;
      ghost var all;
      i, all := TakeBlocks(index, input);
      ghost var full := buffer[..];
      CopyToBuffer(0, input[i..]);
      assert buffer[..] == input[i..] + full[|input| - i..];
      Rest(message, input, i, all, was, buffer[..]);
    }

    /** The short case: the input fits behind what is in the buffer. */
    method UpdateShort(index: nat, input: seq<Byte>)
      requires Ready() && index == |message| % 64 && buffer[..index] == Tail(message) && index + |input| < 64
      modifies buffer
      ensures buffer[..|message + input| % 64] == Tail(message + input)
      ensures WholeBlocks(message + input) == WholeBlocks(message)
      ensures buffer[..] == Buffered(old(buffer[..]), index, input)
    {
      ghost var was := buffer[..];
      TailShort(message, input);
      CopyToBuffer(index, input);
      assert buffer[..] == was[..index] + input + was[index + |input|..];
    }

    method Update(input: seq<Byte>)
      requires Sound() && Safe(|message| % 64, |input|)
      modifies this, buffer
      ensures Valid() && message == old(message) + input
      ensures buffer[..] == Buffered(old(buffer[..]), |old(message)| % 64, input)
    {
      finished := false;
      var index := Index();
      Count(input);
      if |input| >= 64 - index {
        UpdateBlocks(index, input);
      } else {
        UpdateShort(index, input);
      }
      message := message + input;
    }
  
    /** The two updates of final: the padding, and the length. */
    method Pad()
      requires Sound()
      modifies this, buffer
      ensures Valid() && message == Padded(old(message))
      ensures var m := old(message); var index := |m| % 64;
              buffer[..index] == if index < 56 then Tail(m) else (Zeros(56) + LengthBytes(|m|))[..index]
    {
      ghost var m, was := message, buffer[..];
      var bits := Encode([count0, count1]);
      var index := Index();
      var padLen := PadLen(index);
      PaddingIs(m);
      Update(PADDING[..padLen]);
      Update(bits);
      FinalBuffer(was, m, bits);
    }

    method CopyToDigest(bytes: seq<Byte>)
      requires |bytes| == digest.Length == 16
      modifies digest
      ensures digest[..] == bytes
    {
      for k := 0 to 16
        invariant digest[..k] == bytes[..k]
      {
        digest[k] := bytes[k];
      }
    }

    /** final, which writes the digest and puts state and count back. */
    method Final()
      requires Sound()
      modifies this, buffer, digest
      ensures Valid() && message == AfterDigest(old(message))
      ensures digest[..] == DigestBy(compress, old(message))
    {
      ghost var m := message;
      var oldState, oldCount0, oldCount1 := state, count0, count1;
      Pad();
      assert WholeBlocks(message) == message;
      var output := Encode([state.a, state.b, state.c, state.d]);
      CopyToDigest(output);
      state, count0, count1 := oldState, oldCount0, oldCount1;
      AfterDigestParts(m);
      message := AfterDigest(m);
    }

    /** The digest, and what a digest does to the stream. */
    method GetDigest() returns (result: seq<Byte>)
      requires Valid()
      modifies this, buffer, digest
      ensures Valid() && message == AfterDigest(old(message))
      ensures result == Digest(alu, old(message))
    {
      ghost var m := message;
      if !finished {
        finished := true;
        Final();
      }
      result := digest[..];
      CompressionCompresses(alu);
      AbsorbSame(alu, compress, CompressionOf(alu), INITIAL, Padded(m));
    }

    /** update(ifstream): the pieces that the stream delivers, empty ones included. */
    method UpdateStream(pieces: seq<seq<Byte>>)
      requires Valid() && forall k :: 0 <= k < |pieces| ==> |pieces[k]| <= TWO_32 - 64
      modifies this, buffer
      ensures Valid() && message == old(message) + Flatten(pieces)
    {
      ghost var was := message;
      for k := 0 to |pieces|
        invariant Valid() && message == was + Flatten(pieces[..k])
      {
        if |pieces[k]| > 0 {
          SafeLengths(|message| % 64, |pieces[k]|);
          Update(pieces[k]);
        }
        FlattenNext(pieces, k);
        Append(was, Flatten(pieces[..k]), pieces[k]);
      }
      assert pieces[..|pieces|] == pieces;
    }
  }

  function Flatten(pieces: seq<seq<Byte>>): seq<Byte>
    decreases |pieces|
  {
    if pieces == [] then [] else Flatten(pieces[..|pieces| - 1]) + pieces[|pieces| - 1]
  }

  lemma FlattenNext(pieces: seq<seq<Byte>>, k: nat)
    requires k < |pieces|
    ensures Flatten(pieces[..k + 1]) == Flatten(pieces[..k]) + pieces[k]
  {
    assert pieces[..k + 1][..k] == pieces[..k];
  }

  lemma Append(a: seq<Byte>, b: seq<Byte>, c: seq<Byte>)
    ensures a + b + c == a + (b + c) && (|c| == 0 ==> b + c == b)
  {
  }

  /** However a message is cut into pieces, the digest is the one of the standard. */
  method DigestOfPieces(pieces: seq<seq<Byte>>) returns (result: seq<Byte>)
    requires forall k :: 0 <= k < |pieces| ==> |pieces[k]| <= TWO_32 - 64
    ensures result == Digest(MACHINE, Flatten(pieces))
  {
    var md5 := new MD5();
    md5.UpdateStream(pieces);
    assert [] + Flatten(pieces) == Flatten(pieces);
    result := md5.GetDigest();
  }
}
