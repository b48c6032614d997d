/**
 md5.cpp: the streaming MD5 object.
 */
module Md5 {
  import opened Md5Spec

  /** What is absorbed of a message, and what waits in the buffer. */
  function WholeBlocks(message: seq<Byte>): (w: seq<Byte>)
    ensures |w| % 64 == 0 && |w| + |message| % 64 == |message|
  {
    message[..|message| - |message| % 64]
  }

  function Tail(message: seq<Byte>): (t: seq<Byte>)
    ensures |t| == |message| % 64
  {
    message[|message| - |message| % 64..]
  }

  /** The message that the object stands for after a digest.  With 56 bytes or more in
      the buffer, the padding runs over them, and only the count and the state come back. */
  function AfterDigest(message: seq<Byte>): seq<Byte> {
    var index := |message| % 64;
    if index < 56 then message
    else WholeBlocks(message) + (Zeros(56) + LengthBytes(|message|))[..index]
  }

  /** A digest restores the stream exactly if fewer than 56 bytes were buffered, or the
      buffered ones are what final leaves there. */
  lemma RestoredExactlyIf(message: seq<Byte>)
    ensures AfterDigest(message) == message <==>
              |message| % 64 < 56 || Tail(message) == (Zeros(56) + LengthBytes(|message|))[..|message| % 64]
  {
    var index := |message| % 64;
    assert message == WholeBlocks(message) + Tail(message);
    if index >= 56 {
      var other := (Zeros(56) + LengthBytes(|message|))[..index];
      assert AfterDigest(message)[|message| - index..] == other;
    }
  }

  lemma AfterDigestParts(message: seq<Byte>)
    ensures var after, index := AfterDigest(message), |message| % 64;
            |after| == |message| && WholeBlocks(after) == WholeBlocks(message) &&
            Tail(after) == if index < 56 then Tail(message) else (Zeros(56) + LengthBytes(|message|))[..index]
  {
  }

  /** Further digests change nothing more. */
  lemma SecondDigestKeeps(message: seq<Byte>)
    ensures AfterDigest(AfterDigest(message)) == AfterDigest(message)
  {
    var index := |message| % 64;
    if index >= 56 {
      var after := AfterDigest(message);
      assert |after| == |message|;
      assert WholeBlocks(after) == WholeBlocks(message);
    }
  }

  // ----------------------------------------------------------- the bit count

  /** The two words of the bit count of n bytes. */
  function LowWord(n: nat): Word { 8 * n % TWO_32 }

  function HighWord(n: nat): Word { 8 * n / TWO_32 % TWO_32 }

  lemma LowWordIndex(n: nat)
    ensures LowWord(n) / 8 % 64 == n % 64
  {
  }

  /** Adding length * 8 to the 64-bit count that is kept in two words. */
  function AddLow(count0: Word, length: nat): Word { (count0 + length % TWO_32 * 8 % TWO_32) % TWO_32 }

  function AddHigh(count0: Word, count1: Word, length: nat): Word {
    var carry := if AddLow(count0, length) < length % TWO_32 * 8 % TWO_32 then 1 else 0;
    (count1 + carry + length % TWO_32 / 0x2000_0000) % TWO_32
  }

  lemma CountAdds(n: nat, length: nat)
    requires length < TWO_32
    ensures AddLow(LowWord(n), length) == LowWord(n + length)
    ensures AddHigh(LowWord(n), HighWord(n), length) == HighWord(n + length)
  {
    var low, high := 8 * length % TWO_32, length / 0x2000_0000;
    assert 8 * length == low + TWO_32 * high;
    var c0, q := 8 * n % TWO_32, 8 * n / TWO_32;
    var carry := if c0 + low >= TWO_32 then 1 else 0;
    assert 8 * (n + length) == (c0 + low - TWO_32 * carry) + TWO_32 * (q + high + carry);
    Quotient(8 * (n + length), c0 + low - TWO_32 * carry, q + high + carry);
    ModAdd(q, carry + high);
  }

  lemma Quotient(x: nat, r: nat, q: nat)
    requires x == r + TWO_32 * q && r < TWO_32
    ensures x % TWO_32 == r && x / TWO_32 == q
  {
  }

  lemma ModAdd(q: nat, k: nat)
    ensures (q % TWO_32 + k) % TWO_32 == (q + k) % TWO_32
  {
  }

  // ------------------------------------------------- the test of update's loop

  /** The test i + 63 < length on 32-bit words is right about i + 64 <= length. */
  predicate TestRight(i: nat, length: nat) { (i + 63) % TWO_32 < length <==> i + 64 <= length }

  /** How many whole blocks update takes from the input once the buffer is full, and where
      its loop then stands. */
  function Blocks(index: nat, length: nat): nat
    requires index < 64 <= index + length
  {
    (length - (64 - index)) / 64
  }

  function LastIndex(index: nat, length: nat): (i: nat)
    requires index < 64 <= index + length
    ensures i <= length < i + 64
  {
    64 - index + 64 * Blocks(index, length)
  }

  /** The lengths that update can take with `index` bytes in the buffer. */
  predicate Safe(index: nat, length: nat)
    requires index < 64
  {
    length < TWO_32 && (index + length >= 64 ==> LastIndex(index, length) <= TWO_32 - 64)
  }

  lemma SafeLengths(index: nat, length: nat)
    requires index < 64 && length <= TWO_32 - 64
    ensures Safe(index, length)
  {
  }

  /** The loop of update comes by i. */
  predicate OnWalk(index: nat, length: nat, i: nat)
    requires index < 64
  {
    64 - index <= i <= length && (i - (64 - index)) % 64 == 0
  }

  ghost predicate AllTestsRight(index: nat, length: nat)
    requires index < 64
  {
    forall i: nat :: OnWalk(index, length, i) ==> TestRight(i, length)
  }

  lemma LastOnWalk(index: nat, length: nat, i: nat)
    requires index < 64 <= index + length && length < i + 64
    ensures OnWalk(index, length, i) <==> i == LastIndex(index, length)
  {
    var q, r := (length - (64 - index)) / 64, (length - (64 - index)) % 64;
    assert length - (64 - index) == 64 * q + r;
    if OnWalk(index, length, i) {
      var n := (i - (64 - index)) / 64;
      assert i - (64 - index) == 64 * n;
    }
  }

  lemma LastTest(i: nat, length: nat)
    requires i <= length < i + 64
    ensures TestRight(i, length) <==> i <= TWO_32 - 64
  {
    if length < TWO_32 {
      Wrapped(i + 63);
    }
  }

  lemma Wrapped(x: nat)
    requires x < 2 * TWO_32
    ensures x % TWO_32 == if x < TWO_32 then x else x - TWO_32
  {
  }

  lemma EarlyTest(i: nat, length: nat)
    requires i + 64 <= length < TWO_32
    ensures TestRight(i, length)
  {
  }

  /** The loop of update does what it should exactly for the safe lengths: for the others
      its last test wraps around, and it reads on behind the input. */
  lemma SafeExactly(index: nat, length: nat)
    requires index < 64 <= index + length
    ensures AllTestsRight(index, length) <==> Safe(index, length)
  {
    var last := LastIndex(index, length);
    LastTest(last, length);
    LastOnWalk(index, length, last);
    if Safe(index, length) {
      forall i: nat | OnWalk(index, length, i)
        ensures TestRight(i, length)
      {
        if i + 64 <= length {
          EarlyTest(i, length);
        } else {
          LastOnWalk(index, length, i);
        }
      }
    }
  }

  /** What i is after n turns of the loop, a 32-bit word, and the test as it is written. */
  function Turned(index: nat, n: nat): nat
    requires index < 64
  {
    (64 - index + 64 * n) % TWO_32
  }

  predicate GoesOn(i: nat, length: nat) { (i + 63) % TWO_32 < length }

  ghost predicate LoopEnds(index: nat, length: nat)
    requires index < 64
  {
    exists n: nat :: !GoesOn(Turned(index, n), length)
  }

  /** 2^32 is a whole number of blocks, so i stays at block boundaries when it wraps. */
  lemma TurnedStep(index: nat, n: nat)
    requires index < 64
    ensures (Turned(index, n) + index) % 64 == 0
  {
    var x := 64 - index + 64 * n;
    var q, r := x / TWO_32, x % TWO_32;
    assert x == TWO_32 * q + r;
    assert r + index == 64 * (1 + n - 0x400_0000 * q);
  }

  lemma BlocksApart(i: nat, last: nat, index: nat)
    requires (i + index) % 64 == 0 && (last + index) % 64 == 0 && i < last
    ensures i + 64 <= last
  {
  }

  lemma NeverStops(index: nat, length: nat, i: nat)
    requires index < 64 <= index + length && !Safe(index, length) && i < TWO_32 && (i + index) % 64 == 0
    ensures GoesOn(i, length)
  {
    if length < TWO_32 {
      var last := LastIndex(index, length);
      assert last + index == 64 * (1 + Blocks(index, length));
      Wrapped(i + 63);
      if i + 63 < TWO_32 {
        BlocksApart(i, last, index);
      }
    }
  }

  /** update comes to an end exactly for the safe lengths; for the others it goes round the
      input for ever. */
  lemma EndsExactly(index: nat, length: nat)
    requires index < 64 <= index + length
    ensures LoopEnds(index, length) <==> Safe(index, length)
  {
    if Safe(index, length) {
      var last := LastIndex(index, length);
      LastTest(last, length);
      Wrapped(last);
      assert !GoesOn(Turned(index, Blocks(index, length)), length);
    } else {
      forall n: nat
        ensures GoesOn(Turned(index, n), length)
      {
        TurnedStep(index, n);
        NeverStops(index, length, Turned(index, n));
      }
    }
  }

  // -------------------------------------------------------------- the buffer

  /** What update leaves in the buffer, of which `index` bytes were in use. */
  function Buffered(buffer: seq<Byte>, index: nat, input: seq<Byte>): (b: seq<Byte>)
    requires |buffer| == 64 && index < 64
    ensures |b| == 64
  {
    if index + |input| < 64 then buffer[..index] + input + buffer[index + |input|..]
    else
      var full := buffer[..index] + input[..64 - index];
      var rest := input[|input| - (index + |input|) % 64..];
      rest + full[|rest|..]
  }

  lemma BufferedLong(buffer: seq<Byte>, index: nat, input: seq<Byte>, i: nat)
    requires |buffer| == 64 && index < 64 <= index + |input| && i <= |input| && |input| - i == (index + |input|) % 64
    ensures Buffered(buffer, index, input) == input[i..] + (buffer[..index] + input[..64 - index])[|input| - i..]
  {
  }

  /** The padding of final fits what PADDING holds. */
  const PADDING: seq<Byte> := [0x80] + Zeros(63)

  function PadLen(index: nat): nat
    requires index < 64
  {
    if index < 56 then 56 - index else 120 - index
  }

  lemma PaddingIs(message: seq<Byte>)
    ensures PadLen(|message| % 64) <= 64 && PADDING[..PadLen(|message| % 64)] == Padding(|message|)
    ensures |message + Padding(|message|)| % 64 == 56
  {
    assert (55 - |message|) % 64 == PadLen(|message| % 64) - 1;
  }

  /** The buffer after the two updates of final. */
  lemma FinalBuffer(buffer: seq<Byte>, message: seq<Byte>, bits: seq<Byte>)
    requires |buffer| == 64 && |bits| == 8 && buffer[..|message| % 64] == Tail(message)
    ensures var index := |message| % 64;
            var b := Buffered(Buffered(buffer, index, Padding(|message|)), 56, bits);
            b[..index] == if index < 56 then Tail(message) else (Zeros(56) + bits)[..index]
  {
    var index, pad := |message| % 64, Padding(|message|);
    PaddingIs(message);
    assert |pad| == PadLen(index);
    var b1 := Buffered(buffer, index, pad);
    var b2 := Buffered(b1, 56, bits);
    assert bits[8..] == [];
    assert b2 == b1[..56] + bits;
    if index < 56 {
      assert b2[..index] == b1[..index] == buffer[..index];
    } else {
      assert b1[..56] == pad[64 - index..] == Zeros(56);
      assert b2 == Zeros(56) + bits;
    }
  }

  // ----------------------------------------------------------- longer messages

  lemma TailShort(message: seq<Byte>, input: seq<Byte>)
    requires |message| % 64 + |input| < 64
    ensures WholeBlocks(message + input) == WholeBlocks(message) && Tail(message + input) == Tail(message) + input
  {
    assert (|message| + |input|) % 64 == |message| % 64 + |input|;
  }

  lemma Remainder(n: nat, i: nat, length: nat)
    requires i <= length < i + 64 && (n + i) % 64 == 0
    ensures (n + length) % 64 == length - i == (n % 64 + length) % 64
  {
    var q := (n + i) / 64;
    assert n + length == 64 * q + (length - i);
  }

  lemma TailLong(message: seq<Byte>, input: seq<Byte>, i: nat)
    requires i <= |input| < i + 64 && |message + input[..i]| % 64 == 0
    ensures WholeBlocks(message + input) == message + input[..i] && Tail(message + input) == input[i..]
    ensures |input| - i == |message + input| % 64 == (|message| % 64 + |input|) % 64
  {
    assert |message + input[..i]| == |message| + i;
    Remainder(|message|, i, |input|);
    TailFrom(message + input, |message| + i);
    assert (message + input)[..|message| + i] == message + input[..i];
    assert (message + input)[|message| + i..] == input[i..];
  }

  lemma TailFrom(all: seq<Byte>, k: nat)
    requires k <= |all| && |all| - k == |all| % 64
    ensures WholeBlocks(all) == all[..k] && Tail(all) == all[k..]
  {
  }

  /** What is to be known once the blocks are absorbed and the rest of the input, from i
      on, lies in front of what is left of the last full buffer. */
  lemma Rest(message: seq<Byte>, input: seq<Byte>, i: nat, all: seq<Byte>, was: seq<Byte>, now: seq<Byte>)
    requires i <= |input| < i + 64 && all == message + input[..i] && |all| % 64 == 0
    requires |was| == 64 && was[..|message| % 64] == Tail(message) && |message| % 64 + |input| >= 64
    requires now == input[i..] + (Tail(message) + input[..64 - |message| % 64])[|input| - i..]
    ensures WholeBlocks(message + input) == all
    ensures |now| == 64 && now[..|message + input| % 64] == Tail(message + input)
    ensures now == Buffered(was, |message| % 64, input)
  {
    TailLong(message, input, i);
    BufferedLong(was, |message| % 64, input, i);
    assert now[..|input| - i] == input[i..];
  }

  lemma FirstBlock(f: Compression, message: seq<Byte>, input: seq<Byte>)
    requires |input| >= 64 - |message| % 64
    ensures var part := 64 - |message| % 64;
            |message + input[..part]| % 64 == 0 &&
            Absorb(f, INITIAL, message + input[..part])
            == f(Absorb(f, INITIAL, WholeBlocks(message)), Tail(message) + input[..part])
  {
    var part := 64 - |message| % 64;
    AbsorbNext(f, INITIAL, WholeBlocks(message), Tail(message) + input[..part]);
    assert WholeBlocks(message) + (Tail(message) + input[..part]) == message + input[..part];
  }
}
