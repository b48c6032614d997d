/**
 Formats of values and of lists of values: what stands in the buffer, how many bytes
 it takes, and when a reader or a writer agrees with it.
 */
module HeapFormat {
  import opened HeapMessage

  predicate Holds(data: seq<Byte>, p: nat, piece: seq<Byte>) {
    p + |piece| <= |data| && forall i :: 0 <= i < |piece| ==> data[p + i] == piece[i]
  }

  type At<!T> = (seq<Byte>, nat, T) -> bool

  /** The bytes that the first n values take. */
  function Offset<T>(len: T -> nat, xs: seq<T>, n: nat): nat
    requires n <= |xs|
    decreases n
  {
    if n == 0 then 0 else Offset(len, xs, n - 1) + len(xs[n - 1])
  }

  /** The values stand one behind the other from p on. */
  ghost predicate ListAt<T>(at: At<T>, len: T -> nat, data: seq<Byte>, p: nat, xs: seq<T>) {
    forall i :: 0 <= i < |xs| ==> NthAt(at, len, data, p, xs, i)
  }

  ghost predicate NthAt<T>(at: At<T>, len: T -> nat, data: seq<Byte>, p: nat, xs: seq<T>, i: nat)
    requires i < |xs|
  {
    at(data, p + Offset(len, xs, i), xs[i])
  }

  lemma {:induction false} OffsetOfWidth<T>(len: T -> nat, xs: seq<T>, n: nat, width: nat)
    requires n <= |xs| && forall x :: x in xs ==> len(x) == width
    ensures Offset(len, xs, n) == width * n
    decreases n
  {
    if n > 0 {
      OffsetOfWidth(len, xs, n - 1, width);
      assert xs[n - 1] in xs;
      assert width * n == width * (n - 1) + width;
    }
  }

  // ------------------------------------------------------------------- reading

  function Mapped<T, V>(value: T -> V, xs: seq<T>): (r: seq<V>)
    ensures |r| == |xs| && forall i :: 0 <= i < |xs| ==> r[i] == value(xs[i])
  {
    seq(|xs|, i requires 0 <= i < |xs| => value(xs[i]))
  }

  /** Where one of the values stands, the reader reads it and moves behind it. */
  ghost predicate Reads<T(!new), V>(read: nat -> Read<V>, at: At<T>, len: T -> nat, value: T -> V, data: seq<Byte>, xs: seq<T>) {
    forall p: nat, x :: x in xs && at(data, p, x) ==> read(p) == Got(value(x), p + len(x))
  }

  lemma {:induction false} FirstRead<T(!new), V>(read: nat -> Read<V>, at: At<T>, len: T -> nat, value: T -> V, data: seq<Byte>,
                                           xs: seq<T>, p: nat, n: nat)
    requires Reads(read, at, len, value, data, xs) && ListAt(at, len, data, p, xs) && n <= |xs|
    ensures GetMany(read, p, n) == Got(Mapped(value, xs)[..n], p + Offset(len, xs, n))
    decreases n
  {
    if n > 0 {
      FirstRead(read, at, len, value, data, xs, p, n - 1);
      var q := p + Offset(len, xs, n - 1);
      assert NthAt(at, len, data, p, xs, n - 1) && xs[n - 1] in xs;
      assert read(q) == Got(value(xs[n - 1]), q + len(xs[n - 1]));
      OneMore(read, p, Mapped(value, xs), n, q, q + len(xs[n - 1]));
    }
  }

  lemma OneMore<V>(read: nat -> Read<V>, p: nat, values: seq<V>, n: nat, q: nat, r: nat)
    requires 0 < n <= |values| && GetMany(read, p, n - 1) == Got(values[..n - 1], q) && read(q) == Got(values[n - 1], r)
    ensures GetMany(read, p, n) == Got(values[..n], r)
  {
    assert values[..n] == values[..n - 1] + [values[n - 1]];
  }

  /** A reader of one value reads lists of them. */
  lemma ListRead<T(!new), V>(read: nat -> Read<V>, at: At<T>, len: T -> nat, value: T -> V, data: seq<Byte>, xs: seq<T>, p: nat)
    requires Reads(read, at, len, value, data, xs) && ListAt(at, len, data, p, xs)
    ensures GetMany(read, p, |xs|) == Got(Mapped(value, xs), p + Offset(len, xs, |xs|))
  {
    FirstRead(read, at, len, value, data, xs, p, |xs|);
    assert Mapped(value, xs)[..|xs|] == Mapped(value, xs);
  }

  // ------------------------------------------------------------------- writing

  /** The first n values, each written by `write`. */
  function Chain<T>(write: T -> seq<Byte>, xs: seq<T>, n: nat): seq<Byte>
    requires n <= |xs|
    decreases n
  {
    if n == 0 then [] else Chain(write, xs, n - 1) + write(xs[n - 1])
  }

  /** Where one of the values has been written it stands, in as many bytes as it takes. */
  ghost predicate Writes<T(!new)>(write: T -> seq<Byte>, at: At<T>, len: T -> nat, xs: seq<T>) {
    && (forall x :: x in xs ==> |write(x)| == len(x))
    && (forall data: seq<Byte>, p: nat, x :: x in xs && Holds(data, p, write(x)) ==> at(data, p, x))
  }

  lemma Parts(data: seq<Byte>, p: nat, a: seq<Byte>, b: seq<Byte>)
    requires Holds(data, p, a + b)
    ensures Holds(data, p, a) && Holds(data, p + |a|, b)
  {
    forall i | 0 <= i < |a|
      ensures data[p + i] == a[i]
    {
      assert (a + b)[i] == a[i];
    }
    forall i | 0 <= i < |b|
      ensures data[p + |a| + i] == b[i]
    {
      assert (a + b)[|a| + i] == b[i];
    }
  }

  lemma {:induction false} ChainLength<T(!new)>(write: T -> seq<Byte>, at: At<T>, len: T -> nat, xs: seq<T>, n: nat)
    requires Writes(write, at, len, xs) && n <= |xs|
    ensures |Chain(write, xs, n)| == Offset(len, xs, n)
    decreases n
  {
    if n > 0 {
      ChainLength(write, at, len, xs, n - 1);
      assert xs[n - 1] in xs;
    }
  }

  lemma {:induction false} NthWritten<T(!new)>(write: T -> seq<Byte>, at: At<T>, len: T -> nat, data: seq<Byte>, p: nat,
                                         xs: seq<T>, n: nat, i: nat)
    requires Writes(write, at, len, xs) && i < n <= |xs| && Holds(data, p, Chain(write, xs, n))
    ensures NthAt(at, len, data, p, xs, i)
    decreases n
  {
    Parts(data, p, Chain(write, xs, n - 1), write(xs[n - 1]));
    if i < n - 1 {
      NthWritten(write, at, len, data, p, xs, n - 1, i);
    } else {
      ChainLength(write, at, len, xs, n - 1);
      assert xs[n - 1] in xs;
    }
  }

  /** A writer of one value writes lists of them. */
  lemma ListWritten<T(!new)>(write: T -> seq<Byte>, at: At<T>, len: T -> nat, data: seq<Byte>, p: nat, xs: seq<T>)
    requires Writes(write, at, len, xs) && Holds(data, p, Chain(write, xs, |xs|))
    ensures ListAt(at, len, data, p, xs) && |Chain(write, xs, |xs|)| == Offset(len, xs, |xs|)
  {
    forall i | 0 <= i < |xs|
      ensures NthAt(at, len, data, p, xs, i)
    {
      NthWritten(write, at, len, data, p, xs, |xs|, i);
    }
    ChainLength(write, at, len, xs, |xs|);
  }
}
