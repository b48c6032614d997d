/**
 "Biggest allocations first": AllocationInfo.compareTo and the stable sort that
 Collections.sort promises for it.
 */
module HeapSort {
  import opened HeapMessage

  const TWO_31: int := 0x8000_0000

  /** Subtraction of Java ints. */
  function Minus(x: int, y: int): int {
    var d := (x - y) % (2 * TWO_31);
    if d < TWO_31 then d else d - 2 * TWO_31
  }

  function CompareTo(x: Info, y: Info): int { Minus(y.size, x.size) }

  /** The subtraction tells the order of two sizes exactly if it does not overflow. */
  lemma CompareExact(x: Info, y: Info)
    requires -TWO_31 <= x.size < TWO_31 && -TWO_31 <= y.size < TWO_31
    ensures (CompareTo(x, y) < 0 <==> y.size < x.size) <==> -TWO_31 <= y.size - x.size < TWO_31
  {
    var d := y.size - x.size;
    if d >= TWO_31 {
      assert d % (2 * TWO_31) == d;
    } else if d >= 0 {
      assert d % (2 * TWO_31) == d;
    } else {
      assert d % (2 * TWO_31) == d + 2 * TWO_31;
    }
  }

  /** No comparison of two elements overflows. */
  ghost predicate Comparable(list: seq<Info>) {
    forall x, y :: x in list && y in list ==> (CompareTo(x, y) < 0 <==> y.size < x.size)
  }

  lemma PositiveComparable(list: seq<Info>)
    requires forall x :: x in list ==> 0 <= x.size < TWO_31
    ensures Comparable(list)
  {
    forall x, y | x in list && y in list
      ensures CompareTo(x, y) < 0 <==> y.size < x.size
    {
      CompareExact(x, y);
    }
  }

  // --------------------------------------------------------- what is promised

  ghost predicate Descending(list: seq<Info>) { forall i, j :: 0 <= i < j < |list| ==> list[j].size <= list[i].size }

  function OfSize(list: seq<Info>, size: int): seq<Info>
    decreases |list|
  {
    if list == [] then []
    else
      var n := |list| - 1;
      if list[n].size == size then OfSize(list[..n], size) + [list[n]] else OfSize(list[..n], size)
  }

  /** Biggest first, and those of one size in the order they had. */
  ghost predicate StablySorted(list: seq<Info>, out: seq<Info>) {
    Descending(out) && forall v :: OfSize(out, v) == OfSize(list, v)
  }

  lemma {:induction false} OfSizeMember(list: seq<Info>, v: int, x: Info)
    ensures x in OfSize(list, v) <==> x in list && x.size == v
    decreases |list|
  {
    if list != [] {
      OfSizeMember(list[..|list| - 1], v, x);
      assert list == list[..|list| - 1] + [list[|list| - 1]];
    }
  }

  /** A stable sort has only one possible result. */
  lemma {:induction false} SortUnique(a: seq<Info>, b: seq<Info>)
    requires Descending(a) && Descending(b) && forall v :: OfSize(a, v) == OfSize(b, v)
    ensures a == b
    decreases |a| + |b|
  {
    BothEmpty(a, b);
    if a != [] {
      LastAlike(a, b);
      var m, n := |a| - 1, |b| - 1;
      forall v
        ensures OfSize(a[..m], v) == OfSize(b[..n], v)
      {
        assert OfSize(a, v) == OfSize(b, v);
        if v == a[m].size {
          assert OfSize(a, v)[..|OfSize(a, v)| - 1] == OfSize(a[..m], v);
          assert OfSize(b, v)[..|OfSize(b, v)| - 1] == OfSize(b[..n], v);
        }
      }
      SortUnique(a[..m], b[..n]);
      assert a == a[..m] + [a[m]] && b == b[..n] + [b[n]];
    }
  }

  lemma BothEmpty(a: seq<Info>, b: seq<Info>)
    requires forall v :: OfSize(a, v) == OfSize(b, v)
    ensures a == [] <==> b == []
  {
    if a != [] {
      assert OfSize(a, a[0].size) == OfSize(b, a[0].size);
      OfSizeMember(a, a[0].size, a[0]);
      OfSizeMember(b, a[0].size, a[0]);
    }
    if b != [] {
      assert OfSize(a, b[0].size) == OfSize(b, b[0].size);
      OfSizeMember(a, b[0].size, b[0]);
      OfSizeMember(b, b[0].size, b[0]);
    }
  }

  lemma LastAlike(a: seq<Info>, b: seq<Info>)
    requires Descending(a) && Descending(b) && a != [] && b != []
    requires forall v :: OfSize(a, v) == OfSize(b, v)
    ensures a[|a| - 1] == b[|b| - 1]
  {
    var x, y := a[|a| - 1], b[|b| - 1];
    assert OfSize(a, x.size) == OfSize(b, x.size) && OfSize(a, y.size) == OfSize(b, y.size);
    OfSizeMember(a, x.size, x);
    OfSizeMember(b, x.size, x);
    OfSizeMember(b, y.size, y);
    OfSizeMember(a, y.size, y);
    assert y.size <= x.size <= y.size;
    var last := OfSize(a, x.size);
    assert last[|last| - 1] == x;
  }

  // ------------------------------------------------------------------ the sort

  /** Puts x behind everything that does not compare as greater. */
  function Insert(sorted: seq<Info>, x: Info): (r: seq<Info>)
    ensures |r| == |sorted| + 1
    decreases |sorted|
  {
    if sorted == [] then [x]
    else
      var n := |sorted| - 1;
      if CompareTo(x, sorted[n]) < 0 then Insert(sorted[..n], x) + [sorted[n]] else sorted + [x]
  }

  /** Collections.sort, as an insertion sort: any other stable sort comes to the same. */
  function Sorted(list: seq<Info>): (r: seq<Info>)
    ensures |r| == |list|
    decreases |list|
  {
    if list == [] then [] else Insert(Sorted(list[..|list| - 1]), list[|list| - 1])
  }

  lemma {:induction false} InsertMembers(sorted: seq<Info>, x: Info, y: Info)
    ensures y in Insert(sorted, x) <==> y in sorted || y == x
    decreases |sorted|
  {
    if sorted != [] {
      var n := |sorted| - 1;
      assert sorted == sorted[..n] + [sorted[n]];
      InsertMembers(sorted[..n], x, y);
    }
  }

  lemma {:induction false} SortedMembers(list: seq<Info>, y: Info)
    ensures y in Sorted(list) <==> y in list
    decreases |list|
  {
    if list != [] {
      var n := |list| - 1;
      SortedMembers(list[..n], y);
      InsertMembers(Sorted(list[..n]), list[n], y);
      assert list == list[..n] + [list[n]];
    }
  }

  ghost predicate Tells(sorted: seq<Info>, x: Info) {
    forall y :: y in sorted ==> (CompareTo(x, y) < 0 <==> y.size < x.size)
  }

  lemma {:induction false} InsertDescending(sorted: seq<Info>, x: Info)
    requires Descending(sorted) && Tells(sorted, x)
    ensures Descending(Insert(sorted, x))
    decreases |sorted|
  {
    if sorted != [] {
      var n := |sorted| - 1;
      if CompareTo(x, sorted[n]) < 0 {
        InsertDescending(sorted[..n], x);
        var r := Insert(sorted[..n], x);
        forall i | 0 <= i < |r|
          ensures sorted[n].size <= r[i].size
        {
          InsertMembers(sorted[..n], x, r[i]);
        }
      } else {
        assert sorted[n] in sorted;
      }
    }
  }

  lemma {:induction false} InsertOfSize(sorted: seq<Info>, x: Info, v: int)
    requires Descending(sorted) && Tells(sorted, x)
    ensures OfSize(Insert(sorted, x), v) == OfSize(sorted + [x], v)
    decreases |sorted|
  {
    if sorted != [] {
      var n := |sorted| - 1;
      if CompareTo(x, sorted[n]) < 0 {
        InsertOfSize(sorted[..n], x, v);
        var r := Insert(sorted[..n], x);
        assert (r + [sorted[n]])[..|r|] == r;
        assert (sorted[..n] + [x])[..n] == sorted[..n] && (sorted + [x])[..n + 1] == sorted;
        assert sorted[n] in sorted;
      }
    }
  }

  /** The list comes out biggest first and stable whenever no comparison overflows. */
  lemma {:induction false} SortedStable(list: seq<Info>)
    requires Comparable(list)
    ensures StablySorted(list, Sorted(list))
    decreases |list|
  {
    if list != [] {
      var n := |list| - 1;
      var first, x := list[..n], list[n];
      assert list == first + [x];
      SortedStable(first);
      forall y | y in Sorted(first)
        ensures CompareTo(x, y) < 0 <==> y.size < x.size
      {
        SortedMembers(first, y);
      }
      InsertDescending(Sorted(first), x);
      forall v
        ensures OfSize(Sorted(list), v) == OfSize(list, v)
      {
        InsertOfSize(Sorted(first), x, v);
        assert (Sorted(first) + [x])[..n] == Sorted(first);
        assert OfSize(Sorted(first), v) == OfSize(first, v);
      }
    }
  }
}
