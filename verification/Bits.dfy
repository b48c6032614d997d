/**
 Bit operations of unsigned words, on integers.
 */
module Bits {

  function And(x: nat, y: nat): (r: nat)
    ensures r <= x && r <= y
    decreases x
  {
    if x == 0 then 0 else 2 * And(x / 2, y / 2) + x % 2 * (y % 2)
  }

  function Xor(x: nat, y: nat): nat
    decreases x + y
  {
    if x == 0 && y == 0 then 0 else 2 * Xor(x / 2, y / 2) + (x + y) % 2
  }

  function Power2(k: nat): (p: nat)
    ensures p > 0
  {
    if k == 0 then 1 else 2 * Power2(k - 1)
  }

  /** x >> k */
  function Shift(x: nat, k: nat): nat
    decreases k
  {
    if k == 0 then x else Shift(x / 2, k - 1)
  }

  ghost predicate IsPower2(x: nat) { exists k: nat :: x == Power2(k) }

  lemma {:induction false} AndZero(x: nat)
    ensures And(x, 0) == 0
    decreases x
  {
    if x > 0 {
      AndZero(x / 2);
    }
  }

  lemma AndHalves(x: nat, p: nat)
    requires p > 0
    ensures And(x, 2 * p - 1) == 2 * And(x / 2, p - 1) + x % 2
  {
    assert (2 * p - 1) / 2 == p - 1 && (2 * p - 1) % 2 == 1;
  }

  /** Masking with one less than a power of two is the remainder. */
  lemma {:induction false} AndMask(x: nat, k: nat)
    ensures And(x, Power2(k) - 1) == x % Power2(k)
    decreases k
  {
    if k == 0 {
      AndZero(x);
    } else {
      var p := Power2(k - 1);
      AndMask(x / 2, k - 1);
      AndHalves(x, p);
      HalfMod(x, p);
    }
  }

  lemma HalfMod(x: nat, p: nat)
    requires p > 0
    ensures x % (2 * p) == 2 * (x / 2 % p) + x % 2
  {
    var q, r := x / 2 / p, x / 2 % p;
    assert x == 2 * (p * q + r) + x % 2;
    assert 2 * (p * q) == (2 * p) * q;
    ModUnique(x, 2 * p, q, 2 * r + x % 2);
  }

  lemma ModUnique(x: int, d: int, q: int, r: int)
    requires d > 0 && x == d * q + r && 0 <= r < d
    ensures x % d == r
  {
    var p, s := x / d, x % d;
    assert d * (p - q) == r - s && d * (q - p) == s - r;
    if p > q {
      Times(d, p - q);
    } else if q > p {
      Times(d, q - p);
    }
  }

  lemma Times(d: int, k: int)
    requires d > 0 && k >= 1
    ensures d * k >= d
  {
  }

  /** The test (x - 1) & x == 0 finds out the powers of two, and zero. */
  lemma {:induction false} PowerTest(x: nat)
    requires x > 0
    ensures And(x - 1, x) == 0 <==> IsPower2(x)
    decreases x
  {
    if x == 1 {
      assert Power2(0) == 1;
    } else if x % 2 == 1 {
      AndOdd(x);
      OddPower(x);
    } else {
      var y := x / 2;
      PowerTest(y);
      assert (x - 1) / 2 == y - 1;
      assert And(x - 1, x) == 2 * And(y - 1, y);
      if IsPower2(y) {
        var k: nat :| y == Power2(k);
        assert x == Power2(k + 1);
      }
      if IsPower2(x) {
        var k: nat :| x == Power2(k);
        assert k > 0 && y == Power2(k - 1);
      }
    }
  }

  lemma {:induction false} AndSelf(x: nat)
    ensures And(x, x) == x
    decreases x
  {
    if x > 0 {
      AndSelf(x / 2);
      assert x % 2 == 0 || x % 2 == 1;
    }
  }

  lemma AndOdd(x: nat)
    requires x > 1 && x % 2 == 1
    ensures And(x - 1, x) != 0
  {
    assert (x - 1) / 2 == x / 2;
    AndSelf(x / 2);
  }

  lemma OddPower(x: nat)
    requires x > 1 && x % 2 == 1
    ensures !IsPower2(x)
  {
    forall k: nat
      ensures x != Power2(k)
    {
    }
  }

  lemma {:induction false} XorZero(x: nat, y: nat)
    ensures Xor(x, y) == 0 <==> x == y
    decreases x + y
  {
    if x != 0 || y != 0 {
      XorZero(x / 2, y / 2);
    }
  }

  /** ((x ^ y) >> 1) == 0 says that x and y agree but for the lowest bit. */
  lemma XorShift(x: nat, y: nat)
    ensures Shift(Xor(x, y), 1) == 0 <==> x / 2 == y / 2
  {
    XorZero(x / 2, y / 2);
    assert Shift(Xor(x, y), 1) == Xor(x, y) / 2;
  }

  lemma AndOne(x: nat)
    ensures And(x, 1) == x % 2
  {
    if x > 0 {
      AndZero(x / 2);
    }
  }

  /** 1 & u & v */
  lemma OneAnd(u: nat, v: nat)
    ensures And(And(1, u), v) == 0 <==> u % 2 == 0 || v % 2 == 0
  {
    assert And(1, u) == u % 2;
  }

  lemma XorPairs(h: nat, b: nat, g: nat, c: nat)
    requires b < 2 && c < 2
    ensures Xor(2 * h + b, 2 * g + c) == 2 * Xor(h, g) + (b + c) % 2
  {
    assert (2 * h + b) / 2 == h && (2 * g + c) / 2 == g;
  }

  lemma XorTwice(x: nat, y: nat)
    ensures Xor(2 * x, 2 * y) == 2 * Xor(x, y)
  {
    assert 2 * x / 2 == x && 2 * y / 2 == y;
  }

  lemma ModPair(x: nat, b: nat, p: nat)
    requires p > 0 && b < 2
    ensures (2 * x + b) % (2 * p) == 2 * (x % p) + b
  {
    HalfMod(2 * x + b, p);
  }

  lemma XorLowPairs(h: nat, b: nat, g: nat, c: nat, p: nat)
    requires p > 0 && b < 2 && c < 2 && Xor(h, g) % p == Xor(h % p, g % p)
    ensures Xor(2 * h + b, 2 * g + c) % (2 * p) == Xor((2 * h + b) % (2 * p), (2 * g + c) % (2 * p))
  {
    XorPairs(h, b, g, c);
    XorPairs(h % p, b, g % p, c);
    ModPair(h, b, p);
    ModPair(g, c, p);
    ModPair(Xor(h, g), (b + c) % 2, p);
  }

  /** The low k bits of an exclusive or are those of the low bits. */
  lemma {:induction false} XorLow(x: nat, y: nat, k: nat)
    ensures Xor(x, y) % Power2(k) == Xor(x % Power2(k), y % Power2(k))
    decreases k
  {
    if k > 0 {
      XorLow(x / 2, y / 2, k - 1);
      XorLowPairs(x / 2, x % 2, y / 2, y % 2, Power2(k - 1));
    }
  }

  lemma XorEven(h: nat, b: nat, top: nat)
    requires b < 2
    ensures Xor(2 * h + b, 2 * top) == 2 * Xor(h, top) + b
  {
    assert (2 * h + b) / 2 == h && 2 * top / 2 == top && (2 * h + b + 2 * top) % 2 == b;
  }

  lemma XorTopPairs(h: nat, b: nat, top: nat, p: nat)
    requires p > 0 && b < 2 && Xor(h, top) == h % p
    ensures Xor(2 * h + b, 2 * top) == (2 * h + b) % (2 * p)
  {
    XorEven(h, b, top);
    ModPair(h, b, p);
  }

  /** x ^ (the bits of x from the k-th on) are the low bits of x. */
  lemma {:induction false} XorTop(x: nat, k: nat)
    ensures Xor(x, Shift(x, k) * Power2(k)) == x % Power2(k)
    decreases k
  {
    if k == 0 {
      XorZero(x, x);
    } else {
      var p, t := Power2(k - 1), Shift(x / 2, k - 1);
      XorTop(x / 2, k - 1);
      Doubled(t, p);
      XorTopPairs(x / 2, x % 2, t * p, p);
    }
  }

  lemma Doubled(t: nat, p: nat)
    ensures t * (2 * p) == 2 * (t * p)
  {
  }

  /** x >> k leaves what division by 2^k leaves. */
  lemma {:induction false} ShiftIsDiv(x: nat, k: nat)
    ensures Shift(x, k) == x / Power2(k)
    decreases k
  {
    if k > 0 {
      ShiftIsDiv(x / 2, k - 1);
      DivTwice(x, Power2(k - 1));
    }
  }

  lemma DivTwice(x: nat, p: nat)
    requires p > 0
    ensures x / 2 / p == x / (2 * p)
  {
    var q, r := x / 2 / p, x / 2 % p;
    assert x == 2 * (p * q + r) + x % 2;
    assert 2 * (p * q) == (2 * p) * q;
    DivUnique(x, 2 * p, q, 2 * r + x % 2);
  }

  lemma DivUnique(x: int, d: int, q: int, r: int)
    requires d > 0 && x == d * q + r && 0 <= r < d
    ensures x / d == q
  {
    var p, s := x / d, x % d;
    assert d * (p - q) == r - s && d * (q - p) == s - r;
    if p > q {
      Times(d, p - q);
    } else if q > p {
      Times(d, q - p);
    }
  }

  /** Low bits do not touch the high ones. */
  lemma {:induction false} XorHigh(x: nat, y: nat, k: nat)
    requires y < Power2(k)
    ensures Xor(x, y) / Power2(k) == x / Power2(k)
    decreases k
  {
    if k == 0 {
      XorNothing(x);
    } else {
      XorHigh(x / 2, y / 2, k - 1);
      HalfXor(x, y);
      DivTwice(Xor(x, y), Power2(k - 1));
      DivTwice(x, Power2(k - 1));
    }
  }

  lemma {:induction false} XorNothing(x: nat)
    ensures Xor(x, 0) == x
    decreases x
  {
    if x != 0 {
      XorNothing(x / 2);
    }
  }

  /** An exclusive or with x tells y and z apart. */
  lemma {:induction false} XorCancel(x: nat, y: nat, z: nat)
    requires Xor(x, y) == Xor(x, z)
    ensures y == z
    decreases x + y + z
  {
    if x + y + z > 0 {
      XorOf(x, y);
      XorOf(x, z);
      XorCancel(x / 2, y / 2, z / 2);
      SameParity(x, y, z);
      FromHalves(y, z);
    }
  }

  lemma XorOf(x: nat, y: nat)
    ensures Xor(x, y) / 2 == Xor(x / 2, y / 2) && Xor(x, y) % 2 == (x + y) % 2
  {
  }

  lemma SameParity(x: nat, y: nat, z: nat)
    requires (x + y) % 2 == (x + z) % 2
    ensures y % 2 == z % 2
  {
  }

  lemma FromHalves(y: nat, z: nat)
    requires y / 2 == z / 2 && y % 2 == z % 2
    ensures y == z
  {
  }

  lemma HalfXor(x: nat, y: nat)
    ensures Xor(x, y) / 2 == Xor(x / 2, y / 2)
  {
  }
}
