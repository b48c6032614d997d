/**
 elfSharedLibData.cpp: looking a symbol up by name in the GNU and the ELF hash table.
 */
module SymbolLookup {
  import opened Bits

  const TWO_32: nat := 0x1_0000_0000

  type Char = c: nat | 0 < c < 0x100 witness 1
  type Name = seq<Char>
  type Word = w: nat | w < TWO_32

  datatype Option<T> = None | Some(value: T)

  // -------------------------------------------------------------- the hashes

  /** The GNU hash of the format: characters are unsigned. */
  function GnuHashOf(name: Name): Word
    decreases |name|
  {
    if name == [] then 5381 else (33 * GnuHashOf(name[..|name| - 1]) + name[|name| - 1]) % TWO_32
  }

  /** A char of C, which is signed on some machines. */
  function CharValue(signedChar: bool, c: Char): int { if signedChar && c >= 0x80 then c - 0x100 else c }

  predicate SevenBit(name: Name) { forall k :: 0 <= k < |name| ==> name[k] < 0x80 }

  function LoopHash(signedChar: bool, name: Name): Word
    decreases |name|
  {
    if name == [] then 5381
    else
      var h := LoopHash(signedChar, name[..|name| - 1]);
      (h + h * 32 % TWO_32 + CharValue(signedChar, name[|name| - 1])) % TWO_32
  }

  /** gnuhash */
  method GnuHash(signedChar: bool, name: Name) returns (h: Word)
    ensures h == LoopHash(signedChar, name)
  {
    h := 5381;
    for k := 0 to |name|
      invariant h == LoopHash(signedChar, name[..k])
    {
      h := (h + h * 32 % TWO_32 + CharValue(signedChar, name[k])) % TWO_32;
      assert name[..k + 1][..k] == name[..k];
    }
    assert name[..|name|] == name;
  }

  lemma ShiftedSum(h: nat, v: int)
    ensures (h + h * 32 % TWO_32 + v) % TWO_32 == (33 * h + v) % TWO_32
  {
    var q := h * 32 / TWO_32;
    assert h * 32 % TWO_32 == h * 32 - TWO_32 * q;
    Wraps(33 * h + v, q);
  }

  lemma {:induction false} Wraps(x: int, q: nat)
    ensures (x - TWO_32 * q) % TWO_32 == x % TWO_32
    decreases q
  {
    if q > 0 {
      Wraps(x, q - 1);
      assert (x - TWO_32 * q) % TWO_32 == (x - TWO_32 * (q - 1)) % TWO_32;
    }
  }

  /** How much the characters above 127 weigh in the hash. */
  function HighSum(name: Name): nat
    decreases |name|
  {
    if name == [] then 0
    else 33 * HighSum(name[..|name| - 1]) + if name[|name| - 1] >= 0x80 then 1 else 0
  }

  predicate HashAgrees(signedChar: bool, name: Name) { !signedChar || HighSum(name) % 0x100_0000 == 0 }

  lemma SumStep(g: nat, s: nat, c: Char)
    ensures var b := if c >= 0x80 then 1 else 0;
            (33 * ((g - 0x100 * s) % TWO_32) + CharValue(true, c)) % TWO_32
            == ((33 * g + c) % TWO_32 - 0x100 * (33 * s + b)) % TWO_32
  {
    var b := if c >= 0x80 then 1 else 0;
    var x := g - 0x100 * s;
    Reduce(33 * x + CharValue(true, c), 33 * (x / TWO_32));
    Reduce(33 * g + c - 0x100 * (33 * s + b), (33 * g + c) / TWO_32);
  }

  lemma Reduce(x: int, q: int)
    ensures (x - TWO_32 * q) % TWO_32 == x % TWO_32
  {
    if q >= 0 {
      Wraps(x, q);
    } else {
      Wraps(x - TWO_32 * q, -q);
    }
  }

  /** What signed characters do to the hash. */
  lemma {:induction false} SignedHash(name: Name)
    ensures LoopHash(true, name) == (GnuHashOf(name) - 0x100 * HighSum(name)) % TWO_32
    decreases |name|
  {
    if name != [] {
      var short, c := name[..|name| - 1], name[|name| - 1];
      SignedHash(short);
      ShiftedSum(LoopHash(true, short), CharValue(true, c));
      SumStep(GnuHashOf(short), HighSum(short), c);
    }
  }

  lemma Apart(g: Word, s: nat)
    ensures (g - 0x100 * s) % TWO_32 == g <==> s % 0x100_0000 == 0
    ensures (g - 0x100 * s) % TWO_32 != g ==> (g - 0x100 * s) % TWO_32 / 2 != g / 2
  {
    var q, r := s / 0x100_0000, s % 0x100_0000;
    assert 0x100 * s == TWO_32 * q + 0x100 * r;
    Reduce(g - 0x100 * r, q);
  }

  /** The code computes the hash of the format exactly where char is unsigned, or the
      weight of the characters above 127 is a multiple of 2^24; otherwise it is wrong in
      more than the lowest bit. */
  lemma HashExactlyIf(signedChar: bool, name: Name)
    ensures LoopHash(signedChar, name) == GnuHashOf(name) <==> HashAgrees(signedChar, name)
    ensures !HashAgrees(signedChar, name) ==> LoopHash(signedChar, name) / 2 != GnuHashOf(name) / 2
  {
    if signedChar {
      SignedHash(name);
      Apart(GnuHashOf(name), HighSum(name));
    } else {
      UnsignedHash(name);
    }
  }

  lemma {:induction false} UnsignedHash(name: Name)
    ensures LoopHash(false, name) == GnuHashOf(name)
    decreases |name|
  {
    if name != [] {
      UnsignedHash(name[..|name| - 1]);
      ShiftedSum(GnuHashOf(name[..|name| - 1]), name[|name| - 1]);
    }
  }

  /** Seven-bit names are hashed right everywhere, ... */
  lemma {:induction false} SevenBitAgrees(name: Name)
    requires SevenBit(name)
    ensures HighSum(name) == 0
    decreases |name|
  {
    if name != [] {
      SevenBitAgrees(name[..|name| - 1]);
    }
  }

  /** ... and a name with a single character above 127 at its end is not. */
  lemma OneHighChar(short: Name, c: Char)
    requires SevenBit(short) && c >= 0x80
    ensures !HashAgrees(true, short + [c])
  {
    assert (short + [c])[..|short|] == short;
    SevenBitAgrees(short);
  }

  // The ELF hash: the format's, and elfhash as written.

  const TWO_28: nat := 0x1000_0000

  /** Folds the top four bits down and clears them. */
  function Fold(t: Word): Word { Xor(t, t / TWO_28 * 16) % TWO_28 }

  /** The format takes unsigned characters. */
  function ElfHashOf(name: Name): Word
    decreases |name|
  {
    if name == [] then 0
    else
      Fold((16 * ElfHashOf(name[..|name| - 1]) + name[|name| - 1]) % TWO_32)
  }

  /** One turn of elfhash: h ^= g and h ^= g >> 24, for the top four bits g. */
  function ElfTurn(h: Word, c: int): (r: Word)
    ensures r < TWO_28
  {
    var t := (h * 16 % TWO_32 + c) % TWO_32;
    Folded(t, 28);
    Xor(Xor(t, t / TWO_28 * TWO_28), t / TWO_28 * 16)
  }

  lemma PowerOf28()
    ensures Power2(28) == TWO_28
  {
    assert Power2(8) == 0x100 && Power2(16) == 0x1_0000 && Power2(24) == 0x100_0000;
  }

  lemma ElfTurnIs(h: Word, c: int)
    ensures ElfTurn(h, c) == Fold((16 * h + c) % TWO_32)
  {
    WrapFirst(h * 16, c);
    ElfTurnOf(h, c, (16 * h + c) % TWO_32);
  }

  lemma WrapFirst(x: nat, c: int)
    ensures (x % TWO_32 + c) % TWO_32 == (x + c) % TWO_32
  {
    Wraps(x + c, x / TWO_32);
  }

  lemma ElfTurnOf(h: Word, c: int, t: Word)
    requires t == (h * 16 % TWO_32 + c) % TWO_32
    ensures ElfTurn(h, c) == Fold(t)
  {
    Folded(t, 28);
  }

  lemma Folded(t: Word, k: nat)
    requires k == 28
    ensures Xor(Xor(t, t / TWO_28 * TWO_28), t / TWO_28 * 16) == Fold(t)
  {
    PowerOf28();
    ShiftIsDiv(t, k);
    XorTop(t, k);
    FoldedAt(t, k, t / TWO_28 * TWO_28, t / TWO_28 * 16);
  }

  lemma FoldedAt(t: Word, k: nat, top: nat, y: nat)
    requires Xor(t, top) == t % Power2(k) && y % Power2(k) == y
    ensures Xor(Xor(t, top), y) == Xor(t, y) % Power2(k)
  {
    XorLow(t, y, k);
  }

  function LoopElfHash(signedChar: bool, name: Name): Word
    decreases |name|
  {
    if name == [] then 0
    else ElfTurn(LoopElfHash(signedChar, name[..|name| - 1]), CharValue(signedChar, name[|name| - 1]))
  }

  /** elfhash computes the hash of the format where char is unsigned, and for seven-bit
      names everywhere. */
  lemma {:induction false} ElfHashIsStandard(signedChar: bool, name: Name)
    requires signedChar ==> SevenBit(name)
    ensures LoopElfHash(signedChar, name) == ElfHashOf(name)
    decreases |name|
  {
    if name != [] {
      ElfHashIsStandard(signedChar, name[..|name| - 1]);
      ElfTurnIs(ElfHashOf(name[..|name| - 1]), name[|name| - 1]);
    }
  }

  /** The low 28 bits, but for the last eight, are not touched by the fold. */
  lemma FoldKeeps(t: Word)
    ensures Fold(t) / 0x100 == t / 0x100 % 0x10_0000
  {
    var x := Xor(t, t / TWO_28 * 16);
    assert Power2(8) == 0x100;
    XorHigh(t, t / TWO_28 * 16, 8);
    MiddleBits(x);
  }

  lemma MiddleBits(x: nat)
    ensures x % TWO_28 / 0x100 == x / 0x100 % 0x10_0000
  {
  }

  lemma FoldLow(t: Word)
    ensures Fold(t) % 0x100 == Xor(t % 0x100, t / TWO_28 * 16) && Fold(t) % 16 == t % 16
  {
    var y := t / TWO_28 * 16;
    Powers(4, 8);
    XorByte(t, y, 8, 0x100);
    XorNibble(t, y, 4, 16);
    LowOfLow(Xor(t, y));
  }

  lemma XorByte(t: nat, y: nat, k: nat, p: nat)
    requires p == Power2(k) && y % p == y
    ensures Xor(t, y) % p == Xor(t % p, y)
  {
    XorLow(t, y, k);
  }

  lemma XorNibble(t: nat, y: nat, k: nat, p: nat)
    requires p == Power2(k) && y % p == 0
    ensures Xor(t, y) % p == t % p
  {
    XorLow(t, y, k);
    XorNothing(t % p);
  }

  lemma Powers(j: nat, k: nat)
    requires j == 4 && k == 8
    ensures Power2(j) == 16 && Power2(k) == 0x100
  {
  }

  lemma LowOfLow(x: nat)
    ensures x % TWO_28 % 0x100 == x % 0x100 && x % TWO_28 % 16 == x % 16
  {
  }

  lemma ThreeParts(t: Word, u: Word)
    requires t / TWO_28 == u / TWO_28 && t / 0x100 % 0x10_0000 == u / 0x100 % 0x10_0000 && t % 0x100 == u % 0x100
    ensures t == u
  {
  }

  lemma TopsSame(low: nat, a: nat, b: nat)
    requires Xor(low, a * 16) == Xor(low, b * 16)
    ensures a == b
  {
    XorCancel(low, a * 16, b * 16);
  }

  /** The fold tells words apart that have the same low byte. */
  lemma FoldInjective(t: Word, u: Word)
    requires t % 0x100 == u % 0x100
    ensures Fold(t) == Fold(u) <==> t == u
  {
    if Fold(t) == Fold(u) {
      FoldKeeps(t);
      FoldKeeps(u);
      FoldLow(t);
      FoldLow(u);
      TopsSame(t % 0x100, t / TWO_28, u / TWO_28);
      ThreeParts(t, u);
    }
  }

  lemma LowByte(h: nat, g: nat, c: int, d: int)
    requires h % 16 == g % 16 && (d == c || d == c - 0x100)
    ensures (16 * h + c) % TWO_32 % 0x100 == (16 * g + d) % TWO_32 % 0x100
  {
    ModMod(16 * h + c);
    ModMod(16 * g + d);
    var q := h / 16 - g / 16 + (if d == c then 0 else 1);
    assert 16 * h + c == 16 * g + d + 0x100 * q;
    ModShift(16 * g + d, q);
  }

  lemma ModMod(x: int)
    ensures x % TWO_32 % 0x100 == x % 0x100
  {
    var q, r := x / TWO_32, x % TWO_32;
    assert x == r + 0x100 * (0x100_0000 * q);
    ModShift(r, 0x100_0000 * q);
  }

  lemma ModShift(x: int, q: int)
    ensures (x + 0x100 * q) % 0x100 == x % 0x100
  {
  }

  lemma SixteenTimes(x: int, y: int)
    ensures 16 * x % TWO_32 == 16 * y % TWO_32 <==> x % TWO_28 == y % TWO_28
  {
    SixteenMod(x);
    SixteenMod(y);
  }

  lemma SixteenMod(x: int)
    ensures 16 * x % TWO_32 == 16 * (x % TWO_28)
  {
    var q, r := x / TWO_28, x % TWO_28;
    assert 16 * x == TWO_32 * q + 16 * r;
    RestIs(16 * x, q, 16 * r);
  }

  lemma RestIs(x: int, q: int, r: int)
    requires x == TWO_32 * q + r && 0 <= r < TWO_32
    ensures x % TWO_32 == r
  {
  }

  lemma SameOffset(x: int, y: int, c: int)
    ensures (x + c) % TWO_32 == (y + c) % TWO_32 <==> x % TWO_32 == y % TWO_32
  {
  }

  lemma SumsMeet(h: nat, g: nat, c: int, d: int)
    requires h < TWO_28 && g < TWO_28 && (d == c || d == c - 0x100)
    ensures (16 * h + c) % TWO_32 == (16 * g + d) % TWO_32 <==> g == if d == c then h else (h + 16) % TWO_28
  {
    var k := if d == c then 0 else 16;
    assert 16 * (h + k) + d == 16 * h + c;
    SameOffset(16 * (h + k), 16 * g, d);
    SixteenTimes(h + k, g);
  }

  /** Two hashes with the same last character: another one keeps them apart or together,
      unless it is read as negative in the second. */
  lemma TurnsMeet(h: Word, g: Word, c: Char, d: int)
    requires h < TWO_28 && g < TWO_28 && h % 16 == g % 16 && (d == c || d == c - 0x100)
    ensures ElfTurn(h, c) == ElfTurn(g, d) <==> g == if d == c then h else (h + 16) % TWO_28
  {
    ElfTurnIs(h, c);
    ElfTurnIs(g, d);
    LowByte(h, g, c, d);
    SumsMeet(h, g, c, d);
    FoldInjective((16 * h + c) % TWO_32, (16 * g + d) % TWO_32);
  }

  lemma ElfNext(signedChar: bool, name: Name, c: Char)
    ensures LoopElfHash(signedChar, name + [c]) == Fold((16 * LoopElfHash(signedChar, name) + CharValue(signedChar, c)) % TWO_32)
  {
    assert (name + [c])[..|name|] == name;
    ElfTurnIs(LoopElfHash(signedChar, name), CharValue(signedChar, c));
  }

  lemma FoldNibble(x: int)
    ensures Fold(x % TWO_32) % 16 == x % 16
  {
    FoldLow(x % TWO_32);
    NibbleOf(x);
  }

  /** The lowest bits of the hash are those of the last character. */
  lemma LastNibble(signedChar: bool, name: Name, c: Char)
    ensures LoopElfHash(signedChar, name + [c]) % 16 == c as int % 16
  {
    ElfNext(signedChar, name, c);
    FoldNibble(16 * LoopElfHash(signedChar, name) + CharValue(signedChar, c));
    CharNibble(LoopElfHash(signedChar, name), c, CharValue(signedChar, c));
  }

  lemma CharNibble(h: nat, c: int, d: int)
    requires d == c || d == c - 0x100
    ensures (16 * h + d) % 16 == c % 16
  {
  }

  lemma NibbleOf(x: int)
    ensures x % TWO_32 % 16 == x % 16
  {
    var q, r := x / TWO_32, x % TWO_32;
    assert x == r + 16 * (0x1000_0000 * q);
    NibbleShift(r, 0x1000_0000 * q);
  }

  lemma NibbleShift(x: int, q: int)
    ensures (x + 16 * q) % 16 == x % 16
  {
  }

  lemma ElfSmall(signedChar: bool, name: Name)
    ensures LoopElfHash(signedChar, name) < TWO_28
  {
  }

  predicate ElfRight(name: Name) { LoopElfHash(true, name) == ElfHashOf(name) }

  /** After another character elfhash is right if it was, and after one above 127 if it was
      off by exactly 16. */
  lemma ElfTurnRight(name: Name, c: Char)
    ensures ElfRight(name + [c]) <==>
            LoopElfHash(true, name) == if c < 0x80 then ElfHashOf(name) else (ElfHashOf(name) + 16) % TWO_28
  {
    assert (name + [c])[..|name|] == name;
    ElfHashIsStandard(false, name);
    ElfHashIsStandard(false, name + [c]);
    ElfSmall(false, name);
    ElfSmall(true, name);
    if name != [] {
      assert name[..|name| - 1] + [name[|name| - 1]] == name;
      LastNibble(false, name[..|name| - 1], name[|name| - 1]);
      LastNibble(true, name[..|name| - 1], name[|name| - 1]);
    }
    TurnsMeet(ElfHashOf(name), LoopElfHash(true, name), c, CharValue(true, c));
  }

  /** The index behind the last character above 127. */
  function HighEnd(name: Name): (k: nat)
    ensures k <= |name| && SevenBit(name[k..]) && (k > 0 ==> name[k - 1] >= 0x80)
    decreases |name|
  {
    var n := |name|;
    if n == 0 || name[n - 1] >= 0x80 then n
    else
      assert name[..n - 1] + [name[n - 1]] == name;
      HighEnd(name[..n - 1])
  }

  /** Where char is signed, elfhash is right if and only if the name has seven-bit
      characters alone, or was off by exactly 16 before the last of the others. */
  lemma {:induction false} ElfHashExactlyIf(name: Name)
    ensures var k := HighEnd(name);
            ElfRight(name) <==> k == 0 || LoopElfHash(true, name[..k - 1]) == (ElfHashOf(name[..k - 1]) + 16) % TWO_28
    decreases |name|
  {
    if name != [] {
      var n := |name| - 1;
      assert name[..n] + [name[n]] == name;
      ElfTurnRight(name[..n], name[n]);
      if name[n] < 0x80 {
        ElfHashExactlyIf(name[..n]);
        var k := HighEnd(name[..n]);
        if k > 0 {
          assert name[..n][..k - 1] == name[..k - 1];
        }
      }
    }
  }

  /** So a single character above 127 makes it wrong wherever it stands. */
  lemma ElfOneHighChar(before: Name, c: Char, after: Name)
    requires SevenBit(before) && c >= 0x80 && SevenBit(after)
    ensures !ElfRight(before + [c] + after)
  {
    var name := before + [c] + after;
    ElfHashExactlyIf(name);
    var k := HighEnd(name);
    assert name[|before|] == c;
    assert k == |before| + 1;
    assert name[..k - 1] == before;
    ElfHashIsStandard(true, before);
    ElfSmall(true, before);
  }

  lemma FoldOf(x: Word, y: nat)
    requires y == x / TWO_28 * 16
    ensures Fold(x) == Xor(x, y) % TWO_28
  {
  }

  lemma FoldPlain(x: int)
    requires 0 <= x < TWO_28
    ensures Fold(x % TWO_32) == x
  {
    FoldOf(x, 0);
    XorNothing(x);
  }

  /** A turn that does not reach the top four bits. */
  lemma ElfPlain(signedChar: bool, name: Name, c: Char, next: Name, v: int)
    requires next == name + [c] && v == 16 * LoopElfHash(signedChar, name) + CharValue(signedChar, c) && 0 <= v < TWO_28
    ensures LoopElfHash(signedChar, next) == v
  {
    ElfNext(signedChar, name, c);
    FoldPlain(v);
  }

  lemma SixPlain(signedChar: bool, a: Name, b: Name, c: Name, d: Name, e: Name, f: Name)
    requires a == [0x69] && b == a + [0xe8] && c == b + [0x78] && d == c + [0x63] && e == d + [0x69] && f == e + [0x70]
    ensures LoopElfHash(signedChar, f) == if signedChar then 0x67f_ea00 else 0x77f_ea00
  {
    var off := if signedChar then 0x100 else 0;
    ElfPlain(signedChar, [], 0x69, a, 0x69);
    ElfPlain(signedChar, a, 0xe8, b, 0x778 - off);
    ElfPlain(signedChar, b, 0x78, c, 0x77f8 - 16 * off);
    ElfPlain(signedChar, c, 0x63, d, 0x7_7fe3 - 0x100 * off);
    ElfPlain(signedChar, d, 0x69, e, 0x77_fe99 - 0x1000 * off);
    ElfPlain(signedChar, e, 0x70, f, 0x77f_ea00 - 0x1_0000 * off);
  }

  lemma FoldIs(t: Word, low: nat, v: Word)
    requires low == Xor(t % 0x100, t / TWO_28 * 16) && v == t / 0x100 % 0x10_0000 * 0x100 + low && low < 0x100
    ensures Fold(t) == v
  {
    FoldKeeps(t);
    FoldLow(t);
  }

  lemma SevenSix(x: nat, y: nat)
    requires x == 7 && y == 6
    ensures Xor(16 * x, 16 * y) == 16 && Xor(16 * x, 16 * x) == 0
  {
    XorPairs(3, 1, 3, 0);
    XorZero(3, 3);
    XorTwice(x, y);
    XorTwice(2 * x, 2 * y);
    XorTwice(4 * x, 4 * y);
    XorTwice(8 * x, 8 * y);
    XorZero(16 * x, 16 * x);
  }

  lemma LastFold(t: Word, u: Word)
    requires t == 0x77fe_a070 && u == 0x67fe_a070
    ensures Fold(t) == 0x7fe_a000 && Fold(u) == 0x7fe_a010
  {
    SevenSix(7, 6);
    FoldIs(t, 0, 0x7fe_a000);
    FoldIs(u, 16, 0x7fe_a010);
  }

  lemma ElfVia(signedChar: bool, name: Name, c: Char, x: int, t: Word, v: Word)
    requires x == 16 * LoopElfHash(signedChar, name) + CharValue(signedChar, c) && t == x % TWO_32 && v == Fold(t)
    ensures LoopElfHash(signedChar, name + [c]) == v
  {
    ElfNext(signedChar, name, c);
  }

  lemma SevenWrong(f: Name, c: Char, t: Word, u: Word)
    requires t == 0x77fe_a070 && u == 0x67fe_a070 && c == 0x70
    requires LoopElfHash(true, f) == 0x67f_ea00 && LoopElfHash(false, f) == 0x77f_ea00
    ensures LoopElfHash(true, f + [c]) == 0x7fe_a010 && LoopElfHash(false, f + [c]) == 0x7fe_a000
  {
    LastFold(t, u);
    ElfVia(false, f, c, t, t, 0x7fe_a000);
    ElfVia(true, f, c, u, u, 0x7fe_a010);
  }

  lemma OffBySixteen(g: Name, last: Char, h: Word, k: Word)
    requires LoopElfHash(true, g) == k && LoopElfHash(false, g) == h && k == (h + 16) % TWO_28 && last >= 0x80
    ensures ElfRight(g + [last])
  {
    ElfHashIsStandard(false, g);
    ElfTurnRight(g, last);
  }

  lemma SevenThen(a: Name, b: Name, c: Name, d: Name, e: Name, f: Name, g: Name, last: Char, name: Name)
    requires a == [0x69] && b == a + [0xe8] && c == b + [0x78] && d == c + [0x63] && e == d + [0x69] && f == e + [0x70]
    requires g == f + [0x70] && last >= 0x80 && name == g + [last]
    ensures ElfRight(name)
  {
    SixPlain(false, a, b, c, d, e, f);
    SixPlain(true, a, b, c, d, e, f);
    SevenWrong(f, 0x70, 0x77fe_a070, 0x67fe_a070);
    OffBySixteen(g, last, 0x7fe_a000, 0x7fe_a010);
  }

  /** Two of them, six apart, may cancel out. */
  lemma ElfTwoHighChars(last: Char, name: Name)
    requires last >= 0x80 && name == [0x69, 0xe8, 0x78, 0x63, 0x69, 0x70, 0x70, last]
    ensures ElfRight(name)
  {
    SevenThen(name[..1], name[..2], name[..3], name[..4], name[..5], name[..6], name[..7], last, name);
  }

  // --------------------------------------------------------- the linear search

  /** The first symbol at or after `from` with this name. */
  function FirstNamed(names: seq<Name>, from: nat, name: Name): (r: Option<nat>)
    requires from <= |names|
    ensures r.Some? ==> from <= r.value < |names| && names[r.value] == name
    ensures forall n :: from <= n < (if r.Some? then r.value else |names|) ==> names[n] != name
    decreases |names| - from
  {
    if from == |names| then None else if names[from] == name then Some(from) else FirstNamed(names, from + 1, name)
  }

  // ------------------------------------------------------------ GNU hash table

  /** `mask` is the Bloom filter's size less one; chains are indexed by symbol. */
  datatype GnuTable = GnuTable(numBuckets: nat, symOffset: nat, mask: nat, shift: nat,
                               bloom: seq<nat>, buckets: seq<nat>, chains: seq<Word>)

  predicate HasBit(word: nat, k: nat) { Shift(word, k) % 2 == 1 }

  /** The symbol is where the format wants it: both Bloom bits set, its chain word its
      hash but for the lowest bit, and its bucket's symbols in a row without an end mark
      before it. */
  ghost predicate Listed(t: GnuTable, names: seq<Name>, bits: nat, n: nat)
    requires t.numBuckets > 0 && bits > 0 && |t.buckets| == t.numBuckets && |t.bloom| == t.mask + 1
    requires n < |names| == |t.chains|
  {
    var h := GnuHashOf(names[n]);
    var word := t.bloom[h / bits % |t.bloom|];
    var start := t.buckets[h % t.numBuckets];
    && HasBit(word, h % bits) && HasBit(word, Shift(h, t.shift) % bits)
    && t.chains[n] / 2 == h / 2
    && start != 0 && t.symOffset <= start <= n
    && forall m :: start <= m < n ==> t.chains[m] % 2 == 0
  }

  ghost predicate Ends(t: GnuTable, b: nat)
    requires b < |t.buckets|
  {
    t.buckets[b] != 0 ==>
    t.symOffset <= t.buckets[b] && exists e :: t.buckets[b] <= e < |t.chains| && t.chains[e] % 2 == 1
  }

  ghost predicate WellFormed(t: GnuTable, names: seq<Name>, bits: nat) {
    && bits > 0 && t.numBuckets > 0 && |t.buckets| == t.numBuckets
    && |t.bloom| == t.mask + 1 && And(t.mask, t.mask + 1) == 0
    && |t.chains| == |names| && 0 < t.symOffset <= |names|
    && (forall n :: t.symOffset <= n < |names| ==> Listed(t, names, bits, n))
    && (forall b :: 0 <= b < |t.buckets| ==> Ends(t, b))
  }

  lemma MaskIsMod(t: GnuTable, x: nat)
    requires And(t.mask, t.mask + 1) == 0
    ensures And(x, t.mask) == x % (t.mask + 1)
  {
    PowerTest(t.mask + 1);
    var k: nat :| t.mask + 1 == Power2(k);
    AndMask(x, k);
  }

  /** A clear Bloom bit or an empty bucket means that there is no such symbol. */
  lemma NotListed(t: GnuTable, names: seq<Name>, bits: nat, name: Name)
    requires WellFormed(t, names, bits)
    requires var h := GnuHashOf(name); var word := t.bloom[h / bits % |t.bloom|];
             !HasBit(word, h % bits) || !HasBit(word, Shift(h, t.shift) % bits) || t.buckets[h % t.numBuckets] == 0
    ensures FirstNamed(names, t.symOffset, name) == None
  {
    var r := FirstNamed(names, t.symOffset, name);
    assert r.Some? ==> Listed(t, names, bits, r.value);
  }

  /** No match at m, for a walk that looks for this hash and name. */
  predicate Misses(t: GnuTable, names: seq<Name>, hash: Word, name: Name, m: nat)
    requires m < |names| == |t.chains|
  {
    !(t.chains[m] / 2 == hash / 2 && names[m] == name)
  }

  /** The walk along a chain, to a match or to the end mark. */
  method WalkChain(t: GnuTable, names: seq<Name>, start: nat, hash: Word, name: Name)
      returns (found: Option<nat>, ghost end: nat)
    requires start < |t.chains| == |names|
    requires exists e :: start <= e < |t.chains| && t.chains[e] % 2 == 1
    ensures start <= end < |names| && forall m :: start <= m < end ==> Misses(t, names, hash, name, m)
    ensures match found
            case Some(n) => n == end && names[n] == name && !Misses(t, names, hash, name, n)
            case None => Misses(t, names, hash, name, end) && t.chains[end] % 2 == 1
  {
    ghost var last :| start <= last < |t.chains| && t.chains[last] % 2 == 1;
    var n := start;
    while true
      invariant start <= n <= last
      invariant forall m :: start <= m < n ==> Misses(t, names, hash, name, m)
      decreases last - n
    {
      XorShift(t.chains[n], hash);
      if Shift(Xor(t.chains[n], hash), 1) == 0 && names[n] == name {
        return Some(n), n;
      }
      AndOne(t.chains[n]);
      n := n + 1;
      if And(t.chains[n - 1], 1) != 0 {
        return None, n - 1;
      }
    }
  }

  /** What a walk finds from the start of the bucket is what the linear search finds. */
  lemma WalkFinds(t: GnuTable, names: seq<Name>, bits: nat, name: Name, found: Option<nat>, end: nat)
    requires WellFormed(t, names, bits)
    requires var start := t.buckets[GnuHashOf(name) % t.numBuckets];
             && t.symOffset <= start <= end < |names|
             && (forall m :: start <= m < end ==> Misses(t, names, GnuHashOf(name), name, m))
             && match found
                case Some(n) => n == end && names[n] == name
                case None => Misses(t, names, GnuHashOf(name), name, end) && t.chains[end] % 2 == 1
    ensures FirstNamed(names, t.symOffset, name) == found
  {
    var r := FirstNamed(names, t.symOffset, name);
    if r.Some? {
      assert Listed(t, names, bits, r.value);
      assert !Misses(t, names, GnuHashOf(name), name, r.value);
    }
  }

  /** The test against the Bloom filter. */
  method BloomTest(t: GnuTable, bits: nat, hash: Word) returns (maybe: bool)
    requires bits > 0 && |t.bloom| == t.mask + 1 && And(t.mask, t.mask + 1) == 0
    ensures var word := t.bloom[hash / bits % |t.bloom|];
            maybe <==> HasBit(word, hash % bits) && HasBit(word, Shift(hash, t.shift) % bits)
  {
    var h2 := Shift(hash, t.shift);
    MaskIsMod(t, hash / bits);
    var wordNum := And(hash / bits, t.mask);
    var bloomWord := t.bloom[wordNum];
    var first, second := Shift(bloomWord, hash % bits), Shift(bloomWord, h2 % bits);
    OneAnd(first, second);
    maybe := And(And(1, first), second) != 0;
  }

  /** With a wrong hash no symbol of the name matches. */
  lemma WrongHash(t: GnuTable, names: seq<Name>, bits: nat, name: Name, hash: Word, n: nat)
    requires WellFormed(t, names, bits) && hash / 2 != GnuHashOf(name) / 2
    requires t.symOffset <= n < |names| && names[n] == name
    ensures Misses(t, names, hash, name, n)
  {
    assert Listed(t, names, bits, n);
  }

  /** gnu_find_symbol_by_name: on a well-formed table it finds what a search through all
      symbols finds first, exactly for the names that are hashed right; for others, which
      only a signed char has, it finds nothing. */
  method GnuFind(t: GnuTable, names: seq<Name>, bits: nat, signedChar: bool, name: Name) returns (found: Option<nat>)
    requires WellFormed(t, names, bits)
    ensures found == if HashAgrees(signedChar, name) then FirstNamed(names, t.symOffset, name) else None
  {
    var hash := GnuHash(signedChar, name);
    HashExactlyIf(signedChar, name);
    var maybe := BloomTest(t, bits, hash);
    if !maybe {
      if HashAgrees(signedChar, name) {
        NotListed(t, names, bits, name);
      }
      return None;
    }
    var n := t.buckets[hash % t.numBuckets];
    assert Ends(t, hash % t.numBuckets);
    if n == 0 {
      if HashAgrees(signedChar, name) {
        NotListed(t, names, bits, name);
      }
      return None;
    }
    ghost var end;
    found, end := WalkChain(t, names, n, hash, name);
    if HashAgrees(signedChar, name) {
      WalkFinds(t, names, bits, name, found, end);
    } else if found.Some? {
      WrongHash(t, names, bits, name, hash, found.value);
    }
  }

  // ------------------------------------------------------------ ELF hash table

  datatype ElfTable = ElfTable(numBuckets: nat, buckets: seq<nat>, chains: seq<nat>)

  /** The path is the chain from n on, to its end at 0. */
  ghost predicate ChainIs(t: ElfTable, n: nat, path: seq<nat>)
    decreases |path|
  {
    if path == [] then n == 0 else n != 0 && path[0] == n && n < |t.chains| && ChainIs(t, t.chains[n], path[1..])
  }

  /** Every symbol is on the chain of its bucket, by the hash of the format, and on no other. */
  ghost predicate ElfWellFormed(t: ElfTable, names: seq<Name>, paths: seq<seq<nat>>) {
    && t.numBuckets > 0 && |t.buckets| == |paths| == t.numBuckets && |t.chains| == |names|
    && (forall b :: 0 <= b < |paths| ==> ChainIs(t, t.buckets[b], paths[b]) && OwnBucket(t, names, paths[b], b))
    && (forall n :: 0 < n < |names| ==> n in paths[ElfHashOf(names[n]) % t.numBuckets])
  }

  ghost predicate OwnBucket(t: ElfTable, names: seq<Name>, path: seq<nat>, b: nat)
    requires t.numBuckets > 0
  {
    forall n :: n in path && n < |names| ==> ElfHashOf(names[n]) % t.numBuckets == b
  }

  /** The first symbol of the path with this name. */
  function FirstOnPath(path: seq<nat>, names: seq<Name>, name: Name): (r: Option<nat>)
    ensures r.Some? ==> r.value in path && r.value < |names| && names[r.value] == name
    ensures r == None ==> forall n :: n in path && n < |names| ==> names[n] != name
  {
    if path == [] then None
    else if path[0] < |names| && names[path[0]] == name then Some(path[0])
    else FirstOnPath(path[1..], names, name)
  }

  method ElfHash(signedChar: bool, name: Name) returns (h: Word)
    ensures h == LoopElfHash(signedChar, name)
  {
    h := 0;
    for k := 0 to |name|
      invariant h == LoopElfHash(signedChar, name[..k])
    {
      h := ElfTurn(h, CharValue(signedChar, name[k]));
      assert name[..k + 1][..k] == name[..k];
    }
    assert name[..|name|] == name;
  }

  /** The name is looked for in the chain that the format puts it on. */
  predicate ElfAgrees(t: ElfTable, signedChar: bool, name: Name)
    requires t.numBuckets > 0
  {
    LoopElfHash(signedChar, name) % t.numBuckets == ElfHashOf(name) % t.numBuckets
  }

  /** elf_find_symbol_by_name */
  method ElfFind(t: ElfTable, names: seq<Name>, signedChar: bool, name: Name, ghost paths: seq<seq<nat>>)
      returns (found: Option<nat>)
    requires ElfWellFormed(t, names, paths)
    ensures found == if ElfAgrees(t, signedChar, name) then FirstOnPath(paths[ElfHashOf(name) % t.numBuckets], names, name)
                     else None
  {
    var hash := ElfHash(signedChar, name);
    var n := t.buckets[hash % t.numBuckets];
    ghost var path := paths[hash % t.numBuckets];
    assert OwnBucket(t, names, path, hash % t.numBuckets);
    while n != 0
      invariant ChainIs(t, n, path)
      invariant FirstOnPath(paths[hash % t.numBuckets], names, name) == FirstOnPath(path, names, name)
      decreases |path|
    {
      if names[n] == name {
        return Some(n);
      }
      n := t.chains[n];
      path := path[1..];
    }
    return None;
  }

  /** On a well-formed table the walk misses nothing: there is a result exactly if there
      is such a symbol. */
  lemma ElfFindsAll(t: ElfTable, names: seq<Name>, name: Name, paths: seq<seq<nat>>)
    requires ElfWellFormed(t, names, paths)
    ensures var r := FirstOnPath(paths[ElfHashOf(name) % t.numBuckets], names, name);
            (r == None <==> forall n :: 0 < n < |names| ==> names[n] != name) &&
            (r.Some? ==> 0 < r.value)
  {
    var b := ElfHashOf(name) % t.numBuckets;
    assert ChainIs(t, t.buckets[b], paths[b]);
    NoZero(t, t.buckets[b], paths[b]);
  }

  lemma {:induction false} NoZero(t: ElfTable, n: nat, path: seq<nat>)
    requires ChainIs(t, n, path)
    ensures 0 !in path
    decreases |path|
  {
    if path != [] {
      NoZero(t, t.chains[n], path[1..]);
      assert path == [path[0]] + path[1..];
    }
  }

  // ------------------------------------------------------------- relocations

  datatype Reloc = Reloc(kind: nat, symbol: nat, offset: nat)

  /** The slots of the relocations of this kind and symbol, in their order. */
  function PltSlots(relocs: seq<Reloc>, loadBias: nat, kind: nat, symbol: nat): seq<nat>
    decreases |relocs|
  {
    if relocs == [] then []
    else
      var last := relocs[|relocs| - 1];
      PltSlots(relocs[..|relocs| - 1], loadBias, kind, symbol)
      + if last.kind == kind && last.symbol == symbol then [loadBias + last.offset] else []
  }

  /** get_plt_relocations */
  method GetPltRelocations(relocs: seq<Reloc>, loadBias: nat, kind: nat, symbol: nat) returns (slots: seq<nat>)
    ensures slots == PltSlots(relocs, loadBias, kind, symbol)
  {
    slots := [];
    for i := 0 to |relocs|
      invariant slots == PltSlots(relocs[..i], loadBias, kind, symbol)
    {
      assert relocs[..i + 1][..i] == relocs[..i];
      if relocs[i].kind == kind {
        if relocs[i].symbol == symbol {
          slots := slots + [loadBias + relocs[i].offset];
        }
      }
    }
    assert relocs[..|relocs|] == relocs;
  }

  predicate Names(r: Reloc, loadBias: nat, kind: nat, symbol: nat, slot: nat) {
    r.kind == kind && r.symbol == symbol && loadBias + r.offset == slot
  }

  /** A slot is found exactly if a relocation of the kind and the symbol is for it. */
  lemma {:induction false} SlotFound(relocs: seq<Reloc>, loadBias: nat, kind: nat, symbol: nat, slot: nat)
    ensures slot in PltSlots(relocs, loadBias, kind, symbol) <==> exists r :: r in relocs && Names(r, loadBias, kind, symbol, slot)
    decreases |relocs|
  {
    if relocs != [] {
      var short, last := relocs[..|relocs| - 1], relocs[|relocs| - 1];
      SlotFound(short, loadBias, kind, symbol, slot);
      assert relocs == short + [last];
      assert forall r :: r in relocs <==> r in short || r == last;
      if slot in PltSlots(relocs, loadBias, kind, symbol) && slot !in PltSlots(short, loadBias, kind, symbol) {
        assert Names(last, loadBias, kind, symbol, slot);
      }
    }
  }

  /** The symbol of the first relocation whose symbol has this name. */
  function FirstReloc(relocs: seq<Reloc>, names: seq<Name>, name: Name): (r: Option<nat>)
    requires forall x :: x in relocs ==> x.symbol < |names|
    ensures r.Some? ==> r.value < |names| && names[r.value] == name
    ensures r == None <==> forall x :: x in relocs ==> names[x.symbol] != name
  {
    if relocs == [] then None
    else
      assert relocs == [relocs[0]] + relocs[1..];
      if names[relocs[0].symbol] == name then Some(relocs[0].symbol) else FirstReloc(relocs[1..], names, name)
  }

  function OrElse(a: Option<nat>, b: Option<nat>): Option<nat> { if a.Some? then a else b }

  /** One of the two loops over relocations, which do nothing once there is a symbol. */
  method ScanRelocs(sym: Option<nat>, relocs: seq<Reloc>, names: seq<Name>, name: Name) returns (r: Option<nat>)
    requires forall x :: x in relocs ==> x.symbol < |names|
    ensures r == OrElse(sym, FirstReloc(relocs, names, name))
  {
    r := sym;
    var i := 0;
    while r == None && i < |relocs|
      invariant i <= |relocs|
      invariant OrElse(sym, FirstReloc(relocs, names, name)) == OrElse(r, FirstReloc(relocs[i..], names, name))
    {
      if names[relocs[i].symbol] == name {
        r := Some(relocs[i].symbol);
      }
      i := i + 1;
    }
  }

  /** usesGnuHashTable() tells which of the two a library has. */
  datatype HashTable = Gnu(gnu: GnuTable) | Elf(elf: ElfTable)

  ghost predicate TableFormed(t: HashTable, names: seq<Name>, bits: nat, paths: seq<seq<nat>>) {
    match t
    case Gnu(g) => WellFormed(g, names, bits)
    case Elf(e) => ElfWellFormed(e, names, paths)
  }

  /** What the search of the table comes to. */
  ghost function TableFinds(t: HashTable, names: seq<Name>, bits: nat, paths: seq<seq<nat>>, signedChar: bool, name: Name):
      Option<nat>
    requires TableFormed(t, names, bits, paths)
  {
    match t
    case Gnu(g) => if HashAgrees(signedChar, name) then FirstNamed(names, g.symOffset, name) else None
    case Elf(e) =>
      if ElfAgrees(e, signedChar, name) then FirstOnPath(paths[ElfHashOf(name) % e.numBuckets], names, name) else None
  }

  /** Where char is unsigned, and for seven-bit names, either table misses nothing. */
  lemma TableMissesNothing(t: HashTable, names: seq<Name>, bits: nat, paths: seq<seq<nat>>, signedChar: bool, name: Name)
    requires TableFormed(t, names, bits, paths) && (signedChar ==> SevenBit(name))
    ensures var first := if t.Gnu? then t.gnu.symOffset else 1;
            TableFinds(t, names, bits, paths, signedChar, name) == None <==>
              forall n :: first <= n < |names| ==> names[n] != name
  {
    match t {
      case Gnu(g) =>
        if signedChar {
          SevenBitAgrees(name);
        }
        HashExactlyIf(signedChar, name);
      case Elf(e) =>
        ElfHashIsStandard(signedChar, name);
        ElfFindsAll(e, names, name, paths);
    }
  }

  /** find_symbol_by_name: the relocations help out with symbols that the table leaves out. */
  method FindSymbol(t: HashTable, names: seq<Name>, bits: nat, signedChar: bool, name: Name,
                    pltRelocations: seq<Reloc>, relocations: seq<Reloc>, ghost paths: seq<seq<nat>>)
      returns (sym: Option<nat>)
    requires TableFormed(t, names, bits, paths)
    requires forall x :: x in pltRelocations ==> x.symbol < |names|
    requires forall x :: x in relocations ==> x.symbol < |names|
    ensures sym.Some? ==> sym.value < |names| && names[sym.value] == name
    ensures sym == OrElse(TableFinds(t, names, bits, paths, signedChar, name),
                          OrElse(FirstReloc(pltRelocations, names, name), FirstReloc(relocations, names, name)))
  {
    match t {
      case Gnu(g) => sym := GnuFind(g, names, bits, signedChar, name);
      case Elf(e) => sym := ElfFind(e, names, signedChar, name, paths);
    }
    sym := ScanRelocs(sym, pltRelocations, names, name);
    sym := ScanRelocs(sym, relocations, names, name);
  }
}
