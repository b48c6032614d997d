/**
 The unrolled rounds of MD5::transform against the table-driven ones.
 */
module Md5Rounds {
  import opened Md5Spec

  const S11: Word := 7
  const S12: Word := 12
  const S13: Word := 17
  const S14: Word := 22
  const S21: Word := 5
  const S22: Word := 9
  const S23: Word := 14
  const S24: Word := 20
  const S31: Word := 4
  const S32: Word := 11
  const S33: Word := 16
  const S34: Word := 23
  const S41: Word := 6
  const S42: Word := 10
  const S43: Word := 15
  const S44: Word := 21

  /** The macros FF, GG, HH and II, for the mixed word of F, G, H or I. */
  function Step(m: Alu, mixed: Word, a: Word, b: Word, x: Word, s: Word, ac: Word): Word {
    m.add(m.rotate(m.add(a, m.add(m.add(mixed, x), ac)), s), b)
  }

  lemma StepSum(m: Alu, mixed: Word, a: Word, b: Word, x: Word, s: Word, ac: Word)
    requires Lawful(m)
    ensures Step(m, mixed, a, b, x, s, ac) == m.add(b, m.rotate(m.add(m.add(m.add(a, mixed), x), ac), s))
  {
    assert AddLaw(m, a, m.add(mixed, x), ac) && AddLaw(m, a, mixed, x);
    assert AddLaw(m, m.rotate(m.add(a, m.add(m.add(mixed, x), ac)), s), b, ac);
  }

  /** Word, shift and constant of a line. */
  datatype Line = Line(k: nat, shift: Word, ac: Word)

  /** The line is that of the tables. */
  predicate Listed(round: nat, i: nat, l: Line) {
    round < 4 && i < 16 && l == Line(WordOf(round, i), Shift(round, i), T(round, i))
  }

  ghost predicate Mixes(m: Alu, round: nat, mix: (Word, Word, Word) -> Word) {
    round < 4 && forall p, q, t :: mix(p, q, t) == Mix(m, round, p, q, t)
  }

  /** The registers after four lines: each line writes the next of a, d, c and b. */
  function Turn(m: Alu, mix: (Word, Word, Word) -> Word, s: State, x: seq<Word>, l0: Line, l1: Line, l2: Line, l3: Line): State
    requires |x| == 16 && l0.k < 16 && l1.k < 16 && l2.k < 16 && l3.k < 16
  {
    var a := Step(m, mix(s.b, s.c, s.d), s.a, s.b, x[l0.k], l0.shift, l0.ac);
    var d := Step(m, mix(a, s.b, s.c), s.d, a, x[l1.k], l1.shift, l1.ac);
    var c := Step(m, mix(d, a, s.b), s.c, d, x[l2.k], l2.shift, l2.ac);
    var b := Step(m, mix(c, d, a), s.b, c, x[l3.k], l3.shift, l3.ac);
    State(a, b, c, d)
  }

  /** Four lines of the unrolled rounds, which return the registers to their roles. */
  method FourLines(m: Alu, ghost round: nat, mix: (Word, Word, Word) -> Word, ghost i: nat, s: State, x: seq<Word>,
                   l0: Line, l1: Line, l2: Line, l3: Line) returns (r: State)
    requires Lawful(m) && |x| == 16 && i + 4 <= 16 && Mixes(m, round, mix)
    requires Listed(round, i, l0) && Listed(round, i + 1, l1) && Listed(round, i + 2, l2) && Listed(round, i + 3, l3)
    ensures Operations(m, round, i, s, x) == Operations(m, round, i + 4, r, x)
  {
    var a, b, c, d := s.a, s.b, s.c, s.d;
    a := Step(m, mix(b, c, d), a, b, x[l0.k], l0.shift, l0.ac);
    d := Step(m, mix(a, b, c), d, a, x[l1.k], l1.shift, l1.ac);
    c := Step(m, mix(d, a, b), c, d, x[l2.k], l2.shift, l2.ac);
    b := Step(m, mix(c, d, a), b, c, x[l3.k], l3.shift, l3.ac);
    r := State(a, b, c, d);
    FourRight(m, round, mix, i, s, x, l0, l1, l2, l3);
  }

  lemma FourRight(m: Alu, round: nat, mix: (Word, Word, Word) -> Word, i: nat, s: State, x: seq<Word>,
                  l0: Line, l1: Line, l2: Line, l3: Line)
    requires Lawful(m) && |x| == 16 && i + 4 <= 16 && Mixes(m, round, mix)
    requires Listed(round, i, l0) && Listed(round, i + 1, l1) && Listed(round, i + 2, l2) && Listed(round, i + 3, l3)
    ensures Operations(m, round, i, s, x) == Operations(m, round, i + 4, Turn(m, mix, s, x, l0, l1, l2, l3), x)
  {
    OneLine(m, round, i, s, x, l0);
    var s1 := Operation(m, round, i, s, x);
    OneLine(m, round, i + 1, s1, x, l1);
    var s2 := Operation(m, round, i + 1, s1, x);
    OneLine(m, round, i + 2, s2, x, l2);
    var s3 := Operation(m, round, i + 2, s2, x);
    OneLine(m, round, i + 3, s3, x, l3);
    assert Operations(m, round, i + 2, s2, x) == Operations(m, round, i + 4, Operation(m, round, i + 3, s3, x), x);
  }

  lemma OneLine(m: Alu, round: nat, i: nat, s: State, x: seq<Word>, l: Line)
    requires Lawful(m) && |x| == 16 && Listed(round, i, l)
    ensures Operation(m, round, i, s, x)
         == State(s.d, Step(m, Mix(m, round, s.b, s.c, s.d), s.a, s.b, x[l.k], l.shift, l.ac), s.b, s.c)
  {
    StepSum(m, Mix(m, round, s.b, s.c, s.d), s.a, s.b, x[l.k], l.shift, l.ac);
  }

  method Lines1(m: Alu, s: State, x: seq<Word>) returns (r: State)
    requires Lawful(m) && |x| == 16
    ensures Operations(m, 0, 0, s, x) == Operations(m, 0, 4, r, x)
  {
    r := FourLines(m, 0, (p: Word, q: Word, t: Word) => F(m, p, q, t), 0, s, x,
                   Line(0, S11, 0xd76aa478), Line(1, S12, 0xe8c7b756),
                   Line(2, S13, 0x242070db), Line(3, S14, 0xc1bdceee));
  }

  method Lines5(m: Alu, s: State, x: seq<Word>) returns (r: State)
    requires Lawful(m) && |x| == 16
    ensures Operations(m, 0, 4, s, x) == Operations(m, 0, 8, r, x)
  {
    r := FourLines(m, 0, (p: Word, q: Word, t: Word) => F(m, p, q, t), 4, s, x,
                   Line(4, S11, 0xf57c0faf), Line(5, S12, 0x4787c62a),
                   Line(6, S13, 0xa8304613), Line(7, S14, 0xfd469501));
  }

  method Lines9(m: Alu, s: State, x: seq<Word>) returns (r: State)
    requires Lawful(m) && |x| == 16
    ensures Operations(m, 0, 8, s, x) == Operations(m, 0, 12, r, x)
  {
    r := FourLines(m, 0, (p: Word, q: Word, t: Word) => F(m, p, q, t), 8, s, x,
                   Line(8, S11, 0x698098d8), Line(9, S12, 0x8b44f7af),
                   Line(10, S13, 0xffff5bb1), Line(11, S14, 0x895cd7be));
  }

  method Lines13(m: Alu, s: State, x: seq<Word>) returns (r: State)
    requires Lawful(m) && |x| == 16
    ensures Operations(m, 0, 12, s, x) == Operations(m, 0, 16, r, x)
  {
    r := FourLines(m, 0, (p: Word, q: Word, t: Word) => F(m, p, q, t), 12, s, x,
                   Line(12, S11, 0x6b901122), Line(13, S12, 0xfd987193),
                   Line(14, S13, 0xa679438e), Line(15, S14, 0x49b40821));
  }

  method Lines17(m: Alu, s: State, x: seq<Word>) returns (r: State)
    requires Lawful(m) && |x| == 16
    ensures Operations(m, 1, 0, s, x) == Operations(m, 1, 4, r, x)
  {
    r := FourLines(m, 1, (p: Word, q: Word, t: Word) => G(m, p, q, t), 0, s, x,
                   Line(1, S21, 0xf61e2562), Line(6, S22, 0xc040b340),
                   Line(11, S23, 0x265e5a51), Line(0, S24, 0xe9b6c7aa));
  }

  method Lines21(m: Alu, s: State, x: seq<Word>) returns (r: State)
    requires Lawful(m) && |x| == 16
    ensures Operations(m, 1, 4, s, x) == Operations(m, 1, 8, r, x)
  {
    r := FourLines(m, 1, (p: Word, q: Word, t: Word) => G(m, p, q, t), 4, s, x,
                   Line(5, S21, 0xd62f105d), Line(10, S22, 0x2441453),
                   Line(15, S23, 0xd8a1e681), Line(4, S24, 0xe7d3fbc8));
  }

  method Lines25(m: Alu, s: State, x: seq<Word>) returns (r: State)
    requires Lawful(m) && |x| == 16
    ensures Operations(m, 1, 8, s, x) == Operations(m, 1, 12, r, x)
  {
    r := FourLines(m, 1, (p: Word, q: Word, t: Word) => G(m, p, q, t), 8, s, x,
                   Line(9, S21, 0x21e1cde6), Line(14, S22, 0xc33707d6),
                   Line(3, S23, 0xf4d50d87), Line(8, S24, 0x455a14ed));
  }

  method Lines29(m: Alu, s: State, x: seq<Word>) returns (r: State)
    requires Lawful(m) && |x| == 16
    ensures Operations(m, 1, 12, s, x) == Operations(m, 1, 16, r, x)
  {
    r := FourLines(m, 1, (p: Word, q: Word, t: Word) => G(m, p, q, t), 12, s, x,
                   Line(13, S21, 0xa9e3e905), Line(2, S22, 0xfcefa3f8),
                   Line(7, S23, 0x676f02d9), Line(12, S24, 0x8d2a4c8a));
  }

  method Lines33(m: Alu, s: State, x: seq<Word>) returns (r: State)
    requires Lawful(m) && |x| == 16
    ensures Operations(m, 2, 0, s, x) == Operations(m, 2, 4, r, x)
  {
    r := FourLines(m, 2, (p: Word, q: Word, t: Word) => H(m, p, q, t), 0, s, x,
                   Line(5, S31, 0xfffa3942), Line(8, S32, 0x8771f681),
                   Line(11, S33, 0x6d9d6122), Line(14, S34, 0xfde5380c));
  }

  method Lines37(m: Alu, s: State, x: seq<Word>) returns (r: State)
    requires Lawful(m) && |x| == 16
    ensures Operations(m, 2, 4, s, x) == Operations(m, 2, 8, r, x)
  {
    r := FourLines(m, 2, (p: Word, q: Word, t: Word) => H(m, p, q, t), 4, s, x,
                   Line(1, S31, 0xa4beea44), Line(4, S32, 0x4bdecfa9),
                   Line(7, S33, 0xf6bb4b60), Line(10, S34, 0xbebfbc70));
  }

  method Lines41(m: Alu, s: State, x: seq<Word>) returns (r: State)
    requires Lawful(m) && |x| == 16
    ensures Operations(m, 2, 8, s, x) == Operations(m, 2, 12, r, x)
  {
    r := FourLines(m, 2, (p: Word, q: Word, t: Word) => H(m, p, q, t), 8, s, x,
                   Line(13, S31, 0x289b7ec6), Line(0, S32, 0xeaa127fa),
                   Line(3, S33, 0xd4ef3085), Line(6, S34, 0x4881d05));
  }

  method Lines45(m: Alu, s: State, x: seq<Word>) returns (r: State)
    requires Lawful(m) && |x| == 16
    ensures Operations(m, 2, 12, s, x) == Operations(m, 2, 16, r, x)
  {
    r := FourLines(m, 2, (p: Word, q: Word, t: Word) => H(m, p, q, t), 12, s, x,
                   Line(9, S31, 0xd9d4d039), Line(12, S32, 0xe6db99e5),
                   Line(15, S33, 0x1fa27cf8), Line(2, S34, 0xc4ac5665));
  }

  lemma Listed49()
    ensures Listed(3, 0, Line(0, S41, 0xf4292244)) && Listed(3, 1, Line(7, S42, 0x432aff97))
    ensures Listed(3, 2, Line(14, S43, 0xab9423a7)) && Listed(3, 3, Line(5, S44, 0xfc93a039))
  {
  }

  method Lines49(m: Alu, s: State, x: seq<Word>) returns (r: State)
    requires Lawful(m) && |x| == 16
    ensures Operations(m, 3, 0, s, x) == Operations(m, 3, 4, r, x)
  {
    Listed49();
    r := FourLines(m, 3, (p: Word, q: Word, t: Word) => I(m, p, q, t), 0, s, x,
                   Line(0, S41, 0xf4292244), Line(7, S42, 0x432aff97),
                   Line(14, S43, 0xab9423a7), Line(5, S44, 0xfc93a039));
  }

  method Lines53(m: Alu, s: State, x: seq<Word>) returns (r: State)
    requires Lawful(m) && |x| == 16
    ensures Operations(m, 3, 4, s, x) == Operations(m, 3, 8, r, x)
  {
    r := FourLines(m, 3, (p: Word, q: Word, t: Word) => I(m, p, q, t), 4, s, x,
                   Line(12, S41, 0x655b59c3), Line(3, S42, 0x8f0ccc92),
                   Line(10, S43, 0xffeff47d), Line(1, S44, 0x85845dd1));
  }

  method Lines57(m: Alu, s: State, x: seq<Word>) returns (r: State)
    requires Lawful(m) && |x| == 16
    ensures Operations(m, 3, 8, s, x) == Operations(m, 3, 12, r, x)
  {
    r := FourLines(m, 3, (p: Word, q: Word, t: Word) => I(m, p, q, t), 8, s, x,
                   Line(8, S41, 0x6fa87e4f), Line(15, S42, 0xfe2ce6e0),
                   Line(6, S43, 0xa3014314), Line(13, S44, 0x4e0811a1));
  }

  method Lines61(m: Alu, s: State, x: seq<Word>) returns (r: State)
    requires Lawful(m) && |x| == 16
    ensures Operations(m, 3, 12, s, x) == Operations(m, 3, 16, r, x)
  {
    r := FourLines(m, 3, (p: Word, q: Word, t: Word) => I(m, p, q, t), 12, s, x,
                   Line(4, S41, 0xf7537e82), Line(11, S42, 0xbd3af235),
                   Line(2, S43, 0x2ad7d2bb), Line(9, S44, 0xeb86d391));
  }

  method Round1(m: Alu, s: State, x: seq<Word>) returns (r: State)
    requires Lawful(m) && |x| == 16
    ensures r == Operations(m, 0, 0, s, x)
  {
    r := Lines1(m, s, x);
    r := Lines5(m, r, x);
    r := Lines9(m, r, x);
    r := Lines13(m, r, x);
  }

  method Round2(m: Alu, s: State, x: seq<Word>) returns (r: State)
    requires Lawful(m) && |x| == 16
    ensures r == Operations(m, 1, 0, s, x)
  {
    r := Lines17(m, s, x);
    r := Lines21(m, r, x);
    r := Lines25(m, r, x);
    r := Lines29(m, r, x);
  }

  method Round3(m: Alu, s: State, x: seq<Word>) returns (r: State)
    requires Lawful(m) && |x| == 16
    ensures r == Operations(m, 2, 0, s, x)
  {
    r := Lines33(m, s, x);
    r := Lines37(m, r, x);
    r := Lines41(m, r, x);
    r := Lines45(m, r, x);
  }

  method Round4(m: Alu, s: State, x: seq<Word>) returns (r: State)
    requires Lawful(m) && |x| == 16
    ensures r == Operations(m, 3, 0, s, x)
  {
    r := Lines49(m, s, x);
    r := Lines53(m, r, x);
    r := Lines57(m, r, x);
    r := Lines61(m, r, x);
  }
}
