/**
 The if-then block: an IT instruction names a condition for each of the up to four
 instructions that follow it.  What a replacement of several instructions makes of a
 pending condition depends on how many there are.
 */
module ThumbIt {
  import opened Thumb

  /** ITSTATE: the condition in the upper half, the rest of the block in the lower. */
  type It = s: nat | s < 0x100

  /** The hints share the upper byte and have no mask. */
  predicate IsIt(h: Half) { h / 0x100 == 0xbf && h % 16 != 0 }

  function Advance(s: It): It { if s % 8 == 0 then 0 else s / 0x20 * 0x20 + s * 2 % 0x20 }

  /** The condition that the next instruction runs under. */
  function Under(s: It): nat { if s == 0 then AL else s / 0x10 }

  /** The state behind n instructions. */
  function Later(s: It, n: nat): It
    decreases n
  {
    if n == 0 then s else Later(Advance(s), n - 1)
  }

  function After(s: It, h: Half): It { if IsIt(h) then h % 0x100 else Advance(s) }

  /** From here on every instruction runs under the same condition in both states. */
  ghost predicate SameAhead(s: It, t: It) { forall k: nat :: Under(Later(s, k)) == Under(Later(t, k)) }

  ghost predicate AllUnder(s: It, n: nat) { forall k: nat :: k < n ==> Under(Later(s, k)) == Under(s) }

  /** Where the window has one instruction, n of them run under its condition, and the
      instruction behind them under the condition that it had. */
  ghost predicate RunsAsOne(s: It, n: nat) { AllUnder(s, n) && SameAhead(Later(s, n), Later(s, 1)) }

  /** No condition is pending; a block has at most four instructions. */
  predicate Unconditional(s: It) {
    Under(s) == AL && Under(Later(s, 1)) == AL && Under(Later(s, 2)) == AL && Under(Later(s, 3)) == AL
  }

  lemma {:induction false} LaterLater(s: It, n: nat, k: nat)
    ensures Later(Later(s, n), k) == Later(s, n + k)
    decreases n
  {
    if n > 0 {
      LaterLater(Advance(s), n - 1, k);
    }
  }

  lemma {:induction false} StaysZero(k: nat)
    ensures Later(0, k) == 0
  {
    if k > 0 {
      StaysZero(k - 1);
    }
  }

  lemma AdvanceLow(s: It)
    ensures s % 8 != 0 ==> Advance(s) % 0x20 == s * 2 % 0x20
  {
  }

  lemma Shifted(s: nat)
    ensures s * 2 % 0x20 % 2 == 0 && (s % 2 == 0 ==> s * 2 % 0x20 % 4 == 0) && (s % 4 == 0 ==> s * 2 % 0x20 % 8 == 0)
  {
    LowBits(s * 2);
    Doubled(s);
  }

  lemma Doubled(s: nat)
    ensures s * 2 % 2 == 0 && (s % 2 == 0 ==> s * 2 % 4 == 0) && (s % 4 == 0 ==> s * 2 % 8 == 0)
  {
    Multiples(s, s / 2, s / 4, 0);
    assert s % 2 == 0 ==> s * 2 == 4 * (s / 2) + 0;
    assert s % 4 == 0 ==> s * 2 == 8 * (s / 4) + 0;
    assert s * 2 == 2 * s + 0;
  }

  lemma LowBits(s: nat)
    ensures s % 0x20 % 2 == s % 2 && s % 0x20 % 4 == s % 4 && s % 0x20 % 8 == s % 8
  {
    var q, r := s / 0x20, s % 0x20;
    assert s == 2 * (16 * q) + r == 4 * (8 * q) + r == 8 * (4 * q) + r;
    Multiples(16 * q, 8 * q, 4 * q, r);
  }

  lemma Multiples(x: nat, y: nat, z: nat, r: nat)
    ensures (2 * x + r) % 2 == r % 2 && (4 * y + r) % 4 == r % 4 && (8 * z + r) % 8 == r % 8
  {
    Twos(x, r);
    Fours(y, r);
    Eights(z, r);
  }

  lemma Twos(x: nat, r: nat)
    ensures (2 * x + r) % 2 == r % 2
  {
  }

  lemma Fours(x: nat, r: nat)
    ensures (4 * x + r) % 4 == r % 4
  {
  }

  lemma Eights(x: nat, r: nat)
    ensures (8 * x + r) % 8 == r % 8
  {
  }

  /** Each step clears one more of the low bits. */
  lemma Clears(s: It)
    ensures s % 8 == 0 ==> Advance(s) == 0
    ensures Advance(s) % 2 == 0 && (s % 2 == 0 ==> Advance(s) % 4 == 0) && (s % 4 == 0 ==> Advance(s) % 8 == 0)
  {
    AdvanceLow(s);
    Shifted(s);
    LowBits(Advance(s));
  }

  lemma FourStates(s: It)
    ensures var a := Advance(s); var b := Advance(a); var c := Advance(b); Advance(c) == 0
  {
    var a := Advance(s);
    var b := Advance(a);
    Clears(s);
    Clears(a);
    Clears(b);
    Clears(Advance(b));
  }

  /** Behind four instructions every block has ended. */
  lemma RunsOut(s: It, k: nat)
    requires k >= 4
    ensures Later(s, k) == 0
  {
    FourStates(s);
    assert Later(s, 4) == Later(Advance(s), 3) == Later(Advance(Advance(s)), 2) == Later(Advance(Advance(Advance(s))), 1);
    LaterLater(s, 4, k - 4);
    StaysZero(k - 4);
  }

  ghost predicate NoneAhead(s: It) { forall k: nat :: Under(Later(s, k)) == AL }

  lemma NothingPending(s: It)
    ensures Unconditional(s) <==> NoneAhead(s)
  {
    if Unconditional(s) {
      forall k: nat
        ensures Under(Later(s, k)) == AL
      {
        if k >= 4 {
          RunsOut(s, k);
        }
      }
    }
    assert NoneAhead(s) ==> Under(Later(s, 0)) == AL;
  }

  lemma NoneLater(s: It, n: nat)
    requires NoneAhead(s)
    ensures NoneAhead(Later(s, n))
  {
    forall k: nat
      ensures Under(Later(Later(s, n), k)) == AL
    {
      LaterLater(s, n, k);
    }
  }

  /** A condition behind the first instruction that comes back later is no condition. */
  lemma Comes(s: It, n: nat, k: nat)
    requires n >= 2 && SameAhead(Later(s, n), Later(s, 1))
    ensures Under(Later(s, 1 + k)) == Under(Later(s, n + k))
  {
    LaterLater(s, n, k);
    LaterLater(s, 1, k);
  }

  lemma UnconditionalRuns(s: It, n: nat)
    requires Unconditional(s)
    ensures RunsAsOne(s, n)
  {
    NothingPending(s);
    NoneLater(s, n);
    NoneLater(s, 1);
  }

  /** Several instructions do for one exactly if no condition is pending. */
  lemma RunsAsOneExactly(s: It, n: nat)
    requires n > 0
    ensures RunsAsOne(s, n) <==> n == 1 || Unconditional(s)
  {
    if n > 1 && RunsAsOne(s, n) {
      NothingBehind(s, n, 0);
      NothingBehind(s, n, 1);
      NothingBehind(s, n, 2);
      assert Under(Later(s, 1)) == Under(s);
    }
    if Unconditional(s) {
      UnconditionalRuns(s, n);
    }
  }

  lemma {:induction false} NothingBehind(s: It, n: nat, k: nat)
    requires n >= 2 && SameAhead(Later(s, n), Later(s, 1))
    ensures Under(Later(s, 1 + k)) == AL
    decreases 4 - k
  {
    Comes(s, n, k);
    if n + k >= 4 {
      RunsOut(s, n + k);
    } else {
      NothingBehind(s, n, n + k - 1);
    }
  }

  lemma SameThrough(s: It, t: It, n: nat)
    requires SameAhead(s, t)
    ensures SameAhead(Later(s, n), Later(t, n))
  {
    forall k: nat
      ensures Under(Later(Later(s, n), k)) == Under(Later(Later(t, n), k))
    {
      LaterLater(s, n, k);
      LaterLater(t, n, k);
    }
  }

  /** A copy under the same conditions that does in n instructions what the window does
      in one is under the same conditions behind them. */
  lemma CopyStep(s: It, t: It, n: nat)
    requires SameAhead(s, t) && RunsAsOne(t, n)
    ensures SameAhead(Later(s, n), Later(t, 1))
  {
    SameThrough(s, t, n);
    forall k: nat
      ensures Under(Later(Later(s, n), k)) == Under(Later(Later(t, 1), k))
    {
      assert Under(Later(Later(s, n), k)) == Under(Later(Later(t, n), k));
    }
  }
}
