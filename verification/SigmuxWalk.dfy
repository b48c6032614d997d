/**
 The walk over the handler list: no handler that stays registered is skipped, and
 handlers are called newest first.
 */
module SigmuxWalk {
  import P = Phaser
  import opened Sigmux
  import opened SigmuxInvariant
  import opened SigmuxSteps

  /** The list may lose nodes and gain newer ones, which no walk has met. */
  predicate ListAges(s: State, t: State) {
    && (forall n :: n in s.stamp ==> n in t.stamp && t.stamp[n] == s.stamp[n])
    && (forall n :: n in t.live && n in s.stamp ==> n in s.live)
    && (forall n :: n in s.stamp ==> n in s.regs && n in t.regs && t.regs[n] == s.regs[n])
  }

  lemma NewestFirstAges(s: State, t: State, q: seq<Node>)
    requires ListAges(s, t) && NewestFirst(s, q) && forall n :: n in q ==> n in s.stamp
    ensures NewestFirst(t, q)
  {
    forall i, j | 0 <= i < j < |q|
      ensures Stamp(t, q[j]) < Stamp(t, q[i])
    {
      assert q[i] in s.stamp && q[j] in s.stamp;
      assert Stamp(s, q[j]) < Stamp(s, q[i]);
    }
  }

  lemma CalledAges(s: State, t: State, d: Dispatch, low: bool, bound: int)
    requires ListAges(s, t) && CalledDownTo(s, d, low, bound) && forall n :: n in d.atLoad ==> n in s.stamp
    ensures CalledDownTo(t, d, low, bound)
  {
    forall n | Owed(t, d, n, low) && bound <= Stamp(t, n)
      ensures n in Calls(d, low)
    {
      assert Owed(s, d, n, low);
    }
  }

  lemma LogsAge(s: State, t: State, d: Dispatch)
    requires Logs(s, d) && ListAges(s, t)
    ensures Logs(t, d)
  {
    NewestFirstAges(s, t, Calls(d, false));
    NewestFirstAges(s, t, Calls(d, true));
  }

  lemma PositionAges(s: State, t: State, d: Dispatch)
    requires Logs(s, d) && Position(s, d) && ListAges(s, t) && HEAD !in t.stamp
    ensures Position(t, d)
  {
    if Walking(d.at) {
      CalledAges(s, t, d, d.at.low, if d.at.Visit? then Lower(s, d.it) + 1 else Lower(s, d.it));
    }
  }

  lemma WalkAges(s: State, t: State, d: Dispatch)
    requires WalkOf(s, d) && ListAges(s, t) && HEAD !in t.stamp
    ensures WalkOf(t, d)
  {
    LogsAge(s, t, d);
    PositionAges(s, t, d);
    if CalledDownTo(s, d, false, 0) {
      CalledAges(s, t, d, false, 0);
    }
    if CalledDownTo(s, d, true, 0) {
      CalledAges(s, t, d, true, 0);
    }
  }

  /** Every dispatch but id is untouched. */
  lemma WalkMove(s: State, t: State, id: nat)
    requires Walk(s) && ListAges(s, t) && HEAD !in t.stamp
    requires id in t.dispatches && t.dispatches == s.dispatches[id := t.dispatches[id]]
    requires WalkOf(t, t.dispatches[id])
    ensures Walk(t)
  {
    forall jd
      ensures WalkAt(t, jd)
    {
      assert WalkAt(s, jd);
      if jd in s.dispatches && jd != id {
        WalkAges(s, t, s.dispatches[jd]);
      }
    }
  }

  lemma WalkWriter(s: State, t: State)
    requires Walk(s) && ListAges(s, t) && HEAD !in t.stamp && t.dispatches == s.dispatches
    ensures Walk(t)
  {
    forall jd
      ensures WalkAt(t, jd)
    {
      assert WalkAt(s, jd);
      if jd in s.dispatches {
        WalkAges(s, t, s.dispatches[jd]);
      }
    }
  }

  lemma SameListAges(s: State, t: State)
    requires List(s) && SameList(s, t)
    ensures ListAges(s, t) && HEAD !in t.stamp
  {
  }

  lemma ListStepAges(s: State, l: ListAction)
    requires List(s) && ListEnabled(s, l)
    ensures ListAges(s, ListStep(s, l)) && HEAD !in ListStep(s, l).stamp
  {
  }

  // ----------------------------------------------------------- reader steps

  lemma WalkLoadHead(s: State, d: Dispatch)
    requires List(s) && WalkOf(s, d) && ReaderEnabled(s, d, LoadHead)
    ensures WalkOf(s, LoadHeadStep(s, d))
  {
    assert NodeChained(s, HEAD);
    assert IsNext(s, HEAD, s.next[HEAD]);
    assert d.normalCalls == [] && d.lowCalls == [];
  }

  /** The loop ends: at the sentinel everything owed has been called. */
  lemma WalkEnds(s: State, d: Dispatch)
    requires WalkOf(s, d) && d.at.Visit? && (d.it == HEAD || d.action != Search)
    ensures WalkOf(s, TestStep(s, d))
  {
    var e := TestStep(s, d);
    if d.action == Search {
      assert CalledDownTo(s, d, d.at.low, 0);
      forall low: bool | CalledDownTo(s, d, low, 0)
        ensures CalledDownTo(s, e, low, 0)
      {
        forall n | Owed(s, e, n, low) && 0 <= Stamp(s, n)
          ensures n in Calls(e, low)
        {
          assert Owed(s, d, n, low);
        }
      }
    }
    assert NewestFirst(s, Calls(d, false)) && NewestFirst(s, Calls(d, true));
    assert Calls(e, false) == Calls(d, false) && Calls(e, true) == Calls(d, true);
    if Walking(e.at) {
      assert CalledDownTo(s, e, true, Lower(s, e.it) + 1);
    }
  }

  lemma CalledSame(s: State, d: Dispatch, e: Dispatch, low: bool, bound: int)
    requires CalledDownTo(s, d, low, bound) && e.atLoad == d.atLoad && e.signum == d.signum && Calls(e, low) == Calls(d, low)
    ensures CalledDownTo(s, e, low, bound)
  {
    forall n | Owed(s, e, n, low) && bound <= Stamp(s, n)
      ensures n in Calls(e, low)
    {
      assert Owed(s, d, n, low);
    }
  }

  lemma NewestFirstExtend(s: State, q: seq<Node>, n: Node)
    requires NewestFirst(s, q) && forall m :: m in q ==> Stamp(s, n) < Stamp(s, m)
    ensures NewestFirst(s, q + [n])
  {
    var r := q + [n];
    forall i, j | 0 <= i < j < |r|
      ensures Stamp(s, r[j]) < Stamp(s, r[i])
    {
      assert r[i] in q;
    }
  }

  /** Once `it` itself has been dealt with, the walk is complete down to it. */
  lemma CalledMeets(s: State, d: Dispatch, e: Dispatch)
    requires Distinct(s) && d.at.Visit? && d.it in s.stamp && d.it != HEAD
    requires forall n :: n in d.atLoad ==> n in s.stamp
    requires CalledDownTo(s, d, d.at.low, Lower(s, d.it) + 1)
    requires e.atLoad == d.atLoad && e.signum == d.signum
    requires forall n :: n in Calls(d, d.at.low) ==> n in Calls(e, d.at.low)
    requires Matches(s, d.it, d.signum, d.at.low) ==> d.it in Calls(e, d.at.low)
    ensures CalledDownTo(s, e, d.at.low, Lower(s, d.it))
  {
    forall n | Owed(s, e, n, d.at.low) && Lower(s, d.it) <= Stamp(s, n)
      ensures n in Calls(e, d.at.low)
    {
      assert Owed(s, d, n, d.at.low);
    }
  }

  lemma LogsMeet(s: State, d: Dispatch)
    requires HEAD !in s.stamp && Logs(s, d) && Position(s, d) && d.at.Visit? && d.it != HEAD && d.action == Search
    ensures Logs(s, TestStep(s, d))
    ensures forall n :: n in Calls(d, d.at.low) ==> n in Calls(TestStep(s, d), d.at.low)
    ensures Calls(TestStep(s, d), !d.at.low) == Calls(d, !d.at.low)
  {
    var e := TestStep(s, d);
    var low := d.at.low;
    assert NewestFirst(s, Calls(d, false)) && NewestFirst(s, Calls(d, true));
    if Matches(s, d.it, d.signum, low) {
      assert Calls(e, low) == Calls(d, low) + [d.it];
      NewestFirstExtend(s, Calls(d, low), d.it);
    } else {
      assert Calls(e, low) == Calls(d, low);
    }
  }

  lemma WalkMeets(s: State, d: Dispatch)
    requires HEAD !in s.stamp && Distinct(s) && WalkOf(s, d) && d.at.Visit? && d.it != HEAD && d.action == Search
    ensures WalkOf(s, TestStep(s, d))
  {
    LogsMeet(s, d);
    CalledMeets(s, d, TestStep(s, d));
    if d.at.low && d.normalPass {
      CalledSame(s, d, TestStep(s, d), false, 0);
    }
  }

  lemma WalkReturns(s: State, d: Dispatch, r: ReaderAction)
    requires WalkOf(s, d) && ReaderEnabled(s, d, r) && (r.Return? || r.LongJump? || r.LoadSlot? || r.CopySlot?)
    ensures WalkOf(s, ReaderStep(s, d, r))
  {
    var e := ReaderStep(s, d, r);
    assert NewestFirst(s, Calls(d, false)) && NewestFirst(s, Calls(d, true));
    assert Calls(e, false) == Calls(d, false) && Calls(e, true) == Calls(d, true);
    if r.Return? {
      CalledSame(s, d, e, d.at.low, Lower(s, d.it));
      if d.at.low && d.normalPass {
        CalledSame(s, d, e, false, 0);
      }
    } else if !r.LongJump? {
      PassesSame(s, d, e);
    }
  }

  lemma WalkFollows(s: State, d: Dispatch)
    requires List(s) && WalkOf(s, d) && d.at.Advance? && d.it in s.next
    requires IsNext(s, d.it, s.next[d.it])
    ensures WalkOf(s, ReaderStep(s, d, Follow))
  {
    var e := ReaderStep(s, d, Follow);
    var low := d.at.low;
    assert NewestFirst(s, Calls(d, false)) && NewestFirst(s, Calls(d, true));
    assert Calls(e, false) == Calls(d, false) && Calls(e, true) == Calls(d, true);
    assert CalledDownTo(s, e, low, Lower(s, e.it) + 1) by {
      forall n | Owed(s, e, n, low) && Lower(s, e.it) + 1 <= Stamp(s, n)
        ensures n in Calls(e, low)
      {
        assert Owed(s, d, n, low);
      }
    }
    if low && d.normalPass && d.action == Search {
      CalledSame(s, d, e, false, 0);
    }
  }

  lemma WalkReader(s: State, id: nat, r: ReaderAction)
    requires Walk(s) && List(s) && Held(s) && id in s.dispatches && ReaderEnabled(s, s.dispatches[id], r)
    ensures Walk(With(s, id, ReaderStep(s, s.dispatches[id], r)))
  {
    var d := s.dispatches[id];
    var t := With(s, id, ReaderStep(s, d, r));
    assert WalkAt(s, id);
    match r {
      case LoadHead => WalkLoadHead(s, d);
      case Test => if d.it == HEAD || d.action != Search { WalkEnds(s, d); } else { WalkMeets(s, d); }
      case Follow =>
        assert NodeChained(s, d.it);
        assert Holds(s, id, d.it);
        WalkFollows(s, d);
      case _ => WalkReturns(s, d, r);
    }
    SameListAges(s, t);
    WalkAges(s, t, t.dispatches[id]);
    WalkMove(s, t, id);
  }

  // ------------------------------------------------------------- other steps

  predicate SameDuties(d: Dispatch, e: Dispatch) {
    && e.signum == d.signum && e.normalPass == d.normalPass && e.lowPass == d.lowPass && e.action == d.action
    && e.normalCalls == d.normalCalls && e.lowCalls == d.lowCalls && e.atLoad == d.atLoad
  }

  lemma PassesSame(s: State, d: Dispatch, e: Dispatch)
    requires Passes(s, d) && SameDuties(d, e) && Over(d.at) && Over(e.at) && !e.at.LoadOrig?
    ensures Passes(s, e)
  {
    if CalledDownTo(s, d, false, 0) {
      CalledSame(s, d, e, false, 0);
    }
    if CalledDownTo(s, d, true, 0) {
      CalledSame(s, d, e, true, 0);
    }
  }

  /** A dispatch whose walk is over calls nothing more. */
  lemma WalkQuiet(s: State, d: Dispatch, e: Dispatch)
    requires WalkOf(s, d) && SameDuties(d, e) && Over(d.at)
    requires e.at.TakeOneShot? || e.at.ClearFlag? || e.at.Leave? || e.at.Left?
    ensures WalkOf(s, e)
  {
    assert NewestFirst(s, Calls(d, false)) && NewestFirst(s, Calls(d, true));
    assert Calls(e, false) == Calls(d, false) && Calls(e, true) == Calls(d, true);
    forall low: bool
      ensures NewestFirst(s, Calls(e, low))
    {
    }
    PassesSame(s, d, e);
  }

  /** A step of dispatch id, its walk over, that keeps the list. */
  lemma WalkPast(s: State, t: State, id: nat)
    requires Walk(s) && List(s) && SameList(s, t) && id in s.dispatches && id in t.dispatches
    requires t.dispatches == s.dispatches[id := t.dispatches[id]]
    requires var d, e := s.dispatches[id], t.dispatches[id];
             SameDuties(d, e) && Over(d.at) && (e.at.TakeOneShot? || e.at.ClearFlag? || e.at.Leave? || e.at.Left?)
    ensures Walk(t)
  {
    assert WalkAt(s, id);
    SameListAges(s, t);
    WalkQuiet(s, s.dispatches[id], t.dispatches[id]);
    WalkAges(s, t, t.dispatches[id]);
    WalkMove(s, t, id);
  }

  lemma WalkSignal(cap: nat, s: State, id: nat, g: int, n: bool, l: bool, i: bool)
    requires Walk(s) && List(s) && P.Enabled(cap, s.ph, P.Begin(id))
    ensures Walk(SignalStep(cap, s, id, NewDispatch(g, n, l, i)))
  {
    var t := SignalStep(cap, s, id, NewDispatch(g, n, l, i));
    SameListAges(s, t);
    WalkMove(s, t, id);
  }

  lemma WalkPhaser(cap: nat, s: State, pa: P.Action)
    requires Walk(s) && List(s) && PurePhaserStep(s, pa) && P.Enabled(cap, s.ph, pa)
    ensures Walk(PhaserStep(cap, s, pa))
  {
    PhaserShape(cap, s, pa);
    var t := PhaserStep(cap, s, pa);
    SameListAges(s, t);
    if t.dispatches == s.dispatches {
      WalkWriter(s, t);
    } else {
      assert WalkAt(s, pa.id);
      WalkMove(s, t, pa.id);
    }
  }
}
