/**
 Wake-ups and progress of phaser_drain.  A drainer that sleeps on a drained
 counter is always owed a FUTEX_WAKE exactly when fewer than 2^32 sections can be
 in flight, because FUTEX_WAIT compares 32 bits of a 64-bit counter; and then a
 drain finishes in a bounded number of steps once its sections end.
 */
module PhaserWakeup {
  import opened Phaser

  ghost predicate WakeOwed(s: State) {
    s.drainer.Asleep? && s.counter[s.drainer.i] == COUNT_DRAINED ==>
      exists id :: At(s, id, Wake(s.drainer.i))
  }

  ghost predicate NoLostWakeup(cap: nat) {
    forall s :: Reachable(cap, s) ==> WakeOwed(s)
  }

  lemma FutexPartExact(v: Word, w: Word)
    requires DRAINING <= v < DRAINING + FUTEX_RANGE && DRAINING <= w < DRAINING + FUTEX_RANGE
    ensures FutexPart(v) == FutexPart(w) <==> v == w
  {
    assert DRAINING == FUTEX_RANGE * 0x8000_0000;
    assert v % FUTEX_RANGE == v - DRAINING;
    assert w % FUTEX_RANGE == w - DRAINING;
  }

  lemma DrainedCounter(cap: nat, s: State)
    requires cap < DRAINING && Basic(cap, s)
    requires s.drainer.Loop? || s.drainer.Wait? || s.drainer.Asleep? || s.drainer.Reload?
    ensures s.counter[s.drainer.i] == DRAINING + |Holders(s, s.drainer.i)|
    ensures DRAINING <= s.counter[s.drainer.i] <= DRAINING + cap
  {
    assert Draining(s, s.drainer.i);
  }

  lemma WakeOwedStep(cap: nat, s: State, a: Action)
    requires cap < FUTEX_RANGE && Basic(cap, s) && WakeOwed(s) && Enabled(cap, s, a)
    ensures WakeOwed(Apply(cap, s, a))
  {
    var t := Apply(cap, s, a);
    if t.drainer.Asleep? && t.counter[t.drainer.i] == COUNT_DRAINED {
      var i := t.drainer.i;
      if a.DrainWait? {
        DrainedCounter(cap, s);
        FutexPartExact(s.counter[i], s.drainer.value);
      } else if s.counter[i] == COUNT_DRAINED {
        var id :| At(s, id, Wake(i));
        assert At(t, id, Wake(i));
      } else {
        BasicStep(cap, s, a);
        DrainedCounter(cap, s);
        assert At(t, a.id, Wake(i));
      }
    }
  }

  lemma {:induction false} WakeOwedRun(cap: nat, s: State, acts: seq<Action>, t: State)
    requires cap < FUTEX_RANGE && Basic(cap, s) && WakeOwed(s) && Run(cap, s, acts, t)
    ensures WakeOwed(t)
    decreases |acts|
  {
    if acts != [] {
      BasicStep(cap, s, acts[0]);
      WakeOwedStep(cap, s, acts[0]);
      WakeOwedRun(cap, Apply(cap, s, acts[0]), acts[1..], t);
    }
  }

  // ------------------------------------- 2^32 sections at once lose a wake-up

  function Fill<T>(n: nat, v: T): (m: map<nat, T>)
    ensures forall i: nat :: i in m <==> i < n
    ensures forall i: nat :: i < n ==> m[i] == v
  {
    if n == 0 then map[] else Fill(n - 1, v)[n - 1 := v]
  }

  /** n sections have entered through counter 0. */
  ghost function Crowd(n: nat): State
    requires n < DRAINING
  {
    State([n, 0], Fill(n, Inside(0)), Idle, {}, 0, 0, Fill(n, 0), Fill(n, []))
  }

  /** Section n has come as far as v, after n others have entered. */
  ghost function Incoming(n: nat, v: Section): State
    requires n < DRAINING
  {
    var s := Crowd(n);
    s.(sections := s.sections[n := v], began := s.began[n := 0], failed := s.failed[n := []])
  }

  lemma IncomingCount(n: nat)
    requires n < DRAINING
    ensures InFlight(Incoming(n, Add(0))) == InFlight(Crowd(n))
  {
    ThoseUpdate(Crowd(n).sections, n, Add(0), Inside(0));
    ThoseUpdate(Crowd(n).sections, n, Add(0), Inside(1));
  }

  lemma IncomingSteps(cap: nat, n: nat)
    requires n < cap < DRAINING && InFlight(Crowd(n)) == n
    ensures Enabled(cap, Crowd(n), Begin(n)) && Apply(cap, Crowd(n), Begin(n)) == Incoming(n, Test(0))
    ensures Enabled(cap, Incoming(n, Test(0)), Load(n)) && Apply(cap, Incoming(n, Test(0)), Load(n)) == Incoming(n, Add(0))
    ensures Enabled(cap, Incoming(n, Add(0)), Increment(n)) && Apply(cap, Incoming(n, Add(0)), Increment(n)) == Crowd(n + 1)
  {
    IncomingCount(n);
    assert Crowd(n).sections[n := Test(0)][n := Add(0)] == Crowd(n).sections[n := Add(0)];
    assert Crowd(n).sections[n := Add(0)][n := Inside(0)] == Crowd(n).sections[n := Inside(0)];
  }

  lemma ReachableTo(cap: nat, s: State, a: Action, t: State)
    requires Reachable(cap, s) && Enabled(cap, s, a) && Apply(cap, s, a) == t
    ensures Reachable(cap, t)
  {
    ReachableStep(cap, s, a);
  }

  lemma CrowdGrows(cap: nat, n: nat)
    requires n < cap < DRAINING && Reachable(cap, Crowd(n)) && InFlight(Crowd(n)) == n
    ensures Reachable(cap, Crowd(n + 1))
  {
    IncomingSteps(cap, n);
    ReachableTo(cap, Crowd(n), Begin(n), Incoming(n, Test(0)));
    ReachableTo(cap, Incoming(n, Test(0)), Load(n), Incoming(n, Add(0)));
    ReachableTo(cap, Incoming(n, Add(0)), Increment(n), Crowd(n + 1));
  }

  lemma {:induction false} CrowdReachable(cap: nat, n: nat)
    requires n <= cap < DRAINING
    ensures Reachable(cap, Crowd(n))
  {
    if n == 0 {
      assert Crowd(0) == Init;
      assert Run(cap, Init, [], Init);
    } else {
      CrowdReachable(cap, n - 1);
      QuietCounters(cap, Crowd(n - 1));
      CrowdGrows(cap, n - 1);
    }
  }

  function Dispersed(n: nat, k: nat): (m: map<nat, Section>)
    requires k <= n
    ensures forall i: nat :: i in m <==> i < n
    ensures forall i: nat :: i < n ==> m[i] == if i < k then Gone else Inside(0)
  {
    if k == 0 then Fill(n, Inside(0)) else Dispersed(n, k - 1)[k - 1 := Gone]
  }

  /** The drainer has read DRAINING + n and is about to sleep on it, while the
      first k of the n sections have exited. */
  ghost function Dispersing(n: nat, k: nat): State
    requires k <= n < DRAINING
  {
    State([DRAINING + n - k, 0], Dispersed(n, k), Wait(0, DRAINING + n), Fill(n, 0).Keys, 1, 0, Fill(n, 0), Fill(n, []))
  }

  lemma DispersingStarts(cap: nat, n: nat)
    requires 0 < n <= cap < DRAINING
    ensures Reachable(cap, Dispersing(n, 0))
  {
    var s := Crowd(n);
    CrowdReachable(cap, n);
    ReachableStep(cap, s, DrainBegin);
    var s1 := Apply(cap, s, DrainBegin);
    assert s1 == s.(drainer := Or(0), before := Fill(n, 0).Keys) by {
      assert s1.before == Fill(n, 0).Keys;
    }
    ReachableStep(cap, s1, DrainOr);
    var s2 := Apply(cap, s1, DrainOr);
    assert s2.counter == Dispersing(n, 0).counter;
    ReachableTo(cap, s2, DrainTest, Dispersing(n, 0));
  }

  /** Section k exits; the last one also calls FUTEX_WAKE, which finds no sleeper. */
  ghost function Departure(cap: nat, n: nat, k: nat): State
    requires k < n < DRAINING
  {
    var s := Apply(cap, Dispersing(n, k), Decrement(k));
    if k + 1 == n then Apply(cap, s, FutexWake(k)) else s
  }

  lemma DepartureIs(cap: nat, n: nat, k: nat)
    requires k < n < DRAINING
    ensures Departure(cap, n, k) == Dispersing(n, k + 1)
  {
    assert Dispersed(n, k)[k := Wake(0)][k := Gone] == Dispersed(n, k + 1);
  }

  lemma {:induction false} DispersingReachable(cap: nat, n: nat, k: nat)
    requires 0 < n <= cap < DRAINING && k <= n
    ensures Reachable(cap, Dispersing(n, k))
  {
    if k == 0 {
      DispersingStarts(cap, n);
    } else {
      DispersingReachable(cap, n, k - 1);
      DepartureIs(cap, n, k - 1);
      ReachableStep(cap, Dispersing(n, k - 1), Decrement(k - 1));
      if k == n {
        ReachableStep(cap, Apply(cap, Dispersing(n, k - 1), Decrement(k - 1)), FutexWake(k - 1));
      }
    }
  }

  lemma WakeupCanBeLost(cap: nat)
    requires FUTEX_RANGE <= cap < DRAINING
    ensures !NoLostWakeup(cap)
  {
    var n := FUTEX_RANGE;
    var s := Dispersing(n, n);
    DispersingReachable(cap, n, n);
    ReachableStep(cap, s, DrainWait);
    var t := Apply(cap, s, DrainWait);
    assert t.drainer == Asleep(0);
    assert !WakeOwed(t);
  }

  /** No reachable state has the drainer asleep on a drained counter without a
      pending FUTEX_WAKE, exactly when at most 2^32 - 1 sections are in flight. */
  lemma LostWakeupBound(cap: nat)
    requires cap < DRAINING
    ensures NoLostWakeup(cap) <==> cap < FUTEX_RANGE
  {
    if cap < FUTEX_RANGE {
      forall s | Reachable(cap, s)
        ensures WakeOwed(s)
      {
        var acts :| Run(cap, Init, acts, s);
        BasicInit(cap);
        WakeOwedRun(cap, Init, acts, s);
      }
    } else {
      WakeupCanBeLost(cap);
    }
  }

  // ------------------------------------------------------------------ progress

  /** How many instructions a section has left until it is gone, not counting
      failed tests. */
  ghost function SectionsLeft(s: State): nat { LeftIn(s.sections) }

  ghost function LeftIn(sections: map<nat, Section>): nat {
    4 * (|Those(sections, Test(0))| + |Those(sections, Test(1))|) +
    3 * (|Those(sections, Add(0))| + |Those(sections, Add(1))|) +
    2 * (|Those(sections, Inside(0))| + |Those(sections, Inside(1))|) +
    |Those(sections, Wake(0))| + |Those(sections, Wake(1))|
  }

  function DrainerLeft(s: State): nat {
    match s.drainer
    case Idle => 0
    case Or(i) => 10 * (2 - i) + 9
    case Loop(i, v) => 10 * (2 - i) + (if v == s.counter[i] then 3 else 6)
    case Wait(i, v) => 10 * (2 - i) + (if v == s.counter[i] then 2 else 5)
    case Asleep(i) => 10 * (2 - i) + 1
    case Reload(i) => 10 * (2 - i) + 4
    case Clear(i) => 10 * (2 - i)
  }

  ghost function StepsLeft(s: State): nat { 40 * SectionsLeft(s) + DrainerLeft(s) }

  /** Everything except a new section, a new drain, a failed test of DRAINING and
      an interrupted wait. */
  ghost predicate Advances(s: State, a: Action) {
    match a
    case Begin(_) => false
    case DrainBegin => false
    case Interrupt => false
    case Load(id) => id in s.sections && s.sections[id].Test? && !IsDraining(s.counter[s.sections[id].p])
    case _ => true
  }

  lemma DrainerProgress(cap: nat, s: State, a: Action)
    requires cap < FUTEX_RANGE && Basic(cap, s) && Enabled(cap, s, a) && Advances(s, a)
    requires a.DrainOr? || a.DrainTest? || a.DrainWait? || a.DrainReload? || a.DrainClear?
    ensures DrainerLeft(Apply(cap, s, a)) < DrainerLeft(s)
  {
    if a.DrainWait? {
      DrainedCounter(cap, s);
      FutexPartExact(s.counter[s.drainer.i], s.drainer.value);
    }
  }

  /** A section moves on to its next instruction. */
  predicate Follows(was: Section, x: Section) {
    match was
    case Test(p) => x == Add(p)
    case Add(p) => x == Inside(p)
    case Inside(p) => x == Wake(p) || x == Gone
    case Wake(p) => x == Gone
    case Gone => false
  }

  lemma SectionMoves(cap: nat, s: State, a: Action)
    requires Enabled(cap, s, a) && Advances(s, a)
    requires a.Load? || a.Increment? || a.Decrement? || a.FutexWake?
    ensures var t := Apply(cap, s, a).sections;
            a.id in s.sections && a.id in t && t == s.sections[a.id := t[a.id]] && Follows(s.sections[a.id], t[a.id])
  {
  }

  lemma LeftDrops(sections: map<nat, Section>, id: nat, x: Section)
    requires id in sections && Follows(sections[id], x)
    ensures LeftIn(sections[id := x]) < LeftIn(sections)
  {
    SectionsLeftStep(sections, id, x);
  }

  lemma SectionProgress(cap: nat, s: State, a: Action)
    requires Enabled(cap, s, a) && Advances(s, a)
    requires a.Load? || a.Increment? || a.Decrement? || a.FutexWake?
    ensures SectionsLeft(Apply(cap, s, a)) < SectionsLeft(s)
  {
    SectionMoves(cap, s, a);
    LeftDrops(s.sections, a.id, Apply(cap, s, a).sections[a.id]);
  }

  lemma Progress(cap: nat, s: State, a: Action)
    requires cap < FUTEX_RANGE && Basic(cap, s) && Enabled(cap, s, a) && Advances(s, a)
    ensures StepsLeft(Apply(cap, s, a)) < StepsLeft(s)
  {
    if a.Load? || a.Increment? || a.Decrement? || a.FutexWake? {
      SectionProgress(cap, s, a);
      assert DrainerLeft(Apply(cap, s, a)) < 40;
    } else {
      DrainerProgress(cap, s, a);
      assert Apply(cap, s, a).sections == s.sections;
    }
  }

  lemma SectionsLeftStep(sections: map<nat, Section>, id: nat, x: Section)
    requires id in sections && Follows(sections[id], x)
    ensures var was := sections[id]; var next := sections[id := x];
            forall v :: |Those(next, v)| == |Those(sections, v)| + (if v == x then 1 else 0) - (if v == was then 1 else 0)
  {
    forall v
      ensures |Those(sections[id := x], v)| ==
              |Those(sections, v)| + (if v == x then 1 else 0) - (if v == sections[id] then 1 else 0)
    {
      ThoseUpdate(sections, id, x, v);
    }
  }

  /** A drain takes at most StepsLeft steps of the drainer and of the sections
      already begun. */
  lemma {:induction false} BoundedDrain(cap: nat, s: State, acts: seq<Action>, t: State)
    requires cap < FUTEX_RANGE && Basic(cap, s) && Run(cap, s, acts, t)
    requires AllAdvance(cap, s, acts)
    ensures |acts| + StepsLeft(t) <= StepsLeft(s)
    decreases |acts|
  {
    if acts != [] {
      Progress(cap, s, acts[0]);
      BasicStep(cap, s, acts[0]);
      BoundedDrain(cap, Apply(cap, s, acts[0]), acts[1..], t);
    }
  }

  ghost predicate AllAdvance(cap: nat, s: State, acts: seq<Action>)
    decreases |acts|
  {
    acts != [] ==>
      Enabled(cap, s, acts[0]) && Advances(s, acts[0]) && AllAdvance(cap, Apply(cap, s, acts[0]), acts[1..])
  }

  /** A drain is never stuck: while it is under way some step advances it, unless
      it waits for the end of a section that is still inside. */
  lemma NeverStuck(cap: nat, s: State)
    requires cap < FUTEX_RANGE && Reachable(cap, s) && !s.drainer.Idle?
    ensures (exists a: Action :: !a.Decrement? && Enabled(cap, s, a) && Advances(s, a))
         || (s.drainer.Asleep? && exists id :: At(s, id, Inside(s.drainer.i)))
  {
    BasicReachable(cap, s);
    LostWakeupBound(cap);
    assert WakeOwed(s);
    var a := match s.drainer case Or(_) => DrainOr case Loop(_, _) => DrainTest case Wait(_, _) => DrainWait
                             case Reload(_) => DrainReload case _ => DrainClear;
    if s.drainer.Asleep? {
      DrainedCounter(cap, s);
      if s.counter[s.drainer.i] == COUNT_DRAINED {
        var id :| At(s, id, Wake(s.drainer.i));
        assert Enabled(cap, s, FutexWake(id)) && Advances(s, FutexWake(id));
      } else {
        var id :| id in Holders(s, s.drainer.i);
        assert At(s, id, Inside(s.drainer.i));
      }
    } else {
      assert Enabled(cap, s, a) && Advances(s, a);
    }
  }
}
