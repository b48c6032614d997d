/**
 The phaser of phaser.c (FUTEX strategy) as a sequentially consistent step system.

 Every atomic instruction of phaser_enter, phaser_exit and phaser_drain is one
 action.  Critical sections carry ids of their own, because they nest through
 signals and are not tied to threads.  Counters are 64-bit words with explicit
 wrap-around; the futex compares only the low 32 bits of a word, as FUTEX_WAIT
 does with its `int` argument.
 */
module Phaser {

  const WORD_SIZE: nat := 0x1_0000_0000_0000_0000
  const DRAINING: nat := 0x8000_0000_0000_0000
  const COUNT_DRAINED: nat := DRAINING
  const FUTEX_RANGE: nat := 0x1_0000_0000

  type Word = w: nat | w < WORD_SIZE
  type Phase = p: nat | p < 2
  type Counters = s: seq<Word> | |s| == 2 witness [0, 0]

  predicate IsDraining(w: Word) { w >= DRAINING }

  function AddOne(w: Word): Word { if w == WORD_SIZE - 1 then 0 else w + 1 }

  function SubOne(w: Word): Word { if w == 0 then WORD_SIZE - 1 else w - 1 }

  function OrDraining(w: Word): Word { if IsDraining(w) then w else w + DRAINING }

  function AndNotDraining(w: Word): Word { if IsDraining(w) then w - DRAINING else w }

  /** The part of a word that FUTEX_WAIT looks at. */
  function FutexPart(w: Word): nat { w % FUTEX_RANGE }

  function Flip(p: Phase): Phase { 1 - p }

  /** Where a section stands inside phaser_enter / phaser_exit. */
  datatype Section =
    | Test(p: Phase)    // about to load counter[p] and test DRAINING
    | Add(p: Phase)     // saw DRAINING clear, about to increment counter[p]
    | Inside(p: Phase)  // has incremented counter[p]
    | Wake(p: Phase)    // decremented counter[p] to COUNT_DRAINED, owes FUTEX_WAKE
    | Gone

  /** Where the single drainer stands inside phaser_drain. */
  datatype Drainer =
    | Idle
    | Or(i: Phase)                // about to set DRAINING on counter[i]
    | Loop(i: Phase, value: Word) // at the head of the wait loop
    | Wait(i: Phase, value: Word) // about to call FUTEX_WAIT with value
    | Asleep(i: Phase)            // blocked in FUTEX_WAIT on counter[i]
    | Reload(i: Phase)            // back from FUTEX_WAIT, about to load counter[i]
    | Clear(i: Phase)             // about to clear DRAINING on counter[i]

  /** `before` holds the sections that were inside when the current (or last)
      drain began; `ors` counts counter drains started so far and `lastOr` names
      the latest one; `began` and `failed` record, for each section, the value of
      `ors` when it began and at each failed test of DRAINING. */
  datatype State = State(
    counter: Counters,
    sections: map<nat, Section>,
    drainer: Drainer,
    before: set<nat>,
    ors: nat,
    lastOr: Phase,
    began: map<nat, nat>,
    failed: map<nat, seq<nat>>)

  datatype Action =
    | Begin(id: nat)      // phaser_enter is called
    | Load(id: nat)
    | Increment(id: nat)
    | Decrement(id: nat)  // phaser_exit is called
    | FutexWake(id: nat)
    | DrainBegin
    | DrainOr
    | DrainTest
    | DrainWait
    | Interrupt           // EINTR or a spurious wake-up
    | DrainReload
    | DrainClear

  const Init: State := State([0, 0], map[], Idle, {}, 0, 0, map[], map[])

  ghost function Those(sections: map<nat, Section>, v: Section): set<nat> {
    set id | id in sections && sections[id] == v
  }

  ghost function Holders(s: State, p: Phase): set<nat> { Those(s.sections, Inside(p)) }

  ghost function InFlight(s: State): nat { |Holders(s, 0)| + |Holders(s, 1)| }

  predicate At(s: State, id: nat, v: Section) { id in s.sections && s.sections[id] == v }

  predicate IsInside(s: State, id: nat) { id in s.sections && s.sections[id].Inside? }

  function Failures(s: State, id: nat): seq<nat> { if id in s.failed then s.failed[id] else [] }

  /** `cap` bounds the number of sections that are in flight at once. */
  ghost predicate Enabled(cap: nat, s: State, a: Action) {
    match a
    case Begin(id) => id !in s.sections
    case Load(id) => id in s.sections && s.sections[id].Test?
    case Increment(id) => id in s.sections && s.sections[id].Add? && InFlight(s) < cap
    case Decrement(id) => id in s.sections && s.sections[id].Inside?
    case FutexWake(id) => id in s.sections && s.sections[id].Wake?
    case DrainBegin => s.drainer.Idle?
    case DrainOr => s.drainer.Or?
    case DrainTest => s.drainer.Loop?
    case DrainWait => s.drainer.Wait?
    case Interrupt => s.drainer.Wait? || s.drainer.Asleep?
    case DrainReload => s.drainer.Reload?
    case DrainClear => s.drainer.Clear?
  }

  ghost function Apply(cap: nat, s: State, a: Action): State
    requires Enabled(cap, s, a)
  {
    match a
    case Begin(id) =>
      s.(sections := s.sections[id := Test(0)], began := s.began[id := s.ors], failed := s.failed[id := []])
    case Load(id) =>
      var p := s.sections[id].p;
      if IsDraining(s.counter[p])
      then s.(sections := s.sections[id := Test(Flip(p))], failed := s.failed[id := Failures(s, id) + [s.ors]])
      else s.(sections := s.sections[id := Add(p)])
    case Increment(id) =>
      var p := s.sections[id].p;
      s.(counter := s.counter[p := AddOne(s.counter[p])], sections := s.sections[id := Inside(p)])
    case Decrement(id) =>
      var p := s.sections[id].p;
      var value := SubOne(s.counter[p]);
      s.(counter := s.counter[p := value],
         sections := s.sections[id := if value == COUNT_DRAINED then Wake(p) else Gone])
    case FutexWake(id) =>
      var p := s.sections[id].p;
      s.(sections := s.sections[id := Gone],
         drainer := if s.drainer == Asleep(p) then Reload(p) else s.drainer)
    case DrainBegin =>
      s.(drainer := Or(0), before := set id | id in s.sections && s.sections[id].Inside?)
    case DrainOr =>
      var i := s.drainer.i;
      var value := OrDraining(s.counter[i]);
      s.(counter := s.counter[i := value], drainer := Loop(i, value), ors := s.ors + 1, lastOr := i)
    case DrainTest =>
      var i := s.drainer.i;
      s.(drainer := if s.drainer.value == COUNT_DRAINED then Clear(i) else Wait(i, s.drainer.value))
    case DrainWait =>
      var i := s.drainer.i;
      s.(drainer := if FutexPart(s.counter[i]) == FutexPart(s.drainer.value) then Asleep(i) else Reload(i))
    case Interrupt => s.(drainer := Reload(s.drainer.i))
    case DrainReload => s.(drainer := Loop(s.drainer.i, s.counter[s.drainer.i]))
    case DrainClear =>
      var i := s.drainer.i;
      s.(counter := s.counter[i := AndNotDraining(s.counter[i])], drainer := if i == 0 then Or(1) else Idle)
  }

  /** Performing `acts` one after the other leads from s to t. */
  ghost predicate Run(cap: nat, s: State, acts: seq<Action>, t: State)
    decreases |acts|
  {
    if acts == [] then s == t
    else Enabled(cap, s, acts[0]) && Run(cap, Apply(cap, s, acts[0]), acts[1..], t)
  }

  ghost predicate Reachable(cap: nat, s: State) {
    exists acts: seq<Action> :: Run(cap, Init, acts, s)
  }

  // ---------------------------------------------------------------- invariants

  predicate Draining(s: State, p: Phase) {
    !s.drainer.Idle? && !s.drainer.Or? && s.drainer.i == p
  }

  /** The low bits of each counter are the number of its holders, and only the
      counter being drained carries DRAINING. */
  ghost predicate CountersExact(s: State) {
    forall p: Phase :: s.counter[p] == |Holders(s, p)| + (if Draining(s, p) then DRAINING else 0)
  }

  /** The stage at which no section of `before` can hold counter p any more. */
  predicate Passed(d: Drainer, p: Phase) {
    match d
    case Idle => true
    case Loop(i, v) => p < i || (p == i && v == COUNT_DRAINED)
    case Clear(i) => p <= i
    case _ => p < d.i
  }

  /** A section that was inside when the drain began never enters again. */
  ghost predicate BeforeEntered(s: State) {
    forall id :: id in s.before ==> id in s.sections && !s.sections[id].Test? && !s.sections[id].Add?
  }

  ghost predicate GraceSoFar(s: State) {
    forall id, p: Phase :: id in s.before && At(s, id, Inside(p)) ==> !Passed(s.drainer, p)
  }

  ghost predicate ValuesSane(cap: nat, s: State) {
    && (s.drainer.Loop? || s.drainer.Wait? ==> DRAINING <= s.drainer.value <= DRAINING + cap)
    && (s.drainer.Wait? ==> s.drainer.value != COUNT_DRAINED)
  }

  ghost predicate Basic(cap: nat, s: State) {
    && CountersExact(s)
    && InFlight(s) <= cap
    && ValuesSane(cap, s)
    && BeforeEntered(s)
    && GraceSoFar(s)
  }

  /** Changing one section changes the number of sections in state v by at most one. */
  lemma ThoseUpdate(sections: map<nat, Section>, id: nat, x: Section, v: Section)
    ensures var a, b := Those(sections, v), Those(sections[id := x], v);
            && (x == v ==> b == a + {id})
            && (x != v ==> b == a - {id})
            && |b| == |a| + (if x == v && id !in a then 1 else 0) - (if x != v && id in a then 1 else 0)
  {
    var a, b := Those(sections, v), Those(sections[id := x], v);
    if x == v {
      assert b == a + {id};
    } else {
      assert b == a - {id};
    }
  }

  lemma HoldersAfter(cap: nat, s: State, a: Action, p: Phase)
    requires Enabled(cap, s, a)
    ensures var t := Apply(cap, s, a);
            |Holders(t, p)| ==
              |Holders(s, p)| + (if a.Increment? && s.sections[a.id].p == p then 1 else 0)
                              - (if a.Decrement? && s.sections[a.id].p == p then 1 else 0)
  {
    var t := Apply(cap, s, a);
    if a.Begin? || a.Load? || a.Increment? || a.Decrement? || a.FutexWake? {
      ThoseUpdate(s.sections, a.id, t.sections[a.id], Inside(p));
      assert t.sections == s.sections[a.id := t.sections[a.id]];
    }
  }

  lemma BasicInit(cap: nat)
    ensures Basic(cap, Init)
  {
  }

  lemma CountersStep(cap: nat, s: State, a: Action)
    requires cap < DRAINING && Basic(cap, s) && Enabled(cap, s, a)
    ensures var t := Apply(cap, s, a); CountersExact(t) && InFlight(t) <= cap
  {
    var t := Apply(cap, s, a);
    HoldersAfter(cap, s, a, 0);
    HoldersAfter(cap, s, a, 1);
    if a.Decrement? {
      assert a.id in Holders(s, s.sections[a.id].p);
    }
    forall p: Phase
      ensures t.counter[p] == |Holders(t, p)| + (if Draining(t, p) then DRAINING else 0)
    {
      assert s.counter[p] == |Holders(s, p)| + (if Draining(s, p) then DRAINING else 0);
    }
  }

  lemma GraceStep(cap: nat, s: State, a: Action)
    requires cap < DRAINING && Basic(cap, s) && Enabled(cap, s, a)
    ensures BeforeEntered(Apply(cap, s, a)) && GraceSoFar(Apply(cap, s, a))
  {
    var t := Apply(cap, s, a);
    forall id, p: Phase | id in t.before && At(t, id, Inside(p))
      ensures !Passed(t.drainer, p)
    {
      if !a.DrainBegin? {
        assert id in s.before;
        assert At(s, id, Inside(p));
        assert id in Holders(s, p);
        assert s.counter[p] == |Holders(s, p)| + (if Draining(s, p) then DRAINING else 0);
      }
    }
  }

  lemma BasicStep(cap: nat, s: State, a: Action)
    requires cap < DRAINING && Basic(cap, s) && Enabled(cap, s, a)
    ensures Basic(cap, Apply(cap, s, a))
  {
    var t := Apply(cap, s, a);
    CountersStep(cap, s, a);
    GraceStep(cap, s, a);
    assert ValuesSane(cap, t) by {
      if a.DrainOr? || a.DrainReload? {
        var i := s.drainer.i;
        assert t.counter[i] == |Holders(t, i)| + DRAINING;
      }
    }
  }

  // --------------------------------------------------------------------- runs

  lemma {:induction false} BasicRun(cap: nat, s: State, acts: seq<Action>, t: State)
    requires cap < DRAINING && Basic(cap, s) && Run(cap, s, acts, t)
    ensures Basic(cap, t)
    decreases |acts|
  {
    if acts != [] {
      BasicStep(cap, s, acts[0]);
      BasicRun(cap, Apply(cap, s, acts[0]), acts[1..], t);
    }
  }

  lemma BasicReachable(cap: nat, s: State)
    requires cap < DRAINING && Reachable(cap, s)
    ensures Basic(cap, s)
  {
    var acts :| Run(cap, Init, acts, s);
    BasicInit(cap);
    BasicRun(cap, Init, acts, s);
  }

  lemma {:induction false} RunThen(cap: nat, s: State, acts: seq<Action>, t: State, a: Action)
    requires Run(cap, s, acts, t) && Enabled(cap, t, a)
    ensures Run(cap, s, acts + [a], Apply(cap, t, a))
    decreases |acts|
  {
    if acts == [] {
      assert Run(cap, Apply(cap, s, a), [], Apply(cap, t, a));
    } else {
      RunThen(cap, Apply(cap, s, acts[0]), acts[1..], t, a);
      assert (acts + [a])[1..] == acts[1..] + [a];
    }
  }

  lemma ReachableStep(cap: nat, s: State, a: Action)
    requires Reachable(cap, s) && Enabled(cap, s, a)
    ensures Reachable(cap, Apply(cap, s, a))
  {
    var acts :| Run(cap, Init, acts, s);
    RunThen(cap, Init, acts, s, a);
  }

  // ------------------------------------------------------------- grace period

  predicate Exited(s: State, id: nat) {
    id in s.sections && (s.sections[id].Wake? || s.sections[id].Gone?)
  }

  ghost predicate Leaving(s: State, inside: set<nat>) {
    forall id :: id in inside ==> Exited(s, id) || (id in s.before && !s.drainer.Idle?)
  }

  lemma LeavingStep(cap: nat, s: State, a: Action, inside: set<nat>)
    requires cap < DRAINING && Basic(cap, s) && Leaving(s, inside) && Enabled(cap, s, a)
    ensures Leaving(Apply(cap, s, a), inside)
  {
    var u := Apply(cap, s, a);
    BasicStep(cap, s, a);
    forall id | id in inside
      ensures Exited(u, id) || (id in u.before && !u.drainer.Idle?)
    {
      if u.drainer.Idle? && id in u.before && IsInside(u, id) {
        assert At(u, id, Inside(u.sections[id].p));
      }
    }
  }

  lemma {:induction false} LeavingRun(cap: nat, s: State, acts: seq<Action>, t: State, inside: set<nat>)
    requires cap < DRAINING && Basic(cap, s) && Leaving(s, inside) && Run(cap, s, acts, t)
    ensures Leaving(t, inside)
    decreases |acts|
  {
    if acts != [] {
      BasicStep(cap, s, acts[0]);
      LeavingStep(cap, s, acts[0], inside);
      LeavingRun(cap, Apply(cap, s, acts[0]), acts[1..], t, inside);
    }
  }

  /** Every section that was inside when phaser_drain began has exited when the
      drain is over, whatever was interleaved with it. */
  lemma GracePeriod(cap: nat, s: State, acts: seq<Action>, t: State)
    requires cap < DRAINING && Reachable(cap, s)
    requires acts != [] && acts[0] == DrainBegin && Run(cap, s, acts, t)
    requires t.drainer.Idle?
    ensures forall id :: IsInside(s, id) ==> Exited(t, id)
  {
    BasicReachable(cap, s);
    BasicStep(cap, s, DrainBegin);
    var u := Apply(cap, s, DrainBegin);
    LeavingRun(cap, u, acts[1..], t, u.before);
    forall id | IsInside(s, id)
      ensures Exited(t, id)
    {
      assert id in u.before;
    }
  }

  /** Between drains no counter carries DRAINING: each counter is exactly the
      number of sections it holds. */
  lemma QuietCounters(cap: nat, s: State)
    requires cap < DRAINING && Reachable(cap, s) && s.drainer.Idle?
    ensures forall p: Phase :: s.counter[p] == |Holders(s, p)|
    ensures s.counter[0] + s.counter[1] <= cap
  {
    BasicReachable(cap, s);
    assert s.counter[0] == |Holders(s, 0)| + (if Draining(s, 0) then DRAINING else 0);
    assert s.counter[1] == |Holders(s, 1)| + (if Draining(s, 1) then DRAINING else 0);
  }
}
