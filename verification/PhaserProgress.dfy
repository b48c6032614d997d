/**
 How many steps phaser_drain itself takes for a counter, while other sections keep
 arriving.
 */
module PhaserProgress {
  import opened Phaser
  import opened PhaserWakeup

  /** How often the sections that may still touch counter i can disturb the drainer. */
  ghost function Busy(sections: map<nat, Section>, i: Phase): nat {
    3 * |Those(sections, Add(i))| + 2 * |Those(sections, Inside(i))| + |Those(sections, Wake(i))|
  }

  predicate Working(d: Drainer, i: Phase) { !d.Idle? && !d.Or? && d.i == i }

  /** The drainer's own steps that are left for the counter, if nobody interrupts it. */
  ghost function OwnLeft(s: State, i: Phase): nat {
    var b := 4 * Busy(s.sections, i);
    match s.drainer
    case Loop(_, v) => b + if v == s.counter[i] then 2 else 5
    case Wait(_, v) => b + if v == s.counter[i] then 1 else 4
    case Asleep(_) => b
    case Reload(_) => b + 3
    case _ => 1
  }

  predicate IsOwn(a: Action) { a.DrainTest? || a.DrainWait? || a.DrainReload? || a.DrainClear? }

  /** The drainer's steps until the counter is done with. */
  function OwnSteps(acts: seq<Action>): nat
    decreases |acts|
  {
    if acts == [] then 0
    else if acts[0].DrainClear? then 1
    else (if IsOwn(acts[0]) then 1 else 0) + OwnSteps(acts[1..])
  }

  function Interrupts(acts: seq<Action>): nat
    decreases |acts|
  {
    if acts == [] then 0 else (if acts[0].Interrupt? then 1 else 0) + Interrupts(acts[1..])
  }

  /** A new value for one section. */
  lemma BusyUpdate(sections: map<nat, Section>, id: nat, x: Section, i: Phase)
    ensures Busy(sections[id := x], i) + Weight(if id in sections then sections[id] else Gone, i)
         == Busy(sections, i) + Weight(x, i)
  {
    ThoseUpdate(sections, id, x, Add(i));
    ThoseUpdate(sections, id, x, Inside(i));
    ThoseUpdate(sections, id, x, Wake(i));
  }

  function Weight(v: Section, i: Phase): nat {
    if v == Add(i) then 3 else if v == Inside(i) then 2 else if v == Wake(i) then 1 else 0
  }

  lemma IsDrainingHere(cap: nat, s: State, i: Phase)
    requires cap < DRAINING && Basic(cap, s) && Working(s.drainer, i)
    ensures IsDraining(s.counter[i])
  {
  }

  /** New sections, failed tests and what happens on the other counter leave it as it is;
      whatever touches this counter uses up part of it. */
  lemma OthersLeave(cap: nat, s: State, a: Action, i: Phase)
    requires cap < DRAINING && Basic(cap, s) && Enabled(cap, s, a) && Working(s.drainer, i)
    requires a.Begin? || a.Load? || a.Increment? || a.Decrement? || a.FutexWake?
    ensures Working(Apply(cap, s, a).drainer, i) && OwnLeft(Apply(cap, s, a), i) <= OwnLeft(s, i)
  {
    var t := Apply(cap, s, a);
    IsDrainingHere(cap, s, i);
    BusyUpdate(s.sections, a.id, t.sections[a.id], i);
    assert t.sections == s.sections[a.id := t.sections[a.id]];
  }

  lemma OwnUses(cap: nat, s: State, a: Action, i: Phase)
    requires Enabled(cap, s, a) && Working(s.drainer, i) && (IsOwn(a) || a.Interrupt?)
    ensures a.DrainClear? ==> OwnLeft(s, i) == 1
    ensures IsOwn(a) && !a.DrainClear? ==>
              Working(Apply(cap, s, a).drainer, i) && OwnLeft(Apply(cap, s, a), i) < OwnLeft(s, i)
    ensures a.Interrupt? ==> Working(Apply(cap, s, a).drainer, i) && OwnLeft(Apply(cap, s, a), i) <= OwnLeft(s, i) + 3
  {
  }

  /** However many sections begin meanwhile, the drainer takes no more steps of its own for
      the counter than a number that is fixed when it set DRAINING, and three for each
      interruption of its wait. */
  lemma {:induction false} OwnStepsBounded(cap: nat, s: State, acts: seq<Action>, t: State, i: Phase)
    requires cap < DRAINING && Basic(cap, s) && Run(cap, s, acts, t) && Working(s.drainer, i)
    ensures OwnSteps(acts) <= OwnLeft(s, i) + 3 * Interrupts(acts)
    decreases |acts|
  {
    if acts != [] {
      var a := acts[0];
      if IsOwn(a) || a.Interrupt? {
        OwnUses(cap, s, a, i);
      } else {
        OthersLeave(cap, s, a, i);
      }
      if !a.DrainClear? {
        BasicStep(cap, s, a);
        OwnStepsBounded(cap, Apply(cap, s, a), acts[1..], t, i);
      }
    }
  }

  /** The number when DRAINING has just been set. */
  lemma LeftAtStart(cap: nat, s: State)
    requires s.drainer.Or?
    ensures var i := s.drainer.i;
            Working(Apply(cap, s, DrainOr).drainer, i) && OwnLeft(Apply(cap, s, DrainOr), i) == 4 * Busy(s.sections, i) + 2
  {
  }

  // ------------------------------------------- together with sections begun before

  ghost function Among(sections: map<nat, Section>, ids: set<nat>): map<nat, Section> {
    map id | id in sections && id in ids :: sections[id]
  }

  predicate OfSection(a: Action) { a.Load? || a.Increment? || a.Decrement? || a.FutexWake? }

  ghost predicate IsOld(s: State, a: Action, ids: set<nat>) { OfSection(a) && a.id in ids && Advances(s, a) }

  /** The steps that get one of these sections on: all of theirs but failed tests. */
  ghost function OldSteps(cap: nat, s: State, acts: seq<Action>, ids: set<nat>): nat
    decreases |acts|
  {
    if acts == [] || !Enabled(cap, s, acts[0]) then 0
    else (if IsOld(s, acts[0], ids) then 1 else 0) + OldSteps(cap, Apply(cap, s, acts[0]), acts[1..], ids)
  }

  lemma AmongUpdate(sections: map<nat, Section>, ids: set<nat>, id: nat, x: Section)
    ensures Among(sections[id := x], ids) == if id in ids then Among(sections, ids)[id := x] else Among(sections, ids)
  {
  }

  /** A failed test leaves a section before another one. */
  lemma TestAgain(sections: map<nat, Section>, id: nat, p: Phase)
    requires id in sections && sections[id] == Test(p)
    ensures LeftIn(sections[id := Test(Flip(p))]) == LeftIn(sections)
  {
    var x := Test(Flip(p));
    ThoseUpdate(sections, id, x, Test(0));
    ThoseUpdate(sections, id, x, Test(1));
    ThoseUpdate(sections, id, x, Add(0));
    ThoseUpdate(sections, id, x, Add(1));
    ThoseUpdate(sections, id, x, Inside(0));
    ThoseUpdate(sections, id, x, Inside(1));
    ThoseUpdate(sections, id, x, Wake(0));
    ThoseUpdate(sections, id, x, Wake(1));
  }

  lemma OldUses(cap: nat, s: State, a: Action, ids: set<nat>)
    requires Enabled(cap, s, a) && ids <= s.sections.Keys && IsOld(s, a, ids)
    ensures ids <= Apply(cap, s, a).sections.Keys
    ensures LeftIn(Among(Apply(cap, s, a).sections, ids)) < LeftIn(Among(s.sections, ids))
  {
    SectionMoves(cap, s, a);
    var x := Apply(cap, s, a).sections[a.id];
    AmongUpdate(s.sections, ids, a.id, x);
    LeftDrops(Among(s.sections, ids), a.id, x);
  }

  lemma FailedTest(cap: nat, s: State, id: nat)
    requires Enabled(cap, s, Load(id)) && !Advances(s, Load(id))
    ensures Apply(cap, s, Load(id)).sections == s.sections[id := Test(Flip(s.sections[id].p))]
  {
  }

  lemma OthersKeep(cap: nat, s: State, a: Action, ids: set<nat>)
    requires Enabled(cap, s, a) && ids <= s.sections.Keys && !IsOld(s, a, ids)
    ensures ids <= Apply(cap, s, a).sections.Keys
    ensures LeftIn(Among(Apply(cap, s, a).sections, ids)) == LeftIn(Among(s.sections, ids))
  {
    var t := Apply(cap, s, a);
    if a.Begin? || (OfSection(a) && a.id !in ids) {
      AmongUpdate(s.sections, ids, a.id, t.sections[a.id]);
      assert t.sections == s.sections[a.id := t.sections[a.id]];
    } else if a.Load? {
      var p := s.sections[a.id].p;
      FailedTest(cap, s, a.id);
      AmongUpdate(s.sections, ids, a.id, Test(Flip(p)));
      TestAgain(Among(s.sections, ids), a.id, p);
    } else {
      assert t.sections == s.sections;
    }
  }

  lemma {:induction false} OldStepsBounded(cap: nat, s: State, acts: seq<Action>, t: State, ids: set<nat>)
    requires Run(cap, s, acts, t) && ids <= s.sections.Keys
    ensures OldSteps(cap, s, acts, ids) <= LeftIn(Among(s.sections, ids))
    decreases |acts|
  {
    if acts != [] {
      if IsOld(s, acts[0], ids) {
        OldUses(cap, s, acts[0], ids);
      } else {
        OthersKeep(cap, s, acts[0], ids);
      }
      OldStepsBounded(cap, Apply(cap, s, acts[0]), acts[1..], t, ids);
    }
  }

  /** However many sections begin meanwhile, the drainer and the sections begun before take
      no more steps for the counter than a number that is fixed when it was set DRAINING,
      and three for each interruption. */
  lemma DrainBounded(cap: nat, s: State, acts: seq<Action>, t: State, i: Phase)
    requires cap < DRAINING && Basic(cap, s) && Run(cap, s, acts, t) && Working(s.drainer, i)
    ensures OwnSteps(acts) + OldSteps(cap, s, acts, s.sections.Keys) <= OwnLeft(s, i) + SectionsLeft(s) + 3 * Interrupts(acts)
  {
    OwnStepsBounded(cap, s, acts, t, i);
    OldStepsBounded(cap, s, acts, t, s.sections.Keys);
    assert Among(s.sections, s.sections.Keys) == s.sections;
  }
}
