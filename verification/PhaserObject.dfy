/**
 The phaser's functions as code over the array of counters.  Between any two of
 its atomic instructions a function lets the rest of the program perform an
 arbitrary batch of steps, given as a schedule.
 */
module PhaserObject {
  import opened Phaser
  import opened PhaserEntry

  class PhaserT {
    const counter: array<Word>
    var sections: map<nat, Section>
    var drainer: Drainer
    ghost var before: set<nat>
    ghost var ors: nat
    ghost var lastOr: Phase
    ghost var began: map<nat, nat>
    ghost var failed: map<nat, seq<nat>>

    ghost predicate Valid(cap: nat)
      reads this, counter
    {
      counter.Length == 2 && cap < DRAINING && Reachable(cap, View())
    }

    ghost function View(): State
      reads this, counter
      requires counter.Length == 2
    {
      State(counter[..], sections, drainer, before, ors, lastOr, began, failed)
    }

    /** phaser_init */
    constructor ()
      ensures fresh(counter) && counter.Length == 2 && View() == Init
      ensures forall cap: nat :: cap < DRAINING ==> Valid(cap)
    {
      counter := new Word[2](_ => 0);
      sections, drainer := map[], Idle;
      before, ors, lastOr, began, failed := {}, 0, 0, map[], map[];
      new;
      assert counter[..] == [0, 0];
      forall cap: nat | cap < DRAINING
        ensures Valid(cap)
      {
        assert Run(cap, Init, [], View());
      }
    }

    /** One atomic instruction. */
    method Perform(ghost cap: nat, a: Action)
      requires Valid(cap) && Enabled(cap, View(), a)
      modifies this, counter
      ensures Valid(cap) && View() == Apply(cap, old(View()), a)
    {
      ghost var s := View();
      ReachableStep(cap, s, a);
      match a {
        case Begin(id) =>
          began, failed := began[id := ors], failed[id := []];
          sections := sections[id := Test(0)];
        case Load(id) =>
          var p := sections[id].p;
          if IsDraining(counter[p]) {
            failed := failed[id := Failures(s, id) + [ors]];
            sections := sections[id := Test(Flip(p))];
          } else {
            sections := sections[id := Add(p)];
          }
        case Increment(id) =>
          var p := sections[id].p;
          counter[p] := AddOne(counter[p]);
          sections := sections[id := Inside(p)];
        case Decrement(id) =>
          var p := sections[id].p;
          counter[p] := SubOne(counter[p]);
          sections := sections[id := if counter[p] == COUNT_DRAINED then Wake(p) else Gone];
        case FutexWake(id) =>
          var p := sections[id].p;
          sections := sections[id := Gone];
          if drainer == Asleep(p) {
            drainer := Reload(p);
          }
        case DrainBegin =>
          before := set id | id in sections && sections[id].Inside?;
          drainer := Or(0);
        case DrainOr =>
          var i := drainer.i;
          counter[i] := OrDraining(counter[i]);
          drainer := Loop(i, counter[i]);
          ors, lastOr := ors + 1, i;
        case DrainTest =>
          drainer := if drainer.value == COUNT_DRAINED then Clear(drainer.i) else Wait(drainer.i, drainer.value);
        case DrainWait =>
          var i := drainer.i;
          drainer := if FutexPart(counter[i]) == FutexPart(drainer.value) then Asleep(i) else Reload(i);
        case Interrupt =>
          drainer := Reload(drainer.i);
        case DrainReload =>
          drainer := Loop(drainer.i, counter[drainer.i]);
        case DrainClear =>
          var i := drainer.i;
          counter[i] := AndNotDraining(counter[i]);
          drainer := if i == 0 then Or(1) else Idle;
      }
      assert View().counter == Apply(cap, s, a).counter;
    }

    /** Is `a` a step that others can take now, without the sections `own`, while at
        most limit sections are in flight? */
    predicate OthersCan(limit: nat, own: set<nat>, a: Action)
      requires counter.Length == 2
      reads this, counter
    {
      match a
      case Begin(id) => id !in own && id !in sections
      case Load(id) => id !in own && id in sections && sections[id].Test?
      case Increment(id) =>
        id !in own && id in sections && sections[id].Add? && counter[0] % DRAINING + counter[1] % DRAINING < limit
      case Decrement(id) => id !in own && id in sections && sections[id].Inside?
      case FutexWake(id) => id !in own && id in sections && sections[id].Wake?
      case Interrupt => drainer.Wait? || drainer.Asleep?
      case _ => false
    }

    /** The steps of the single drainer. */
    predicate DrainerCan(a: Action)
      reads this
    {
      match a
      case DrainBegin => drainer.Idle?
      case DrainOr => drainer.Or?
      case DrainTest => drainer.Loop?
      case DrainWait => drainer.Wait?
      case DrainReload => drainer.Reload?
      case DrainClear => drainer.Clear?
      case _ => false
    }

    lemma InFlightIs(cap: nat)
      requires Valid(cap)
      ensures InFlight(View()) == counter[0] % DRAINING + counter[1] % DRAINING
    {
      BasicReachable(cap, View());
      var s := View();
      assert s.counter[0] == |Holders(s, 0)| + (if Draining(s, 0) then DRAINING else 0);
      assert s.counter[1] == |Holders(s, 1)| + (if Draining(s, 1) then DRAINING else 0);
      assert counter[0] == s.counter[0] && counter[1] == s.counter[1];
    }

    /** What a step of the rest of the program keeps. */
    twostate predicate Undisturbed(limit: nat, own: set<nat>, drains: bool)
      requires counter.Length == 2
      reads this, counter
    {
      && InFlight(View()) <= limit
      && (forall id :: id in own && id in old(sections) ==> id in sections && sections[id] == old(sections[id]))
      && (forall id :: id in own && id in old(failed) ==> id in failed && failed[id] == old(failed[id]))
      && (!drains ==> ors == old(ors) && SameStage(old(drainer), drainer))
      && ors >= old(ors)
      && (forall inside :: old(Leaving(View(), inside)) ==> Leaving(View(), inside))
    }

    method OtherStep(ghost cap: nat, limit: nat, own: set<nat>, a: Action, drains: bool)
      requires Valid(cap) && limit <= cap && InFlight(View()) <= limit
      requires OthersCan(limit, own, a) || (drains && DrainerCan(a))
      modifies this, counter
      ensures Valid(cap) && Undisturbed(limit, own, drains)
    {
      ghost var s := View();
      InFlightIs(cap);
      BasicReachable(cap, s);
      HoldersAfter(cap, s, a, 0);
      HoldersAfter(cap, s, a, 1);
      forall inside | Leaving(s, inside)
        ensures Leaving(Apply(cap, s, a), inside)
      {
        LeavingStep(cap, s, a, inside);
      }
      Perform(cap, a);
    }

    /** The rest of the program takes those of the given steps that it can take. */
    method Others(ghost cap: nat, limit: nat, own: set<nat>, acts: seq<Action>, drains: bool)
      requires Valid(cap) && limit <= cap && InFlight(View()) <= limit
      modifies this, counter
      ensures Valid(cap) && Undisturbed(limit, own, drains)
    {
      for k := 0 to |acts|
        invariant Valid(cap) && Undisturbed(limit, own, drains)
      {
        if OthersCan(limit, own, acts[k]) || (drains && DrainerCan(acts[k])) {
          OtherStep(cap, limit, own, acts[k], drains);
        }
      }
    }

    /** phaser_enter: it returns, whatever the others do meanwhile, with the section
        holding the counter of the phase returned. */
    method Enter(ghost cap: nat, limit: nat, id: nat, others: seq<seq<Action>>) returns (phase: Phase)
      requires limit < cap && Valid(cap) && id !in sections && InFlight(View()) <= limit
      modifies this, counter
      ensures Valid(cap) && At(View(), id, Inside(phase))
    {
      Perform(cap, Begin(id));
      EntryInFlight(cap, old(View()), id);
      phase := 0;
      var k := 0;
      var passed := false;
      while !passed
        invariant Valid(cap) && InFlight(View()) <= limit && 0 <= k <= |others|
        invariant id in failed
        invariant id in sections && sections[id] == if passed then Add(phase) else Test(phase)
        decreases !passed, |others| - k, failed[id] == [] || failed[id][|failed[id]| - 1] != ors
      {
        if k < |others| {
          Others(cap, limit, {id}, others[k], true);
          k := k + 1;
        } else if failed[id] != [] && failed[id][|failed[id]| - 1] == ors {
          SecondTestSucceeds(cap, View(), id);
        }
        passed := !IsDraining(counter[phase]);
        ghost var s := View();
        HoldersAfter(cap, s, Load(id), 0);
        HoldersAfter(cap, s, Load(id), 1);
        Perform(cap, Load(id));
        phase := if passed then phase else Flip(phase);
      }
      if k < |others| {
        Others(cap, limit, {id}, others[k], true);
      }
      Perform(cap, Increment(id));
    }

    lemma EntryInFlight(cap: nat, s: State, id: nat)
      requires Enabled(cap, s, Begin(id))
      ensures InFlight(Apply(cap, s, Begin(id))) == InFlight(s)
    {
      HoldersAfter(cap, s, Begin(id), 0);
      HoldersAfter(cap, s, Begin(id), 1);
    }

    /** phaser_exit with the phase that phaser_enter returned. */
    method Exit(ghost cap: nat, limit: nat, id: nat, phase: Phase, others: seq<Action>)
      requires limit <= cap && Valid(cap) && InFlight(View()) <= limit && At(View(), id, Inside(phase))
      modifies this, counter
      ensures Valid(cap) && At(View(), id, Gone)
    {
      ghost var s := View();
      HoldersAfter(cap, s, Decrement(id), 0);
      HoldersAfter(cap, s, Decrement(id), 1);
      Perform(cap, Decrement(id));
      var value := counter[phase];
      if value == COUNT_DRAINED {
        Others(cap, limit, {id}, others, true);
        Perform(cap, FutexWake(id));
      }
    }

    /** FUTEX_WAIT with the value last seen, and the load after it.  It does not come
        back if the schedule ends while the drainer sleeps. */
    method WaitAndReload(ghost cap: nat, limit: nat, i: Phase, others: seq<seq<Action>>, from: nat)
      returns (k: nat, back: bool)
      requires limit <= cap && Valid(cap) && InFlight(View()) <= limit && drainer.Wait? && drainer.i == i && from < |others|
      modifies this, counter
      ensures Valid(cap) && InFlight(View()) <= limit && from < k <= |others|
      ensures if back then drainer.Loop? && drainer.i == i else drainer == Asleep(i) && k == |others|
      ensures forall inside :: old(Leaving(View(), inside)) ==> Leaving(View(), inside)
    {
      Others(cap, limit, {}, others[from], false);
      k := from + 1;
      if drainer.Wait? {
        DrainerStep(cap, limit, DrainWait);
      }
      while drainer.Asleep?
        invariant Valid(cap) && InFlight(View()) <= limit && from < k <= |others|
        invariant (drainer.Asleep? || drainer.Reload?) && drainer.i == i
        invariant forall inside :: old(Leaving(View(), inside)) ==> Leaving(View(), inside)
        decreases |others| - k
      {
        if k == |others| {
          return k, false;
        }
        Others(cap, limit, {}, others[k], false);
        k := k + 1;
      }
      DrainerStep(cap, limit, DrainReload);
      back := true;
    }

    /** One instruction of the drainer. */
    method DrainerStep(ghost cap: nat, limit: nat, a: Action)
      requires limit <= cap && Valid(cap) && InFlight(View()) <= limit && DrainerCan(a) && !a.DrainBegin?
      modifies this, counter
      ensures Valid(cap) && InFlight(View()) <= limit && View() == Apply(cap, old(View()), a)
      ensures forall inside :: old(Leaving(View(), inside)) ==> Leaving(View(), inside)
    {
      ghost var s := View();
      BasicReachable(cap, s);
      HoldersAfter(cap, s, a, 0);
      HoldersAfter(cap, s, a, 1);
      forall inside | Leaving(s, inside)
        ensures Leaving(Apply(cap, s, a), inside)
      {
        LeavingStep(cap, s, a, inside);
      }
      Perform(cap, a);
    }

    /** phaser_drain_counter */
    method DrainCounter(ghost cap: nat, limit: nat, i: Phase, others: seq<seq<Action>>, from: nat)
      returns (k: nat, finished: bool)
      requires limit <= cap && Valid(cap) && InFlight(View()) <= limit && drainer == Or(i) && from <= |others|
      modifies this, counter
      ensures Valid(cap) && InFlight(View()) <= limit && k <= |others|
      ensures finished ==> drainer == if i == 0 then Or(1) else Idle
      ensures !finished ==> k == |others| && StillWaiting(drainer) && drainer.i == i
      ensures forall inside :: old(Leaving(View(), inside)) ==> Leaving(View(), inside)
    {
      k := from;
      DrainerStep(cap, limit, DrainOr);
      var value := counter[i];
      while value != COUNT_DRAINED
        invariant Valid(cap) && InFlight(View()) <= limit && k <= |others|
        invariant drainer == Loop(i, value)
        invariant forall inside :: old(Leaving(View(), inside)) ==> Leaving(View(), inside)
        decreases |others| - k
      {
        if k == |others| {
          return k, false;
        }
        DrainerStep(cap, limit, DrainTest);
        var back;
        k, back := WaitAndReload(cap, limit, i, others, k);
        if !back {
          return k, false;
        }
        value := drainer.value;
      }
      DrainerStep(cap, limit, DrainTest);
      k := ClearCounter(cap, limit, others, k);
      finished := true;
    }

    /** The last store of phaser_drain_counter. */
    method ClearCounter(ghost cap: nat, limit: nat, others: seq<seq<Action>>, from: nat) returns (k: nat)
      requires limit <= cap && Valid(cap) && InFlight(View()) <= limit && drainer.Clear? && from <= |others|
      modifies this, counter
      ensures Valid(cap) && InFlight(View()) <= limit && k <= |others|
      ensures drainer == if old(drainer).i == 0 then Or(1) else Idle
      ensures forall inside :: old(Leaving(View(), inside)) ==> Leaving(View(), inside)
    {
      k := from;
      if k < |others| {
        Others(cap, limit, {}, others[k], false);
        k := k + 1;
      }
      DrainerStep(cap, limit, DrainClear);
    }

    /** phaser_drain: when it returns, every section that was inside when it was called
        has called phaser_exit, whatever the others did meanwhile.  It stops short only
        when the schedule is used up while it waits for a counter. */
    method Drain(ghost cap: nat, limit: nat, others: seq<seq<Action>>)
      returns (k: nat, finished: bool)
      requires limit <= cap && Valid(cap) && InFlight(View()) <= limit && drainer.Idle?
      modifies this, counter
      ensures Valid(cap)
      ensures finished ==> drainer.Idle? && forall id :: old(IsInside(View(), id)) ==> Exited(View(), id)
      ensures !finished ==> k == |others| && StillWaiting(drainer)
    {
      ghost var s := View();
      HoldersAfter(cap, s, DrainBegin, 0);
      HoldersAfter(cap, s, DrainBegin, 1);
      Perform(cap, DrainBegin);
      ghost var inside := before;
      assert Leaving(View(), inside);
      assert forall id :: IsInside(s, id) ==> id in inside;
      k, finished := DrainCounter(cap, limit, 0, others, 0);
      if finished {
        k, finished := DrainCounter(cap, limit, 1, others, k);
      }
      assert Leaving(View(), inside);
    }
  }

  /** In the wait loop, the counter last seen not drained. */
  predicate StillWaiting(d: Drainer) { d.Asleep? || (d.Loop? && d.value != COUNT_DRAINED) }

  /** Others may wake or interrupt the drainer, and do nothing else to it. */
  predicate SameStage(d: Drainer, e: Drainer) {
    e == d || ((d.Wait? || d.Asleep?) && e == Reload(d.i))
  }
}
