/**
 linker.cpp as it is written: GOT slots written in place, results counted in loops.
 */
module LinkerObject {
  import opened Hooks
  import opened HooksObject
  import opened Linker

  class PltHookSpec {
    const hookFn: Pointer
    const fnName: Name
    var hookResult: nat

    function Wanted(): Want { Want(hookFn, fnName) }

    constructor (fnName: Name, hookFn: Pointer)
      ensures this.hookFn == hookFn && this.fnName == fnName && hookResult == 0
    {
      this.hookFn, this.fnName, hookResult := hookFn, fnName, 0;
    }
  }

  class Patcher {
    const globals: Globals
    const place: Placement
    const dladdr: Dladdr
    var memory: map<Pointer, Pointer>
    var trampolines: seq<nat>
    var aborted: bool

    ghost function State(): Process
      reads this, globals
    {
      Process(globals.registry, memory, trampolines, aborted)
    }

    ghost predicate Valid()
      reads this, globals, globals.all
    {
      globals.Valid()
    }

    constructor (place: Placement, dladdr: Dladdr, memory: map<Pointer, Pointer>)
      ensures Valid() && fresh(globals) && globals.Repr == {}
      ensures this.place == place && State() == Start(memory)
    {
      this.place, this.dladdr, this.memory := place, dladdr, memory;
      trampolines, aborted := [], false;
      globals := new Globals();
    }

    method CreateTrampoline(id: nat) returns (code: Pointer)
      modifies this`trampolines
      ensures code == place(|old(trampolines)|) && trampolines == old(trampolines) + [id]
    {
      code := place(|trampolines|);
      trampolines := trampolines + [id];
    }

    /** unsafe_patch_relocation_address, for a slot that can be written. */
    method Patch(slot: Pointer, value: Pointer)
      modifies this`memory
      ensures memory == old(memory)[slot := value]
    {
      memory := memory[slot := value];
    }

    method AddHook(slot: Pointer, hook: Pointer, previous: Pointer) returns (result: HookResult, id: nat)
      requires Valid()
      modifies globals, globals.Repr
      ensures Valid() && fresh(globals.Repr - old(globals.Repr))
      ensures Outcome(globals.registry, result, id, previous) == Hooks.Add(old(globals.registry), slot, hook, previous)
    {
      var info := new HookInfo(slot, hook, previous);
      result := globals.Add(info);
      id := info.outId;
    }

    /** patch_relocation_address_for_hook */
    method PatchForHook(slot: Pointer, hook: Pointer, writable: bool) returns (verdict: Verdict)
      requires Valid()
      modifies this, globals, globals.Repr
      ensures Valid() && fresh(globals.Repr - old(globals.Repr))
      ensures Reply(State(), verdict)
           == if writable then HookSlot(place, old(State()), slot, hook) else HookUnwritable(old(State()), slot, hook)
    {
      var hooked := globals.IsHooked(slot);
      if hooked {
        SameAgain(place, State(), slot, hook);
        verdict := PatchAgain(slot, hook);
      } else {
        verdict := PatchNew(slot, hook, writable);
      }
    }

    method PatchAgain(slot: Pointer, hook: Pointer) returns (verdict: Verdict)
      requires Valid() && slot in globals.registry.byAddress
      modifies this, globals, globals.Repr
      ensures Valid() && fresh(globals.Repr - old(globals.Repr))
      ensures Reply(State(), verdict) == HookUnwritable(old(State()), slot, hook)
    {
      var result, _ := AddHook(slot, hook, Read(memory, slot));
      return if result != AlreadyHookedAppended then Failed else Done;
    }

    method PatchNew(slot: Pointer, hook: Pointer, writable: bool) returns (verdict: Verdict)
      requires Valid() && slot !in globals.registry.byAddress
      modifies this, globals, globals.Repr
      ensures Valid() && fresh(globals.Repr - old(globals.Repr))
      ensures Reply(State(), verdict)
           == if writable then HookSlot(place, old(State()), slot, hook) else HookUnwritable(old(State()), slot, hook)
    {
      var result, id := AddHook(slot, hook, Read(memory, slot));
      if result != NewHook {
        return Failed;
      }
      Install(slot, id, writable);
      return if writable then Done else Failed;
    }

    method Install(slot: Pointer, id: nat, writable: bool)
      modifies this`memory, this`trampolines
      ensures State() == if writable then Installed(place, old(State()), slot, id) else Made(old(State()), id)
    {
      var trampoline := CreateTrampoline(id);
      if writable {
        Patch(slot, trampoline);
      }
    }

    method RemoveHook(slot: Pointer, hook: Pointer) returns (result: HookResult, previous: Pointer)
      requires Valid()
      modifies globals, globals.Repr
      ensures Valid() && globals.Repr == old(globals.Repr)
      ensures Outcome(globals.registry, result, 0, previous) == Hooks.Remove(old(globals.registry), slot, hook)
    {
      var info := new HookInfo(slot, hook, NULL);
      result := globals.Remove(info);
      previous := info.previousFunction;
    }

    /** unhook_single_lib once the last hook of a slot is gone. */
    method RestoreSlot(slot: Pointer, original: Pointer)
      requires Valid()
      modifies this`memory, this`aborted, globals, globals.Repr
      ensures Valid() && globals.Repr == old(globals.Repr)
      ensures State() == Restoring(old(State()), slot, original)
    {
      Patch(slot, original);
      var again, _ := RemoveHook(slot, original);
      if again != RemovedFully {
        aborted := true;
      }
    }

    /** The body of the loop of unhook_single_lib. */
    method UnhookEntry(slot: Pointer, hook: Pointer) returns (verdict: Verdict)
      requires Valid()
      modifies this, globals, globals.Repr
      ensures Valid() && globals.Repr == old(globals.Repr)
      ensures var r := UnhookSlot(old(State()), slot, hook); State() == r.after && verdict == r.verdict
    {
      var hooked := globals.IsHooked(slot);
      if !hooked {
        return Skipped;
      }
      var result, original := RemoveHook(slot, hook);
      if result == RemovedStillHooked {
        return Done;
      } else if result == RemovedTrivial {
        RestoreSlot(slot, original);
        return Done;
      }
      return Failed;
    }

    /** verify_got_entry_for_spec */
    method VerifyEntry(slot: Pointer, name: Name) returns (ok: bool)
      requires Valid() && name != NO_NAME
      ensures ok == Verified(dladdr, State(), slot, name)
    {
      ok := globals.IsHooked(slot);
      if !ok {
        ok := dladdr(slot, Read(memory, slot)) == name;
      }
    }
  
    /** One turn of the inner loop of hook_single_lib. */
    method HookEntry(slot: Pointer, hook: Pointer, name: Name) returns (verified: bool, verdict: Verdict)
      requires Valid() && name != NO_NAME
      modifies this, globals, globals.Repr
      ensures Valid() && fresh(globals.Repr - old(globals.Repr))
      ensures verified == Verified(dladdr, old(State()), slot, name)
      ensures !verified ==> State() == old(State()) && verdict == Failed
      ensures verified ==> Reply(State(), verdict) == HookSlot(place, old(State()), slot, hook)
    {
      verified := VerifyEntry(slot, name);
      verdict := Failed;
      if verified {
        verdict := PatchForHook(slot, hook, true);
      }
    }

    method HookFor(spec: PltHookSpec, slot: Pointer) returns (verified: bool, failed: nat)
      requires Valid() && spec.fnName != NO_NAME
      modifies this, globals, globals.Repr, spec
      ensures Valid() && fresh(globals.Repr - old(globals.Repr))
      ensures verified == Verified(dladdr, old(State()), slot, spec.fnName)
      ensures !verified ==> State() == old(State()) && failed == 1 && spec.hookResult == old(spec.hookResult)
      ensures verified ==>
                var r := HookSlot(place, old(State()), slot, spec.hookFn);
                State() == r.after && failed == (if r.verdict == Done then 0 else 1) &&
                spec.hookResult == old(spec.hookResult) + if r.verdict == Done then 1 else 0
    {
      var verdict;
      verified, verdict := HookEntry(slot, spec.hookFn, spec.fnName);
      if verdict == Done {
        spec.hookResult := spec.hookResult + 1;
      }
      failed := if verdict == Done then 0 else 1;
    }

    /** The inner loop of hook_single_lib: exactly the slots that verify are hooked, in
        order; each success is counted in the spec and the rest as failures. */
    method HookEntries(spec: PltHookSpec, slots: seq<Pointer>) returns (failures: nat, ghost events: seq<Event>)
      requires Valid() && Consistent(globals.registry) && spec.fnName != NO_NAME
      modifies this, globals, globals.Repr, spec
      ensures Valid() && Consistent(globals.registry) && fresh(globals.Repr - old(globals.Repr))
      ensures Run(place, old(State()), events, State())
      ensures events == HookEvents(place, dladdr, old(State()), slots, spec.Wanted())
      ensures spec.hookResult == old(spec.hookResult) + Successes(place, old(State()), events)
      ensures spec.hookResult + failures == old(spec.hookResult) + |slots|
    {
      failures, events := 0, [];
      ghost var p := State();
      for i := 0 to |slots|
        invariant Valid() && fresh(globals.Repr - old(globals.Repr))
        invariant CameBy(place, p, events, State(), spec.hookResult - old(spec.hookResult))
        invariant events == HookEvents(place, dladdr, p, slots[..i], spec.Wanted())
        invariant spec.hookResult + failures == old(spec.hookResult) + i
      {
        ghost var q := State();
        HookEventsNext(place, dladdr, p, slots, i, spec.Wanted(), q);
        Grow(place, p, events, q, Hook(slots[i], spec.hookFn));
        var verified, failed := HookFor(spec, slots[i]);
        events := if verified then events + [Hook(slots[i], spec.hookFn)] else events;
        failures := failures + failed;
      }
      assert slots[..|slots|] == slots;
    }

    /** One turn of the outer loop of hook_single_lib. */
    method HookSpec(spec: PltHookSpec, slots: seq<Pointer>) returns (failures: nat, ghost events: seq<Event>)
      requires Valid() && Consistent(globals.registry)
      modifies this, globals, globals.Repr, spec
      ensures Valid() && Consistent(globals.registry) && fresh(globals.Repr - old(globals.Repr))
      ensures Run(place, old(State()), events, State())
      ensures events == SpecHooks(place, dladdr, old(State()), spec.Wanted(), slots)
      ensures spec.hookResult == old(spec.hookResult) + Successes(place, old(State()), events)
      ensures failures == SpecFailures(place, dladdr, old(State()), spec.Wanted(), slots)
    {
      if spec.hookFn == NULL || spec.fnName == NO_NAME {
        failures, events := 1, [];
      } else {
        failures, events := HookEntries(spec, slots);
      }
    }

    method HookNth(specs: seq<PltHookSpec>, i: nat, slots: seq<Pointer>, ghost was: seq<nat>, ghost gains: seq<nat>)
        returns (failures: nat, ghost events: seq<Event>, ghost gain: nat)
      requires Valid() && Consistent(globals.registry) && i < |specs| && |gains| == i && Grown(specs, was, gains)
      requires AllDifferent(specs)
      modifies this, globals, globals.Repr, specs[i]
      ensures Valid() && Consistent(globals.registry) && fresh(globals.Repr - old(globals.Repr))
      ensures Run(place, old(State()), events, State())
      ensures events == SpecHooks(place, dladdr, old(State()), specs[i].Wanted(), slots)
      ensures failures == SpecFailures(place, dladdr, old(State()), specs[i].Wanted(), slots)
      ensures gain == Successes(place, old(State()), events) && Grown(specs, was, gains + [gain])
    {
      ghost var p := State();
      failures, events := HookSpec(specs[i], slots);
      gain := Successes(place, p, events);
    }

    /** hook_single_lib; slots[k] are the GOT slots of the symbol of specs[k].  A spec's
        hook_result grows by its successes. */
    method HookSingleLib(specs: seq<PltHookSpec>, slots: seq<seq<Pointer>>)
        returns (failures: nat, ghost events: seq<Event>, ghost gains: seq<nat>)
      requires Valid() && Consistent(globals.registry) && |slots| == |specs| && AllDifferent(specs)
      modifies this, globals, globals.Repr, specs
      ensures Valid() && Consistent(globals.registry)
      ensures Run(place, old(State()), events, State())
      ensures events == LibHooks(place, dladdr, old(State()), Wants(specs), slots)
      ensures failures == LibFailures(place, dladdr, old(State()), Wants(specs), slots)
      ensures |gains| == |specs| && Grown(specs, old(Results(specs)), gains)
      ensures forall k :: 0 <= k < |specs| ==> gains[k] == HookGain(place, dladdr, old(State()), Wants(specs), slots, k)
    {
      failures, events, gains := 0, [], [];
      ghost var p, wants, was := State(), Wants(specs), Results(specs);
      for i := 0 to |specs|
        invariant Valid() && Consistent(globals.registry) && fresh(globals.Repr - old(globals.Repr))
        invariant HookedSoFar(place, dladdr, p, wants, slots, i, events, failures, gains, State())
        invariant Grown(specs, was, gains)
      {
        ghost var q := State();
        var failed, more, gain := HookNth(specs, i, slots[i], was, gains);
        HookedNext(place, dladdr, p, wants, slots, i, events, failures, gains, q, more, State());
        failures, events, gains := failures + failed, events + more, gains + [gain];
      }
      HookedAll(place, dladdr, p, wants, slots, events, failures, gains, State());
    }

    method UnhookFor(spec: PltHookSpec, slot: Pointer) returns (failed: nat)
      requires Valid()
      modifies this, globals, globals.Repr, spec
      ensures Valid() && globals.Repr == old(globals.Repr)
      ensures var r := UnhookSlot(old(State()), slot, spec.hookFn);
              State() == r.after && failed == (if r.verdict == Failed then 1 else 0) &&
              spec.hookResult == old(spec.hookResult) + if r.verdict == Done then 1 else 0
    {
      var verdict := UnhookEntry(slot, spec.hookFn);
      if verdict == Done {
        spec.hookResult := spec.hookResult + 1;
      }
      failed := if verdict == Failed then 1 else 0;
    }

    /** The inner loop of unhook_single_lib: a slot that is not hooked counts for nothing. */
    method UnhookEntries(spec: PltHookSpec, slots: seq<Pointer>) returns (failures: nat, ghost events: seq<Event>)
      requires Valid() && Consistent(globals.registry)
      modifies this, globals, globals.Repr, spec
      ensures Valid() && Consistent(globals.registry) && globals.Repr == old(globals.Repr)
      ensures Run(place, old(State()), events, State())
      ensures events == Unhooks(slots, spec.hookFn)
      ensures spec.hookResult == old(spec.hookResult) + Successes(place, old(State()), events)
      ensures failures == Refusals(place, old(State()), events)
    {
      failures, events := 0, [];
      ghost var p := State();
      for i := 0 to |slots|
        invariant Valid() && globals.Repr == old(globals.Repr)
        invariant CameBy(place, p, events, State(), spec.hookResult - old(spec.hookResult))
        invariant events == Unhooks(slots[..i], spec.hookFn)
        invariant failures == Refusals(place, p, events)
      {
        Grow(place, p, events, State(), Unhook(slots[i], spec.hookFn));
        RefusalsAppend(place, p, events, State(), Unhook(slots[i], spec.hookFn));
        UnhooksNext(slots, i, spec.hookFn);
        var failed := UnhookFor(spec, slots[i]);
        events := events + [Unhook(slots[i], spec.hookFn)];
        failures := failures + failed;
      }
      assert slots[..|slots|] == slots;
    }

    method UnhookNth(specs: seq<PltHookSpec>, i: nat, slots: seq<Pointer>, ghost was: seq<nat>, ghost gains: seq<nat>)
        returns (failures: nat, ghost events: seq<Event>, ghost gain: nat)
      requires Valid() && Consistent(globals.registry) && i < |specs| && |gains| == i && Grown(specs, was, gains)
      requires AllDifferent(specs)
      modifies this, globals, globals.Repr, specs[i]
      ensures Valid() && Consistent(globals.registry) && globals.Repr == old(globals.Repr)
      ensures Run(place, old(State()), events, State())
      ensures events == Unhooks(slots, specs[i].hookFn)
      ensures failures == Refusals(place, old(State()), events)
      ensures gain == Successes(place, old(State()), events) && Grown(specs, was, gains + [gain])
    {
      ghost var p := State();
      failures, events := UnhookEntries(specs[i], slots);
      gain := Successes(place, p, events);
    }

    /** unhook_single_lib, which does not look whether a spec is valid. */
    method UnhookSingleLib(specs: seq<PltHookSpec>, slots: seq<seq<Pointer>>)
        returns (failures: nat, ghost events: seq<Event>, ghost gains: seq<nat>)
      requires Valid() && Consistent(globals.registry) && |slots| == |specs| && AllDifferent(specs)
      modifies this, globals, globals.Repr, specs
      ensures Valid() && Consistent(globals.registry)
      ensures Run(place, old(State()), events, State())
      ensures events == LibUnhooks(Wants(specs), slots)
      ensures failures == Refusals(place, old(State()), events)
      ensures |gains| == |specs| && Grown(specs, old(Results(specs)), gains)
      ensures forall k :: 0 <= k < |specs| ==> gains[k] == UnhookGain(place, old(State()), Wants(specs), slots, k)
    {
      failures, events, gains := 0, [], [];
      ghost var p, wants, was := State(), Wants(specs), Results(specs);
      for i := 0 to |specs|
        invariant Valid() && Consistent(globals.registry) && globals.Repr == old(globals.Repr)
        invariant UnhookedSoFar(place, p, wants, slots, i, events, failures, gains, State())
        invariant Grown(specs, was, gains)
      {
        ghost var q := State();
        var failed, more, gain := UnhookNth(specs, i, slots[i], was, gains);
        UnhookedNext(place, p, wants, slots, i, events, failures, gains, q, more, State());
        failures, events, gains := failures + failed, events + more, gains + [gain];
      }
      assert wants[..|specs|] == wants && slots[..|specs|] == slots;
    }
  }

  ghost predicate AllDifferent(specs: seq<PltHookSpec>) { forall j, k :: 0 <= j < k < |specs| ==> specs[j] != specs[k] }

  ghost function Results(specs: seq<PltHookSpec>): (r: seq<nat>)
    reads specs
    ensures |r| == |specs| && forall k :: 0 <= k < |specs| ==> r[k] == specs[k].hookResult
  {
    if specs == [] then [] else Results(specs[..|specs| - 1]) + [specs[|specs| - 1].hookResult]
  }

  /** The results were `was`, and the first ones grew by their gains. */
  ghost predicate Grown(specs: seq<PltHookSpec>, was: seq<nat>, gains: seq<nat>)
    reads specs
  {
    && |gains| <= |specs| == |was|
    && forall k :: 0 <= k < |specs| ==> specs[k].hookResult == was[k] + if k < |gains| then gains[k] else 0
  }

  ghost function Wants(specs: seq<PltHookSpec>): (w: seq<Want>)
    ensures |w| == |specs| && forall k :: 0 <= k < |specs| ==> w[k] == specs[k].Wanted()
  {
    seq(|specs|, k requires 0 <= k < |specs| => specs[k].Wanted())
  }
}
