/**
 linker.cpp: hooking and unhooking GOT slots, as steps of the process.  Every step is
 taken under the lock on GOT modifications, so any interleaving is a sequence of them.
 */
module Linker {
  import opened Hooks

  /** `trampolines` holds the id in each trampoline, in the order of their making. */
  datatype Process = Process(registry: Registry, memory: map<Pointer, Pointer>, trampolines: seq<nat>, aborted: bool)

  /** Where the k-th trampoline is placed. */
  type Placement = nat -> Pointer

  function Read(memory: map<Pointer, Pointer>, slot: Pointer): Pointer {
    if slot in memory then memory[slot] else NULL
  }

  datatype Event = Hook(slot: Pointer, hook: Pointer) | Unhook(slot: Pointer, hook: Pointer)

  datatype Verdict = Skipped | Done | Failed

  datatype Reply = Reply(after: Process, verdict: Verdict)

  /** patch_relocation_address_for_hook, with a patch that succeeds. */
  function HookSlot(place: Placement, p: Process, slot: Pointer, hook: Pointer): Reply
    requires Indexed(p.registry)
  {
    var o := Add(p.registry, slot, hook, Read(p.memory, slot));
    if slot in p.registry.byAddress then
      Reply(p.(registry := o.after), if o.result == AlreadyHookedAppended then Done else Failed)
    else if o.result != NewHook then Reply(p.(registry := o.after), Failed)
    else Reply(Installed(place, p.(registry := o.after), slot, o.id), Done)
  }

  /** The same where the write into the slot fails: the hook is entered and the trampoline
      made nevertheless. */
  function HookUnwritable(p: Process, slot: Pointer, hook: Pointer): Reply
    requires Indexed(p.registry)
  {
    var o := Add(p.registry, slot, hook, Read(p.memory, slot));
    if slot in p.registry.byAddress then
      Reply(p.(registry := o.after), if o.result == AlreadyHookedAppended then Done else Failed)
    else if o.result != NewHook then Reply(p.(registry := o.after), Failed)
    else Reply(Made(p.(registry := o.after), o.id), Failed)
  }

  /** A new trampoline that no slot leads to. */
  function Made(p: Process, id: nat): Process { p.(trampolines := p.trampolines + [id]) }

  lemma SameAgain(place: Placement, p: Process, slot: Pointer, hook: Pointer)
    requires Indexed(p.registry) && slot in p.registry.byAddress
    ensures HookSlot(place, p, slot, hook) == HookUnwritable(p, slot, hook)
  {
  }

  /** A new trampoline, and the slot that leads to it. */
  function Installed(place: Placement, p: Process, slot: Pointer, id: nat): Process {
    p.(memory := p.memory[slot := place(|p.trampolines|)], trampolines := p.trampolines + [id])
  }

  /** The slot gets its original value back and is forgotten. */
  function Restoring(p: Process, slot: Pointer, original: Pointer): Process
    requires Indexed(p.registry)
  {
    var o := Remove(p.registry, slot, original);
    p.(registry := o.after, memory := p.memory[slot := original], aborted := p.aborted || o.result != RemovedFully)
  }

  /** What unhook_single_lib does for one slot. */
  function UnhookSlot(p: Process, slot: Pointer, hook: Pointer): Reply
    requires Indexed(p.registry)
  {
    if slot !in p.registry.byAddress then Reply(p, Skipped)
    else
      var o := Remove(p.registry, slot, hook);
      if o.result == RemovedStillHooked then Reply(p.(registry := o.after), Done)
      else if o.result == RemovedTrivial then Reply(Restoring(p.(registry := o.after), slot, o.previous), Done)
      else Reply(p.(registry := o.after), Failed)
  }

  function Perform(place: Placement, p: Process, e: Event): Reply
    requires Indexed(p.registry)
  {
    match e
    case Hook(slot, hook) => HookSlot(place, p, slot, hook)
    case Unhook(slot, hook) => UnhookSlot(p, slot, hook)
  }

  // ------------------------------------------------------- the reference

  /** The hooks that are in force at a slot: those added and not removed since.  A hook
      that is the original function itself cannot be taken back. */
  function InForce(original: Pointer, slot: Pointer, events: seq<Event>): multiset<Pointer>
    decreases |events|
  {
    if events == [] then multiset{}
    else Next(original, slot, InForce(original, slot, events[..|events| - 1]), events[|events| - 1])
  }

  function Next(original: Pointer, slot: Pointer, hooks: multiset<Pointer>, e: Event): multiset<Pointer> {
    if e.slot != slot || slot == NULL || original == NULL || e.hook == NULL then hooks
    else if e.Hook? then hooks + multiset{e.hook}
    else if e.hook == original then hooks
    else hooks - multiset{e.hook}
  }

  // -------------------------------------------------------------- invariant

  /** `first` is what the slots held before any was hooked. */
  ghost predicate SlotInv(place: Placement, first: map<Pointer, Pointer>, p: Process, slot: Pointer, hooks: multiset<Pointer>)
    requires Indexed(p.registry)
  {
    if hooks == multiset{} then slot !in p.registry.byAddress && Read(p.memory, slot) == Read(first, slot)
    else
      && slot in p.registry.byAddress && slot != NULL && Read(first, slot) != NULL
      && var k := p.registry.byAddress[slot];
         var list := p.registry.infos[k].hooks;
         list[0] == Read(first, slot) && multiset(list[1..]) == hooks && Read(p.memory, slot) == place(k)
  }

  ghost predicate TrampolineInv(first: map<Pointer, Pointer>, p: Process) {
    && Consistent(p.registry) && !p.aborted && |p.trampolines| == |p.registry.infos|
    && forall k :: 0 <= k < |p.trampolines| ==> TrampolineOk(first, p, k)
  }

  ghost predicate TrampolineOk(first: map<Pointer, Pointer>, p: Process, k: nat)
    requires Indexed(p.registry) && k < |p.trampolines| == |p.registry.infos|
  {
    p.trampolines[k] == p.registry.infos[k].id && p.registry.infos[k].hooks[0] == Read(first, p.registry.infos[k].address)
  }

  ghost predicate Placed(place: Placement) { forall k: nat :: place(k) != NULL }

  // ----------------------------------------------------------------- steps

  lemma HookHere(place: Placement, first: map<Pointer, Pointer>, p: Process, slot: Pointer, hook: Pointer, hooks: multiset<Pointer>)
    requires Placed(place) && TrampolineInv(first, p) && SlotInv(place, first, p, slot, hooks)
    ensures var q := HookSlot(place, p, slot, hook).after;
            Indexed(q.registry) && SlotInv(place, first, q, slot, Next(Read(first, slot), slot, hooks, Hook(slot, hook)))
  {
    AddKeeps(p.registry, slot, hook, Read(p.memory, slot));
    if slot in p.registry.byAddress {
      var list := p.registry.infos[p.registry.byAddress[slot]].hooks;
      assert (list + [hook])[1..] == list[1..] + [hook];
    } else if slot != NULL && hook != NULL && Read(first, slot) != NULL {
      assert [Read(first, slot), hook][1..] == [hook];
    }
  }

  lemma HookElsewhere(place: Placement, first: map<Pointer, Pointer>, p: Process, slot: Pointer, hook: Pointer,
                      other: Pointer, hooks: multiset<Pointer>)
    requires TrampolineInv(first, p) && other != slot && SlotInv(place, first, p, other, hooks)
    ensures var q := HookSlot(place, p, slot, hook).after;
            Indexed(q.registry) && SlotInv(place, first, q, other, hooks)
  {
    AddKeeps(p.registry, slot, hook, Read(p.memory, slot));
  }

  lemma TakeOut(tail: seq<Pointer>, i: nat)
    requires i < |tail|
    ensures multiset(tail[..i] + tail[i + 1..]) == multiset(tail) - multiset{tail[i]}
  {
    assert tail == tail[..i] + [tail[i]] + tail[i + 1..];
  }

  /** Removing the first occurrence behind the original takes one out of the hooks. */
  lemma WithoutOne(list: seq<Pointer>, hook: Pointer)
    requires |list| > 0 && hook != list[0] && First(list, hook) < |list|
    ensures hook in multiset(list[1..]) && 0 < First(list, hook)
    ensures var left := Without(list, First(list, hook));
            left[0] == list[0] && multiset(left[1..]) == multiset(list[1..]) - multiset{hook}
  {
    var i := First(list, hook);
    TakeOut(list[1..], i - 1);
    TailWithout(list, i);
  }

  lemma TailWithout(list: seq<Pointer>, i: nat)
    requires 0 < i < |list|
    ensures Without(list, i)[1..] == list[1..][..i - 1] + list[1..][i..] && Without(list, i)[0] == list[0]
  {
  }

  lemma WithoutNone(list: seq<Pointer>, hook: Pointer)
    requires |list| > 0 && First(list, hook) == |list|
    ensures hook !in multiset(list[1..])
  {
    assert list == list[..|list|];
  }

  /** The list that a successful removal leaves. */
  function Left(p: Process, slot: Pointer, hook: Pointer): seq<Pointer>
    requires Indexed(p.registry) && slot in p.registry.byAddress
    requires var list := p.registry.infos[p.registry.byAddress[slot]].hooks; First(list, hook) < |list|
  {
    var list := p.registry.infos[p.registry.byAddress[slot]].hooks;
    Without(list, First(list, hook))
  }

  /** One of several hooks is taken out of the list. */
  lemma UnhookShorter(p: Process, slot: Pointer, hook: Pointer)
    requires Indexed(p.registry) && slot in p.registry.byAddress && slot != NULL && hook != NULL
    requires var list := p.registry.infos[p.registry.byAddress[slot]].hooks;
             |list| > 2 && 0 < First(list, hook) < |list|
    ensures UnhookSlot(p, slot, hook)
         == Reply(p.(registry := WithHooks(p.registry, p.registry.byAddress[slot], Left(p, slot, hook))), Done)
  {
  }

  /** The last hook is taken out: the slot gets its original back and is forgotten. */
  lemma UnhookLast(p: Process, slot: Pointer, hook: Pointer)
    requires Indexed(p.registry) && slot in p.registry.byAddress && slot != NULL && hook != NULL
    requires var list := p.registry.infos[p.registry.byAddress[slot]].hooks;
             |list| == 2 && First(list, hook) == 1 && list[0] != NULL
    ensures var list := p.registry.infos[p.registry.byAddress[slot]].hooks;
            UnhookSlot(p, slot, hook)
            == Reply(p.(registry := Forgotten(WithHooks(p.registry, p.registry.byAddress[slot], Left(p, slot, hook)), slot),
                        memory := p.memory[slot := list[0]]), Done)
  {
    var left := Left(p, slot, hook);
    assert |left| == 1 && left[0] == p.registry.infos[p.registry.byAddress[slot]].hooks[0];
  }

  lemma UnhookNothing(p: Process, slot: Pointer, hook: Pointer)
    requires Indexed(p.registry) && slot in p.registry.byAddress
    requires var list := p.registry.infos[p.registry.byAddress[slot]].hooks;
             |list| > 1 && (hook == NULL || First(list, hook) == 0 || First(list, hook) == |list|)
    ensures UnhookSlot(p, slot, hook) == Reply(p, Failed)
  {
  }

  lemma ListTrampolines(first: map<Pointer, Pointer>, p: Process, k: nat, hooks: seq<Pointer>)
    requires TrampolineInv(first, p) && k < |p.registry.infos|
    requires |hooks| > 0 && hooks[0] == p.registry.infos[k].hooks[0]
    ensures TrampolineInv(first, p.(registry := WithHooks(p.registry, k, hooks)))
  {
    var q := p.(registry := WithHooks(p.registry, k, hooks));
    WithHooksKeeps(p.registry, k, hooks);
    forall i | 0 <= i < |q.trampolines|
      ensures TrampolineOk(first, q, i)
    {
      assert TrampolineOk(first, p, i);
    }
  }

  lemma EnteredTrampolines(place: Placement, first: map<Pointer, Pointer>, p: Process, slot: Pointer, hook: Pointer)
    requires TrampolineInv(first, p)
    ensures var r := Entered(p.registry, slot, hook, Read(first, slot));
            TrampolineInv(first, Installed(place, p.(registry := r), slot, NextId(p.registry)))
  {
    EnteredKeeps(p.registry, slot, hook, Read(first, slot));
    var q := Installed(place, p.(registry := Entered(p.registry, slot, hook, Read(first, slot))), slot, NextId(p.registry));
    forall k | 0 <= k < |q.trampolines|
      ensures TrampolineOk(first, q, k)
    {
      if k < |p.trampolines| {
        assert TrampolineOk(first, p, k);
      }
    }
  }

  lemma HookTrampolines(place: Placement, first: map<Pointer, Pointer>, p: Process, slot: Pointer, hook: Pointer, hooks: multiset<Pointer>)
    requires TrampolineInv(first, p) && SlotInv(place, first, p, slot, hooks)
    ensures TrampolineInv(first, HookSlot(place, p, slot, hook).after)
  {
    if slot in p.registry.byAddress {
      var k := p.registry.byAddress[slot];
      ListTrampolines(first, p, k, p.registry.infos[k].hooks + [hook]);
    } else {
      EnteredTrampolines(place, first, p, slot, hook);
    }
  }

  lemma ForgottenTrampolines(first: map<Pointer, Pointer>, p: Process, slot: Pointer, value: Pointer)
    requires TrampolineInv(first, p)
    ensures TrampolineInv(first, p.(registry := Forgotten(p.registry, slot), memory := p.memory[slot := value]))
  {
    var q := p.(registry := Forgotten(p.registry, slot), memory := p.memory[slot := value]);
    forall i | 0 <= i < |q.trampolines|
      ensures TrampolineOk(first, q, i)
    {
      assert TrampolineOk(first, p, i);
    }
  }

  /** What an unhook says: done exactly if the hook is in force and is not the original. */
  function UnhookVerdict(original: Pointer, hooks: multiset<Pointer>, hook: Pointer): Verdict {
    if hooks == multiset{} then Skipped
    else if hook in hooks && hook != NULL && hook != original then Done
    else Failed
  }

  lemma UnhookHere(place: Placement, first: map<Pointer, Pointer>, p: Process, slot: Pointer, hook: Pointer, hooks: multiset<Pointer>)
    requires TrampolineInv(first, p) && SlotInv(place, first, p, slot, hooks)
    ensures var r := UnhookSlot(p, slot, hook);
            TrampolineInv(first, r.after) && r.verdict == UnhookVerdict(Read(first, slot), hooks, hook) &&
            SlotInv(place, first, r.after, slot, Next(Read(first, slot), slot, hooks, Unhook(slot, hook)))
  {
    if hooks == multiset{} {
      return;
    }
    var k := p.registry.byAddress[slot];
    var list := p.registry.infos[k].hooks;
    assert |list[1..]| == |multiset(list[1..])| > 0;
    if hook == NULL || hook == list[0] {
      UnhookNothing(p, slot, hook);
    } else {
      if First(list, hook) == |list| {
        WithoutNone(list, hook);
        UnhookNothing(p, slot, hook);
      } else {
        WithoutOne(list, hook);
        UnhookOne(place, first, p, slot, hook, hooks);
      }
    }
  }

  lemma UnhookOne(place: Placement, first: map<Pointer, Pointer>, p: Process, slot: Pointer, hook: Pointer, hooks: multiset<Pointer>)
    requires TrampolineInv(first, p) && SlotInv(place, first, p, slot, hooks) && hooks != multiset{} && hook != NULL
    requires var list := p.registry.infos[p.registry.byAddress[slot]].hooks;
             |list| > 1 && hook != list[0] && First(list, hook) < |list|
    ensures var r := UnhookSlot(p, slot, hook);
            TrampolineInv(first, r.after) && r.verdict == Done && SlotInv(place, first, r.after, slot, hooks - multiset{hook})
  {
    var k := p.registry.byAddress[slot];
    var list := p.registry.infos[k].hooks;
    WithoutOne(list, hook);
    var left := Left(p, slot, hook);
    ListTrampolines(first, p, k, left);
    if |list| == 2 {
      UnhookLast(p, slot, hook);
      ForgottenTrampolines(first, p.(registry := WithHooks(p.registry, k, left)), slot, list[0]);
      assert left[1..] == [];
    } else {
      UnhookShorter(p, slot, hook);
      assert left[1..] != [];
    }
  }

  lemma OtherSlots(p: Process, slot: Pointer, other: Pointer)
    requires Consistent(p.registry) && slot != other
    requires slot in p.registry.byAddress && other in p.registry.byAddress
    ensures p.registry.byAddress[slot] != p.registry.byAddress[other]
  {
    assert p.registry.infos[p.registry.byAddress[slot]].address == slot;
    assert p.registry.infos[p.registry.byAddress[other]].address == other;
  }

  lemma UnhookElsewhere(place: Placement, first: map<Pointer, Pointer>, p: Process, slot: Pointer, hook: Pointer,
                        other: Pointer, hooks: multiset<Pointer>)
    requires TrampolineInv(first, p) && other != slot && SlotInv(place, first, p, other, hooks)
    requires slot in p.registry.byAddress ==> |p.registry.infos[p.registry.byAddress[slot]].hooks| > 1
    requires slot in p.registry.byAddress ==> slot != NULL && p.registry.infos[p.registry.byAddress[slot]].hooks[0] != NULL
    ensures var q := UnhookSlot(p, slot, hook).after;
            Indexed(q.registry) && SlotInv(place, first, q, other, hooks)
  {
    if slot in p.registry.byAddress {
      var list := p.registry.infos[p.registry.byAddress[slot]].hooks;
      if hooks != multiset{} {
        OtherSlots(p, slot, other);
      }
      if hook == NULL || First(list, hook) == 0 || First(list, hook) == |list| {
        UnhookNothing(p, slot, hook);
      } else if |list| == 2 {
        UnhookLast(p, slot, hook);
      } else {
        UnhookShorter(p, slot, hook);
      }
    }
  }

  // ------------------------------------------------------------- whole runs

  ghost predicate Run(place: Placement, p: Process, events: seq<Event>, q: Process)
    decreases |events|
  {
    Indexed(p.registry) &&
    if events == [] then q == p else Run(place, Perform(place, p, events[0]).after, events[1..], q)
  }

  /** Every slot is as the hooks that are in force there want it. */
  ghost predicate AllSlots(place: Placement, first: map<Pointer, Pointer>, p: Process, events: seq<Event>) {
    && TrampolineInv(first, p)
    && forall slot: Pointer :: SlotOk(place, first, p, events, slot)
  }

  ghost predicate SlotOk(place: Placement, first: map<Pointer, Pointer>, p: Process, events: seq<Event>, slot: Pointer)
    requires Indexed(p.registry)
  {
    SlotInv(place, first, p, slot, InForce(Read(first, slot), slot, events))
  }

  lemma NextInForce(original: Pointer, slot: Pointer, events: seq<Event>, e: Event)
    ensures InForce(original, slot, events + [e]) == Next(original, slot, InForce(original, slot, events), e)
  {
    assert (events + [e])[..|events|] == events;
  }

  lemma SlotLive(place: Placement, first: map<Pointer, Pointer>, p: Process, slot: Pointer, hooks: multiset<Pointer>)
    requires TrampolineInv(first, p) && SlotInv(place, first, p, slot, hooks) && slot in p.registry.byAddress
    ensures slot != NULL
    ensures var list := p.registry.infos[p.registry.byAddress[slot]].hooks; |list| > 1 && list[0] != NULL
  {
    var list := p.registry.infos[p.registry.byAddress[slot]].hooks;
    assert |list[1..]| == |multiset(list[1..])| > 0;
  }

  lemma PerformKeepsSlot(place: Placement, first: map<Pointer, Pointer>, p: Process, events: seq<Event>, e: Event, slot: Pointer)
    requires Placed(place) && AllSlots(place, first, p, events)
    ensures var q := Perform(place, p, e).after; Indexed(q.registry) && SlotOk(place, first, q, events + [e], slot)
  {
    var original := Read(first, slot);
    var hooks := InForce(original, slot, events);
    NextInForce(original, slot, events, e);
    assert SlotOk(place, first, p, events, slot) && SlotOk(place, first, p, events, e.slot);
    if e.slot == slot {
      if e.Hook? {
        HookHere(place, first, p, slot, e.hook, hooks);
      } else {
        UnhookHere(place, first, p, slot, e.hook, hooks);
      }
    } else if e.Hook? {
      HookElsewhere(place, first, p, e.slot, e.hook, slot, hooks);
    } else {
      if e.slot in p.registry.byAddress {
        SlotLive(place, first, p, e.slot, InForce(Read(first, e.slot), e.slot, events));
      }
      UnhookElsewhere(place, first, p, e.slot, e.hook, slot, hooks);
    }
  }

  lemma PerformKeeps(place: Placement, first: map<Pointer, Pointer>, p: Process, events: seq<Event>, e: Event)
    requires Placed(place) && AllSlots(place, first, p, events)
    ensures AllSlots(place, first, Perform(place, p, e).after, events + [e])
  {
    var hooks := InForce(Read(first, e.slot), e.slot, events);
    assert SlotOk(place, first, p, events, e.slot);
    if e.Hook? {
      HookTrampolines(place, first, p, e.slot, e.hook, hooks);
    } else {
      UnhookHere(place, first, p, e.slot, e.hook, hooks);
    }
    var q := Perform(place, p, e).after;
    forall slot: Pointer
      ensures SlotOk(place, first, q, events + [e], slot)
    {
      PerformKeepsSlot(place, first, p, events, e, slot);
    }
  }

  lemma {:induction false} RunKeeps(place: Placement, first: map<Pointer, Pointer>, p: Process, before: seq<Event>,
                                    events: seq<Event>, q: Process)
    requires Placed(place) && AllSlots(place, first, p, before) && Run(place, p, events, q)
    ensures AllSlots(place, first, q, before + events)
    decreases |events|
  {
    if events == [] {
      assert before + events == before;
    } else {
      PerformKeeps(place, first, p, before, events[0]);
      RunKeeps(place, first, Perform(place, p, events[0]).after, before + [events[0]], events[1..], q);
      assert before + [events[0]] + events[1..] == before + events;
    }
  }

  // --------------------------------------------------------------- theorems

  function Start(first: map<Pointer, Pointer>): Process { Process(EMPTY, first, [], false) }

  lemma StartOk(place: Placement, first: map<Pointer, Pointer>)
    ensures AllSlots(place, first, Start(first), [])
  {
    forall slot: Pointer
      ensures SlotOk(place, first, Start(first), [], slot)
    {
    }
  }

  /** After any run, a slot is registered and holds its trampoline exactly while a hook is
      in force; otherwise it holds what it held at the start.  The abort for a slot that
      was modified meanwhile is never reached. */
  lemma SlotsFollowHooks(place: Placement, first: map<Pointer, Pointer>, events: seq<Event>, q: Process, slot: Pointer)
    requires Placed(place) && Run(place, Start(first), events, q)
    ensures !q.aborted && Consistent(q.registry)
    ensures var hooks := InForce(Read(first, slot), slot, events);
            if hooks == multiset{} then slot !in q.registry.byAddress && Read(q.memory, slot) == Read(first, slot)
            else slot in q.registry.byAddress && Read(q.memory, slot) == place(q.registry.byAddress[slot])
  {
    StartOk(place, first);
    RunKeeps(place, first, Start(first), [], events, q);
    assert [] + events == events;
    assert SlotOk(place, first, q, events, slot);
  }

  /** The trampoline of every slot ever hooked finds a run list that starts with what the
      slot held at the start, as long as no more than 2^32 ids were allocated. */
  lemma TrampolinesFindOriginal(place: Placement, first: map<Pointer, Pointer>, events: seq<Event>, q: Process, k: nat)
    requires Placed(place) && Run(place, Start(first), events, q)
    requires k < |q.trampolines| <= TWO_32
    ensures Indexed(q.registry) && |q.trampolines| == |q.registry.infos|
    ensures var list := RunList(q.registry, q.trampolines[k]);
            list == q.registry.infos[k].hooks && |list| > 0 && list[0] == Read(first, q.registry.infos[k].address)
  {
    StartOk(place, first);
    RunKeeps(place, first, Start(first), [], events, q);
    assert TrampolineOk(first, q, k);
    IdLeadsBack(q.registry, k);
  }

  // ------------------------------------------- as often added as removed

  function Count(events: seq<Event>, e: Event): nat
    decreases |events|
  {
    if events == [] then 0
    else Count(events[..|events| - 1], e) + if events[|events| - 1] == e then 1 else 0
  }

  /** Nobody takes back a hook that is not there. */
  ghost predicate Disciplined(events: seq<Event>, slot: Pointer) {
    forall n: nat, hook: Pointer :: n <= |events| ==> Covered(events[..n], slot, hook)
  }

  ghost predicate Covered(events: seq<Event>, slot: Pointer, hook: Pointer) {
    Count(events, Unhook(slot, hook)) <= Count(events, Hook(slot, hook))
  }

  lemma DisciplinedPrefix(events: seq<Event>, slot: Pointer)
    requires Disciplined(events, slot) && events != []
    ensures Disciplined(events[..|events| - 1], slot)
  {
    var short := events[..|events| - 1];
    forall n: nat, hook: Pointer | n <= |short|
      ensures Covered(short[..n], slot, hook)
    {
      assert short[..n] == events[..n];
    }
  }

  /** How often a hook is in force, by the counts. */
  function Net(original: Pointer, slot: Pointer, events: seq<Event>, hook: Pointer): int {
    if hook == original then Count(events, Hook(slot, hook))
    else Count(events, Hook(slot, hook)) - Count(events, Unhook(slot, hook))
  }

  lemma NetStep(original: Pointer, slot: Pointer, hooks: multiset<Pointer>, events: seq<Event>, e: Event, hook: Pointer)
    requires slot != NULL && original != NULL && hook != NULL
    requires hooks[hook] == Net(original, slot, events, hook)
    requires hook == original || Net(original, slot, events + [e], hook) >= 0
    ensures Next(original, slot, hooks, e)[hook] == Net(original, slot, events + [e], hook)
  {
    CountStep(events, e, Hook(slot, hook));
    CountStep(events, e, Unhook(slot, hook));
  }

  lemma CountStep(events: seq<Event>, e: Event, x: Event)
    ensures Count(events + [e], x) == Count(events, x) + if e == x then 1 else 0
  {
    assert (events + [e])[..|events|] == events;
  }

  lemma DisciplinedNow(events: seq<Event>, slot: Pointer, hook: Pointer)
    requires Disciplined(events, slot)
    ensures Covered(events, slot, hook)
  {
    assert events[..|events|] == events;
    assert Covered(events[..|events|], slot, hook);
  }

  lemma {:induction false} InForceCounts(original: Pointer, slot: Pointer, events: seq<Event>, hook: Pointer)
    requires slot != NULL && original != NULL && hook != NULL && Disciplined(events, slot)
    ensures InForce(original, slot, events)[hook] == Net(original, slot, events, hook)
    decreases |events|
  {
    if events != [] {
      var short, last := events[..|events| - 1], events[|events| - 1];
      DisciplinedPrefix(events, slot);
      DisciplinedNow(events, slot, hook);
      InForceCounts(original, slot, short, hook);
      assert events == short + [last];
      NetStep(original, slot, InForce(original, slot, short), short, last, hook);
    }
  }

  lemma {:induction false} NullNeverInForce(original: Pointer, slot: Pointer, events: seq<Event>)
    ensures NULL !in InForce(original, slot, events)
    decreases |events|
  {
    if events != [] {
      NullNeverInForce(original, slot, events[..|events| - 1]);
    }
  }

  ghost predicate Settled(events: seq<Event>, slot: Pointer) {
    forall hook: Pointer :: EvenAt(events, slot, hook)
  }

  ghost predicate EvenAt(events: seq<Event>, slot: Pointer, hook: Pointer) {
    Count(events, Hook(slot, hook)) == Count(events, Unhook(slot, hook))
  }

  /** When each hook was removed as often as it was added, in any order, the slot is
      restored and forgotten exactly if its original function was never added as a hook:
      such a hook cannot be told from the original and stays. */
  lemma Restored(place: Placement, first: map<Pointer, Pointer>, events: seq<Event>, q: Process, slot: Pointer)
    requires Placed(place) && Run(place, Start(first), events, q)
    requires slot != NULL && Read(first, slot) != NULL && Disciplined(events, slot) && Settled(events, slot)
    ensures slot !in q.registry.byAddress <==> Count(events, Hook(slot, Read(first, slot))) == 0
    ensures slot !in q.registry.byAddress ==> Read(q.memory, slot) == Read(first, slot)
  {
    var original := Read(first, slot);
    var hooks := InForce(original, slot, events);
    SlotsFollowHooks(place, first, events, q, slot);
    NullNeverInForce(original, slot, events);
    InForceCounts(original, slot, events, original);
    if Count(events, Hook(slot, original)) == 0 {
      forall hook: Pointer
        ensures hooks[hook] == 0
      {
        if hook != NULL {
          InForceCounts(original, slot, events, hook);
          assert EvenAt(events, slot, hook);
        }
      }
      assert hooks == multiset{};
    } else {
      assert original in hooks;
    }
  }

  /** An unhook is refused only for a hook that is not in force, or is the original. */
  lemma UnhookSays(place: Placement, first: map<Pointer, Pointer>, events: seq<Event>, q: Process, slot: Pointer, hook: Pointer)
    requires Placed(place) && Run(place, Start(first), events, q)
    ensures Indexed(q.registry)
    ensures UnhookSlot(q, slot, hook).verdict
         == UnhookVerdict(Read(first, slot), InForce(Read(first, slot), slot, events), hook)
  {
    StartOk(place, first);
    RunKeeps(place, first, Start(first), [], events, q);
    assert [] + events == events;
    assert SlotOk(place, first, q, events, slot);
    UnhookHere(place, first, q, slot, hook, InForce(Read(first, slot), slot, events));
  }

  // -------------------------------------------------------------- growing runs

  /** How many events of the run succeed. */
  ghost function Successes(place: Placement, p: Process, events: seq<Event>): nat
    decreases |events|
  {
    if events == [] || !Indexed(p.registry) then 0
    else
      var r := Perform(place, p, events[0]);
      (if r.verdict == Done then 1 else 0) + Successes(place, r.after, events[1..])
  }

  lemma {:induction false} RunAppend(place: Placement, p: Process, events: seq<Event>, q: Process, e: Event)
    requires Run(place, p, events, q)
    requires Indexed(q.registry) && Indexed(Perform(place, q, e).after.registry)
    ensures Run(place, p, events + [e], Perform(place, q, e).after)
    ensures Successes(place, p, events + [e])
         == Successes(place, p, events) + if Perform(place, q, e).verdict == Done then 1 else 0
    decreases |events|
  {
    if events == [] {
      assert [] + [e] == [e];
      assert [e][1..] == [];
    } else {
      RunAppend(place, Perform(place, p, events[0]).after, events[1..], q, e);
      assert (events + [e])[1..] == events[1..] + [e];
    }
  }

  lemma {:induction false} RunSum(place: Placement, p: Process, events: seq<Event>, q: Process, more: seq<Event>, r: Process)
    requires Run(place, p, events, q) && Run(place, q, more, r)
    ensures Run(place, p, events + more, r)
    decreases |events|
  {
    if events == [] {
      assert [] + more == more;
    } else {
      assert (events + more)[1..] == events[1..] + more && (events + more)[0] == events[0];
      RunSum(place, Perform(place, p, events[0]).after, events[1..], q, more, r);
    }
  }

  // ---------------------------------------------------- hooking whole libraries

  /** Where a run of these events ends. */
  ghost function After(place: Placement, p: Process, events: seq<Event>): Process
    decreases |events|
  {
    if events == [] || !Indexed(p.registry) then p else After(place, Perform(place, p, events[0]).after, events[1..])
  }

  lemma {:induction false} RunIsAfter(place: Placement, p: Process, events: seq<Event>, q: Process)
    requires Run(place, p, events, q)
    ensures After(place, p, events) == q
    decreases |events|
  {
    if events != [] {
      RunIsAfter(place, Perform(place, p, events[0]).after, events[1..], q);
    }
  }

  /** Symbols by number; NO_NAME is a null pointer, or no symbol at all. */
  type Name = nat

  const NO_NAME: Name := 0

  /** What dladdr says of a slot and its value: the symbol's name, if both are in a library. */
  type Dladdr = (Pointer, Pointer) -> Name

  /** A hook that is wanted, and the symbol that it is for. */
  datatype Want = Want(hook: Pointer, name: Name)

  predicate IsValid(w: Want) { w.hook != NULL && w.name != NO_NAME }

  /** What a slot is asked before it is hooked. */
  predicate Verified(dladdr: Dladdr, p: Process, slot: Pointer, name: Name) {
    slot in p.registry.byAddress || (name != NO_NAME && dladdr(slot, Read(p.memory, slot)) == name)
  }

  /** The hooks of one spec: of the slots that verify when it is their turn. */
  ghost function HookEvents(place: Placement, dladdr: Dladdr, p: Process,
                            slots: seq<Pointer>, w: Want): seq<Event>
    decreases |slots|
  {
    if slots == [] then []
    else
      var before, slot := HookEvents(place, dladdr, p, slots[..|slots| - 1], w), slots[|slots| - 1];
      if Verified(dladdr, After(place, p, before), slot, w.name) then before + [Hook(slot, w.hook)] else before
  }

  lemma HookEventsNext(place: Placement, dladdr: Dladdr, p: Process,
                       slots: seq<Pointer>, i: nat, w: Want, q: Process)
    requires i < |slots| && Run(place, p, HookEvents(place, dladdr, p, slots[..i], w), q)
    ensures var before := HookEvents(place, dladdr, p, slots[..i], w);
            HookEvents(place, dladdr, p, slots[..i + 1], w)
            == if Verified(dladdr, q, slots[i], w.name) then before + [Hook(slots[i], w.hook)] else before
  {
    RunIsAfter(place, p, HookEvents(place, dladdr, p, slots[..i], w), q);
    assert slots[..i + 1][..i] == slots[..i];
  }

  ghost function SpecHooks(place: Placement, dladdr: Dladdr, p: Process, w: Want, slots: seq<Pointer>): seq<Event> {
    if IsValid(w) then HookEvents(place, dladdr, p, slots, w) else []
  }

  /** An invalid spec is one failure; of a valid one each slot that is not hooked. */
  ghost function SpecFailures(place: Placement, dladdr: Dladdr, p: Process, w: Want, slots: seq<Pointer>): int {
    if IsValid(w) then |slots| - Successes(place, p, HookEvents(place, dladdr, p, slots, w)) else 1
  }

  ghost function LibHooks(place: Placement, dladdr: Dladdr, p: Process,
                          wants: seq<Want>, slots: seq<seq<Pointer>>): seq<Event>
    requires |slots| == |wants|
    decreases |wants|
  {
    if wants == [] then []
    else
      var n := |wants| - 1;
      var before := LibHooks(place, dladdr, p, wants[..n], slots[..n]);
      before + SpecHooks(place, dladdr, After(place, p, before), wants[n], slots[n])
  }

  ghost function LibFailures(place: Placement, dladdr: Dladdr, p: Process,
                             wants: seq<Want>, slots: seq<seq<Pointer>>): int
    requires |slots| == |wants|
    decreases |wants|
  {
    if wants == [] then 0
    else
      var n := |wants| - 1;
      var q := After(place, p, LibHooks(place, dladdr, p, wants[..n], slots[..n]));
      LibFailures(place, dladdr, p, wants[..n], slots[..n]) + SpecFailures(place, dladdr, q, wants[n], slots[n])
  }

  /** What the k-th spec's hook_result grows by. */
  ghost function HookGain(place: Placement, dladdr: Dladdr, p: Process,
                          wants: seq<Want>, slots: seq<seq<Pointer>>, k: nat): nat
    requires k < |wants| == |slots|
  {
    var q := After(place, p, LibHooks(place, dladdr, p, wants[..k], slots[..k]));
    Successes(place, q, SpecHooks(place, dladdr, q, wants[k], slots[k]))
  }

  lemma Prefixes<T>(s: seq<T>, i: nat)
    requires i < |s|
    ensures var t := s[..i + 1]; |t| == i + 1 && t[..i] == s[..i] && t[i] == s[i]
  {
  }

  /** One spec more. */
  lemma LibLast(place: Placement, dladdr: Dladdr, p: Process, wants: seq<Want>, slots: seq<seq<Pointer>>, n: nat, q: Process)
    requires |wants| == |slots| == n + 1 && q == After(place, p, LibHooks(place, dladdr, p, wants[..n], slots[..n]))
    ensures LibHooks(place, dladdr, p, wants, slots)
         == LibHooks(place, dladdr, p, wants[..n], slots[..n]) + SpecHooks(place, dladdr, q, wants[n], slots[n])
    ensures LibFailures(place, dladdr, p, wants, slots)
         == LibFailures(place, dladdr, p, wants[..n], slots[..n]) + SpecFailures(place, dladdr, q, wants[n], slots[n])
  {
  }

  lemma LibHooksNext(place: Placement, dladdr: Dladdr, p: Process,
                     wants: seq<Want>, slots: seq<seq<Pointer>>, i: nat, q: Process)
    requires i < |wants| == |slots| && Run(place, p, LibHooks(place, dladdr, p, wants[..i], slots[..i]), q)
    ensures LibHooks(place, dladdr, p, wants[..i + 1], slots[..i + 1])
         == LibHooks(place, dladdr, p, wants[..i], slots[..i]) + SpecHooks(place, dladdr, q, wants[i], slots[i])
    ensures HookGain(place, dladdr, p, wants, slots, i) == Successes(place, q, SpecHooks(place, dladdr, q, wants[i], slots[i]))
  {
    RunIsAfter(place, p, LibHooks(place, dladdr, p, wants[..i], slots[..i]), q);
    Prefixes(wants, i);
    Prefixes(slots, i);
    LibLast(place, dladdr, p, wants[..i + 1], slots[..i + 1], i, q);
  }

  lemma LibFailuresNext(place: Placement, dladdr: Dladdr, p: Process,
                        wants: seq<Want>, slots: seq<seq<Pointer>>, i: nat, q: Process)
    requires i < |wants| == |slots| && Run(place, p, LibHooks(place, dladdr, p, wants[..i], slots[..i]), q)
    ensures LibFailures(place, dladdr, p, wants[..i + 1], slots[..i + 1])
         == LibFailures(place, dladdr, p, wants[..i], slots[..i]) + SpecFailures(place, dladdr, q, wants[i], slots[i])
  {
    RunIsAfter(place, p, LibHooks(place, dladdr, p, wants[..i], slots[..i]), q);
    Prefixes(wants, i);
    Prefixes(slots, i);
    LibLast(place, dladdr, p, wants[..i + 1], slots[..i + 1], i, q);
  }

  /** What hook_single_lib has done after i specs, from p to q. */
  ghost predicate HookedSoFar(place: Placement, dladdr: Dladdr, p: Process, wants: seq<Want>,
                              slots: seq<seq<Pointer>>, i: nat, events: seq<Event>, failures: int, gains: seq<nat>, q: Process)
  {
    && i <= |wants| == |slots| && |gains| == i
    && Run(place, p, events, q) && events == LibHooks(place, dladdr, p, wants[..i], slots[..i])
    && failures == LibFailures(place, dladdr, p, wants[..i], slots[..i])
    && forall k :: 0 <= k < i ==> gains[k] == HookGain(place, dladdr, p, wants, slots, k)
  }

  lemma HookedNext(place: Placement, dladdr: Dladdr, p: Process, wants: seq<Want>,
                   slots: seq<seq<Pointer>>, i: nat, events: seq<Event>, failures: int, gains: seq<nat>, q: Process,
                   more: seq<Event>, r: Process)
    requires i < |wants| && HookedSoFar(place, dladdr, p, wants, slots, i, events, failures, gains, q)
    requires Run(place, q, more, r) && more == SpecHooks(place, dladdr, q, wants[i], slots[i])
    ensures HookedSoFar(place, dladdr, p, wants, slots, i + 1, events + more,
                        failures + SpecFailures(place, dladdr, q, wants[i], slots[i]),
                        gains + [Successes(place, q, more)], r)
  {
    LibHooksNext(place, dladdr, p, wants, slots, i, q);
    LibFailuresNext(place, dladdr, p, wants, slots, i, q);
    RunSum(place, p, events, q, more, r);
  }

  lemma HookedAll(place: Placement, dladdr: Dladdr, p: Process, wants: seq<Want>,
                  slots: seq<seq<Pointer>>, events: seq<Event>, failures: int, gains: seq<nat>, q: Process)
    requires HookedSoFar(place, dladdr, p, wants, slots, |wants|, events, failures, gains, q)
    ensures Run(place, p, events, q) && events == LibHooks(place, dladdr, p, wants, slots)
    ensures failures == LibFailures(place, dladdr, p, wants, slots)
  {
    assert wants[..|wants|] == wants && slots[..|wants|] == slots;
  }

  /** The unhooks of a library are of all slots of all specs. */
  ghost function LibUnhooks(wants: seq<Want>, slots: seq<seq<Pointer>>): seq<Event>
    requires |slots| == |wants|
    decreases |wants|
  {
    if wants == [] then []
    else
      var n := |wants| - 1;
      LibUnhooks(wants[..n], slots[..n]) + Unhooks(slots[n], wants[n].hook)
  }

  ghost function UnhookGain(place: Placement, p: Process, wants: seq<Want>, slots: seq<seq<Pointer>>, k: nat): nat
    requires k < |wants| == |slots|
  {
    Successes(place, After(place, p, LibUnhooks(wants[..k], slots[..k])), Unhooks(slots[k], wants[k].hook))
  }

  lemma LibUnhooksNext(place: Placement, p: Process, wants: seq<Want>, slots: seq<seq<Pointer>>, i: nat, q: Process)
    requires i < |wants| == |slots| && Run(place, p, LibUnhooks(wants[..i], slots[..i]), q)
    ensures LibUnhooks(wants[..i + 1], slots[..i + 1]) == LibUnhooks(wants[..i], slots[..i]) + Unhooks(slots[i], wants[i].hook)
    ensures UnhookGain(place, p, wants, slots, i) == Successes(place, q, Unhooks(slots[i], wants[i].hook))
  {
    RunIsAfter(place, p, LibUnhooks(wants[..i], slots[..i]), q);
    assert wants[..i + 1][..i] == wants[..i] && slots[..i + 1][..i] == slots[..i];
  }

  /** What unhook_single_lib has done after i specs, from p to q. */
  ghost predicate UnhookedSoFar(place: Placement, p: Process, wants: seq<Want>, slots: seq<seq<Pointer>>, i: nat,
                                events: seq<Event>, failures: int, gains: seq<nat>, q: Process)
  {
    && i <= |wants| == |slots| && |gains| == i
    && Run(place, p, events, q) && events == LibUnhooks(wants[..i], slots[..i])
    && failures == Refusals(place, p, events)
    && forall k :: 0 <= k < i ==> gains[k] == UnhookGain(place, p, wants, slots, k)
  }

  lemma UnhookedNext(place: Placement, p: Process, wants: seq<Want>, slots: seq<seq<Pointer>>, i: nat,
                     events: seq<Event>, failures: int, gains: seq<nat>, q: Process, more: seq<Event>, r: Process)
    requires i < |wants| && UnhookedSoFar(place, p, wants, slots, i, events, failures, gains, q)
    requires Run(place, q, more, r) && more == Unhooks(slots[i], wants[i].hook)
    ensures UnhookedSoFar(place, p, wants, slots, i + 1, events + more, failures + Refusals(place, q, more),
                          gains + [Successes(place, q, more)], r)
  {
    LibUnhooksNext(place, p, wants, slots, i, q);
    RunSum(place, p, events, q, more, r);
    RefusalsSum(place, p, events, q, more);
  }

  /** How many events of the run are refused. */
  ghost function Refusals(place: Placement, p: Process, events: seq<Event>): nat
    decreases |events|
  {
    if events == [] || !Indexed(p.registry) then 0
    else
      var r := Perform(place, p, events[0]);
      (if r.verdict == Failed then 1 else 0) + Refusals(place, r.after, events[1..])
  }

  lemma {:induction false} RefusalsSum(place: Placement, p: Process, events: seq<Event>, q: Process, more: seq<Event>)
    requires Run(place, p, events, q)
    ensures Refusals(place, p, events + more) == Refusals(place, p, events) + Refusals(place, q, more)
    decreases |events|
  {
    if events == [] {
      assert [] + more == more;
    } else {
      assert (events + more)[1..] == events[1..] + more && (events + more)[0] == events[0];
      RefusalsSum(place, Perform(place, p, events[0]).after, events[1..], q, more);
    }
  }

  lemma RefusalsAppend(place: Placement, p: Process, events: seq<Event>, q: Process, e: Event)
    requires Run(place, p, events, q) && Indexed(q.registry)
    ensures Refusals(place, p, events + [e])
         == Refusals(place, p, events) + if Perform(place, q, e).verdict == Failed then 1 else 0
  {
    RefusalsSum(place, p, events, q, [e]);
    assert [e][1..] == [];
  }

  function Unhooks(slots: seq<Pointer>, hook: Pointer): seq<Event>
    decreases |slots|
  {
    if slots == [] then [] else Unhooks(slots[..|slots| - 1], hook) + [Unhook(slots[|slots| - 1], hook)]
  }

  lemma UnhooksNext(slots: seq<Pointer>, i: nat, hook: Pointer)
    requires i < |slots|
    ensures Unhooks(slots[..i + 1], hook) == Unhooks(slots[..i], hook) + [Unhook(slots[i], hook)]
  {
    assert slots[..i + 1][..i] == slots[..i];
  }

  /** p came to q by these events, and so many of them succeeded. */
  ghost predicate CameBy(place: Placement, p: Process, events: seq<Event>, q: Process, successes: int) {
    Consistent(q.registry) && Run(place, p, events, q) && successes == Successes(place, p, events)
  }

  lemma Grow(place: Placement, p: Process, events: seq<Event>, q: Process, e: Event)
    requires CameBy(place, p, events, q, Successes(place, p, events))
    ensures var r := Perform(place, q, e);
            CameBy(place, p, events + [e], r.after, Successes(place, p, events) + if r.verdict == Done then 1 else 0)
  {
    match e {
      case Hook(slot, hook) => AddKeeps(q.registry, slot, hook, Read(q.memory, slot));
      case Unhook(slot, hook) => UnhookKeepsConsistent(q, slot, hook);
    }
    RunAppend(place, p, events, q, e);
  }

  lemma UnhookKeepsConsistent(p: Process, slot: Pointer, hook: Pointer)
    requires Consistent(p.registry)
    ensures Consistent(UnhookSlot(p, slot, hook).after.registry)
  {
    var o := Hooks.Remove(p.registry, slot, hook);
    RemoveKeeps(p.registry, slot, hook);
    if o.result == RemovedTrivial {
      RemoveKeeps(o.after, slot, o.previous);
      assert UnhookSlot(p, slot, hook).after.registry == Hooks.Remove(o.after, slot, o.previous).after;
    } else {
      assert UnhookSlot(p, slot, hook).after.registry == if slot in p.registry.byAddress then o.after else p.registry;
    }
  }

  // -------------------------------------------------- a slot that cannot be written

  predicate OnlyHooks(events: seq<Event>) { forall e :: e in events ==> e.Hook? }

  lemma AddLeaves(r: Registry, address: Pointer, hook: Pointer, previous: Pointer, slot: Pointer)
    requires Consistent(r) && slot in r.byAddress
    ensures var o := Add(r, address, hook, previous); Consistent(o.after) && slot in o.after.byAddress
  {
    AddKeeps(r, address, hook, previous);
  }

  lemma HookWrites(place: Placement, p: Process, slot: Pointer, hook: Pointer, other: Pointer)
    requires Indexed(p.registry) && other in p.registry.byAddress
    ensures Read(HookSlot(place, p, slot, hook).after.memory, other) == Read(p.memory, other)
  {
  }

  /** Hooking never writes into a slot that is entered already. */
  lemma HookLeaves(place: Placement, p: Process, slot: Pointer, e: Event)
    requires Consistent(p.registry) && slot in p.registry.byAddress && e.Hook?
    ensures var q := Perform(place, p, e).after;
            Consistent(q.registry) && slot in q.registry.byAddress && Read(q.memory, slot) == Read(p.memory, slot)
  {
    AddLeaves(p.registry, e.slot, e.hook, Read(p.memory, e.slot), slot);
    HookWrites(place, p, e.slot, e.hook, slot);
  }

  lemma {:induction false} HooksLeave(place: Placement, p: Process, slot: Pointer, events: seq<Event>)
    requires Consistent(p.registry) && slot in p.registry.byAddress && OnlyHooks(events)
    ensures var q := After(place, p, events);
            Consistent(q.registry) && slot in q.registry.byAddress && Read(q.memory, slot) == Read(p.memory, slot)
    decreases |events|
  {
    if events != [] {
      HookLeaves(place, p, slot, events[0]);
      HooksLeave(place, Perform(place, p, events[0]).after, slot, events[1..]);
    }
  }

  /** A first hook that cannot be written fails, but stays entered: after any further
      hooks the next one of that slot is reported as done, while the slot still holds the
      original function. */
  lemma FailedPatchSticks(place: Placement, p: Process, slot: Pointer, hook: Pointer, events: seq<Event>, later: Pointer)
    requires Consistent(p.registry) && slot !in p.registry.byAddress && OnlyHooks(events)
    requires slot != NULL && hook != NULL && later != NULL && Read(p.memory, slot) != NULL
    ensures HookUnwritable(p, slot, hook).verdict == Failed
    ensures var q := After(place, HookUnwritable(p, slot, hook).after, events);
            && Consistent(q.registry) && HookSlot(place, q, slot, later).verdict == Done
            && Read(HookSlot(place, q, slot, later).after.memory, slot) == Read(p.memory, slot)
  {
    AddKeeps(p.registry, slot, hook, Read(p.memory, slot));
    var q := HookUnwritable(p, slot, hook).after;
    HooksLeave(place, q, slot, events);
    HookLeaves(place, After(place, q, events), slot, Hook(slot, later));
  }
}
