/**
 hooks.cpp as it is written: shared info objects behind two maps, updated in place.
 */
module HooksObject {
  import opened Hooks

  class InternalHookInfo {
    const id: nat
    const gotAddress: Pointer
    var hooks: seq<Pointer>

    constructor (id: nat, gotAddress: Pointer, hooks: seq<Pointer>)
      ensures this.id == id && this.gotAddress == gotAddress && this.hooks == hooks
    {
      this.id, this.gotAddress, this.hooks := id, gotAddress, hooks;
    }

    function Value(): Info
      reads this
    {
      Info(id, gotAddress, hooks)
    }
  }

  /** A map of the program holds the objects whose positions the index gives. */
  ghost predicate Leads<K>(objects: map<K, InternalHookInfo>, index: map<K, nat>, all: seq<InternalHookInfo>) {
    objects.Keys == index.Keys && forall k :: k in objects ==> index[k] < |all| && objects[k] == all[index[k]]
  }

  /** Different objects with these values. */
  ghost predicate Holds(all: seq<InternalHookInfo>, infos: seq<Info>)
    reads all
  {
    && |all| == |infos|
    && (forall i, j :: 0 <= i < j < |all| ==> all[i] != all[j])
    && (forall i :: 0 <= i < |all| ==> all[i].Value() == infos[i])
  }

  lemma HoldsLonger(all: seq<InternalHookInfo>, infos: seq<Info>, x: InternalHookInfo)
    requires Holds(all, infos) && x !in all
    ensures Holds(all + [x], infos + [x.Value()])
  {
  }

  lemma LeadsLonger<K>(objects: map<K, InternalHookInfo>, index: map<K, nat>, all: seq<InternalHookInfo>, x: InternalHookInfo)
    requires Leads(objects, index, all)
    ensures Leads(objects, index, all + [x])
  {
  }

  lemma LeadsNew<K>(objects: map<K, InternalHookInfo>, index: map<K, nat>, all: seq<InternalHookInfo>, k: K, x: InternalHookInfo)
    requires Leads(objects, index, all)
    ensures Leads(objects[k := x], index[k := |all|], all + [x])
  {
  }

  class HookInfo {
    var outId: nat
    const gotAddress: Pointer
    const newFunction: Pointer
    var previousFunction: Pointer

    constructor (gotAddress: Pointer, newFunction: Pointer, previousFunction: Pointer)
      ensures this.gotAddress == gotAddress && this.newFunction == newFunction
      ensures outId == 0 && this.previousFunction == previousFunction
    {
      outId := 0;
      this.gotAddress, this.newFunction, this.previousFunction := gotAddress, newFunction, previousFunction;
    }
  }

  class Globals {
    var hooksById: map<nat, InternalHookInfo>
    var hooksByGotAddress: map<Pointer, InternalHookInfo>
    var nextId: nat

    // Every info ever made, and the registry they amount to.
    ghost var all: seq<InternalHookInfo>
    ghost var registry: Registry
    ghost var Repr: set<InternalHookInfo>

    ghost predicate Valid()
      reads this, all
    {
      && Indexed(registry) && nextId == NextId(registry)
      && Holds(all, registry.infos) && (forall i :: 0 <= i < |all| ==> all[i] in Repr)
      && Leads(hooksById, registry.byId, all) && Leads(hooksByGotAddress, registry.byAddress, all)
    }

    constructor ()
      ensures Valid() && registry == EMPTY && Repr == {}
    {
      hooksById, hooksByGotAddress, nextId := map[], map[], 1;
      all, registry, Repr := [], EMPTY, {};
    }

    method AllocateId() returns (id: nat)
      modifies this`nextId
      ensures id == old(nextId) && nextId == (old(nextId) + 1) % TWO_32
    {
      id := nextId;
      nextId := (nextId + 1) % TWO_32;
    }

    method IsHooked(gotAddress: Pointer) returns (hooked: bool)
      requires Valid()
      ensures hooked <==> gotAddress in registry.byAddress
    {
      hooked := gotAddress in hooksByGotAddress;
    }

    method ListSize(id: nat) returns (size: int)
      requires Valid()
      ensures size == if id in registry.byId then |RunList(registry, id)| else -1
    {
      if id !in hooksById {
        return -1;
      }
      size := |hooksById[id].hooks|;
    }

    method GetRunList(id: nat) returns (runList: seq<Pointer>)
      requires Valid()
      ensures runList == RunList(registry, id)
    {
      if id !in hooksById {
        return [];
      }
      runList := hooksById[id].hooks;
    }

    /** Replaces the list of a live slot in place, in both indexes at once. */
    method SetHooks(info: InternalHookInfo, hooks: seq<Pointer>, ghost k: nat)
      requires Valid() && k < |all| && info == all[k] && |hooks| > 0
      modifies this`registry, info
      ensures Valid() && info.hooks == hooks
      ensures registry == WithHooks(old(registry), k, hooks)
    {
      info.hooks := hooks;
      registry := WithHooks(registry, k, hooks);
    }

    /** Enters a new info in both indexes; as std::map::emplace does, an id in use keeps its entry. */
    method Emplace(info: InternalHookInfo)
      requires Leads(hooksById, registry.byId, all) && Leads(hooksByGotAddress, registry.byAddress, all)
      modifies this`hooksById, this`hooksByGotAddress
      ensures var byId := registry.byId;
              Leads(hooksById, if info.id in byId then byId else byId[info.id := |all|], all + [info])
      ensures Leads(hooksByGotAddress, registry.byAddress[info.gotAddress := |all|], all + [info])
    {
      LeadsNew(hooksByGotAddress, registry.byAddress, all, info.gotAddress, info);
      LeadsNew(hooksById, registry.byId, all, info.id, info);
      LeadsLonger(hooksById, registry.byId, all, info);
      hooksByGotAddress := hooksByGotAddress[info.gotAddress := info];
      if info.id !in hooksById {
        hooksById := hooksById[info.id := info];
      }
    }

    /** The info that Emplace entered joins the others. */
    ghost method Join(info: InternalHookInfo, hook: Pointer, previous: Pointer)
      requires Indexed(registry) && nextId == (NextId(registry) + 1) % TWO_32
      requires Holds(all, registry.infos) && info !in all && (forall i :: 0 <= i < |all| ==> all[i] in Repr)
      requires info.id == NextId(registry) && info.hooks == [previous, hook]
      requires var byId := registry.byId;
               Leads(hooksById, if info.id in byId then byId else byId[info.id := |all|], all + [info])
      requires Leads(hooksByGotAddress, registry.byAddress[info.gotAddress := |all|], all + [info])
      modifies this`all, this`registry, this`Repr
      ensures Valid() && Repr == old(Repr) + {info}
      ensures registry == Entered(old(registry), info.gotAddress, hook, previous)
    {
      EnteredIndexed(registry, info.gotAddress, hook, previous);
      HoldsLonger(all, registry.infos, info);
      registry := Entered(registry, info.gotAddress, hook, previous);
      all, Repr := all + [info], Repr + {info};
    }

    method Enter(gotAddress: Pointer, previous: Pointer, hook: Pointer) returns (id: nat)
      requires Valid() && gotAddress !in registry.byAddress
      modifies this
      ensures Valid() && fresh(Repr - old(Repr))
      ensures registry == Entered(old(registry), gotAddress, hook, previous) && id == NextId(old(registry))
    {
      id := AllocateId();
      var internalInfo := new InternalHookInfo(id, gotAddress, [previous, hook]);
      Emplace(internalInfo);
      Join(internalInfo, hook, previous);
    }

    method Add(info: HookInfo) returns (result: HookResult)
      requires Valid()
      modifies this, Repr, info
      ensures Valid()
      ensures fresh(Repr - old(Repr))
      ensures var o := Hooks.Add(old(registry), info.gotAddress, info.newFunction, old(info.previousFunction));
              registry == o.after && result == o.result && (o.result == NewHook ==> info.outId == o.id)
      ensures result != NewHook ==> info.outId == old(info.outId)
      ensures info.previousFunction == old(info.previousFunction)
    {
      if info.previousFunction == NULL || info.newFunction == NULL || info.gotAddress == NULL {
        return WrongHookInfo;
      }
      if info.gotAddress in hooksByGotAddress {
        var internalInfo := hooksByGotAddress[info.gotAddress];
        SetHooks(internalInfo, internalInfo.hooks + [info.newFunction], registry.byAddress[info.gotAddress]);
        return AlreadyHookedAppended;
      }
      var id := Enter(info.gotAddress, info.previousFunction, info.newFunction);
      info.outId := id;
      return NewHook;
    }

    /** std::find */
    method Find(hooks: seq<Pointer>, hook: Pointer) returns (i: nat)
      ensures i == First(hooks, hook)
    {
      i := 0;
      while i < |hooks| && hooks[i] != hook
        invariant i <= |hooks| && hook !in hooks[..i]
      {
        i := i + 1;
      }
      FirstUnique(hooks, hook, i);
    }

    /** Drops a slot from the address index only: a running trampoline may still look
        its run list up by id. */
    method Forget(gotAddress: Pointer)
      requires Valid()
      modifies this`registry, this`hooksByGotAddress
      ensures Valid() && registry == Forgotten(old(registry), gotAddress)
    {
      hooksByGotAddress := hooksByGotAddress - {gotAddress};
      registry := Forgotten(registry, gotAddress);
    }

    method Remove(info: HookInfo) returns (result: HookResult)
      requires Valid()
      modifies this, Repr, info`previousFunction
      ensures Valid() && Repr == old(Repr)
      ensures var o := Hooks.Remove(old(registry), info.gotAddress, info.newFunction);
              registry == o.after && result == o.result &&
              info.previousFunction == if o.result == RemovedTrivial || o.result == RemovedStillHooked then o.previous
                                       else old(info.previousFunction)
    {
      if info.newFunction == NULL || info.gotAddress == NULL {
        return WrongHookInfo;
      }
      if info.gotAddress !in hooksByGotAddress {
        return WrongHookInfo;
      }
      var internalInfo := hooksByGotAddress[info.gotAddress];
      if |internalInfo.hooks| == 1 {
        if internalInfo.hooks[0] != info.newFunction {
          return WrongHookInfo;
        }
        Forget(info.gotAddress);
        return RemovedFully;
      }
      result := TakeOut(info, internalInfo);
    }

    method TakeOut(info: HookInfo, internalInfo: InternalHookInfo) returns (result: HookResult)
      requires Valid() && info.newFunction != NULL && info.gotAddress != NULL && info.gotAddress in registry.byAddress
      requires internalInfo == all[registry.byAddress[info.gotAddress]] && |internalInfo.hooks| != 1
      modifies this`registry, internalInfo, info`previousFunction
      ensures Valid()
      ensures var o := Hooks.Remove(old(registry), info.gotAddress, info.newFunction);
              registry == o.after && result == o.result &&
              info.previousFunction == if o.result == RemovedTrivial || o.result == RemovedStillHooked then o.previous
                                       else old(info.previousFunction)
    {
      ghost var k := registry.byAddress[info.gotAddress];
      var i := Find(internalInfo.hooks, info.newFunction);
      RemovesAt(registry, info.gotAddress, info.newFunction, k, internalInfo.hooks, i);
      if i == |internalInfo.hooks| || i == 0 {
        return WrongHookInfo;
      }
      result := Erase(info, internalInfo, i, k);
    }

    /** Takes a function that is not the first out of the list; what is left says how. */
    method Erase(info: HookInfo, internalInfo: InternalHookInfo, i: nat, ghost k: nat) returns (result: HookResult)
      requires Valid() && k < |all| && internalInfo == all[k] && 0 < i < |internalInfo.hooks|
      modifies this`registry, internalInfo, info`previousFunction
      ensures Valid()
      ensures var left := Without(old(internalInfo.hooks), i);
              registry == WithHooks(old(registry), k, left) && info.previousFunction == left[0] &&
              result == if |left| == 1 then RemovedTrivial else RemovedStillHooked
    {
      SetHooks(internalInfo, Without(internalInfo.hooks, i), k);
      info.previousFunction := internalInfo.hooks[0];
      return if |internalInfo.hooks| == 1 then RemovedTrivial else RemovedStillHooked;
    }
  }

  /** Remove, once the function was looked for in a list of several. */
  lemma RemovesAt(r: Registry, address: Pointer, hook: Pointer, k: nat, hooks: seq<Pointer>, i: nat)
    requires Indexed(r) && hook != NULL && address != NULL && address in r.byAddress && k == r.byAddress[address]
    requires hooks == r.infos[k].hooks && |hooks| != 1 && i == First(hooks, hook)
    ensures Hooks.Remove(r, address, hook) ==
            if i == |hooks| || i == 0 then Outcome(r, WrongHookInfo, 0, NULL)
            else var left := Without(hooks, i);
                 Outcome(WithHooks(r, k, left), if |left| == 1 then RemovedTrivial else RemovedStillHooked, 0, left[0])
  {
  }
}
