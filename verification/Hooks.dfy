/**
 hooks.cpp: the registry of hooked GOT slots, with its two indexes.
 */
module Hooks {

  const TWO_32: nat := 0x1_0000_0000

  type Pointer = nat
  const NULL: Pointer := 0

  /** One InternalHookInfo, and the registry as values.  `infos` holds every one ever
      made, in the order of making; the indexes hold positions in it. */
  datatype Info = Info(id: nat, address: Pointer, hooks: seq<Pointer>)

  datatype Registry = Registry(infos: seq<Info>, byId: map<nat, nat>, byAddress: map<Pointer, nat>)

  datatype HookResult =
    | WrongHookInfo | NewHook | AlreadyHookedAppended | RemovedStillHooked | RemovedTrivial | RemovedFully

  /** `id` and `previous` are what the call leaves in its HookInfo. */
  datatype Outcome = Outcome(after: Registry, result: HookResult, id: nat, previous: Pointer)

  const EMPTY: Registry := Registry([], map[], map[])

  /** next_id starts at 1 and wraps as a 32-bit counter. */
  function NextId(r: Registry): nat { (1 + |r.infos|) % TWO_32 }

  ghost predicate Indexed(r: Registry) {
    && (forall k :: k in r.byId ==> r.byId[k] < |r.infos|)
    && (forall a :: a in r.byAddress ==> r.byAddress[a] < |r.infos|)
    && (forall i :: 0 <= i < |r.infos| ==> |r.infos[i].hooks| > 0)
  }

  /** std::find */
  function First(s: seq<Pointer>, x: Pointer): (i: nat)
    ensures i <= |s| && (i < |s| ==> s[i] == x)
    ensures x !in s[..i]
  {
    if s == [] then 0 else if s[0] == x then 0 else 1 + First(s[1..], x)
  }

  lemma FirstUnique(s: seq<Pointer>, x: Pointer, i: nat)
    requires i <= |s| && x !in s[..i] && (i < |s| ==> s[i] == x)
    ensures First(s, x) == i
  {
  }

  function Without(s: seq<Pointer>, i: nat): seq<Pointer>
    requires i < |s|
  {
    s[..i] + s[i + 1..]
  }

  function WithHooks(r: Registry, k: nat, hooks: seq<Pointer>): Registry
    requires k < |r.infos|
  {
    r.(infos := r.infos[k := r.infos[k].(hooks := hooks)])
  }

  /** A new info in both indexes; as std::map::emplace does, an id in use keeps its entry. */
  function Entered(r: Registry, address: Pointer, hook: Pointer, previous: Pointer): Registry {
    var id, k := NextId(r), |r.infos|;
    Registry(r.infos + [Info(id, address, [previous, hook])],
             if id in r.byId then r.byId else r.byId[id := k],
             r.byAddress[address := k])
  }

  function Forgotten(r: Registry, address: Pointer): Registry { r.(byAddress := r.byAddress - {address}) }

  function Add(r: Registry, address: Pointer, hook: Pointer, previous: Pointer): Outcome
    requires Indexed(r)
  {
    if previous == NULL || hook == NULL || address == NULL then Outcome(r, WrongHookInfo, 0, previous)
    else if address in r.byAddress then
      var k := r.byAddress[address];
      Outcome(WithHooks(r, k, r.infos[k].hooks + [hook]), AlreadyHookedAppended, 0, previous)
    else Outcome(Entered(r, address, hook, previous), NewHook, NextId(r), previous)
  }

  function Remove(r: Registry, address: Pointer, hook: Pointer): Outcome
    requires Indexed(r)
  {
    if hook == NULL || address == NULL || address !in r.byAddress then Outcome(r, WrongHookInfo, 0, NULL)
    else
      var k := r.byAddress[address];
      var hooks := r.infos[k].hooks;
      if |hooks| == 1 then
        if hooks[0] != hook then Outcome(r, WrongHookInfo, 0, NULL)
        else Outcome(Forgotten(r, address), RemovedFully, 0, NULL)
      else
        var i := First(hooks, hook);
        if i == |hooks| || i == 0 then Outcome(r, WrongHookInfo, 0, NULL)
        else
          var left := Without(hooks, i);
          Outcome(WithHooks(r, k, left), if |left| == 1 then RemovedTrivial else RemovedStillHooked, 0, left[0])
  }

  function RunList(r: Registry, id: nat): seq<Pointer>
    requires Indexed(r)
  {
    if id in r.byId then r.infos[r.byId[id]].hooks else []
  }

  // -------------------------------------------------------------- consistency

  function IdOf(i: nat): nat { (1 + i) % TWO_32 }

  /** What add and remove keep: every slot index points to an info of its slot, and the
      id index to the first info of each id. */
  ghost predicate Consistent(r: Registry) {
    && Indexed(r)
    && (forall i :: 0 <= i < |r.infos| ==> r.infos[i].id == IdOf(i) && r.infos[i].id in r.byId)
    && (forall a :: a in r.byAddress ==> r.infos[r.byAddress[a]].address == a)
    && (forall k :: k in r.byId ==> k == IdOf(r.byId[k]) && r.byId[k] < TWO_32)
  }

  lemma SameId(i: nat, j: nat)
    requires i < TWO_32 && j < TWO_32 && IdOf(i) == IdOf(j)
    ensures i == j
  {
  }

  /** An id is fresh exactly as long as fewer than 2^32 were allocated; the counter may
      wrap once. */
  lemma FreshId(r: Registry)
    requires Consistent(r)
    ensures NextId(r) !in r.byId <==> |r.infos| < TWO_32
  {
    var id := NextId(r);
    if |r.infos| < TWO_32 {
      if id in r.byId {
        SameId(|r.infos|, r.byId[id]);
      }
    } else {
      var i := |r.infos| % TWO_32;
      Wrapped(|r.infos|);
      assert r.infos[i].id == IdOf(i);
    }
  }

  lemma Wrapped(n: nat)
    ensures IdOf(n % TWO_32) == IdOf(n)
  {
  }

  lemma EnteredIndexed(r: Registry, address: Pointer, hook: Pointer, previous: Pointer)
    requires Indexed(r)
    ensures var s := Entered(r, address, hook, previous);
            Indexed(s) && NextId(s) == (NextId(r) + 1) % TWO_32
  {
  }

  lemma EnteredKeeps(r: Registry, address: Pointer, hook: Pointer, previous: Pointer)
    requires Consistent(r)
    ensures Consistent(Entered(r, address, hook, previous))
  {
    FreshId(r);
    var s := Entered(r, address, hook, previous);
    assert s.infos[..|r.infos|] == r.infos;
  }

  lemma WithHooksKeeps(r: Registry, k: nat, hooks: seq<Pointer>)
    requires Consistent(r) && k < |r.infos| && |hooks| > 0
    ensures Consistent(WithHooks(r, k, hooks))
  {
  }

  lemma AddKeeps(r: Registry, address: Pointer, hook: Pointer, previous: Pointer)
    requires Consistent(r)
    ensures Consistent(Add(r, address, hook, previous).after)
  {
    if address in r.byAddress {
      WithHooksKeeps(r, r.byAddress[address], r.infos[r.byAddress[address]].hooks + [hook]);
    } else {
      EnteredKeeps(r, address, hook, previous);
    }
  }

  lemma RemoveKeeps(r: Registry, address: Pointer, hook: Pointer)
    requires Consistent(r)
    ensures Consistent(Remove(r, address, hook).after)
  {
    if address in r.byAddress {
      var k := r.byAddress[address];
      var i := First(r.infos[k].hooks, hook);
      if 0 < i < |r.infos[k].hooks| {
        WithHooksKeeps(r, k, Without(r.infos[k].hooks, i));
      }
    }
  }

  /** As long as ids are unique, the id of every info leads back to it, and so both
      indexes lead to the same info for every live slot. */
  lemma IdLeadsBack(r: Registry, k: nat)
    requires Consistent(r) && k < |r.infos| <= TWO_32
    ensures r.infos[k].id in r.byId && r.byId[r.infos[k].id] == k
  {
    SameId(k, r.byId[r.infos[k].id]);
  }

  lemma IdsUnique(r: Registry, i: nat, j: nat)
    requires Consistent(r) && |r.infos| <= TWO_32 && i < |r.infos| && j < |r.infos|
    ensures r.infos[i].id == r.infos[j].id <==> i == j
  {
    if r.infos[i].id == r.infos[j].id {
      SameId(i, j);
    }
  }

  // ------------------------------------------------------------- whole runs

  datatype Call =
    | AddCall(address: Pointer, hook: Pointer, previous: Pointer)
    | RemoveCall(address: Pointer, hook: Pointer)

  function Apply(r: Registry, c: Call): Registry
    requires Indexed(r)
  {
    match c
    case AddCall(a, h, p) => Add(r, a, h, p).after
    case RemoveCall(a, h) => Remove(r, a, h).after
  }

  lemma ApplyKeeps(r: Registry, c: Call)
    requires Consistent(r)
    ensures Consistent(Apply(r, c))
  {
    match c
    case AddCall(a, h, p) => AddKeeps(r, a, h, p);
    case RemoveCall(a, h) => RemoveKeeps(r, a, h);
  }

  ghost predicate Later(r: Registry, calls: seq<Call>, s: Registry)
    decreases |calls|
  {
    Consistent(r) && if calls == [] then s == r else Later(Apply(r, calls[0]), calls[1..], s)
  }

  /** For every id in use, any later run list is not empty and starts with the function
      that the first one starts with, even when the slot was unhooked meanwhile: a
      trampoline that is still running always finds its run list. */
  lemma {:induction false} RunListForever(r: Registry, calls: seq<Call>, s: Registry, id: nat)
    requires Later(r, calls, s) && id in r.byId
    ensures Indexed(s) && RunList(s, id) != [] && RunList(s, id)[0] == RunList(r, id)[0]
    decreases |calls|
  {
    if calls != [] {
      var q := Apply(r, calls[0]);
      ApplyKeeps(r, calls[0]);
      OneCall(r, calls[0], id);
      RunListForever(q, calls[1..], s, id);
    }
  }

  lemma OneCall(r: Registry, c: Call, id: nat)
    requires Consistent(r) && id in r.byId
    ensures Indexed(Apply(r, c)) && id in Apply(r, c).byId
    ensures RunList(Apply(r, c), id)[0] == RunList(r, id)[0]
  {
    ApplyKeeps(r, c);
  }

  /** A new hook hands out an id whose run list is the original and the hook. */
  lemma NewRunList(r: Registry, address: Pointer, hook: Pointer, previous: Pointer)
    requires Consistent(r) && Add(r, address, hook, previous).result == NewHook
    ensures var o := Add(r, address, hook, previous);
            Indexed(o.after) &&
            (RunList(o.after, o.id) == [previous, hook] && RunList(r, o.id) == [] <==> |r.infos| < TWO_32)
  {
    FreshId(r);
    AddKeeps(r, address, hook, previous);
    var o := Add(r, address, hook, previous);
    if o.id in r.byId {
      assert RunList(r, o.id) != [];
    }
  }
}
