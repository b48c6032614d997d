/**
 sig_safe_op as a client of the phaser.  The faulting thread leaves its dispatch
 through sigmux_longjmp, which exits the dispatch's section first, and then
 unregisters, which drains the phaser.  Dispatches of the same thread that the
 jump cuts off never reach their own phaser_exit.
 */
module SigSafe {
  import opened Phaser
  import opened PhaserWakeup

  // ------------------------------------------- drains and sections that never end

  /** No section of `stuck` ends during acts. */
  ghost predicate Spares(stuck: set<nat>, acts: seq<Action>) {
    forall k :: 0 <= k < |acts| && acts[k].Decrement? ==> acts[k].id !in stuck
  }

  /** The drain under way in s can finish although the sections of `stuck` never end. */
  ghost predicate CanFinish(cap: nat, s: State, stuck: set<nat>) {
    exists acts, t :: Run(cap, s, acts, t) && Spares(stuck, acts) && t.drainer.Idle?
  }

  lemma {:induction false} StuckStaysInside(cap: nat, s: State, acts: seq<Action>, t: State, stuck: set<nat>, id: nat)
    requires Run(cap, s, acts, t) && Spares(stuck, acts) && id in stuck && IsInside(s, id)
    ensures IsInside(t, id)
    decreases |acts|
  {
    if acts != [] {
      assert acts[0].Decrement? ==> acts[0].id !in stuck;
      forall k | 0 <= k < |acts[1..]| && acts[1..][k].Decrement?
        ensures acts[1..][k].id !in stuck
      {
        assert acts[1..][k] == acts[k + 1];
      }
      StuckStaysInside(cap, Apply(cap, s, acts[0]), acts[1..], t, stuck, id);
    }
  }

  /** The step that a drain takes next, ending a section only if it waits for it. */
  lemma NextStep(cap: nat, s: State, stuck: set<nat>) returns (a: Action)
    requires cap < FUTEX_RANGE && Reachable(cap, s) && !s.drainer.Idle?
    requires forall id :: id in stuck ==> !IsInside(s, id)
    ensures Enabled(cap, s, a) && Advances(s, a)
    ensures a.Decrement? ==> a.id !in stuck
    ensures forall id :: id in stuck ==> !IsInside(Apply(cap, s, a), id)
  {
    BasicReachable(cap, s);
    LostWakeupBound(cap);
    assert WakeOwed(s);
    match s.drainer {
      case Or(_) => a := DrainOr;
      case Loop(_, _) => a := DrainTest;
      case Wait(_, _) => a := DrainWait;
      case Reload(_) => a := DrainReload;
      case Clear(_) => a := DrainClear;
      case Asleep(i) =>
        DrainedCounter(cap, s);
        if s.counter[i] == COUNT_DRAINED {
          var id :| At(s, id, Wake(i));
          a := FutexWake(id);
        } else {
          var id :| id in Holders(s, i);
          assert IsInside(s, id);
          a := Decrement(id);
        }
    }
  }

  lemma {:induction false} Finishes(cap: nat, s: State, stuck: set<nat>)
    requires cap < FUTEX_RANGE && Reachable(cap, s)
    requires forall id :: id in stuck ==> !IsInside(s, id)
    ensures CanFinish(cap, s, stuck)
    decreases StepsLeft(s)
  {
    if s.drainer.Idle? {
      assert Run(cap, s, [], s) && Spares(stuck, []);
    } else {
      var a := NextStep(cap, s, stuck);
      var u := Apply(cap, s, a);
      BasicReachable(cap, s);
      Progress(cap, s, a);
      ReachableStep(cap, s, a);
      Finishes(cap, u, stuck);
      var acts, t :| Run(cap, u, acts, t) && Spares(stuck, acts) && t.drainer.Idle?;
      Prepend(cap, s, a, acts, t, stuck);
    }
  }

  lemma Prepend(cap: nat, s: State, a: Action, acts: seq<Action>, t: State, stuck: set<nat>)
    requires Enabled(cap, s, a) && Run(cap, Apply(cap, s, a), acts, t) && Spares(stuck, acts)
    requires a.Decrement? ==> a.id !in stuck
    ensures Run(cap, s, [a] + acts, t) && Spares(stuck, [a] + acts)
  {
    assert ([a] + acts)[1..] == acts;
  }

  /** phaser_drain can return without waiting for the sections of `stuck` exactly
      when none of them is inside as it begins. */
  lemma DrainWithout(cap: nat, s: State, stuck: set<nat>)
    requires cap < FUTEX_RANGE && Reachable(cap, s) && s.drainer.Idle?
    ensures CanFinish(cap, Apply(cap, s, DrainBegin), stuck) <==> forall id :: id in stuck ==> !IsInside(s, id)
  {
    var u := Apply(cap, s, DrainBegin);
    ReachableStep(cap, s, DrainBegin);
    if CanFinish(cap, u, stuck) {
      var acts, t :| Run(cap, u, acts, t) && Spares(stuck, acts) && t.drainer.Idle?;
      forall id | id in stuck
        ensures !IsInside(s, id)
      {
        if IsInside(s, id) {
          StuckStaysInside(cap, u, acts, t, stuck, id);
          assert ([DrainBegin] + acts)[1..] == acts;
          GracePeriod(cap, s, [DrainBegin] + acts, t);
        }
      }
    }
    if forall id :: id in stuck ==> !IsInside(s, id) {
      Finishes(cap, u, stuck);
    }
  }

  // ------------------------------------------------------------- the client

  const SIGILL: int := 4
  const SIGBUS: int := 7
  const SIGSEGV: int := 11

  /** struct fault_handler_data, without the jump buffer. */
  datatype FaultHandlerData = FaultHandlerData(tid: int, active: bool, checkSigill: bool)

  /** Does fault_handler leave by sigmux_longjmp? */
  predicate Jumps(data: FaultHandlerData, tid: int, signo: int) {
    data.tid == tid && data.active && (if data.checkSigill then signo == SIGILL else signo == SIGSEGV || signo == SIGBUS)
  }

  /** The thread that runs sig_safe_op: `stack` are its dispatches that are still
      running, the innermost last; after the jump `cutOff` are those it abandoned. */
  datatype Client = Client(ph: State, data: FaultHandlerData, stack: seq<nat>, jumped: bool, cutOff: set<nat>)

  datatype Event =
    | Interrupted(id: nat)              // a dispatch of this thread has entered its section
    | Returned                          // the innermost dispatch ends with phaser_exit
    | FaultHandled(signo: int)          // the innermost dispatch runs fault_handler
    | Elsewhere(a: Action)              // any phaser step that ends no dispatch of this thread

  function Members(q: seq<nat>): set<nat> { set id | id in q }

  ghost predicate Possible(cap: nat, c: Client, e: Event) {
    match e
    case Interrupted(id) => !c.jumped && IsInside(c.ph, id) && id !in c.stack && id !in c.cutOff
    case Returned => c.stack != [] && Enabled(cap, c.ph, Decrement(c.stack[|c.stack| - 1]))
    case FaultHandled(signo) =>
      && !c.jumped && c.stack != [] && Jumps(c.data, c.data.tid, signo)
      && Enabled(cap, c.ph, Decrement(c.stack[|c.stack| - 1]))
    case Elsewhere(a) => Enabled(cap, c.ph, a) && (a.Decrement? ==> a.id !in c.stack && a.id !in c.cutOff)
  }

  ghost function After(cap: nat, c: Client, e: Event): Client
    requires Possible(cap, c, e)
  {
    var n := |c.stack|;
    match e
    case Interrupted(id) => c.(stack := c.stack + [id])
    case Returned => c.(ph := Apply(cap, c.ph, Decrement(c.stack[n - 1])), stack := c.stack[..n - 1])
    case FaultHandled(_) =>
      c.(ph := Apply(cap, c.ph, Decrement(c.stack[n - 1])), stack := [], jumped := true,
         cutOff := Members(c.stack[..n - 1]))
    case Elsewhere(a) => c.(ph := Apply(cap, c.ph, a))
  }

  ghost predicate ClientInv(cap: nat, c: Client) {
    && Reachable(cap, c.ph)
    && (forall k :: 0 <= k < |c.stack| ==> IsInside(c.ph, c.stack[k]))
    && (forall i, j :: 0 <= i < j < |c.stack| ==> c.stack[i] != c.stack[j])
    && (forall id :: id in c.cutOff ==> IsInside(c.ph, id) && id !in c.stack)
  }

  /** The dispatches on the thread's stack stay inside their sections, and those that
      a jump cut off stay inside for ever. */
  lemma ClientStep(cap: nat, c: Client, e: Event)
    requires ClientInv(cap, c) && Possible(cap, c, e)
    ensures ClientInv(cap, After(cap, c, e))
    ensures c.cutOff <= After(cap, c, e).cutOff || e.FaultHandled?
  {
    match e {
      case Interrupted(id) =>
      case Elsewhere(a) =>
        ReachableStep(cap, c.ph, a);
        OthersStay(cap, c.ph, a);
      case _ =>
        var last := Decrement(c.stack[|c.stack| - 1]);
        ReachableStep(cap, c.ph, last);
        OthersStay(cap, c.ph, last);
    }
  }

  lemma OthersStay(cap: nat, s: State, a: Action)
    requires Enabled(cap, s, a)
    ensures forall id :: IsInside(s, id) && (a.Decrement? ==> a.id != id) ==> IsInside(Apply(cap, s, a), id)
  {
  }

  /** The thread before its first dispatch, nothing having entered the phaser. */
  ghost function Start(data: FaultHandlerData): Client { Client(Init, data, [], false, {}) }

  ghost predicate ClientRun(cap: nat, c: Client, events: seq<Event>, d: Client)
    decreases |events|
  {
    if events == [] then c == d
    else Possible(cap, c, events[0]) && ClientRun(cap, After(cap, c, events[0]), events[1..], d)
  }

  ghost predicate ClientReachable(cap: nat, c: Client) {
    exists data, events :: ClientRun(cap, Start(data), events, c)
  }

  lemma {:induction false} ClientRunKeeps(cap: nat, c: Client, events: seq<Event>, d: Client)
    requires ClientInv(cap, c) && ClientRun(cap, c, events, d)
    ensures ClientInv(cap, d)
    decreases |events|
  {
    if events != [] {
      ClientStep(cap, c, events[0]);
      ClientRunKeeps(cap, After(cap, c, events[0]), events[1..], d);
    }
  }

  /** In every run the dispatches on the thread's stack are inside their sections,
      and so are those that a jump has cut off. */
  lemma ClientSafe(cap: nat, c: Client)
    requires ClientReachable(cap, c)
    ensures ClientInv(cap, c)
  {
    var data, events :| ClientRun(cap, Start(data), events, c);
    assert Run(cap, Init, [], Init);
    ClientRunKeeps(cap, Start(data), events, c);
  }

  /** After the jump sigmux_unregister can return exactly when the fault hit the
      operation itself, not another dispatch running on the same thread: the jump
      leaves the faulting dispatch's own section but none that it cuts off. */
  lemma UnregisterAfterFault(cap: nat, c: Client, signo: int)
    requires cap < FUTEX_RANGE && ClientReachable(cap, c) && c.ph.drainer.Idle?
    requires Possible(cap, c, FaultHandled(signo))
    ensures var d := After(cap, c, FaultHandled(signo));
            CanFinish(cap, Apply(cap, d.ph, DrainBegin), d.cutOff) <==> |c.stack| == 1
  {
    ClientSafe(cap, c);
    ClientStep(cap, c, FaultHandled(signo));
    var d := After(cap, c, FaultHandled(signo));
    DrainWithout(cap, d.ph, d.cutOff);
    if |c.stack| > 1 {
      assert c.stack[..|c.stack| - 1][0] in d.cutOff;
    }
  }

  // ------------------------------------------------------- a stuck unregistration

  /** A dispatch of this thread interrupted by a second one, both inside. */
  ghost function Nested(data: FaultHandlerData): Client { Client(Crowd(2), data, [0, 1], false, {}) }

  lemma {:induction false} Elsewheres(cap: nat, s: State, acts: seq<Action>, t: State, data: FaultHandlerData,
                                      events: seq<Event>, d: Client)
    requires Run(cap, s, acts, t) && ClientRun(cap, Client(t, data, [], false, {}), events, d)
    ensures exists all :: ClientRun(cap, Client(s, data, [], false, {}), all, d)
    decreases |acts|
  {
    if acts != [] {
      var c, e := Client(s, data, [], false, {}), Elsewhere(acts[0]);
      Elsewheres(cap, Apply(cap, s, acts[0]), acts[1..], t, data, events, d);
      var rest :| ClientRun(cap, After(cap, c, e), rest, d);
      var all := [e] + rest;
      assert all[0] == e && all[1..] == rest;
      assert ClientRun(cap, c, all, d);
    }
  }

  lemma NestedReachable(cap: nat, data: FaultHandlerData)
    requires 2 <= cap < FUTEX_RANGE
    ensures ClientReachable(cap, Nested(data))
  {
    CrowdReachable(cap, 2);
    var s := Crowd(2);
    var acts :| Run(cap, Init, acts, s);
    var c0, c1 := Client(s, data, [], false, {}), Client(s, data, [0], false, {});
    var last, events := [Interrupted(1)], [Interrupted(0), Interrupted(1)];
    assert IsInside(s, 0) && IsInside(s, 1);
    assert ClientRun(cap, Nested(data), [], Nested(data));
    assert After(cap, c1, Interrupted(1)) == Nested(data);
    assert last[1..] == [];
    assert ClientRun(cap, c1, last, Nested(data));
    assert events[1..] == last;
    assert ClientRun(cap, c0, events, Nested(data));
    Elsewheres(cap, Init, acts, s, data, events, Nested(data));
    assert c0.(ph := Init) == Start(data);
  }

  /** The failing half happens: SIGSEGV in the second of two nested dispatches is
      handled by the jump, and the unregistration that follows can never return. */
  lemma UnregisterStuck(cap: nat, data: FaultHandlerData)
    requires 2 <= cap < FUTEX_RANGE && data.active && !data.checkSigill
    ensures var c := Nested(data);
            && ClientReachable(cap, c) && Possible(cap, c, FaultHandled(SIGSEGV))
            && var d := After(cap, c, FaultHandled(SIGSEGV));
               !CanFinish(cap, Apply(cap, d.ph, DrainBegin), d.cutOff)
  {
    NestedReachable(cap, data);
    assert IsInside(Crowd(2), 1);
    UnregisterAfterFault(cap, Nested(data), SIGSEGV);
  }
}
