/** What sigmux guarantees in every reachable state. */
module SigmuxSafety {
  import P = Phaser
  import opened Sigmux
  import opened SigmuxInvariant
  import opened SigmuxSteps
  import opened SigmuxHeld
  import opened SigmuxOneShot
  import opened SigmuxWalk

  /** A dispatch outside the walk, with no snapshot, holds nothing. */
  lemma HoldsNothing(s: State, t: State, id: nat)
    requires List(s) && Held(s) && Slots(s) && SameList(s, t) && Moves(s, t, id) && t.structs == s.structs
    requires !Walking(t.dispatches[id].at) && !HasSnapshot(t, id)
    ensures List(t) && Held(t) && Slots(t)
  {
    ListFrame(s, t);
    HeldMove(s, t, id);
    SlotsMove(s, t, id);
  }

  lemma SignalInv(cap: nat, s: State, id: nat, g: int, n: bool, l: bool, i: bool)
    requires cap < P.DRAINING && Inv(cap, s) && P.Enabled(cap, s.ph, P.Begin(id)) && g in s.orig
    ensures Inv(cap, SignalStep(cap, s, id, NewDispatch(g, n, l, i)))
  {
    var d := NewDispatch(g, n, l, i);
    var t := SignalStep(cap, s, id, d);
    P.BasicStep(cap, s.ph, P.Begin(id));
    LinkSignal(cap, s, id, d);
    HoldsNothing(s, t, id);
    ContentsSignal(cap, s, id, d);
    WalkSignal(cap, s, id, g, n, l, i);
  }

  lemma ReaderInv(cap: nat, s: State, id: nat, r: ReaderAction)
    requires Inv(cap, s) && id in s.dispatches && ReaderEnabled(s, s.dispatches[id], r)
    ensures Inv(cap, With(s, id, ReaderStep(s, s.dispatches[id], r)))
  {
    var t := With(s, id, ReaderStep(s, s.dispatches[id], r));
    LinkReader(s, id, r);
    ListFrame(s, t);
    HeldReader(s, id, r);
    SlotsReader(s, id, r);
    assert WalkAt(s, id);
    ContentsReader(s, id, r);
    WalkReader(s, id, r);
  }

  lemma ExchangeInv(cap: nat, s: State, id: nat)
    requires Inv(cap, s) && IsAt(s, id, TakeOneShot) && s.dispatches[id].snapshot in s.structs && s.dispatches[id].next.Copied?
    ensures Inv(cap, ExchangeStep(s, id))
  {
    var t := ExchangeStep(s, id);
    LinkMove(s, t, id);
    ListFrame(s, t);
    HeldMove(s, t, id);
    SlotsExchange(s, id);
    ContentsExchange(s, id);
    WalkPast(s, t, id);
  }

  lemma ResetFlagInv(cap: nat, s: State, id: nat)
    requires Inv(cap, s) && IsAt(s, id, ClearFlag) && s.dispatches[id].snapshot in s.structs
    ensures Inv(cap, ResetFlagStep(s, id))
  {
    var t := ResetFlagStep(s, id);
    LinkMove(s, t, id);
    ListFrame(s, t);
    HeldMove(s, t, id);
    SlotsResetFlag(s, id);
    ContentsResetFlag(s, id);
    WalkPast(s, t, id);
  }

  lemma ExitInv(cap: nat, s: State, id: nat)
    requires cap < P.DRAINING && Inv(cap, s) && IsAt(s, id, Leave) && P.Enabled(cap, s.ph, P.Decrement(id))
    ensures Inv(cap, ExitStep(cap, s, id))
  {
    var t := ExitStep(cap, s, id);
    P.BasicStep(cap, s.ph, P.Decrement(id));
    LinkExit(cap, s, id);
    HoldsNothing(s, t, id);
    ContentsExit(cap, s, id);
    WalkPast(s, t, id);
  }

  lemma ListInv(cap: nat, s: State, l: ListAction)
    requires Inv(cap, s) && ListEnabled(s, l)
    ensures Inv(cap, ListStep(s, l))
  {
    ListShape(s, l);
    LinkList(s, l);
    ListSteps(s, l);
    HeldList(s, l);
    SlotsList(s, l);
    ContentsList(s, l);
    ListStepAges(s, l);
    WalkWriter(s, ListStep(s, l));
  }

  lemma SlotInv(cap: nat, s: State, c: SlotAction)
    requires Inv(cap, s) && SlotEnabled(s, c)
    ensures Inv(cap, SlotStep(s, c))
  {
    SlotShape(s, c);
    LinkSlots(s, c);
    ListFrame(s, SlotStep(s, c));
    HeldSlots(s, c);
    SlotsSlots(s, c);
    ContentsSlots(s, c);
    SameListAges(s, SlotStep(s, c));
    WalkWriter(s, SlotStep(s, c));
  }

  lemma DrainBeginInv(cap: nat, s: State)
    requires cap < P.DRAINING && Inv(cap, s) && HasStage(s.writer, Changed) && P.Enabled(cap, s.ph, P.DrainBegin)
    ensures Inv(cap, DrainBeginStep(cap, s))
  {
    var t := DrainBeginStep(cap, s);
    P.BasicStep(cap, s.ph, P.DrainBegin);
    LinkWriter(s, t);
    ListFrame(s, t);
    HeldDrainBegin(cap, s);
    SlotsDrainBegin(cap, s);
    ContentsFrame(s, t);
    SameListAges(s, t);
    WalkWriter(s, t);
  }

  lemma UnlockList(s: State)
    requires List(s) && HasStage(s.writer, Drained)
    ensures List(UnlockStep(s)) && ListAges(s, UnlockStep(s))
  {
    ChainedFrame(s, UnlockStep(s));
  }

  lemma UnlockInv(cap: nat, s: State)
    requires Inv(cap, s) && HasStage(s.writer, Drained)
    ensures Inv(cap, UnlockStep(s))
  {
    var t := UnlockStep(s);
    LinkWriter(s, t);
    UnlockList(s);
    HeldUnlock(s);
    SlotsUnlock(s);
    ContentsFrame(s, t);
    WalkWriter(s, t);
  }

  lemma PhaserInv(cap: nat, s: State, pa: P.Action)
    requires cap < P.DRAINING && Inv(cap, s) && PurePhaserStep(s, pa) && P.Enabled(cap, s.ph, pa)
    ensures Inv(cap, PhaserStep(cap, s, pa))
  {
    PhaserShape(cap, s, pa);
    P.BasicStep(cap, s.ph, pa);
    LinkPhaser(cap, s, pa);
    ListFrame(s, PhaserStep(cap, s, pa));
    HeldPhaser(cap, s, pa);
    SlotsPhaser(cap, s, pa);
    ContentsPhaser(cap, s, pa);
    WalkPhaser(cap, s, pa);
  }

  lemma InvStep(cap: nat, s: State, a: Action)
    requires cap < P.DRAINING && Inv(cap, s) && Enabled(cap, s, a)
    ensures Inv(cap, Apply(cap, s, a))
  {
    match a {
      case Signal(id, g, n, l, i) => SignalInv(cap, s, id, g, n, l, i);
      case Reader(id, r) => ReaderInv(cap, s, id, r);
      case CompareExchange(id) => ExchangeInv(cap, s, id);
      case ResetFlag(id) => ResetFlagInv(cap, s, id);
      case Exit(id) => ExitInv(cap, s, id);
      case OnList(l) => ListInv(cap, s, l);
      case OnSlots(c) => SlotInv(cap, s, c);
      case DrainBegin => DrainBeginInv(cap, s);
      case Unlock => UnlockInv(cap, s);
      case Phaser(pa) => PhaserInv(cap, s, pa);
    }
  }

  lemma {:induction false} InvRun(cap: nat, s: State, acts: seq<Action>, t: State)
    requires cap < P.DRAINING && Inv(cap, s) && Run(cap, s, acts, t)
    ensures Inv(cap, t)
    decreases |acts|
  {
    if acts != [] {
      InvStep(cap, s, acts[0]);
      InvRun(cap, Apply(cap, s, acts[0]), acts[1..], t);
    }
  }

  lemma InvReachable(cap: nat, s: State)
    requires cap < P.DRAINING && Reachable(cap, s)
    ensures Inv(cap, s)
  {
    var acts :| Run(cap, Init, acts, s);
    InvInit(cap);
    InvRun(cap, Init, acts, s);
  }

  // ------------------------------------------------------- safe reclamation

  predicate Unregistered(s: State, n: Node) { n in s.retired || n in s.freed }

  /** A node whose sigmux_unregister has let go of the lock, freed or not, is held by
      no dispatch, neither as `it` nor as `reglist`. */
  lemma NoUseAfterFree(cap: nat, s: State, id: nat, n: Node)
    requires cap < P.DRAINING && Reachable(cap, s) && Holds(s, id, n)
    ensures !Unregistered(s, n) && n in s.regs && n in s.next
  {
    InvReachable(cap, s);
    assert Usable(s, id, n);
  }

  /** The next step of a dispatch that is inside its section. */
  function OwnStep(d: Dispatch, id: nat): Action {
    match d.at
    case Head => Reader(id, LoadHead)
    case Visit(_) => Reader(id, Test)
    case Handler(_) => Reader(id, Return(Search))
    case Advance(_) => Reader(id, Follow)
    case LoadOrig => Reader(id, LoadSlot)
    case Copy => Reader(id, CopySlot)
    case TakeOneShot => CompareExchange(id)
    case ClearFlag => ResetFlag(id)
    case _ => Exit(id)
  }

  /** The pointers that a dispatch is about to follow are valid, so it never gets
      stuck and never leaves the structures it may use. */
  lemma DispatchNeverStuck(cap: nat, s: State, id: nat)
    requires cap < P.DRAINING && Reachable(cap, s) && id in s.dispatches && InSection(s.dispatches[id].at)
    ensures Enabled(cap, s, OwnStep(s.dispatches[id], id))
  {
    InvReachable(cap, s);
    assert LinkOf(s, id);
    if Walking(s.dispatches[id].at) && s.dispatches[id].it != HEAD {
      HeldValid(s, id);
    }
    if HasSnapshot(s, id) {
      SnapshotValid(s, id);
    }
  }

  lemma HeldValid(s: State, id: nat)
    requires Held(s) && List(s) && id in s.dispatches && Walking(s.dispatches[id].at) && s.dispatches[id].it != HEAD
    ensures s.dispatches[id].it in s.regs && s.dispatches[id].it in s.next
  {
    assert Holds(s, id, s.dispatches[id].it);
    assert Usable(s, id, s.dispatches[id].it);
  }

  lemma SnapshotValid(s: State, id: nat)
    requires Slots(s) && Copies(s) && HasSnapshot(s, id)
    ensures s.dispatches[id].snapshot in s.structs
    ensures s.dispatches[id].at.TakeOneShot? ==> s.dispatches[id].next.Copied?
  {
    assert SnapshotOf(s, id) && CopyOf(s, id);
  }

  predicate HasCalled(s: State, id: nat, n: Node) {
    id in s.dispatches && (n in s.dispatches[id].normalCalls || n in s.dispatches[id].lowCalls)
  }

  /** Steps that involve the phaser. */
  predicate ViaPhaser(a: Action) { a.Signal? || a.Exit? || a.DrainBegin? || a.Phaser? }

  /** Steps through the phaser change neither the list nor the slots, and a handler
      call is logged by no step but the dispatch's own. */
  lemma PhaserEffect(cap: nat, s: State, a: Action)
    requires Enabled(cap, s, a) && ViaPhaser(a)
    ensures SameList(s, Apply(cap, s, a)) && SameSlots(s, Apply(cap, s, a))
    ensures forall id, n :: HasCalled(Apply(cap, s, a), id, n) ==> HasCalled(s, id, n)
  {
    if a.Phaser? {
      PhaserShape(cap, s, a.a);
    }
  }

  lemma UnregisteredStays(cap: nat, s: State, a: Action, n: Node)
    requires Enabled(cap, s, a) && Unregistered(s, n)
    ensures Unregistered(Apply(cap, s, a), n)
  {
    if ViaPhaser(a) {
      PhaserEffect(cap, s, a);
    } else {
      UnregisteredStaysHere(cap, s, a, n);
    }
  }

  lemma UnregisteredStaysHere(cap: nat, s: State, a: Action, n: Node)
    requires Enabled(cap, s, a) && Unregistered(s, n) && !ViaPhaser(a)
    ensures Unregistered(Apply(cap, s, a), n)
  {
    match a {
      case OnList(l) => ListKeepsUnregistered(s, l, n);
      case OnSlots(c) => SlotShape(s, c);
      case _ =>
    }
  }

  lemma ListKeepsUnregistered(s: State, l: ListAction, n: Node)
    requires ListEnabled(s, l) && Unregistered(s, n)
    ensures Unregistered(ListStep(s, l), n)
  {
  }

  lemma ReaderCalls(s: State, id: nat, r: ReaderAction, n: Node)
    requires Held(s) && id in s.dispatches && ReaderEnabled(s, s.dispatches[id], r)
    requires Unregistered(s, n) && Stamped(s) && WriterNode(s)
    requires HasCalled(With(s, id, ReaderStep(s, s.dispatches[id], r)), id, n)
    ensures HasCalled(s, id, n)
  {
    var d := s.dispatches[id];
    if r.Test? && d.it != HEAD {
      assert Holds(s, id, d.it);
      assert Usable(s, id, d.it);
    }
  }

  lemma NoNewCall(cap: nat, s: State, a: Action, id: nat, n: Node)
    requires Inv(cap, s) && Enabled(cap, s, a) && Unregistered(s, n)
    requires HasCalled(Apply(cap, s, a), id, n)
    ensures HasCalled(s, id, n)
  {
    if ViaPhaser(a) {
      PhaserEffect(cap, s, a);
    } else {
      NoNewCallHere(cap, s, a, id, n);
    }
  }

  lemma NoNewCallHere(cap: nat, s: State, a: Action, id: nat, n: Node)
    requires Held(s) && List(s) && Enabled(cap, s, a) && Unregistered(s, n) && !ViaPhaser(a)
    requires HasCalled(Apply(cap, s, a), id, n)
    ensures HasCalled(s, id, n)
  {
    match a {
      case Reader(jd, r) => if jd == id { ReaderCalls(s, id, r, n); }
      case OnList(l) => ListShape(s, l);
      case OnSlots(c) => SlotShape(s, c);
      case _ =>
    }
  }

  /** A handler whose sigmux_unregister has returned is never invoked again. */
  lemma {:induction false} NeverInvokedAgain(cap: nat, s: State, acts: seq<Action>, t: State, id: nat, n: Node)
    requires cap < P.DRAINING && Reachable(cap, s) && Unregistered(s, n) && Run(cap, s, acts, t)
    requires HasCalled(t, id, n)
    ensures HasCalled(s, id, n)
    decreases |acts|
  {
    if acts != [] {
      InvReachable(cap, s);
      var u := Apply(cap, s, acts[0]);
      UnregisteredStays(cap, s, acts[0], n);
      ReachableStep(cap, s, acts[0]);
      NeverInvokedAgain(cap, u, acts[1..], t, id, n);
      NoNewCall(cap, s, acts[0], id, n);
    }
  }

  lemma {:induction false} RunThen(cap: nat, s: State, acts: seq<Action>, t: State, a: Action)
    requires Run(cap, s, acts, t) && Enabled(cap, t, a)
    ensures Run(cap, s, acts + [a], Apply(cap, t, a))
    decreases |acts|
  {
    if acts == [] {
      assert Run(cap, Apply(cap, s, a), [], Apply(cap, t, a));
    } else {
      var more := acts + [a];
      assert more[0] == acts[0] && more[1..] == acts[1..] + [a];
      RunThen(cap, Apply(cap, s, acts[0]), acts[1..], t, a);
    }
  }

  lemma ReachableStep(cap: nat, s: State, a: Action)
    requires Reachable(cap, s) && Enabled(cap, s, a)
    ensures Reachable(cap, Apply(cap, s, a))
  {
    var acts :| Run(cap, Init, acts, s);
    RunThen(cap, Init, acts, s, a);
  }

  // ------------------------------------------------------- complete dispatch

  /** A dispatch whose walk is over and that no handler stopped has called every
      handler that matched, was registered when it loaded the list and is registered
      still, whether it goes on to the default action or returns to its caller. */
  lemma NeverSkipped(cap: nat, s: State, id: nat, n: Node, low: bool)
    requires cap < P.DRAINING && Reachable(cap, s) && id in s.dispatches
    requires Over(s.dispatches[id].at) && s.dispatches[id].action == Search
    requires if low then s.dispatches[id].lowPass else s.dispatches[id].normalPass
    requires Owed(s, s.dispatches[id], n, low)
    ensures n in Calls(s.dispatches[id], low)
  {
    InvReachable(cap, s);
    assert WalkAt(s, id);
    assert CalledDownTo(s, s.dispatches[id], low, 0);
  }

  /** While a handler runs, every owed handler of its pass that was registered no
      earlier has been called, and when it is low-priority so has the normal pass:
      a handler that stops the dispatch cuts off none before it. */
  lemma NoneBefore(cap: nat, s: State, id: nat, n: Node, low: bool)
    requires cap < P.DRAINING && Reachable(cap, s) && id in s.dispatches && s.dispatches[id].at.Handler?
    requires Owed(s, s.dispatches[id], n, low)
    requires if low == s.dispatches[id].at.low then Stamp(s, s.dispatches[id].it) <= Stamp(s, n)
             else !low && s.dispatches[id].normalPass
    ensures n in Calls(s.dispatches[id], low)
  {
    InvReachable(cap, s);
    assert WalkAt(s, id);
    var d := s.dispatches[id];
    assert CalledDownTo(s, d, d.at.low, Lower(s, d.it));
    if low != d.at.low {
      assert CalledDownTo(s, d, false, 0);
    }
  }

  /** Each pass calls handlers in reverse order of registration, none twice, and
      low-priority handlers only when the normal pass is over. */
  lemma CalledInOrder(cap: nat, s: State, id: nat)
    requires cap < P.DRAINING && Reachable(cap, s) && id in s.dispatches
    ensures NewestFirst(s, s.dispatches[id].normalCalls) && NewestFirst(s, s.dispatches[id].lowCalls)
    ensures Walking(s.dispatches[id].at) && !s.dispatches[id].at.low ==> s.dispatches[id].lowCalls == []
  {
    InvReachable(cap, s);
    assert WalkAt(s, id);
    var d := s.dispatches[id];
    assert NewestFirst(s, Calls(d, false)) && NewestFirst(s, Calls(d, true));
  }

  // ------------------------------------------------- double-buffered sigaction

  /** The structure that sigmux_sigaction is about to overwrite is in no dispatch's hands. */
  lemma WriteIsPrivate(cap: nat, s: State, id: nat)
    requires cap < P.DRAINING && Reachable(cap, s) && Enabled(cap, s, OnSlots(ReplaceWrite)) && HasSnapshot(s, id)
    ensures s.dispatches[id].snapshot != s.alt[s.writer.signum]
  {
    InvReachable(cap, s);
    SpareUnused(s, id);
  }

  predicate SamePair(s: State, t: State, g: int) {
    g in s.orig && g in s.alt && g in t.orig && g in t.alt && {t.orig[g], t.alt[g]} == {s.orig[g], s.alt[g]}
  }

  lemma SlotPair(s: State, c: SlotAction, g: int)
    requires SlotEnabled(s, c) && g in s.orig && g in s.alt
    ensures SamePair(s, SlotStep(s, c), g)
  {
  }

  lemma PairStep(cap: nat, s: State, a: Action, g: int)
    requires Enabled(cap, s, a) && g in s.orig && g in s.alt
    ensures SamePair(s, Apply(cap, s, a), g)
  {
    if ViaPhaser(a) {
      PhaserEffect(cap, s, a);
    } else if a.OnSlots? {
      SlotPair(s, a.c, g);
    } else {
      OtherPair(cap, s, a);
    }
  }

  lemma OtherPair(cap: nat, s: State, a: Action)
    requires Enabled(cap, s, a) && !ViaPhaser(a) && !a.OnSlots?
    ensures Apply(cap, s, a).orig == s.orig && Apply(cap, s, a).alt == s.alt
  {
    if a.OnList? {
      ListShape(s, a.l);
    }
  }

  /** The two structures of a signal are only ever swapped. */
  lemma {:induction false} PairOnlySwapped(cap: nat, s: State, acts: seq<Action>, t: State, g: int)
    requires Run(cap, s, acts, t) && g in s.orig && g in s.alt
    ensures SamePair(s, t, g)
    decreases |acts|
  {
    if acts != [] {
      PairStep(cap, s, acts[0], g);
      PairOnlySwapped(cap, Apply(cap, s, acts[0]), acts[1..], t, g);
    }
  }

  /** An installed SA_RESETHAND handler is taken by at most one dispatch. */
  lemma OneShotAtMostOnce(cap: nat, s: State, id: nat, jd: nat, tag: nat)
    requires cap < P.DRAINING && Reachable(cap, s) && FiresOnce(s, id, tag) && FiresOnce(s, jd, tag)
    ensures id == jd
  {
    InvReachable(cap, s);
  }

  /** The compare-and-exchange hands the handler over exactly when it is still there. */
  lemma OneShotTaken(cap: nat, s: State, id: nat)
    requires cap < P.DRAINING && Reachable(cap, s) && IsAt(s, id, TakeOneShot)
    ensures Enabled(cap, s, CompareExchange(id)) && s.dispatches[id].next.act.tag in s.installed
    ensures Fires(Apply(cap, s, CompareExchange(id)), id) <==> s.structs[s.dispatches[id].snapshot].handler != 0
    ensures Fires(Apply(cap, s, CompareExchange(id)), id) ==>
              Apply(cap, s, CompareExchange(id)).dispatches[id].next.act == s.installed[s.dispatches[id].next.act.tag]
  {
    InvReachable(cap, s);
    BeforeExchange(s, id);
  }

  /** What sigmux_sigaction reports as the old action. */
  function Reported(act: Sigaction): Sigaction {
    if act.handler == 0 then Sigaction(0, false, false, act.tag) else act
  }

  /** The report is the action as installed or, once a one-shot has been taken, the
      default action: never a one-shot that is half reset. */
  lemma ReportIsWhole(cap: nat, s: State, g: int)
    requires cap < P.DRAINING && Reachable(cap, s) && g in s.orig
    ensures s.orig[g] in s.structs && s.structs[s.orig[g]].tag in s.installed
    ensures var act := s.structs[s.orig[g]];
            Reported(act) == (if act.handler == s.installed[act.tag].handler then Reported(s.installed[act.tag])
                              else Sigaction(0, false, false, act.tag))
  {
    InvReachable(cap, s);
    assert FromInstallation(s, s.structs[s.orig[g]]);
  }

  // ------------------------------------------------------ the phaser underneath

  lemma ProjectStep(cap: nat, s: State, a: Action)
    requires Enabled(cap, s, a) && P.Reachable(cap, s.ph)
    ensures P.Reachable(cap, Apply(cap, s, a).ph)
  {
    match a {
      case Signal(id, _, _, _, _) => P.ReachableStep(cap, s.ph, P.Begin(id));
      case Exit(id) => P.ReachableStep(cap, s.ph, P.Decrement(id));
      case DrainBegin => P.ReachableStep(cap, s.ph, P.DrainBegin);
      case Phaser(pa) =>
        PhaserShape(cap, s, pa);
        P.ReachableStep(cap, s.ph, pa);
      case OnList(l) => ListShape(s, l);
      case OnSlots(c) => SlotShape(s, c);
      case _ =>
    }
  }

  lemma {:induction false} ProjectRun(cap: nat, s: State, acts: seq<Action>, t: State)
    requires Run(cap, s, acts, t) && P.Reachable(cap, s.ph)
    ensures P.Reachable(cap, t.ph)
    decreases |acts|
  {
    if acts != [] {
      ProjectStep(cap, s, acts[0]);
      ProjectRun(cap, Apply(cap, s, acts[0]), acts[1..], t);
    }
  }

  /** Everything proved of the phaser holds of the phaser inside sigmux. */
  lemma PhaserReachable(cap: nat, s: State)
    requires Reachable(cap, s)
    ensures P.Reachable(cap, s.ph)
  {
    var acts :| Run(cap, Init, acts, s);
    assert P.Run(cap, P.Init, [], P.Init);
    ProjectRun(cap, Init, acts, s);
  }
}
