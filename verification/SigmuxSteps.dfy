/** Every step of the sigmux system preserves its invariant. */
module SigmuxSteps {
  import P = Phaser
  import opened Sigmux
  import opened SigmuxInvariant

  lemma InvInit(cap: nat)
    ensures Inv(cap, Init)
  {
  }

  // --------------------------------------------------------- shapes of steps

  predicate InSection(w: Where) { !w.Entering? && !w.Left? }

  lemma ReaderShape(s: State, d: Dispatch, r: ReaderAction)
    requires ReaderEnabled(s, d, r)
    ensures var e := ReaderStep(s, d, r); InSection(d.at) && InSection(e.at) && e.signum == d.signum
  {
  }

  /** What a step of the phaser alone changes beside the phaser. */
  ghost predicate PhaserChange(s: State, pa: P.Action, t: State) {
    && t == s.(ph := t.ph, writer := t.writer, dispatches := t.dispatches)
    && (t.writer == s.writer || (pa.DrainClear? && t.ph.drainer.Idle? && t.writer == AtStage(s.writer, Drained)))
    && (t.dispatches == s.dispatches ||
        (pa.Increment? && IsAt(s, pa.id, Entering) &&
         t.dispatches == s.dispatches[pa.id := s.dispatches[pa.id].(at := Head)]))
  }

  lemma IncrementShape(s: State, pa: P.Action, ph: P.State)
    requires pa.Increment? && IsAt(s, pa.id, Entering)
    ensures WithPhaser(s, pa, ph).ph == ph && PhaserChange(s, pa, WithPhaser(s, pa, ph))
  {
  }

  lemma Cleared(s: State, pa: P.Action, ph: P.State)
    requires pa.DrainClear? && ph.drainer.Idle?
    ensures WithPhaser(s, pa, ph) == s.(ph := ph, writer := AtStage(s.writer, Drained))
  {
  }

  lemma NotCleared(s: State, pa: P.Action, ph: P.State)
    requires pa.DrainClear? && !ph.drainer.Idle?
    ensures WithPhaser(s, pa, ph) == s.(ph := ph)
  {
  }

  lemma ClearedChange(s: State, pa: P.Action, ph: P.State, w: Writer)
    requires pa.DrainClear? && ph.drainer.Idle? && w == AtStage(s.writer, Drained)
    ensures PhaserChange(s, pa, s.(ph := ph, writer := w))
  {
  }

  lemma ClearShape(s: State, pa: P.Action, ph: P.State)
    requires pa.DrainClear?
    ensures WithPhaser(s, pa, ph).ph == ph && PhaserChange(s, pa, WithPhaser(s, pa, ph))
  {
    if ph.drainer.Idle? {
      Cleared(s, pa, ph);
      ClearedChange(s, pa, ph, AtStage(s.writer, Drained));
    } else {
      NotCleared(s, pa, ph);
    }
  }

  lemma StillShape(s: State, pa: P.Action, ph: P.State)
    requires !pa.Increment? && !pa.DrainClear?
    ensures WithPhaser(s, pa, ph).ph == ph && PhaserChange(s, pa, WithPhaser(s, pa, ph))
  {
  }

  lemma WithPhaserShape(s: State, pa: P.Action, ph: P.State)
    requires pa.Increment? ==> IsAt(s, pa.id, Entering)
    ensures WithPhaser(s, pa, ph).ph == ph && PhaserChange(s, pa, WithPhaser(s, pa, ph))
  {
    if pa.Increment? {
      IncrementShape(s, pa, ph);
    } else if pa.DrainClear? {
      ClearShape(s, pa, ph);
    } else {
      StillShape(s, pa, ph);
    }
  }

  lemma PhaserShape(cap: nat, s: State, pa: P.Action)
    requires PurePhaserStep(s, pa) && P.Enabled(cap, s.ph, pa)
    ensures PhaserStep(cap, s, pa).ph == P.Apply(cap, s.ph, pa) && PhaserChange(s, pa, PhaserStep(cap, s, pa))
  {
    WithPhaserShape(s, pa, P.Apply(cap, s.ph, pa));
  }

  lemma ListShape(s: State, l: ListAction)
    requires ListEnabled(s, l)
    ensures var t := ListStep(s, l);
            && t.ph == s.ph && t.dispatches == s.dispatches && SameSlots(s, t)
            && !t.writer.Replacing? == !s.writer.Replacing? && (s.writer.Replacing? ==> t.writer == s.writer)
            && HasStage(t.writer, InDrain) == HasStage(s.writer, InDrain)
            && (t.writer.Unregistering? ==> t.writer == s.writer || t.writer.stage.Changed?)
  {
  }

  lemma SlotShape(s: State, c: SlotAction)
    requires SlotEnabled(s, c)
    ensures var t := SlotStep(s, c);
            && t.ph == s.ph && t.dispatches == s.dispatches && SameList(s, t)
            && !s.writer.Registering? == !t.writer.Registering? && !s.writer.Unregistering? == !t.writer.Unregistering?
            && (s.writer.Registering? || s.writer.Unregistering? ==> t.writer == s.writer)
            && HasStage(t.writer, InDrain) == HasStage(s.writer, InDrain)
            && s.orig.Keys <= t.orig.Keys
  {
  }

  /** The list and everything that describes it are untouched. */
  predicate SameList(s: State, t: State) {
    && s.next == t.next && s.prev == t.prev && s.regs == t.regs && s.live == t.live
    && s.stamp == t.stamp && s.clock == t.clock && s.retired == t.retired && s.freed == t.freed
  }

  predicate SameSlots(s: State, t: State) {
    s.orig == t.orig && s.alt == t.alt && s.structs == t.structs && s.installed == t.installed
  }

  // ------------------------------------------------------------------- Link

  lemma LinkMove(s: State, t: State, id: nat)
    requires Link(s) && id in s.dispatches && id in t.dispatches
    requires InSection(s.dispatches[id].at) && InSection(t.dispatches[id].at)
    requires t.dispatches == s.dispatches[id := t.dispatches[id]] && t.dispatches[id].signum == s.dispatches[id].signum
    requires t.ph == s.ph && t.writer == s.writer && t.orig == s.orig
    ensures Link(t)
  {
    forall jd
      ensures LinkOf(t, jd)
    {
      assert LinkOf(s, jd);
    }
  }

  lemma LinkPhaser(cap: nat, s: State, pa: P.Action)
    requires Link(s) && PurePhaserStep(s, pa) && P.Enabled(cap, s.ph, pa)
    ensures Link(PhaserStep(cap, s, pa))
  {
    PhaserShape(cap, s, pa);
    var t := PhaserStep(cap, s, pa);
    forall id
      ensures LinkOf(t, id)
    {
      assert LinkOf(s, id);
    }
    assert t.ph.sections.Keys == s.ph.sections.Keys by {
      if pa.Load? || pa.Increment? || pa.FutexWake? {
        assert pa.id in s.ph.sections;
      }
    }
  }

  lemma LinkSignal(cap: nat, s: State, id: nat, d: Dispatch)
    requires Link(s) && P.Enabled(cap, s.ph, P.Begin(id)) && d.at.Entering? && d.signum in s.orig
    ensures Link(SignalStep(cap, s, id, d))
  {
    var t := SignalStep(cap, s, id, d);
    forall jd
      ensures LinkOf(t, jd)
    {
      assert LinkOf(s, jd);
    }
  }

  lemma LinkExit(cap: nat, s: State, id: nat)
    requires Link(s) && IsAt(s, id, Leave) && P.Enabled(cap, s.ph, P.Decrement(id))
    ensures Link(ExitStep(cap, s, id))
  {
    var t := ExitStep(cap, s, id);
    forall jd
      ensures LinkOf(t, jd)
    {
      assert LinkOf(s, jd);
    }
  }

  lemma LinkWriter(s: State, t: State)
    requires Link(s) && t.ph.sections == s.ph.sections && t.dispatches == s.dispatches && s.orig.Keys <= t.orig.Keys
    requires t.ph.drainer.Idle? <==> !HasStage(t.writer, InDrain)
    requires t.writer.Unregistering? ==> !t.writer.stage.Locked? && !t.writer.stage.Written?
    ensures Link(t)
  {
    forall jd
      ensures LinkOf(t, jd)
    {
      assert LinkOf(s, jd);
    }
  }

  lemma LinkReader(s: State, id: nat, r: ReaderAction)
    requires Link(s) && id in s.dispatches && ReaderEnabled(s, s.dispatches[id], r)
    ensures Link(With(s, id, ReaderStep(s, s.dispatches[id], r)))
  {
    ReaderShape(s, s.dispatches[id], r);
    LinkMove(s, With(s, id, ReaderStep(s, s.dispatches[id], r)), id);
  }

  lemma LinkList(s: State, l: ListAction)
    requires Link(s) && ListEnabled(s, l)
    ensures Link(ListStep(s, l))
  {
    ListShape(s, l);
    LinkWriter(s, ListStep(s, l));
  }

  lemma LinkSlots(s: State, c: SlotAction)
    requires Link(s) && SlotEnabled(s, c)
    ensures Link(SlotStep(s, c))
  {
    SlotShape(s, c);
    LinkWriter(s, SlotStep(s, c));
  }

  // ------------------------------------------------------------------- List

  /** The node in the lock holder's hands is the same, or it has none left. */
  predicate SameNode(v: Writer, w: Writer) {
    && (w.Registering? ==> w == v)
    && (w.Unregistering? ==> v.Unregistering? && w.n == v.n)
  }

  lemma ChainedFrame(s: State, t: State)
    requires Chained(s) && s.next == t.next && s.prev == t.prev && s.live == t.live && s.stamp == t.stamp && s.clock == t.clock
    ensures Chained(t)
    ensures forall a, b :: IsNext(s, a, b) ==> IsNext(t, a, b)
  {
    forall a
      ensures NodeChained(t, a)
    {
      assert NodeChained(s, a);
    }
  }

  lemma ListFrame(s: State, t: State)
    requires List(s) && SameList(s, t) && SameNode(s.writer, t.writer)
    ensures List(t)
  {
    ChainedFrame(s, t);
  }

  lemma PublishNext(s: State, a: Node)
    requires NodeChained(s, HEAD) && NodeChained(s, a) && LiveStamped(s)
    requires s.writer.Registering? && WriterNode(s) && s.writer.n !in s.live
    requires a == HEAD || a in s.live + {s.writer.n}
    ensures a in PublishStep(s).next && IsNext(PublishStep(s), a, PublishStep(s).next[a])
  {
    var t := PublishStep(s);
    assert forall m :: m in s.live ==> Stamp(t, m) == Stamp(s, m);
  }

  lemma PublishPrev(s: State, a: Node)
    requires NodeChained(s, HEAD) && NodeChained(s, a) && LiveStamped(s) && Distinct(s)
    requires s.writer.Registering? && WriterNode(s) && s.writer.n !in s.live
    requires a == HEAD || a in s.live + {s.writer.n}
    ensures a in PublishStep(s).prev && IsPrev(PublishStep(s), a, PublishStep(s).prev[a])
  {
    var t := PublishStep(s);
    assert IsNext(s, HEAD, s.next[HEAD]);
    assert forall m :: m in s.live ==> Stamp(t, m) == Stamp(s, m);
    if a == HEAD || a in s.live {
      assert IsPrev(s, a, s.prev[a]);
      assert s.prev[a] == HEAD ==> a == s.next[HEAD];
    }
  }

  lemma PublishChained(s: State)
    requires List(s) && s.writer.Registering?
    ensures Chained(PublishStep(s))
  {
    forall a
      ensures NodeChained(PublishStep(s), a)
    {
      assert NodeChained(s, HEAD) && NodeChained(s, a);
      if a == HEAD || a in s.live + {s.writer.n} {
        PublishNext(s, a);
        PublishPrev(s, a);
      }
    }
  }

  lemma PublishList(s: State)
    requires List(s) && s.writer.Registering?
    ensures List(PublishStep(s))
  {
    PublishChained(s);
  }

  /** The neighbours of a published node point at it, and no other node does. */
  lemma Neighbours(s: State, n: Node, a: Node)
    requires Stamped(s) && Chained(s) && n in s.live && (a == HEAD || a in s.live)
    ensures NodeChained(s, n) && NodeChained(s, a)
    ensures s.next[a] == n <==> a == s.prev[n]
    ensures s.prev[a] == n <==> a == s.next[n]
  {
    assert NodeChained(s, a) && NodeChained(s, n);
    if s.next[a] == n || a == s.prev[n] {
      assert NodeChained(s, s.prev[n]);
      NextIsUnique(s, n, a);
    }
    if s.prev[a] == n || a == s.next[n] {
      assert NodeChained(s, s.next[n]);
      PrevIsUnique(s, n, a);
    }
  }

  lemma NextIsUnique(s: State, n: Node, a: Node)
    requires n in s.live && n != HEAD && (a == HEAD || a in s.live) && Distinct(s) && LiveStamped(s)
    requires NodeChained(s, n) && NodeChained(s, a) && NodeChained(s, s.prev[n])
    ensures s.next[a] == n <==> a == s.prev[n]
  {
    var p := s.prev[n];
    assert IsPrev(s, n, p) && IsNext(s, a, s.next[a]) && IsNext(s, p, s.next[p]);
  }

  lemma PrevIsUnique(s: State, n: Node, a: Node)
    requires n in s.live && n != HEAD && (a == HEAD || a in s.live) && Distinct(s) && LiveStamped(s)
    requires NodeChained(s, n) && NodeChained(s, a) && NodeChained(s, s.next[n])
    ensures s.prev[a] == n <==> a == s.next[n]
  {
    var q := s.next[n];
    assert IsNext(s, n, q) && IsPrev(s, a, s.prev[a]) && IsPrev(s, q, s.prev[q]);
  }

  lemma UnlinkNode(s: State, n: Node, a: Node)
    requires n in s.live && n != HEAD && a != n && (a == HEAD || a in s.live)
    requires NodeChained(s, n) && NodeChained(s, a)
    requires s.next[a] == n <==> a == s.prev[n]
    requires s.prev[a] == n <==> a == s.next[n]
    requires forall m :: m in s.live && Stamp(s, m) == Stamp(s, n) ==> m == n
    ensures NodeChained(UnlinkStep(s, n), a)
  {
    var t := UnlinkStep(s, n);
    assert forall m :: Stamp(t, m) == Stamp(s, m);
    assert IsNext(s, a, s.next[a]) && IsNext(s, n, s.next[n]);
    assert IsNext(t, a, t.next[a]);
    assert IsPrev(s, a, s.prev[a]) && IsPrev(s, n, s.prev[n]);
    assert IsPrev(t, a, t.prev[a]);
  }

  lemma UnlinkChained(s: State, n: Node)
    requires Stamped(s) && Chained(s) && n in s.live
    ensures NodeChained(s, n)
    ensures Chained(UnlinkStep(s, n))
  {
    Neighbours(s, n, n);
    forall a
      ensures NodeChained(UnlinkStep(s, n), a)
    {
      if a != n && (a == HEAD || a in s.live) {
        Neighbours(s, n, a);
        UnlinkNode(s, n, a);
      }
    }
  }

  lemma UnlinkList(s: State, n: Node)
    requires List(s) && s.writer.NoOne? && n in s.live
    ensures NodeChained(s, n)
    ensures List(UnlinkStep(s, n))
  {
    UnlinkChained(s, n);
    Neighbours(s, n, n);
    assert IsNext(UnlinkStep(s, n), n, s.next[n]);
  }

  lemma ListSteps(s: State, l: ListAction)
    requires List(s) && ListEnabled(s, l)
    ensures List(ListStep(s, l))
  {
    match l {
      case RegisterPublish => PublishList(s);
      case Unlink(n) => UnlinkList(s, n);
      case Allocate(n, _) => ChainedFrame(s, ListStep(s, l));
      case RegisterLock(n) => RegisterLockList(s, n);
      case Free(n) => ChainedFrame(s, ListStep(s, l));
    }
  }

  lemma RegisterLockNode(s: State, n: Node, a: Node)
    requires NodeChained(s, a) && ListEnabled(s, RegisterLock(n)) && n != HEAD && n !in s.live
    ensures NodeChained(ListStep(s, RegisterLock(n)), a)
  {
    var t := ListStep(s, RegisterLock(n));
    if a == HEAD || a in s.live {
      assert IsNext(t, a, t.next[a]) && IsPrev(t, a, t.prev[a]);
    }
  }

  lemma RegisterLockList(s: State, n: Node)
    requires List(s) && ListEnabled(s, RegisterLock(n))
    ensures List(ListStep(s, RegisterLock(n)))
  {
    forall a
      ensures NodeChained(ListStep(s, RegisterLock(n)), a)
    {
      assert NodeChained(s, a);
      RegisterLockNode(s, n, a);
    }
  }
}
