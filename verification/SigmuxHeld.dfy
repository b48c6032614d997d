/**
 Pointers held by dispatches, to list nodes and to sigaction structures, stay
 usable: whatever the lock holder takes away is used only by sections that its
 drain waits for.
 */
module SigmuxHeld {
  import P = Phaser
  import opened Sigmux
  import opened SigmuxInvariant
  import opened SigmuxSteps

  // -------------------------------------------------------------- list nodes

  /** A step of one dispatch. */
  predicate Moves(s: State, t: State, id: nat) {
    && id in t.dispatches && t.dispatches == s.dispatches[id := t.dispatches[id]]
    && t.live == s.live && t.writer == s.writer && t.ph.before == s.ph.before
    && t.orig == s.orig && t.alt == s.alt
  }

  lemma HeldMove(s: State, t: State, id: nat)
    requires Held(s) && Moves(s, t, id)
    requires forall n :: Holds(t, id, n) ==> Usable(s, id, n)
    ensures Held(t)
  {
    forall jd, n | Holds(t, jd, n)
      ensures Usable(t, jd, n)
    {
      if jd != id {
        assert Holds(s, jd, n);
      }
    }
  }

  lemma HeldReader(s: State, id: nat, r: ReaderAction)
    requires Held(s) && List(s) && id in s.dispatches && ReaderEnabled(s, s.dispatches[id], r)
    ensures Held(With(s, id, ReaderStep(s, s.dispatches[id], r)))
  {
    var d := s.dispatches[id];
    var t := With(s, id, ReaderStep(s, d, r));
    forall n | Holds(t, id, n)
      ensures Usable(s, id, n)
    {
      if r.LoadHead? {
        assert NodeChained(s, HEAD);
      } else if n == d.it || n == d.reglist {
        assert Holds(s, id, n);
      } else {
        assert r.Follow? && n == s.next[d.it];
        if d.it != HEAD {
          assert Holds(s, id, d.it);
        }
        assert NodeChained(s, d.it);
      }
    }
    HeldMove(s, t, id);
  }

  /** The moment the grace period ends nothing that was inside still walks. */
  lemma BeforeGone(cap: nat, s: State, id: nat)
    requires P.Basic(cap, s.ph) && s.ph.drainer.Idle? && id in s.ph.before && LinkOf(s, id) && id in s.dispatches
    ensures !InSection(s.dispatches[id].at)
  {
    if s.ph.sections[id].Inside? {
      assert P.At(s.ph, id, P.Inside(s.ph.sections[id].p));
    }
  }

  lemma HeldPhaser(cap: nat, s: State, pa: P.Action)
    requires Held(s) && PurePhaserStep(s, pa) && P.Enabled(cap, s.ph, pa)
    requires P.Basic(cap, PhaserStep(cap, s, pa).ph) && Link(s) && Link(PhaserStep(cap, s, pa))
    ensures Held(PhaserStep(cap, s, pa))
  {
    PhaserShape(cap, s, pa);
    var t := PhaserStep(cap, s, pa);
    assert t.ph.before == s.ph.before;
    forall id, n | Holds(t, id, n)
      ensures Usable(t, id, n)
    {
      assert Holds(s, id, n);
      assert LinkOf(t, id);
      if t.writer != s.writer && id in t.ph.before {
        BeforeGone(cap, t, id);
      }
    }
  }

  lemma HeldDrainBegin(cap: nat, s: State)
    requires Held(s) && Link(s) && HasStage(s.writer, Changed) && P.Enabled(cap, s.ph, P.DrainBegin)
    ensures Held(DrainBeginStep(cap, s))
  {
    var t := DrainBeginStep(cap, s);
    forall id, n | Holds(t, id, n)
      ensures Usable(t, id, n)
    {
      assert Holds(s, id, n);
      assert LinkOf(s, id);
    }
  }

  lemma HeldList(s: State, l: ListAction)
    requires Held(s) && ListEnabled(s, l)
    ensures Held(ListStep(s, l))
  {
    var t := ListStep(s, l);
    forall id, n | Holds(t, id, n)
      ensures Usable(t, id, n)
    {
      assert Holds(s, id, n);
    }
  }

  lemma HeldSlots(s: State, c: SlotAction)
    requires Held(s) && SlotEnabled(s, c)
    ensures Held(SlotStep(s, c))
  {
    var t := SlotStep(s, c);
    forall id, n | Holds(t, id, n)
      ensures Usable(t, id, n)
    {
      assert Holds(s, id, n);
    }
  }

  lemma HeldUnlock(s: State)
    requires Held(s) && HasStage(s.writer, Drained)
    ensures Held(UnlockStep(s))
  {
    var t := UnlockStep(s);
    forall id, n | Holds(t, id, n)
      ensures Usable(t, id, n)
    {
      assert Holds(s, id, n);
    }
  }

  // -------------------------------------------------------------- structures

  lemma SlotsMove(s: State, t: State, id: nat)
    requires Slots(s) && Moves(s, t, id) && s.structs.Keys == t.structs.Keys && SnapshotOf(t, id)
    ensures Slots(t)
  {
    forall jd
      ensures SnapshotOf(t, jd)
    {
      assert SnapshotOf(s, jd);
    }
  }

  lemma SlotsReader(s: State, id: nat, r: ReaderAction)
    requires Slots(s) && id in s.dispatches && ReaderEnabled(s, s.dispatches[id], r)
    ensures Slots(With(s, id, ReaderStep(s, s.dispatches[id], r)))
  {
    assert SnapshotOf(s, id);
    SlotsMove(s, With(s, id, ReaderStep(s, s.dispatches[id], r)), id);
  }

  lemma SlotsExchange(s: State, id: nat)
    requires Slots(s) && IsAt(s, id, TakeOneShot) && s.dispatches[id].snapshot in s.structs && s.dispatches[id].next.Copied?
    ensures Slots(ExchangeStep(s, id))
  {
    assert SnapshotOf(s, id);
    SlotsMove(s, ExchangeStep(s, id), id);
  }

  lemma SlotsResetFlag(s: State, id: nat)
    requires Slots(s) && IsAt(s, id, ClearFlag) && s.dispatches[id].snapshot in s.structs
    ensures Slots(ResetFlagStep(s, id))
  {
    SlotsMove(s, ResetFlagStep(s, id), id);
  }

  lemma SlotsPhaser(cap: nat, s: State, pa: P.Action)
    requires Slots(s) && PurePhaserStep(s, pa) && P.Enabled(cap, s.ph, pa)
    requires P.Basic(cap, PhaserStep(cap, s, pa).ph) && Link(s) && Link(PhaserStep(cap, s, pa))
    ensures Slots(PhaserStep(cap, s, pa))
  {
    PhaserShape(cap, s, pa);
    var t := PhaserStep(cap, s, pa);
    assert t.ph.before == s.ph.before;
    forall id
      ensures SnapshotOf(t, id)
    {
      assert SnapshotOf(s, id) && LinkOf(t, id);
      if t.writer != s.writer && id in t.ph.before && HasSnapshot(t, id) {
        BeforeGone(cap, t, id);
      }
    }
  }

  lemma SlotsDrainBegin(cap: nat, s: State)
    requires Slots(s) && Link(s) && HasStage(s.writer, Changed) && P.Enabled(cap, s.ph, P.DrainBegin)
    ensures Slots(DrainBeginStep(cap, s))
  {
    var t := DrainBeginStep(cap, s);
    forall id
      ensures SnapshotOf(t, id)
    {
      assert SnapshotOf(s, id) && LinkOf(s, id);
    }
  }

  lemma SlotsList(s: State, l: ListAction)
    requires Slots(s) && ListEnabled(s, l)
    ensures Slots(ListStep(s, l))
  {
    ListShape(s, l);
    var t := ListStep(s, l);
    forall id
      ensures SnapshotOf(t, id)
    {
      assert SnapshotOf(s, id);
    }
  }

  lemma SlotsUnlock(s: State)
    requires Slots(s) && HasStage(s.writer, Drained)
    ensures Slots(UnlockStep(s))
  {
    var t := UnlockStep(s);
    forall id
      ensures SnapshotOf(t, id)
    {
      assert SnapshotOf(s, id);
    }
  }

  lemma SlotsSlots(s: State, c: SlotAction)
    requires Slots(s) && SlotEnabled(s, c)
    ensures Slots(SlotStep(s, c))
  {
    var t := SlotStep(s, c);
    forall id
      ensures SnapshotOf(t, id)
    {
      assert SnapshotOf(s, id);
    }
    assert SlotsDistinct(t);
  }
}
