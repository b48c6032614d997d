/**
 The contents of the sigaction structures: each is as installed or a one-shot
 whose handler has been taken, and at most one dispatch takes it.
 */
module SigmuxOneShot {
  import P = Phaser
  import opened Sigmux
  import opened SigmuxInvariant
  import opened SigmuxSteps

  ghost predicate Contents(s: State) { Structures(s) && Copies(s) && OneShot(s) }

  /** Nothing that describes the structures changes, dispatch id apart. */
  predicate StructMoves(s: State, t: State, id: nat) {
    && id in t.dispatches && t.dispatches == s.dispatches[id := t.dispatches[id]]
    && t.structs == s.structs && t.installed == s.installed && t.writer == s.writer
  }

  lemma ContentsMove(s: State, t: State, id: nat)
    requires Contents(s) && StructMoves(s, t, id) && CopyOf(t, id)
    requires forall tag :: FiresOnce(t, id, tag) ==> FiresOnce(s, id, tag)
    requires t.dispatches[id].next.Copied? && s.writer.Replacing? && s.writer.stage.Locked? ==>
               t.dispatches[id].next.act.tag != s.writer.act.tag
    ensures Contents(t)
  {
    forall jd
      ensures CopyOf(t, jd)
    {
      assert CopyOf(s, jd);
    }
    forall jd, tag | FiresOnce(t, jd, tag)
      ensures FiresOnce(s, jd, tag)
    {
    }
  }

  lemma ContentsReader(s: State, id: nat, r: ReaderAction)
    requires Contents(s) && Slots(s) && id in s.dispatches && ReaderEnabled(s, s.dispatches[id], r) && WalkAt(s, id)
    ensures Contents(With(s, id, ReaderStep(s, s.dispatches[id], r)))
  {
    var t := With(s, id, ReaderStep(s, s.dispatches[id], r));
    assert CopyOf(s, id) && WalkAt(s, id);
    if r.CopySlot? {
      assert FromInstallation(s, s.structs[s.dispatches[id].snapshot]);
    }
    ContentsMove(s, t, id);
  }

  lemma ContentsSignal(cap: nat, s: State, id: nat, d: Dispatch)
    requires Contents(s) && P.Enabled(cap, s.ph, P.Begin(id)) && d.at.Entering? && d.next.NotCopied?
    ensures Contents(SignalStep(cap, s, id, d))
  {
    ContentsMove(s, SignalStep(cap, s, id, d), id);
  }

  lemma ContentsExit(cap: nat, s: State, id: nat)
    requires Contents(s) && IsAt(s, id, Leave) && P.Enabled(cap, s.ph, P.Decrement(id))
    ensures Contents(ExitStep(cap, s, id))
  {
    assert CopyOf(s, id);
    ContentsMove(s, ExitStep(cap, s, id), id);
  }

  lemma ContentsPhaser(cap: nat, s: State, pa: P.Action)
    requires Contents(s) && PurePhaserStep(s, pa) && P.Enabled(cap, s.ph, pa)
    ensures Contents(PhaserStep(cap, s, pa))
  {
    PhaserShape(cap, s, pa);
    var t := PhaserStep(cap, s, pa);
    forall jd
      ensures CopyOf(t, jd)
    {
      assert CopyOf(s, jd);
    }
    forall jd, tag | FiresOnce(t, jd, tag)
      ensures FiresOnce(s, jd, tag)
    {
    }
    forall jd | jd in t.dispatches
      ensures t.dispatches[jd].next == s.dispatches[jd].next
    {
    }
  }

  /** Steps of the lock holder that write no structure. */
  lemma ContentsFrame(s: State, t: State)
    requires Contents(s) && t.dispatches == s.dispatches && t.structs == s.structs && t.installed == s.installed
    requires t.writer.Replacing? ==> s.writer.Replacing? && t.writer.act == s.writer.act
    requires t.writer.Replacing? && t.writer.stage.Locked? ==> t.writer == s.writer
    ensures Contents(t)
  {
    forall jd
      ensures CopyOf(t, jd)
    {
      assert CopyOf(s, jd);
    }
    forall jd, tag | FiresOnce(t, jd, tag)
      ensures FiresOnce(s, jd, tag)
    {
    }
  }

  lemma ContentsList(s: State, l: ListAction)
    requires Contents(s) && ListEnabled(s, l)
    ensures Contents(ListStep(s, l))
  {
    ListShape(s, l);
    ContentsFrame(s, ListStep(s, l));
  }

  // --------------------------------------------------- a structure is modified

  /** The structure at x loses its handler or its SA_RESETHAND flag. */
  predicate StructChanges(s: State, t: State, x: nat, id: nat) {
    && x in s.structs && x in t.structs && t.structs == s.structs[x := t.structs[x]] && t.structs[x].tag == s.structs[x].tag
    && (s.structs[x].handler == 0 ==> t.structs[x].handler == 0)
    && id in t.dispatches && t.dispatches == s.dispatches[id := t.dispatches[id]]
    && t.installed == s.installed && t.writer == s.writer
  }

  lemma StructuresChange(s: State, t: State, x: nat, id: nat)
    requires Structures(s) && StructChanges(s, t, x, id) && FromInstallation(t, t.structs[x])
    requires s.writer.Replacing? && s.writer.stage.Locked? && t.dispatches[id].next.Copied? ==>
               t.dispatches[id].next.act.tag != s.writer.act.tag
    ensures Structures(t)
  {
    forall y | y in t.structs
      ensures t.structs[y].tag == s.structs[y].tag && FromInstallation(t, t.structs[y])
    {
      assert FromInstallation(s, s.structs[y]);
    }
  }

  lemma CopiesChange(s: State, t: State, x: nat, id: nat)
    requires Copies(s) && StructChanges(s, t, x, id) && CopyOf(t, id)
    ensures Copies(t)
  {
    forall jd
      ensures CopyOf(t, jd)
    {
      assert CopyOf(s, jd);
    }
  }

  /** At the compare-and-exchange the handler is gone or everything is as installed. */
  lemma BeforeExchange(s: State, id: nat)
    requires Contents(s) && IsAt(s, id, TakeOneShot)
    ensures var d := s.dispatches[id];
            && d.next.Copied? && d.snapshot in s.structs && FromInstallation(s, s.structs[d.snapshot])
            && s.structs[d.snapshot].tag == d.next.act.tag && s.installed[d.next.act.tag].resetHand
            && (s.structs[d.snapshot].handler == d.next.act.handler || s.structs[d.snapshot].handler == 0)
            && FromInstallation(s, d.next.act.(handler := s.structs[d.snapshot].handler))
  {
    assert CopyOf(s, id);
    var d := s.dispatches[id];
    assert FromInstallation(s, s.structs[d.snapshot]) && FromInstallation(s, d.next.act);
  }

  lemma ExchangeTakes(s: State, id: nat, jd: nat, tag: nat)
    requires Contents(s) && IsAt(s, id, TakeOneShot) && s.dispatches[id].snapshot in s.structs && s.dispatches[id].next.Copied?
    requires FiresOnce(ExchangeStep(s, id), jd, tag)
    ensures jd == id ==> s.structs[s.dispatches[id].snapshot].handler != 0 && tag == s.structs[s.dispatches[id].snapshot].tag
    ensures jd != id ==> FiresOnce(s, jd, tag)
  {
    BeforeExchange(s, id);
  }

  lemma ExchangeStructures(s: State, id: nat)
    requires Contents(s) && IsAt(s, id, TakeOneShot) && s.dispatches[id].snapshot in s.structs && s.dispatches[id].next.Copied?
    ensures Structures(ExchangeStep(s, id)) && Copies(ExchangeStep(s, id))
  {
    var t := ExchangeStep(s, id);
    var x := s.dispatches[id].snapshot;
    BeforeExchange(s, id);
    assert t.structs == s.structs[x := t.structs[x]];
    StructuresChange(s, t, x, id);
    CopiesChange(s, t, x, id);
  }

  lemma ContentsExchange(s: State, id: nat)
    requires Contents(s) && IsAt(s, id, TakeOneShot) && s.dispatches[id].snapshot in s.structs && s.dispatches[id].next.Copied?
    ensures Contents(ExchangeStep(s, id))
  {
    var t := ExchangeStep(s, id);
    ExchangeStructures(s, id);
    BeforeExchange(s, id);
    forall jd, tag, y | FiresOnce(t, jd, tag) && y in t.structs && t.structs[y].tag == tag
      ensures t.structs[y].handler == 0
    {
      ExchangeTakes(s, id, jd, tag);
    }
    forall jd, kd, tag | FiresOnce(t, jd, tag) && FiresOnce(t, kd, tag)
      ensures jd == kd
    {
      ExchangeTakes(s, id, jd, tag);
      ExchangeTakes(s, id, kd, tag);
    }
  }

  lemma ContentsResetFlag(s: State, id: nat)
    requires Contents(s) && IsAt(s, id, ClearFlag) && s.dispatches[id].snapshot in s.structs
    ensures Contents(ResetFlagStep(s, id))
  {
    var t := ResetFlagStep(s, id);
    var x := s.dispatches[id].snapshot;
    assert CopyOf(s, id);
    assert FromInstallation(s, s.structs[x]);
    StructuresChange(s, t, x, id);
    CopiesChange(s, t, x, id);
    forall jd, tag | FiresOnce(t, jd, tag)
      ensures FiresOnce(s, jd, tag)
    {
    }
  }

  // ---------------------------------------------- a structure is overwritten

  lemma StructuresInit(s: State, c: SlotAction)
    requires Structures(s) && SlotEnabled(s, c) && c.InitSignal?
    ensures Structures(SlotStep(s, c))
  {
    var t := SlotStep(s, c);
    forall y | y in t.structs
      ensures FromInstallation(t, t.structs[y])
      ensures y != c.origAt && y != c.altAt ==> t.structs[y].tag in s.installed
    {
      assert y in s.structs ==> FromInstallation(s, s.structs[y]);
    }
  }

  lemma ContentsInit(s: State, c: SlotAction)
    requires Contents(s) && SlotEnabled(s, c) && c.InitSignal?
    ensures Contents(SlotStep(s, c))
  {
    var t := SlotStep(s, c);
    StructuresInit(s, c);
    ContentsOfCopies(s, t);
    forall jd, tag | FiresOnce(t, jd, tag)
      ensures FiresOnce(s, jd, tag)
    {
      assert CopyOf(s, jd);
    }
  }

  /** Copies survive when installed structures and snapshotted structures do. */
  lemma ContentsOfCopies(s: State, t: State)
    requires Copies(s) && t.dispatches == s.dispatches
    requires forall tag :: tag in s.installed ==> tag in t.installed && t.installed[tag] == s.installed[tag]
    requires forall id :: HasSnapshot(s, id) && s.dispatches[id].snapshot in s.structs ==>
               s.dispatches[id].snapshot in t.structs && t.structs[s.dispatches[id].snapshot] == s.structs[s.dispatches[id].snapshot]
    ensures Copies(t)
  {
    forall jd
      ensures CopyOf(t, jd)
    {
      assert CopyOf(s, jd);
    }
  }

  lemma ContentsLock(s: State, c: SlotAction)
    requires Contents(s) && SlotEnabled(s, c) && c.ReplaceLock?
    ensures Contents(SlotStep(s, c))
  {
    var t := SlotStep(s, c);
    ContentsOfCopies(s, t);
    forall y | y in t.structs
      ensures FromInstallation(t, t.structs[y]) && t.structs[y].tag != c.act.tag
    {
      assert FromInstallation(s, s.structs[y]);
    }
    forall jd | jd in s.dispatches && s.dispatches[jd].next.Copied?
      ensures s.dispatches[jd].next.act.tag in s.installed
    {
      assert CopyOf(s, jd);
    }
    forall jd, tag | FiresOnce(t, jd, tag)
      ensures FiresOnce(s, jd, tag)
    {
    }
  }

  /** sigmux_sigaction never writes a structure that a dispatch has snapshotted. */
  lemma SpareUnused(s: State, id: nat)
    requires Slots(s) && s.writer.Replacing? && (s.writer.stage.Locked? || s.writer.stage.Written?)
    requires HasSnapshot(s, id)
    ensures s.writer.signum in s.alt && s.dispatches[id].snapshot != s.alt[s.writer.signum]
  {
    assert SnapshotOf(s, id);
  }

  lemma ContentsWrite(s: State, c: SlotAction)
    requires Contents(s) && Slots(s) && SlotEnabled(s, c) && c.ReplaceWrite?
    ensures Contents(SlotStep(s, c))
  {
    var t := SlotStep(s, c);
    var x := s.alt[s.writer.signum];
    forall id | HasSnapshot(s, id)
      ensures s.dispatches[id].snapshot != x
    {
      SpareUnused(s, id);
    }
    ContentsOfCopies(s, t);
    forall y | y in t.structs
      ensures FromInstallation(t, t.structs[y])
    {
      assert y in s.structs ==> FromInstallation(s, s.structs[y]);
    }
    forall jd, tag | FiresOnce(t, jd, tag)
      ensures FiresOnce(s, jd, tag) && tag != s.writer.act.tag
    {
      assert FiresOnce(s, jd, tag);
    }
  }

  lemma ContentsSlots(s: State, c: SlotAction)
    requires Contents(s) && Slots(s) && SlotEnabled(s, c)
    ensures Contents(SlotStep(s, c))
  {
    match c {
      case InitSignal(_, _, _, _, _) => ContentsInit(s, c);
      case ReplaceLock(_, _) => ContentsLock(s, c);
      case ReplaceWrite => ContentsWrite(s, c);
      case ReplaceSwap => ContentsFrame(s, SlotStep(s, c));
    }
  }
}
