/**
 The invariant that holds in every reachable state of the sigmux system, and its
 preservation by every step.
 */
module SigmuxInvariant {
  import P = Phaser
  import opened Sigmux

  // ------------------------------------------------- dispatches and the phaser

  predicate LinkedAt(w: Where, section: P.Section) {
    match w
    case Entering => section.Test? || section.Add?
    case Left => section.Wake? || section.Gone?
    case _ => section.Inside?
  }

  predicate LinkOf(s: State, id: nat) {
    id in s.dispatches ==>
      && id in s.ph.sections && LinkedAt(s.dispatches[id].at, s.ph.sections[id])
      && s.dispatches[id].signum in s.orig
  }

  /** A dispatch is in its section exactly as the phaser sees it, and the phaser
      drains exactly while the lock holder is in phaser_drain. */
  ghost predicate Link(s: State) {
    && s.ph.sections.Keys == s.dispatches.Keys
    && (forall id :: LinkOf(s, id))
    && (s.ph.drainer.Idle? <==> !HasStage(s.writer, InDrain))
    && (s.writer.Unregistering? ==> !s.writer.stage.Locked? && !s.writer.stage.Written?)
  }

  // ---------------------------------------------------------------- the list

  function Stamp(s: State, n: Node): int { if n in s.stamp then s.stamp[n] else -1 }

  /** The sentinel is newer than every node when it starts the list ... */
  function Upper(s: State, n: Node): int { if n == HEAD then s.clock else Stamp(s, n) }

  /** ... and older than every node when it ends the list. */
  function Lower(s: State, n: Node): int { if n == HEAD then -1 else Stamp(s, n) }

  /** b is the newest published node older than a. */
  ghost predicate IsNext(s: State, a: Node, b: Node) {
    && (b != HEAD ==> b in s.live && Stamp(s, b) < Upper(s, a))
    && (forall n :: n in s.live && Stamp(s, n) < Upper(s, a) ==> Stamp(s, n) <= Lower(s, b))
  }

  /** a is the oldest published node newer than b. */
  ghost predicate IsPrev(s: State, b: Node, a: Node) {
    && (a != HEAD ==> a in s.live && Lower(s, b) < Stamp(s, a))
    && (forall n :: n in s.live && Lower(s, b) < Stamp(s, n) ==> Upper(s, a) <= Stamp(s, n))
  }

  ghost predicate Distinct(s: State) {
    forall m, n :: m in s.stamp && n in s.stamp && s.stamp[m] == s.stamp[n] ==> m == n
  }

  ghost predicate LiveStamped(s: State) {
    forall n :: n in s.live ==> n != HEAD && n in s.stamp && s.stamp[n] < s.clock
  }

  ghost predicate Stamped(s: State) {
    && HEAD !in s.stamp && HEAD !in s.regs
    && s.live <= s.stamp.Keys && s.retired <= s.stamp.Keys && s.freed <= s.stamp.Keys
    && (forall n :: n in s.stamp ==> s.stamp[n] < s.clock && n in s.regs && n in s.next && n in s.prev)
    && Distinct(s)
    && s.live !! s.retired && s.live !! s.freed && s.retired !! s.freed
    && HEAD in s.next && HEAD in s.prev
  }

  ghost predicate NodeChained(s: State, a: Node) {
    a == HEAD || a in s.live ==>
      a in s.next && a in s.prev && IsNext(s, a, s.next[a]) && IsPrev(s, a, s.prev[a])
  }

  ghost predicate Chained(s: State) { forall a :: NodeChained(s, a) }

  ghost predicate WriterNode(s: State) {
    match s.writer
    case Registering(n) =>
      && n != HEAD && n in s.regs && n !in s.stamp && n in s.next && n in s.prev && HEAD in s.next
      && s.next[n] == s.next[HEAD] && s.prev[n] == HEAD
    case Unregistering(n, _) =>
      n in s.stamp && n !in s.live && n !in s.retired && n !in s.freed && n in s.next && IsNext(s, n, s.next[n])
    case _ => true
  }

  ghost predicate List(s: State) { Stamped(s) && Chained(s) && WriterNode(s) }

  // ------------------------------------------------------------ held pointers

  predicate Walking(w: Where) { w.Visit? || w.Handler? || w.Advance? }

  predicate Holds(s: State, id: nat, n: Node) {
    && id in s.dispatches && n != HEAD
    && Walking(s.dispatches[id].at) && (n == s.dispatches[id].it || n == s.dispatches[id].reglist)
  }

  /** What the lock holder has taken away may still be used by the sections that
      its drain waits for. */
  predicate StillUsable(s: State, id: nat) {
    HasStage(s.writer, Changed) || (HasStage(s.writer, InDrain) && id in s.ph.before)
  }

  /** Every held pointer is in the live list or is the single node being drained. */
  ghost predicate Held(s: State) { forall id, n :: Holds(s, id, n) ==> Usable(s, id, n) }

  predicate Usable(s: State, id: nat, n: Node) {
    n in s.live || (s.writer.Unregistering? && s.writer.n == n && StillUsable(s, id))
  }

  // ---------------------------------------------------------------- the slots

  ghost predicate SlotsDistinct(s: State) {
    && s.orig.Keys == s.alt.Keys
    && (forall g :: g in s.orig ==> s.orig[g] in s.structs && s.alt[g] in s.structs)
    && (forall g, h :: g in s.orig && h in s.alt ==> s.orig[g] != s.alt[h])
    && (forall g, h :: g in s.orig && h in s.orig && s.orig[g] == s.orig[h] ==> g == h)
    && (forall g, h :: g in s.alt && h in s.alt && s.alt[g] == s.alt[h] ==> g == h)
    && (s.writer.Replacing? ==> s.writer.signum in s.orig)
  }

  predicate HasSnapshot(s: State, id: nat) {
    id in s.dispatches && (s.dispatches[id].at.Copy? || s.dispatches[id].at.TakeOneShot? || s.dispatches[id].at.ClearFlag?)
  }

  /** Every snapshot is the current structure, or the one just swapped out. */
  ghost predicate SnapshotOf(s: State, id: nat) {
    HasSnapshot(s, id) ==>
      var d := s.dispatches[id];
      && d.signum in s.orig && d.signum in s.alt
      && (d.snapshot == s.orig[d.signum] ||
          (d.snapshot == s.alt[d.signum] && s.writer.Replacing? && s.writer.signum == d.signum && StillUsable(s, id)))
  }

  ghost predicate Snapshots(s: State) { forall id :: SnapshotOf(s, id) }

  ghost predicate Slots(s: State) { SlotsDistinct(s) && Snapshots(s) }

  // ------------------------------------------------------------------ one-shot

  /** A structure is as installed, or a one-shot whose handler has been taken. */
  predicate FromInstallation(s: State, act: Sigaction) {
    && act.tag in s.installed
    && var inst := s.installed[act.tag];
       act == inst || (inst.resetHand && act.handler == 0 && act.sigInfo == inst.sigInfo)
  }

  predicate Fires(s: State, id: nat) {
    && id in s.dispatches && s.dispatches[id].next.Copied? && s.dispatches[id].next.act.handler != 0
    && (s.dispatches[id].at.ClearFlag? || s.dispatches[id].at.Leave? || s.dispatches[id].at.Left?)
  }

  predicate FiresOnce(s: State, id: nat, tag: nat) {
    && Fires(s, id) && s.dispatches[id].next.act.tag == tag
    && tag in s.installed && s.installed[tag].resetHand
  }

  ghost predicate Structures(s: State) {
    && (forall x :: x in s.structs ==> FromInstallation(s, s.structs[x]))
    && (forall x, y :: x in s.structs && y in s.structs && s.structs[x].tag == s.structs[y].tag ==> x == y)
    && (forall t :: t in s.installed ==> s.installed[t].tag == t)
    && (s.writer.Replacing? ==> s.writer.act.tag in s.installed && s.installed[s.writer.act.tag] == s.writer.act)
    && (s.writer.Replacing? && s.writer.stage.Locked? ==>
          && (forall x :: x in s.structs ==> s.structs[x].tag != s.writer.act.tag)
          && (forall id :: id in s.dispatches && s.dispatches[id].next.Copied? ==>
                s.dispatches[id].next.act.tag != s.writer.act.tag))
  }

  ghost predicate Copies(s: State) { forall id :: CopyOf(s, id) }

  ghost predicate CopyOf(s: State, id: nat) {
    id in s.dispatches ==>
      var d := s.dispatches[id];
      && (d.next.Copied? ==> FromInstallation(s, d.next.act))
      && (d.at.TakeOneShot? ==>
            && d.next.Copied? && d.next.act.resetHand && d.snapshot in s.structs
            && s.structs[d.snapshot].tag == d.next.act.tag
            && (d.next.act.handler == 0 ==> s.structs[d.snapshot].handler == 0))
      && (d.at.ClearFlag? ==>
            && d.next.Copied? && d.snapshot in s.structs
            && s.structs[d.snapshot].tag == d.next.act.tag && s.structs[d.snapshot].handler == 0
            && s.installed[d.next.act.tag].resetHand)
  }

  ghost predicate OneShot(s: State) {
    && (forall id, tag, x :: FiresOnce(s, id, tag) && x in s.structs && s.structs[x].tag == tag ==>
          s.structs[x].handler == 0)
    && (forall id, jd, tag :: FiresOnce(s, id, tag) && FiresOnce(s, jd, tag) ==> id == jd)
  }

  // ------------------------------------------------------------------ the walk

  function Calls(d: Dispatch, low: bool): seq<Node> { if low then d.lowCalls else d.normalCalls }

  ghost predicate NewestFirst(s: State, q: seq<Node>) {
    forall i, j :: 0 <= i < j < |q| ==> Stamp(s, q[j]) < Stamp(s, q[i])
  }

  /** A handler the dispatch owes a call in the given pass: registered when it loaded
      the list, registered still, and matching. */
  predicate Owed(s: State, d: Dispatch, n: Node, low: bool) {
    n in d.atLoad && n in s.live && Matches(s, n, d.signum, low)
  }

  /** All owed handlers not older than the walk's position have been called. */
  ghost predicate CalledDownTo(s: State, d: Dispatch, low: bool, bound: int) {
    forall n :: Owed(s, d, n, low) && bound <= Stamp(s, n) ==> n in Calls(d, low)
  }

  ghost predicate Logs(s: State, d: Dispatch) {
    && (forall n :: n in d.atLoad ==> n in s.stamp)
    && (forall low: bool :: NewestFirst(s, Calls(d, low)) && forall n :: n in Calls(d, low) ==> n in s.stamp)
  }

  /** Where a walk stands: what it has called and what it still has to meet. */
  ghost predicate Position(s: State, d: Dispatch) {
    Walking(d.at) ==>
      && (d.it == HEAD || d.it in s.stamp) && (d.reglist == HEAD || d.reglist in s.stamp)
      && (forall n :: n in d.atLoad ==> Stamp(s, n) <= Lower(s, d.reglist))
      && (forall n :: n in Calls(d, d.at.low) ==>
            if d.at.Visit? then Lower(s, d.it) < Stamp(s, n) else Lower(s, d.it) <= Stamp(s, n))
      && CalledDownTo(s, d, d.at.low, if d.at.Visit? then Lower(s, d.it) + 1 else Lower(s, d.it))
  }

  /** The walk is over: the dispatch falls back, leaves or has left. */
  predicate Over(w: Where) { !w.Entering? && !w.Head? && !Walking(w) }

  /** What finished passes have called, unless a handler stopped the dispatch. */
  ghost predicate Passes(s: State, d: Dispatch) {
    && (d.at.LoadOrig? ==> d.action == Search)
    && ((Walking(d.at) && d.at.low) || Over(d.at) ==>
          d.normalPass && d.action == Search ==> CalledDownTo(s, d, false, 0))
    && (Over(d.at) && d.lowPass && d.action == Search ==> CalledDownTo(s, d, true, 0))
  }

  predicate Control(d: Dispatch) {
    && (Walking(d.at) && d.at.low ==> d.lowPass)
    && (Walking(d.at) && !d.at.low ==> d.normalPass && d.lowCalls == [])
    && (d.at.Handler? || d.at.Advance? ==> d.it != HEAD)
    && (d.at.Handler? ==> d.action == Search)
    && (d.at.Entering? || d.at.Head? ==> d.normalCalls == [] && d.lowCalls == [] && d.atLoad == {} && d.action == Search)
    && (d.at.Entering? || d.at.Head? || Walking(d.at) || d.at.LoadOrig? || d.at.Copy? ==> d.next.NotCopied?)
  }

  ghost predicate WalkOf(s: State, d: Dispatch) {
    (Logs(s, d) && Position(s, d)) && (Passes(s, d) && Control(d))
  }

  ghost predicate WalkAt(s: State, id: nat) { id in s.dispatches ==> WalkOf(s, s.dispatches[id]) }

  ghost predicate Walk(s: State) { forall id :: WalkAt(s, id) }

  ghost predicate Inv(cap: nat, s: State) {
    && P.Basic(cap, s.ph) && Link(s) && List(s) && Held(s) && Slots(s) && Structures(s) && Copies(s) && OneShot(s) && Walk(s)
  }
}
