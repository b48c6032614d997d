/**
 sigmux.c as a step system over the phaser: lock-free signal dispatches walk the
 handler list and take a copy of the next sigaction, while sigmux_register,
 sigmux_unregister and sigmux_sigaction change both under one lock.

 Each load or store that a dispatch can observe is one action.  Writes that only
 the lock holder can observe (prev pointers, fields of an unpublished node) are
 merged with the next visible write.  Nodes and `struct sigaction` buffers are
 named by numbers; a node number is not reused after free, so touching a node of
 `freed` is a use after free.
 */
module Sigmux {
  import P = Phaser

  type Node = nat

  /** &sigmux_global.handlers, the list's sentinel. */
  const HEAD: Node := 0

  datatype Registration = Registration(signals: set<int>, lowPriority: bool)

  /** handler 0 stands for SIG_DFL and for a NULL sa_sigaction; `tag` names the
      installation a structure came from. */
  datatype Sigaction = Sigaction(handler: nat, resetHand: bool, sigInfo: bool, tag: nat)

  datatype Outcome = Search | Execution

  datatype NextHandler = NotCopied | Copied(act: Sigaction)

  datatype Where =
    | Entering             // inside phaser_enter
    | Head                 // about to load handlers.next
    | Visit(low: bool)     // about to evaluate the loop condition and the tests on `it`
    | Handler(low: bool)   // the handler of `it` runs
    | Advance(low: bool)   // about to follow it->next
    | LoadOrig             // about to load orig_sigact[signum]
    | Copy                 // about to copy the structure
    | TakeOneShot          // about to compare-and-exchange the handler with NULL
    | ClearFlag            // about to clear SA_RESETHAND
    | Leave                // about to call phaser_exit
    | Left                 // outside the section

  /** One call of sigmux_handle_signal.  `atLoad` are the handlers registered when it
      loaded the list; `calls` logs the handlers called by the two passes. */
  datatype Dispatch = Dispatch(
    signum: int, normalPass: bool, lowPass: bool, invokeDefault: bool,
    at: Where, it: Node, reglist: Node, action: Outcome,
    snapshot: nat, next: NextHandler,
    atLoad: set<Node>, normalCalls: seq<Node>, lowCalls: seq<Node>)

  datatype Stage = Locked | Written | Changed | InDrain | Drained

  /** The holder of sigmux_global.lock. */
  datatype Writer =
    | NoOne
    | Registering(n: Node)
    | Unregistering(n: Node, stage: Stage)
    | Replacing(signum: int, act: Sigaction, stage: Stage)

  /** `live` are the published nodes and `stamp` the order of their publication;
      `retired` are unregistered and no longer locked, but not freed yet;
      `installed` remembers each installed structure by its tag. */
  datatype State = State(
    ph: P.State,
    next: map<Node, Node>, prev: map<Node, Node>, regs: map<Node, Registration>,
    live: set<Node>, stamp: map<Node, nat>, clock: nat,
    retired: set<Node>, freed: set<Node>,
    writer: Writer,
    orig: map<int, nat>, alt: map<int, nat>,
    structs: map<nat, Sigaction>, installed: map<nat, Sigaction>,
    dispatches: map<nat, Dispatch>)

  /** Steps of a dispatch that change only the dispatch. */
  datatype ReaderAction =
    | LoadHead
    | Test
    | Return(outcome: Outcome)
    | LongJump                   // the handler calls sigmux_longjmp
    | Follow
    | LoadSlot
    | CopySlot

  /** Steps of sigmux_register and sigmux_unregister. */
  datatype ListAction =
    | Allocate(n: Node, reg: Registration)
    | RegisterLock(n: Node)
    | RegisterPublish
    | Unlink(n: Node)            // lock, then both list writes
    | Free(n: Node)

  /** Steps of sigmux_init and sigmux_sigaction. */
  datatype SlotAction =
    | InitSignal(signum: int, origAt: nat, altAt: nat, current: Sigaction, spare: Sigaction)
    | ReplaceLock(signum: int, act: Sigaction)
    | ReplaceWrite
    | ReplaceSwap

  datatype Action =
    | Signal(id: nat, signum: int, normalPass: bool, lowPass: bool, invokeDefault: bool)
    | Reader(id: nat, r: ReaderAction)
    | CompareExchange(id: nat)
    | ResetFlag(id: nat)
    | Exit(id: nat)              // phaser_exit decrements
    | OnList(l: ListAction)
    | OnSlots(c: SlotAction)
    | DrainBegin
    | Unlock
    | Phaser(a: P.Action)        // any other phaser step

  const Init: State := State(P.Init, map[HEAD := HEAD], map[HEAD := HEAD], map[], {}, map[], 0, {}, {}, NoOne,
                             map[], map[], map[], map[], map[])

  predicate Matches(s: State, n: Node, signum: int, low: bool) {
    n in s.regs && s.regs[n].lowPriority == low && signum in s.regs[n].signals
  }

  predicate IsAt(s: State, id: nat, w: Where) { id in s.dispatches && s.dispatches[id].at == w }

  /** The phaser steps that carry no sigmux step with them. */
  predicate PurePhaserStep(s: State, a: P.Action) {
    match a
    case Load(id) => IsAt(s, id, Entering)
    case Increment(id) => IsAt(s, id, Entering)
    case FutexWake(id) => true
    case Begin(_) => false
    case Decrement(_) => false
    case DrainBegin => false
    case _ => true
  }

  predicate NodeKnown(s: State, n: Node) { n in s.next && n in s.prev }

  predicate ReaderEnabled(s: State, d: Dispatch, r: ReaderAction) {
    match r
    case LoadHead => d.at.Head? && HEAD in s.next
    case Test => d.at.Visit? && (d.it == HEAD || d.it in s.regs)
    case Return(_) => d.at.Handler?
    case LongJump => d.at.Handler?
    case Follow => d.at.Advance? && d.it in s.next
    case LoadSlot => d.at.LoadOrig? && d.signum in s.orig
    case CopySlot => d.at.Copy? && d.snapshot in s.structs
  }

  predicate ListEnabled(s: State, l: ListAction) {
    match l
    case Allocate(n, _) => n != HEAD && n !in s.regs
    case RegisterLock(n) => s.writer.NoOne? && n in s.regs && n !in s.stamp && HEAD in s.next
    case RegisterPublish => s.writer.Registering? && HEAD in s.next && NodeKnown(s, s.writer.n)
    case Unlink(n) => s.writer.NoOne? && n in s.live && NodeKnown(s, n)
    case Free(n) => n in s.retired
  }

  predicate SlotEnabled(s: State, c: SlotAction) {
    match c
    case InitSignal(signum, o, l, current, spare) =>
      && s.writer.NoOne? && signum !in s.orig && o !in s.structs && l !in s.structs && o != l
      && current.tag !in s.installed && spare.tag !in s.installed && current.tag != spare.tag
    case ReplaceLock(signum, act) => s.writer.NoOne? && signum in s.orig && signum in s.alt && act.tag !in s.installed
    case ReplaceWrite => s.writer.Replacing? && s.writer.stage.Locked? && s.writer.signum in s.alt
    case ReplaceSwap =>
      s.writer.Replacing? && s.writer.stage.Written? && s.writer.signum in s.alt && s.writer.signum in s.orig
  }

  predicate HasStage(w: Writer, st: Stage) { (w.Unregistering? || w.Replacing?) && w.stage == st }

  ghost predicate Enabled(cap: nat, s: State, a: Action) {
    match a
    case Signal(id, signum, _, _, _) => P.Enabled(cap, s.ph, P.Begin(id)) && signum in s.orig
    case Reader(id, r) => id in s.dispatches && ReaderEnabled(s, s.dispatches[id], r)
    case CompareExchange(id) =>
      IsAt(s, id, TakeOneShot) && s.dispatches[id].snapshot in s.structs && s.dispatches[id].next.Copied?
    case ResetFlag(id) => IsAt(s, id, ClearFlag) && s.dispatches[id].snapshot in s.structs
    case Exit(id) => IsAt(s, id, Leave) && P.Enabled(cap, s.ph, P.Decrement(id))
    case OnList(l) => ListEnabled(s, l)
    case OnSlots(c) => SlotEnabled(s, c)
    case DrainBegin => HasStage(s.writer, Changed) && P.Enabled(cap, s.ph, P.DrainBegin)
    case Unlock => HasStage(s.writer, Drained)
    case Phaser(pa) => PurePhaserStep(s, pa) && P.Enabled(cap, s.ph, pa)
  }

  // ------------------------------------------------------ steps of a dispatch

  /** Where sigmux_handle_signal continues after its loops. */
  function AfterWalk(d: Dispatch): Dispatch {
    d.(at := if d.invokeDefault && d.action == Search then LoadOrig else Leave)
  }

  function LoadHeadStep(s: State, d: Dispatch): Dispatch
    requires HEAD in s.next
  {
    var d1 := d.(reglist := s.next[HEAD], it := s.next[HEAD], atLoad := s.live);
    if d.normalPass then d1.(at := Visit(false))
    else if d.lowPass then d1.(at := Visit(true))
    else AfterWalk(d1)
  }

  function TestStep(s: State, d: Dispatch): Dispatch
    requires d.at.Visit?
  {
    var low := d.at.low;
    if d.it == HEAD || d.action != Search then
      if !low && d.lowPass then d.(at := Visit(true), it := d.reglist) else AfterWalk(d)
    else if Matches(s, d.it, d.signum, low) then
      if low then d.(at := Handler(low), lowCalls := d.lowCalls + [d.it])
      else d.(at := Handler(low), normalCalls := d.normalCalls + [d.it])
    else d.(at := Advance(low))
  }

  function CopyStep(s: State, d: Dispatch): Dispatch
    requires d.snapshot in s.structs
  {
    var act := s.structs[d.snapshot];
    d.(next := Copied(act), at := if act.resetHand then TakeOneShot else Leave)
  }

  function ReaderStep(s: State, d: Dispatch, r: ReaderAction): Dispatch
    requires ReaderEnabled(s, d, r)
  {
    match r
    case LoadHead => LoadHeadStep(s, d)
    case Test => TestStep(s, d)
    case Return(outcome) => d.(action := outcome, at := Advance(d.at.low))
    case LongJump => d.(action := Execution, at := Leave)
    case Follow => d.(it := s.next[d.it], at := Visit(d.at.low))
    case LoadSlot => d.(snapshot := s.orig[d.signum], at := Copy)
    case CopySlot => CopyStep(s, d)
  }

  function ResetFlagStep(s: State, id: nat): State
    requires id in s.dispatches && s.dispatches[id].snapshot in s.structs
  {
    var d := s.dispatches[id];
    s.(structs := s.structs[d.snapshot := s.structs[d.snapshot].(resetHand := false)],
       dispatches := s.dispatches[id := d.(at := Leave)])
  }

  /** The compare-and-exchange either replaces the handler by NULL, keeping the
      expected value, or leaves it and reports the value found. */
  function ExchangeStep(s: State, id: nat): State
    requires id in s.dispatches && s.dispatches[id].snapshot in s.structs && s.dispatches[id].next.Copied?
  {
    var d := s.dispatches[id];
    var found := s.structs[d.snapshot];
    var won := found.handler == d.next.act.handler;
    s.(structs := s.structs[d.snapshot := found.(handler := if won then 0 else found.handler)],
       dispatches := s.dispatches[id := d.(at := ClearFlag, next := Copied(d.next.act.(handler := found.handler)))])
  }

  function With(s: State, id: nat, d: Dispatch): State { s.(dispatches := s.dispatches[id := d]) }

  // ----------------------------------------------------- steps of the lock holder

  function PublishStep(s: State): State
    requires s.writer.Registering? && HEAD in s.next && s.writer.n in s.next && s.writer.n in s.prev
  {
    var n := s.writer.n;
    s.(prev := s.prev[s.next[n] := n], next := s.next[HEAD := n],
       live := s.live + {n}, stamp := s.stamp[n := s.clock], clock := s.clock + 1, writer := NoOne)
  }

  function UnlinkStep(s: State, n: Node): State
    requires n in s.next && n in s.prev
  {
    s.(next := s.next[s.prev[n] := s.next[n]], prev := s.prev[s.next[n] := s.prev[n]],
       live := s.live - {n}, writer := Unregistering(n, Changed))
  }

  function UnlockStep(s: State): State {
    s.(writer := NoOne, retired := if s.writer.Unregistering? then s.retired + {s.writer.n} else s.retired)
  }

  function AtStage(w: Writer, st: Stage): Writer {
    match w
    case Unregistering(n, _) => Unregistering(n, st)
    case Replacing(signum, act, _) => Replacing(signum, act, st)
    case _ => w
  }

  function WithPhaser(s: State, a: P.Action, ph: P.State): State {
    var s1 := s.(ph := ph);
    if a.Increment? && a.id in s.dispatches then With(s1, a.id, s.dispatches[a.id].(at := Head))
    else if a.DrainClear? && ph.drainer.Idle? then s1.(writer := AtStage(s.writer, Drained))
    else s1
  }

  ghost function PhaserStep(cap: nat, s: State, a: P.Action): State
    requires P.Enabled(cap, s.ph, a)
  {
    WithPhaser(s, a, P.Apply(cap, s.ph, a))
  }

  function ListStep(s: State, l: ListAction): State
    requires ListEnabled(s, l)
  {
    match l
    case Allocate(n, reg) => s.(regs := s.regs[n := reg])
    case RegisterLock(n) =>
      s.(next := s.next[n := s.next[HEAD]], prev := s.prev[n := HEAD], writer := Registering(n))
    case RegisterPublish => PublishStep(s)
    case Unlink(n) => UnlinkStep(s, n)
    case Free(n) => s.(retired := s.retired - {n}, freed := s.freed + {n})
  }

  function SlotStep(s: State, c: SlotAction): State
    requires SlotEnabled(s, c)
  {
    match c
    case InitSignal(signum, o, l, current, spare) =>
      s.(orig := s.orig[signum := o], alt := s.alt[signum := l],
         structs := s.structs[o := current][l := spare],
         installed := s.installed[current.tag := current][spare.tag := spare])
    case ReplaceLock(signum, act) =>
      s.(writer := Replacing(signum, act, Locked), installed := s.installed[act.tag := act])
    case ReplaceWrite =>
      s.(structs := s.structs[s.alt[s.writer.signum] := s.writer.act], writer := AtStage(s.writer, Written))
    case ReplaceSwap =>
      var signum := s.writer.signum;
      s.(orig := s.orig[signum := s.alt[signum]], alt := s.alt[signum := s.orig[signum]],
         writer := AtStage(s.writer, Changed))
  }

  ghost function SignalStep(cap: nat, s: State, id: nat, d: Dispatch): State
    requires P.Enabled(cap, s.ph, P.Begin(id))
  {
    s.(ph := P.Apply(cap, s.ph, P.Begin(id)), dispatches := s.dispatches[id := d])
  }

  ghost function ExitStep(cap: nat, s: State, id: nat): State
    requires id in s.dispatches && P.Enabled(cap, s.ph, P.Decrement(id))
  {
    s.(ph := P.Apply(cap, s.ph, P.Decrement(id)),
       dispatches := s.dispatches[id := s.dispatches[id].(at := Left)])
  }

  ghost function DrainBeginStep(cap: nat, s: State): State
    requires P.Enabled(cap, s.ph, P.DrainBegin)
  {
    s.(ph := P.Apply(cap, s.ph, P.DrainBegin), writer := AtStage(s.writer, InDrain))
  }

  function NewDispatch(signum: int, normalPass: bool, lowPass: bool, invokeDefault: bool): Dispatch {
    Dispatch(signum, normalPass, lowPass, invokeDefault, Entering, HEAD, HEAD, Search, 0, NotCopied, {}, [], [])
  }

  ghost function Apply(cap: nat, s: State, a: Action): State
    requires Enabled(cap, s, a)
  {
    match a
    case Signal(id, signum, normalPass, lowPass, invokeDefault) =>
      SignalStep(cap, s, id, NewDispatch(signum, normalPass, lowPass, invokeDefault))
    case Reader(id, r) => With(s, id, ReaderStep(s, s.dispatches[id], r))
    case CompareExchange(id) => ExchangeStep(s, id)
    case ResetFlag(id) => ResetFlagStep(s, id)
    case Exit(id) => ExitStep(cap, s, id)
    case OnList(l) => ListStep(s, l)
    case OnSlots(c) => SlotStep(s, c)
    case DrainBegin => DrainBeginStep(cap, s)
    case Unlock => UnlockStep(s)
    case Phaser(pa) => PhaserStep(cap, s, pa)
  }

  ghost predicate Run(cap: nat, s: State, acts: seq<Action>, t: State)
    decreases |acts|
  {
    if acts == [] then s == t
    else Enabled(cap, s, acts[0]) && Run(cap, Apply(cap, s, acts[0]), acts[1..], t)
  }

  ghost predicate Reachable(cap: nat, s: State) {
    exists acts: seq<Action> :: Run(cap, Init, acts, s)
  }
}
