/**
 phaser_enter cannot be held up: every failed test of DRAINING belongs to a
 different counter drain.
 */
module PhaserEntry {
  import opened Phaser

  ghost predicate Increasing(q: seq<nat>) {
    forall i, j :: 0 <= i < j < |q| ==> q[i] < q[j]
  }

  ghost predicate LatestDrain(s: State) {
    && (forall p: Phase :: Draining(s, p) ==> p == s.lastOr)
    && s.ors % 2 == (if s.drainer.Idle? || (s.drainer.Or? <==> s.drainer.i == 0) then 0 else 1)
  }

  ghost predicate SectionEntry(s: State, id: nat) {
    && id in s.failed && id in s.began
    && Increasing(s.failed[id])
    && (forall k :: 0 <= k < |s.failed[id]| ==> s.began[id] <= s.failed[id][k] <= s.ors)
    && s.began[id] <= s.ors
    && (id in s.sections && s.sections[id].Test? && s.failed[id] != [] && s.failed[id][|s.failed[id]| - 1] == s.ors ==>
          s.lastOr == Flip(s.sections[id].p))
  }

  ghost predicate EntryInv(s: State) {
    LatestDrain(s) && forall id :: id in s.sections ==> SectionEntry(s, id)
  }

  lemma LatestDrainStep(cap: nat, s: State, a: Action)
    requires LatestDrain(s) && Enabled(cap, s, a)
    ensures LatestDrain(Apply(cap, s, a))
  {
    var t := Apply(cap, s, a);
    forall p: Phase | Draining(t, p)
      ensures p == t.lastOr
    {
      assert Draining(s, p) || a.DrainOr?;
    }
  }

  lemma FailedTest(cap: nat, s: State, id: nat)
    requires cap < DRAINING && Basic(cap, s) && LatestDrain(s) && SectionEntry(s, id)
    requires id in s.sections && s.sections[id].Test?
    ensures SectionEntry(Apply(cap, s, Load(id)), id)
  {
    var p := s.sections[id].p;
    assert s.counter[p] == |Holders(s, p)| + (if Draining(s, p) then DRAINING else 0);
    if IsDraining(s.counter[p]) {
      var t := Apply(cap, s, Load(id));
      var q := s.failed[id];
      assert t.failed[id] == q + [s.ors];
      assert q != [] ==> q[|q| - 1] < s.ors;
    }
  }

  lemma EntryStep(cap: nat, s: State, a: Action)
    requires cap < DRAINING && Basic(cap, s) && EntryInv(s) && Enabled(cap, s, a)
    ensures EntryInv(Apply(cap, s, a))
  {
    var t := Apply(cap, s, a);
    LatestDrainStep(cap, s, a);
    forall id | id in t.sections
      ensures SectionEntry(t, id)
    {
      assert id in s.sections ==> SectionEntry(s, id);
      if a == Load(id) {
        FailedTest(cap, s, id);
      } else if !a.Load? {
        EntryFrame(cap, s, a, id);
      }
    }
  }

  lemma EntryFrame(cap: nat, s: State, a: Action, id: nat)
    requires Enabled(cap, s, a) && !a.Load? && id in Apply(cap, s, a).sections
    requires id in s.sections ==> SectionEntry(s, id)
    ensures SectionEntry(Apply(cap, s, a), id)
  {
  }

  lemma {:induction false} EntryRun(cap: nat, s: State, acts: seq<Action>, t: State)
    requires cap < DRAINING && Basic(cap, s) && EntryInv(s) && Run(cap, s, acts, t)
    ensures EntryInv(t)
    decreases |acts|
  {
    if acts != [] {
      BasicStep(cap, s, acts[0]);
      EntryStep(cap, s, acts[0]);
      EntryRun(cap, Apply(cap, s, acts[0]), acts[1..], t);
    }
  }

  lemma EntryReachable(cap: nat, s: State)
    requires cap < DRAINING && Reachable(cap, s)
    ensures EntryInv(s)
  {
    var acts :| Run(cap, Init, acts, s);
    BasicInit(cap);
    EntryRun(cap, Init, acts, s);
  }

  lemma {:induction false} IncreasingSpread(q: seq<nat>, low: nat, high: nat)
    requires Increasing(q) && low <= high
    requires forall k :: 0 <= k < |q| ==> low <= q[k] <= high
    ensures |q| <= high - low + 1
  {
    if |q| > 1 {
      var n := |q| - 1;
      assert q[n - 1] < q[n];
      IncreasingSpread(q[..n], low, q[n] - 1);
    }
  }

  /** The drain to which the n-th counter drain belongs; a drain drains two counters. */
  function DrainNumber(n: nat): nat { (n + 1) / 2 }

  /** phaser_enter fails at most one more test than the number of counter drains
      that started during it, and no three of its failures overlap one drain. */
  lemma BoundedEntry(cap: nat, s: State, id: nat)
    requires cap < DRAINING && Reachable(cap, s) && id in s.sections
    ensures id in s.failed && id in s.began && s.began[id] <= s.ors
    ensures |s.failed[id]| <= s.ors - s.began[id] + 1
    ensures forall k :: 0 <= k < |s.failed[id]| - 2 ==>
              DrainNumber(s.failed[id][k]) < DrainNumber(s.failed[id][k + 2])
  {
    EntryReachable(cap, s);
    assert SectionEntry(s, id);
    var q := s.failed[id];
    IncreasingSpread(q, s.began[id], s.ors);
    forall k | 0 <= k < |q| - 2
      ensures DrainNumber(q[k]) < DrainNumber(q[k + 2])
    {
      assert q[k] < q[k + 1] < q[k + 2];
    }
  }

  /** A failed test never repeats until another counter drain starts: if none does,
      the next test succeeds. */
  lemma SecondTestSucceeds(cap: nat, s: State, id: nat)
    requires cap < DRAINING && Reachable(cap, s) && id in s.sections && s.sections[id].Test?
    requires Failures(s, id) != [] && Failures(s, id)[|Failures(s, id)| - 1] == s.ors
    ensures Apply(cap, s, Load(id)).sections[id].Add?
  {
    EntryReachable(cap, s);
    BasicReachable(cap, s);
    assert SectionEntry(s, id);
    var p := s.sections[id].p;
    assert s.counter[p] == |Holders(s, p)| + (if Draining(s, p) then DRAINING else 0);
  }
}
