/**
 Whole runs of the credit system: exactly when credits are conserved, what
 follows from it for pools, ports and the SmartNIC, and the inputs on which
 the code makes or loses credits.
 */
module CreditRuns {
  import opened DlbTypes
  import opened CreditOps
  import opened RemoteAtomics
  import opened CreditSystem
  import CreditCaches

  /** A fresh domain: no pools, no cached credits, nothing on the SmartNIC. */
  predicate Init(s: Sys) {
    && Shape(s)
    && s.remainder == s.total && s.total.ldb < 0x1_0000 && s.total.dir < 0x1_0000
    && (forall i | 0 <= i < |s.avail.ldb| :: s.avail.ldb[i] == 0 && !s.configured.ldb[i] && !s.made.ldb[i])
    && (forall i | 0 <= i < |s.avail.dir| :: s.avail.dir[i] == 0 && !s.configured.dir[i] && !s.made.dir[i])
    && s.high == 0
    && (forall p | 0 <= p < |s.look| :: s.cached.ldb[p] == s.cached.dir[p] == s.look[p] == 0)
    && (forall p | 0 <= p < |s.look| :: s.incoming.ldb[p] == s.incoming.dir[p] == 0)
    && s.inflight == NONE
    && (forall i | 0 <= i < |s.snic.local| ::
          s.snic.local[i] == 0 && s.snic.spent[i] == 0 && s.snic.phase[i] == Waiting)
    && s.snic.global == 0 && s.snic.mgr == InitQuery(0)
  }

  predicate Next(s: Sys, st: Step, s': Sys) { Enabled(s, st) && s' == Apply(s, st) }

  /** A run: the state before and after each step. */
  ghost predicate Run(states: seq<Sys>, steps: seq<Step>) {
    && |states| == |steps| + 1 && Init(states[0])
    && forall i {:trigger steps[i]} | 0 <= i < |steps| :: Next(states[i], steps[i], states[i + 1])
  }

  /** The first n steps are harmless. */
  ghost predicate HarmlessUpTo(states: seq<Sys>, steps: seq<Step>, n: nat)
    requires Run(states, steps) && n <= |steps|
  {
    forall i | 0 <= i < n :: Harmless(states[i], steps[i])
  }

  lemma InitHolds(s: Sys)
    requires Init(s)
    ensures Inv(s)
  {
    SumAtMost(s.avail.ldb, 0);
    SumAtMost(s.avail.dir, 0);
    SumAtMost(s.cached.ldb, 0);
    SumAtMost(s.cached.dir, 0);
    SumAtMost(s.incoming.ldb, 0);
    SumAtMost(s.incoming.dir, 0);
    SumAtMost(s.snic.local, 0);
    SumAtMost(s.snic.spent, 0);
  }

  lemma NextKeeps(s: Sys, st: Step, s': Sys)
    requires Inv(s) && Next(s, st, s') && Harmless(s, st)
    ensures Inv(s') && s'.total == s.total && |s'.look| == |s.look|
  {
    StepKeeps(s, st);
  }

  /** As long as all steps of an interleaving are harmless, the credits of each type add up to the domain's total. */
  lemma {:induction false} CreditsAreConserved(states: seq<Sys>, steps: seq<Step>, i: nat)
    requires Run(states, steps) && i <= |steps| && HarmlessUpTo(states, steps, i)
    ensures Inv(states[i]) && states[i].total == states[0].total && |states[i].look| == |states[0].look|
    ensures forall t :: Everywhere(states[i], t) == states[0].total.At(t)
  {
    if i == 0 {
      InitHolds(states[0]);
    } else {
      CreditsAreConserved(states, steps, i - 1);
      NextKeeps(states[i - 1], steps[i - 1], states[i]);
    }
  }

  /** At every moment up to and including step n the credits of each type add up to the domain's total. */
  ghost predicate AddsUpTo(states: seq<Sys>, n: nat)
    requires n < |states|
  {
    forall i, t | 0 <= i <= n :: Everywhere(states[i], t) == states[0].total.At(t)
  }

  /** In every interleaving at all: they add up at every moment if and only if every step is harmless. */
  lemma {:induction false} ConservedExactlyWhenHarmless(states: seq<Sys>, steps: seq<Step>, n: nat)
    requires Run(states, steps) && n <= |steps|
    ensures AddsUpTo(states, n) <==> HarmlessUpTo(states, steps, n)
  {
    if n == 0 {
      CreditsAreConserved(states, steps, 0);
    } else {
      ConservedExactlyWhenHarmless(states, steps, n - 1);
      if HarmlessUpTo(states, steps, n - 1) {
        CreditsAreConserved(states, steps, n - 1);
        LastStepDecides(states, steps, n);
      } else {
        assert !AddsUpTo(states, n - 1);
      }
    }
  }

  lemma LastStepDecides(states: seq<Sys>, steps: seq<Step>, n: nat)
    requires Run(states, steps) && 0 < n <= |steps| && Inv(states[n - 1])
    requires states[n - 1].total == states[0].total && AddsUpTo(states, n - 1)
    ensures AddsUpTo(states, n) <==> Harmless(states[n - 1], steps[n - 1])
  {
    var s, st := states[n - 1], steps[n - 1];
    StepConserves(s, st);
    assert forall t :: Everywhere(s, t) == states[0].total.At(t);
    if Harmless(s, st) {
      assert forall t :: Everywhere(states[n], t) == Everywhere(s, t);
    } else {
      var t :| Everywhere(Apply(s, st), t) != Everywhere(s, t);
      assert Everywhere(states[n], t) != states[0].total.At(t);
    }
  }

  // ---- What follows

  /** The device is never sent a QE that no credit pays for. */
  lemma NoEnqueueLacksACredit(s: Sys, i: nat)
    requires Inv(s) && i < |s.snic.local|
    ensures InFlight(s, LDB) <= s.total.ldb && InFlight(s, DIR) <= s.total.dir
    ensures s.snic.phase[i].Holding? ==> s.snic.local[i] >= 4 && InFlight(s, LDB) + 4 <= s.total.ldb
  {
    assert Alone(s.snic, i);
    SnicHolds(s.snic, i);
  }

  /** Worker and manager are never both inside an update of one counter, and no update of either is lost. */
  lemma NoUpdateIsLost(s: Sys, i: nat, k: nat)
    requires Inv(s) && i < |s.snic.local| && 1 <= k <= 4
    ensures !(Owns(s.snic, i) && ManagerOwns(s.snic.mgr, i))
    ensures s.snic.phase[i].Subtracting? ==>
              Apply(s, WorkerStep(i, k)).snic.local[i] + s.snic.spent[i] == s.snic.local[i]
    ensures s.snic.mgr.DealWrite? && s.snic.mgr.i == i ==>
              Apply(s, ManagerStep).snic.local[i] == s.snic.local[i] + s.snic.mgr.share
    ensures s.snic.mgr.Deal? && s.snic.mgr.i == i && s.snic.local[i] < 4 ==>
              Apply(s, ManagerStep).snic.global == s.snic.global - s.snic.mgr.share
  {
    assert Alone(s.snic, i);
    CountersFit(s, i);
    if s.snic.mgr.Deal? && s.snic.mgr.i == i { LeftForOthers(s.snic.mgr.share, |s.snic.local| - i); }
  }

  /** The pools hold all credits but those in flight, on the SmartNIC, or within the bound of each port's cache. */
  lemma PoolFloor(s: Sys, t: PortType, bounds: seq<nat>)
    requires Inv(s) && |bounds| == |s.look| && forall p | 0 <= p < |s.look| :: s.cached.At(t)[p] <= bounds[p]
    ensures Sum(s.avail.At(t)) >=
              s.total.At(t) - s.remainder.At(t) - InFlight(s, t)
              - (if t.LDB? then OnSnic(s.snic) else 0) - Sum(bounds)
  {
    SumGap(bounds, s.cached.At(t), 0);
  }

  lemma {:induction false} SumOfOne(s: seq<nat>, i: nat)
    requires i < |s| && forall k | 0 <= k < |s| && k != i :: s[k] == 0
    ensures Sum(s) == s[i]
  {
    if i == |s| - 1 {
      SumAtMost(s[..i], 0);
    } else {
      SumOfOne(s[..|s| - 1], i);
    }
  }

  /** With one pool, all credits in it or with the ports, and all other ports drained, one port has all in reach. */
  lemma EverythingInReach(s: Sys, p: nat, t: PortType)
    requires Inv(s) && p < |s.look| && s.remainder.At(t) == 0 && InFlight(s, t) == 0
    requires t.LDB? ==> OnSnic(s.snic) == 0
    requires forall q | 0 <= q < |s.look| && q != p :: s.cached.At(t)[q] == 0
    requires forall i | 0 <= i < |s.avail.At(t)| && i != PoolIndex(s, p, t) :: s.avail.At(t)[i] == 0
    ensures s.cached.At(t)[p] + s.avail.At(t)[PoolIndex(s, p, t)] == s.total.At(t)
  {
    SumOfOne(s.cached.At(t), p);
    SumOfOne(s.avail.At(t), PoolIndex(s, p, t));
  }

  // ---- Each port sees exactly its own operations

  /** Port p's operations among the first n steps. */
  ghost function OpsOf(steps: seq<Step>, n: nat, p: nat): seq<PortOp>
    requires n <= |steps|
  {
    if n == 0 then []
    else OpsOf(steps, n - 1, p) + if steps[n - 1].PortStep? && steps[n - 1].p == p then [steps[n - 1].op] else []
  }

  lemma StepFollows(s: Sys, st: Step, p: nat)
    requires Inv(s) && Enabled(s, st) && p < |s.look|
    ensures var s' := Apply(s, st);
            && |s'.look| == |s.look| == |s'.cached.ldb| == |s'.cached.dir|
            && LocalOf(s', p) ==
                 if st.PortStep? && st.p == p then LocalStep(LocalOf(s, p), st.op) else LocalOf(s, p)
  {
    if st.PortStep? {
      CreditsInReach(s, st.p, st.op.t);
    }
  }

  /** What a port's own operations make of its cache is what the whole system makes of it. */
  lemma {:induction false} PortsFollowTheirLogs(states: seq<Sys>, steps: seq<Step>, i: nat, p: nat)
    requires Run(states, steps) && i <= |steps| && HarmlessUpTo(states, steps, i) && p < |states[0].look|
    ensures Inv(states[i]) && p < |states[i].look|
    ensures Replay(OpsOf(steps, i, p)) == Some(LocalOf(states[i], p))
  {
    CreditsAreConserved(states, steps, i);
    if i == 0 {
    } else {
      var last := steps[i - 1];
      PortsFollowTheirLogs(states, steps, i - 1, p);
      assert Next(states[i - 1], last, states[i]);
      StepFollows(states[i - 1], last, p);
      if last.PortStep? && last.p == p {
        ReplayMore(OpsOf(steps, i - 1, p), last.op);
      } else {
        assert OpsOf(steps, i, p) == OpsOf(steps, i - 1, p);
      }
    }
  }

  // ---- And meets only the environment its contracts allow

  /** All but element i. */
  function Others(s: seq<nat>, i: nat): nat
    requires i < |s|
  {
    Sum(s[i := 0])
  }

  /** The credits of type t that are neither in port p's pool, nor in its cache, nor in its CQ. */
  function Elsewhere(s: Sys, p: nat, t: PortType): int
    requires Shape(s) && p < |s.look|
  {
    s.remainder.At(t) + Others(s.avail.At(t), PoolIndex(s, p, t)) + Others(s.cached.At(t), p)
    + Others(s.incoming.At(t), p) + s.inflight.At(t) + if t.LDB? then OnSnic(s.snic) else 0
  }

  lemma EverywhereFrom(s: Sys, p: nat, t: PortType)
    requires Shape(s) && p < |s.look|
    ensures var v := ViewOf(s, p, t); Everywhere(s, t) == v.avail + v.cached + v.incoming + Elsewhere(s, p, t)
  {
    SumUpdate(s.avail.At(t), PoolIndex(s, p, t), 0);
    SumUpdate(s.cached.At(t), p, 0);
    SumUpdate(s.incoming.At(t), p, 0);
  }

  /** The port's own account of its credits, with the true rest of the system elsewhere. */
  lemma ViewAddsUp(s: Sys, p: nat, t: PortType)
    requires Inv(s) && p < |s.look|
    ensures Elsewhere(s, p, t) >= 0
    ensures var v := ViewOf(s, p, t);
            CreditCaches.AddUp(v.avail, Elsewhere(s, p, t), v.cached, v.incoming, s.total.At(t))
  {
    EverywhereFrom(s, p, t);
    SnicHolds(s.snic, 0);
  }

  predicate Touches(st: Step, p: nat) { (st.PortStep? || st.Deliver?) && st.p == p }

  /**
   A step of any other agent leaves the port's cache, its last read and the credits in its CQ alone; it only moves
   credits between the port's pool and elsewhere. That is all CreditCache.Interfere() may do.
   */
  lemma OthersInterfere(s: Sys, st: Step, p: nat, t: PortType)
    requires Inv(s) && Enabled(s, st) && Harmless(s, st) && p < |s.look| && !Touches(st, p)
    ensures var s' := Apply(s, st);
            && Inv(s') && |s'.look| == |s.look| && s'.poolOf == s.poolOf && LocalOf(s', p) == LocalOf(s, p)
            && var v, v' := ViewOf(s, p, t), ViewOf(s', p, t);
               v'.incoming == v.incoming && v'.avail + Elsewhere(s', p, t) == v.avail + Elsewhere(s, p, t)
  {
    StepKeeps(s, st);
    StepFollows(s, st, p);
    HarmlessStepConserves(s, st, t);
    EverywhereFrom(s, p, t);
    EverywhereFrom(Apply(s, st), p, t);
    IncomingStays(s, st, p);
  }

  lemma IncomingStays(s: Sys, st: Step, p: nat)
    requires Inv(s) && Enabled(s, st) && p < |s.look| && !Touches(st, p)
    ensures var s' := Apply(s, st);
            && s'.poolOf == s.poolOf && |s'.incoming.ldb| == |s.look| == |s'.incoming.dir|
            && s'.incoming.ldb[p] == s.incoming.ldb[p] && s'.incoming.dir[p] == s.incoming.dir[p]
  {
  }

  /** A delivery takes one credit from elsewhere into the port's CQ, as CreditCache.Announce(). */
  lemma DeviceAnnounces(s: Sys, p: nat, t: PortType)
    requires Inv(s) && Enabled(s, Deliver(p, t))
    ensures var s' := Apply(s, Deliver(p, t));
            && Inv(s') && ViewOf(s', p, t).incoming == ViewOf(s, p, t).incoming + 1
            && ViewOf(s', p, t).avail == ViewOf(s, p, t).avail && LocalOf(s', p) == LocalOf(s, p)
            && Elsewhere(s', p, t) == Elsewhere(s, p, t) - 1
  {
    DeliverMoves(s, p, t);
    DeliverKeeps(s, p, t);
    var s' := Apply(s, Deliver(p, t));
    HarmlessStepConserves(s, Deliver(p, t), t);
    EverywhereFrom(s, p, t);
    EverywhereFrom(s', p, t);
  }

  /** A port's own operation does to its pool, its cache, its CQ and the rest what the methods of CreditCache do. */
  lemma OwnOperation(s: Sys, p: nat, op: PortOp)
    requires Inv(s) && Enabled(s, PortStep(p, op))
    ensures var s' := Apply(s, PortStep(p, op));
            && Inv(s') && |s'.look| == |s.look|
            && var v, v' := ViewOf(s, p, op.t), ViewOf(s', p, op.t);
               v' == ViewAfter(v, op) && Elsewhere(s', p, op.t) == Elsewhere(s, p, op.t) + if op.Spend? then 1 else 0
  {
    PortMoves(s, p, op);
    PortKeeps(s, p, op);
    var s' := Apply(s, PortStep(p, op));
    HarmlessStepConserves(s, PortStep(p, op), op.t);
    EverywhereFrom(s, p, op.t);
    EverywhereFrom(s', p, op.t);
  }
}
