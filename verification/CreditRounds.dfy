/**
 What the credit manager and a worker get done when only they move: the first
 grabs, a whole round of dealing, a worker's turn.
 */
module CreditRounds {
  import opened DlbTypes
  import opened CreditOps
  import opened RemoteAtomics
  import opened CreditSystem
  import opened Chains

  /** A harmless step of the manager. */
  predicate ManagerMoves(s: Sys, s': Sys) {
    Enabled(s, ManagerStep) && Harmless(s, ManagerStep) && s' == Apply(s, ManagerStep)
  }

  lemma ThreeMoves(s: Sys, s1: Sys, s2: Sys, s3: Sys)
    requires ManagerMoves(s, s1) && ManagerMoves(s1, s2) && ManagerMoves(s2, s3)
    ensures Reaches(ManagerMoves, s, s3)
  {
    Once(ManagerMoves, s, s1);
    Once(ManagerMoves, s1, s2);
    Once(ManagerMoves, s2, s3);
    Then(ManagerMoves, s, s1, s2);
    Then(ManagerMoves, s, s2, s3);
  }

  lemma ReachesKeeps(s: Sys, s': Sys)
    requires Inv(s) && Reaches(ManagerMoves, s, s')
    ensures Inv(s')
  {
    forall a, b | Inv(a) && ManagerMoves(a, b)
      ensures Inv(b)
    {
      ManagerKeeps(a);
    }
    Keeps(ManagerMoves, Inv, s, s');
  }

  // ---- A round

  /** The workers from number i on that have fewer than 4 credits. */
  function Needy(local: seq<nat>, i: nat): (m: nat)
    requires i <= |local|
    ensures m <= |local| - i
    decreases |local| - i
  {
    if i == |local| then 0 else Needy(local, i + 1) + if local[i] < 4 then 1 else 0
  }

  lemma {:induction false} NeedyLater(a: seq<nat>, b: seq<nat>, i: nat)
    requires |a| == |b| && i <= |a| && forall j | i <= j < |a| :: a[j] == b[j]
    ensures Needy(a, i) == Needy(b, i)
    decreases |a| - i
  {
    if i == |a| {
    } else {
      NeedyLater(a, b, i + 1);
    }
  }

  /** Each of those has been given a share, and nobody else anything. */
  predicate Dealt(before: seq<nat>, after: seq<nat>, i: nat, share: nat) {
    && |after| == |before|
    && forall j | 0 <= j < |before| :: after[j] == before[j] + if i <= j && before[j] < 4 then share else 0
  }

  /** A round can go on: the shares still to be given are there. */
  predicate Dealing(s: Sys) {
    && Shape(s) && s.snic.mgr.Deal? && s.snic.mgr.i <= |s.snic.local|
    && Times(s.snic.mgr.share, |s.snic.local| - s.snic.mgr.i) <= s.snic.global < 0x1_0000
  }

  /** The three steps of a grant. */
  lemma GrantOne(s: Sys) returns (s': Sys)
    requires Dealing(s) && s.snic.mgr.i < |s.snic.local| && s.snic.local[s.snic.mgr.i] < 4
    ensures Reaches(ManagerMoves, s, s') && Dealing(s')
    ensures var n, i, share := s.snic, s.snic.mgr.i, s.snic.mgr.share;
            && share <= n.global
            && s' == s.(snic := n.(local := n.local[i := n.local[i] + share], global := n.global - share,
                                   mgr := Deal(i + 1, share)))
  {
    var n := s.snic;
    LeftForOthers(n.mgr.share, |n.local| - n.mgr.i);
    var read := Apply(s, ManagerStep);
    var write := Apply(read, ManagerStep);
    s' := Apply(write, ManagerStep);
    ThreeMoves(s, read, write, s');
  }

  /** The step past a worker that has enough. */
  lemma PassOne(s: Sys) returns (s': Sys)
    requires Dealing(s) && s.snic.mgr.i < |s.snic.local| && s.snic.local[s.snic.mgr.i] >= 4
    ensures Reaches(ManagerMoves, s, s') && Dealing(s')
    ensures s' == s.(snic := s.snic.(mgr := Deal(s.snic.mgr.i + 1, s.snic.mgr.share)))
  {
    LeftForOthers(s.snic.mgr.share, |s.snic.local| - s.snic.mgr.i);
    s' := Apply(s, ManagerStep);
    Once(ManagerMoves, s, s');
  }

  lemma DealtOnwards(before: seq<nat>, mid: seq<nat>, after: seq<nat>, i: nat, share: nat)
    requires i < |before| && Dealt(mid, after, i + 1, share)
    requires mid == before[i := before[i] + if before[i] < 4 then share else 0]
    ensures Dealt(before, after, i, share)
  {
    forall j | 0 <= j < |before|
      ensures after[j] == before[j] + if i <= j && before[j] < 4 then share else 0
    {
      assert after[j] == mid[j] + if i + 1 <= j && mid[j] < 4 then share else 0;
    }
  }

  /** From any point of a round on, every worker still to be visited that has fewer than 4 credits gets the share. */
  lemma {:induction false} RoundDealsToAll(s: Sys) returns (s': Sys)
    requires Dealing(s)
    ensures Reaches(ManagerMoves, s, s')
    ensures Dealt(s.snic.local, s'.snic.local, s.snic.mgr.i, s.snic.mgr.share)
    ensures s'.snic.global == s.snic.global - Times(s.snic.mgr.share, Needy(s.snic.local, s.snic.mgr.i))
    ensures s' == s.(snic := s.snic.(local := s'.snic.local, global := s'.snic.global, mgr := Query))
    decreases |s.snic.local| - s.snic.mgr.i
  {
    var i, local, share := s.snic.mgr.i, s.snic.local, s.snic.mgr.share;
    if i == |local| {
      s' := Apply(s, ManagerStep);
      Once(ManagerMoves, s, s');
    } else if local[i] < 4 {
      var next := GrantOne(s);
      s' := RoundDealsToAll(next);
      Then(ManagerMoves, s, next, s');
      NeedyLater(local, next.snic.local, i + 1);
      DealtOnwards(local, next.snic.local, s'.snic.local, i, share);
    } else {
      var next := PassOne(s);
      s' := RoundDealsToAll(next);
      Then(ManagerMoves, s, next, s');
      DealtOnwards(local, local, s'.snic.local, i, share);
    }
  }

  /** In every reachable state in which the manager deals, it is in such a round. */
  lemma DealersAreDealing(s: Sys)
    requires Inv(s) && s.snic.mgr.Deal?
    ensures Dealing(s)
  {
    CountersFit(s, 0);
  }

  /** A round starts with an equal part for each worker of what the SmartNIC has after the grab. */
  lemma RoundStarts(s: Sys)
    requires Inv(s) && s.snic.mgr.Swap? && Harmless(s, ManagerStep)
    ensures var s' := Apply(s, ManagerStep);
            && s'.snic.mgr == Deal(0, s'.snic.global / |s.snic.local|) && s'.snic.local == s.snic.local
            && s'.snic.global + Sum(s'.avail.ldb) == s.snic.global + Sum(s.avail.ldb)
  {
    SwapIsExact(s, s.snic.mgr.seen);
    SnicHolds(s.snic, 0);
  }

  /** The query and the swap, with nobody in between: all but 128 credits of pool 0 are the SmartNIC's. */
  lemma GrabTakesAll(s: Sys) returns (s': Sys)
    requires Inv(s) && s.snic.mgr == Query && s.avail.ldb[0] >= 128
    ensures Reaches(ManagerMoves, s, s')
    ensures s'.avail == s.avail.(ldb := s.avail.ldb[0 := 128])
    ensures var all := s.snic.global + s.avail.ldb[0] - 128;
            s'.snic == s.snic.(global := all, mgr := Deal(0, all / |s.snic.local|))
    ensures s' == s.(avail := s'.avail, high := s'.high, configured := s'.configured, snic := s'.snic)
  {
    WordOfPool(s);
    CountersFit(s, 0);
    SnicHolds(s.snic, 0);
    SumAtLeast(s.avail.ldb, 0);
    var swap := Apply(s, ManagerStep);
    LeaveBehindIsExact(Word0(s), Word0(s), 128);
    s' := Apply(swap, ManagerStep);
    Once(ManagerMoves, s, swap);
    Once(ManagerMoves, swap, s');
    Then(ManagerMoves, s, swap, s');
  }

  /**
   A round from the query on: if pool 0 has at least 128 credits, the manager takes all but 128, and each worker with
   fewer than 4 credits is given an equal part of what the SmartNIC then has to give.
   */
  lemma RoundServesWorkers(s: Sys) returns (s': Sys)
    requires Inv(s) && s.snic.mgr == Query && s.avail.ldb[0] >= 128
    ensures Reaches(ManagerMoves, s, s') && s'.snic.mgr == Query
    ensures s'.avail == s.avail.(ldb := s.avail.ldb[0 := 128])
    ensures var all := s.snic.global + s.avail.ldb[0] - 128;
            var share := all / |s.snic.local|;
            && Dealt(s.snic.local, s'.snic.local, 0, share)
            && s'.snic.global == all - Times(share, Needy(s.snic.local, 0))
    ensures s' == s.(avail := s'.avail, high := s'.high, configured := s'.configured,
                     snic := s.snic.(local := s'.snic.local, global := s'.snic.global))
  {
    var deal := GrabTakesAll(s);
    ReachesKeeps(s, deal);
    DealersAreDealing(deal);
    s' := RoundDealsToAll(deal);
    Then(ManagerMoves, s, deal, s');
  }

  /** With fewer than 128 credits in pool 0 the manager only asks again. */
  lemma PoorPoolIsLeftAlone(s: Sys)
    requires Inv(s) && s.snic.mgr == Query && s.avail.ldb[0] < 128
    ensures Apply(s, ManagerStep) == s
  {
    WordOfPool(s);
  }

  // ---- The first grabs

  /** A compare-and-swap of a word just read takes the batch if the pool covers it. */
  lemma CasTakes(s: Sys, i: nat)
    requires Shape(s) && s.snic.mgr == InitCas(i, Word0(s)) && FirstBatch(s) <= s.avail.ldb[0] < 0x1_0000
    ensures Harmless(s, ManagerStep)
    ensures var s' := Apply(s, ManagerStep);
            && s'.snic == s.snic.(mgr := InitStore(i, FirstBatch(s)))
            && s'.avail == s.avail.(ldb := s.avail.ldb[0 := s.avail.ldb[0] - FirstBatch(s)])
            && s' == s.(avail := s'.avail, high := s'.high, configured := s'.configured, snic := s'.snic)
            && s'.high < TWO32 && |s'.configured.ldb| == |s.configured.ldb| && s'.configured.dir == s.configured.dir
  {
    var w, batch := Word0(s), FirstBatch(s);
    if batch > 0 {
      TakeBatchIsExact(w, w, batch);
    } else {
      SubtractHalves(w, 0);
    }
  }

  /** The three steps of a first grab that the pool covers. */
  lemma GrabOne(s: Sys) returns (s': Sys)
    requires Shape(s) && s.snic.mgr.InitQuery? && s.snic.mgr.i < |s.snic.local|
    requires 8192 / |s.snic.local| <= s.avail.ldb[0] < 0x1_0000
    ensures Reaches(ManagerMoves, s, s') && Shape(s')
    ensures var n, i, batch := s.snic, s.snic.mgr.i, 8192 / |s.snic.local|;
            && s'.snic == n.(local := n.local[i := batch], mgr := InitQuery(i + 1))
            && s'.avail == s.avail.(ldb := s.avail.ldb[0 := s.avail.ldb[0] - batch])
  {
    var cas := Apply(s, ManagerStep);
    CasTakes(cas, s.snic.mgr.i);
    var store := Apply(cas, ManagerStep);
    s' := Apply(store, ManagerStep);
    ThreeMoves(s, cas, store, s');
  }

  /** While the pool covers them, each worker still to be served starts with 8192 / n credits. */
  lemma {:induction false} FirstGrabsServeAll(s: Sys) returns (s': Sys)
    requires Shape(s) && s.snic.mgr.InitQuery? && s.snic.mgr.i <= |s.snic.local|
    requires Times(8192 / |s.snic.local|, |s.snic.local| - s.snic.mgr.i) <= s.avail.ldb[0] < 0x1_0000
    ensures Reaches(ManagerMoves, s, s') && s'.snic.mgr == Query && s'.snic.global == 0
    ensures |s'.snic.local| == |s.snic.local|
    ensures forall j | 0 <= j < |s.snic.local| ::
              s'.snic.local[j] == if j < s.snic.mgr.i then s.snic.local[j] else 8192 / |s.snic.local|
    ensures |s'.avail.ldb| == |s.avail.ldb|
            && s'.avail.ldb[0] == s.avail.ldb[0] - Times(8192 / |s.snic.local|, |s.snic.local| - s.snic.mgr.i)
    decreases |s.snic.local| - s.snic.mgr.i
  {
    var i := s.snic.mgr.i;
    if i == |s.snic.local| {
      s' := Apply(s, ManagerStep);
      Once(ManagerMoves, s, s');
    } else {
      LeftForOthers(8192 / |s.snic.local|, |s.snic.local| - i);
      var next := GrabOne(s);
      s' := FirstGrabsServeAll(next);
      Then(ManagerMoves, s, next, s');
    }
  }

  // ---- A worker's turn

  /** A worker with fewer than 4 credits waits. */
  lemma PoorWorkerWaits(s: Sys, i: nat, k: nat)
    requires Enabled(s, WorkerStep(i, k)) && s.snic.phase[i] == Waiting && s.snic.local[i] < 4
    ensures Apply(s, WorkerStep(i, k)) == s
  {
  }

  /** One with at least 4 posts k QEs, in four steps, and has k fewer afterwards. */
  lemma WorkerTurn(s: Sys, i: nat, k: nat) returns (holding: Sys, posted: Sys, subtracting: Sys)
    requires Enabled(s, WorkerStep(i, k)) && s.snic.phase[i] == Waiting && s.snic.spent[i] == 0
    requires 4 <= s.snic.local[i] < TWO32
    ensures holding == Apply(s, WorkerStep(i, k)) && Enabled(holding, WorkerStep(i, k))
    ensures posted == Apply(holding, WorkerStep(i, k)) && Enabled(posted, WorkerStep(i, k))
    ensures subtracting == Apply(posted, WorkerStep(i, k)) && Enabled(subtracting, WorkerStep(i, k))
    ensures Apply(subtracting, WorkerStep(i, k)) ==
            s.(inflight := s.inflight.(ldb := s.inflight.ldb + k),
               snic := s.snic.(local := s.snic.local[i := s.snic.local[i] - k]))
  {
    var n := s.snic;
    holding := Apply(s, WorkerStep(i, k));
    posted := Apply(holding, WorkerStep(i, k));
    subtracting := Apply(posted, WorkerStep(i, k));
    var done := Apply(subtracting, WorkerStep(i, k)).snic;
    assert done.spent == n.spent && done.phase == n.phase;
  }

  /** In every reachable state a waiting worker's turn can be like that. */
  lemma WaitersAreReady(s: Sys, i: nat)
    requires Inv(s) && i < |s.snic.local| && s.snic.phase[i] == Waiting
    ensures s.snic.spent[i] == 0 && s.snic.local[i] < TWO32
  {
    CountersFit(s, i);
    assert Alone(s.snic, i);
  }

  /** No step of a worker or the manager is ever barred, and a worker past its test goes on. */
  lemma SnicIsNeverStuck(s: Sys, i: nat, k: nat)
    requires Inv(s) && i < |s.snic.local| && 1 <= k <= 4
    ensures Enabled(s, ManagerStep) && Enabled(s, WorkerStep(i, k))
    ensures s.snic.phase[i] != Waiting ==>
              Apply(s, WorkerStep(i, k)).snic.phase[i] ==
              match s.snic.phase[i]
              case Holding => Posted
              case Posted => Subtracting(s.snic.local[i])
              case _ => Waiting
  {
  }

  // ---- A credit's way

  /** Spending takes one credit from the cache into the device. */
  lemma SpendGoes(s: Sys, p: nat, t: PortType) returns (s': Sys)
    requires Inv(s) && p < |s.look| && s.cached.At(t)[p] > 0 && s.made.At(t)[PoolIndex(s, p, t)]
    ensures Enabled(s, PortStep(p, Spend(t))) && s' == Apply(s, PortStep(p, Spend(t))) && Inv(s')
    ensures s' == s.(cached := s.cached.With(t, s.cached.At(t)[p := s.cached.At(t)[p] - 1]),
                     inflight := s.inflight.With(t, s.inflight.At(t) + 1))
  {
    CreditsInReach(s, p, t);
    s' := Apply(s, PortStep(p, Spend(t)));
    PortKeeps(s, p, Spend(t));
    assert s.look[p := s.look[p]] == s.look;
  }

  /** A delivery takes it into a CQ. */
  lemma DeliverGoes(s: Sys, q: nat, t: PortType) returns (s': Sys)
    requires Inv(s) && q < |s.look| && s.inflight.At(t) > 0
    ensures Enabled(s, Deliver(q, t)) && s' == Apply(s, Deliver(q, t)) && Inv(s')
    ensures s' == s.(inflight := s.inflight.With(t, s.inflight.At(t) - 1),
                     incoming := s.incoming.With(t, s.incoming.At(t)[q := s.incoming.At(t)[q] + 1]))
  {
    s' := Apply(s, Deliver(q, t));
    DeliverKeeps(s, q, t);
  }

  /** A receive takes it from there into the cache. */
  lemma CollectGoes(s: Sys, q: nat, t: PortType) returns (s': Sys)
    requires Inv(s) && q < |s.look| && s.incoming.At(t)[q] > 0 && s.made.At(t)[PoolIndex(s, q, t)]
    ensures Enabled(s, PortStep(q, Collect(t, 1))) && s' == Apply(s, PortStep(q, Collect(t, 1)))
    ensures s' == s.(cached := s.cached.With(t, s.cached.At(t)[q := s.cached.At(t)[q] + 1]),
                     incoming := s.incoming.With(t, s.incoming.At(t)[q := s.incoming.At(t)[q] - 1]))
  {
    CreditsInReach(s, q, t);
    s' := Apply(s, PortStep(q, Collect(t, 1)));
    assert s.look[q := s.look[q]] == s.look;
  }

  lemma UpAndDown(n: seq<nat>, q: nat)
    requires q < |n|
    ensures n[q := n[q] + 1][q := n[q]] == n
  {
  }

  /** A cached credit that is spent can come back to any port, and then everything else is as it was. */
  lemma ACreditGoesRound(s: Sys, p: nat, q: nat, t: PortType) returns (spent: Sys, delivered: Sys, collected: Sys)
    requires Inv(s) && p < |s.look| && q < |s.look| && s.cached.At(t)[p] > 0
    requires s.made.At(t)[PoolIndex(s, p, t)] && s.made.At(t)[PoolIndex(s, q, t)]
    ensures Enabled(s, PortStep(p, Spend(t))) && spent == Apply(s, PortStep(p, Spend(t)))
    ensures Enabled(spent, Deliver(q, t)) && delivered == Apply(spent, Deliver(q, t))
    ensures Enabled(delivered, PortStep(q, Collect(t, 1))) && collected == Apply(delivered, PortStep(q, Collect(t, 1)))
    ensures var c := s.cached.At(t)[p := s.cached.At(t)[p] - 1];
            collected == s.(cached := s.cached.With(t, c[q := c[q] + 1]))
  {
    spent := SpendGoes(s, p, t);
    delivered := DeliverGoes(spent, q, t);
    collected := CollectGoes(delivered, q, t);
    UpAndDown(s.incoming.At(t), q);
  }
}
