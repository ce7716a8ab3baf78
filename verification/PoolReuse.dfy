/**
 The inputs on which the credit system makes or loses credits: pool 0 given
 out a second time, after the manager's full-word swap has cleared its flag.
 */
module PoolReuse {
  import opened DlbTypes
  import opened CreditOps
  import opened RemoteAtomics
  import opened CreditSystem
  import opened CreditRuns

  /**
   The manager's later swaps write the whole word, so they clear pool 0's flag; the next pool created takes over the
   slot and the 128 credits left in it are gone.
   */
  lemma ReusedPoolLosesCredits(s: Sys, num: nat)
    requires Inv(s) && s.snic.mgr == Swap(Word0(s)) && num <= s.remainder.ldb
    ensures var s' := Apply(s, ManagerStep);
            && Inv(s') && Enabled(s', CreatePool(LDB, num))
            && Everywhere(Apply(s', CreatePool(LDB, num)), LDB) == s.total.ldb - 128
  {
    WordOfPool(s);
    ManagerKeeps(s);
    var s' := Apply(s, ManagerStep);
    LeaveBehindIsExact(Word0(s), Word0(s), 128);
    assert !s'.configured.At(LDB)[0];
    SumUpdate(s'.avail.ldb, 0, num);
  }

  /**
   A pool created in slot 0 between the manager's read and its swap changes the upper half under the manager. The
   swap then makes credits if and only if the new pool is given just the count the manager has read.
   */
  lemma ReuseUnderTheManager(s: Sys, seen: Word, num: nat)
    requires Inv(s) && s.snic.mgr == Swap(seen) && Hi(seen) == s.high && 128 < Lo(seen)
    requires !s.configured.ldb[0] && s.avail.ldb[0] == 0 && num <= s.remainder.ldb
    ensures Enabled(s, CreatePool(LDB, num))
    ensures var s' := Apply(Apply(s, CreatePool(LDB, num)), ManagerStep);
            Everywhere(s', LDB) == s.total.ldb + if num == Lo(seen) then Lo(seen) - 128 else 0
  {
    assert !s.configured.At(LDB)[0];
    CreateKeeps(s, LDB, num);
    var made := Apply(s, CreatePool(LDB, num));
    WordOfPool(made);
    assert Hi(seen) != made.high;
    if num == Lo(seen) {
      StaleGrabReports(made, seen);
      SnicHolds(made.snic, 0);
    } else {
      ManagerKeeps(made);
    }
  }

  // Both happen. A small domain: one load-balanced pool, one port, one worker, 9000 credits.

  function Small(avail: nat, high: nat, made: bool, remainder: nat, cached: nat, look: nat, mgr: Manager, local: nat,
                 global: nat): Sys {
    Sys(PerType(9000, 0), PerType(remainder, 0), PerType([avail], [0]), PerType([high % 256 != 0], [false]),
        PerType([made], [false]), high, PerType([cached], [0]), [look], [PerType(0, 0)], NONE, PerType([0], [0]),
        Snic([local], [0], [Waiting], global, mgr))
  }

  lemma Extend(states: seq<Sys>, steps: seq<Step>, st: Step, next: Sys) returns (states': seq<Sys>, steps': seq<Step>)
    requires Run(states, steps) && Next(states[|steps|], st, next)
    ensures states' == states + [next] && steps' == steps + [st] && Run(states', steps')
  {
    states', steps' := states + [next], steps + [st];
    forall i | 0 <= i < |steps'|
      ensures Next(states'[i], steps'[i], states'[i + 1])
    {
      if i < |steps| { assert Next(states[i], steps[i], states[i + 1]); }
    }
  }

  lemma One<T>(a: T, b: T)
    ensures [a][0 := b] == [b]
  {
  }

  lemma CreateSmall(avail: nat, high: nat, made: bool, remainder: nat, cached: nat, look: nat, mgr: Manager,
                    local: nat, global: nat, num: nat)
    requires high % 256 == 0 && high < TWO32 - 1 && num <= remainder
    ensures Next(Small(avail, high, made, remainder, cached, look, mgr, local, global), CreatePool(LDB, num),
                 Small(num, high + 1, true, remainder - num, cached, look, mgr, local, global))
  {
    var s := Small(avail, high, made, remainder, cached, look, mgr, local, global);
    assert !s.configured.At(LDB)[0];
    One(avail, num);
    One(false, true);
    One(made, true);
  }

  lemma FirstGrabSmall(avail: nat, remainder: nat, seen: Word)
    requires 8192 <= avail <= 9000 && seen == Join(avail, 1)
    ensures Next(Small(avail, 1, true, remainder, 0, 0, InitCas(0, seen), 0, 0), ManagerStep,
                 Small(avail - 8192, 1, true, remainder, 0, 0, InitStore(0, 8192), 0, 0))
  {
    TakeBatchIsExact(seen, seen, 8192);
    One(avail, avail - 8192);
    One(true, true);
  }

  /** The manager's grab leaves 128 and clears the flag. */
  lemma GrabSmall(avail: nat, high: nat, remainder: nat, cached: nat, look: nat)
    requires 128 <= avail <= 9000 && high <= 1
    ensures Next(Small(avail, high, true, remainder, cached, look, Swap(Join(avail, high)), 8192, 0), ManagerStep,
                 Small(128, 0, true, remainder, cached, look, Deal(0, avail - 128), 8192, avail - 128))
  {
    LeaveBehindIsExact(Join(avail, high), Join(avail, high), 128);
    One(avail, 128);
    One(high % 256 != 0, false);
  }

  /** A run that ends in the given state grows by one manager step. */
  lemma ManagerTo(states: seq<Sys>, steps: seq<Step>, now: Sys, next: Sys)
    returns (states': seq<Sys>, steps': seq<Step>)
    requires Run(states, steps) && states[|steps|] == now && Next(now, ManagerStep, next)
    ensures Run(states', steps') && |steps'| == |steps| + 1 && states'[0] == states[0]
    ensures states'[|steps|] == now && states'[|steps'|] == next
  {
    states', steps' := Extend(states, steps, ManagerStep, next);
  }

  lemma QuerySmall(avail: nat, high: nat, cached: nat, look: nat, remainder: nat)
    requires 128 <= avail <= 9000 && high <= 1
    ensures Next(Small(avail, high, true, remainder, cached, look, Query, 8192, 0), ManagerStep,
                 Small(avail, high, true, remainder, cached, look, Swap(Join(avail, high)), 8192, 0))
  {
  }

  /** The worker has credits enough, so the manager deals out nothing. */
  lemma DealSmall(avail: nat, high: nat, cached: nat, look: nat, remainder: nat, i: nat)
    requires i <= 1 && high < TWO32
    ensures Next(Small(avail, high, true, remainder, cached, look, Deal(i, 0), 8192, 0), ManagerStep,
                 Small(avail, high, true, remainder, cached, look, if i == 0 then Deal(1, 0) else Query, 8192, 0))
  {
  }

  lemma GrabEmpty()
    ensures Next(Small(0, 0, false, 9000, 0, 0, InitCas(0, Join(0, 0)), 0, 0), ManagerStep,
                 Small(TWO32 - 8192, TWO32 - 1, false, 9000, 0, 0, InitStore(0, 8192), 0, 0))
  {
    var w := Join(0, 0);
    assert Sub64(w, 8192) == Join(TWO32 - 8192, TWO32 - 1);
    TakeReports(w, w, 8192);
    One(0, TWO32 - 8192);
    One(false, true);
  }

  lemma ReadEmpty() returns (states: seq<Sys>, steps: seq<Step>)
    ensures Run(states, steps) && |steps| == 1 && states[0].total.ldb == 9000
    ensures states[1] == Small(0, 0, false, 9000, 0, 0, InitCas(0, Join(0, 0)), 0, 0)
  {
    states, steps := [Small(0, 0, false, 9000, 0, 0, InitQuery(0), 0, 0)], [];
    states, steps := ManagerTo(states, steps, Small(0, 0, false, 9000, 0, 0, InitQuery(0), 0, 0),
                               Small(0, 0, false, 9000, 0, 0, InitCas(0, Join(0, 0)), 0, 0));
  }

  lemma SmallSum(s: Sys, avail: nat, high: nat, mgr: Manager)
    requires s == Small(avail, high, false, 9000, 0, 0, mgr, 0, 0)
    ensures Everywhere(s, LDB) == 9000 + avail + InHand(mgr)
  {
    assert Sum([avail]) == avail && Sum([0]) == 0;
  }

  lemma GrabNothing() returns (states: seq<Sys>, steps: seq<Step>)
    ensures Run(states, steps) && |steps| == 2 && states[0].total.ldb == 9000
    ensures states[2] == Small(TWO32 - 8192, TWO32 - 1, false, 9000, 0, 0, InitStore(0, 8192), 0, 0)
  {
    states, steps := ReadEmpty();
    GrabEmpty();
    states, steps := ManagerTo(states, steps, Small(0, 0, false, 9000, 0, 0, InitCas(0, Join(0, 0)), 0, 0),
                               Small(TWO32 - 8192, TWO32 - 1, false, 9000, 0, 0, InitStore(0, 8192), 0, 0));
  }

  /** Without a pool, the manager's first grab takes 8192 from a count of 0: two steps make 2^32 credits. */
  lemma AGrabFromNothing() returns (states: seq<Sys>, steps: seq<Step>)
    ensures Run(states, steps) && |steps| == 2
    ensures states[0].total.ldb == 9000 && Everywhere(states[2], LDB) == 9000 + TWO32
  {
    states, steps := GrabNothing();
    SmallSum(states[2], TWO32 - 8192, TWO32 - 1, InitStore(0, 8192));
  }

  /** Create a pool of 8192 + extra credits; the manager reads it. */
  lemma BootRead(extra: nat) returns (states: seq<Sys>, steps: seq<Step>)
    requires 0 < extra <= 808
    ensures Run(states, steps) && |steps| == 2 && states[0].total.ldb == 9000
    ensures states[2] == Small(8192 + extra, 1, true, 808 - extra, 0, 0, InitCas(0, Join(8192 + extra, 1)), 0, 0)
  {
    states, steps := [Small(0, 0, false, 9000, 0, 0, InitQuery(0), 0, 0)], [];
    CreateSmall(0, 0, false, 9000, 0, 0, InitQuery(0), 0, 0, 8192 + extra);
    states, steps := Extend(states, steps, CreatePool(LDB, 8192 + extra),
                            Small(8192 + extra, 1, true, 808 - extra, 0, 0, InitQuery(0), 0, 0));
    states, steps := ManagerTo(states, steps, Small(8192 + extra, 1, true, 808 - extra, 0, 0, InitQuery(0), 0, 0),
                               Small(8192 + extra, 1, true, 808 - extra, 0, 0,
                                     InitCas(0, Join(8192 + extra, 1)), 0, 0));
  }

  /** It makes its one first grab. */
  lemma Boot(extra: nat) returns (states: seq<Sys>, steps: seq<Step>)
    requires 0 < extra <= 808
    ensures Run(states, steps) && |steps| == 5 && states[0].total.ldb == 9000
    ensures states[5] == Small(extra, 1, true, 808 - extra, 0, 0, Query, 8192, 0)
  {
    states, steps := BootRead(extra);
    var w, r := Join(8192 + extra, 1), 808 - extra;
    FirstGrabSmall(8192 + extra, r, w);
    states, steps := ManagerTo(states, steps, Small(8192 + extra, 1, true, r, 0, 0, InitCas(0, w), 0, 0),
                               Small(extra, 1, true, r, 0, 0, InitStore(0, 8192), 0, 0));
    StoreSmall(extra, r);
    states, steps := ManagerTo(states, steps, Small(extra, 1, true, r, 0, 0, InitStore(0, 8192), 0, 0),
                               Small(extra, 1, true, r, 0, 0, InitQuery(1), 8192, 0));
    states, steps := ManagerTo(states, steps, Small(extra, 1, true, r, 0, 0, InitQuery(1), 8192, 0),
                               Small(extra, 1, true, r, 0, 0, Query, 8192, 0));
  }

  lemma StoreSmall(avail: nat, remainder: nat)
    ensures Next(Small(avail, 1, true, remainder, 0, 0, InitStore(0, 8192), 0, 0), ManagerStep,
                 Small(avail, 1, true, remainder, 0, 0, InitQuery(1), 8192, 0))
    ensures Next(Small(avail, 1, true, remainder, 0, 0, InitQuery(1), 8192, 0), ManagerStep,
                 Small(avail, 1, true, remainder, 0, 0, Query, 8192, 0))
  {
    One(0, 8192);
  }

  /** The manager reads a pool of 128. */
  lemma ReadLast() returns (states: seq<Sys>, steps: seq<Step>)
    ensures Run(states, steps) && |steps| == 6 && states[0].total.ldb == 9000
    ensures states[6] == Small(128, 1, true, 680, 0, 0, Swap(Join(128, 1)), 8192, 0)
  {
    states, steps := Boot(128);
    QuerySmall(128, 1, 0, 0, 680);
    states, steps := ManagerTo(states, steps, Small(128, 1, true, 680, 0, 0, Query, 8192, 0),
                               Small(128, 1, true, 680, 0, 0, Swap(Join(128, 1)), 8192, 0));
  }

  /** Eight steps from a fresh domain to the loss of 128 credits. */
  lemma ARunThatLoses() returns (states: seq<Sys>, steps: seq<Step>)
    ensures Run(states, steps) && |steps| == 8
    ensures Shape(states[6]) && states[6].snic.mgr == Swap(Word0(states[6]))
    ensures states[0].total.ldb == 9000 && Everywhere(states[8], LDB) == 9000 - 128
  {
    states, steps := ReadLast();
    GrabSmall(128, 1, 680, 0, 0);
    states, steps := ManagerTo(states, steps, Small(128, 1, true, 680, 0, 0, Swap(Join(128, 1)), 8192, 0),
                               Small(128, 0, true, 680, 0, 0, Deal(0, 0), 8192, 0));
    CreateSmall(128, 0, true, 680, 0, 0, Deal(0, 0), 8192, 0, 0);
    states, steps := Extend(states, steps, CreatePool(LDB, 0), Small(0, 1, true, 680, 0, 0, Deal(0, 0), 8192, 0));
  }

  lemma TakeSmall(avail: nat, high: nat, cached: nat, look: nat, mgr: Manager)
    requires 32 <= avail && avail + cached <= 9000 && high < TWO32
    ensures var s := Small(avail, high, true, 648, cached, look, mgr, 8192, 0);
            var seen := Small(avail, high, true, 648, cached, avail, mgr, 8192, 0);
            && Next(s, PortStep(0, Look(LDB, avail)), seen)
            && Next(seen, PortStep(0, Cas(LDB, avail, true)),
                    Small(avail - 32, high, true, 648, cached + 32, avail, mgr, 8192, 0))
  {
    One(avail, avail - 32);
    One(cached, cached);
    One(cached, cached + 32);
    One(look, avail);
    One(avail, avail);
  }

  /** The port reads the pool and takes a batch. */
  lemma Take(states: seq<Sys>, steps: seq<Step>, avail: nat, high: nat, cached: nat, look: nat, mgr: Manager)
    returns (states': seq<Sys>, steps': seq<Step>)
    requires 32 <= avail && avail + cached <= 9000 && high < TWO32
    requires Run(states, steps) && states[|steps|] == Small(avail, high, true, 648, cached, look, mgr, 8192, 0)
    ensures Run(states', steps') && |steps'| == |steps| + 2 && states'[0] == states[0]
    ensures states'[|steps'|] == Small(avail - 32, high, true, 648, cached + 32, avail, mgr, 8192, 0)
  {
    TakeSmall(avail, high, cached, look, mgr);
    states', steps' := Extend(states, steps, PortStep(0, Look(LDB, avail)),
                              Small(avail, high, true, 648, cached, avail, mgr, 8192, 0));
    states', steps' := Extend(states', steps', PortStep(0, Cas(LDB, avail, true)),
                              Small(avail - 32, high, true, 648, cached + 32, avail, mgr, 8192, 0));
  }

  /** A swap that leaves 128 clears the flag of a pool of 128. */
  lemma ClearFlag() returns (states: seq<Sys>, steps: seq<Step>)
    ensures Run(states, steps) && |steps| == 9 && states[0].total.ldb == 9000
    ensures states[9] == Small(128, 0, true, 648, 32, 160, Deal(0, 0), 8192, 0)
  {
    states, steps := Boot(160);
    states, steps := Take(states, steps, 160, 1, 0, 0, Query);
    QuerySmall(128, 1, 32, 160, 648);
    states, steps := ManagerTo(states, steps, Small(128, 1, true, 648, 32, 160, Query, 8192, 0),
                               Small(128, 1, true, 648, 32, 160, Swap(Join(128, 1)), 8192, 0));
    GrabSmall(128, 1, 648, 32, 160);
    states, steps := ManagerTo(states, steps, Small(128, 1, true, 648, 32, 160, Swap(Join(128, 1)), 8192, 0),
                               Small(128, 0, true, 648, 32, 160, Deal(0, 0), 8192, 0));
  }

  /** Then the port's credits come back, and the manager reads 160. */
  lemma ReadAgain() returns (states: seq<Sys>, steps: seq<Step>)
    ensures Run(states, steps) && |steps| == 13 && states[0].total.ldb == 9000
    ensures states[13] == Small(160, 0, true, 648, 0, 160, Swap(Join(160, 0)), 8192, 0)
  {
    states, steps := ClearFlag();
    DealSmall(128, 0, 32, 160, 648, 0);
    states, steps := ManagerTo(states, steps, Small(128, 0, true, 648, 32, 160, Deal(0, 0), 8192, 0),
                               Small(128, 0, true, 648, 32, 160, Deal(1, 0), 8192, 0));
    DealSmall(128, 0, 32, 160, 648, 1);
    states, steps := ManagerTo(states, steps, Small(128, 0, true, 648, 32, 160, Deal(1, 0), 8192, 0),
                               Small(128, 0, true, 648, 32, 160, Query, 8192, 0));
    GiveSmall();
    states, steps := Extend(states, steps, PortStep(0, Give(LDB, 32)),
                            Small(160, 0, true, 648, 0, 160, Query, 8192, 0));
    QuerySmall(160, 0, 0, 160, 648);
    states, steps := ManagerTo(states, steps, Small(160, 0, true, 648, 0, 160, Query, 8192, 0),
                               Small(160, 0, true, 648, 0, 160, Swap(Join(160, 0)), 8192, 0));
  }

  lemma GiveSmall()
    ensures Next(Small(128, 0, true, 648, 32, 160, Query, 8192, 0), PortStep(0, Give(LDB, 32)),
                 Small(160, 0, true, 648, 0, 160, Query, 8192, 0))
  {
    One(128, 160);
    One(32, 0);
    One(160, 160);
  }

  /** The port takes them all, and a new pool of 160 is created in the slot. */
  lemma ReuseSlot() returns (states: seq<Sys>, steps: seq<Step>)
    ensures Run(states, steps) && |steps| == 24 && states[0].total.ldb == 9000
    ensures states[24] == Small(160, 1, true, 488, 160, 32, Swap(Join(160, 0)), 8192, 0)
  {
    states, steps := ReadAgain();
    var m := Swap(Join(160, 0));
    states, steps := Take(states, steps, 160, 0, 0, 160, m);
    states, steps := Take(states, steps, 128, 0, 32, 160, m);
    states, steps := Take(states, steps, 96, 0, 64, 128, m);
    states, steps := Take(states, steps, 64, 0, 96, 96, m);
    states, steps := Take(states, steps, 32, 0, 128, 64, m);
    CreateSmall(0, 0, true, 648, 160, 32, m, 8192, 0, 160);
    states, steps := Extend(states, steps, CreatePool(LDB, 160), Small(160, 1, true, 488, 160, 32, m, 8192, 0));
  }

  /** Twenty-five steps from a fresh domain to 32 credits that were never there. */
  lemma ARunThatMints() returns (states: seq<Sys>, steps: seq<Step>)
    ensures Run(states, steps) && |steps| == 25
    ensures states[0].total.ldb == 9000 && Everywhere(states[25], LDB) == 9000 + 32
  {
    states, steps := ReuseSlot();
    var w := Join(160, 0);
    SubtractHalves(w, 128);
    One(160, 160);
    One(true, true);
    states, steps := Extend(states, steps, ManagerStep,
                            Small(160, 1, true, 488, 160, 32, Deal(0, 32), 8192, 32));
  }
}
