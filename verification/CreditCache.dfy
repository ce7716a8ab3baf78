/**
 The credit side of a port: its cached credits, their return to the pools and
 their refill, with other agents moving pool credits between any two accesses.
 */
module CreditCaches {
  import opened DlbTypes
  import opened CreditOps

  /**
   The avail_credits words of the pools a port is attached to, the credits of those pools that are with other ports,
   in flight or on the SmartNIC, and the credits handed to those pools.
   */
  class Pools {
    var avail: PerType<nat>
    var elsewhere: PerType<nat>
    const total: PerType<nat>

    constructor (avail: PerType<nat>, elsewhere: PerType<nat>)
      ensures this.avail == avail && this.elsewhere == elsewhere
      ensures total == PerType(avail.ldb + elsewhere.ldb, avail.dir + elsewhere.dir)
    {
      this.avail, this.elsewhere := avail, elsewhere;
      total := PerType(avail.ldb + elsewhere.ldb, avail.dir + elsewhere.dir);
    }
  }

  /** No credit is lost, none is made, and there are too few for a counter to wrap. */
  predicate AddUp(avail: nat, elsewhere: nat, unused: nat, incoming: nat, total: nat) {
    avail + elsewhere + unused + incoming == total < 0x1_0000
  }

  /** What a 16-bit counter shows of `unused` and `used` credits, as long as at most 2^16 are used. */
  predicate Shown(num: nat, unused: nat, used: nat) {
    used <= 0x1_0000 && num == if unused + used < 0x1_0000 then unused + used else unused + used - 0x1_0000
  }

  class CreditCache {
    const is25: bool
    const pools: Pools
    var quiet: bool                      // at present no other agent uses the pools

    var credits: PerType<nat>            // credits[].num, with the credits used by the call in progress
    var counts: Counts                   // credit_return_count[]

    // Credits of events the device has put in this port's CQ and that are not collected yet
    ghost var incoming: PerType<nat>
    // Every credit operation of this port, oldest first, and what it made of the cache
    ghost var trace: Trace

    constructor (is25: bool, pools: Pools, quiet: bool)
      requires pools.total.ldb < 0x1_0000 && pools.total.dir < 0x1_0000 && (is25 ==> pools.total.dir == 0)
      requires pools.avail.ldb + pools.elsewhere.ldb == pools.total.ldb
      requires pools.avail.dir + pools.elsewhere.dir == pools.total.dir
      ensures Valid() && this.is25 == is25 && this.pools == pools && this.quiet == quiet
      ensures credits == NONE && incoming == NONE && trace.log == []
    {
      this.is25, this.pools, this.quiet := is25, pools, quiet;
      credits, counts := NONE, NO_COUNTS;
      incoming, trace := NONE, Trace([], [IDLE]);
    }

    /** Cached credits not used by the call in progress: what the operations so far have left in the cache. */
    ghost function Unused(): PerType<nat>
      requires trace.locals != []
      reads this`trace
    {
      trace.Now().cached
    }

    /** Between two accesses of a call that has used so many credits; every change was a legal operation. */
    ghost predicate Sound(used: PerType<nat>)
      reads this, pools
    {
      && trace.Legal()
      && Shown(credits.ldb, Unused().ldb, used.ldb) && Shown(credits.dir, Unused().dir, used.dir)
      && AddUp(pools.avail.ldb, pools.elsewhere.ldb, Unused().ldb, incoming.ldb, pools.total.ldb)
      && AddUp(pools.avail.dir, pools.elsewhere.dir, Unused().dir, incoming.dir, pools.total.dir)
      && (quiet ==> used.ldb <= pools.elsewhere.ldb && used.dir <= pools.elsewhere.dir)
      && (is25 ==> pools.total.dir == 0)
      && CountsOk(counts)
    }

    /** Between calls the counter is what the cache holds. */
    ghost predicate Valid()
      reads this, pools
      ensures Valid() ==> trace.locals != [] && credits == Unused()
    {
      Sound(NONE)
    }

    /** Credits within reach of this port: cached and in its pools. */
    ghost function Within(): PerType<nat>
      reads this, pools
    {
      PerType(credits.ldb + pools.avail.ldb, credits.dir + pools.avail.dir)
    }

    function Cached(): Cache
      reads this
    {
      Cache(credits, counts)
    }

    ghost function View(): Local
      requires |trace.locals| > 0
      reads this
    {
      trace.Now()
    }

    ghost method Record(op: PortOp)
      requires trace.Legal() && LocalLegal(View(), op)
      modifies this`trace
      ensures trace.log == old(trace.log) + [op]
      ensures trace.Legal() && View() == LocalStep(old(View()), op)
    {
      StaysLegal(trace, op);
      trace := trace.Extended(op);
    }

    /** Any steps of other ports and of the SmartNIC on the pool words. */
    method Interfere(ghost used: PerType<nat>)
      requires Sound(used)
      modifies pools
      ensures Sound(used)
      ensures quiet ==> pools.avail == old(pools.avail)
    {
      if !quiet {
        var ldb, dir := pools.avail.ldb + pools.elsewhere.ldb, pools.avail.dir + pools.elsewhere.dir;
        var avail: PerType<nat> :| avail.ldb <= ldb && avail.dir <= dir;
        pools.avail, pools.elsewhere := avail, PerType(ldb - avail.ldb, dir - avail.dir);
      }
    }

    /** Fetch-and-add cached credits into the pool. */
    method GiveBack(t: PortType, val: nat)
      requires Valid() && 0 < val <= credits.At(t)
      modifies this`credits, this`trace, pools
      ensures Valid() && credits == old(credits).With(t, old(credits).At(t) - val)
      ensures quiet ==> Within() == old(Within())
    {
      Interfere(NONE);
      pools.avail := pools.avail.With(t, W32(pools.avail.At(t) + val));
      credits := credits.With(t, W16(credits.At(t) - val));
      Record(Give(t, val));
    }

    /** One pass of the loop of dlb2_check_and_release_credits() over the port types. */
    method ReleaseOne(rule: Rule, cond: bool, t: PortType) returns (waiting: bool)
      requires Valid() && (is25 ==> t == LDB)
      modifies this`credits, this`trace, pools
      ensures Valid()
      ensures credits == old(credits).With(t, Kept(rule, cond, is25, old(Cached()), t))
      ensures waiting == (Exceeds(rule, cond, is25, old(credits), t) && counts.At(rule) < CountThreshold(rule))
      ensures quiet ==> Within() == old(Within())
    {
      waiting := false;
      if cond && credits.At(t) > CreditThreshold(rule) {
        if counts.At(rule) >= CountThreshold(rule) {
          var val := credits.At(t) - Remaining(rule);
          if val <= 0 { return; }
          GiveBack(t, val);
        } else {
          waiting := true;
        }
      }
    }

    /** The loop of dlb2_check_and_release_credits(); `reset` is its cnt_reset. */
    method ReleaseTypes(rule: Rule, cond: bool) returns (reset: bool)
      requires Valid()
      modifies this`credits, this`trace, pools
      ensures Valid()
      ensures credits == AfterRule(rule, cond, is25, old(Cached())).credits
      ensures reset <==> !Waits(rule, cond, is25, old(Cached()))
      ensures quiet ==> Within() == old(Within())
    {
      reset := true;
      var waiting := ReleaseOne(rule, cond, LDB);
      if waiting { reset := false; }
      if !is25 {
        waiting := ReleaseOne(rule, cond, DIR);
        if waiting { reset := false; }
      }
    }

    /** dlb2_check_and_release_credits(). */
    method CheckAndRelease(rule: Rule, cond: bool)
      requires Valid()
      modifies this`credits, this`counts, this`trace, pools
      ensures Valid()
      ensures Cached() == AfterRule(rule, cond, is25, old(Cached()))
      ensures quiet ==> Within() == old(Within())
    {
      var reset := ReleaseTypes(rule, cond);
      if CountThreshold(rule) != 0 {
        counts := counts.With(rule, if reset then 0 else W16(counts.At(rule) + 1));
      }
    }

    /** dlb2_release_port_credits(), on every exit from a send that returns `count`. */
    method ReleaseAfterSend(count: int)
      requires Valid()
      modifies this`credits, this`counts, this`trace, pools
      ensures Valid()
      ensures Cached() == AfterSend(is25, old(Cached()), count)
      ensures count != 0 ==> credits.ldb == if old(credits.ldb) > 64 then 32 else old(credits.ldb)
      ensures count != 0 && !is25 ==> credits.dir == if old(credits.dir) > 64 then 32 else old(credits.dir)
      ensures credits.ldb <= 64 && credits.dir <= 64
      ensures quiet ==> Within() == old(Within())
    {
      CheckAndRelease(Batch2Exceed, true);
      CheckAndRelease(EnqFail, count == 0);
    }

    /** The volatile read of a pool word. */
    method ReadPool(t: PortType, ghost used: PerType<nat>) returns (seen: nat)
      requires Sound(used)
      modifies this`trace, pools
      ensures Sound(used) && View().look == seen && Unused() == old(Unused())
      ensures quiet ==> pools.avail == old(pools.avail) && seen == pools.avail.At(t)
    {
      Interfere(used);
      seen := pools.avail.At(t);
      Record(Look(t, seen));
    }

    /** Compare-and-swap a batch out of the pool and, if it took effect, into the cache. */
    method SwapIn(t: PortType, seen: nat, batch: nat, ghost used: PerType<nat>) returns (ghost got: nat)
      requires Sound(used) && View().look == seen && 0 < seen && batch == Min(BATCH, seen)
      requires Unused().At(t) == 0
      requires quiet ==> seen == pools.avail.At(t)
      modifies this`credits, this`trace, pools
      ensures Sound(used) && (got == 0 || got == batch)
      ensures Unused() == old(Unused()).With(t, got)
      ensures got == 0 ==> credits == old(credits)
      ensures quiet ==> got > 0
      ensures quiet ==> Within() == old(Within())
    {
      Interfere(used);
      got := 0;
      var taken := pools.avail.At(t) == seen;
      if taken {
        got := batch;
        TakeBatch(t, batch, used);
      } else {
        Record(Cas(t, seen, false));
      }
    }

    /** The swap that takes effect. */
    method TakeBatch(t: PortType, batch: nat, ghost used: PerType<nat>)
      requires Sound(used) && Unused().At(t) == 0
      requires View().look == pools.avail.At(t) > 0 && batch == Min(BATCH, pools.avail.At(t))
      modifies this`credits, this`trace, pools
      ensures Sound(used) && Unused() == old(Unused()).With(t, batch)
      ensures quiet ==> Within() == old(Within())
    {
      Record(Cas(t, pools.avail.At(t), true));
      pools.avail := pools.avail.With(t, pools.avail.At(t) - batch);
      credits := credits.With(t, W16(credits.At(t) + batch));
    }

    /** dlb2_refresh_port_credits(): read the pool, then compare-and-swap a batch out of it. */
    method Refresh(t: PortType, ghost used: PerType<nat>) returns (ghost got: nat)
      requires Sound(used) && Unused().At(t) == 0
      modifies this`credits, this`trace, pools
      ensures Sound(used) && got <= BATCH
      ensures Unused() == old(Unused()).With(t, got)
      ensures got == 0 ==> credits == old(credits)
      ensures quiet ==> Within() == old(Within())
      ensures quiet && got == 0 ==> pools.avail.At(t) == 0
    {
      var seen := ReadPool(t, used);
      var batch := if seen < BATCH then seen else BATCH;
      got := 0;
      if seen != 0 {
        got := SwapIn(t, seen, batch, used);
      }
    }

    /** The tally of the call in progress for a type. */
    ghost function TallyOf(t: PortType, used: PerType<nat>): Tally
      requires trace.locals != []
      reads this`trace
    {
      Tally(used.At(t), used.At(t) + Unused().At(t))
    }

    /** The check itself: refill when the counter is the number of credits used, and look again. */
    method CheckCredit(t: PortType, usedT: nat, ghost used: PerType<nat>) returns (ok: bool, ghost got: nat)
      requires Sound(used) && used.At(t) == usedT
      modifies this`credits, this`trace, pools
      ensures Sound(used) && got <= BATCH
      ensures TallyOf(t, used) == Checked(old(TallyOf(t, used)), got)
      ensures ok <==> Passes(TallyOf(t, used))
      ensures !ok || old(credits.At(t)) != usedT ==> credits == old(credits)
      ensures !ok ==> credits.At(t) == usedT && (quiet ==> pools.avail.At(t) == 0)
      ensures quiet ==> Within() == old(Within())
    {
      TestIsExact(TallyOf(t, used));
      got := 0;
      if credits.At(t) == usedT {
        got := Refresh(t, used);
      }
      ok := credits.At(t) != usedT;
    }

    /**
     The send loops' credit check. Used credits leave the counter only when the call ends, but as long as fewer than
     2^16 are used the check passes exactly when a credit is left.
     */
    method EnsureCredit(t: PortType, usedT: nat, ghost used: PerType<nat>) returns (ok: bool)
      requires Sound(used) && used.At(t) == usedT < 0x1_0000
      modifies this`credits, this`trace, pools
      ensures Sound(used)
      ensures ok <==> 0 < Unused().At(t)
      ensures !ok || old(credits.At(t)) != usedT ==> credits == old(credits)
      ensures !ok ==> credits.At(t) == usedT && (quiet ==> pools.avail.At(t) == 0)
      ensures quiet ==> Within() == old(Within())
    {
      ghost var got;
      ok, got := CheckCredit(t, usedT, used);
      TestIsExact(TallyOf(t, used));
    }

    /** Charge one more QE of the call in progress. */
    method Charge(t: PortType, ghost used: PerType<nat>)
      requires Sound(used) && 0 < Unused().At(t) && used.At(t) < 0x1_0000
      modifies this`trace, pools`elsewhere
      ensures Sound(used.With(t, used.At(t) + 1))
    {
      Record(Spend(t));
      pools.elsewhere := pools.elsewhere.With(t, pools.elsewhere.At(t) + 1);
    }

    /** The end of a send: the credits it used leave the counter, which is then what the cache holds again. */
    method Settle(used: PerType<nat>)
      requires Sound(used)
      modifies this`credits
      ensures Valid() && credits == old(Unused())
      ensures quiet ==> Within() == PerType(old(Within()).ldb - used.ldb, old(Within()).dir - used.dir)
    {
      credits := PerType(W16(credits.ldb - used.ldb), W16(credits.dir - used.dir));
    }

    /** The device puts an event with its credit in the CQ. */
    method Announce(t: PortType)
      requires Valid() && 0 < pools.elsewhere.At(t)
      modifies this`incoming, pools`elsewhere
      ensures Valid() && incoming == old(incoming).With(t, old(incoming).At(t) + 1)
    {
      pools.elsewhere := pools.elsewhere.With(t, pools.elsewhere.At(t) - 1);
      incoming := incoming.With(t, incoming.At(t) + 1);
    }

    /** dlb2_inc_port_credits(): n events were received. */
    method CollectCredits(t: PortType, n: nat)
      requires Valid() && n <= incoming.At(t)
      modifies this`credits, this`incoming, this`trace
      ensures Valid() && credits == old(credits).With(t, old(credits).At(t) + n)
      ensures incoming == old(incoming).With(t, old(incoming).At(t) - n)
    {
      assert credits.At(t) + n < 0x1_0000;
      Record(Collect(t, n));
      credits := credits.With(t, W16(credits.At(t) + n));
      incoming := incoming.With(t, incoming.At(t) - n);
    }
  }
}
