/**
 The atomic credit operations of one port, and the five rules by which a port
 hands cached credits back to its pools.
 */
module CreditOps {
  import opened DlbTypes

  const BATCH: nat := 32   // DLB_SW_CREDIT_BATCH_SZ

  /** Every access a port makes to credits, in the order it makes them. */
  datatype PortOp =
    | Look(t: PortType, seen: nat)                    // volatile read of the pool word
    | Cas(t: PortType, seen: nat, taken: bool)        // compare `seen`, take up to BATCH
    | Give(t: PortType, n: nat)                       // fetch-and-add into the pool
    | Spend(t: PortType)                              // a QE is charged one credit
    | Collect(t: PortType, n: nat)                    // received events bring their credits

  /** What a port holds privately: cached credits and the last pool value it read. */
  datatype Local = Local(cached: PerType<nat>, look: nat)

  const IDLE := Local(NONE, 0)

  predicate LocalLegal(l: Local, op: PortOp) {
    match op
    case Look(_, _) => true
    case Cas(_, seen, _) => seen == l.look && seen > 0
    case Give(t, n) => 0 < n <= l.cached.At(t)
    case Spend(t) => 1 <= l.cached.At(t)
    case Collect(_, _) => true
  }

  function LocalStep(l: Local, op: PortOp): Local
    requires LocalLegal(l, op)
  {
    match op
    case Look(_, seen) => l.(look := seen)
    case Cas(t, seen, taken) =>
      if taken then l.(cached := l.cached.With(t, l.cached.At(t) + Min(BATCH, seen))) else l
    case Give(t, n) => l.(cached := l.cached.With(t, l.cached.At(t) - n))
    case Spend(t) => l.(cached := l.cached.With(t, l.cached.At(t) - 1))
    case Collect(t, n) => l.(cached := l.cached.With(t, l.cached.At(t) + n))
  }

  /** The port's private state after `log`, or None if some operation used credits it did not hold. */
  function Replay(log: seq<PortOp>): Option<Local> {
    if log == [] then Some(IDLE)
    else
      match Replay(log[..|log| - 1])
      case None => None
      case Some(l) =>
        if LocalLegal(l, log[|log| - 1]) then Some(LocalStep(l, log[|log| - 1])) else None
  }

  lemma ReplayMore(log: seq<PortOp>, op: PortOp)
    requires Replay(log).Some? && LocalLegal(Replay(log).value, op)
    ensures Replay(log + [op]) == Some(LocalStep(Replay(log).value, op))
  {
    assert (log + [op])[..|log|] == log;
  }

  /** A log with the private states the port goes through, one before and one after each operation. */
  datatype Trace = Trace(log: seq<PortOp>, locals: seq<Local>) {
    ghost predicate Legal() {
      && |locals| == |log| + 1 && locals[0] == IDLE
      && forall i {:trigger log[i]} | 0 <= i < |log| ::
           LocalLegal(locals[i], log[i]) && locals[i + 1] == LocalStep(locals[i], log[i])
    }

    ghost function Now(): Local
      requires |locals| > 0
    {
      locals[|locals| - 1]
    }

    ghost function Extended(op: PortOp): Trace
      requires |locals| > 0 && LocalLegal(Now(), op)
    {
      Trace(log + [op], locals + [LocalStep(Now(), op)])
    }
  }

  lemma StaysLegal(t: Trace, op: PortOp)
    requires t.Legal() && LocalLegal(t.Now(), op)
    ensures t.Extended(op).Legal()
  {
    var t' := t.Extended(op);
    forall i {:trigger t'.log[i]} | 0 <= i < |t'.log|
      ensures LocalLegal(t'.locals[i], t'.log[i]) && t'.locals[i + 1] == LocalStep(t'.locals[i], t'.log[i])
    {
      if i < |t.log| { assert t'.log[i] == t.log[i] && t'.locals[i + 1] == t.locals[i + 1]; }
    }
  }

  /** Going through these states and replaying the log are the same. */
  lemma {:induction false} TraceIsReplay(t: Trace, n: nat)
    requires t.Legal() && n <= |t.log|
    ensures Replay(t.log[..n]) == Some(t.locals[n])
  {
    if n == 0 {
      assert t.log[..0] == [];
    } else {
      TraceIsReplay(t, n - 1);
      ReplayMore(t.log[..n - 1], t.log[n - 1]);
      assert t.log[..n] == t.log[..n - 1] + [t.log[n - 1]];
    }
  }

  // dlb_credit_return_t credit_return[]

  datatype Rule = ZeroDeq | EnqFail | BatchExceed | Batch2Exceed | ReturnAll

  function CreditThreshold(r: Rule): nat {
    match r case BatchExceed => BATCH case Batch2Exceed => 2 * BATCH case _ => 0
  }

  function Remaining(r: Rule): nat {
    match r case BatchExceed => BATCH case Batch2Exceed => BATCH case _ => 0
  }

  function CountThreshold(r: Rule): nat {
    match r case ZeroDeq => 64 case EnqFail => 100 case BatchExceed => 64 case _ => 0
  }

  /** credit_return_count[]: how often in a row each rule has held. */
  datatype Counts = Counts(zeroDeq: nat, enqFail: nat, batch: nat, batch2: nat, all: nat) {
    function At(r: Rule): nat {
      match r
      case ZeroDeq => zeroDeq
      case EnqFail => enqFail
      case BatchExceed => batch
      case Batch2Exceed => batch2
      case ReturnAll => all
    }

    function With(r: Rule, v: nat): Counts {
      match r
      case ZeroDeq => this.(zeroDeq := v)
      case EnqFail => this.(enqFail := v)
      case BatchExceed => this.(batch := v)
      case Batch2Exceed => this.(batch2 := v)
      case ReturnAll => this.(all := v)
    }
  }

  const NO_COUNTS: Counts := Counts(0, 0, 0, 0, 0)

  /** The credit cache of a port with its consecutive-hit counters. */
  datatype Cache = Cache(credits: PerType<nat>, counts: Counts)

  predicate CountsOk(c: Counts) {
    c.zeroDeq <= 64 && c.enqFail <= 100 && c.batch <= 64 && c.batch2 == 0 && c.all == 0
  }

  /** The rule's credit condition holds for this type. */
  predicate Exceeds(r: Rule, cond: bool, is25: bool, c: PerType<nat>, t: PortType) {
    cond && !(is25 && t.DIR?) && c.At(t) > CreditThreshold(r)
  }

  function Kept(r: Rule, cond: bool, is25: bool, c: Cache, t: PortType): nat
  {
    if Exceeds(r, cond, is25, c.credits, t) && c.counts.At(r) >= CountThreshold(r)
    then Remaining(r) else c.credits.At(t)
  }

  /** Some type exceeds the threshold but the rule has not held often enough yet. */
  predicate Waits(r: Rule, cond: bool, is25: bool, c: Cache)
  {
    && c.counts.At(r) < CountThreshold(r)
    && (Exceeds(r, cond, is25, c.credits, LDB) || Exceeds(r, cond, is25, c.credits, DIR))
  }

  /** dlb2_check_and_release_credits() as a function of the cache. */
  function AfterRule(r: Rule, cond: bool, is25: bool, c: Cache): (c': Cache)
    requires CountsOk(c.counts)
    ensures CountsOk(c'.counts)
    ensures c'.credits.ldb <= c.credits.ldb && c'.credits.dir <= c.credits.dir
  {
    Cache(PerType(Kept(r, cond, is25, c, LDB), Kept(r, cond, is25, c, DIR)),
          if CountThreshold(r) == 0 then c.counts
          else c.counts.With(r, if Waits(r, cond, is25, c) then c.counts.At(r) + 1 else 0))
  }

  // Starvation avoidance.

  /** A call that achieves nothing: the batch rule on entry or exit, then the idle rule. */
  function IdleCall(batch: Rule, idle: Rule, is25: bool, c: Cache): Cache
    requires CountsOk(c.counts)
  {
    AfterRule(idle, true, is25, AfterRule(batch, true, is25, c))
  }

  /** A receive that neither waits nor finds an event. */
  function EmptyReceive(is25: bool, c: Cache): (c': Cache)
    requires CountsOk(c.counts)
    ensures CountsOk(c'.counts)
  {
    IdleCall(BatchExceed, ZeroDeq, is25, c)
  }

  /** The rules at the end of a send of `count` events. */
  function AfterSend(is25: bool, c: Cache, count: int): (c': Cache)
    requires CountsOk(c.counts)
    ensures CountsOk(c'.counts)
  {
    AfterRule(EnqFail, count == 0, is25, AfterRule(Batch2Exceed, true, is25, c))
  }

  /** A send that enqueues nothing. */
  function FruitlessSend(is25: bool, c: Cache): (c': Cache)
    requires CountsOk(c.counts)
    ensures CountsOk(c'.counts)
  {
    IdleCall(Batch2Exceed, EnqFail, is25, c)
  }

  function IdleCalls(n: nat, batch: Rule, idle: Rule, is25: bool, c: Cache): (c': Cache)
    requires CountsOk(c.counts)
    ensures CountsOk(c'.counts)
  {
    if n == 0 then c else IdleCall(batch, idle, is25, IdleCalls(n - 1, batch, idle, is25, c))
  }

  predicate Drained(is25: bool, c: Cache) { c.credits.ldb == 0 && (is25 || c.credits.dir == 0) }

  predicate IdlePair(batch: Rule, idle: Rule) {
    (batch == BatchExceed && idle == ZeroDeq) || (batch == Batch2Exceed && idle == EnqFail)
  }

  /** No credit has come into the cache, and the idle rule's counter is as it was. */
  predicate Eased(idle: Rule, c: Cache, c': Cache)
  {
    && c'.credits.ldb <= c.credits.ldb && c'.credits.dir <= c.credits.dir
    && c'.counts.At(idle) == c.counts.At(idle)
  }

  /** No credit has come in either, and now the cache is drained or the counter has moved on. */
  predicate Progressed(idle: Rule, is25: bool, c: Cache, c': Cache)
  {
    && c'.credits.ldb <= c.credits.ldb && c'.credits.dir <= c.credits.dir
    && (Drained(is25, c') || c'.counts.At(idle) > c.counts.At(idle))
  }

  /** Whatever other rules a call applies first, the idle rule at its end makes progress. */
  lemma IdleRuleProgresses(idle: Rule, is25: bool, c: Cache, eased: Cache)
    requires CountsOk(c.counts) && CountsOk(eased.counts) && Eased(idle, c, eased)
    requires idle == ZeroDeq || idle == EnqFail
    ensures Progressed(idle, is25, c, AfterRule(idle, true, is25, eased))
  {
  }

  /** A send of nothing. */
  lemma SendOfNothing(is25: bool, c: Cache)
    requires CountsOk(c.counts)
    ensures AfterSend(is25, c, 0) == FruitlessSend(is25, c)
  {
  }

  lemma EasedTwice(idle: Rule, c: Cache, c': Cache, c'': Cache)
    requires Eased(idle, c, c') && Eased(idle, c', c'')
    ensures Eased(idle, c, c'')
  {
  }

  /** A send that enqueues nothing is such a call. */
  lemma FruitlessSendProgresses(is25: bool, c: Cache)
    requires CountsOk(c.counts)
    ensures Progressed(EnqFail, is25, c, FruitlessSend(is25, c))
  {
    IdleRuleProgresses(EnqFail, is25, c, AfterRule(Batch2Exceed, true, is25, c));
  }

  /** Progress adds up: after more calls than the threshold nothing is cached. */
  predicate Drains(idle: Rule, is25: bool, calls: nat, c: Cache)
  {
    Drained(is25, c) || c.counts.At(idle) >= calls
  }

  lemma ProgressDrains(idle: Rule, is25: bool, calls: nat, c: Cache, c': Cache)
    requires CountsOk(c.counts) && CountsOk(c'.counts) && (idle == ZeroDeq || idle == EnqFail)
    requires Drains(idle, is25, calls, c) && Progressed(idle, is25, c, c')
    ensures Drains(idle, is25, calls + 1, c')
    ensures calls + 1 > CountThreshold(idle) ==> Drained(is25, c')
  {
  }

  // The credit check of a send, and how long a call it is right for.

  /**
   One credit type during a send: credits used, and credits the cache has held since the call began. The 16-bit
   counter shows W16(held), since used credits leave it only when the call ends; `used` is an int.
   */
  datatype Tally = Tally(used: nat, held: nat)

  /** No event went out without a credit, and the unused credits fit their counter. */
  predicate Paid(t: Tally) { t.used <= t.held < t.used + 0x1_0000 }

  /** The check passes when the counter is not the number of credits used. */
  predicate Passes(t: Tally) { W16(t.held) != t.used }

  /** A first check that fails asks for a refill, which brings `batch` credits. */
  function Checked(t: Tally, batch: nat): Tally {
    if Passes(t) then t else t.(held := t.held + batch)
  }

  /** A send of |batches| events: each is checked, with its batch if it comes to a refill, until one is refused. */
  function Loop(t: Tally, batches: seq<nat>): Tally
    decreases |batches|
  {
    if batches == [] then t
    else
      var c := Checked(t, batches[0]);
      if Passes(c) then Loop(c.(used := c.used + 1), batches[1..]) else c
  }

  predicate Refills(batches: seq<nat>) { forall k | 0 <= k < |batches| :: batches[k] <= BATCH }

  /** Up to event 2^16 the check passes exactly when a credit is left; behind it, always. */
  lemma TestIsExact(t: Tally)
    requires Paid(t)
    ensures t.used < 0x1_0000 ==> (Passes(t) <==> t.used < t.held)
    ensures t.used >= 0x1_0000 ==> Passes(t)
  {
  }

  /** A call of at most 2^16 events sends only what is paid for, and stops early only when no credit is left. */
  lemma {:induction false} ShortCallPays(t: Tally, batches: seq<nat>)
    requires Paid(t) && t.used + |batches| <= 0x1_0000 && Refills(batches)
    ensures var r := Loop(t, batches);
            && Paid(r) && r.used <= t.used + |batches|
            && (r.used < t.used + |batches| ==> r.used == r.held)
            && W16(W16(r.held) - r.used) == r.held - r.used
    decreases |batches|
  {
    if batches == [] {
      W16Restores(t.held - t.used, t.used);
    } else {
      TestIsExact(t);
      var c := Checked(t, batches[0]);
      TestIsExact(c);
      if Passes(c) {
        ShortCallPays(c.(used := c.used + 1), batches[1..]);
      } else {
        W16Restores(c.held - c.used, c.used);
      }
    }
  }

  /** Behind event 2^16 everything is sent: at 2^16 held and used the counter shows 0, which is not 2^16. */
  lemma {:induction false} LongCallOverdraws(t: Tally, batches: seq<nat>)
    requires t.used == 0x1_0000 == t.held || t.used > 0x1_0000
    ensures Loop(t, batches) == Tally(t.used + |batches|, t.held)
    decreases |batches|
  {
    if batches == [] {
    } else {
      LongCallOverdraws(t.(used := t.used + 1), batches[1..]);
    }
  }

  /** Refills of 32 get there. */
  lemma {:induction false} FullRefills(t: Tally, refills: nat, batches: seq<nat>)
    requires t.held == refills * 32 <= 0x1_0000 && t.used <= t.held < t.used + 32
    requires t.used + |batches| >= 0x1_0000 && forall k | 0 <= k < |batches| :: batches[k] == BATCH
    ensures Loop(t, batches) == Tally(t.used + |batches|, 0x1_0000)
    decreases |batches|
  {
    if t.used == 0x1_0000 {
      LongCallOverdraws(t, batches);
    } else {
      TestIsExact(t);
      var c := Checked(t, batches[0]);
      TestIsExact(c);
      FullRefills(c.(used := c.used + 1), if Passes(t) then refills else refills + 1, batches[1..]);
    }
  }

  /** Whatever the cache holds at the start and whatever refills bring, the call pays for all it sends. */
  ghost predicate AlwaysPays(num: nat) {
    forall held: nat, batches: seq<nat> {:trigger Loop(Tally(0, held), batches)} |
      held < 0x1_0000 && |batches| == num && Refills(batches) :: Paid(Loop(Tally(0, held), batches))
  }

  /** That is so if and only if it has at most 2^16 events. */
  lemma CallLengthMatters(num: nat)
    ensures AlwaysPays(num) <==> num <= 0x1_0000
  {
    if num <= 0x1_0000 {
      forall held: nat, batches: seq<nat> | held < 0x1_0000 && |batches| == num && Refills(batches)
        ensures Paid(Loop(Tally(0, held), batches))
      {
        ShortCallPays(Tally(0, held), batches);
      }
    } else {
      var batches: seq<nat> := seq(num, _ => BATCH);
      FullRefills(Tally(0, 0), 0, batches);
      assert !Paid(Loop(Tally(0, 0), batches));
    }
  }

  /** The failing input: of 65537 events on an empty cache, with refills of 32, one goes out without a credit. */
  lemma ACallThatOverdraws()
    ensures Loop(Tally(0, 0), seq(0x1_0001, _ => BATCH)) == Tally(0x1_0001, 0x1_0000)
  {
    FullRefills(Tally(0, 0), 0, seq(0x1_0001, _ => BATCH));
  }

  /** Each idle call either leaves the cache drained or moves the counter one closer to its threshold. */
  lemma {:induction false} IdleCallsProgress(n: nat, batch: Rule, idle: Rule, is25: bool, c: Cache)
    requires CountsOk(c.counts) && IdlePair(batch, idle)
    ensures var c' := IdleCalls(n, batch, idle, is25, c);
            Drained(is25, c') || c'.counts.At(idle) >= c.counts.At(idle) + n
  {
    if n == 0 {
    } else {
      IdleCallsProgress(n - 1, batch, idle, is25, c);
    }
  }

  /** After 65 consecutive empty receives, or 101 consecutive fruitless sends, a port caches no credits. */
  lemma IdleCallsDrain(n: nat, batch: Rule, idle: Rule, is25: bool, c: Cache)
    requires CountsOk(c.counts) && IdlePair(batch, idle)
    requires n > CountThreshold(idle)
    ensures Drained(is25, IdleCalls(n, batch, idle, is25, c))
  {
    IdleCallsProgress(n, batch, idle, is25, c);
  }

  /** The bound is exact: one call fewer can leave the credit where it was. */
  lemma {:induction false} DrainBoundIsTight(n: nat, batch: Rule, idle: Rule, is25: bool)
    requires IdlePair(batch, idle) && n <= CountThreshold(idle)
    ensures var c := Cache(PerType(1, 0), NO_COUNTS);
            CountsOk(c.counts)
            && IdleCalls(n, batch, idle, is25, c).credits == c.credits
            && IdleCalls(n, batch, idle, is25, c).counts.At(idle) == n
  {
    if n == 0 {
    } else {
      DrainBoundIsTight(n - 1, batch, idle, is25);
    }
  }

  // The five rules in numbers.

  /** After a send that enqueued something: more than 64 credits go back to 32, fewer stay. */
  lemma SendKeepsUpTo64(is25: bool, c: Cache, count: int)
    requires CountsOk(c.counts) && count != 0
    ensures var c' := AfterSend(is25, c, count);
            && c'.credits.ldb == (if c.credits.ldb > 64 then 32 else c.credits.ldb)
            && c'.credits.dir == (if c.credits.dir > 64 && !is25 then 32 else c.credits.dir)
            && c'.counts == c.counts.(enqFail := 0)
  {
    var eased := AfterRule(Batch2Exceed, true, is25, c);
    assert eased.counts == c.counts;
  }

  function Repeated(n: nat, rule: Rule, is25: bool, c: Cache): (c': Cache)
    requires CountsOk(c.counts)
    ensures CountsOk(c'.counts)
  {
    if n == 0 then c else AfterRule(rule, true, is25, Repeated(n - 1, rule, is25, c))
  }

  /** Receives leave more than 32 credits alone 64 times in a row; the next takes them back to 32. */
  lemma {:induction false} ReceivesKeep32(n: nat, ldb: nat, dir: nat, is25: bool)
    requires ldb > 32 && n <= 65
    ensures CountsOk(NO_COUNTS)
    ensures var c := Repeated(n, BatchExceed, is25, Cache(PerType(ldb, dir), NO_COUNTS));
            if n <= 64 then c.credits == PerType(ldb, dir) && c.counts == NO_COUNTS.(batch := n)
            else c.credits == PerType(32, if dir > 32 && !is25 then 32 else dir) && c.counts == NO_COUNTS
  {
    if n == 0 {
    } else {
      ReceivesKeep32(n - 1, ldb, dir, is25);
    }
  }

  /** Up to 32 idle credits stay through 64 empty receives and are gone after the next. */
  lemma {:induction false} IdleReceivesKeep(n: nat, ldb: nat, dir: nat, is25: bool)
    requires n <= 65 && ldb <= 32 && dir <= 32 && (ldb > 0 || (dir > 0 && !is25))
    ensures CountsOk(NO_COUNTS)
    ensures var c := IdleCalls(n, BatchExceed, ZeroDeq, is25, Cache(PerType(ldb, dir), NO_COUNTS));
            if n <= 64 then c == Cache(PerType(ldb, dir), NO_COUNTS.(zeroDeq := n))
            else c == Cache(PerType(0, if is25 then dir else 0), NO_COUNTS)
  {
    if n == 0 {
    } else {
      IdleReceivesKeep(n - 1, ldb, dir, is25);
      var c := IdleCalls(n - 1, BatchExceed, ZeroDeq, is25, Cache(PerType(ldb, dir), NO_COUNTS));
      assert AfterRule(BatchExceed, true, is25, c) == c;
    }
  }

  /** Up to 64 idle credits stay through 100 sends of nothing and are gone after the next. */
  lemma {:induction false} FruitlessSendsKeep(n: nat, ldb: nat, dir: nat, is25: bool)
    requires n <= 101 && ldb <= 64 && dir <= 64 && (ldb > 0 || (dir > 0 && !is25))
    ensures CountsOk(NO_COUNTS)
    ensures var c := IdleCalls(n, Batch2Exceed, EnqFail, is25, Cache(PerType(ldb, dir), NO_COUNTS));
            if n <= 100 then c == Cache(PerType(ldb, dir), NO_COUNTS.(enqFail := n))
            else c == Cache(PerType(0, if is25 then dir else 0), NO_COUNTS)
  {
    if n == 0 {
    } else {
      FruitlessSendsKeep(n - 1, ldb, dir, is25);
      var c := IdleCalls(n - 1, Batch2Exceed, EnqFail, is25, Cache(PerType(ldb, dir), NO_COUNTS));
      assert AfterRule(Batch2Exceed, true, is25, c) == c;
    }
  }

  /** Only calls in a row count: one with events, or with few credits cached, starts the count again. */
  lemma InterruptionsReset(is25: bool, c: Cache)
    requires CountsOk(c.counts)
    ensures AfterRule(ZeroDeq, false, is25, c) == c.(counts := c.counts.(zeroDeq := 0))
    ensures AfterRule(EnqFail, false, is25, c) == c.(counts := c.counts.(enqFail := 0))
    ensures c.credits.ldb <= 32 && (is25 || c.credits.dir <= 32) ==>
              AfterRule(BatchExceed, true, is25, c) == c.(counts := c.counts.(batch := 0))
  {
  }

  /** With low pools everything goes back at once, else nothing; no counter moves. */
  lemma LowPoolsTakeAll(low: bool, is25: bool, c: Cache)
    requires CountsOk(c.counts)
    ensures AfterRule(ReturnAll, low, is25, c)
            == if !low then c else Cache(PerType(0, if is25 then c.credits.dir else 0), c.counts)
  {
  }
}
