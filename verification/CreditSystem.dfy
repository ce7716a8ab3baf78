/**
 All credits of a scheduling domain, as a state machine over the atomic steps
 of every agent: pool creation, each port's pool accesses, the device, the
 SmartNIC's credit manager (remote reads and compare-and-swaps, and the two
 halves of each += on a shared counter) and its workers (the halves of -=).
 */
module CreditSystem {
  import opened DlbTypes
  import opened CreditOps
  import opened RemoteAtomics

  // ---- State

  /** A worker between two passes, past its credit test, or with `spent` QEs posted and its -= under way. */
  datatype Phase = Waiting | Holding | Posted | Subtracting(read: nat)

  datatype Manager =
    | InitQuery(i: nat)
    | InitCas(i: nat, seen: Word)
    | InitStore(i: nat, got: nat)
    | Query
    | Swap(seen: Word)
    | Deal(i: nat, share: nat)
    | DealRead(i: nat, share: nat)
    | DealWrite(i: nat, share: nat, read: nat)

  datatype Snic = Snic(local: seq<nat>, spent: seq<nat>, phase: seq<Phase>, global: nat, mgr: Manager)

  /**
   Per type: what pools have not been given yet, the pools (word, flag, and whether the slot was ever given out), the
   ports' caches, and credits travelling with events: inside the device, and in each port's CQ. `high` is the upper
   half of the 64-bit word at LDB pool 0.
   */
  datatype Sys = Sys(
    total: PerType<nat>, remainder: PerType<nat>,
    avail: PerType<seq<nat>>, configured: PerType<seq<bool>>, made: PerType<seq<bool>>, high: nat,
    cached: PerType<seq<nat>>, look: seq<nat>, poolOf: seq<PerType<nat>>,
    inflight: PerType<nat>, incoming: PerType<seq<nat>>, snic: Snic)

  datatype Step =
    | CreatePool(t: PortType, num: nat)
    | PortStep(p: nat, op: PortOp)
    | Deliver(p: nat, t: PortType)
    | ManagerStep
    | WorkerStep(i: nat, k: nat)

  // ---- Sums

  function Sum(s: seq<nat>): nat { if s == [] then 0 else Sum(s[..|s| - 1]) + s[|s| - 1] }

  lemma {:induction false} SumUpdate(s: seq<nat>, i: nat, v: nat)
    requires i < |s|
    ensures Sum(s[i := v]) == Sum(s) - s[i] + v
  {
    var n := |s| - 1;
    if i == n {
      assert s[i := v][..n] == s[..n];
    } else {
      SumUpdate(s[..n], i, v);
      assert s[i := v][..n] == s[..n][i := v];
    }
  }

  /** Where a is nowhere below b, no single gap is larger than all of them together. */
  lemma {:induction false} SumGap(a: seq<nat>, b: seq<nat>, i: nat)
    requires |a| == |b| && forall k | 0 <= k < |a| :: b[k] <= a[k]
    ensures Sum(b) <= Sum(a)
    ensures i < |a| ==> a[i] - b[i] <= Sum(a) - Sum(b)
  {
    if a == [] {
    } else {
      SumGap(a[..|a| - 1], b[..|b| - 1], i);
    }
  }

  lemma {:induction false} SumAtLeast(s: seq<nat>, i: nat)
    requires i < |s|
    ensures s[i] <= Sum(s)
  {
    if i == |s| - 1 {
    } else {
      SumAtLeast(s[..|s| - 1], i);
    }
  }

  lemma {:induction false} SumAtMost(s: seq<nat>, bound: nat)
    requires forall k | 0 <= k < |s| :: s[k] <= bound
    ensures Sum(s) <= |s| * bound
  {
    if s == [] {
    } else {
      SumAtMost(s[..|s| - 1], bound);
      assert |s| * bound == (|s| - 1) * bound + bound;
    }
  }

  /** m shares. */
  function Times(share: nat, m: nat): nat { if m == 0 then 0 else share + Times(share, m - 1) }

  lemma LeftForOthers(share: nat, m: nat)
    requires m > 0
    ensures Times(share, m) == share + Times(share, m - 1)
  {
  }

  lemma {:induction false} SharesFit(g: nat, n: nat)
    requires n > 0
    ensures Times(g / n, n) <= g
  {
    TimesIsProduct(g / n, n);
    assert (g / n) * n <= g;
  }

  lemma {:induction false} TimesIsProduct(share: nat, m: nat)
    ensures Times(share, m) == share * m
  {
    if m == 0 {
    } else {
      TimesIsProduct(share, m - 1);
      assert share * m == share * (m - 1) + share;
    }
  }

  // ---- Where the credits of a type are

  /** Credits the manager has in its hands between two steps. */
  function InHand(m: Manager): nat {
    match m
    case InitStore(_, got) => got
    case DealRead(_, share) => share
    case DealWrite(_, share, _) => share
    case _ => 0
  }

  /** Credits on the SmartNIC: dealt out, less those already spent, plus those still to be dealt. */
  function OnSnic(n: Snic): int {
    Sum(n.local) - Sum(n.spent) + n.global + InHand(n.mgr)
  }

  function Everywhere(s: Sys, t: PortType): int {
    s.remainder.At(t) + Sum(s.avail.At(t)) + Sum(s.cached.At(t)) + InFlight(s, t)
    + if t.LDB? then OnSnic(s.snic) else 0
  }

  /** Credits travelling with events, in the device or in a CQ. */
  function InFlight(s: Sys, t: PortType): nat { s.inflight.At(t) + Sum(s.incoming.At(t)) }

  // ---- Steps

  function LocalOf(s: Sys, p: nat): Local
    requires p < |s.look| && |s.cached.ldb| == |s.look| == |s.cached.dir|
  {
    Local(PerType(s.cached.ldb[p], s.cached.dir[p]), s.look[p])
  }

  predicate Shape(s: Sys) {
    && |s.avail.ldb| == |s.configured.ldb| == |s.made.ldb| && |s.avail.dir| == |s.configured.dir| == |s.made.dir|
    && |s.cached.ldb| == |s.look| == |s.cached.dir| == |s.poolOf|
    && |s.incoming.ldb| == |s.look| == |s.incoming.dir|
    && |s.avail.ldb| > 0
    && (forall p | 0 <= p < |s.poolOf| :: s.poolOf[p].ldb < |s.avail.ldb| && s.poolOf[p].dir < |s.avail.dir|)
    && |s.snic.local| == |s.snic.spent| == |s.snic.phase| > 0
    && s.high < TWO32
  }

  /** The word the SmartNIC reads and swaps: pool 0's count with the upper half next to it. */
  function Word0(s: Sys): Word
    requires Shape(s)
  {
    Join(s.avail.ldb[0] % TWO32, s.high)
  }

  function SetAvail(s: Sys, t: PortType, i: nat, v: nat): Sys
    requires i < |s.avail.At(t)|
  {
    s.(avail := s.avail.With(t, s.avail.At(t)[i := v]))
  }

  function SetIncoming(s: Sys, p: nat, t: PortType, v: nat): Sys
    requires p < |s.incoming.At(t)|
  {
    s.(incoming := s.incoming.With(t, s.incoming.At(t)[p := v]))
  }

  /** The port's cache after an operation on type t. */
  function SetLocal(s: Sys, p: nat, t: PortType, l: Local): Sys
    requires p < |s.look| && |s.cached.ldb| == |s.look| == |s.cached.dir|
  {
    s.(cached := s.cached.With(t, s.cached.At(t)[p := W16(l.cached.At(t))]), look := s.look[p := l.look])
  }

  /** The pool word a port's operation refers to. */
  function PoolIndex(s: Sys, p: nat, t: PortType): (i: nat)
    requires Shape(s) && p < |s.poolOf|
    ensures i < |s.avail.At(t)|
  {
    s.poolOf[p].At(t)
  }

  predicate FirstFree(c: seq<bool>, i: nat) {
    i < |c| && !c[i] && forall k | 0 <= k < i :: c[k]
  }

  /** What shared memory must hold for a port's operation to have the outcome it logs. */
  predicate OpAgrees(s: Sys, p: nat, op: PortOp)
    requires Shape(s) && p < |s.poolOf|
  {
    match op
    case Look(t, seen) => seen == s.avail.At(t)[PoolIndex(s, p, t)]
    case Cas(t, seen, taken) => taken == (s.avail.At(t)[PoolIndex(s, p, t)] == seen)
    case Collect(t, n) => n <= s.incoming.At(t)[p]
    case _ => true
  }

  function OpShared(s: Sys, p: nat, op: PortOp): Sys
    requires Shape(s) && p < |s.poolOf| && OpAgrees(s, p, op)
  {
    match op
    case Cas(t, seen, taken) =>
      if taken then SetAvail(s, t, PoolIndex(s, p, t), seen - Min(BATCH, seen)) else s
    case Give(t, n) =>
      var i := PoolIndex(s, p, t);
      SetAvail(s, t, i, W32(s.avail.At(t)[i] + n))
    case Spend(t) => s.(inflight := s.inflight.With(t, s.inflight.At(t) + 1))
    case Collect(t, n) => SetIncoming(s, p, t, s.incoming.At(t)[p] - n)
    case Look(_, _) => s
  }

  /** credit_batch. */
  function FirstBatch(s: Sys): (b: nat)
    requires |s.snic.local| > 0
    ensures b <= 8192
  {
    8192 / |s.snic.local|
  }

  predicate Enabled(s: Sys, st: Step) {
    && Shape(s)
    && match st
       case CreatePool(t, num) =>
         num <= s.remainder.At(t) && (exists i | 0 <= i < |s.configured.At(t)| :: !s.configured.At(t)[i])
       case PortStep(p, op) =>
         && p < |s.look| && s.made.At(op.t)[PoolIndex(s, p, op.t)]
         && LocalLegal(LocalOf(s, p), op) && OpAgrees(s, p, op)
       case Deliver(p, t) => p < |s.look| && 0 < s.inflight.At(t)
       case ManagerStep => true
       case WorkerStep(i, k) => i < |s.snic.local| && 1 <= k <= 4
  }

  function Created(s: Sys, t: PortType, num: nat, i: nat): Sys
    requires i < |s.avail.At(t)| == |s.configured.At(t)| == |s.made.At(t)| && num <= s.remainder.At(t)
  {
    SetAvail(s, t, i, num).(
      configured := s.configured.With(t, s.configured.At(t)[i := true]),
      made := s.made.With(t, s.made.At(t)[i := true]),
      high := if t.LDB? && i == 0 then s.high - s.high % 256 + 1 else s.high,
      remainder := s.remainder.With(t, s.remainder.At(t) - num))
  }

  function Apply(s: Sys, st: Step): Sys
    requires Enabled(s, st)
  {
    match st
    case CreatePool(t, num) => Created(s, t, num, Free(s.configured.At(t), 0))
    case PortStep(p, op) => SetLocal(OpShared(s, p, op), p, op.t, LocalStep(LocalOf(s, p), op))
    case Deliver(p, t) =>
      SetIncoming(s.(inflight := s.inflight.With(t, s.inflight.At(t) - 1)), p, t, s.incoming.At(t)[p] + 1)
    case ManagerStep => ManagerNext(s)
    case WorkerStep(i, k) => WorkerNext(s, i, k)
  }

  /** The search loop of the pool creation functions. */
  function Free(c: seq<bool>, from: nat): (i: nat)
    requires from <= |c| && (forall k | 0 <= k < from :: c[k]) && exists i | 0 <= i < |c| :: !c[i]
    ensures FirstFree(c, i)
    decreases |c| - from
  {
    if c[from] then Free(c, from + 1) else from
  }

  // ---- The SmartNIC

  function SetSnic(s: Sys, n: Snic): Sys { s.(snic := n) }

  /** Swap pool 0's word and keep what acquire_credits() reports. */
  function Swapped(s: Sys, seen: Word, new_: Word): (r: (Sys, nat))
    requires Shape(s)
  {
    var a := Acquire(Word0(s), seen, new_);
    var s' := SetAvail(s, LDB, 0, Lo(a.word));
    (s'.(high := Hi(a.word), configured := s.configured.(ldb := s.configured.ldb[0 := Hi(a.word) % 256 != 0])), a.got)
  }

  function FirstGrab(s: Sys, i: nat, seen: Word): Sys
    requires Shape(s)
  {
    var (s', got) := Swapped(s, seen, Sub64(seen, FirstBatch(s) as Word));
    SetSnic(s', s.snic.(mgr := InitStore(i, got)))
  }

  /** The credits got are global ones; a share of all of them is due to each worker. */
  function Granted(n: Snic, got: nat): Snic
    requires |n.local| > 0
  {
    var global := W32(n.global + got);
    n.(global := global, mgr := Deal(0, global / |n.local|))
  }

  function Grab(s: Sys, seen: Word): Sys
    requires Shape(s)
  {
    var (s', got) := Swapped(s, seen, 128);
    SetSnic(s', Granted(s.snic, got))
  }

  function ManagerNext(s: Sys): Sys
    requires Shape(s)
  {
    var n := s.snic;
    match n.mgr
    case InitQuery(i) =>
      SetSnic(s, if i < |n.local| then n.(mgr := InitCas(i, Word0(s))) else n.(global := 0, mgr := Query))
    case InitCas(i, seen) => FirstGrab(s, i, seen)
    case InitStore(i, got) =>
      SetSnic(s, if i < |n.local| then n.(local := n.local[i := got], mgr := InitQuery(i + 1)) else n)
    case Query =>
      SetSnic(s, if Lo(Word0(s)) < 128 then n else n.(mgr := Swap(Word0(s))))
    case Swap(seen) => Grab(s, seen)
    case Deal(i, share) =>
      SetSnic(s,
        if i >= |n.local| then n.(mgr := Query)
        else if n.local[i] < 4 then n.(global := W32(n.global - share), mgr := DealRead(i, share))
        else n.(mgr := Deal(i + 1, share)))
    case DealRead(i, share) =>
      SetSnic(s, if i < |n.local| then n.(mgr := DealWrite(i, share, n.local[i])) else n)
    case DealWrite(i, share, read) =>
      SetSnic(s, if i < |n.local| then n.(local := n.local[i := W32(read + share)], mgr := Deal(i + 1, share)) else n)
  }

  function WorkerNext(s: Sys, i: nat, k: nat): Sys
    requires Shape(s) && i < |s.snic.local|
  {
    var n := s.snic;
    match n.phase[i]
    case Waiting => SetSnic(s, if n.local[i] < 4 then n else n.(phase := n.phase[i := Holding]))
    case Holding =>
      SetSnic(s.(inflight := s.inflight.(ldb := s.inflight.ldb + k)),
              n.(spent := n.spent[i := k], phase := n.phase[i := Posted]))
    case Posted => SetSnic(s, n.(phase := n.phase[i := Subtracting(n.local[i])]))
    case Subtracting(read) =>
      SetSnic(s, n.(local := n.local[i := W32(read - n.spent[i])], spent := n.spent[i := 0],
                    phase := n.phase[i := Waiting]))
  }

  // ---- What every step keeps

  predicate Owns(n: Snic, i: nat)
    requires |n.local| == |n.spent| == |n.phase| && i < |n.local|
  {
    !n.phase[i].Waiting?
  }

  predicate ManagerOwns(m: Manager, i: nat) {
    (m.DealRead? || m.DealWrite?) && m.i == i
  }

  /** Whoever has an update of worker i's counter under way is alone with it. */
  predicate Alone(n: Snic, i: nat)
    requires |n.local| == |n.spent| == |n.phase| && i < |n.local|
  {
    && (Owns(n, i) ==> n.local[i] >= 4)
    && (n.phase[i].Subtracting? ==> n.phase[i].read == n.local[i])
    && (if n.phase[i].Posted? || n.phase[i].Subtracting? then 1 <= n.spent[i] <= 4 else n.spent[i] == 0)
    && (ManagerOwns(n.mgr, i) ==> n.local[i] < 4 && !Owns(n, i))
    && (n.mgr.DealWrite? && n.mgr.i == i ==> n.mgr.read == n.local[i])
  }

  predicate Handoff(n: Snic)
    requires |n.local| == |n.spent| == |n.phase|
  {
    forall i | 0 <= i < |n.local| :: Alone(n, i)
  }

  /** Before its first batch is stored a worker has nothing and waits. */
  predicate Untouched(n: Snic, from: nat)
    requires |n.local| == |n.spent| == |n.phase|
  {
    forall i | from <= i < |n.local| :: n.local[i] == 0 && n.phase[i] == Waiting
  }

  /** What the manager knows at each of its steps. */
  predicate ManagerOk(n: Snic)
    requires |n.local| == |n.spent| == |n.phase|
  {
    match n.mgr
    case InitQuery(i) => i <= |n.local| && n.global == 0 && Untouched(n, i)
    case InitCas(i, _) => i < |n.local| && n.global == 0 && Untouched(n, i)
    case InitStore(i, _) => i < |n.local| && n.global == 0 && Untouched(n, i)
    case Query => true
    case Swap(seen) => Lo(seen) >= 128
    case Deal(i, share) => i <= |n.local| && Times(share, |n.local| - i) <= n.global
    case DealRead(i, share) => i < |n.local| && Times(share, |n.local| - i - 1) <= n.global
    case DealWrite(i, share, _) => i < |n.local| && Times(share, |n.local| - i - 1) <= n.global
  }

  /**
   A pool's flag is set when the slot is given out. It stays set but for LDB pool 0, whose flag is in the upper half
   of the word the manager swaps. A slot never given out is empty.
   */
  predicate FlagsOk(avail: PerType<seq<nat>>, configured: PerType<seq<bool>>, made: PerType<seq<bool>>, high: nat)
    requires |avail.ldb| == |configured.ldb| == |made.ldb| > 0 && |avail.dir| == |configured.dir| == |made.dir|
  {
    && (configured.ldb[0] <==> high % 256 != 0)
    && (forall i | 0 <= i < |avail.ldb| :: configured.ldb[i] ==> made.ldb[i])
    && (forall i | 0 < i < |avail.ldb| :: made.ldb[i] ==> configured.ldb[i])
    && (forall i | 0 <= i < |avail.dir| :: configured.dir[i] <==> made.dir[i])
    && (forall i | 0 <= i < |avail.ldb| :: !made.ldb[i] ==> avail.ldb[i] == 0)
    && (forall i | 0 <= i < |avail.dir| :: !made.dir[i] ==> avail.dir[i] == 0)
  }

  predicate PoolsOk(s: Sys)
    requires Shape(s)
  {
    FlagsOk(s.avail, s.configured, s.made, s.high)
  }

  predicate Conserved(s: Sys) {
    && Everywhere(s, LDB) == s.total.ldb < 0x1_0000
    && Everywhere(s, DIR) == s.total.dir < 0x1_0000
  }

  predicate Inv(s: Sys) {
    Shape(s) && Conserved(s) && Handoff(s.snic) && ManagerOk(s.snic) && PoolsOk(s)
  }

  // ---- Every step keeps it

  lemma SnicHolds(n: Snic, i: nat)
    requires |n.local| == |n.spent| == |n.phase| && Handoff(n)
    ensures Sum(n.spent) <= Sum(n.local)
    ensures i < |n.local| ==> n.local[i] - n.spent[i] <= Sum(n.local) - Sum(n.spent)
  {
    forall j | 0 <= j < |n.local|
      ensures n.spent[j] <= n.local[j]
    {
      assert Alone(n, j);
    }
    SumGap(n.local, n.spent, i);
  }

  /**
   What a step needs so as to make and lose no credit: a pool is created in a slot that holds none; the manager's swap
   fails on the lower half, or the upper half is as it was read and the count covers what is taken, or nothing is.
   */
  predicate Harmless(s: Sys, st: Step)
    requires Enabled(s, st)
  {
    match st
    case CreatePool(t, _) => s.avail.At(t)[Free(s.configured.At(t), 0)] == 0
    case ManagerStep =>
      (match s.snic.mgr
       case InitCas(_, seen) =>
         Lo(seen) != Lo(Word0(s)) || FirstBatch(s) == 0 || (Hi(seen) == s.high && FirstBatch(s) <= Lo(seen))
       case Swap(seen) =>
         Lo(seen) != Lo(Word0(s)) || Lo(seen) == 128 || Hi(seen) == s.high
       case _ => true)
    case _ => true
  }

  /** Creating a pool conserves credits if and only if the slot it picks holds none. */
  lemma CreateConserves(s: Sys, t: PortType, num: nat, u: PortType)
    requires Enabled(s, CreatePool(t, num))
    ensures var s' := Apply(s, CreatePool(t, num));
            Everywhere(s', u) == Everywhere(s, u) <==> u == t ==> s.avail.At(t)[Free(s.configured.At(t), 0)] == 0
  {
    SumUpdate(s.avail.At(t), Free(s.configured.At(t), 0), num);
  }

  lemma CreateKeeps(s: Sys, t: PortType, num: nat)
    requires Inv(s) && Enabled(s, CreatePool(t, num)) && Harmless(s, CreatePool(t, num))
    ensures Inv(Apply(s, CreatePool(t, num)))
  {
    CreateConserves(s, t, num, LDB);
    CreateConserves(s, t, num, DIR);
  }

  lemma CreditsInReach(s: Sys, p: nat, t: PortType)
    requires Inv(s) && p < |s.look|
    ensures s.avail.At(t)[PoolIndex(s, p, t)] + s.cached.At(t)[p] + s.incoming.At(t)[p] + s.inflight.At(t)
            <= s.total.At(t) < 0x1_0000
  {
    SumAtLeast(s.avail.At(t), PoolIndex(s, p, t));
    SumAtLeast(s.cached.At(t), p);
    SumAtLeast(s.incoming.At(t), p);
    SnicHolds(s.snic, 0);
  }

  /** What one port and the device hold of a type: pool word, cache, events in the CQ, events in the device. */
  datatype PortView = PortView(avail: nat, cached: nat, incoming: nat, inflight: nat) {
    function Total(): nat { avail + cached + incoming + inflight }
  }

  function ViewOf(s: Sys, p: nat, t: PortType): PortView
    requires Shape(s) && p < |s.look|
  {
    PortView(s.avail.At(t)[PoolIndex(s, p, t)], s.cached.At(t)[p], s.incoming.At(t)[p], s.inflight.At(t))
  }

  /** Credits of one type moved between a port's cache, its pool, its CQ and the device. */
  function Moved(s: Sys, p: nat, t: PortType, h: PortView, look: nat): Sys
    requires Shape(s) && p < |s.look|
  {
    s.(avail := s.avail.With(t, s.avail.At(t)[PoolIndex(s, p, t) := h.avail]),
       cached := s.cached.With(t, s.cached.At(t)[p := h.cached]),
       incoming := s.incoming.With(t, s.incoming.At(t)[p := h.incoming]),
       inflight := s.inflight.With(t, h.inflight), look := s.look[p := look])
  }

  lemma MovedConserves(s: Sys, p: nat, t: PortType, h: PortView, look: nat)
    requires Inv(s) && p < |s.look| && h.Total() == ViewOf(s, p, t).Total()
    ensures Conserved(Moved(s, p, t, h, look))
  {
    SumUpdate(s.cached.At(t), p, h.cached);
    SumUpdate(s.incoming.At(t), p, h.incoming);
    SumUpdate(s.avail.At(t), PoolIndex(s, p, t), h.avail);
  }

  lemma MovedKeeps(s: Sys, p: nat, t: PortType, h: PortView, look: nat)
    requires Inv(s) && p < |s.look| && h.Total() == ViewOf(s, p, t).Total()
    requires s.made.At(t)[PoolIndex(s, p, t)] || h.avail == ViewOf(s, p, t).avail
    ensures Inv(Moved(s, p, t, h, look))
  {
    MovedConserves(s, p, t, h, look);
  }

  /** A port's operation as a move of credits: no counter wraps and nothing is lost. */
  function ViewAfter(h: PortView, op: PortOp): PortView
    requires op.Give? ==> op.n <= h.cached
    requires op.Spend? ==> 1 <= h.cached
    requires op.Collect? ==> op.n <= h.incoming
    requires op.Cas? && op.taken ==> op.seen == h.avail
  {
    match op
    case Look(_, _) => h
    case Cas(_, seen, taken) =>
      if taken then h.(avail := h.avail - Min(BATCH, seen), cached := h.cached + Min(BATCH, seen)) else h
    case Give(_, n) => h.(avail := h.avail + n, cached := h.cached - n)
    case Spend(_) => h.(cached := h.cached - 1, inflight := h.inflight + 1)
    case Collect(_, n) => h.(incoming := h.incoming - n, cached := h.cached + n)
  }

  /** The port's own side of it. */
  lemma LocalFollows(s: Sys, p: nat, op: PortOp)
    requires Inv(s) && Enabled(s, PortStep(p, op))
    ensures ViewAfter(ViewOf(s, p, op.t), op).Total() == ViewOf(s, p, op.t).Total()
    ensures var l := LocalStep(LocalOf(s, p), op); W16(l.cached.At(op.t)) == ViewAfter(ViewOf(s, p, op.t), op).cached
  {
    CreditsInReach(s, p, op.t);
  }

  lemma PortMoves(s: Sys, p: nat, op: PortOp)
    requires Inv(s) && Enabled(s, PortStep(p, op))
    ensures var h := ViewAfter(ViewOf(s, p, op.t), op);
            && h.Total() == ViewOf(s, p, op.t).Total()
            && Apply(s, PortStep(p, op)) == Moved(s, p, op.t, h, LocalStep(LocalOf(s, p), op).look)
  {
    LocalFollows(s, p, op);
    CreditsInReach(s, p, op.t);
    var a, n := s.avail.At(op.t), s.incoming.At(op.t);
    assert a[PoolIndex(s, p, op.t) := a[PoolIndex(s, p, op.t)]] == a && n[p := n[p]] == n;
  }

  lemma PortKeeps(s: Sys, p: nat, op: PortOp)
    requires Inv(s) && Enabled(s, PortStep(p, op))
    ensures Inv(Apply(s, PortStep(p, op)))
  {
    PortMoves(s, p, op);
    MovedKeeps(s, p, op.t, ViewAfter(ViewOf(s, p, op.t), op), LocalStep(LocalOf(s, p), op).look);
  }

  /** The device puts an event with its credit in a port's CQ. */
  lemma DeliverMoves(s: Sys, p: nat, t: PortType)
    requires Inv(s) && Enabled(s, Deliver(p, t))
    ensures var h := ViewOf(s, p, t);
            Apply(s, Deliver(p, t))
            == Moved(s, p, t, h.(incoming := h.incoming + 1, inflight := h.inflight - 1), s.look[p])
  {
    var a, c := s.avail.At(t), s.cached.At(t);
    assert a[PoolIndex(s, p, t) := a[PoolIndex(s, p, t)]] == a && c[p := c[p]] == c && s.look[p := s.look[p]] == s.look;
  }

  lemma DeliverKeeps(s: Sys, p: nat, t: PortType)
    requires Inv(s) && Enabled(s, Deliver(p, t))
    ensures Inv(Apply(s, Deliver(p, t)))
  {
    DeliverMoves(s, p, t);
    var h := ViewOf(s, p, t);
    MovedKeeps(s, p, t, h.(incoming := h.incoming + 1, inflight := h.inflight - 1), s.look[p]);
  }

  // Workers

  /** No shared counter of the SmartNIC comes near a wrap. */
  lemma CountersFit(s: Sys, i: nat)
    requires Inv(s) && i < |s.snic.local|
    ensures s.snic.local[i] < 0x1_0000 + 4 && s.snic.global + InHand(s.snic.mgr) < 0x1_0000
    ensures s.avail.ldb[0] < 0x1_0000
  {
    SnicHolds(s.snic, i);
    assert Alone(s.snic, i);
    SumAtLeast(s.avail.ldb, 0);
  }

  lemma WorkerConserves(s: Sys, i: nat, k: nat)
    requires Inv(s) && Enabled(s, WorkerStep(i, k))
    ensures Conserved(Apply(s, WorkerStep(i, k)))
  {
    CountersFit(s, i);
    assert Alone(s.snic, i);
    var n := s.snic;
    match n.phase[i]
    case Waiting =>
    case Holding => SumUpdate(n.spent, i, k);
    case Posted =>
    case Subtracting(read) =>
      SumUpdate(n.local, i, W32(read - n.spent[i]));
      SumUpdate(n.spent, i, 0);
  }

  lemma WorkerKeepsHandoff(s: Sys, i: nat, k: nat)
    requires Inv(s) && Enabled(s, WorkerStep(i, k))
    ensures var s' := Apply(s, WorkerStep(i, k)); Shape(s') && Handoff(s'.snic)
  {
    CountersFit(s, i);
    var n, n' := s.snic, Apply(s, WorkerStep(i, k)).snic;
    assert Alone(n, i) && Alone(n', i);
    forall j | 0 <= j < |n'.local|
      ensures Alone(n', j)
    {
      assert Alone(n, j);
    }
  }

  /** A worker that has no credits yet does nothing. */
  lemma UntouchedStays(s: Sys, i: nat, k: nat, from: nat)
    requires Inv(s) && Enabled(s, WorkerStep(i, k)) && Untouched(s.snic, from)
    ensures var s' := Apply(s, WorkerStep(i, k)); Shape(s') && Untouched(s'.snic, from)
  {
  }

  lemma WorkerKeepsManager(s: Sys, i: nat, k: nat)
    requires Inv(s) && Enabled(s, WorkerStep(i, k))
    ensures var s' := Apply(s, WorkerStep(i, k)); Shape(s') && ManagerOk(s'.snic)
  {
    var m := s.snic.mgr;
    if m.InitQuery? || m.InitCas? || m.InitStore? { UntouchedStays(s, i, k, m.i); }
  }

  lemma WorkerKeepsPools(s: Sys, i: nat, k: nat)
    requires Inv(s) && Enabled(s, WorkerStep(i, k))
    ensures var s' := Apply(s, WorkerStep(i, k)); Shape(s') && PoolsOk(s')
  {
  }

  lemma WorkerKeeps(s: Sys, i: nat, k: nat)
    requires Inv(s) && Enabled(s, WorkerStep(i, k))
    ensures Inv(Apply(s, WorkerStep(i, k)))
  {
    WorkerConserves(s, i, k);
    WorkerKeepsHandoff(s, i, k);
    WorkerKeepsManager(s, i, k);
    WorkerKeepsPools(s, i, k);
  }

  // The manager

  /** Pool 0 gave up exactly what the manager was told it got. */
  predicate Exact(s: Sys, r: (Sys, nat))
    requires Shape(s)
  {
    && |s.avail.ldb| == |r.0.avail.ldb|
    && Sum(r.0.avail.ldb) + r.1 == Sum(s.avail.ldb) < 0x1_0000
    && r.0 == s.(avail := r.0.avail, high := r.0.high, configured := r.0.configured)
    && r.0.avail.dir == s.avail.dir && Shape(r.0) && PoolsOk(r.0)
  }

  lemma WordOfPool(s: Sys)
    requires Inv(s)
    ensures Lo(Word0(s)) == s.avail.ldb[0] && Hi(Word0(s)) == s.high
  {
    CountersFit(s, 0);
  }

  lemma FirstSwapIsExact(s: Sys, seen: Word)
    requires Inv(s)
    requires Lo(seen) != Lo(Word0(s)) || FirstBatch(s) == 0 || (Hi(seen) == s.high && FirstBatch(s) <= Lo(seen))
    ensures Exact(s, Swapped(s, seen, Sub64(seen, FirstBatch(s) as Word)))
  {
    WordOfPool(s);
    var b := FirstBatch(s);
    if b > 0 && Hi(seen) == s.high { TakeBatchIsExact(Word0(s), seen, b); }
    var a := Acquire(Word0(s), seen, Sub64(seen, b as Word));
    SumUpdate(s.avail.ldb, 0, Lo(a.word));
    SnicHolds(s.snic, 0);
  }

  lemma SwapIsExact(s: Sys, seen: Word)
    requires Inv(s) && 128 <= Lo(seen)
    requires Lo(seen) != Lo(Word0(s)) || Lo(seen) == 128 || Hi(seen) == s.high
    ensures Exact(s, Swapped(s, seen, 128))
  {
    WordOfPool(s);
    if Hi(seen) == s.high { LeaveBehindIsExact(Word0(s), seen, 128); }
    if Lo(seen) == 128 { SubtractHalves(seen, 128); }
    var a := Acquire(Word0(s), seen, 128);
    SumUpdate(s.avail.ldb, 0, Lo(a.word));
    SnicHolds(s.snic, 0);
  }

  /** The steps that touch no shared counter and no pool. */
  lemma ManagerWaitsKeeps(s: Sys)
    requires Inv(s) && (s.snic.mgr.InitQuery? || s.snic.mgr.Query? || s.snic.mgr.DealRead?)
    ensures Inv(Apply(s, ManagerStep))
  {
    var n, n' := s.snic, Apply(s, ManagerStep).snic;
    CountersFit(s, 0);
    forall j | 0 <= j < |n'.local|
      ensures Alone(n', j)
    {
      assert Alone(n, j);
    }
  }

  lemma DealKeepsHandoff(s: Sys)
    requires Inv(s) && s.snic.mgr.Deal?
    ensures var s' := Apply(s, ManagerStep); Shape(s') && Handoff(s'.snic)
  {
    var n, n' := s.snic, Apply(s, ManagerStep).snic;
    forall j | 0 <= j < |n'.local|
      ensures Alone(n', j)
    {
      assert Alone(n, j);
    }
  }

  lemma DealKeepsManager(s: Sys)
    requires Inv(s) && s.snic.mgr.Deal?
    ensures var s' := Apply(s, ManagerStep); Shape(s') && ManagerOk(s'.snic) && OnSnic(s'.snic) == OnSnic(s.snic)
  {
    var n := s.snic;
    CountersFit(s, 0);
    if n.mgr.i < |n.local| { LeftForOthers(n.mgr.share, |n.local| - n.mgr.i); }
  }

  /** A grant is covered by the credits the manager still has. */
  lemma ManagerDealKeeps(s: Sys)
    requires Inv(s) && s.snic.mgr.Deal?
    ensures Inv(Apply(s, ManagerStep))
  {
    DealKeepsManager(s);
    DealKeepsHandoff(s);
  }

  /** A worker's view does not change when only the manager moves on. */
  lemma HandoffStays(n: Snic, n': Snic)
    requires |n.local| == |n.spent| == |n.phase| && Handoff(n)
    requires n'.local == n.local && n'.spent == n.spent && n'.phase == n.phase
    requires (n.mgr.InitCas? && n'.mgr.InitStore? && n'.mgr.i == n.mgr.i) || (n.mgr.Swap? && n'.mgr.Deal?)
    ensures Handoff(n')
  {
    forall j | 0 <= j < |n'.local|
      ensures Alone(n', j)
    {
      assert Alone(n, j);
    }
  }

  lemma FirstGrabKeeps(s: Sys)
    requires Inv(s) && s.snic.mgr.InitCas? && Harmless(s, ManagerStep)
    ensures Inv(Apply(s, ManagerStep))
  {
    FirstSwapIsExact(s, s.snic.mgr.seen);
    HandoffStays(s.snic, Apply(s, ManagerStep).snic);
  }

  lemma GrabKeeps(s: Sys)
    requires Inv(s) && s.snic.mgr.Swap? && Harmless(s, ManagerStep)
    ensures Inv(Apply(s, ManagerStep))
  {
    SwapIsExact(s, s.snic.mgr.seen);
    var n' := Apply(s, ManagerStep).snic;
    SnicHolds(s.snic, 0);
    SharesFit(n'.global, |s.snic.local|);
    HandoffStays(s.snic, n');
  }

  lemma ManagerSwapKeeps(s: Sys)
    requires Inv(s) && (s.snic.mgr.InitCas? || s.snic.mgr.Swap?) && Harmless(s, ManagerStep)
    ensures Inv(Apply(s, ManagerStep))
  {
    if s.snic.mgr.InitCas? {
      FirstGrabKeeps(s);
    } else {
      GrabKeeps(s);
    }
  }

  lemma ManagerStoreKeeps(s: Sys)
    requires Inv(s) && (s.snic.mgr.InitStore? || s.snic.mgr.DealWrite?)
    ensures Inv(Apply(s, ManagerStep))
  {
    var n, n' := s.snic, Apply(s, ManagerStep).snic;
    CountersFit(s, n.mgr.i);
    assert Alone(n, n.mgr.i);
    SumUpdate(n.local, n.mgr.i, n'.local[n.mgr.i]);
    forall j | 0 <= j < |n'.local|
      ensures Alone(n', j)
    {
      assert Alone(n, j);
    }
  }

  lemma ManagerKeeps(s: Sys)
    requires Inv(s) && Harmless(s, ManagerStep)
    ensures Inv(Apply(s, ManagerStep))
  {
    match s.snic.mgr
    case Deal(_, _) => ManagerDealKeeps(s);
    case InitCas(_, _) => ManagerSwapKeeps(s);
    case Swap(_) => ManagerSwapKeeps(s);
    case InitStore(_, _) => ManagerStoreKeeps(s);
    case DealWrite(_, _, _) => ManagerStoreKeeps(s);
    case _ => ManagerWaitsKeeps(s);
  }

  /** A harmless step keeps everything. */
  lemma StepKeeps(s: Sys, st: Step)
    requires Inv(s) && Enabled(s, st) && Harmless(s, st)
    ensures Inv(Apply(s, st))
  {
    match st
    case CreatePool(t, num) => CreateKeeps(s, t, num);
    case PortStep(p, op) => PortKeeps(s, p, op);
    case Deliver(p, t) => DeliverKeeps(s, p, t);
    case ManagerStep => ManagerKeeps(s);
    case WorkerStep(i, k) => WorkerKeeps(s, i, k);
  }

  // ---- And no other step conserves credits

  /** What a first grab reports, whether or not it took effect. */
  lemma FirstGrabReports(s: Sys, seen: Word)
    requires Inv(s)
    ensures Swapped(s, seen, Sub64(seen, FirstBatch(s) as Word)).1
            == if Lo(seen) == Lo(Word0(s)) then FirstBatch(s) else 0
  {
    TakeReports(Word0(s), seen, FirstBatch(s));
  }

  /** What it does to the pool when it is not harmless: nothing, or the count wraps. */
  lemma FirstGrabLeaves(s: Sys, seen: Word)
    requires Inv(s) && Lo(seen) == Lo(Word0(s)) && 0 < FirstBatch(s)
    requires Hi(seen) != s.high || Lo(seen) < FirstBatch(s)
    ensures Sum(Swapped(s, seen, Sub64(seen, FirstBatch(s) as Word)).0.avail.ldb) >= Sum(s.avail.ldb)
  {
    WordOfPool(s);
    TakeLeaves(Word0(s), seen, FirstBatch(s));
    var a := Acquire(Word0(s), seen, Sub64(seen, FirstBatch(s) as Word));
    SumUpdate(s.avail.ldb, 0, Lo(a.word));
  }

  lemma FirstGrabChanges(s: Sys)
    requires Inv(s) && s.snic.mgr.InitCas?
    ensures var (s', got) := Swapped(s, s.snic.mgr.seen, Sub64(s.snic.mgr.seen, FirstBatch(s) as Word));
            Everywhere(Apply(s, ManagerStep), LDB) == Everywhere(s, LDB) + Sum(s'.avail.ldb) - Sum(s.avail.ldb) + got
  {
  }

  /** A first grab conserves credits if and only if it is harmless. */
  lemma FirstGrabConserves(s: Sys)
    requires Inv(s) && s.snic.mgr.InitCas?
    ensures Everywhere(Apply(s, ManagerStep), LDB) == Everywhere(s, LDB) <==> Harmless(s, ManagerStep)
  {
    var seen := s.snic.mgr.seen;
    FirstGrabChanges(s);
    if Harmless(s, ManagerStep) {
      FirstSwapIsExact(s, seen);
    } else {
      FirstGrabReports(s, seen);
      FirstGrabLeaves(s, seen);
    }
  }

  /** What a later grab reports and leaves behind when the upper half has changed since it was read. */
  lemma StaleGrabReports(s: Sys, seen: Word)
    requires Inv(s) && Lo(seen) == Lo(Word0(s)) && Hi(seen) != s.high && 128 <= Lo(seen)
    ensures var (s', got) := Swapped(s, seen, 128);
            got == Lo(seen) - 128 && Sum(s'.avail.ldb) == Sum(s.avail.ldb)
  {
    WordOfPool(s);
    StaleHighHalfMintsCredits(Word0(s), seen, 128);
    SubtractHalves(seen, 128);
    SumUpdate(s.avail.ldb, 0, Lo(Word0(s)));
  }

  lemma GrabChanges(s: Sys)
    requires Inv(s) && s.snic.mgr.Swap?
    ensures var (s', got) := Swapped(s, s.snic.mgr.seen, 128);
            Everywhere(Apply(s, ManagerStep), LDB)
            == Everywhere(s, LDB) + Sum(s'.avail.ldb) - Sum(s.avail.ldb) + W32(s.snic.global + got) - s.snic.global
  {
  }

  /** Adding something in 32 bits never gives back the same. */
  lemma WrapMoves(a: nat, b: nat)
    requires a < TWO32 && 0 < b < TWO32
    ensures W32(a + b) != a
  {
  }

  /** A later grab conserves credits if and only if it is harmless. */
  lemma GrabConserves(s: Sys)
    requires Inv(s) && s.snic.mgr.Swap?
    ensures Everywhere(Apply(s, ManagerStep), LDB) == Everywhere(s, LDB) <==> Harmless(s, ManagerStep)
  {
    var seen := s.snic.mgr.seen;
    GrabChanges(s);
    CountersFit(s, 0);
    if Harmless(s, ManagerStep) {
      SwapIsExact(s, seen);
      SnicHolds(s.snic, 0);
    } else {
      StaleGrabReports(s, seen);
      WrapMoves(s.snic.global, Lo(seen) - 128);
    }
  }

  /** A step that is not harmless changes the sum of its credit type. */
  lemma HarmfulStepBreaks(s: Sys, st: Step) returns (t: PortType)
    requires Inv(s) && Enabled(s, st) && !Harmless(s, st)
    ensures Everywhere(Apply(s, st), t) != Everywhere(s, t)
  {
    t := if st.CreatePool? then st.t else LDB;
    if st.CreatePool? {
      CreateConserves(s, st.t, st.num, st.t);
    } else if s.snic.mgr.InitCas? {
      FirstGrabConserves(s);
    } else {
      GrabConserves(s);
    }
  }

  lemma TotalsStay(s: Sys, st: Step)
    requires Enabled(s, st)
    ensures Apply(s, st).total == s.total
  {
  }

  lemma HarmlessStepConserves(s: Sys, st: Step, t: PortType)
    requires Inv(s) && Enabled(s, st) && Harmless(s, st)
    ensures Everywhere(Apply(s, st), t) == Everywhere(s, t)
  {
    StepKeeps(s, st);
    TotalsStay(s, st);
  }

  /** So a step conserves the credits of both types if and only if it is harmless. */
  lemma StepConserves(s: Sys, st: Step)
    requires Inv(s) && Enabled(s, st)
    ensures (forall t :: Everywhere(Apply(s, st), t) == Everywhere(s, t)) <==> Harmless(s, st)
  {
    if Harmless(s, st) {
      forall t
        ensures Everywhere(Apply(s, st), t) == Everywhere(s, t)
      {
        HarmlessStepConserves(s, st, t);
      }
    } else {
      var t := HarmfulStepBreaks(s, st);
    }
  }
}
