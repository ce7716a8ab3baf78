/**
 The libdlb datapath of one port on devices v2 and v2.5: the send loops, the
 receive path, and the two debts (CQ tokens and event releases) they keep.
 */
module Ports {
  import opened DlbTypes
  import opened CreditOps
  import opened CreditCaches
  import opened ConsumerQueue
  import opened QueueDepth

  /** The form in which a port writes an event: v2.5 keeps the weight, a directed port clears qe_comp. */
  function Written(e: Event, ty: PortType, v25: bool): Qe {
    QeOf(e, v25, ty.DIR? && CreditsRequired(e.cmd))
  }

  /** What the device reads in a slot sent for e, field by field: a directed port makes NEW of FWD, NEW_T of FWD_T. */
  function Carried(e: Event, ty: PortType, v25: bool): Qe {
    Qe(e.data, e.opaque_, e.qid, e.directed, e.prio, e.flow, if v25 then e.weight else 0,
       if ty.LDB? then e.cmd else match e.cmd case 10 => 8 case 11 => 9 case c => c, false)
  }

  lemma WrittenIsCarried(e: Event, ty: PortType, v25: bool)
    requires LegalCmd(e.cmd)
    ensures Written(e, ty, v25) == Carried(e, ty, v25)
  {
    if CreditsRequired(e.cmd) { CompletionBit(e.cmd); }
  }

  /** Slots in the cache lines that n events take up. */
  function LineSlots(n: nat): (m: nat)
    ensures n <= m < n + 4
  {
    if n == 0 then 0 else if n < 4 then 4 else 4 + LineSlots(n - 4)
  }

  lemma {:induction false} LineSlotsGrow(i: nat, j: nat)
    requires i % 4 == 0 && 0 < j <= 4
    ensures LineSlots(i) == i && LineSlots(i + j) == i + 4
  {
    if i == 0 {
      assert LineSlots(j) == 4;
    } else {
      LineSlotsGrow(i - 4, j);
    }
  }

  /** From slot `from` on: the first n events, in order, four to a cache line, the last line padded with NOOP. */
  ghost predicate Packed(slots: seq<Qe>, from: nat, evts: seq<Event>, n: nat, ty: PortType, v25: bool)
    requires n <= |evts|
  {
    && |slots| == from + LineSlots(n)
    && (forall k {:trigger slots[k]} | from <= k < from + n :: slots[k] == Written(evts[k - from], ty, v25))
    && (forall k {:trigger slots[k]} | from + n <= k < |slots| :: slots[k].cmd == NOOP)
  }

  /** The credit type a send path charges an event to. */
  function ChargeType(e: Event, v25: bool): PortType {
    if !v25 && e.directed then DIR else LDB
  }

  /** The first event that is not a plain enqueue ends validation; an unknown queue before it is an error. */
  predicate Rejected(evts: seq<Event>, queueOk: (bool, nat) -> bool)
  {
    evts != [] && IsEnqueue(evts[0].cmd)
    && (!queueOk(evts[0].directed, evts[0].qid) || Rejected(evts[1..], queueOk))
  }

  /** Event k is for an unknown queue, and up to it all are plain enqueues. */
  predicate UnknownAt(evts: seq<Event>, queueOk: (bool, nat) -> bool, k: nat) {
    && k < |evts| && !queueOk(evts[k].directed, evts[k].qid)
    && forall j | 0 <= j <= k :: 8 <= evts[j].cmd <= 11
  }

  lemma {:induction false} RejectedForOne(evts: seq<Event>, queueOk: (bool, nat) -> bool) returns (k: nat)
    requires Rejected(evts, queueOk)
    ensures UnknownAt(evts, queueOk, k)
  {
    k := 0;
    if queueOk(evts[0].directed, evts[0].qid) {
      k := RejectedForOne(evts[1..], queueOk);
      assert forall j | 1 <= j <= k + 1 :: evts[j] == evts[1..][j - 1];
      k := k + 1;
    }
  }

  lemma {:induction false} OneRejects(evts: seq<Event>, queueOk: (bool, nat) -> bool, k: nat)
    requires UnknownAt(evts, queueOk, k)
    ensures Rejected(evts, queueOk)
  {
    assert 8 <= evts[0].cmd <= 11;
    if k == 0 {
    } else {
      assert forall j | 0 <= j <= k - 1 :: evts[1..][j] == evts[j + 1];
      OneRejects(evts[1..], queueOk, k - 1);
    }
  }

  /** So a send is refused if and only if, before any event that is no plain enqueue, there is one of unknown queue. */
  lemma RejectedMeans(evts: seq<Event>, queueOk: (bool, nat) -> bool)
    ensures Rejected(evts, queueOk) <==> exists k :: UnknownAt(evts, queueOk, k)
  {
    if Rejected(evts, queueOk) {
      var k := RejectedForOne(evts, queueOk);
    }
    if k :| UnknownAt(evts, queueOk, k) {
      OneRejects(evts, queueOk, k);
    }
  }

  /** Credits of each type that sending the first n events costs. */
  function Charged(evts: seq<Event>, n: nat, v25: bool): (c: PerType<nat>)
    requires n <= |evts|
    ensures c.ldb + c.dir <= n
  {
    if n == 0 then NONE
    else
      var c := Charged(evts, n - 1, v25);
      var t := ChargeType(evts[n - 1], v25);
      if CreditsRequired(evts[n - 1].cmd) then c.With(t, c.At(t) + 1) else c
  }

  predicate AtMost(a: PerType<nat>, b: PerType<nat>) { a.ldb <= b.ldb && a.dir <= b.dir }

  function Less(a: PerType<nat>, b: PerType<nat>): PerType<nat>
    requires AtMost(b, a)
  {
    PerType(a.ldb - b.ldb, a.dir - b.dir)
  }

  /** The line in progress: events i to i+j-1, then NOOPs. */
  ghost predicate LineHolds(l: seq<Qe>, evts: seq<Event>, i: nat, j: nat, ty: PortType, v25: bool)
    requires i + j <= |evts|
  {
    && |l| == 4 && j <= 4
    && (forall k | 0 <= k < j :: l[k] == Written(evts[i + k], ty, v25))
    && (forall k | j <= k < 4 :: l[k].cmd == NOOP)
  }

  lemma LineGrows(l: seq<Qe>, l': seq<Qe>, evts: seq<Event>, i: nat, j: nat, ty: PortType, v25: bool)
    requires i + j < |evts| && j < 4 == |l'| && LineHolds(l, evts, i, j, ty, v25)
    requires l'[j] == Written(evts[i + j], ty, v25) && forall k | 0 <= k < 4 && k != j :: l'[k] == l[k]
    ensures LineHolds(l', evts, i, j + 1, ty, v25)
  {
  }

  predicate AllLegal(evts: seq<Event>) { forall k | 0 <= k < |evts| :: LegalCmd(evts[k].cmd) }

  lemma SlotDebts(e: Event, ty: PortType, v25: bool)
    requires LegalCmd(e.cmd)
    ensures var q := Written(e, ty, v25);
            && CmdTokens(q.cmd, q.flow) == CmdTokens(e.cmd, e.flow)
            && (ty.LDB? ==> CmdReleases(q.cmd) == CmdReleases(e.cmd))
  {
  }

  /** What the device is returned by the slots of a send is what the library charged for its events. */
  lemma {:induction false} PackedTokens(slots: seq<Qe>, from: nat, k: nat, evts: seq<Event>, n: nat, ty: PortType,
                                        v25: bool)
    requires n <= |evts| && AllLegal(evts) && Packed(slots, from, evts, n, ty, v25) && from <= k <= |slots|
    ensures TokensUpTo(slots, k) == TokensUpTo(slots, from) + EventTokens(evts, Min(k - from, n))
  {
    if k == from {
      assert EventTokens(evts, 0) == 0;
    } else {
      PackedTokens(slots, from, k - 1, evts, n, ty, v25);
      if k - 1 < from + n {
        SlotDebts(evts[k - 1 - from], ty, v25);
      } else {
        assert slots[k - 1].cmd == NOOP;
      }
    }
  }

  /** The same for releases, on load-balanced ports. */
  lemma {:induction false} PackedReleases(slots: seq<Qe>, from: nat, k: nat, evts: seq<Event>, n: nat, v25: bool)
    requires n <= |evts| && AllLegal(evts) && Packed(slots, from, evts, n, LDB, v25) && from <= k <= |slots|
    ensures ReleasesUpTo(slots, k) == ReleasesUpTo(slots, from) + EventReleases(evts, Min(k - from, n))
  {
    if k == from {
      assert EventReleases(evts, 0) == 0;
    } else {
      PackedReleases(slots, from, k - 1, evts, n, v25);
      if k - 1 < from + n {
        SlotDebts(evts[k - 1 - from], LDB, v25);
      } else {
        assert slots[k - 1].cmd == NOOP;
      }
    }
  }

  /** The slots of a send, as the device reads them. */
  ghost predicate Reads(slots: seq<Qe>, from: nat, evts: seq<Event>, n: nat, ty: PortType, v25: bool)
    requires n <= |evts| && from + n <= |slots|
  {
    forall k {:trigger slots[k]} | from <= k < from + n :: slots[k] == Carried(evts[k - from], ty, v25)
  }

  lemma PackedIsRead(slots: seq<Qe>, from: nat, evts: seq<Event>, n: nat, ty: PortType, v25: bool)
    requires n <= |evts| && AllLegal(evts) && Packed(slots, from, evts, n, ty, v25)
    ensures Reads(slots, from, evts, n, ty, v25)
  {
    forall k {:trigger slots[k]} | from <= k < from + n
      ensures slots[k] == Carried(evts[k - from], ty, v25)
    {
      WrittenIsCarried(evts[k - from], ty, v25);
    }
  }

  lemma SentDebts(before: seq<Qe>, after: seq<Qe>, evts: seq<Event>, n: nat, ty: PortType, v25: bool)
    requires before <= after && n <= |evts| && AllLegal(evts) && Packed(after, |before|, evts, n, ty, v25)
    ensures SlotTokens(after) == SlotTokens(before) + EventTokens(evts, n)
    ensures ty.LDB? ==> SlotReleases(after) == SlotReleases(before) + EventReleases(evts, n)
  {
    SameUpTo(before, after, |before|);
    PackedTokens(after, |before|, |after|, evts, n, ty, v25);
    if ty.LDB? { PackedReleases(after, |before|, |after|, evts, n, v25); }
  }

  lemma PackedMore(slots: seq<Qe>, from: nat, evts: seq<Event>, i: nat, l: seq<Qe>, j: nat, ty: PortType, v25: bool)
    requires i % 4 == 0 && 0 < j && i + j <= |evts|
    requires Packed(slots, from, evts, i, ty, v25) && LineHolds(l, evts, i, j, ty, v25)
    ensures Packed(slots + l, from, evts, i + j, ty, v25)
  {
    var slots' := slots + l;
    LineSlotsGrow(i, j);
    forall k {:trigger slots'[k]} | from <= k < |slots'|
      ensures k < from + i + j ==> slots'[k] == Written(evts[k - from], ty, v25)
      ensures k >= from + i + j ==> slots'[k].cmd == NOOP
    {
      if k < from + i { assert slots'[k] == slots[k]; } else { assert slots'[k] == l[k - from - i]; }
    }
  }

  predicate AllPaid(evts: seq<Event>) { forall k | 0 <= k < |evts| :: CreditsRequired(evts[k].cmd) }

  predicate NonePaid(evts: seq<Event>) { forall k | 0 <= k < |evts| :: !CreditsRequired(evts[k].cmd) }

  /** The 16-bit credit counters can count the call: at most 2^16 credits of a type are used (CallLengthMatters). */
  predicate Countable(evts: seq<Event>, v25: bool) {
    var c := Charged(evts, |evts|, v25);
    c.ldb <= 0x1_0000 && c.dir <= 0x1_0000
  }

  lemma {:induction false} ChargedGrows(evts: seq<Event>, k: nat, n: nat, v25: bool)
    requires k <= n <= |evts|
    ensures Charged(evts, k, v25).ldb <= Charged(evts, n, v25).ldb
    ensures Charged(evts, k, v25).dir <= Charged(evts, n, v25).dir
  {
    if k == n {
    } else {
      ChargedGrows(evts, k, n - 1, v25);
    }
  }

  /** Events for load-balanced queues, and on v2.5 all, cost a load-balanced credit each; others a directed one. */
  lemma {:induction false} ChargedByQueue(evts: seq<Event>, n: nat, directed: bool, v25: bool)
    requires n <= |evts| && AllPaid(evts) && (v25 || forall k | 0 <= k < |evts| :: evts[k].directed == directed)
    ensures Charged(evts, n, v25) == if directed && !v25 then PerType(0, n) else PerType(n, 0)
  {
    if n == 0 {
    } else {
      ChargedByQueue(evts, n - 1, directed, v25);
    }
  }

  lemma {:induction false} NoneCharged(evts: seq<Event>, n: nat, v25: bool)
    requires n <= |evts| && NonePaid(evts)
    ensures Charged(evts, n, v25) == NONE
  {
    if n == 0 {
    } else {
      NoneCharged(evts, n - 1, v25);
    }
  }

  /** A call fits its int loop counters and, unless the pools are left alone, its credit counters. */
  predicate Sendable(evts: seq<Event>, allNeed: bool, v25: bool, quiet: bool) {
    && |evts| < 0x8000_0000 && (quiet || Countable(evts, v25))
    && AllLegal(evts) && (allNeed ==> AllPaid(evts))
  }

  /** Some event given is for an unknown queue. */
  predicate SomeUnknown(given: seq<Event>, queueOk: (bool, nat) -> bool) {
    exists k :: 0 <= k < |given| && !queueOk(given[k].directed, given[k].qid)
  }

  lemma EnqueueRefused(given: seq<Event>, cmd: nat, queueOk: (bool, nat) -> bool)
    requires cmd == NEW || cmd == FWD
    ensures Rejected(Stamped(given, cmd), queueOk) <==> SomeUnknown(given, queueOk)
  {
    var evts := Stamped(given, cmd);
    RejectedMeans(evts, queueOk);
    if k: nat :| UnknownAt(evts, queueOk, k) {
      assert !queueOk(given[k].directed, given[k].qid);
    }
    if k: nat :| k < |given| && !queueOk(given[k].directed, given[k].qid) {
      assert UnknownAt(evts, queueOk, k);
    }
  }

  /** What the device reads: the events given, field by field, on a directed port as new ones. */
  ghost predicate Delivers(before: seq<Qe>, after: seq<Qe>, given: seq<Event>, count: nat, cmd: nat, ty: PortType,
                           v25: bool)
  {
    && count <= |given| && |before| + count <= |after|
    && forall k {:trigger after[k]} | |before| <= k < |before| + count ::
         var e := given[k - |before|];
         after[k] == Qe(e.data, e.opaque_, e.qid, e.directed, e.prio, e.flow, if v25 then e.weight else 0,
                        if ty.DIR? then 8 else cmd, false)
  }

  lemma EnqueueDelivers(before: seq<Qe>, after: seq<Qe>, given: seq<Event>, count: nat, cmd: nat, ty: PortType,
                        v25: bool)
    requires cmd == NEW || cmd == FWD
    requires count <= |given| && Packed(after, |before|, Stamped(given, cmd), count, ty, v25)
    ensures Delivers(before, after, given, count, cmd, ty, v25)
  {
    PackedIsRead(after, |before|, Stamped(given, cmd), count, ty, v25);
  }

  /**
   When the cached credits of one type cover the events given, all of them are sent, whatever others do, and of the
   credits left over more than 64 go back to 32.
   */
  predicate CachePays(given: seq<Event>, count: int, had: PerType<nat>, has: PerType<nat>, v25: bool) {
    && (count > 0 && ForQueues(given, false, v25) && |given| <= had.ldb ==>
          count == |given| && has.ldb == if had.ldb - count > 64 then 32 else had.ldb - count)
    && (count > 0 && ForQueues(given, true, false) && !v25 && |given| <= had.dir ==>
          count == |given| && has.dir == if had.dir - count > 64 then 32 else had.dir - count)
  }

  lemma CacheHasPaid(given: seq<Event>, count: nat, cmd: nat, was: Cache, now: Cache, v25: bool)
    requires cmd == NEW || cmd == FWD
    requires 0 < count <= |given| && CountsOk(was.counts) && KeptOf(Stamped(given, cmd), count, v25, v25, was, now)
    ensures CachePays(given, count, was.credits, now.credits, v25)
  {
    var evts := Stamped(given, cmd);
    if AtMost(Charged(evts, count, v25), was.credits) {
      SendKeepsUpTo64(v25, Cache(Less(was.credits, Charged(evts, count, v25)), was.counts), count);
    }
    if ForQueues(given, false, v25) {
      ChargedByQueue(evts, count, false, v25);
      ChargedByQueue(evts, |evts|, false, v25);
    }
    if ForQueues(given, true, false) && !v25 {
      ChargedByQueue(evts, count, true, false);
      ChargedByQueue(evts, |evts|, true, false);
    }
  }

  /** As long as the credits cached cover it, a send asks for no refill and, whatever others do, is complete. */
  predicate UnrefilledOf(evts: seq<Event>, n: nat, v25: bool, had: PerType<nat>, left: PerType<nat>)
    requires n <= |evts|
  {
    && (AtMost(Charged(evts, |evts|, v25), had) ==> n == |evts|)
    && (AtMost(Charged(evts, n, v25), had) ==> left == Less(had, Charged(evts, n, v25)))
  }

  /** The same with the release rules at its end. */
  predicate KeptOf(evts: seq<Event>, n: nat, v25: bool, is25: bool, was: Cache, now: Cache)
    requires n <= |evts| && CountsOk(was.counts)
  {
    && (AtMost(Charged(evts, |evts|, v25), was.credits) ==> n == |evts|)
    && (AtMost(Charged(evts, n, v25), was.credits) ==>
          now == AfterSend(is25, Cache(Less(was.credits, Charged(evts, n, v25)), was.counts), n))
  }

  lemma EasedIsKept(evts: seq<Event>, n: nat, v25: bool, is25: bool, was: Cache, mid: Cache, now: Cache)
    requires n <= |evts| && CountsOk(was.counts) && mid.counts == was.counts
    requires UnrefilledOf(evts, n, v25, was.credits, mid.credits) && now == AfterSend(is25, mid, n)
    ensures KeptOf(evts, n, v25, is25, was, now)
    ensures n == 0 ==> now == FruitlessSend(is25, was)
  {
    if n == 0 {
      assert Charged(evts, 0, v25) == NONE;
      SendOfNothing(is25, was);
    }
  }

  ghost predicate SlotsSent(before: seq<Qe>, after: seq<Qe>, evts: seq<Event>, n: nat, ty: PortType, v25: bool) {
    && n <= |evts| && before <= after
    && Packed(after, |before|, evts, n, ty, v25) && Reads(after, |before|, evts, n, ty, v25)
    && (n < |evts| ==> CreditsRequired(evts[n].cmd))
  }

  predicate DebtsPaid(tokens: int, tokens': int, releases: int, releases': int, evts: seq<Event>, n: nat, ty: PortType)
    requires n <= |evts|
  {
    tokens' == tokens - EventTokens(evts, n) && (ty.LDB? ==> releases' == releases - EventReleases(evts, n))
  }

  predicate CreditsSpent(within: PerType<nat>, within': PerType<nat>, evts: seq<Event>, n: nat, v25: bool)
    requires n <= |evts|
  {
    && within'.ldb == within.ldb - Charged(evts, n, v25).ldb && within'.dir == within.dir - Charged(evts, n, v25).dir
    && (n < |evts| ==> within'.At(ChargeType(evts[n], v25)) == 0)
  }

  /** A send that stops in front of a paid event has used up what the cache had. */
  lemma StopsWhenUsedUp(evts: seq<Event>, n: nat, used: PerType<nat>, had: PerType<nat>, v25: bool)
    requires n < |evts| && used == Charged(evts, n, v25) && CreditsRequired(evts[n].cmd)
    requires AtMost(used, had) ==> used.At(ChargeType(evts[n], v25)) == had.At(ChargeType(evts[n], v25))
    ensures !AtMost(Charged(evts, |evts|, v25), had)
  {
    ChargedGrows(evts, n + 1, |evts|, v25);
  }

  class Port {
    const ty: PortType
    const id: nat
    const cache: CreditCache
    const cq: Cq
    const qe: array<Qe>                  // one cache line of QEs, reused by every send
    const queueOk: (bool, nat) -> bool   // domain->queue_type[][] != QUEUE_TYPE_INVALID
    const histSize: nat                  // history list entries: events the device lets be unreleased
    const stackRoom: nat                 // how many events the stack of a calling thread has room for

    var started: bool                    // domain->started
    var enabled: bool
    var owedTokens: nat
    var owedReleases: nat
    var intArmed: bool
    var epoll: bool                      // event_fd is set
    var fdReadable: bool                 // a read of event_fd succeeds
    ghost var waits: nat                 // how often wait_func has been called
    ghost var receives: nat              // how often a receive has been called
    const levels: Levels                 // queue_levels[]
    var sent: seq<Qe>                    // every slot written to the producer port, four to a line

    constructor (ty: PortType, id: nat, cache: CreditCache, cqDepth: nat, sparse: bool, histSize: nat,
                 stackRoom: nat, queueOk: (bool, nat) -> bool)
      requires cache.Valid() && cache.credits == NONE && cache.incoming == NONE
      requires cqDepth <= 1024 && histSize <= 4096
      ensures Valid() && fresh(cq) && fresh(qe) && fresh(levels) && levels.Valid() && levels.history == []
      ensures this.ty == ty && this.id == id && this.cache == cache && this.histSize == histSize
      ensures this.stackRoom == stackRoom
      ensures cq.written == [] && sent == [] && owedTokens == 0 && owedReleases == 0
    {
      this.ty, this.id, this.cache, this.queueOk := ty, id, cache, queueOk;
      this.histSize, this.stackRoom := histSize, stackRoom;
      cq := new Cq(cqDepth, sparse);
      qe := new Qe[4](_ => Qe(0, 0, 0, false, 0, 0, 0, NOOP, false));
      started, enabled, intArmed, epoll := false, true, false, false;
      levels := new Levels();
      owedTokens, owedReleases, sent := 0, 0, [];
      fdReadable, waits, receives := true, 0, 0;
    }

    /** The credit type a received event brings back. */
    function Home(): PortType {
      if cache.is25 then LDB else ty
    }

    /** The CQ and its credits; `extra` events are read but not yet collected. */
    ghost predicate Linked(extra: nat)
      reads this`sent, cache, cache.pools, cq
    {
      cache.Valid() && Queued(extra)
    }

    ghost predicate Queued(extra: nat)
      reads this`sent, cache`incoming, cq
    {
      && qe.Length == 4 && cq.depth <= 1024 && histSize <= 4096
      && cq.Valid()
      && extra <= cq.read
      && cache.incoming == NONE.With(Home(), |cq.written| - cq.read + extra)
      && SlotTokens(sent) <= cq.read
      && |cq.written| <= SlotTokens(sent) + cq.depth
      && (ty.LDB? ==> |cq.written| <= SlotReleases(sent) + histSize)
    }

    /** Owed tokens are those of `n` received events not yet returned; on LDB ports the same for releases. */
    ghost predicate Ledger(n: nat)
      reads this`owedTokens, this`owedReleases, this`sent
    {
      && owedTokens + SlotTokens(sent) == n
      && (ty.LDB? ==> owedReleases + SlotReleases(sent) == n)
      && owedReleases < 0x1_0000
    }

    /** Cached credits stay within two batches, plus one for every token owed. */
    ghost predicate Bounded()
      reads this`owedTokens, cache`credits
    {
      && cache.credits.At(Home()) <= 64 + owedTokens
      && (Home().DIR? ==> cache.credits.ldb <= 64) && (Home().LDB? ==> cache.credits.dir <= 64)
    }

    /** The port between calls. */
    ghost predicate Valid()
      reads this`owedTokens, this`owedReleases, this`sent, cache, cache.pools, cq
    {
      Linked(0) && Ledger(cq.read) && Bounded()
    }

    /** dec_port_owed_tokens() and dec_port_owed_releases() for the QE in slot j. */
    method PayDebts(j: nat)
      requires qe.Length == 4 && j < 4 && LegalCmd(qe[j].cmd)
      requires CmdTokens(qe[j].cmd, qe[j].flow) <= owedTokens < 0x1_0000
      requires owedReleases < 0x1_0000 && (ty.LDB? ==> CmdReleases(qe[j].cmd) <= owedReleases)
      modifies this`owedTokens, this`owedReleases
      ensures owedTokens == old(owedTokens) - CmdTokens(qe[j].cmd, qe[j].flow)
      ensures ty.LDB? ==> owedReleases == old(owedReleases) - CmdReleases(qe[j].cmd)
      ensures owedReleases < 0x1_0000
    {
      var cmd := qe[j].cmd;
      if cmd % 2 == 1 {
        owedTokens := W16(owedTokens - 1);
        if cmd == BAT_T { owedTokens := W16(owedTokens - qe[j].flow); }
      }
      owedReleases := W16(owedReleases - (if CompletesEvent(cmd) then 1 else 0));
    }

    /** Set the four commands to NOOP. */
    method ClearLine()
      requires qe.Length == 4
      modifies qe
      ensures forall k | 0 <= k < 4 :: qe[k].cmd == NOOP
    {
      for k := 0 to 4
        invariant forall m | 0 <= m < k :: qe[m].cmd == NOOP
      {
        qe[k] := qe[k].(cmd := NOOP, weight := 0, intArm := false);
      }
    }

    /** The event in slot j is sent: it costs a credit and pays its debts. */
    method SealAndCharge(e: Event, j: nat, ghost used: PerType<nat>, v25: bool)
      requires qe.Length == 4 && j < 4 && qe[j] == QeOf(e, v25, false) && CreditsRequired(e.cmd)
      requires cache.Sound(used) && 0 < cache.Unused().At(ChargeType(e, v25))
      requires used.At(ChargeType(e, v25)) < 0x1_0000
      requires CmdTokens(e.cmd, e.flow) <= owedTokens < 0x1_0000
      requires owedReleases < 0x1_0000 && (ty.LDB? ==> CmdReleases(e.cmd) <= owedReleases)
      modifies this`owedTokens, this`owedReleases, qe, cache`trace, cache.pools`elsewhere
      ensures forall k | 0 <= k < 4 && k != j :: qe[k] == old(qe[k])
      ensures Placed(e, j, v25) && owedReleases < 0x1_0000
      ensures cache.Sound(used.With(ChargeType(e, v25), used.At(ChargeType(e, v25)) + 1))
    {
      SealSlot(e, j, v25);
      cache.Charge(ChargeType(e, v25), used);
    }

    /** Copy event e into slot j and, if it must pay, make sure there is a credit for it. */
    method PlaceEvent(e: Event, j: nat, ghost used: PerType<nat>, usedT: nat, allNeed: bool, v25: bool)
      returns (placed: bool)
      requires qe.Length == 4 && j < 4 && LegalCmd(e.cmd) && (allNeed ==> CreditsRequired(e.cmd))
      requires cache.Sound(used) && used.At(ChargeType(e, v25)) == usedT
      requires usedT < 0x1_0000 || !CreditsRequired(e.cmd)
      requires CmdTokens(e.cmd, e.flow) <= owedTokens < 0x1_0000
      requires owedReleases < 0x1_0000 && (ty.LDB? ==> CmdReleases(e.cmd) <= owedReleases)
      modifies this`owedTokens, this`owedReleases, qe, cache`credits, cache`trace, cache.pools
      ensures forall k | 0 <= k < 4 && k != j :: qe[k] == old(qe[k])
      ensures placed ==> Placed(e, j, v25)
      ensures owedReleases < 0x1_0000
      ensures placed && CreditsRequired(e.cmd) ==> cache.Sound(used.With(ChargeType(e, v25), usedT + 1))
      ensures placed && !CreditsRequired(e.cmd) ==> cache.Sound(used)
      ensures !placed ==> cache.Sound(used) && qe[j].cmd == NOOP && StoppedAt(e, used, v25)
                          && owedTokens == old(owedTokens) && owedReleases == old(owedReleases)
      ensures !placed || !CreditsRequired(e.cmd) || old(cache.credits.At(ChargeType(e, v25))) != usedT ==>
                cache.credits == old(cache.credits)
      ensures cache.quiet ==> cache.Within() == old(cache.Within())
    {
      qe[j] := QeOf(e, v25, false);
      if !allNeed && !CreditsRequired(e.cmd) {
        PayDebts(j);
        return true;
      }
      placed := PlacePaid(e, j, used, usedT, v25);
    }

    method PlacePaid(e: Event, j: nat, ghost used: PerType<nat>, usedT: nat, v25: bool) returns (placed: bool)
      requires qe.Length == 4 && j < 4 && qe[j] == QeOf(e, v25, false) && CreditsRequired(e.cmd)
      requires cache.Sound(used) && used.At(ChargeType(e, v25)) == usedT
      requires usedT < 0x1_0000
      requires CmdTokens(e.cmd, e.flow) <= owedTokens < 0x1_0000
      requires owedReleases < 0x1_0000 && (ty.LDB? ==> CmdReleases(e.cmd) <= owedReleases)
      modifies this`owedTokens, this`owedReleases, qe, cache`credits, cache`trace, cache.pools
      ensures forall k | 0 <= k < 4 && k != j :: qe[k] == old(qe[k])
      ensures placed ==> Placed(e, j, v25) && cache.Sound(used.With(ChargeType(e, v25), usedT + 1))
      ensures owedReleases < 0x1_0000
      ensures !placed ==> cache.Sound(used) && qe[j].cmd == NOOP && StoppedAt(e, used, v25)
                          && owedTokens == old(owedTokens) && owedReleases == old(owedReleases)
      ensures !placed || old(cache.credits.At(ChargeType(e, v25))) != usedT ==> cache.credits == old(cache.credits)
      ensures cache.quiet ==> cache.Within() == old(cache.Within())
    {
      var t := ChargeType(e, v25);
      placed := cache.EnsureCredit(t, usedT, used);
      if placed {
        SealAndCharge(e, j, used, v25);
      } else {
        qe[j] := qe[j].(cmd := NOOP);
      }
    }

    /** Slot j holds event e as it is sent, and the debts it pays are paid. */
    twostate predicate Placed(e: Event, j: nat, v25: bool)
      requires qe.Length == 4 && j < 4
      reads this, qe
    {
      && qe[j] == Written(e, ty, v25)
      && owedTokens == old(owedTokens) - CmdTokens(e.cmd, e.flow)
      && (ty.LDB? ==> owedReleases == old(owedReleases) - CmdReleases(e.cmd))
    }

    /** A directed port clears qe_comp, and only then are the debts counted down. */
    method SealSlot(e: Event, j: nat, v25: bool)
      requires qe.Length == 4 && j < 4 && qe[j] == QeOf(e, v25, false) && CreditsRequired(e.cmd)
      requires CmdTokens(e.cmd, e.flow) <= owedTokens < 0x1_0000
      requires owedReleases < 0x1_0000 && (ty.LDB? ==> CmdReleases(e.cmd) <= owedReleases)
      modifies this`owedTokens, this`owedReleases, qe
      ensures forall k | 0 <= k < 4 && k != j :: qe[k] == old(qe[k])
      ensures Placed(e, j, v25) && owedReleases < 0x1_0000
    {
      if ty.DIR? {
        qe[j] := qe[j].(cmd := ClearComp(qe[j].cmd));
      }
      PayDebts(j);
    }

    /** A line in progress: slots, charges and debts agree on the first i + j events. */
    ghost predicate Filling(evts: seq<Event>, i: nat, j: nat, used: PerType<nat>, v25: bool, tokens: int, releases: int)
      reads this, qe, cache, cache.pools
    {
      && qe.Length == 4 && j <= 4 && i + j <= |evts|
      && cache.Sound(used) && used == Charged(evts, i + j, v25)
      && LineHolds(qe[..], evts, i, j, ty, v25)
      && DebtsAt(evts, i + j, tokens, releases)
    }

    /** With n events charged, `tokens` and `releases` were owed at the start and cover the whole call. */
    ghost predicate DebtsAt(evts: seq<Event>, n: nat, tokens: int, releases: int)
      requires n <= |evts|
      reads this
    {
      && owedTokens + EventTokens(evts, n) == tokens < 0x1_0000
      && EventTokens(evts, |evts|) <= tokens
      && owedReleases < 0x1_0000
      && (ty.LDB? ==> owedReleases + EventReleases(evts, n) == releases && EventReleases(evts, |evts|) <= releases)
    }

    /** The debts owed cover the next event. */
    lemma NextCovered(evts: seq<Event>, n: nat, tokens: int, releases: int)
      requires n < |evts| && DebtsAt(evts, n, tokens, releases)
      ensures CmdTokens(evts[n].cmd, evts[n].flow) <= owedTokens
      ensures ty.LDB? ==> CmdReleases(evts[n].cmd) <= owedReleases
    {
      ChargesGrow(evts, n + 1, |evts|);
    }

    /** If the next event pays, fewer than 2^16 credits are used so far. */
    lemma NextCounted(evts: seq<Event>, n: nat, used: PerType<nat>, v25: bool)
      requires n < |evts| && cache.Sound(used) && used == Charged(evts, n, v25)
      requires cache.quiet || Countable(evts, v25)
      ensures CreditsRequired(evts[n].cmd) ==> used.At(ChargeType(evts[n], v25)) < 0x1_0000
    {
      ChargedGrows(evts, n + 1, |evts|, v25);
    }

    /** Event number n goes into slot j, with its credit and its debts. */
    method PlaceCounted(evts: seq<Event>, n: nat, j: nat, used: PerType<nat>, allNeed: bool, v25: bool,
                        ghost tokens: int, ghost releases: int)
      returns (placed: bool, used': PerType<nat>)
      requires qe.Length == 4 && j < 4 && n < |evts| && Sendable(evts, allNeed, v25, cache.quiet)
      requires cache.Sound(used) && used == Charged(evts, n, v25) && DebtsAt(evts, n, tokens, releases)
      modifies this`owedTokens, this`owedReleases, qe, cache`credits, cache`trace, cache.pools
      ensures forall k | 0 <= k < 4 && k != j :: qe[k] == old(qe[k])
      ensures cache.Sound(used') && used' == Charged(evts, if placed then n + 1 else n, v25)
      ensures DebtsAt(evts, if placed then n + 1 else n, tokens, releases)
      ensures placed ==> qe[j] == Written(evts[n], ty, v25)
      ensures !placed ==> qe[j].cmd == NOOP && StoppedAt(evts[n], used', v25)
      ensures AtMost(used, used') && (AtMost(used', old(cache.credits)) ==> cache.credits == old(cache.credits))
      ensures cache.quiet ==> cache.Within() == old(cache.Within())
    {
      var e := evts[n];
      var t := ChargeType(e, v25);
      NextCovered(evts, n, tokens, releases);
      NextCounted(evts, n, used, v25);
      placed := PlaceEvent(e, j, used, used.At(t), allNeed, v25);
      used' := if placed && CreditsRequired(e.cmd) then used.With(t, used.At(t) + 1) else used;
    }

    /** One pass of the inner loop. */
    method PlaceNext(evts: seq<Event>, i: nat, j: nat, used: PerType<nat>, allNeed: bool, v25: bool,
                     ghost tokens: int, ghost releases: int)
      returns (placed: bool, used': PerType<nat>)
      requires Sendable(evts, allNeed, v25, cache.quiet) && j < 4 && i + j < |evts|
      requires Filling(evts, i, j, used, v25, tokens, releases)
      modifies this`owedTokens, this`owedReleases, qe, cache`credits, cache`trace, cache.pools
      ensures placed ==> Filling(evts, i, j + 1, used', v25, tokens, releases)
      ensures !placed ==> Filling(evts, i, j, used', v25, tokens, releases) && StoppedAt(evts[i + j], used', v25)
      ensures AtMost(used, used') && (AtMost(used', old(cache.credits)) ==> cache.credits == old(cache.credits))
      ensures cache.quiet ==> cache.Within() == old(cache.Within())
    {
      ghost var line := qe[..];
      placed, used' := PlaceCounted(evts, i + j, j, used, allNeed, v25, tokens, releases);
      if placed { LineGrows(line, qe[..], evts, i, j, ty, v25); }
    }

    /** A cache line of up to four events. */
    method FillLine(evts: seq<Event>, i: nat, used0: PerType<nat>, allNeed: bool, v25: bool,
                    ghost tokens: int, ghost releases: int)
      returns (j: nat, used: PerType<nat>)
      requires qe.Length == 4 && i < |evts| && Sendable(evts, allNeed, v25, cache.quiet)
      requires cache.Sound(used0) && used0 == Charged(evts, i, v25) && DebtsAt(evts, i, tokens, releases)
      modifies this`owedTokens, this`owedReleases, qe, cache`credits, cache`trace, cache.pools
      ensures Filling(evts, i, j, used, v25, tokens, releases)
      ensures j < 4 && i + j < |evts| ==> StoppedAt(evts[i + j], used, v25)
      ensures AtMost(used0, used) && (AtMost(used, old(cache.credits)) ==> cache.credits == old(cache.credits))
      ensures cache.quiet ==> cache.Within() == old(cache.Within())
    {
      ClearLine();
      j, used := FillSlots(evts, i, used0, allNeed, v25, tokens, releases);
    }

    /** The inner loop of a send: one slot after the other. */
    method FillSlots(evts: seq<Event>, i: nat, used0: PerType<nat>, allNeed: bool, v25: bool,
                     ghost tokens: int, ghost releases: int)
      returns (j: nat, used: PerType<nat>)
      requires i < |evts| && Sendable(evts, allNeed, v25, cache.quiet)
      requires Filling(evts, i, 0, used0, v25, tokens, releases)
      modifies this`owedTokens, this`owedReleases, qe, cache`credits, cache`trace, cache.pools
      ensures Filling(evts, i, j, used, v25, tokens, releases)
      ensures j < 4 && i + j < |evts| ==> StoppedAt(evts[i + j], used, v25)
      ensures AtMost(used0, used) && (AtMost(used, old(cache.credits)) ==> cache.credits == old(cache.credits))
      ensures cache.quiet ==> cache.Within() == old(cache.Within())
    {
      j, used := 0, used0;
      while j < 4 && i + j < |evts|
        invariant Filling(evts, i, j, used, v25, tokens, releases)
        invariant AtMost(used0, used) && (AtMost(used, old(cache.credits)) ==> cache.credits == old(cache.credits))
        invariant cache.quiet ==> cache.Within() == old(cache.Within())
      {
        var placed;
        placed, used := PlaceNext(evts, i, j, used, allNeed, v25, tokens, releases);
        if !placed { break; }
        j := j + 1;
      }
    }

    /** Event e could not be sent: every cached credit of its type is used and, undisturbed, the pool is empty. */
    ghost predicate StoppedAt(e: Event, used: PerType<nat>, v25: bool)
      reads this, cache, cache.pools
    {
      var t := ChargeType(e, v25);
      && CreditsRequired(e.cmd) && used.At(t) == cache.credits.At(t)
      && (cache.quiet ==> cache.pools.avail.At(t) == 0)
    }

    /** Everything a send has done once its first n events are out. */
    ghost predicate SentSoFar(evts: seq<Event>, n: nat, used: PerType<nat>, v25: bool,
                              before: seq<Qe>, tokens: int, releases: int)
      reads this, cache, cache.pools
    {
      && qe.Length == 4 && n <= |evts|
      && cache.Sound(used) && used == Charged(evts, n, v25)
      && DebtsAt(evts, n, tokens, releases)
      && before <= sent && Packed(sent, |before|, evts, n, ty, v25)
    }

    /** enqueue_four(): one cache line goes to the producer port. */
    method EnqueueFour()
      requires qe.Length == 4
      modifies this`sent
      ensures sent == old(sent) + qe[..]
    {
      sent := sent + qe[..];
    }

    /** Enqueue the line in progress. */
    method FlushLine(ghost evts: seq<Event>, ghost i: nat, ghost j: nat, ghost used: PerType<nat>, ghost v25: bool,
                       ghost before: seq<Qe>, ghost tokens: int, ghost releases: int)
      requires 0 < j && i % 4 == 0
      requires Filling(evts, i, j, used, v25, tokens, releases)
      requires before <= sent && Packed(sent, |before|, evts, i, ty, v25)
      modifies this`sent
      ensures sent == old(sent) + qe[..]
      ensures SentSoFar(evts, i + j, used, v25, before, tokens, releases)
    {
      PackedMore(sent, |before|, evts, i, qe[..], j, ty, v25);
      EnqueueFour();
    }

    /** One pass of the outer loop: fill a line and, unless it is empty, enqueue it. */
    method SendOneLine(evts: seq<Event>, i: nat, used0: PerType<nat>, allNeed: bool, v25: bool,
                       ghost before: seq<Qe>, ghost tokens: int, ghost releases: int, ghost had: PerType<nat>)
      returns (j: nat, used: PerType<nat>)
      requires i < |evts| && i % 4 == 0 && Sendable(evts, allNeed, v25, cache.quiet)
      requires SentSoFar(evts, i, used0, v25, before, tokens, releases)
      requires AtMost(used0, had) ==> cache.credits == had
      modifies this`owedTokens, this`owedReleases, this`sent, qe, cache`credits, cache`trace, cache.pools
      ensures j <= 4 && i + j <= |evts|
      ensures SentSoFar(evts, i + j, used, v25, before, tokens, releases)
      ensures j < 4 && i + j < |evts| ==> StoppedAt(evts[i + j], used, v25)
      ensures AtMost(used, had) ==> cache.credits == had
      ensures cache.quiet ==> cache.Within() == old(cache.Within())
    {
      j, used := FillLine(evts, i, used0, allNeed, v25, tokens, releases);
      if j != 0 {
        FlushLine(evts, i, j, used, v25, before, tokens, releases);
      }
    }

    /** The loop of __dlb2_adv_send() and __dlb2_5_adv_send(). */
    method SendLines(evts: seq<Event>, allNeed: bool, v25: bool,
                     ghost before: seq<Qe>, ghost tokens: int, ghost releases: int)
      returns (count: nat, used: PerType<nat>)
      requires Sendable(evts, allNeed, v25, cache.quiet)
      requires SentSoFar(evts, 0, NONE, v25, before, tokens, releases)
      modifies this`owedTokens, this`owedReleases, this`sent, qe, cache`credits, cache`trace, cache.pools
      ensures SentSoFar(evts, count, used, v25, before, tokens, releases)
      ensures count < |evts| ==> StoppedAt(evts[count], used, v25)
      ensures AtMost(used, old(cache.credits)) ==> cache.credits == old(cache.credits)
      ensures cache.quiet ==> cache.Within() == old(cache.Within())
    {
      count, used := 0, NONE;
      while count < |evts|
        invariant count % 4 == 0
        invariant SentSoFar(evts, count, used, v25, before, tokens, releases)
        invariant AtMost(used, old(cache.credits)) ==> cache.credits == old(cache.credits)
        invariant cache.quiet ==> cache.Within() == old(cache.Within())
      {
        var j, used' := SendOneLine(evts, count, used, allNeed, v25, before, tokens, releases, old(cache.credits));
        count, used := count + j, used';
        if j != 4 { break; }
      }
    }

    /** validate_send_events(). */
    method Validate(evts: seq<Event>) returns (bad: bool)
      ensures bad <==> Rejected(evts, queueOk)
    {
      for i := 0 to |evts|
        invariant Rejected(evts, queueOk) == Rejected(evts[i..], queueOk)
      {
        if !IsEnqueue(evts[i].cmd) { return false; }
        if !queueOk(evts[i].directed, evts[i].qid) { return true; }
        assert evts[i..][1..] == evts[i + 1..];
      }
      return false;
    }

    /** What a send that returned n did to the producer port and the debts. */
    twostate predicate Sent(evts: seq<Event>, n: nat, v25: bool)
      reads this
    {
      && SlotsSent(old(sent), sent, evts, n, ty, v25)
      && DebtsPaid(old(owedTokens), owedTokens, old(owedReleases), owedReleases, evts, n, ty)
    }

    /** Undisturbed, it took one credit per enqueued event, and stopped early only when none were left. */
    twostate predicate Spent(evts: seq<Event>, n: nat, v25: bool)
      requires n <= |evts|
      reads cache, cache.pools
    {
      cache.quiet ==> CreditsSpent(old(cache.Within()), cache.Within(), evts, n, v25)
    }

    /** As long as the credits cached cover it, a send asks for no refill and, whatever others do, is complete. */
    twostate predicate Unrefilled(evts: seq<Event>, n: nat, v25: bool)
      requires n <= |evts|
      reads cache
    {
      UnrefilledOf(evts, n, v25, old(cache.credits), cache.credits)
    }

    /** The same after the release rules at its end. */
    twostate predicate Kept(evts: seq<Event>, n: nat, v25: bool)
      requires n <= |evts| && CountsOk(old(cache.counts))
      reads cache
    {
      KeptOf(evts, n, v25, cache.is25, old(cache.Cached()), cache.Cached())
    }

    /** A validated send up to where its used credits leave the cache. */
    method SendAndSettle(evts: seq<Event>, allNeed: bool, v25: bool) returns (count: nat)
      requires Linked(0) && Ledger(cq.read) && Sendable(evts, allNeed, v25, cache.quiet)
      requires EventTokens(evts, |evts|) <= owedTokens
      requires ty.LDB? ==> EventReleases(evts, |evts|) <= owedReleases
      modifies this`owedTokens, this`owedReleases, this`sent, qe, cache`credits, cache`trace, cache.pools
      ensures Linked(0) && Ledger(cq.read) && Sent(evts, count, v25) && Spent(evts, count, v25)
      ensures Unrefilled(evts, count, v25)
    {
      var used;
      count, used := SendQueued(evts, allNeed, v25);
      if count < |evts| { StopsWhenUsedUp(evts, count, used, old(cache.credits), v25); }
      SettleSend(evts, count, used, v25);
    }

    /** The loop, seen from the port: its queue and its ledger stay in order. */
    method SendQueued(evts: seq<Event>, allNeed: bool, v25: bool) returns (count: nat, used: PerType<nat>)
      requires Linked(0) && Ledger(cq.read) && Sendable(evts, allNeed, v25, cache.quiet)
      requires EventTokens(evts, |evts|) <= owedTokens
      requires ty.LDB? ==> EventReleases(evts, |evts|) <= owedReleases
      modifies this`owedTokens, this`owedReleases, this`sent, qe, cache`credits, cache`trace, cache.pools
      ensures Queued(0) && Ledger(cq.read) && Sent(evts, count, v25)
      ensures cache.Sound(used) && used == Charged(evts, count, v25)
      ensures count < |evts| ==> StoppedAt(evts[count], used, v25)
      ensures AtMost(used, old(cache.credits)) ==> cache.credits == old(cache.credits)
      ensures cache.quiet ==> cache.Within() == old(cache.Within())
    {
      count, used := SendLines(evts, allNeed, v25, sent, owedTokens, owedReleases);
      SentDebts(old(sent), sent, evts, count, ty, v25);
      PackedIsRead(sent, |old(sent)|, evts, count, ty, v25);
    }

    /** The used credits leave the cache. */
    method SettleSend(ghost evts: seq<Event>, ghost count: nat, used: PerType<nat>, ghost v25: bool)
      requires cache.Sound(used) && count <= |evts| && used == Charged(evts, count, v25)
      requires count < |evts| ==> StoppedAt(evts[count], used, v25)
      modifies cache`credits
      ensures cache.Valid()
      ensures cache.credits == old(cache.Unused())
      ensures AtMost(used, old(cache.credits)) ==> cache.credits == Less(old(cache.credits), used)
      ensures cache.quiet ==>
                cache.Within() == PerType(old(cache.Within()).ldb - used.ldb, old(cache.Within()).dir - used.dir)
      ensures cache.quiet && count < |evts| ==> cache.Within().At(ChargeType(evts[count], v25)) == 0
    {
      cache.Settle(used);
    }

    /** The checks in front of a send, and the send; -1 when a check fails. */
    method AttemptSend(evts: seq<Event>, allNeed: bool, v25: bool) returns (count: int)
      requires Linked(0) && Ledger(cq.read) && Sendable(evts, allNeed, v25, cache.quiet)
      requires EventTokens(evts, |evts|) <= owedTokens
      requires ty.LDB? ==> EventReleases(evts, |evts|) <= owedReleases
      modifies this`owedTokens, this`owedReleases, this`sent, qe, cache`credits, cache`trace, cache.pools
      ensures Linked(0) && Ledger(cq.read)
      ensures count == -1 <==> !enabled || !started || Rejected(evts, queueOk)
      ensures count == -1 ==> cache.credits == old(cache.credits)
      ensures count == -1 ==> sent == old(sent) && owedTokens == old(owedTokens) && owedReleases == old(owedReleases)
      ensures count != -1 ==>
                count >= 0 && Sent(evts, count, v25) && Spent(evts, count, v25) && Unrefilled(evts, count, v25)
    {
      count := -1;
      if enabled && started {
        var bad := Validate(evts);
        if !bad {
          count := SendAndSettle(evts, allNeed, v25);
        }
      }
    }

    /** __dlb2_adv_send() and, with v25, __dlb2_5_adv_send(). */
    method AdvSend(evts: seq<Event>, allNeed: bool, v25: bool) returns (count: int)
      requires Valid() && Sendable(evts, allNeed, v25, cache.quiet)
      requires EventTokens(evts, |evts|) <= owedTokens
      requires ty.LDB? ==> EventReleases(evts, |evts|) <= owedReleases
      modifies this`owedTokens, this`owedReleases, this`sent, qe, cache`credits, cache`counts, cache`trace, cache.pools
      ensures Valid() && cache.credits.ldb <= 64 && cache.credits.dir <= 64
      ensures count == -1 <==> !enabled || !started || Rejected(evts, queueOk)
      ensures count == -1 ==> sent == old(sent) && owedTokens == old(owedTokens) && owedReleases == old(owedReleases)
      ensures count != -1 ==> count >= 0 && Sent(evts, count, v25) && Spent(evts, count, v25) && Kept(evts, count, v25)
      ensures count != 0 ==> cache.counts == old(cache.counts).(enqFail := 0)
      ensures count == -1 ==> cache.Cached() == AfterSend(cache.is25, old(cache.Cached()), -1)
      ensures count == 0 ==> cache.Cached() == FruitlessSend(cache.is25, old(cache.Cached()))
    {
      count := AttemptSend(evts, allNeed, v25);
      ghost var mid := cache.Cached();
      EaseAfterSend(count);
      if count != -1 {
        EasedIsKept(evts, count, v25, cache.is25, old(cache.Cached()), mid, cache.Cached());
      }
    }

    /** dlb2_release_port_credits() at the end of a send. */
    method EaseAfterSend(count: int)
      requires Linked(0) && Ledger(cq.read)
      modifies cache`credits, cache`counts, cache`trace, cache.pools
      ensures Valid() && cache.credits.ldb <= 64 && cache.credits.dir <= 64
      ensures cache.Cached() == AfterSend(cache.is25, old(cache.Cached()), count)
      ensures count != 0 ==> cache.counts == old(cache.counts).(enqFail := 0)
      ensures cache.quiet ==> cache.Within() == old(cache.Within())
    {
      if count != 0 { SendKeepsUpTo64(cache.is25, cache.Cached(), count); }
      cache.ReleaseAfterSend(count);
    }

    /**
     __dlb2_adv_send_no_credits(): releases from load-balanced ports and batch token returns. For these commands
     its loop is the other sends' loop, which never reaches the credit check; only the entry checks differ.
     */
    method SendNoCredits(evts: seq<Event>, isBatT: bool) returns (count: int)
      requires Valid() && |evts| < 0x8000_0000
      requires forall k | 0 <= k < |evts| :: evts[k].cmd == BAT_T || (ty.LDB? && evts[k].cmd == REL)
      requires EventTokens(evts, |evts|) <= owedTokens
      requires ty.LDB? ==> EventReleases(evts, |evts|) <= owedReleases
      modifies this`owedTokens, this`owedReleases, this`sent, qe, cache`credits, cache`counts, cache`trace, cache.pools
      ensures Valid() && cache.credits.ldb <= 64 && cache.credits.dir <= 64
      ensures count == if (isBatT || enabled) && started then |evts| else -1
      ensures count == -1 ==> sent == old(sent) && owedTokens == old(owedTokens) && owedReleases == old(owedReleases)
      ensures count != -1 ==> Sent(evts, |evts|, false)
      ensures count == 0 ==> cache.Cached() == FruitlessSend(cache.is25, old(cache.Cached()))
    {
      count := AttemptUncharged(evts, isBatT);
      EaseAfterSend(count);
    }

    method AttemptUncharged(evts: seq<Event>, isBatT: bool) returns (count: int)
      requires Linked(0) && Ledger(cq.read) && |evts| < 0x8000_0000
      requires AllLegal(evts) && NonePaid(evts)
      requires EventTokens(evts, |evts|) <= owedTokens
      requires ty.LDB? ==> EventReleases(evts, |evts|) <= owedReleases
      modifies this`owedTokens, this`owedReleases, this`sent, qe, cache`credits, cache`trace, cache.pools
      ensures Linked(0) && Ledger(cq.read)
      ensures count == if (isBatT || enabled) && started then |evts| else -1
      ensures count <= 0 ==> cache.credits == old(cache.credits)
      ensures count == -1 ==> sent == old(sent) && owedTokens == old(owedTokens) && owedReleases == old(owedReleases)
      ensures count != -1 ==> Sent(evts, |evts|, false)
    {
      count := -1;
      if (isBatT || enabled) && started {
        count := SendUncharged(evts);
      }
    }

    method SendUncharged(evts: seq<Event>) returns (count: nat)
      requires Linked(0) && Ledger(cq.read) && |evts| < 0x8000_0000
      requires AllLegal(evts) && NonePaid(evts)
      requires EventTokens(evts, |evts|) <= owedTokens
      requires ty.LDB? ==> EventReleases(evts, |evts|) <= owedReleases
      modifies this`owedTokens, this`owedReleases, this`sent, qe, cache`credits, cache`trace, cache.pools
      ensures Linked(0) && Ledger(cq.read)
      ensures count == |evts| && Sent(evts, count, false) && (count == 0 ==> cache.credits == old(cache.credits))
    {
      NoneCharged(evts, |evts|, false);
      count := SendAndSettle(evts, false, false);
      NoneCharged(evts, count, false);
    }

    /**
     dlb_adv_send_wrapper() over the events in buf[from..from+num]: it stamps the command into the caller's
     events, then picks a send path. `is_bat_t` is the command itself taken as a truth value.
     */
    method SendAll(buf: array<Event>, from: nat, num: nat, cmd: nat) returns (count: int)
      requires Valid() && from + num <= buf.Length && num < 0x8000_0000
      requires cmd == BAT_T || (cmd == REL && ty.LDB?) || cmd == NEW || cmd == FWD
      requires cache.quiet || Countable(Stamped(buf[from..from + num], cmd), cache.is25)
      requires EventTokens(Stamped(buf[from..from + num], cmd), num) <= owedTokens
      requires ty.LDB? ==> EventReleases(Stamped(buf[from..from + num], cmd), num) <= owedReleases
      modifies buf, this`owedTokens, this`owedReleases, this`sent, qe,
               cache`credits, cache`counts, cache`trace, cache.pools
      ensures Valid()
      ensures if started then Restamped(buf[..], old(buf[..]), from, num, cmd) else buf[..] == old(buf[..])
      ensures started ==> cache.credits.ldb <= 64 && cache.credits.dir <= 64
      ensures count == -1 ==> sent == old(sent) && owedTokens == old(owedTokens) && owedReleases == old(owedReleases)
      ensures var evts := Stamped(old(buf[from..from + num]), cmd);
              && (count == -1 <==> !started || (CreditsRequired(cmd) && (!enabled || Rejected(evts, queueOk))))
              && (count != -1 ==> count >= 0 && Sent(evts, count, cache.is25 && CreditsRequired(cmd)))
              && (count != -1 && CreditsRequired(cmd) ==>
                    Spent(evts, count, cache.is25) && Kept(evts, count, cache.is25))
              && (count != -1 && !CreditsRequired(cmd) ==> count == num)
      ensures count == 0 ==> cache.Cached() == FruitlessSend(cache.is25, old(cache.Cached()))
    {
      if !started { return -1; }
      StampCommand(buf, from, num, cmd);
      count := SendStamped(buf[from..from + num], cmd);
    }

    /** Credits decide the path, and with credits the device does. */
    method SendStamped(evts: seq<Event>, cmd: nat) returns (count: int)
      requires Valid() && started && |evts| < 0x8000_0000
      requires cache.quiet || Countable(evts, cache.is25)
      requires cmd == BAT_T || (cmd == REL && ty.LDB?) || cmd == NEW || cmd == FWD
      requires forall k | 0 <= k < |evts| :: evts[k].cmd == cmd
      requires EventTokens(evts, |evts|) <= owedTokens
      requires ty.LDB? ==> EventReleases(evts, |evts|) <= owedReleases
      modifies this`owedTokens, this`owedReleases, this`sent, qe,
               cache`credits, cache`counts, cache`trace, cache.pools
      ensures Valid() && cache.credits.ldb <= 64 && cache.credits.dir <= 64
      ensures count == -1 ==> sent == old(sent) && owedTokens == old(owedTokens) && owedReleases == old(owedReleases)
      ensures count == -1 <==> CreditsRequired(cmd) && (!enabled || Rejected(evts, queueOk))
      ensures count != -1 ==> count >= 0 && Sent(evts, count, cache.is25 && CreditsRequired(cmd))
      ensures count != -1 && CreditsRequired(cmd) ==> Spent(evts, count, cache.is25) && Kept(evts, count, cache.is25)
      ensures count != -1 && !CreditsRequired(cmd) ==> count == |evts|
      ensures count == 0 ==> cache.Cached() == FruitlessSend(cache.is25, old(cache.Cached()))
    {
      var isBatT := cmd != 0;
      if CreditsRequired(cmd) {
        count := AdvSend(evts, true, cache.is25);
      } else {
        count := SendNoCredits(evts, isBatT);
      }
    }

    method StampCommand(buf: array<Event>, from: nat, num: nat, cmd: nat)
      requires from + num <= buf.Length
      modifies buf
      ensures Restamped(buf[..], old(buf[..]), from, num, cmd)
      ensures buf[from..from + num] == Stamped(old(buf[from..from + num]), cmd)
    {
      for i := 0 to num
        invariant forall k | 0 <= k < buf.Length ::
            buf[k] == if from <= k < from + i then old(buf[k]).(cmd := cmd) else old(buf[k])
      {
        buf[from + i] := buf[from + i].(cmd := cmd);
      }
    }

    /** A send of new or forwarded events; a forwarded one pays a release, and none pays a token. */
    method SendPaid(buf: array<Event>, from: nat, num: nat, cmd: nat) returns (count: int)
      requires Valid() && from + num <= buf.Length && num < 0x8000_0000 && (cmd == NEW || cmd == FWD)
      requires cache.quiet || Countable(Stamped(buf[from..from + num], cmd), cache.is25)
      requires ty.LDB? && cmd == FWD ==> num <= owedReleases
      modifies buf, this`owedTokens, this`owedReleases, this`sent, qe,
               cache`credits, cache`counts, cache`trace, cache.pools
      ensures Valid()
      ensures if started then Restamped(buf[..], old(buf[..]), from, num, cmd) else buf[..] == old(buf[..])
      ensures owedTokens == old(owedTokens)
      ensures count == -1 ==> owedReleases == old(owedReleases) && sent == old(sent)
      ensures count != -1 && ty.LDB? ==> owedReleases == old(owedReleases) - if cmd == FWD then count else 0
      ensures var evts := Stamped(old(buf[from..from + num]), cmd);
              && (count == -1 <==> !started || !enabled || Rejected(evts, queueOk))
              && (count != -1 ==> 0 <= count <= num && Sent(evts, count, cache.is25)
                                  && Spent(evts, count, cache.is25))
      ensures count == -1 <==> !started || !enabled || SomeUnknown(old(buf[from..from + num]), queueOk)
      ensures count != -1 ==> Delivers(old(sent), sent, old(buf[from..from + num]), count, cmd, ty, cache.is25)
      ensures CachePays(old(buf[from..from + num]), count, old(cache.credits), cache.credits, cache.is25)
      ensures count == 0 ==> cache.Cached() == FruitlessSend(cache.is25, old(cache.Cached()))
    {
      ghost var given := buf[from..from + num];
      ghost var evts := Stamped(given, cmd);
      StampedCharges(evts, cmd, num);
      ghost var before, was := sent, cache.Cached();
      count := SendAll(buf, from, num, cmd);
      EnqueueRefused(given, cmd, queueOk);
      if count != -1 {
        StampedCharges(evts, cmd, count);
        EnqueueDelivers(before, sent, given, count, cmd, ty, cache.is25);
        if count > 0 { CacheHasPaid(given, count, cmd, was, cache.Cached(), cache.is25); }
      }
    }

    /**
     dlb_send(). Undisturbed and on one credit type it sends all that the credits within reach allow; what the cache
     covers it sends whatever others do.
     */
    method DlbSend(buf: array<Event>, from: nat, num: nat) returns (count: int)
      requires Valid() && from + num <= buf.Length && num < 0x8000_0000
      requires cache.quiet || Countable(Stamped(buf[from..from + num], NEW), cache.is25)
      modifies buf, this`owedTokens, this`owedReleases, this`sent, qe,
               cache`credits, cache`counts, cache`trace, cache.pools
      ensures Valid()
      ensures if started then Restamped(buf[..], old(buf[..]), from, num, NEW) else buf[..] == old(buf[..])
      ensures owedTokens == old(owedTokens) && (ty.LDB? ==> owedReleases == old(owedReleases))
      ensures var evts := Stamped(old(buf[from..from + num]), NEW);
              && (count == -1 <==> !started || !enabled || Rejected(evts, queueOk))
              && (count == -1 ==> sent == old(sent))
              && (count != -1 ==> 0 <= count <= num && Sent(evts, count, cache.is25))
              && (forall t | count != -1 && cache.quiet && OneType(evts, t, cache.is25) ::
                    count == Min(num, old(cache.Within()).At(t)))
      ensures count == 0 ==> cache.Cached() == FruitlessSend(cache.is25, old(cache.Cached()))
      ensures count == -1 <==> !started || !enabled || SomeUnknown(old(buf[from..from + num]), queueOk)
      ensures count != -1 ==> Delivers(old(sent), sent, old(buf[from..from + num]), count, NEW, ty, cache.is25)
      ensures CachePays(old(buf[from..from + num]), count, old(cache.credits), cache.credits, cache.is25)
    {
      ghost var evts := Stamped(buf[from..from + num], NEW);
      count := SendPaid(buf, from, num, NEW);
      if count != -1 {
        forall t | cache.quiet && OneType(evts, t, cache.is25)
          ensures count == Min(num, old(cache.Within()).At(t))
        {
          CountIsMin(evts, count, t, cache.is25, old(cache.Within()).At(t), cache.Within().At(t));
        }
      }
    }

    /** dlb_forward(): the caller must owe the releases, since this call does not cap them. */
    method Forward(buf: array<Event>, from: nat, num: nat) returns (count: int)
      requires Valid() && from + num <= buf.Length && num < 0x8000_0000
      requires cache.quiet || Countable(Stamped(buf[from..from + num], FWD), cache.is25)
      requires ty.LDB? ==> num <= owedReleases
      modifies buf, this`owedTokens, this`owedReleases, this`sent, qe,
               cache`credits, cache`counts, cache`trace, cache.pools
      ensures Valid()
      ensures if started then Restamped(buf[..], old(buf[..]), from, num, FWD) else buf[..] == old(buf[..])
      ensures owedTokens == old(owedTokens)
      ensures var evts := Stamped(old(buf[from..from + num]), FWD);
              && (count == -1 <==> !started || !enabled || Rejected(evts, queueOk))
              && (count == -1 ==> sent == old(sent) && owedReleases == old(owedReleases))
              && (count != -1 ==> 0 <= count <= num && Sent(evts, count, cache.is25))
      ensures count != -1 && ty.LDB? ==> owedReleases == old(owedReleases) - count
      ensures count == -1 <==> !started || !enabled || SomeUnknown(old(buf[from..from + num]), queueOk)
      ensures count != -1 ==> Delivers(old(sent), sent, old(buf[from..from + num]), count, FWD, ty, cache.is25)
      ensures CachePays(old(buf[from..from + num]), count, old(cache.credits), cache.credits, cache.is25)
    {
      count := SendPaid(buf, from, num, FWD);
    }

    /** dlb_release(): never more than is owed. It lays out `num` events on the stack before it caps that number. */
    method Release(num: nat) returns (count: int)
      requires Valid() && num <= stackRoom
      modifies this`owedTokens, this`owedReleases, this`sent, qe, cache`credits, cache`counts, cache`trace, cache.pools
      ensures Valid()
      ensures count == if ty.DIR? || !started then -1 else Min(num, old(owedReleases))
      ensures owedTokens == old(owedTokens)
      ensures owedReleases == old(owedReleases) - if count == -1 then 0 else count
      ensures count == -1 ==> sent == old(sent)
      ensures count != -1 ==> SlotReleases(sent) == SlotReleases(old(sent)) + count
    {
      if ty.DIR? { return -1; }
      count := ReleaseOwed(if num > owedReleases then owedReleases else num);
    }

    /** Empty QEs with the release command, for no more than is owed. */
    method ReleaseOwed(num: nat) returns (count: int)
      requires Valid() && ty.LDB? && num <= owedReleases
      modifies this`owedTokens, this`owedReleases, this`sent, qe, cache`credits, cache`counts, cache`trace, cache.pools
      ensures Valid()
      ensures count == if started then num else -1
      ensures owedTokens == old(owedTokens)
      ensures owedReleases == old(owedReleases) - if count == -1 then 0 else count
      ensures count == -1 ==> sent == old(sent)
      ensures count != -1 ==> SlotReleases(sent) == SlotReleases(old(sent)) + count
    {
      var send := new Event[num];
      ghost var evts := Stamped(send[0..num], REL);
      StampedCharges(evts, REL, num);
      NoneCharged(evts, num, cache.is25);
      count := SendAll(send, 0, num, REL);
    }

    /** dlb_pop_cq(): one batch token return for at most the tokens owed. */
    method PopCq(num: nat) returns (count: int)
      requires Valid()
      modifies this`owedTokens, this`owedReleases, this`sent, qe, cache`credits, cache`counts, cache`trace, cache.pools
      ensures Valid()
      ensures var tokens := Min(num, old(owedTokens));
              count == if tokens == 0 then 0 else if started then tokens else -1
      ensures owedTokens == old(owedTokens) - (if count == -1 then 0 else count)
      ensures ty.LDB? ==> owedReleases == old(owedReleases)
      ensures count > 0 ==> cache.credits.ldb <= 64 && cache.credits.dir <= 64
    {
      var tokens := if num < owedTokens then num else owedTokens;
      if tokens == 0 { return 0; }
      var send := new Event[1];
      send[0] := Event(0, 0, 0, false, 0, tokens - 1, 0, NOOP);
      assert Stamped(send[0..1], BAT_T) == [Event(0, 0, 0, false, 0, tokens - 1, 0, BAT_T)];
      count := SendAll(send, 0, 1, BAT_T);
      if count == 1 {
        count := send[0].flow + 1;
      }
    }

    // The receive path.

    /** Any steps of other agents on the pools and of the device on this CQ. */
    method Interfere(ghost extra: nat)
      requires Linked(extra)
      modifies cache.pools, cache`incoming, cq`written, cq`mem
      ensures Linked(extra) && old(cq.written) <= cq.written
      ensures cache.quiet ==> cache.pools.avail == old(cache.pools.avail)
    {
      var n :| 0 <= n;
      for i := 0 to n
        invariant Linked(extra) && old(cq.written) <= cq.written
        invariant cache.quiet ==> cache.pools.avail == old(cache.pools.avail)
      {
        cache.Interfere(NONE);
        DeviceStep(extra);
      }
    }

    /** The device may schedule one event to this port: a token, a history list entry and a credit are there for it. */
    method DeviceStep(ghost extra: nat)
      requires Linked(extra)
      modifies cache.pools`elsewhere, cache`incoming, cq`written, cq`mem
      ensures Linked(extra) && old(cq.written) <= cq.written
    {
      var event: Received := *;
      if  && |cq.written| < SlotTokens(sent) + cq.depth
          && (ty.LDB? ==> |cq.written| < SlotReleases(sent) + histSize)
          && 0 < cache.pools.elsewhere.At(Home())
      {
        cq.DeviceWrite(event);
        cache.Announce(Home());
      }
    }

    /** The depth counter an event counts towards; a directed port has one queue, its own. */
    function LevelKey(e: Received): Key {
      Key(if ty.DIR? then id else e.qid, e.depth)
    }

    function LevelKeys(events: seq<Received>): seq<Key> {
      seq(|events|, i requires 0 <= i < |events| => LevelKey(events[i]))
    }

    /** An event counts at its queue, on a directed port at the queue that has the port's number. */
    lemma LevelsByQueue(events: seq<Received>, k: nat)
      requires k < |events|
      ensures |LevelKeys(events)| == |events|
      ensures LevelKeys(events)[k] == Key(if ty.LDB? then events[k].qid else id, events[k].depth)
    {
    }

    /** The receive loop: events leave the CQ in the order the device wrote them, until max or an empty CQ. */
    method ReadCq(max: nat) returns (events: seq<Received>)
      requires Linked(0) && levels.Valid()
      modifies cache.pools, cache`incoming, cq, levels
      ensures Linked(|events|) && old(cq.written) <= cq.written
      ensures |events| <= max && cq.read == old(cq.read) + |events|
      ensures Copied(events, cq.written, old(cq.read))
      ensures |events| == max || cq.read >= |old(cq.written)|
      ensures levels.Valid() && levels.history == old(levels.history) + LevelKeys(events)
      ensures cache.quiet ==> cache.pools.avail == old(cache.pools.avail)
    {
      events := [];
      while |events| < max
        invariant Linked(|events|) && old(cq.written) <= cq.written
        invariant |events| <= max && cq.read == old(cq.read) + |events|
        invariant Copied(events, cq.written, old(cq.read))
        invariant levels.Valid() && levels.history == old(levels.history) + LevelKeys(events)
        invariant cache.quiet ==> cache.pools.avail == old(cache.pools.avail)
      {
        var found, e := ReadNext(|events|);
        if !found { break; }
        events := events + [e];
      }
    }

    /** One pass of the receive loop. */
    method ReadNext(ghost extra: nat) returns (found: bool, e: Received)
      requires Linked(extra) && levels.Valid()
      modifies cache.pools, cache`incoming, cq, levels
      ensures old(cq.written) <= cq.written && levels.Valid()
      ensures Linked(if found then extra + 1 else extra) && cq.read == old(cq.read) + if found then 1 else 0
      ensures found ==> e == cq.written[old(cq.read)] && levels.history == old(levels.history) + [LevelKey(e)]
      ensures !found ==> cq.read == |cq.written| && levels.history == old(levels.history)
      ensures cache.quiet ==> cache.pools.avail == old(cache.pools.avail)
    {
      Interfere(extra);
      found := !cq.IsEmpty();
      if found {
        e := ReadOne(extra);
      } else {
        e := Received(0, 0, 0, 0);
      }
    }

    /** One pass of the receive loop over a CQ that is not empty. */
    method ReadOne(ghost extra: nat) returns (e: Received)
      requires Linked(extra) && !cq.IsEmpty() && levels.Valid()
      modifies cq`idx, cq`gen, cq`read, levels
      ensures Linked(extra + 1) && cq.read == old(cq.read) + 1
      ensures e == cq.written[old(cq.read)]
      ensures levels.Valid() && levels.history == old(levels.history) + [LevelKey(e)]
    {
      e := cq.Next();
      levels.Bump(LevelKey(e));
    }

    /** __dlb_issue_int_arm_hcw(), without reserved tokens. */
    method ArmInterrupt(ghost extra: nat, ghost n: nat)
      requires Linked(extra) && Ledger(n)
      modifies this`sent, this`intArmed, qe
      ensures Linked(extra) && Ledger(n) && intArmed && ArmSent(old(sent), sent)
    {
      ClearLine();
      qe[0] := qe[0].(cmd := ARM);
      ghost var line := qe[..];
      assert forall k | 0 <= k < 4 :: CmdTokens(line[k].cmd, line[k].flow) == 0 && CmdReleases(line[k].cmd) == 0;
      OneMoreLine(sent, line);
      EnqueueFour();
      intArmed := true;
    }

    /** Some pool holds less than a batch. */
    predicate PoolsLow()
      reads cache.pools
    {
      cache.pools.avail.ldb < BATCH || (!cache.is25 && cache.pools.avail.dir < BATCH)
    }

    /** LOW_POOL_CREDITS: one atomic read of each pool word. */
    method LowPoolCredits() returns (low: bool)
      requires cache.Valid()
      modifies cache.pools
      ensures cache.Valid() && (cache.quiet ==> cache.pools.avail == old(cache.pools.avail) && low == PoolsLow())
      ensures cache.quiet ==> (low <==> cache.pools.avail.ldb < 32 || (!cache.is25 && cache.pools.avail.dir < 32))
    {
      cache.Interfere(NONE);
      low := cache.pools.avail.ldb < BATCH;
      if !low && !cache.is25 {
        cache.Interfere(NONE);
        low := cache.pools.avail.dir < BATCH;
      }
    }

    /** wait_func on an empty CQ: arm the interrupt unless it is armed, block; the port may be disabled meanwhile. */
    method Wait(ghost n: nat) returns (failed: bool)
      requires Linked(0) && Ledger(n) && Bounded()
      modifies this`sent, this`intArmed, this`enabled, this`waits, qe, cache.pools, cache`incoming, cq`written, cq`mem
      ensures Linked(0) && Ledger(n) && Bounded() && old(cq.written) <= cq.written && waits == old(waits) + 1
    {
      failed, waits := false, waits + 1;
      var interrupt: bool := *;
      if interrupt { failed := BlockOnInterrupt(n); }
      enabled := *;
      Interfere(0);
    }

    /** dlb_block_on_cq_interrupt(): a failed ioctl leaves the interrupt armed. */
    method BlockOnInterrupt(ghost n: nat) returns (failed: bool)
      requires Linked(0) && Ledger(n)
      modifies this`sent, this`intArmed, qe
      ensures Linked(0) && Ledger(n) && intArmed == failed
      ensures if old(intArmed) then sent == old(sent) else ArmSent(old(sent), sent)
    {
      if !intArmed { ArmInterrupt(0, n); }
      failed := *;
      intArmed := failed;
    }

    /** Before blocking, hand back every cached credit if the pools are low. */
    method ReleaseIfLow(ghost extra: nat)
      requires Linked(extra) && Bounded()
      modifies cache.pools, cache`credits, cache`counts, cache`trace
      ensures Linked(extra) && Bounded()
      ensures exists low :: cache.Cached() == AfterRule(ReturnAll, low, cache.is25, old(cache.Cached()))
      ensures Eased(ZeroDeq, old(cache.Cached()), cache.Cached())
      ensures cache.quiet ==> cache.Cached() == AfterRule(ReturnAll, old(PoolsLow()), cache.is25, old(cache.Cached()))
    {
      var low := LowPoolCredits();
      cache.CheckAndRelease(ReturnAll, low);
    }

    /** Whether the application is to be told that the port is disabled and drained. */
    method Gone(ghost extra: nat) returns (gone: bool, empty: bool)
      requires Linked(extra)
      modifies cache.pools, cache`incoming, cq`written, cq`mem
      ensures Linked(extra) && old(cq.written) <= cq.written
      ensures empty == cq.IsEmpty() == (cq.read == |cq.written|) && gone == (!enabled && empty)
      ensures cache.quiet ==> cache.pools.avail == old(cache.pools.avail)
    {
      Interfere(extra);
      empty := cq.IsEmpty();
      gone := !enabled && empty;
    }

    /** A second look, and with nothing to receive, a wait. */
    method WaitIfEmpty() returns (failed: bool, denied: bool)
      requires Valid()
      modifies this`sent, this`intArmed, this`enabled, this`waits, qe, cache.pools, cache`incoming, cache`credits,
               cache`counts, cache`trace, cq`written, cq`mem
      ensures Valid() && old(cq.written) <= cq.written
      ensures denied ==> failed && !enabled && cq.read == |cq.written|
      ensures !failed ==> enabled || cq.read < |cq.written|
      ensures if waits == old(waits) then !failed && cq.read < |cq.written| && cache.Cached() == old(cache.Cached())
              else waits == old(waits) + 1
      ensures Eased(ZeroDeq, old(cache.Cached()), cache.Cached())
    {
      failed, denied := false, false;
      Interfere(0);
      if cq.IsEmpty() {
        failed, denied := AwaitEvent();
      }
    }

    /** With nothing to receive, wait for an event. */
    method AwaitEvent() returns (failed: bool, denied: bool)
      requires Valid()
      modifies this`sent, this`intArmed, this`enabled, this`waits, qe, cache.pools, cache`incoming, cache`credits,
               cache`counts, cache`trace, cq`written, cq`mem
      ensures Valid() && old(cq.written) <= cq.written
      ensures denied ==> failed && !enabled && cq.read == |cq.written|
      ensures !failed ==> enabled || cq.read < |cq.written|
      ensures waits == old(waits) + 1
      ensures cache.quiet ==> cache.Cached() == AfterRule(ReturnAll, old(PoolsLow()), cache.is25, old(cache.Cached()))
      ensures Eased(ZeroDeq, old(cache.Cached()), cache.Cached())
    {
      ReleaseIfLow(0);
      failed := Wait(cq.read);
      denied := false;
      if !failed {
        var empty;
        failed, empty := Gone(0);
        denied := failed;
      }
    }

    /** In front of the receive loop: hand back excess credits and, if asked to, wait for an event. */
    method Prepare(wait: bool) returns (failed: bool, denied: bool)
      requires Valid() && started
      modifies this`sent, this`intArmed, this`enabled, this`waits, qe, cache.pools, cache`incoming, cache`credits,
               cache`counts, cache`trace, cq`written, cq`mem
      ensures Valid() && old(cq.written) <= cq.written
      ensures !failed && waits == old(waits) ==>
                cache.Cached() == AfterRule(BatchExceed, true, cache.is25, old(cache.Cached()))
      ensures denied ==> failed && !enabled && cq.read == |cq.written|
      ensures !failed ==> enabled || cq.read < |cq.written|
      ensures failed && !denied ==> wait && waits == old(waits) + 1
      ensures wait && !failed && waits == old(waits) ==> cq.read < |cq.written|
      ensures waits == old(waits) || (wait && waits == old(waits) + 1)
      ensures !wait ==> enabled == old(enabled) && denied == failed
      ensures Eased(ZeroDeq, old(cache.Cached()), cache.Cached())
      ensures !wait ==> sent == old(sent)
    {
      failed := EaseExcess();
      denied := failed;
      if !failed && wait {
        failed, denied := WaitIfEmpty();
      }
    }

    /** The first look and, unless it ends the call, the release of excess credits. */
    method EaseExcess() returns (failed: bool)
      requires Valid()
      modifies cache.pools, cache`incoming, cache`credits, cache`counts, cache`trace, cq`written, cq`mem
      ensures Valid() && old(cq.written) <= cq.written && (failed <==> !enabled && cq.read == |cq.written|)
      ensures cache.Cached() == if failed then old(cache.Cached())
                                else AfterRule(BatchExceed, true, cache.is25, old(cache.Cached()))
    {
      var empty;
      failed, empty := Gone(0);
      if !failed { cache.CheckAndRelease(BatchExceed, true); }
    }

    /** With epoll, an emptied CQ means releasing credits when the pools are low and arming the interrupt. */
    method RearmEpoll(ghost extra: nat, ghost n: nat)
      requires Linked(extra) && Ledger(n) && Bounded() && epoll
      modifies this`sent, this`intArmed, qe, cache.pools, cache`incoming, cache`credits,
               cache`counts, cache`trace, cq`written, cq`mem
      ensures Linked(extra) && Ledger(n) && Bounded() && old(cq.written) <= cq.written
      ensures Eased(ZeroDeq, old(cache.Cached()), cache.Cached())
      ensures cq.read == |cq.written| && cache.quiet ==>
                cache.Cached() == AfterRule(ReturnAll, old(PoolsLow()), cache.is25, old(cache.Cached()))
      ensures cq.read < |cq.written| ==> cache.Cached() == old(cache.Cached())
      ensures cq.read == |cq.written| && fdReadable ==> intArmed
      ensures if cq.read == |cq.written| && fdReadable then ArmSent(old(sent), sent) else sent == old(sent)
    {
      var gone, empty := Gone(extra);
      if empty {
        ReleaseIfLow(extra);
        if fdReadable { ArmInterrupt(extra, n); }
      }
    }

    /** Behind the receive loop: the n events add to both debts and bring their credits. */
    method Account(n: nat, ghost before: Cache)
      requires Linked(n) && n <= cq.read && Ledger(cq.read - n) && Bounded()
      requires CountsOk(before.counts) && Eased(ZeroDeq, before, cache.Cached())
      modifies this`owedTokens, this`owedReleases, cache.pools, cache`incoming, cache`credits, cache`counts, cache`trace
      ensures Valid() && owedTokens == old(owedTokens) + n
      ensures ty.LDB? ==> owedReleases == old(owedReleases) + n
      ensures cache.Cached() == AfterRule(ZeroDeq, n == 0, cache.is25, WithReceived(old(cache.Cached()), n))
      ensures n == 0 ==> Progressed(ZeroDeq, cache.is25, before, cache.Cached())
    {
      Collect(n);
      IdleRule(n == 0);
      if n == 0 {
        ReceiveOfNothing(old(cache.Cached()));
        IdleRuleProgresses(ZeroDeq, cache.is25, before, old(cache.Cached()));
      }
    }

    method IdleRule(idle: bool)
      requires Valid()
      modifies cache.pools, cache`credits, cache`counts, cache`trace
      ensures Valid() && cache.Cached() == AfterRule(ZeroDeq, idle, cache.is25, old(cache.Cached()))
    {
      cache.CheckAndRelease(ZeroDeq, idle);
    }

    /** The credits of received events go to the port's own type, on v2.5 to the only one there is. */
    function WithReceived(c: Cache, n: nat): Cache {
      if cache.is25 || ty.LDB? then c.(credits := PerType(c.credits.ldb + n, c.credits.dir))
      else c.(credits := PerType(c.credits.ldb, c.credits.dir + n))
    }

    /** The cache after a receive of n events that does not pop. */
    function AfterReceive(c: Cache, n: nat): Cache
      requires CountsOk(c.counts)
    {
      AfterRule(ZeroDeq, n == 0, cache.is25, WithReceived(AfterRule(BatchExceed, true, cache.is25, c), n))
    }

    lemma ReceiveOfNothing(c: Cache)
      requires CountsOk(c.counts)
      ensures WithReceived(c, 0) == c && AfterReceive(c, 0) == EmptyReceive(cache.is25, c)
    {
    }

    method Collect(n: nat)
      requires Linked(n) && n <= cq.read && Ledger(cq.read - n) && Bounded()
      modifies this`owedTokens, this`owedReleases, cache`incoming, cache`credits, cache`trace
      ensures Valid() && owedTokens == old(owedTokens) + n
      ensures ty.LDB? ==> owedReleases == old(owedReleases) + n
      ensures cache.Cached() == WithReceived(old(cache.Cached()), n)
    {
      OweFor(n);
      cache.CollectCredits(Home(), n);
    }

    /** inc_port_owed_tokens() and inc_port_owed_releases(). */
    method OweFor(n: nat)
      requires Linked(n) && n <= cq.read && Ledger(cq.read - n)
      modifies this`owedTokens, this`owedReleases
      ensures Ledger(cq.read) && owedTokens == old(owedTokens) + n
      ensures ty.LDB? ==> owedReleases == old(owedReleases) + n
    {
      owedTokens := W16(owedTokens + n);
      owedReleases := W16(owedReleases + n);
    }

    /** The receive loop and, with epoll, what follows an emptied CQ. */
    method ReadAndRearm(max: nat) returns (events: seq<Received>)
      requires Valid() && levels.Valid()
      modifies this`sent, this`intArmed, qe, levels, cq,
               cache.pools, cache`incoming, cache`credits, cache`counts, cache`trace
      ensures Linked(|events|) && Ledger(old(cq.read)) && Bounded() && levels.Valid() && old(cq.written) <= cq.written
      ensures |events| <= max && cq.read == old(cq.read) + |events|
      ensures Copied(events, cq.written, old(cq.read))
      ensures |events| == max || cq.read >= |old(cq.written)|
      ensures levels.history == old(levels.history) + LevelKeys(events)
      ensures !epoll ==> cache.Cached() == old(cache.Cached()) && sent == old(sent)
      ensures epoll && cq.read == |cq.written| && fdReadable ==> intArmed
      ensures Eased(ZeroDeq, old(cache.Cached()), cache.Cached())
    {
      events := ReadCq(max);
      if epoll { RearmEpoll(|events|, cq.read - |events|); }
    }

    /** The receive loop and its accounting. */
    method Take(max: nat, ghost before: Cache) returns (events: seq<Received>)
      requires Valid() && levels.Valid()
      requires CountsOk(before.counts) && Eased(ZeroDeq, before, cache.Cached())
      modifies this`sent, this`intArmed, this`owedTokens, this`owedReleases, qe, levels, cq,
               cache.pools, cache`incoming, cache`credits, cache`counts, cache`trace
      ensures Valid() && levels.Valid() && old(cq.written) <= cq.written
      ensures |events| <= max && cq.read == old(cq.read) + |events|
      ensures Copied(events, cq.written, old(cq.read))
      ensures |events| == max || cq.read >= |old(cq.written)|
      ensures levels.history == old(levels.history) + LevelKeys(events)
      ensures owedTokens == old(owedTokens) + |events|
      ensures ty.LDB? ==> owedReleases == old(owedReleases) + |events|
      ensures !epoll ==>
                cache.Cached() ==
                AfterRule(ZeroDeq, |events| == 0, cache.is25, WithReceived(old(cache.Cached()), |events|))
      ensures epoll && cq.read == |cq.written| && fdReadable ==> intArmed
      ensures |events| == 0 ==> Progressed(ZeroDeq, cache.is25, before, cache.Cached())
      ensures !epoll ==> sent == old(sent)
    {
      events := ReadAndRearm(max);
      EasedTwice(ZeroDeq, before, old(cache.Cached()), cache.Cached());
      Account(|events|, before);
    }

    /** Receive and, if asked to, give the tokens of what was received back. */
    method TakeAndPop(max: nat, pop: bool, ghost before: Cache) returns (events: seq<Received>)
      requires Valid() && levels.Valid() && started
      requires CountsOk(before.counts) && Eased(ZeroDeq, before, cache.Cached())
      modifies this`sent, this`intArmed, this`owedTokens, this`owedReleases, qe, levels, cq,
               cache.pools, cache`incoming, cache`credits, cache`counts, cache`trace
      ensures Valid() && levels.Valid() && old(cq.written) <= cq.written
      ensures |events| <= max && cq.read == old(cq.read) + |events|
      ensures Copied(events, cq.written, old(cq.read))
      ensures |events| == max || cq.read >= |old(cq.written)|
      ensures levels.history == old(levels.history) + LevelKeys(events)
      ensures owedTokens == old(owedTokens) + if pop then 0 else |events|
      ensures ty.LDB? ==> owedReleases == old(owedReleases) + |events|
      ensures |events| > 0 && pop ==> cache.credits.ldb <= 64 && cache.credits.dir <= 64
      ensures !epoll && (!pop || |events| == 0) ==>
                cache.Cached() ==
                AfterRule(ZeroDeq, |events| == 0, cache.is25, WithReceived(old(cache.Cached()), |events|))
      ensures epoll && cq.read == |cq.written| && fdReadable ==> intArmed
      ensures |events| == 0 ==> Progressed(ZeroDeq, cache.is25, before, cache.Cached())
      ensures !epoll && !pop ==> sent == old(sent)
    {
      events := Take(max, before);
      if pop && |events| > 0 {
        PopReceived(|events|);
      }
    }

    method PopReceived(n: nat)
      requires Valid() && started && 0 < n <= owedTokens
      modifies this`owedTokens, this`owedReleases, this`sent, qe, cache`credits, cache`counts, cache`trace, cache.pools
      ensures Valid() && owedTokens == old(owedTokens) - n && (ty.LDB? ==> owedReleases == old(owedReleases))
      ensures cache.credits.ldb <= 64 && cache.credits.dir <= 64
    {
      var popped := PopCq(n);
    }

    /** __dlb_recv(): dlb_recv() with pop, dlb_recv_no_pop() without; `denied` is the errno EACCES. */
    method Recv(max: nat, wait: bool, pop: bool) returns (n: int, events: seq<Received>, denied: bool)
      requires Valid() && levels.Valid()
      modifies this`sent, this`intArmed, this`enabled, this`waits, this`receives, this`owedTokens, this`owedReleases,
               qe, levels, cq, cache.pools, cache`incoming, cache`credits, cache`counts, cache`trace
      ensures Valid() && levels.Valid() && old(cq.written) <= cq.written
      ensures n == -1 || 0 <= n <= max
      ensures |events| == (if n == -1 then 0 else n) && cq.read == old(cq.read) + |events|
      ensures Copied(events, cq.written, old(cq.read))
      ensures n != -1 ==> n == max || cq.read >= |old(cq.written)|
      ensures levels.history == old(levels.history) + LevelKeys(events)
      ensures owedTokens == old(owedTokens) + if pop then 0 else |events|
      ensures ty.LDB? ==> owedReleases == old(owedReleases) + |events|
      ensures n > 0 && pop ==> cache.credits.ldb <= 64 && cache.credits.dir <= 64
      ensures n >= 0 && waits == old(waits) && !epoll && (!pop || n == 0) ==>
                cache.Cached() == AfterReceive(old(cache.Cached()), n)
      ensures epoll && n != -1 && cq.read == |cq.written| && fdReadable ==> intArmed
      ensures n == 0 ==> Progressed(ZeroDeq, cache.is25, old(cache.Cached()), cache.Cached())
      ensures denied ==> n == -1 && started && !enabled && cq.read == |cq.written|
      ensures n == -1 && !denied ==> !started || (wait && waits == old(waits) + 1)
      ensures n == -1 && !wait ==> !started || !old(enabled)
      ensures n == 0 && 0 < max ==> enabled
      ensures !wait && started && !old(enabled) && 0 < max ==> (denied <==> n <= 0)
      ensures waits == old(waits) || (wait && waits == old(waits) + 1)
      ensures wait && n == 0 && 0 < max ==> waits == old(waits) + 1
      ensures n != -1 ==> started
      ensures !wait && !epoll && !pop ==> sent == old(sent)
      ensures receives == old(receives) + 1
    {
      n, events, denied := -1, [], false;
      receives := receives + 1;
      if started {
        n, events, denied := RecvStarted(max, wait, pop);
      }
    }

    /** The receive of a port whose domain is started. */
    method RecvStarted(max: nat, wait: bool, pop: bool) returns (n: int, events: seq<Received>, denied: bool)
      requires Valid() && levels.Valid() && started
      modifies this`sent, this`intArmed, this`enabled, this`waits, this`owedTokens, this`owedReleases,
               qe, levels, cq, cache.pools, cache`incoming, cache`credits, cache`counts, cache`trace
      ensures Valid() && levels.Valid() && old(cq.written) <= cq.written
      ensures n == -1 || 0 <= n <= max
      ensures |events| == (if n == -1 then 0 else n) && cq.read == old(cq.read) + |events|
      ensures Copied(events, cq.written, old(cq.read))
      ensures n != -1 ==> n == max || cq.read >= |old(cq.written)|
      ensures levels.history == old(levels.history) + LevelKeys(events)
      ensures owedTokens == old(owedTokens) + if pop then 0 else |events|
      ensures ty.LDB? ==> owedReleases == old(owedReleases) + |events|
      ensures n > 0 && pop ==> cache.credits.ldb <= 64 && cache.credits.dir <= 64
      ensures n >= 0 && waits == old(waits) && !epoll && (!pop || n == 0) ==>
                cache.Cached() == AfterReceive(old(cache.Cached()), n)
      ensures epoll && n != -1 && cq.read == |cq.written| && fdReadable ==> intArmed
      ensures n == 0 ==> Progressed(ZeroDeq, cache.is25, old(cache.Cached()), cache.Cached())
      ensures denied ==> n == -1 && !enabled && cq.read == |cq.written|
      ensures n == -1 && !denied ==> wait && waits == old(waits) + 1
      ensures n == -1 && !wait ==> !old(enabled)
      ensures n == 0 && 0 < max ==> enabled
      ensures !wait && !old(enabled) && 0 < max ==> (denied <==> n <= 0)
      ensures waits == old(waits) || (wait && waits == old(waits) + 1)
      ensures wait && n == 0 && 0 < max ==> waits == old(waits) + 1
      ensures !wait && !epoll && !pop ==> sent == old(sent)
    {
      n, events := -1, [];
      var failed;
      failed, denied := Prepare(wait);
      if failed { return; }
      events := TakeAndPop(max, pop, old(cache.Cached()));
      n := |events|;
    }

    /**
     The inner loop of the worker: receive until there is an event. `patience` bounds the calls; when it runs out the
     worker has been stopped. After more than 64 calls without an event the port caches no credits.
     */
    method ReceiveUntilEvent(max: nat, wait: bool, patience: nat)
      returns (n: int, events: seq<Received>, denied: bool)
      requires Valid() && levels.Valid()
      modifies this`sent, this`intArmed, this`enabled, this`waits, this`receives, this`owedTokens, this`owedReleases,
               qe, levels, cq, cache.pools, cache`incoming, cache`credits, cache`counts, cache`trace
      ensures Valid() && levels.Valid() && old(cq.written) <= cq.written
      ensures n == -1 || 0 <= n <= max
      ensures |events| == (if n == -1 then 0 else n) && cq.read == old(cq.read) + |events|
      ensures Copied(events, cq.written, old(cq.read))
      ensures levels.history == old(levels.history) + LevelKeys(events)
      ensures owedTokens == old(owedTokens)
      ensures ty.LDB? ==> owedReleases == old(owedReleases) + |events|
      ensures n == 0 ==> receives == old(receives) + patience
      ensures n == 0 && patience > 64 ==> Drained(cache.is25, cache.Cached())
      ensures denied ==> n == -1 && started && !enabled
      ensures n == -1 && !denied ==> !started || wait
      ensures n > 0 ==> started
    {
      n, events, denied := 0, [], false;
      var polls := 0;
      while n == 0 && polls < patience
        invariant Valid() && levels.Valid() && old(cq.written) <= cq.written && polls <= patience
        invariant n == -1 || 0 <= n <= max
        invariant |events| == (if n == -1 then 0 else n) && cq.read == old(cq.read) + |events|
        invariant Copied(events, cq.written, old(cq.read))
        invariant levels.history == old(levels.history) + LevelKeys(events)
        invariant owedTokens == old(owedTokens) && (ty.LDB? ==> owedReleases == old(owedReleases) + |events|)
        invariant receives == old(receives) + polls
        invariant n == 0 ==> Drains(ZeroDeq, cache.is25, polls, cache.Cached())
        invariant denied ==> n == -1 && started && !enabled
        invariant n == -1 && !denied ==> !started || wait
        invariant n > 0 ==> started
        decreases patience - polls
      {
        ghost var before := cache.Cached();
        n, events, denied := Recv(max, wait, true);
        if n == 0 { ProgressDrains(ZeroDeq, cache.is25, polls, before, cache.Cached()); }
        polls := polls + 1;
      }
    }

    /**
     dlb_adv_send(): refuse to return more tokens or complete more events than are owed, then send. It always takes
     the v2 path, so on v2.5 a directed event needs a credit of a pool that has none.
     */
    method DlbAdvSend(evts: seq<Event>) returns (count: int)
      requires Valid() && Sendable(evts, false, false, cache.quiet)
      requires TotalsTell(EventTokens(evts, |evts|), EventReleases(evts, |evts|), owedTokens, owedReleases)
      modifies this`owedTokens, this`owedReleases, this`sent, qe, cache`credits, cache`counts, cache`trace, cache.pools
      ensures Valid()
      ensures count == -1 <==>
                EventTokens(evts, |evts|) > old(owedTokens) || EventReleases(evts, |evts|) > old(owedReleases)
                || !enabled || !started || Rejected(evts, queueOk)
      ensures count == -1 ==> sent == old(sent) && owedTokens == old(owedTokens) && owedReleases == old(owedReleases)
      ensures count != -1 ==> count >= 0 && Sent(evts, count, false) && Spent(evts, count, false)
    {
      var numTokens, numReleases := CountDebts(evts);
      WrappedTotals(EventTokens(evts, |evts|), EventReleases(evts, |evts|), owedTokens, owedReleases);
      if numTokens > owedTokens || numReleases > owedReleases { return -1; }
      count := AdvSend(evts, false, false);
    }

    /** The totals are kept in 16 bits. */
    method CountDebts(evts: seq<Event>) returns (numTokens: nat, numReleases: nat)
      requires AllLegal(evts)
      ensures numTokens == W16(EventTokens(evts, |evts|)) && numReleases == W16(EventReleases(evts, |evts|))
    {
      numTokens, numReleases := 0, 0;
      for i := 0 to |evts|
        invariant numTokens == W16(EventTokens(evts, i)) && numReleases == W16(EventReleases(evts, i))
      {
        var cmd := evts[i].cmd;
        var flow := evts[i].flow * (if cmd == BAT_T then 1 else 0);
        W16Adds(EventTokens(evts, i), cmd % 2);
        numTokens := W16(numTokens + cmd % 2);
        W16Adds(EventTokens(evts, i) + cmd % 2, flow);
        numTokens := W16(numTokens + flow);
        W16Adds(EventReleases(evts, i), CmdReleases(cmd));
        numReleases := W16(numReleases + CmdReleases(cmd));
      }
    }

    /** __dlb_disable_port() on an idle port: it keeps no credits. */
    method Disable(schedOnly: bool)
      requires Valid()
      modifies this`enabled, cache`credits, cache`counts, cache`trace, cache.pools
      ensures Valid() && enabled == (old(enabled) && schedOnly)
      ensures Drained(cache.is25, cache.Cached())
    {
      cache.CheckAndRelease(ReturnAll, true);
      if !schedOnly { enabled := false; }
    }

    /**
     One pass of the worker loop: receive with pop, then release as many as were received. A receive that is denied
     ends the loop. Any other failure is taken for a number of events: `lost` says that the worker has called
     dlb_release() for 2^32 - 1 events, which no stack has room for, and nothing is said of what it does from there.
     */
    method WorkerPass(depth: nat, wait: bool, patience: nat) returns (received: int, released: int, lost: bool)
      requires Valid() && levels.Valid() && ty.LDB? && depth <= stackRoom
      modifies this`sent, this`intArmed, this`enabled, this`waits, this`receives, this`owedTokens, this`owedReleases,
               qe, levels, cq, cache.pools, cache`incoming, cache`credits, cache`counts, cache`trace
      ensures Valid() && levels.Valid()
      ensures owedTokens == old(owedTokens) && owedReleases == old(owedReleases)
      ensures received >= 0 ==> released == received && !lost
      ensures received == -1 && !lost ==> started && !enabled
      ensures lost ==> received == -1 && (!started || wait)
    {
      released := 0;
      var goesOn;
      received, goesOn := WorkerReceive(depth, wait, patience);
      lost := goesOn && received == -1;
      if goesOn && !lost {
        released := Release(received);
      }
    }

    /** The receive of a pass; it does not go on after a denial or when the worker has been stopped. */
    method WorkerReceive(depth: nat, wait: bool, patience: nat) returns (received: int, goesOn: bool)
      requires Valid() && levels.Valid()
      modifies this`sent, this`intArmed, this`enabled, this`waits, this`receives, this`owedTokens, this`owedReleases,
               qe, levels, cq, cache.pools, cache`incoming, cache`credits, cache`counts, cache`trace
      ensures Valid() && levels.Valid()
      ensures -1 <= received <= depth && owedTokens == old(owedTokens)
      ensures ty.LDB? ==> owedReleases == old(owedReleases) + if received == -1 then 0 else received
      ensures received == -1 && goesOn ==> !started || wait
      ensures received == -1 && !goesOn ==> started && !enabled
      ensures received > 0 ==> goesOn && started
      ensures received == 0 && !goesOn ==> receives == old(receives) + patience && !epoll
      ensures epoll ==> receives == old(receives) + 1
      ensures received == 0 && !goesOn && patience > 64 ==> Drained(cache.is25, cache.Cached())
      ensures received == 0 && goesOn ==> started && epoll
    {
      var events, denied;
      if epoll {
        received, events, denied := Recv(depth, wait, true);
        goesOn := !denied;
      } else {
        received, events, denied := ReceiveUntilEvent(depth, wait, patience);
        goesOn := !denied && received != 0;
      }
    }
  }

  /** A cache line with an interrupt arm command has gone out. */
  predicate ArmSent(before: seq<Qe>, after: seq<Qe>) {
    && before <= after && |after| == |before| + 4 && after[|before|].cmd == 5
    && forall k | |before| < k < |after| :: after[k].cmd == NOOP
  }

  /** The 16-bit totals tell whether more is returned than owed: they did not wrap, or are too large even so. */
  predicate TotalsTell(tokens: nat, releases: nat, owedTokens: nat, owedReleases: nat) {
    (tokens < 0x1_0000 && releases < 0x1_0000) || W16(tokens) > owedTokens || W16(releases) > owedReleases
  }

  /** If and only if they tell, the check by wrapped totals decides as the true totals would. */
  lemma WrappedTotals(tokens: nat, releases: nat, owedTokens: nat, owedReleases: nat)
    requires owedTokens < 0x1_0000 && owedReleases < 0x1_0000
    ensures TotalsTell(tokens, releases, owedTokens, owedReleases) <==>
              (W16(tokens) > owedTokens || W16(releases) > owedReleases <==>
               tokens > owedTokens || releases > owedReleases)
  {
  }

  /** One batch token return of 2^16 tokens counts as none, so the check lets it pass whatever is owed. */
  lemma ATotalThatWraps(owedTokens: nat, owedReleases: nat)
    requires owedTokens < 0x1_0000 && owedReleases < 0x1_0000
    ensures var evts := [Event(0, 0, 0, false, 0, 0xFFFF, 0, BAT_T)];
            && EventTokens(evts, 1) == 0x1_0000 > owedTokens
            && W16(EventTokens(evts, 1)) <= owedTokens && W16(EventReleases(evts, 1)) <= owedReleases
            && !TotalsTell(EventTokens(evts, 1), EventReleases(evts, 1), owedTokens, owedReleases)
  {
    var evts := [Event(0, 0, 0, false, 0, 0xFFFF, 0, BAT_T)];
    assert EventTokens(evts, 0) == 0 && EventReleases(evts, 0) == 0;
  }

  /** These are the entries written from number `from` on. */
  ghost predicate Copied(events: seq<Received>, written: seq<Received>, from: nat) {
    from + |events| <= |written| && forall k | 0 <= k < |events| :: events[k] == written[from + k]
  }

  /** The events in buf[from..from+num] have the command, and nothing else has changed. */
  ghost predicate Restamped(now: seq<Event>, before: seq<Event>, from: nat, num: nat, cmd: nat) {
    && |now| == |before|
    && forall k | 0 <= k < |now| :: now[k] == if from <= k < from + num then before[k].(cmd := cmd) else before[k]
  }

  /** All events are for queues of this kind, or the device tells no credits of the two apart. */
  predicate ForQueues(evts: seq<Event>, directed: bool, v25: bool) {
    v25 || forall k | 0 <= k < |evts| :: evts[k].directed == directed
  }

  /** Every event is charged to credit type t. */
  ghost predicate OneType(evts: seq<Event>, t: PortType, v25: bool) {
    forall k | 0 <= k < |evts| :: CreditsRequired(evts[k].cmd) && ChargeType(evts[k], v25) == t
  }

  lemma {:induction false} OneTypeCharged(evts: seq<Event>, n: nat, t: PortType, v25: bool)
    requires n <= |evts| && OneType(evts, t, v25)
    ensures Charged(evts, n, v25).At(t) == n
  {
    if n == 0 {
    } else {
      OneTypeCharged(evts, n - 1, t, v25);
    }
  }

  /** A send that stops only for want of credits sends as many events as there are credits, or all. */
  lemma CountIsMin(evts: seq<Event>, count: nat, t: PortType, v25: bool, before: nat, after: nat)
    requires count <= |evts| && OneType(evts, t, v25)
    requires after == before - Charged(evts, count, v25).At(t)
    requires count < |evts| ==> after == 0
    ensures count == Min(|evts|, before)
  {
    OneTypeCharged(evts, count, t, v25);
  }

  lemma {:induction false} StampedCharges(evts: seq<Event>, cmd: nat, n: nat)
    requires n <= |evts| && (cmd == NEW || cmd == FWD || cmd == REL)
    requires forall k | 0 <= k < |evts| :: evts[k].cmd == cmd
    ensures EventTokens(evts, n) == 0
    ensures EventReleases(evts, n) == if cmd == NEW then 0 else n
  {
    if n == 0 {
    } else {
      StampedCharges(evts, cmd, n - 1);
    }
  }

  /** The same events with one command for all. */
  function Stamped(evts: seq<Event>, cmd: nat): (r: seq<Event>)
    ensures |r| == |evts|
  {
    seq(|evts|, i requires 0 <= i < |evts| => evts[i].(cmd := cmd))
  }
}
