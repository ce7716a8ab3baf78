/**
 The CPU variant of the worker: one thread takes entries from a client's
 metadata ring and sends them through its own port, retrying what a send left
 over. Arrivals and credits may come at any time.
 */
module Forwarders {
  import opened DlbTypes
  import opened CreditOps
  import opened Ports
  import MetadataRing

  /** The part of struct rdma_metadata that is passed on. */
  datatype Entry = Entry(addr: nat, id: nat)

  datatype RingSlot = RingSlot(valid: bool, entry: Entry)

  /** What the device receives in the NEW slots among the first n written to the port. */
  function PayloadsUpTo(slots: seq<Qe>, n: nat): seq<Entry>
    requires n <= |slots|
  {
    if n == 0 then []
    else
      var q := slots[n - 1];
      if q.cmd == NEW then PayloadsUpTo(slots, n - 1) + [Entry(q.data, q.opaque_)] else PayloadsUpTo(slots, n - 1)
  }

  function Payloads(slots: seq<Qe>): seq<Entry> { PayloadsUpTo(slots, |slots|) }

  function EntryOf(e: Event): Entry { Entry(e.data, e.opaque_) }

  lemma {:induction false} SamePayloads(before: seq<Qe>, after: seq<Qe>, n: nat)
    requires n <= |before| && before <= after
    ensures PayloadsUpTo(after, n) == PayloadsUpTo(before, n)
  {
    if n == 0 {
      assert PayloadsUpTo(after, 0) == [];
    } else {
      SamePayloads(before, after, n - 1);
      assert after[n - 1] == before[n - 1];
    }
  }

  lemma {:induction false} PackedPayloads(slots: seq<Qe>, from: nat, k: nat, evts: seq<Event>, n: nat, ty: PortType,
                                          v25: bool, entries: seq<Entry>)
    requires n <= |evts| && n == |entries| && Packed(slots, from, evts, n, ty, v25) && from <= k <= |slots|
    requires forall m | 0 <= m < n :: evts[m].cmd == NEW && EntryOf(evts[m]) == entries[m]
    ensures PayloadsUpTo(slots, k) == PayloadsUpTo(slots, from) + entries[..Min(k - from, n)]
  {
    if k == from {
      assert entries[..0] == [];
    } else {
      PackedPayloads(slots, from, k - 1, evts, n, ty, v25, entries);
      if k - 1 < from + n {
        assert slots[k - 1] == Written(evts[k - 1 - from], ty, v25);
        assert entries[..k - from] == entries[..k - 1 - from] + [entries[k - 1 - from]];
      } else {
        assert slots[k - 1].cmd == NOOP;
      }
    }
  }

  /** A send adds to what the device has received exactly the entries it sent. */
  lemma SentPayloads(before: seq<Qe>, after: seq<Qe>, evts: seq<Event>, n: nat, ty: PortType, v25: bool,
                     entries: seq<Entry>)
    requires before <= after && n <= |evts| && n == |entries| && Packed(after, |before|, evts, n, ty, v25)
    requires forall m | 0 <= m < n :: evts[m].cmd == NEW && EntryOf(evts[m]) == entries[m]
    ensures Payloads(after) == Payloads(before) + entries
  {
    SamePayloads(before, after, |before|);
    PackedPayloads(after, |before|, |after|, evts, n, ty, v25, entries);
    assert entries[..n] == entries;
  }

  lemma TakeMore<T>(s: seq<T>, a: nat, b: nat, n: nat)
    requires a + n <= b <= |s|
    ensures s[..a] + s[a..b][..n] == s[..a + n]
  {
  }

  lemma NeverRejected(evts: seq<Event>, queueOk: (bool, nat) -> bool, directed: bool, qid: nat)
    requires queueOk(directed, qid) && forall k | 0 <= k < |evts| :: evts[k].directed == directed && evts[k].qid == qid
    ensures !Rejected(evts, queueOk)
  {
    if evts == [] {
    } else {
      NeverRejected(evts[1..], queueOk, directed, qid);
    }
  }

  /** Stamping the command leaves queues and payloads alone. */
  lemma StampsKeep(now: seq<Event>, before: seq<Event>, from: nat, num: nat)
    requires Restamped(now, before, from, num, NEW)
    ensures |now| == |before|
    ensures forall k | 0 <= k < |now| ::
              && now[k].directed == before[k].directed && now[k].qid == before[k].qid
              && EntryOf(now[k]) == EntryOf(before[k])
  {
  }

  class Forwarder {
    const n: nat                         // meta_size
    const port: Port
    const directed: bool
    const qid: nat
    const events: array<Event>
    var ring: seq<RingSlot>              // written by the network as well
    var off: nat                         // metadata_offset
    var ecnt: nat

    // Every entry that arrived, in order; the lap the thread is in; READYs sent
    var stream: seq<Entry>
    var laps: nat
    var readies: nat

    // How often the ring has been scanned, dlb_send() called, and how many passes have been made
    ghost var scans: nat
    ghost var sends: nat
    ghost var passes: nat

    ghost predicate PortOk()
      reads port`started, port`enabled, port`owedTokens, port`owedReleases, port`sent,
            port.cache, port.cache.pools, port.cq
    {
      port.Valid() && port.started && port.enabled && port.queueOk(directed, qid)
    }

    /** All events go to the thread's queue. */
    ghost predicate Uniform()
      reads events
    {
      && events.Length >= 4
      && forall k | 0 <= k < events.Length :: events[k].directed == directed && events[k].qid == qid
    }

    function Base(): nat
      reads this`laps
    {
      MetadataRing.LapStart(laps, n)
    }

    /** The first entry of the lap being filled: this one or, once the thread is at its end, the next. */
    function Start(): nat
      reads this`laps, this`off
    {
      if off == n then Base() + n else Base()
    }

    /** Where the slots filled so far end. */
    function Filled(): int
      reads this`laps, this`off, this`stream
    {
      |stream| - Start()
    }

    function Front(v: nat): nat
      reads this`off
    {
      if off == n then 0 else off + v
    }

    /** With v entries of the current scan taken, the ring holds the arrived entries not yet taken, and only those. */
    ghost predicate RingHolds(v: nat)
      reads this`ring, this`off, this`ecnt, this`stream, this`laps, this`readies
    {
      && n >= 4 && |ring| == n + 3 && off <= n && off + v <= n
      && ecnt == Base() + off
      && readies == laps + (if off == n then 1 else 0)
      && (off == n ==> v == 0)
      && Front(v) <= Filled() <= n
      && (forall k | 0 <= k < |ring| :: ring[k].valid <==> Front(v) <= k < Filled())
      && (forall k | 0 <= k < n && ring[k].valid :: ring[k].entry == stream[Start() + k])
    }

    /** The device has received exactly the entries counted, each once and in the order they arrived. */
    ghost predicate Valid()
      reads this, port, port.cache, port.cache.pools, port.cq, events
    {
      && PortOk() && Uniform() && RingHolds(0)
      && ecnt <= |stream| && Payloads(port.sent) == stream[..ecnt]
    }

    constructor (n: nat, port: Port, directed: bool, qid: nat)
      requires n >= 4 && n % 4 == 0
      requires port.Valid() && port.started && port.enabled && port.queueOk(directed, qid) && port.sent == []
      ensures Valid() && fresh(events) && ecnt == 0 && stream == []
      ensures this.n == n && this.port == port
    {
      this.n, this.port, this.directed, this.qid := n, port, directed, qid;
      events := new Event[32](_ => Event(0, 0, qid, directed, 0, 0, 0, NOOP));
      ring := seq(n + 3, _ => RingSlot(false, Entry(0, 0)));
      off, ecnt := 0, 0;
      stream, laps, readies := [], 0, 0;
      scans, sends, passes := 0, 0, 0;
    }

    /** Any number of entries arrive, each in the next slot; the client goes on to a new lap only after READY. */
    method Arrive(ghost v: nat)
      requires RingHolds(v)
      modifies this`ring, this`stream
      ensures RingHolds(v) && old(stream) <= stream
    {
      var count :| 0 <= count;
      for i := 0 to count
        invariant RingHolds(v) && old(stream) <= stream
      {
        ArriveOne(v);
      }
    }

    method ArriveOne(ghost v: nat)
      requires RingHolds(v)
      modifies this`ring, this`stream
      ensures RingHolds(v) && old(stream) <= stream
    {
      var slot := Filled();
      if slot < n {
        var e: Entry := *;
        ring := ring[slot := RingSlot(true, e)];
        stream := stream + [e];
      }
    }

    /** The events taken so far carry the next entries of the stream. */
    ghost predicate Loaded(v: nat)
      reads this`ecnt, this`stream, events
    {
      && Uniform()
      && v <= events.Length && ecnt + v <= |stream|
      && (forall k | 0 <= k < v :: EntryOf(events[k]) == stream[ecnt + k])
    }

    /** One look at the next slot: take its entry if it is there. */
    method TakeOne(v: nat) returns (found: bool)
      requires RingHolds(v) && Loaded(v) && off < n && v < 4 <= events.Length
      requires off + v < n || off + 4 > n
      modifies this`ring, this`stream, events
      ensures RingHolds(if found then v + 1 else v) && Loaded(if found then v + 1 else v) && old(stream) <= stream
      ensures !found ==> off + v >= old(Filled())
    {
      Arrive(v);
      found := ring[off + v].valid;
      if found {
        CopyEntry(v, ring[off + v].entry);
        ClearSlot(v);
      }
    }

    method ClearSlot(v: nat)
      requires RingHolds(v) && off < n && off + v < n && ring[off + v].valid
      modifies this`ring
      ensures RingHolds(v + 1)
    {
      ring := ring[off + v := ring[off + v].(valid := false)];
    }

    method CopyEntry(v: nat, entry: Entry)
      requires Loaded(v) && v < 4 <= events.Length && ecnt + v < |stream| && entry == stream[ecnt + v]
      modifies events
      ensures Loaded(v + 1)
    {
      events[v] := events[v].(data := entry.addr, opaque_ := entry.id);
    }

    /** On to the next lap, which the client may have begun to fill. */
    method Wrap()
      requires RingHolds(0) && off == n
      modifies this`off, this`laps
      ensures RingHolds(0) && off == 0 && Filled() == old(Filled())
    {
      off := 0;
      laps := laps + 1;
    }

    /** One scan: up to four entries, or up to the end of the ring. */
    method Scan() returns (v: nat)
      requires RingHolds(0) && Loaded(0) && events.Length >= 4
      modifies this`ring, this`stream, this`off, this`laps, this`scans, events
      ensures RingHolds(v) && Loaded(v) && v <= 4 && old(stream) <= stream && off < n
      ensures scans == old(scans) + 1
      ensures v == 4 || off + v == n || v >= old(Filled() - Front(0))
    {
      v, scans := 0, scans + 1;
      var bound := 4;
      if off + 4 >= n && off + 1 < n {
        bound := n - off;
      } else if off == n {
        Wrap();
      }
      while v < bound
        invariant RingHolds(v) && Loaded(v) && v <= bound && old(stream) <= stream && off < n
        invariant Filled() - off >= old(Filled() - Front(0)) && scans == old(scans) + 1
      {
        var found := TakeOne(v);
        if !found { break; }
        v := v + 1;
      }
    }

    /** The credit type the thread's events are charged to. */
    function CreditType(): PortType { if !port.cache.is25 && directed then DIR else LDB }

    /** One dlb_send(): it may send less than asked, but it never fails. */
    method SendEvents(num: nat, left: nat, ghost evts: seq<Event>) returns (ret: nat)
      requires PortOk() && Uniform() && num + left <= events.Length && left == |evts| <= 4
      requires evts == Stamped(events[num..num + left], NEW)
      modifies events, port`owedTokens, port`owedReleases, port`sent, port.qe,
               port.cache`credits, port.cache`counts, port.cache`trace, port.cache.pools
      ensures PortOk() && Uniform() && ret <= left
      ensures forall k | 0 <= k < events.Length :: EntryOf(events[k]) == old(EntryOf(events[k]))
      ensures old(port.sent) <= port.sent
      ensures Packed(port.sent, |old(port.sent)|, evts, ret, port.ty, port.cache.is25)
      ensures port.cache.quiet ==> ret == Min(left, old(port.cache.Within()).At(CreditType()))
      ensures ret == 0 ==> port.cache.Cached() == FruitlessSend(port.cache.is25, old(port.cache.Cached()))
    {
      NeverRejected(evts, port.queueOk, directed, qid);
      ghost var given := events[..];
      ret := port.DlbSend(events, num, left);
      StampsKeep(events[..], given, num, left);
      assert OneType(evts, CreditType(), port.cache.is25);
    }

    /** So the device receives a first part of the entries. */
    method SendSome(num: nat, left: nat, ghost entries: seq<Entry>) returns (ret: nat)
      requires PortOk() && Uniform() && num + left <= events.Length && left == |entries| <= 4
      requires forall k | 0 <= k < left :: EntryOf(events[num + k]) == entries[k]
      modifies events, port`owedTokens, port`owedReleases, port`sent, port.qe,
               port.cache`credits, port.cache`counts, port.cache`trace, port.cache.pools
      ensures PortOk() && Uniform() && ret <= left
      ensures forall k | 0 <= k < events.Length :: EntryOf(events[k]) == old(EntryOf(events[k]))
      ensures Payloads(port.sent) == old(Payloads(port.sent)) + entries[..ret]
      ensures port.cache.quiet ==>
                ret == Min(left, if directed && !port.cache.is25 then old(port.cache.Within()).dir
                                 else old(port.cache.Within()).ldb)
      ensures ret == 0 ==> port.cache.Cached() == FruitlessSend(port.cache.is25, old(port.cache.Cached()))
    {
      ghost var evts := Stamped(events[num..num + left], NEW);
      ghost var before := port.sent;
      ret := SendEvents(num, left, evts);
      SentPayloads(before, port.sent, evts, ret, port.ty, port.cache.is25, entries[..ret]);
    }

    /** Of v entries taken, the device has received the first num. */
    ghost predicate Sending(v: nat, num: nat)
      reads this, events, port, port.cache, port.cache.pools, port.cq
    {
      && PortOk() && RingHolds(v) && Loaded(v) && num <= v <= 4
      && Payloads(port.sent) == stream[..ecnt + num]
    }

    method SendMore(v: nat, num: nat) returns (ret: nat)
      requires Sending(v, num) && num < v
      modifies this`sends, events, port`owedTokens, port`owedReleases, port`sent, port.qe,
               port.cache`credits, port.cache`counts, port.cache`trace, port.cache.pools
      ensures Sending(v, num + ret) && sends == old(sends) + 1
      ensures ret == 0 ==> port.cache.Cached() == FruitlessSend(port.cache.is25, old(port.cache.Cached()))
    {
      sends := sends + 1;
      ghost var rest := stream[ecnt + num..ecnt + v];
      ret := SendSome(num, v - num, rest);
      TakeMore(stream, ecnt + num, ecnt + v, ret);
    }

    /** After so many fruitless sends, one more. */
    method SendAgain(v: nat, num: nat, ghost fruitless: nat) returns (ret: nat)
      requires Sending(v, num) && num < v
      requires num == 0 ==> Drains(EnqFail, port.cache.is25, fruitless, port.cache.Cached())
      modifies this`ring, this`stream, this`sends, events, port`owedTokens, port`owedReleases, port`sent, port.qe,
               port.cache`credits, port.cache`counts, port.cache`trace, port.cache.pools
      ensures Sending(v, num + ret) && old(stream) <= stream && sends == old(sends) + 1
      ensures num + ret == 0 ==> Drains(EnqFail, port.cache.is25, fruitless + 1, port.cache.Cached())
    {
      Arrive(v);
      ghost var before := port.cache.Cached();
      ret := SendMore(v, num);
      if num + ret == 0 {
        FruitlessSendProgresses(port.cache.is25, before);
        ProgressDrains(EnqFail, port.cache.is25, fruitless, before, port.cache.Cached());
      }
    }

    /**
     The retry loop. It ends when all v events are sent, or when the thread is told to stop. If more than 100 sends
     send nothing at all, the port caches no credits any more.
     */
    method SendTaken(v: nat, patience: nat) returns (num: nat)
      requires Sending(v, 0)
      modifies this`ring, this`stream, this`sends, events, port`owedTokens, port`owedReleases, port`sent, port.qe,
               port.cache`credits, port.cache`counts, port.cache`trace, port.cache.pools
      ensures Sending(v, num) && old(stream) <= stream
      ensures sends >= old(sends) && (num < v ==> sends == old(sends) + patience)
      ensures num == 0 < v && patience > 100 ==> Drained(port.cache.is25, port.cache.Cached())
    {
      num := 0;
      var left := patience;
      while num != v && left > 0
        invariant Sending(v, num) && old(stream) <= stream && 0 <= left <= patience
        invariant sends == old(sends) + patience - left
        invariant num == 0 ==> Drains(EnqFail, port.cache.is25, patience - left, port.cache.Cached())
        decreases left
      {
        var ret := SendAgain(v, num, patience - left);
        num := num + ret;
        left := left - 1;
      }
    }

    method ScanUntilFound(patience: nat) returns (taken: nat)
      requires PortOk() && Uniform() && RingHolds(0) && ecnt <= |stream|
      modifies this`ring, this`stream, this`off, this`laps, this`scans, events
      ensures PortOk() && RingHolds(taken) && Loaded(taken) && taken <= 4
      ensures old(stream) <= stream && (taken > 0 ==> off < n)
      ensures taken == 0 ==> scans == old(scans) + patience
      ensures patience > 0 && old(Filled() > Front(0)) ==> taken > 0
    {
      taken := 0;
      var left := patience;
      while taken == 0 && left > 0
        invariant PortOk() && RingHolds(taken) && Loaded(taken) && taken <= 4
        invariant old(stream) <= stream && (taken > 0 ==> off < n)
        invariant left < patience && old(Filled() > Front(0)) ==> taken > 0
        invariant 0 <= left <= patience && scans == old(scans) + patience - left
        invariant left == patience ==> off == old(off) && laps == old(laps) && stream == old(stream)
        decreases left
      {
        taken := Scan();
        left := left - 1;
      }
    }

    /** Count the scan and, at the end of the ring, tell the client to go on. */
    method Advance(v: nat)
      requires RingHolds(v) && Loaded(v) && off < n
      modifies this`off, this`ecnt, this`readies
      ensures RingHolds(0) && ecnt == old(ecnt) + v && ecnt <= |stream|
      ensures readies == old(readies) + if off == n then 1 else 0
    {
      ecnt := ecnt + v;
      off := off + v;
      if off == n {
        readies := readies + 1;
      }
    }

    /** Send what a scan has taken, and count it. */
    method SendAndAdvance(taken: nat, patience: nat) returns (stopped: bool)
      requires Sending(taken, 0) && off < n
      modifies this`ring, this`stream, this`off, this`ecnt, this`readies, this`sends, events,
               port`owedTokens, port`owedReleases, port`sent, port.qe,
               port.cache`credits, port.cache`counts, port.cache`trace, port.cache.pools
      ensures old(stream) <= stream
      ensures !stopped ==> Valid() && ecnt == old(ecnt) + taken
      ensures stopped ==> Payloads(port.sent) <= stream
      ensures if stopped then sends == old(sends) + patience else sends >= old(sends)
    {
      var num := SendTaken(taken, patience);
      stopped := num != taken;
      Advance(taken);
    }

    /**
     One pass of rdma_rx_thread(), for a thread that is not told to stop: scan until something is there, send
     all of it. `patience` bounds the idle scans and the retries; when it runs out before everything is sent the
     thread has been stopped.
     */
    method Pass(patience: nat) returns (taken: nat, stopped: bool)
      requires Valid()
      modifies this`ring, this`stream, this`off, this`laps, this`ecnt, this`readies,
               this`scans, this`sends, this`passes, events,
               port`owedTokens, port`owedReleases, port`sent, port.qe,
               port.cache`credits, port.cache`counts, port.cache`trace, port.cache.pools
      ensures old(stream) <= stream && taken <= 4
      ensures !stopped ==> Valid() && ecnt == old(ecnt) + taken
      ensures patience > 0 && old(Filled() > Front(0)) ==> taken > 0
      ensures stopped ==> Payloads(port.sent) <= stream
      ensures passes == old(passes) + 1
      ensures taken == 0 ==> scans == old(scans) + patience
      ensures if stopped then sends == old(sends) + patience else sends >= old(sends)
    {
      passes := passes + 1;
      taken := ScanUntilFound(patience);
      stopped := false;
      if taken != 0 {
        stopped := SendAndAdvance(taken, patience);
      }
    }

    /** Any number of passes: the device receives each entry exactly once, in ring order, READY once per lap. */
    method Run(rounds: nat, patience: nat) returns (stopped: bool)
      requires Valid()
      modifies this`ring, this`stream, this`off, this`laps, this`ecnt, this`readies,
               this`scans, this`sends, this`passes, events,
               port`owedTokens, port`owedReleases, port`sent, port.qe,
               port.cache`credits, port.cache`counts, port.cache`trace, port.cache.pools
      ensures old(stream) <= stream && Payloads(port.sent) <= stream
      ensures !stopped ==> Valid() && Payloads(port.sent) == stream[..ecnt]
      ensures !stopped ==> passes == old(passes) + rounds
      ensures !stopped && patience > 0 ==> ecnt >= Min(|old(stream)|, old(ecnt) + rounds)
      ensures stopped ==> sends >= old(sends) + patience
    {
      stopped := false;
      var i := 0;
      while i < rounds && !stopped
        invariant old(stream) <= stream && Payloads(port.sent) <= stream
        invariant !stopped ==> Valid() && i <= rounds && passes == old(passes) + i
        invariant !stopped && patience > 0 ==> ecnt >= Min(|old(stream)|, old(ecnt) + i)
        invariant if stopped then sends >= old(sends) + patience else sends >= old(sends)
      {
        var taken;
        taken, stopped := Pass(patience);
        i := i + 1;
      }
    }
  }
}
