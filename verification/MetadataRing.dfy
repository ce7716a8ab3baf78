/**
 A client's metadata ring on the SmartNIC, as a state machine over the steps
 of the client, the network and the SmartNIC's worker. The only flow control
 is one READY message per lap.
 */
module MetadataRing {
  import opened DlbTypes

  // ---- State

  /** struct rdma_metadata as far as the worker looks at it. */
  datatype Slot = Slot(valid: bool, addr: nat)

  /** dlb_enqueue_qe_t as far as the worker writes it. */
  datatype EnqQe = EnqQe(data: nat, cmd: nat)

  /** Where the client is in its loop. */
  datatype Client = Payload | Fill(j: nat) | Post | Await | Repost

  /** Where the worker is: `v` entries of this scan are taken, out of at most `bound`. */
  datatype Worker =
    | Head
    | Check(v: nat, bound: nat)
    | Copy(v: nat, bound: nat)
    | Clear(v: nat, bound: nat)
    | Commit(v: nat)
    | Ready

  datatype State = State(
    n: nat,                                                        // meta_size
    // Client: cnt, metadata_offset, its metadata buffer, receives posted, READYs received and not waited for
    client: Client, cnt: nat, mdOff: nat, buf: seq<nat>, recvs: nat, completions: nat,
    // Network: target slots of the writes under way, oldest first; READYs under way
    wire: seq<nat>, readyWire: nat,
    // Worker: the ring, its QE buffer, metadata_offset, buf_idx, ecnt, enqueue writes since the last completion wait
    ring: seq<Slot>, qe: seq<EnqQe>, worker: Worker, off: nat, bufIdx: nat, ecnt: nat, unwaited: nat,
    // History: entries posted, QEs enqueued, READYs sent, ecnt at the last wait, both sides' laps and where they start
    sent: seq<nat>, qes: seq<EnqQe>, readies: nat, lastWait: nat,
    laps: nat, base: nat, workerLaps: nat, workerBase: nat)

  datatype Step = ClientStep(addr: nat) | Deliver | ReadyArrives | WorkerStep

  // ---- Steps

  predicate Shape(s: State) {
    && s.n >= 4 && s.n % 4 == 0
    && |s.buf| == s.n && |s.ring| == |s.qe| == s.n + 3
    && s.mdOff + 4 <= s.n && s.off <= s.n && s.bufIdx <= s.n
    && (s.client.Fill? ==> s.client.j < 4)
    && (s.worker.Check? || s.worker.Copy? || s.worker.Clear? ==> s.worker.v < 4 && s.off < s.n && s.bufIdx < s.n)
    && (s.worker.Commit? ==> s.worker.v <= 4 && s.bufIdx + s.worker.v <= s.n)
    && forall m | 0 <= m < |s.wire| :: s.wire[m] < s.n
  }

  /** client_thread(): fill and post four entries; after a whole lap wait for READY. */
  function ClientNext(s: State, addr: nat): State
    requires Shape(s)
  {
    match s.client
    case Payload => s.(cnt := s.cnt + 4, client := Fill(0))
    case Fill(j) =>
      s.(buf := s.buf[s.mdOff + j := addr], client := if j == 3 then Post else Fill(j + 1))
    case Post =>
      s.(wire := s.wire + [s.mdOff, s.mdOff + 1, s.mdOff + 2, s.mdOff + 3],
         sent := s.sent + s.buf[s.mdOff..s.mdOff + 4],
         mdOff := if s.mdOff + 4 == s.n then 0 else s.mdOff + 4,
         client := if s.cnt == s.n then Await else Payload)
    case Await => if s.completions == 0 then s else s.(completions := s.completions - 1, client := Repost)
    case Repost =>
      s.(recvs := s.recvs + 1, cnt := 0, client := Payload, laps := s.laps + 1, base := s.base + s.n)
  }

  /** How many slots a scan from `off` looks at. */
  function Bound(off: nat, n: nat): nat
  {
    if off + 4 > n && off + 1 < n then n - off else 4
  }

  /** After a check that failed or a full scan: start over if nothing was taken, else enqueue. */
  function Scanned(v: nat): Worker { if v == 0 then Head else Commit(v) }

  /** v QEs go to the device; a completion wait whenever the count is a multiple of 256, READY when it is one of n. */
  function Enqueued(s: State, v: nat): State
    requires Shape(s) && s.bufIdx + v <= s.n
  {
    var ecnt := s.ecnt + v;
    s.(off := s.off + v, ecnt := ecnt, qes := s.qes + s.qe[s.bufIdx..s.bufIdx + v], bufIdx := s.bufIdx + v,
       unwaited := if ecnt % 256 != 0 then s.unwaited + 1 else 0,
       lastWait := if ecnt % 256 != 0 then s.lastWait else ecnt,
       worker := if ecnt != 0 && ecnt % s.n == 0 then Ready else Head)
  }

  /** snic_dlb_representative() on one connection. */
  function WorkerNext(s: State): State
    requires Shape(s)
  {
    match s.worker
    case Head =>
      var b := Bound(s.off, s.n);
      if s.off == s.n then
        s.(off := 0, bufIdx := 0, worker := Check(0, b),
           workerLaps := s.workerLaps + 1, workerBase := s.workerBase + s.n)
      else s.(worker := Check(0, b))
    case Check(v, bound) =>
      if s.ring[s.off + v].valid then s.(worker := Copy(v, bound))
      else s.(qe := s.qe[s.bufIdx + v := s.qe[s.bufIdx + v].(cmd := NOOP)], worker := Scanned(v))
    case Copy(v, bound) =>
      s.(qe := s.qe[s.bufIdx + v := EnqQe(s.ring[s.off + v].addr, NEW)], worker := Clear(v, bound))
    case Clear(v, bound) =>
      s.(ring := s.ring[s.off + v := s.ring[s.off + v].(valid := false)],
         worker := if v + 1 < bound then Check(v + 1, bound) else Scanned(v + 1))
    case Commit(v) =>
      Enqueued(s, v)
    case Ready => s.(readyWire := s.readyWire + 1, readies := s.readies + 1, worker := Head)
  }

  predicate Enabled(s: State, st: Step) {
    && Shape(s)
    && (st.Deliver? ==> s.wire != [])
    && (st.ReadyArrives? ==> s.readyWire > 0 && s.recvs > 0)
  }

  /** A delivered entry is read from the client's buffer now, and becomes visible whole. */
  function Apply(s: State, st: Step): State
    requires Enabled(s, st)
  {
    match st
    case ClientStep(addr) => ClientNext(s, addr)
    case Deliver => s.(ring := s.ring[s.wire[0] := Slot(true, s.buf[s.wire[0]])], wire := s.wire[1..])
    case ReadyArrives => s.(readyWire := s.readyWire - 1, recvs := s.recvs - 1, completions := s.completions + 1)
    case WorkerStep => WorkerNext(s)
  }

  // ---- What every step keeps

  /** The number of the first entry of a lap. */
  function LapStart(laps: nat, n: nat): nat { if laps == 0 then 0 else LapStart(laps - 1, n) + n }

  lemma {:induction false} LapStartIsMultiple(laps: nat, n: nat)
    requires n > 0
    ensures LapStart(laps, n) == laps * n
  {
    if laps == 0 {
    } else {
      LapStartIsMultiple(laps - 1, n);
      assert laps * n == (laps - 1) * n + n;
    }
  }

  /** Only whole laps are multiples of n. */
  lemma WholeLaps(laps: nat, off: nat, n: nat)
    requires off <= n && n > 0
    ensures (LapStart(laps, n) + off) % n == 0 <==> off == 0 || off == n
  {
    LapStartIsMultiple(laps, n);
    if off == n {
      Remainder(LapStart(laps, n) + n, n, laps + 1, 0);
    } else {
      Remainder(LapStart(laps, n) + off, n, laps, off);
    }
  }

  lemma Remainder(x: nat, n: nat, q: nat, r: nat)
    requires 0 < n && r < n && x == q * n + r
    ensures x % n == r
  {
    var d, m := x / n, x % n;
    assert d * n + m == q * n + r;
    if q < d { Apart(q, d, n); }
    if d < q { Apart(d, q, n); }
  }

  lemma {:induction false} Apart(q: nat, d: nat, n: nat)
    requires q < d
    ensures q * n + n <= d * n
  {
    assert d * n == (d - 1) * n + n;
    if q == d - 1 {
    } else {
      Apart(q, d - 1, n);
    }
  }

  /** Entries posted in the client's lap, and how many of them have been delivered. */
  function Posted(s: State): int { |s.sent| - s.base }

  function Delivered(s: State): int { Posted(s) - |s.wire| }

  /** Entries taken by the scan in progress. */
  function Taken(w: Worker): nat {
    match w case Check(v, _) => v case Copy(v, _) => v case Clear(v, _) => v case Commit(v) => v case _ => 0
  }

  /** Slots up to here are done with in the client's lap. */
  function Consumed(s: State): int { s.ecnt - s.base + Taken(s.worker) }

  /** What the client has posted in its lap is in its buffer, and the writes under way are the last of it, in order. */
  predicate PostedOk(buf: seq<nat>, wire: seq<nat>, sent: seq<nat>, base: nat)
    requires base <= |sent| <= base + |buf|
  {
    && |wire| <= |sent| - base
    && (forall k | 0 <= k < |sent| - base :: buf[k] == sent[base + k])
    && (forall m | 0 <= m < |wire| :: wire[m] == |sent| - base - |wire| + m)
  }

  /** Where the client is in its lap, by its counters. */
  predicate CountersOk(client: Client, cnt: nat, mdOff: nat, posted: int, n: nat) {
    && cnt <= n && cnt % 4 == 0
    && (match client
        case Payload => mdOff == posted == cnt < n
        case Fill(_) => mdOff == posted == cnt - 4
        case Post => mdOff == posted == cnt - 4
        case _ => mdOff == 0 && cnt == posted == n)
  }

  predicate ClientOk(s: State)
    requires Shape(s) && s.base <= |s.sent|
  {
    && Posted(s) <= s.n
    && CountersOk(s.client, s.cnt, s.mdOff, Posted(s), s.n)
    && PostedOk(s.buf, s.wire, s.sent, s.base)
  }

  /** The worker is in the client's lap, or at the end of the one before, or already at the start of the next. */
  predicate LapsOk(s: State) {
    && s.ecnt == s.workerBase + s.off && s.bufIdx == s.off
    && s.base == LapStart(s.laps, s.n) && s.workerBase == LapStart(s.workerLaps, s.n)
    && (|| (s.workerLaps == s.laps && s.workerBase == s.base)
        || (s.workerLaps + 1 == s.laps && s.workerBase + s.n == s.base && s.off == s.n && s.worker.Head?)
        || (s.workerLaps == s.laps + 1 && s.workerBase == s.base + s.n && s.off == 0 && Posted(s) == s.n))
  }

  predicate WorkerOk(s: State) {
    match s.worker
    case Head => true
    case Check(v, bound) => v < bound == Bound(s.off, s.n)
    case Copy(v, bound) => v < bound == Bound(s.off, s.n) && Consumed(s) < Delivered(s)
    case Clear(v, bound) => v < bound == Bound(s.off, s.n) && Consumed(s) < Delivered(s)
                            && s.off + v < |s.qe| && s.ecnt + v < |s.sent|
                            && s.qe[s.off + v] == EnqQe(s.sent[s.ecnt + v], NEW)
    case Commit(v) => 1 <= v <= 4 && s.off + v <= s.n
    case Ready => s.off == s.n && s.workerLaps == s.laps
  }

  /** The ring holds exactly the delivered entries not yet taken, each as it was posted. */
  predicate SlotsOk(ring: seq<Slot>, taken: int, delivered: int, sent: seq<nat>, base: nat) {
    && (forall k | 0 <= k < |ring| :: ring[k].valid <==> taken <= k < delivered)
    && (forall k | 0 <= k < |ring| && ring[k].valid && base + k < |sent| :: ring[k].addr == sent[base + k])
  }

  predicate RingOk(s: State) {
    && s.base <= s.ecnt && Consumed(s) <= Delivered(s)
    && SlotsOk(s.ring, Consumed(s), Delivered(s), s.sent, s.base)
  }

  /** The scan's QEs so far, and all QEs ever enqueued, are the client's entries in order. */
  predicate ScanOk(qe: seq<EnqQe>, from: nat, to: nat, sent: seq<nat>, workerBase: nat) {
    && to <= |qe| && workerBase + to <= |sent|
    && forall k | from <= k < to :: qe[k] == EnqQe(sent[workerBase + k], NEW)
  }

  predicate EnqueuedOk(qes: seq<EnqQe>, sent: seq<nat>) {
    |qes| <= |sent| && forall k | 0 <= k < |qes| :: qes[k] == EnqQe(sent[k], NEW)
  }

  predicate QesOk(s: State) {
    && |s.qes| == s.ecnt == s.workerBase + s.off
    && ScanOk(s.qe, s.off, s.off + Taken(s.worker), s.sent, s.workerBase)
    && EnqueuedOk(s.qes, s.sent)
  }

  /** One READY per lap, and one receive for it. */
  predicate ReadyOk(s: State) {
    var reposting := if s.client.Repost? then 1 else 0;
    && s.readies == s.workerLaps + (if s.off == s.n && !s.worker.Ready? then 1 else 0)
    && s.readies == s.laps + reposting + s.completions + s.readyWire
    && s.recvs + s.completions + reposting == 1
  }

  predicate Inv(s: State) {
    Shape(s) && LapsOk(s) && s.base <= |s.sent| && ClientOk(s) && WorkerOk(s) && RingOk(s) && QesOk(s) && ReadyOk(s)
  }

  lemma FillKeepsClient(s: State, addr: nat)
    requires Inv(s) && s.client.Fill?
    ensures var s' := ClientNext(s, addr); Shape(s') && s'.base <= |s'.sent| && ClientOk(s')
  {
  }

  lemma FillKeepsRing(s: State, addr: nat)
    requires Inv(s) && s.client.Fill?
    ensures var s' := ClientNext(s, addr); Shape(s') && s'.base <= |s'.sent| && RingOk(s')
  {
  }

  lemma FillKeeps(s: State, addr: nat)
    requires Inv(s) && s.client.Fill?
    ensures Inv(ClientNext(s, addr))
  {
    FillKeepsRing(s, addr);
    FillKeepsClient(s, addr);
  }

  lemma PostKeepsClient(s: State)
    requires Inv(s) && s.client.Post?
    ensures var s' := ClientNext(s, 0); Shape(s') && s'.base <= |s'.sent| && ClientOk(s')
  {
  }

  lemma PostKeepsQes(s: State)
    requires Inv(s) && s.client.Post?
    ensures var s' := ClientNext(s, 0); Shape(s') && QesOk(s') && WorkerOk(s')
  {
  }

  lemma PostKeeps(s: State)
    requires Inv(s) && s.client.Post?
    ensures Inv(ClientNext(s, 0))
  {
    PostKeepsClient(s);
    PostKeepsQes(s);
  }

  lemma PayloadKeepsClient(s: State)
    requires Inv(s) && s.client.Payload?
    ensures var s' := ClientNext(s, 0); Shape(s') && s'.base <= |s'.sent| && ClientOk(s')
  {
  }

  lemma PayloadKeepsRing(s: State)
    requires Inv(s) && s.client.Payload?
    ensures var s' := ClientNext(s, 0); Shape(s') && s'.base <= |s'.sent| && RingOk(s')
  {
  }

  lemma PayloadKeeps(s: State)
    requires Inv(s) && s.client.Payload?
    ensures Inv(ClientNext(s, 0))
  {
    PayloadKeepsClient(s);
    PayloadKeepsRing(s);
  }

  lemma AwaitKeeps(s: State)
    requires Inv(s) && s.client.Await?
    ensures Inv(ClientNext(s, 0))
  {
  }

  /** The client starts a new lap only when the ring is empty. */
  lemma RepostKeeps(s: State)
    requires Inv(s) && s.client.Repost?
    ensures Inv(ClientNext(s, 0))
  {
  }

  lemma DeliverKeepsRing(s: State)
    requires Inv(s) && s.wire != []
    ensures var s' := Apply(s, Deliver); Shape(s') && s'.base <= |s'.sent| && RingOk(s')
  {
  }

  lemma DeliverKeepsRest(s: State)
    requires Inv(s) && s.wire != []
    ensures var s' := Apply(s, Deliver); Shape(s') && WorkerOk(s') && QesOk(s') && LapsOk(s') && ReadyOk(s')
  {
  }

  lemma DeliverKeeps(s: State)
    requires Inv(s) && s.wire != []
    ensures Inv(Apply(s, Deliver))
  {
    DeliverKeepsRing(s);
    DeliverKeepsRest(s);
  }

  lemma HeadKeeps(s: State)
    requires Inv(s) && s.worker.Head? && s.off < s.n
    ensures Inv(WorkerNext(s))
  {
  }

  lemma WrapKeeps(s: State)
    requires Inv(s) && s.worker.Head? && s.off == s.n
    ensures Inv(WorkerNext(s))
  {
  }

  lemma ReadyKeeps(s: State)
    requires Inv(s) && s.worker.Ready?
    ensures Inv(WorkerNext(s))
  {
  }

  lemma FoundKeepsQes(s: State)
    requires Inv(s) && s.worker.Check? && s.ring[s.off + s.worker.v].valid
    ensures var s' := WorkerNext(s); Shape(s') && QesOk(s') && WorkerOk(s')
  {
  }

  lemma FoundKeeps(s: State)
    requires Inv(s) && s.worker.Check? && s.ring[s.off + s.worker.v].valid
    ensures Inv(WorkerNext(s))
  {
    FoundKeepsQes(s);
  }

  lemma StopKeepsQes(s: State)
    requires Inv(s) && s.worker.Check? && !s.ring[s.off + s.worker.v].valid
    ensures var s' := WorkerNext(s); Shape(s') && QesOk(s') && WorkerOk(s')
  {
    var s' := WorkerNext(s);
    assert forall k | s.off <= k < s.off + s.worker.v :: s'.qe[k] == s.qe[k];
  }

  lemma StopKeeps(s: State)
    requires Inv(s) && s.worker.Check? && !s.ring[s.off + s.worker.v].valid
    ensures Inv(WorkerNext(s))
  {
    StopKeepsQes(s);
  }

  lemma CopyKeepsQes(s: State)
    requires Inv(s) && s.worker.Copy?
    ensures var s' := WorkerNext(s); Shape(s') && QesOk(s') && WorkerOk(s')
  {
  }

  lemma CopyKeeps(s: State)
    requires Inv(s) && s.worker.Copy?
    ensures Inv(WorkerNext(s))
  {
    CopyKeepsQes(s);
  }

  lemma ClearKeepsRing(s: State)
    requires Inv(s) && s.worker.Clear?
    ensures var s' := WorkerNext(s); Shape(s') && s'.base <= |s'.sent| && RingOk(s')
  {
  }

  lemma ClearKeepsQes(s: State)
    requires Inv(s) && s.worker.Clear?
    ensures var s' := WorkerNext(s); Shape(s') && QesOk(s') && WorkerOk(s')
  {
  }

  lemma ClearKeeps(s: State)
    requires Inv(s) && s.worker.Clear?
    ensures Inv(WorkerNext(s))
  {
    ClearKeepsRing(s);
    ClearKeepsQes(s);
  }

  lemma CommitKeepsQes(s: State)
    requires Inv(s) && s.worker.Commit?
    ensures var s' := WorkerNext(s); Shape(s') && QesOk(s')
  {
  }

  lemma CommitKeeps(s: State)
    requires Inv(s) && s.worker.Commit?
    ensures Inv(WorkerNext(s))
  {
    CommitKeepsQes(s);
    WholeLaps(s.workerLaps, s.off + s.worker.v, s.n);
  }

  lemma ReadyArrivesKeeps(s: State)
    requires Inv(s) && Enabled(s, ReadyArrives)
    ensures Inv(Apply(s, ReadyArrives))
  {
  }

  lemma WorkerKeeps(s: State)
    requires Inv(s)
    ensures Inv(WorkerNext(s))
  {
    match s.worker
    case Head => if s.off < s.n { HeadKeeps(s); } else { WrapKeeps(s); }
    case Check(v, _) => if s.ring[s.off + v].valid { FoundKeeps(s); } else { StopKeeps(s); }
    case Copy(_, _) => CopyKeeps(s);
    case Clear(_, _) => ClearKeeps(s);
    case Commit(_) => CommitKeeps(s);
    case Ready => ReadyKeeps(s);
  }

  lemma StepKeeps(s: State, st: Step)
    requires Inv(s) && Enabled(s, st)
    ensures Inv(Apply(s, st))
  {
    match st
    case ClientStep(addr) =>
      match s.client {
        case Payload => PayloadKeeps(s);
        case Fill(_) => FillKeeps(s, addr);
        case Post => PostKeeps(s);
        case Await => AwaitKeeps(s);
        case Repost => RepostKeeps(s);
      }
    case Deliver => DeliverKeeps(s);
    case ReadyArrives => ReadyArrivesKeeps(s);
    case WorkerStep => WorkerKeeps(s);
  }

  // ---- Runs

  predicate Init(s: State) {
    && s.n >= 4 && s.n % 4 == 0 && |s.buf| == s.n && |s.ring| == |s.qe| == s.n + 3
    && s.client == Payload && s.cnt == s.mdOff == s.completions == 0 && s.recvs == 1
    && s.wire == [] && s.readyWire == 0
    && (forall k | 0 <= k < |s.ring| :: !s.ring[k].valid)
    && s.worker == Head && s.off == s.bufIdx == s.ecnt == s.unwaited == 0
    && s.sent == [] && s.qes == [] && s.readies == s.lastWait == 0
    && s.laps == s.base == s.workerLaps == s.workerBase == 0
  }

  /** A run: the state before and after each step. */
  ghost predicate Run(states: seq<State>, steps: seq<Step>) {
    && |states| == |steps| + 1 && Init(states[0])
    && forall i | 0 <= i < |steps| :: Enabled(states[i], steps[i]) && states[i + 1] == Apply(states[i], steps[i])
  }

  lemma InitHolds(s: State)
    requires Init(s)
    ensures Inv(s) && WaitsOk(s)
  {
  }

  /**
   At every moment of every interleaving, the QEs enqueued are the client's entries: each once, in order, and none
   but those; READY has gone out once for each whole lap consumed.
   */
  lemma {:induction false} EntriesArriveInOrder(states: seq<State>, steps: seq<Step>, i: nat)
    requires Run(states, steps) && i < |states|
    ensures Inv(states[i]) && WaitsOk(states[i]) && InOrder(states[i]) && OneReadyPerLap(states[i])
  {
    if i == 0 {
      InitHolds(states[0]);
    } else {
      EntriesArriveInOrder(states, steps, i - 1);
      StepKeeps(states[i - 1], steps[i - 1]);
      StepKeepsWaits(states[i - 1], steps[i - 1]);
    }
    InvMeansInOrder(states[i]);
  }

  predicate InOrder(s: State) {
    && |s.qes| == s.ecnt <= |s.sent| <= s.ecnt + s.n
    && forall k | 0 <= k < s.ecnt :: s.qes[k] == EnqQe(s.sent[k], NEW)
  }

  predicate OneReadyPerLap(s: State) {
    && LapStart(s.readies, s.n) <= s.ecnt
    && (!s.worker.Ready? ==> s.ecnt < LapStart(s.readies + 1, s.n))
  }

  lemma InvMeansInOrder(s: State)
    requires Inv(s)
    ensures InOrder(s) && OneReadyPerLap(s)
  {
    assert LapsOk(s) && ReadyOk(s) && QesOk(s);
  }

  // ---- What follows

  /** A delivery never meets an entry still to be taken, and carries what was posted for that slot. */
  lemma NothingIsOverwritten(s: State)
    requires Inv(s) && s.wire != []
    ensures !s.ring[s.wire[0]].valid
    ensures s.buf[s.wire[0]] == s.sent[s.base + s.wire[0]]
  {
    assert s.wire[0] == Delivered(s);
  }

  /** When READY is sent or under way a receive is posted for it, and there is never a second one. */
  lemma ReadyFindsAReceive(s: State)
    requires Inv(s) && (s.worker.Ready? || s.readyWire > 0)
    ensures s.recvs == 1 && s.completions == 0 && s.readyWire <= 1 && !(s.worker.Ready? && s.readyWire > 0)
  {
    assert LapsOk(s) && ReadyOk(s);
  }

  /** A client that waits is answered: READY is on its way, or there are entries left to take. */
  lemma AwaitIsAnswered(s: State)
    requires Inv(s) && s.client.Await? && s.completions == 0 && s.readyWire == 0
    ensures s.worker.Ready? || s.ecnt < |s.sent|
    ensures s.wire == [] && s.worker.Head? ==> s.ring[if s.off == s.n then 0 else s.off].valid
  {
    assert LapsOk(s) && ReadyOk(s);
  }

  /** A scan takes at most four entries, ends inside the ring, and finds nothing in the slots behind it. */
  lemma ScansStayInside(s: State)
    requires Inv(s)
    ensures Taken(s.worker) <= 4 && s.off + Taken(s.worker) <= s.n
    ensures forall k | s.n <= k < |s.ring| :: !s.ring[k].valid
    ensures s.bufIdx == s.off && s.ecnt == LapStart(s.workerLaps, s.n) + s.off
  {
  }

  // ---- Completion waits

  predicate Common(x: nat, n: nat)
    requires n > 0
  {
    x % n == 0 && x % 256 == 0
  }

  /** Every common multiple of n and 256 the count has reached was a completion wait. */
  predicate WaitedAt(n: nat, ecnt: nat, lastWait: nat)
    requires n > 0
  {
    lastWait <= ecnt && forall x: nat | x <= ecnt && Common(x, n) :: x <= lastWait
  }

  predicate WaitsOk(s: State)
    requires s.n > 0
  {
    WaitedAt(s.n, s.ecnt, s.lastWait) && s.unwaited <= s.ecnt - s.lastWait
  }

  lemma CommitKeepsWaits(s: State)
    requires Inv(s) && s.worker.Commit? && WaitsOk(s)
    ensures WaitsOk(WorkerNext(s))
  {
    var s' := WorkerNext(s);
    forall x: nat | x <= s'.ecnt && Common(x, s.n)
      ensures x <= s'.lastWait
    {
      if s.ecnt < x { WholeLaps(s.workerLaps, x - s.workerBase, s.n); }
    }
  }

  lemma StepKeepsWaits(s: State, st: Step)
    requires Inv(s) && Enabled(s, st) && WaitsOk(s)
    ensures WaitsOk(Apply(s, st))
  {
    if st.WorkerStep? && s.worker.Commit? { CommitKeepsWaits(s); }
  }

  lemma CommonAdds(x: nat, m: nat, n: nat)
    requires n > 0 && x % n == 0 && m % n == 0
    ensures (x + m) % n == 0
  {
    var a, b := x / n, m / n;
    assert x == a * n && m == b * n;
    assert x + m == (a + b) * n;
    Remainder(x + m, n, a + b, 0);
  }

  lemma {:induction false} LastCommon(e: nat, m: nat, n: nat) returns (x: nat)
    requires n > 0 && m > 0 && Common(m, n)
    ensures x <= e < x + m && Common(x, n)
  {
    if e < m {
      x := 0;
      Remainder(0, n, 0, 0);
    } else {
      var y := LastCommon(e - m, m, n);
      CommonAdds(y, m, n);
      CommonAdds(y, m, 256);
      x := y + m;
    }
  }

  /** Between two completion waits fewer writes go unsignalled than any common multiple of n and 256. */
  lemma WaitsAreRegular(s: State, m: nat)
    requires s.n > 0 && WaitsOk(s) && m > 0 && Common(m, s.n)
    ensures s.unwaited < m
  {
    var x := LastCommon(s.ecnt, m, s.n);
  }
}
