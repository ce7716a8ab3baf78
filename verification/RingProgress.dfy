/**
 What client and worker of a metadata ring get done: a worker's pass, a client's
 pass, and that in every reachable state some further entry can be enqueued.
 */
module RingProgress {
  import opened DlbTypes
  import opened MetadataRing
  import opened Chains

  /** A step of the worker, of the client, of anybody. */
  predicate WorkerMoves(s: State, s': State) { Shape(s) && s' == WorkerNext(s) }

  ghost predicate ClientMoves(s: State, s': State) { Shape(s) && exists addr :: s' == ClientNext(s, addr) }

  ghost predicate Moves(s: State, s': State) { exists st :: Enabled(s, st) && s' == Apply(s, st) }

  lemma MovesKeep(s: State, s': State)
    requires Inv(s) && Reaches(Moves, s, s')
    ensures Inv(s')
  {
    forall a, b | Inv(a) && Moves(a, b)
      ensures Inv(b)
    {
      var st :| Enabled(a, st) && b == Apply(a, st);
      StepKeeps(a, st);
    }
    Keeps(Moves, Inv, s, s');
  }

  lemma WorkerIsMoving(s: State, s': State)
    requires Reaches(WorkerMoves, s, s')
    ensures Reaches(Moves, s, s')
  {
    forall a, b | WorkerMoves(a, b)
      ensures Moves(a, b)
    {
      assert Enabled(a, WorkerStep) && b == Apply(a, WorkerStep);
    }
    Widens(WorkerMoves, Moves, s, s');
  }

  lemma ClientIsMoving(s: State, s': State)
    requires Reaches(ClientMoves, s, s')
    ensures Reaches(Moves, s, s')
  {
    forall a, b | ClientMoves(a, b)
      ensures Moves(a, b)
    {
      var addr: nat :| b == ClientNext(a, addr);
      assert Enabled(a, ClientStep(addr)) && b == Apply(a, ClientStep(addr));
    }
    Widens(ClientMoves, Moves, s, s');
  }

  // ---- A worker's pass

  predicate VisibleFrom(ring: seq<Slot>, from: nat, to: nat) {
    to <= |ring| && forall k | from <= k < to :: ring[k].valid
  }

  /** A scan before its next check: nothing is visible behind the ring. */
  predicate Scanning(s: State) {
    && Shape(s) && s.worker.Check? && s.bufIdx == s.off && s.worker.v < s.worker.bound <= 4
    && s.off + s.worker.v <= s.n && forall k | s.n <= k < |s.ring| :: !s.ring[k].valid
  }

  /** Client, network and what was enqueued are as they were. */
  predicate OnlyScanned(s: State, s': State) {
    s' == s.(ring := s'.ring, qe := s'.qe, worker := s'.worker)
  }

  /** The check and the copy of a visible entry. */
  lemma CopyOne(s: State) returns (s': State)
    requires Scanning(s) && s.ring[s.off + s.worker.v].valid
    ensures Reaches(WorkerMoves, s, s') && Shape(s')
    ensures s' == s.(qe := s'.qe, worker := Clear(s.worker.v, s.worker.bound))
  {
    var copy := WorkerNext(s);
    s' := WorkerNext(copy);
    Once(WorkerMoves, s, copy);
    Once(WorkerMoves, copy, s');
    Then(WorkerMoves, s, copy, s');
  }

  /** The three steps by which a visible entry is taken. */
  lemma TakeOne(s: State) returns (s': State)
    requires Scanning(s) && s.ring[s.off + s.worker.v].valid
    ensures Reaches(WorkerMoves, s, s') && Shape(s') && OnlyScanned(s, s')
    ensures s'.ring == s.ring[s.off + s.worker.v := s.ring[s.off + s.worker.v].(valid := false)]
    ensures var v, bound := s.worker.v, s.worker.bound;
            s'.worker == if v + 1 < bound then Check(v + 1, bound) else Commit(v + 1)
  {
    var clear := CopyOne(s);
    s' := WorkerNext(clear);
    Once(WorkerMoves, clear, s');
    Then(WorkerMoves, s, clear, s');
  }

  /** The step on a slot that is not visible ends the scan. */
  lemma StopScan(s: State) returns (s': State)
    requires Scanning(s) && !s.ring[s.off + s.worker.v].valid
    ensures Reaches(WorkerMoves, s, s') && Shape(s') && OnlyScanned(s, s') && s'.worker == Scanned(s.worker.v)
  {
    s' := WorkerNext(s);
    Once(WorkerMoves, s, s');
  }

  /** A scan takes what is visible, slot after slot, up to its bound or the first slot that is not. */
  lemma {:induction false} ScanTakesAll(s: State) returns (s': State, v: nat)
    requires Scanning(s)
    ensures Reaches(WorkerMoves, s, s') && Shape(s') && OnlyScanned(s, s') && s'.worker == Scanned(v)
    ensures s.worker.v <= v <= s.worker.bound && s.off + v <= s.n
    ensures VisibleFrom(s.ring, s.off + s.worker.v, s.off + v)
    ensures v == s.worker.bound || !s.ring[s.off + v].valid
    decreases s.worker.bound - s.worker.v
  {
    if s.ring[s.off + s.worker.v].valid {
      var next := TakeOne(s);
      if next.worker.Check? {
        s', v := ScanTakesAll(next);
        Then(WorkerMoves, s, next, s');
        TakenWasThere(s, next.ring, v);
      } else {
        s', v := next, s.worker.v + 1;
      }
    } else {
      s' := StopScan(s);
      v := s.worker.v;
    }
  }

  lemma TakenWasThere(s: State, ring: seq<Slot>, v: nat)
    requires Scanning(s) && s.ring[s.off + s.worker.v].valid && s.worker.v < v
    requires ring == s.ring[s.off + s.worker.v := s.ring[s.off + s.worker.v].(valid := false)]
    requires VisibleFrom(ring, s.off + s.worker.v + 1, s.off + v)
    ensures VisibleFrom(s.ring, s.off + s.worker.v, s.off + v)
  {
    forall k | s.off + s.worker.v <= k < s.off + v
      ensures s.ring[k].valid
    {
      if k != s.off + s.worker.v { assert ring[k].valid; }
    }
  }

  /** Client and network are as they were. */
  predicate OthersAsTheyWere(s: State, s': State) {
    && s'.n == s.n && s'.sent == s.sent && s'.wire == s.wire && s'.client == s.client && s'.base == s.base
    && s'.buf == s.buf && s'.mdOff == s.mdOff && s'.cnt == s.cnt && s'.laps == s.laps
    && s'.recvs == s.recvs && s'.completions == s.completions && s'.readyWire == s.readyWire
  }

  /** What a scan has taken is enqueued; a completion wait comes at multiples of 256, READY at the ring's end. */
  lemma CommitEnqueues(s: State) returns (s': State)
    requires Shape(s) && s.worker.Commit? && s.worker.v > 0 && s.off + s.worker.v <= s.n && s.bufIdx == s.off
    requires s.ecnt == LapStart(s.workerLaps, s.n) + s.off
    ensures Reaches(WorkerMoves, s, s') && Shape(s') && OthersAsTheyWere(s, s')
    ensures s'.off == s.off + s.worker.v && s'.ecnt == s.ecnt + s.worker.v
    ensures s'.worker == if s.off + s.worker.v == s.n then Ready else Head
    ensures s'.unwaited == if s'.ecnt % 256 == 0 then 0 else s.unwaited + 1
  {
    s' := WorkerNext(s);
    WholeLaps(s.workerLaps, s.off + s.worker.v, s.n);
    Once(WorkerMoves, s, s');
  }

  /** The first step of a pass: back to the ring's start if need be. */
  lemma HeadStarts(s: State) returns (s': State)
    requires Inv(s) && s.worker.Head?
    ensures Reaches(WorkerMoves, s, s') && Scanning(s') && OthersAsTheyWere(s, s')
    ensures s'.off == (if s.off == s.n then 0 else s.off) && s'.ecnt == s.ecnt && s'.unwaited == s.unwaited
    ensures s'.worker == Check(0, if s.off + 4 > s.n && s.off + 1 < s.n then s.n - s.off else 4) && s'.ring == s.ring
    ensures s'.ecnt == LapStart(s'.workerLaps, s'.n) + s'.off
  {
    ScansStayInside(s);
    s' := WorkerNext(s);
    Once(WorkerMoves, s, s');
  }

  /**
   A pass of the worker, alone: it takes the entries visible at its place, up to four or the end of the ring, and
   enqueues them.
   */
  lemma PassTakesWhatIsThere(s: State) returns (s': State, v: nat)
    requires Inv(s) && s.worker.Head?
    ensures Reaches(WorkerMoves, s, s') && OthersAsTheyWere(s, s')
    ensures var off := if s.off == s.n then 0 else s.off;
            var bound := if s.off + 4 > s.n && s.off + 1 < s.n then s.n - s.off else 4;
            && v <= bound && off + v <= s.n && VisibleFrom(s.ring, off, off + v)
            && (v == bound || !s.ring[off + v].valid)
            && s'.off == off + v && s'.ecnt == s.ecnt + v
            && s'.worker == (if v > 0 && off + v == s.n then Ready else Head)
            && s'.unwaited == (if v == 0 then s.unwaited else if s'.ecnt % 256 == 0 then 0 else s.unwaited + 1)
  {
    var check := HeadStarts(s);
    s', v := ScanTakesAll(check);
    Then(WorkerMoves, s, check, s');
    if v > 0 {
      var end := s';
      s' := CommitEnqueues(end);
      Then(WorkerMoves, s, end, s');
    }
  }

  /** READY is sent by one step more. */
  lemma ReadyGoesOut(s: State) returns (s': State)
    requires Shape(s) && s.worker.Ready?
    ensures WorkerMoves(s, s')
    ensures s' == s.(readyWire := s.readyWire + 1, readies := s.readies + 1, worker := Head)
  {
    s' := WorkerNext(s);
  }

  // ---- A client's pass

  /** One step of the client, and then what follows. */
  lemma ClientFirst(s: State, addr: nat, s': State)
    requires Shape(s) && Reaches(ClientMoves, ClientNext(s, addr), s')
    ensures Reaches(ClientMoves, s, s')
  {
    Once(ClientMoves, s, ClientNext(s, addr));
    Then(ClientMoves, s, ClientNext(s, addr), s');
  }

  lemma PostSends(s: State) returns (s': State)
    requires Shape(s) && s.client.Post?
    ensures Reaches(ClientMoves, s, s')
    ensures s'.sent == s.sent + s.buf[s.mdOff..s.mdOff + 4]
    ensures s'.wire == s.wire + [s.mdOff, s.mdOff + 1, s.mdOff + 2, s.mdOff + 3]
    ensures s'.client == if s.cnt == s.n then Await else Payload
    ensures s'.ecnt == s.ecnt && s'.worker == s.worker && s'.ring == s.ring && s'.off == s.off
  {
    s' := ClientNext(s, 0);
    Once(ClientMoves, s, s');
  }

  /** One entry more is filled in. */
  lemma FillOne(s: State, addr: nat) returns (s': State)
    requires Shape(s) && s.client.Fill?
    ensures s' == ClientNext(s, addr) && Shape(s')
    ensures s' == s.(buf := s'.buf, client := if s.client.j == 3 then Post else Fill(s.client.j + 1))
    ensures s'.buf[s.mdOff..s.mdOff + s.client.j + 1] == s.buf[s.mdOff..s.mdOff + s.client.j] + [addr]
  {
    s' := ClientNext(s, addr);
  }

  lemma FirstOf(sent: seq<nat>, filled: seq<nat>, addrs: seq<nat>)
    requires addrs != []
    ensures sent + (filled + [addrs[0]]) + addrs[1..] == sent + filled + addrs
  {
  }

  /** The client fills in the rest of its four entries and posts them. */
  lemma {:induction false} FillsAndPosts(s: State, addrs: seq<nat>) returns (s': State)
    requires Shape(s) && s.client.Fill? && |addrs| == 4 - s.client.j
    ensures Reaches(ClientMoves, s, s')
    ensures s'.sent == s.sent + s.buf[s.mdOff..s.mdOff + s.client.j] + addrs
    ensures s'.wire == s.wire + [s.mdOff, s.mdOff + 1, s.mdOff + 2, s.mdOff + 3]
    ensures s'.client == if s.cnt == s.n then Await else Payload
    ensures s'.ecnt == s.ecnt && s'.worker == s.worker && s'.ring == s.ring && s'.off == s.off
    decreases |addrs|
  {
    var j := s.client.j;
    var next := FillOne(s, addrs[0]);
    FirstOf(s.sent, s.buf[s.mdOff..s.mdOff + j], addrs);
    if j == 3 {
      s' := PostSends(next);
      assert addrs[1..] == [];
    } else {
      s' := FillsAndPosts(next, addrs[1..]);
    }
    ClientFirst(s, addrs[0], s');
  }

  /** A pass of the client, alone: it posts the four entries given, and after a whole lap it waits. */
  lemma ClientPosts(s: State, addrs: seq<nat>) returns (s': State)
    requires Shape(s) && s.client == Payload && |addrs| == 4
    ensures Reaches(ClientMoves, s, s')
    ensures s'.sent == s.sent + addrs
    ensures s'.wire == s.wire + [s.mdOff, s.mdOff + 1, s.mdOff + 2, s.mdOff + 3]
    ensures s'.client == if s.cnt + 4 == s.n then Await else Payload
    ensures s'.ecnt == s.ecnt && s'.worker == s.worker && s'.ring == s.ring && s'.off == s.off
  {
    var fill := ClientNext(s, 0);
    s' := FillsAndPosts(fill, addrs);
    ClientFirst(s, 0, s');
    assert fill.buf[s.mdOff..s.mdOff] == [];
  }

  /** After READY it starts the next lap, with a receive posted for the one after. */
  lemma ClientGoesOn(s: State) returns (s': State)
    requires Shape(s) && s.client == Await && s.completions > 0
    ensures Reaches(ClientMoves, s, s') && Shape(s')
    ensures s' == s.(completions := s.completions - 1, recvs := s.recvs + 1, cnt := 0, client := Payload,
                     laps := s.laps + 1, base := s.base + s.n)
  {
    var mid := ClientNext(s, 0);
    s' := ClientNext(mid, 0);
    Once(ClientMoves, mid, s');
    ClientFirst(s, 0, s');
  }

  // ---- No deadlock

  /** What a scan has taken and READY go out. */
  lemma EndOfScan(s: State) returns (s': State)
    requires Inv(s) && (s.worker.Head? || s.worker.Commit? || s.worker.Ready?)
    ensures Reaches(WorkerMoves, s, s') && s'.worker == Head && s'.ecnt >= s.ecnt
  {
    s' := s;
    Stays(WorkerMoves, s);
    if s.worker.Commit? {
      s' := CommitEnqueues(s);
    }
    if s'.worker.Ready? {
      var ready := s';
      s' := ReadyGoesOut(ready);
      Once(WorkerMoves, ready, s');
      Then(WorkerMoves, s, ready, s');
    }
  }

  /** The worker, alone, ends the pass it is in. */
  lemma EndOfPass(s: State) returns (s': State)
    requires Inv(s) && !s.worker.Copy? && !s.worker.Clear?
    ensures Reaches(WorkerMoves, s, s') && s'.worker == Head && s'.ecnt >= s.ecnt
  {
    if s.worker.Check? {
      ScansStayInside(s);
      var end, v := ScanTakesAll(s);
      WorkerIsMoving(s, end);
      MovesKeep(s, end);
      s' := EndOfScan(end);
      Then(WorkerMoves, s, end, s');
    } else {
      s' := EndOfScan(s);
    }
  }

  /** From within an entry, too. */
  lemma EndOfAnyPass(s: State) returns (s': State)
    requires Inv(s)
    ensures Reaches(WorkerMoves, s, s') && s'.worker == Head && s'.ecnt >= s.ecnt
  {
    var checking := s;
    Stays(WorkerMoves, s);
    if checking.worker.Copy? { checking := OneOn(s, checking); }
    if checking.worker.Clear? { checking := OneOn(s, checking); }
    s' := EndOfPass(checking);
    Then(WorkerMoves, s, checking, s');
  }

  lemma OneOn(s: State, t: State) returns (t': State)
    requires Reaches(WorkerMoves, s, t) && Inv(t) && (t.worker.Copy? || t.worker.Clear?)
    ensures Reaches(WorkerMoves, s, t') && Inv(t') && t'.ecnt == t.ecnt
    ensures !t'.worker.Copy? && (t.worker.Clear? ==> !t'.worker.Clear?)
  {
    WorkerKeeps(t);
    t' := WorkerNext(t);
    Once(WorkerMoves, t, t');
    Then(WorkerMoves, s, t, t');
  }

  /** The network delivers all writes under way. */
  lemma {:induction false} AllDelivered(s: State) returns (s': State)
    requires Inv(s)
    ensures Reaches(Moves, s, s') && Inv(s') && s' == s.(ring := s'.ring, wire := [])
    decreases |s.wire|
  {
    if s.wire == [] {
      s' := s;
      Stays(Moves, s);
    } else {
      StepKeeps(s, Deliver);
      var next := Apply(s, Deliver);
      s' := AllDelivered(next);
      Once(Moves, s, next);
      Then(Moves, s, next, s');
    }
  }

  /** With everything delivered, an entry not yet enqueued is visible at the worker's place. */
  lemma NextIsVisible(s: State)
    requires Inv(s) && s.worker.Head? && s.wire == [] && s.ecnt < |s.sent|
    ensures s.ring[if s.off == s.n then 0 else s.off].valid
  {
    assert LapsOk(s) && RingOk(s);
  }

  lemma PostedIsEnqueued(s: State) returns (s': State)
    requires Inv(s) && s.worker.Head? && s.ecnt < |s.sent|
    ensures Reaches(Moves, s, s') && s'.ecnt > s.ecnt
  {
    var mid := AllDelivered(s);
    NextIsVisible(mid);
    var v;
    s', v := PassTakesWhatIsThere(mid);
    WorkerIsMoving(mid, s');
    Then(Moves, s, mid, s');
  }

  /** A client that has READY or need not wait for it posts something. */
  lemma ClientPostsSomething(s: State) returns (s': State)
    requires Inv(s) && (s.client.Await? ==> s.completions > 0)
    ensures Reaches(ClientMoves, s, s') && |s'.sent| > |s.sent| && s'.ecnt == s.ecnt && s'.worker == s.worker
  {
    match s.client
    case Payload =>
      s' := ClientPosts(s, [0, 0, 0, 0]);
    case Fill(j) =>
      s' := FillsAndPosts(s, seq(4 - j, _ => 0));
    case Post =>
      s' := PostSends(s);
    case Await =>
      var mid := ClientGoesOn(s);
      s' := ClientPosts(mid, [0, 0, 0, 0]);
      Then(ClientMoves, s, mid, s');
    case Repost =>
      RepostKeeps(s);
      s' := ClientPosts(ClientNext(s, 0), [0, 0, 0, 0]);
      ClientFirst(s, 0, s');
  }

  /** When everything posted has been enqueued, the client can post more. */
  lemma SomethingIsPosted(s: State) returns (s': State)
    requires Inv(s) && s.worker.Head? && s.ecnt == |s.sent|
    ensures Reaches(Moves, s, s') && |s'.sent| > |s.sent| && s'.ecnt == s.ecnt && s'.worker == s.worker
  {
    if s.client.Await? && s.completions == 0 {
      if s.readyWire == 0 { AwaitIsAnswered(s); }
      ReadyFindsAReceive(s);
      var next := Apply(s, ReadyArrives);
      StepKeeps(s, ReadyArrives);
      Once(Moves, s, next);
      s' := ClientPostsSomething(next);
      ClientIsMoving(next, s');
      Then(Moves, s, next, s');
    } else {
      s' := ClientPostsSomething(s);
      ClientIsMoving(s, s');
    }
  }

  /** No deadlock: from every reachable state the system can go on to enqueue a further entry. */
  lemma AFurtherEntryCanBeEnqueued(s: State) returns (s': State)
    requires Inv(s)
    ensures Reaches(Moves, s, s') && s'.ecnt > s.ecnt
  {
    s' := EndOfAnyPass(s);
    WorkerIsMoving(s, s');
    MovesKeep(s, s');
    if s'.ecnt == s.ecnt {
      var posted := s';
      InvMeansInOrder(s');
      if s'.ecnt == |s'.sent| {
        posted := SomethingIsPosted(s');
        MovesKeep(s', posted);
        Then(Moves, s, s', posted);
      }
      s' := PostedIsEnqueued(posted);
      Then(Moves, s, posted, s');
    }
  }

  /** Client and worker at the start: an empty ring, a receive posted. */
  function Fresh(n: nat): (s: State)
    requires n >= 4 && n % 4 == 0
    ensures Init(s) && s.n == n
  {
    State(n, Payload, 0, 0, seq(n, _ => 0), 1, 0, [], 0, seq(n + 3, _ => Slot(false, 0)),
          seq(n + 3, _ => EnqQe(0, NOOP)), Head, 0, 0, 0, 0, [], [], 0, 0, 0, 0, 0, 0)
  }

  /** So there are runs in which as many entries as one likes are enqueued, for every size of the ring. */
  lemma {:induction false} RunsGoOnForever(n: nat, k: nat) returns (s': State)
    requires n >= 4 && n % 4 == 0
    ensures Reaches(Moves, Fresh(n), s') && Inv(s') && s'.ecnt >= k
  {
    InitHolds(Fresh(n));
    if k == 0 {
      s' := Fresh(n);
      Stays(Moves, s');
    } else {
      var before := RunsGoOnForever(n, k - 1);
      s' := AFurtherEntryCanBeEnqueued(before);
      MovesKeep(before, s');
      Then(Moves, Fresh(n), before, s');
    }
  }
}
