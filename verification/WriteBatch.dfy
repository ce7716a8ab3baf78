/**
 Batched RDMA writes: work requests are prepared in an array, linked as they
 come, and handed to the queue pair as one list.
 */
module WriteBatches {
  import opened DlbTypes

  const BATCH_SIZE: nat := 4

  /** One RDMA write as the device carries it out. */
  datatype Write = Write(local: nat, remote: nat, size: nat, signaled: bool)

  /** ibv_sge and ibv_send_wr; pointers into the batch arrays are indices. */
  datatype Sge = Sge(addr: nat, length: nat)

  datatype Wr = Wr(sge: nat, remote: nat, signaled: bool, next: Option<nat>)

  /** What ibv_post_send() reads when handed a list: its writes in order, or None if the list does not end. */
  function Walk(wrs: seq<Wr>, sges: seq<Sge>, at: Option<nat>, fuel: nat): Option<seq<Write>>
    decreases fuel
  {
    match at
    case None => Some([])
    case Some(i) =>
      if fuel == 0 || i >= |wrs| || wrs[i].sge >= |sges| then None
      else
        match Walk(wrs, sges, wrs[i].next, fuel - 1)
        case None => None
        case Some(rest) => Some([WriteAt(wrs, sges, i)] + rest)
  }

  function WriteAt(wrs: seq<Wr>, sges: seq<Sge>, i: nat): Write
    requires i < |wrs| && wrs[i].sge < |sges|
  {
    Write(sges[wrs[i].sge].addr, wrs[i].remote, sges[wrs[i].sge].length, wrs[i].signaled)
  }

  function LinkAfter(i: nat, count: nat): Option<nat> { if i + 1 < count then Some(i + 1) else None }

  /** The first |batch| slots hold these writes, each linked to the next; nothing is said of the slots behind. */
  ghost predicate Holds(wrs: seq<Wr>, sges: seq<Sge>, batch: seq<Write>) {
    && |batch| <= |wrs| == |sges|
    && forall i | 0 <= i < |batch| ::
         wrs[i].sge == i && WriteAt(wrs, sges, i) == batch[i] && wrs[i].next == LinkAfter(i, |batch|)
  }

  /** From slot i on the list is the rest of the batch, whatever earlier batches left in other slots. */
  lemma {:induction false} ListIsBatch(wrs: seq<Wr>, sges: seq<Sge>, batch: seq<Write>, i: nat, fuel: nat)
    requires Holds(wrs, sges, batch) && i < |batch| <= i + fuel
    ensures Walk(wrs, sges, Some(i), fuel) == Some(batch[i..])
    decreases fuel
  {
    if i + 1 == |batch| {
    } else {
      ListIsBatch(wrs, sges, batch, i + 1, fuel - 1);
    }
    assert batch[i..] == [batch[i]] + batch[i + 1..];
  }

  class Connection {
    // data_buf, remote_mr.addr
    const local: nat
    const remote: nat
    const sges: array<Sge>
    const wrs: array<Wr>
    var batchCount: nat

    // Writes prepared and not posted; writes the queue pair was given; writes accepted by prepare; no post has failed
    ghost var batch: seq<Write>
    var posted: seq<Write>
    ghost var accepted: seq<Write>
    ghost var clean: bool

    ghost predicate Valid()
      reads this, sges, wrs
    {
      && sges.Length == wrs.Length == BATCH_SIZE
      && batchCount == |batch| <= BATCH_SIZE
      && Holds(wrs[..], sges[..], batch)
      && (clean ==> accepted == posted + batch)
    }

    constructor (local: nat, remote: nat)
      ensures Valid() && fresh(sges) && fresh(wrs)
      ensures batch == [] && posted == [] && accepted == [] && clean
      ensures this.local == local && this.remote == remote
    {
      this.local, this.remote := local, remote;
      sges := new Sge[BATCH_SIZE](_ => Sge(0, 0));
      wrs := new Wr[BATCH_SIZE](_ => Wr(0, 0, false, None));
      batchCount, batch, posted, accepted, clean := 0, [], [], [], true;
    }

    /** The write a call of Prepare asks for. */
    function Asked(offsetLocal: nat, offsetRemote: nat, size: nat, signal: bool): Write {
      Write(local + offsetLocal, remote + offsetRemote, size, signal)
    }

    /** prepare_send_write_batch(). */
    method Prepare(offsetLocal: nat, offsetRemote: nat, size: nat, signal: bool) returns (rc: int)
      requires Valid()
      modifies this`batchCount, this`batch, this`accepted, sges, wrs
      ensures Valid()
      ensures rc == if |old(batch)| < BATCH_SIZE then 0 else -1
      ensures rc == 0 ==> batch == old(batch) + [Asked(offsetLocal, offsetRemote, size, signal)]
                          && accepted == old(accepted) + [Asked(offsetLocal, offsetRemote, size, signal)]
      ensures rc != 0 ==> batch == old(batch) && accepted == old(accepted)
    {
      var idx := batchCount;
      if idx >= BATCH_SIZE { return -1; }
      sges[idx] := Sge(local + offsetLocal, size);
      wrs[idx] := Wr(idx, remote + offsetRemote, signal, None);
      if idx > 0 {
        wrs[idx - 1] := wrs[idx - 1].(next := Some(idx));
      }
      batchCount := batchCount + 1;
      ghost var w := Asked(offsetLocal, offsetRemote, size, signal);
      batch, accepted := batch + [w], accepted + [w];
      rc := 0;
    }

    /** The device takes the list at wrs[0]; if it refuses a request, only those before it are taken. */
    method PostList() returns (ret: int)
      requires Valid() && batch != []
      modifies this`posted
      ensures Walk(wrs[..], sges[..], Some(0), wrs.Length) == Some(batch)
      ensures ret == 0 ==> posted == old(posted) + batch
      ensures ret != 0 ==> exists taken :: taken < batch && posted == old(posted) + taken
    {
      ListIsBatch(wrs[..], sges[..], batch, 0, wrs.Length);
      var at, refused: bool := 0, false;
      ghost var taken := [];
      ret := 0;
      while true
        invariant at < |batch| && taken == batch[..at] && posted == old(posted) + taken
        decreases |batch| - at
      {
        refused := *;
        if refused {
          ret := 12;
          assert taken < batch;
          return;
        }
        posted := posted + [WriteAt(wrs[..], sges[..], at)];
        taken := taken + [batch[at]];
        match wrs[at].next
        case None =>
          assert taken == batch;
          return;
        case Some(next) => at := next;
      }
    }

    /** post_send_write_batch(). */
    method PostBatch() returns (rc: int)
      requires Valid()
      modifies this`batchCount, this`batch, this`posted, this`clean
      ensures Valid()
      ensures rc == 0 ==> batch == [] && posted == old(posted) + old(batch) && clean == old(clean)
      ensures rc != 0 ==> batch == old(batch) && !clean
      ensures rc != 0 ==> exists taken :: taken < batch && posted == old(posted) + taken
    {
      if batchCount == 0 { return 0; }
      rc := PostList();
      if rc != 0 {
        clean := false;
        return;
      }
      batchCount, batch := 0, [];
    }

    /** The client's payload writes number first..first+count-1. */
    function Payloads(first: nat, count: nat, size: nat, last: bool): (r: seq<Write>)
      ensures |r| == count
    {
      seq(count, k requires 0 <= k < count =>
            Asked((first + k) * size, (first + k) * size, size, last && k == count - 1))
    }

    /** Number k of them, from this side's buffer to the other's at the same place; the last of a lap is signalled. */
    lemma PayloadAt(first: nat, count: nat, size: nat, last: bool, k: nat)
      requires k < count
      ensures Payloads(first, count, size, last)[k] ==
              Write(local + (first + k) * size, remote + (first + k) * size, size, last && k + 1 == count)
    {
      var at := (first + k) * size;
      assert Payloads(first, count, size, last)[k] == Asked(at, at, size, last && k == count - 1);
    }

    /** One payload more, not the last. */
    lemma PayloadsGrow(first: nat, count: nat, size: nat)
      ensures Payloads(first, count + 1, size, false) ==
              Payloads(first, count, size, false) + [Asked((first + count) * size, (first + count) * size, size, false)]
    {
    }

    /** One payload write of the client: added if there is room, dropped if not. */
    method AddPayload(at: nat, size: nat, signal: bool) returns (drop: nat)
      requires Valid()
      modifies this`batchCount, this`batch, this`accepted, sges, wrs
      ensures Valid() && drop == if |old(batch)| < 4 then 0 else 1
      ensures batch == old(batch) + if drop == 0 then [Asked(at * size, at * size, size, signal)] else []
    {
      var r := Prepare(at * size, at * size, size, signal);
      drop := if r != 0 then 1 else 0;
    }

    /** The first writes of a pass; none of them is signalled. */
    method AddFirst(cnt: nat, size: nat) returns (dropped: nat)
      requires Valid()
      modifies this`batchCount, this`batch, this`accepted, sges, wrs
      ensures Valid() && |batch| == Min(|old(batch)| + 3, 4) && dropped == |old(batch)| + 3 - |batch|
      ensures batch == old(batch) + Payloads(cnt + 1, 3 - dropped, size, false)
    {
      dropped := 0;
      for j := 0 to BATCH_SIZE - 1
        invariant Valid() && |old(batch)| <= |batch| == Min(|old(batch)| + j, 4)
        invariant dropped == |old(batch)| + j - |batch|
        invariant batch == old(batch) + Payloads(cnt + 1, j - dropped, size, false)
      {
        PayloadsGrow(cnt + 1, j - dropped, size);
        var drop := AddPayload(cnt + j + 1, size, false);
        dropped := dropped + drop;
      }
    }

    /**
     The payload part of client_thread()'s loop, after cnt writes of a lap of metaSize. Writes are dropped exactly
     when an earlier post failed and left its batch behind.
     */
    method SendPayloads(cnt: nat, metaSize: nat, size: nat) returns (cnt': nat, rc: int, dropped: nat)
      requires Valid() && cnt % BATCH_SIZE == 0 == metaSize % BATCH_SIZE && cnt < metaSize
      modifies this`batchCount, this`batch, this`accepted, this`posted, this`clean, sges, wrs
      ensures Valid() && cnt' == cnt + 4
      ensures dropped == |old(batch)|
      ensures rc != 0 ==> batch != [] && !clean
      ensures rc == 0 && old(batch) == [] ==>
                batch == [] && posted == old(posted) + Payloads(cnt + 1, 4, size, cnt + 4 == metaSize)
      ensures rc == 0 && old(batch) != [] ==>
                batch == []
                && posted == old(posted) + (old(batch) + Payloads(cnt + 1, 4 - |old(batch)|, size, false))
    {
      dropped := AddFirst(cnt, size);
      cnt' := cnt + BATCH_SIZE;
      var drop := 1;
      if cnt' % BATCH_SIZE == 0 && cnt' < metaSize {
        drop := AddPayload(cnt', size, false);
      } else if cnt' == metaSize {
        drop := AddPayload(cnt', size, true);
      }
      dropped := dropped + drop;
      LastPayload(cnt + 1, size, cnt' == metaSize);
      rc := PostBatch();
    }

    lemma LastPayload(first: nat, size: nat, last: bool)
      ensures Payloads(first, 4, size, last) ==
              Payloads(first, 3, size, false) + [Asked((first + 3) * size, (first + 3) * size, size, last)]
    {
      var a, b := Payloads(first, 4, size, last), Payloads(first, 3, size, false);
      assert forall k | 0 <= k < 3 :: a[k] == b[k];
    }
  }
}
