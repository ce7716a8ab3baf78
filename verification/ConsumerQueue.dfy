/**
 A port's consumer queue: a ring in memory that the device fills and the port
 reads, with one generation bit per entry as the only sign that it is new.
 */
module ConsumerQueue {
  import opened DlbTypes

  /** The part of dlb_dequeue_qe_t the receive path looks at. */
  datatype Received = Received(data: nat, opaque_: nat, qid: nat, depth: nat)

  datatype CqEntry = CqEntry(qe: Received, gen: nat)

  /** The generation bit written in lap `lap`; memory starts as 0, so lap 0 writes 1. */
  function GenOf(lap: nat): nat { if lap % 2 == 0 then 1 else 0 }

  /** Where entry number w falls: its lap round the ring and its position in that lap. */
  datatype Place = Place(lap: nat, pos: nat)

  function PlaceOf(w: nat, depth: nat): (p: Place)
    requires 0 < depth
    ensures p.pos < depth
  {
    if w == 0 then Place(0, 0)
    else
      var p := PlaceOf(w - 1, depth);
      if p.pos + 1 == depth then Place(p.lap + 1, 0) else Place(p.lap, p.pos + 1)
  }

  /** Stepping and wrapping is the same as dividing. */
  lemma {:induction false} PlaceIsDivMod(w: nat, depth: nat)
    requires 0 < depth
    ensures w == PlaceOf(w, depth).lap * depth + PlaceOf(w, depth).pos
  {
    if w == 0 {
    } else {
      PlaceIsDivMod(w - 1, depth);
      var p := PlaceOf(w - 1, depth);
      assert (p.lap + 1) * depth == p.lap * depth + depth;
    }
  }

  lemma {:induction false} PlaceLater(w: nat, k: nat, depth: nat)
    requires 0 < depth && k <= depth
    ensures var p, q := PlaceOf(w, depth), PlaceOf(w + k, depth);
            if p.pos + k < depth then q == Place(p.lap, p.pos + k)
            else q == Place(p.lap + 1, p.pos + k - depth)
  {
    if k == 0 {
    } else {
      PlaceLater(w, k - 1, depth);
    }
  }

  lemma {:induction false} FirstLap(w: nat, depth: nat)
    requires w < depth
    ensures PlaceOf(w, depth) == Place(0, w)
  {
    PlaceLater(0, w, depth);
  }

  /** Where entry number w lives: one QE per slot, or one per cache line when the stride is 4. */
  function SlotOf(w: nat, depth: nat, stride: nat): (s: nat)
    requires 0 < depth && (stride == 1 || stride == 4)
    ensures s < Scale(depth, stride)
  {
    Scale(PlaceOf(w, depth).pos, stride)
  }

  /** Adding the stride and wrapping at the limit follows the entries; the bit flips at each wrap. */
  lemma StepSlot(r: nat, depth: nat, stride: nat)
    requires 0 < depth && (stride == 1 || stride == 4)
    ensures var next, gen := SlotOf(r, depth, stride) + stride, GenOf(PlaceOf(r, depth).lap);
            var wraps := next == Scale(depth, stride);
            && SlotOf(r + 1, depth, stride) == (if wraps then 0 else next)
            && GenOf(PlaceOf(r + 1, depth).lap) == (if !wraps then gen else if gen == 0 then 1 else 0)
  {
    PlaceLater(r, 1, depth);
  }

  /** k * stride for the two strides there are. */
  function Scale(k: nat, stride: nat): nat { if stride == 1 then k else 4 * k }

  lemma SlotsApart(v: nat, w: nat, depth: nat, stride: nat)
    requires 0 < depth && (stride == 1 || stride == 4)
    requires v < w < v + depth || w < v < depth
    ensures SlotOf(v, depth, stride) != SlotOf(w, depth, stride)
  {
    if v < w { PlaceLater(v, w - v, depth); } else { PlaceLater(w, v - w, depth); }
  }

  /** The last `depth` entries written are in memory with their lap's bit; untouched slots have bit 0. */
  ghost predicate MemoryHolds(mem: seq<CqEntry>, written: seq<Received>, depth: nat, stride: nat)
    requires 0 < depth && (stride == 1 || stride == 4) && |mem| == Scale(depth, stride)
  {
    && (forall w: nat {:trigger SlotOf(w, depth, stride)} | w < |written| <= w + depth ::
          mem[SlotOf(w, depth, stride)] == CqEntry(written[w], GenOf(PlaceOf(w, depth).lap)))
    && (forall w: nat {:trigger SlotOf(w, depth, stride)} | |written| <= w < depth ::
          mem[SlotOf(w, depth, stride)].gen == 0)
  }

  lemma MemoryAfterWrite(mem: seq<CqEntry>, written: seq<Received>, depth: nat, stride: nat, e: Received)
    requires 0 < depth && (stride == 1 || stride == 4) && |mem| == Scale(depth, stride)
    requires MemoryHolds(mem, written, depth, stride)
    ensures var w := |written|;
            var mem' := mem[SlotOf(w, depth, stride) := CqEntry(e, GenOf(PlaceOf(w, depth).lap))];
            MemoryHolds(mem', written + [e], depth, stride)
  {
    var w := |written|;
    var mem' := mem[SlotOf(w, depth, stride) := CqEntry(e, GenOf(PlaceOf(w, depth).lap))];
    var written' := written + [e];
    forall v: nat {:trigger SlotOf(v, depth, stride)} | v < |written'| <= v + depth
      ensures mem'[SlotOf(v, depth, stride)] == CqEntry(written'[v], GenOf(PlaceOf(v, depth).lap))
    {
      if v < w {
        SlotsApart(v, w, depth, stride);
        assert written'[v] == written[v];
      }
    }
    forall v: nat {:trigger SlotOf(v, depth, stride)} | |written'| <= v < depth
      ensures mem'[SlotOf(v, depth, stride)].gen == 0
    {
      SlotsApart(v, w, depth, stride);
    }
  }

  /** The slot of an entry that is written and unread holds its lap's bit. */
  lemma UnreadShowsItsBit(mem: seq<CqEntry>, written: seq<Received>, depth: nat, stride: nat, r: nat)
    requires 0 < depth && (stride == 1 || stride == 4) && |mem| == Scale(depth, stride)
    requires MemoryHolds(mem, written, depth, stride)
    requires r < |written| <= r + depth
    ensures mem[SlotOf(r, depth, stride)].gen == GenOf(PlaceOf(r, depth).lap)
  {
    assert mem[SlotOf(r, depth, stride)] == CqEntry(written[r], GenOf(PlaceOf(r, depth).lap));
  }

  /** The next slot to be written still holds the bit of the lap before. */
  lemma LastLapShows(mem: seq<CqEntry>, written: seq<Received>, depth: nat, stride: nat, v: nat)
    requires 0 < depth && (stride == 1 || stride == 4) && |mem| == Scale(depth, stride)
    requires MemoryHolds(mem, written, depth, stride)
    requires v + depth == |written|
    ensures mem[SlotOf(v + depth, depth, stride)].gen != GenOf(PlaceOf(v + depth, depth).lap)
  {
    PlaceLater(v, depth, depth);
    assert mem[SlotOf(v, depth, stride)] == CqEntry(written[v], GenOf(PlaceOf(v, depth).lap));
  }

  /** In the first lap it holds 0. */
  lemma FreshMemoryShows(mem: seq<CqEntry>, written: seq<Received>, depth: nat, stride: nat)
    requires 0 < depth && (stride == 1 || stride == 4) && |mem| == Scale(depth, stride)
    requires MemoryHolds(mem, written, depth, stride)
    requires |written| < depth
    ensures mem[SlotOf(|written|, depth, stride)].gen != GenOf(PlaceOf(|written|, depth).lap)
  {
    FirstLap(|written|, depth);
  }

  /** With at most `depth` entries unread, the generation test is right: it says empty exactly when all are read. */
  lemma BitTestIsExact(mem: seq<CqEntry>, written: seq<Received>, depth: nat, stride: nat, r: nat)
    requires 0 < depth && (stride == 1 || stride == 4) && |mem| == Scale(depth, stride)
    requires MemoryHolds(mem, written, depth, stride)
    requires r <= |written| <= r + depth
    ensures mem[SlotOf(r, depth, stride)].gen != GenOf(PlaceOf(r, depth).lap) <==> r == |written|
  {
    if r < |written| {
      UnreadShowsItsBit(mem, written, depth, stride, r);
    } else if r >= depth {
      LastLapShows(mem, written, depth, stride, r - depth);
    } else {
      FreshMemoryShows(mem, written, depth, stride);
    }
  }

  /** Without that bound it is wrong: for the next whole lap a ring that is more than full reads as empty. */
  lemma OverrunReadsAsEmpty(mem: seq<CqEntry>, written: seq<Received>, depth: nat, stride: nat, r: nat)
    requires 0 < depth && (stride == 1 || stride == 4) && |mem| == Scale(depth, stride)
    requires MemoryHolds(mem, written, depth, stride)
    requires r + depth < |written| <= r + 2 * depth
    ensures mem[SlotOf(r, depth, stride)].gen != GenOf(PlaceOf(r, depth).lap)
  {
    PlaceLater(r, depth, depth);
    assert SlotOf(r + depth, depth, stride) == SlotOf(r, depth, stride);
    assert mem[SlotOf(r, depth, stride)] == CqEntry(written[r + depth], GenOf(PlaceOf(r, depth).lap + 1));
  }

  class Cq {
    // cq_depth, qe_stride, cq_limit
    const depth: nat
    const stride: nat
    const limit: nat
    var mem: seq<CqEntry>                // written by the device, read by the library

    // cq_idx, cq_gen
    var idx: nat
    var gen: nat

    // Every entry the device has written, and how many of them the port has read.
    var written: seq<Received>
    ghost var read: nat

    ghost predicate Shape()
      reads this
    {
      && 0 < depth && (stride == 1 || stride == 4)
      && limit == Scale(depth, stride) == |mem|
    }

    /** Index and generation are those of entry number `read`. */
    ghost predicate Aligned()
      reads this
    {
      Shape() && idx == Scale(PlaceOf(read, depth).pos, stride) && gen == GenOf(PlaceOf(read, depth).lap)
    }

    ghost predicate Valid()
      reads this
    {
      && Aligned()
      && read <= |written| <= read + depth
      && MemoryHolds(mem, written, depth, stride)
    }

    /** The queue this ring implements: entries written and not yet read. */
    ghost function Pending(): seq<Received>
      requires Valid()
      reads this
    {
      written[read..]
    }

    constructor (cqDepth: nat, sparse: bool)
      ensures Valid()
      ensures depth == (if cqDepth <= 8 then 8 else cqDepth) && stride == (if sparse then 4 else 1)
      ensures written == [] && read == 0
    {
      var d := if cqDepth <= 8 then 8 else cqDepth;
      var s := if sparse then 4 else 1;
      depth, stride, limit := d, s, d * s;
      mem := seq(d * s, _ => CqEntry(Received(0, 0, 0, 0), 0));
      idx, gen := 0, 1;
      written, read := [], 0;
    }

    /** PORT_CQ_IS_EMPTY: one bit decides. */
    predicate IsEmpty()
      requires Valid()
      reads this
      ensures IsEmpty() <==> Pending() == []
    {
      assert idx == SlotOf(read, depth, stride);
      BitTestIsExact(mem, written, depth, stride, read);
      mem[idx].gen != gen
    }

    /** The device schedules one more event to this CQ. */
    method DeviceWrite(e: Received)
      requires Valid() && |written| < read + depth
      modifies this`written, this`mem
      ensures Valid() && written == old(written) + [e]
      ensures Pending() == old(Pending()) + [e]
    {
      var w := |written|;
      MemoryAfterWrite(mem, written, depth, stride, e);
      mem := mem[SlotOf(w, depth, stride) := CqEntry(e, GenOf(PlaceOf(w, depth).lap))];
      written := written + [e];
    }

    method HeadEntry() returns (e: Received)
      requires Valid() && !IsEmpty()
      ensures e == written[read] && Pending() == [e] + written[read + 1..]
    {
      assert idx == SlotOf(read, depth, stride);
      assert mem[idx] == CqEntry(written[read], GenOf(PlaceOf(read, depth).lap));
      e := mem[idx].qe;
    }

    /** Step over the head: add the stride and, at the limit, wrap and flip the generation. */
    method Step()
      requires Aligned()
      modifies this`idx, this`gen, this`read
      ensures Aligned() && read == old(read) + 1
    {
      StepSlot(read, depth, stride);
      idx := idx + stride;
      if idx == limit {
        gen := if gen == 0 then 1 else 0;
        idx := 0;
      }
      read := read + 1;
    }

    /** One pass of the receive loop: copy the entry at the head and step over it. */
    method Next() returns (e: Received)
      requires Valid() && !IsEmpty()
      modifies this`idx, this`gen, this`read
      ensures Valid() && read == old(read) + 1
      ensures old(Pending()) == [e] + Pending() && e == written[old(read)]
    {
      e := HeadEntry();
      Step();
    }
  }
}
