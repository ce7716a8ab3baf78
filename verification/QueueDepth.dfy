/**
 Queue-depth counters: each port counts the events it receives by queue and
 depth level, and the domain adds the ports up relative to the last reset.
 */
module QueueDepth {
  import opened DlbTypes

  datatype Key = Key(queue: nat, level: nat)

  function Entry(m: map<Key, nat>, k: Key): nat { if k in m then m[k] else 0 }

  /** dlb_queue_level_t of one port; entries that are 0 are left out of the maps. */
  class Levels {
    var count: map<Key, nat>
    var reset: map<Key, nat>

    // The queue and level of every event received, and how many there were when each counter was last reset
    ghost var history: seq<Key>
    ghost var mark: map<Key, nat>

    constructor ()
      ensures Valid() && history == [] && mark == map[]
    {
      count, reset, history, mark := map[], map[], [], map[];
    }

    ghost predicate Valid()
      reads this
    {
      forall k :: Entry(mark, k) <= |history|
                  && Entry(count, k) == multiset(history)[k]
                  && Entry(reset, k) == multiset(history[..Entry(mark, k)])[k]
    }

    /** Events of this kind since the counter's last reset. */
    ghost function Since(k: Key): nat
      requires Valid()
      reads this
    {
      multiset(history[Entry(mark, k)..])[k]
    }

    method Bump(k: Key)
      requires Valid()
      modifies this`count, this`history
      ensures Valid() && history == old(history) + [k]
    {
      count := count[k := Entry(count, k) + 1];
      history := history + [k];
      forall j
        ensures Entry(count, j) == multiset(history)[j]
        ensures Entry(mark, j) <= |history| && Entry(reset, j) == multiset(history[..Entry(mark, j)])[j]
      {
        assert Entry(mark, j) <= |old(history)| && Entry(count, j) == old(Entry(count, j)) + if j == k then 1 else 0;
        assert history[..Entry(mark, j)] == old(history)[..Entry(mark, j)];
      }
    }

    method ResetKey(k: Key)
      requires Valid()
      modifies this`reset, this`mark
      ensures Valid() && history == old(history) && mark == old(mark)[k := |history|]
    {
      reset := reset[k := Entry(count, k)];
      mark := mark[k := |history|];
      assert history[..|history|] == history;
      assert forall j :: j != k ==> Entry(mark, j) == old(Entry(mark, j)) && Entry(reset, j) == old(Entry(reset, j));
    }

    /** Moving one mark to the end empties that counter and leaves the others alone. */
    twostate lemma MarkMoved(k: Key)
      requires old(Valid()) && Valid() && history == old(history)
      requires mark == old(mark)[k := |history|]
      ensures Since(k) == 0 && forall j :: j != k ==> Since(j) == old(Since(j))
    {
      assert history[|history|..] == [];
      assert forall j :: j != k ==> Entry(mark, j) == old(Entry(mark, j));
    }

    lemma CountLessReset(k: Key)
      requires Valid()
      ensures Entry(count, k) - Entry(reset, k) == Since(k)
    {
      var m := Entry(mark, k);
      assert history == history[..m] + history[m..];
    }
  }

  /** The first n ports' events of this kind since its last reset. */
  ghost function Total(ports: seq<Levels>, n: nat, k: Key): nat
    requires n <= |ports| && forall p | p in ports :: p.Valid()
    reads ports
    decreases n
  {
    if n == 0 then 0 else Total(ports, n - 1, k) + ports[n - 1].Since(k)
  }

  /** dlb_adv_read_queue_depth_counter(): exactly the events received since the last reset, over all ports. */
  method ReadCounter(ports: seq<Levels>, k: Key) returns (n: int)
    requires forall p | p in ports :: p.Valid()
    ensures n == Total(ports, |ports|, k)
  {
    n := 0;
    for i := 0 to |ports|
      invariant n == Total(ports, i, k)
    {
      ports[i].CountLessReset(k);
      n := n + (Entry(ports[i].count, k) - Entry(ports[i].reset, k));
    }
  }

  /** dlb_adv_reset_queue_depth_counter(): that counter starts again at 0 on every port; no other moves. */
  method ResetCounter(ports: seq<Levels>, k: Key)
    requires forall p | p in ports :: p.Valid()
    modifies ports
    ensures forall p | p in ports :: p.Valid() && p.history == old(p.history) && p.Since(k) == 0
    ensures forall p, j | p in ports && j != k :: p.Since(j) == old(p.Since(j))
  {
    for i := 0 to |ports|
      invariant forall p | p in ports :: p.Valid() && p.history == old(p.history)
      invariant forall p | p in ports :: p.mark == old(p.mark) || p.mark == old(p.mark)[k := |p.history|]
      invariant forall m | 0 <= m < i :: ports[m].mark == old(ports[m].mark)[k := |ports[m].history|]
    {
      assert ports[i] in ports;
      ports[i].ResetKey(k);
    }
    forall p | p in ports
      ensures p.Since(k) == 0 && forall j | j != k :: p.Since(j) == old(p.Since(j))
    {
      p.MarkMoved(k);
    }
  }

  ghost function Pick(keys: set<Key>): (k: Key)
    requires keys != {}
    ensures k in keys
  {
    var k :| k in keys; k
  }

  /** The counters of a set of keys added up. */
  ghost function SumOver(keys: set<Key>, m: map<Key, nat>): nat
  {
    if keys == {} then 0 else Entry(m, Pick(keys)) + SumOver(keys - {Pick(keys)}, m)
  }

  lemma {:induction false} SumIsSize(keys: set<Key>, m: map<Key, nat>, events: multiset<Key>)
    requires forall k | k in keys :: Entry(m, k) == events[k]
    requires forall k | k in events :: k in keys
    ensures SumOver(keys, m) == |events|
    decreases keys
  {
    if keys == {} {
      assert events == multiset{};
    } else {
      var k := Pick(keys);
      SumIsSize(keys - {k}, m, events[k := 0]);
      assert |events| == |events[k := 0]| + events[k];
    }
  }

  /** Events received on the first n ports, by their histories and by their counters. */
  ghost function TotalReceived(ports: seq<Levels>, n: nat): nat
    requires n <= |ports|
    reads ports
    decreases n
  {
    if n == 0 then 0 else TotalReceived(ports, n - 1) + |ports[n - 1].history|
  }

  ghost function Counted(ports: seq<Levels>, n: nat): nat
    requires n <= |ports|
    reads ports
    decreases n
  {
    if n == 0 then 0 else Counted(ports, n - 1) + SumOver(ports[n - 1].count.Keys, ports[n - 1].count)
  }

  /** All counters of all ports together count every event once. */
  lemma {:induction false} CountersMissNothing(ports: seq<Levels>, n: nat)
    requires n <= |ports| && forall p | p in ports :: p.Valid()
    ensures Counted(ports, n) == TotalReceived(ports, n)
    decreases n
  {
    if n == 0 {
    } else {
      var p := ports[n - 1];
      assert p in ports;
      assert forall k | k in multiset(p.history) :: Entry(p.count, k) > 0;
      SumIsSize(p.count.Keys, p.count, multiset(p.history));
      CountersMissNothing(ports, n - 1);
    }
  }
}
