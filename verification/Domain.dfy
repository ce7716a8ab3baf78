/**
 Ports and the credit system together: what the ports' own contracts say of
 their caches, carried over to the pools of the whole domain.
 */
module Domains {
  import opened DlbTypes
  import opened CreditOps
  import opened CreditSystem
  import opened CreditRuns
  import opened Ports

  /** A harmless run of the whole system up to step i. */
  ghost predicate Reached(states: seq<Sys>, steps: seq<Step>, i: nat) {
    Run(states, steps) && i <= |steps| && HarmlessUpTo(states, steps, i)
  }

  /** The port is port p of the run: it is between calls, and has done what the run says it has done. */
  ghost predicate IsPort(port: Port, states: seq<Sys>, steps: seq<Step>, i: nat, p: nat)
    requires Reached(states, steps, i)
    reads port, port.cache, port.cache.pools, port.cq
  {
    p < |states[0].look| && port.Valid() && port.cache.trace.log == OpsOf(steps, i, p)
  }

  lemma CacheIsCached(port: Port, states: seq<Sys>, steps: seq<Step>, i: nat, p: nat)
    requires Reached(states, steps, i) && IsPort(port, states, steps, i, p)
    ensures Inv(states[i]) && p < |states[i].look| && states[i].total == states[0].total
    ensures |states[i].look| == |states[0].look|
    ensures forall t :: port.cache.credits.At(t) == states[i].cached.At(t)[p]
  {
    CreditsAreConserved(states, steps, i);
    PortsFollowTheirLogs(states, steps, i, p);
    var trace := port.cache.trace;
    TraceIsReplay(trace, |trace.log|);
    assert trace.log[..|trace.log|] == trace.log;
  }

  /** What the ports may cache between calls: two batches each, and a credit for every token owed. */
  ghost predicate Allowed(ports: seq<Port>, allowances: seq<nat>)
    reads ports
  {
    |allowances| == |ports| && forall p | 0 <= p < |ports| :: allowances[p] == 64 + ports[p].owedTokens
  }

  /** Bounded caching, for the pools: they never hold less than what was granted to them, but for those credits. */
  lemma PoolsKeepTheRest(ports: seq<Port>, states: seq<Sys>, steps: seq<Step>, i: nat, t: PortType,
                         allowances: seq<nat>)
    requires Reached(states, steps, i) && |ports| == |states[0].look| && Allowed(ports, allowances)
    requires forall p | 0 <= p < |ports| :: IsPort(ports[p], states, steps, i, p)
    ensures Inv(states[i])
    ensures var s := states[i];
            Sum(s.avail.At(t)) >= s.total.At(t) - s.remainder.At(t) - InFlight(s, t)
                                  - (if t.LDB? then OnSnic(s.snic) else 0) - Sum(allowances)
  {
    CreditsAreConserved(states, steps, i);
    forall p | 0 <= p < |ports|
      ensures states[i].cached.At(t)[p] <= allowances[p]
    {
      CacheIsCached(ports[p], states, steps, i, p);
      assert ports[p].Valid();
    }
    PoolFloor(states[i], t, allowances);
  }

  /** If every receive pops its tokens, that is 64 credits per port. */
  lemma PoolsKeepAllBut64(ports: seq<Port>, states: seq<Sys>, steps: seq<Step>, i: nat, t: PortType)
    requires Reached(states, steps, i) && |ports| == |states[0].look|
    requires forall p | 0 <= p < |ports| :: IsPort(ports[p], states, steps, i, p) && ports[p].owedTokens == 0
    ensures Inv(states[i])
    ensures var s := states[i];
            Sum(s.avail.At(t)) >= s.total.At(t) - s.remainder.At(t) - InFlight(s, t)
                                  - (if t.LDB? then OnSnic(s.snic) else 0) - |ports| * 64
  {
    var allowances: seq<nat> := seq(|ports|, _ => 64);
    PoolsKeepTheRest(ports, states, steps, i, t, allowances);
    SumAtMost(allowances, 64);
  }

  /** One pool has all granted credits of the type, and nothing is on its way. */
  predicate AllInOnePool(s: Sys, p: nat, t: PortType)
    requires Shape(s) && p < |s.look|
  {
    && s.remainder.At(t) == 0 && InFlight(s, t) == 0 && (t.LDB? ==> OnSnic(s.snic) == 0)
    && forall i | 0 <= i < |s.avail.At(t)| && i != PoolIndex(s, p, t) :: s.avail.At(t)[i] == 0
  }

  /** When every other port is drained, as its idle calls leave it, one port has all credits of the domain in reach. */
  lemma IdlePortsLeaveEverything(ports: seq<Port>, states: seq<Sys>, steps: seq<Step>, i: nat, p: nat, t: PortType)
    requires Reached(states, steps, i) && p < |ports| == |states[0].look|
    requires forall q | 0 <= q < |ports| :: IsPort(ports[q], states, steps, i, q)
    requires forall q | 0 <= q < |ports| && q != p ::
               Drained(ports[q].cache.is25, ports[q].cache.Cached()) && (ports[q].cache.is25 ==> t.LDB?)
    requires Inv(states[i]) && p < |states[i].look| && AllInOnePool(states[i], p, t)
    ensures ports[p].cache.credits.At(t) + states[i].avail.At(t)[PoolIndex(states[i], p, t)] == states[0].total.At(t)
  {
    CreditsAreConserved(states, steps, i);
    forall q | 0 <= q < |states[i].look| && q != p
      ensures states[i].cached.At(t)[q] == 0
    {
      CacheIsCached(ports[q], states, steps, i, q);
    }
    CacheIsCached(ports[p], states, steps, i, p);
    EverythingInReach(states[i], p, t);
  }

  /** One send for whose length the others leave the pools alone. */
  method SendAlone(port: Port, t: PortType, ghost total: nat, buf: array<Event>, from: nat, num: nat)
    returns (count: int)
    requires port.Valid() && port.started && port.enabled
    requires port.cache.Within().At(t) == total
    requires from + num <= buf.Length && num < 0x8000_0000
    requires OneType(Stamped(buf[from..from + num], NEW), t, port.cache.is25)
    requires !Rejected(Stamped(buf[from..from + num], NEW), port.queueOk)
    modifies buf, port`owedTokens, port`owedReleases, port`sent, port.qe, port.cache`credits,
             port.cache`counts, port.cache`trace, port.cache`quiet, port.cache.pools
    ensures count == Min(num, total) && port.cache.quiet == old(port.cache.quiet)
  {
    var quiet := port.cache.quiet;
    port.cache.quiet := true;
    count := port.DlbSend(buf, from, num);
    port.cache.quiet := quiet;
  }

  /**
   So an uncontended dlb_send() is starved by nobody: it sends all it is given, up to the domain's total. Whatever the
   others did before, it is for the length of this call that they leave the pools alone.
   */
  method UncontendedSend(ports: seq<Port>, p: nat, port: Port, t: PortType, buf: array<Event>, from: nat, num: nat,
                         ghost states: seq<Sys>, ghost steps: seq<Step>, ghost i: nat)
    returns (count: int)
    requires Reached(states, steps, i) && p < |ports| == |states[0].look| && port == ports[p]
    requires forall q | 0 <= q < |ports| :: IsPort(ports[q], states, steps, i, q)
    requires forall q | 0 <= q < |ports| && q != p ::
               Drained(ports[q].cache.is25, ports[q].cache.Cached()) && (ports[q].cache.is25 ==> t.LDB?)
    requires Inv(states[i]) && p < |states[i].look| && AllInOnePool(states[i], p, t)
    requires port.cache.pools.avail.At(t) == states[i].avail.At(t)[PoolIndex(states[i], p, t)]
    requires from + num <= buf.Length && num < 0x8000_0000
    requires OneType(Stamped(buf[from..from + num], NEW), t, port.cache.is25)
    requires port.started && port.enabled
    requires !Rejected(Stamped(buf[from..from + num], NEW), port.queueOk)
    modifies buf, port`owedTokens, port`owedReleases, port`sent, port.qe, port.cache`credits,
             port.cache`counts, port.cache`trace, port.cache`quiet, port.cache.pools
    ensures count == Min(num, states[0].total.At(t)) && port.cache.quiet == old(port.cache.quiet)
  {
    IdlePortsLeaveEverything(ports, states, steps, i, p, t);
    count := SendAlone(port, t, states[0].total.At(t), buf, from, num);
  }
}
