/**
 Domain and port handles: the linked lists they are kept in, and which of the
 attach, detach and reset calls succeed.
 */
module Handles {
  import opened DlbTypes

  // ---- The lists

  class Handle {
    var next: Handle?

    constructor ()
      ensures next == null
    {
      next := null;
    }
  }

  /** The list without h. */
  function Without<T(==)>(s: seq<T>, h: T): (r: seq<T>) {
    if s == [] then [] else if s[0] == h then s[1..] else [s[0]] + Without(s[1..], h)
  }

  /** Deleting takes out that one element and leaves the others in their order. */
  lemma {:induction false} WithoutAt<T>(s: seq<T>, i: nat)
    requires i < |s| && forall k | 0 <= k < i :: s[k] != s[i]
    ensures Without(s, s[i]) == s[..i] + s[i + 1..]
  {
    if i == 0 {
    } else {
      WithoutAt(s[1..], i - 1);
    }
  }

  lemma {:induction false} WithoutAbsent<T>(s: seq<T>, h: T)
    requires h !in s
    ensures Without(s, h) == s
  {
    if s == [] {
    } else {
      WithoutAbsent(s[1..], h);
    }
  }

  class HandleList {
    var head: Handle?
    ghost var items: seq<Handle>

    ghost predicate Valid()
      reads this, items
    {
      && head == At(0)
      && (forall i | 0 <= i < |items| :: items[i].next == At(i + 1))
      && (forall i, j | 0 <= i < j < |items| :: items[i] != items[j])
    }

    ghost function At(i: nat): Handle?
      reads this
    {
      if i < |items| then items[i] else null
    }

    constructor ()
      ensures Valid() && items == []
    {
      head, items := null, [];
    }

    /** LIST_ADD. */
    method Add(entry: Handle)
      requires Valid() && entry !in items
      modifies this, entry
      ensures Valid() && items == [entry] + old(items)
    {
      if head == null {
        head := entry;
        entry.next := null;
      } else {
        entry.next := head;
        head := entry;
      }
      items := [entry] + items;
    }

    /** Take the element behind position k out of the list. */
    method Unlink(tmp: Handle, entry: Handle, ghost k: nat)
      requires Valid() && k + 1 < |items| && tmp == items[k] && entry == items[k + 1]
      modifies this`items, tmp`next
      ensures Valid() && items == old(items)[..k + 1] + old(items)[k + 2..]
    {
      tmp.next := entry.next;
      items := items[..k + 1] + items[k + 2..];
    }

    /** LIST_DEL. */
    method Del(entry: Handle) returns (found: bool)
      requires Valid()
      modifies this, items
      ensures Valid()
      ensures found <==> entry in old(items)
      ensures items == Without(old(items), entry)
    {
      found := false;
      if head == entry {
        WithoutAt(items, 0);
        items := items[1..];
        head := entry.next;
        return true;
      }
      var tmp := head;
      ghost var k := 0;
      while tmp != null
        invariant k <= |items| && tmp == At(k)
        invariant forall m | 0 <= m <= k && m < |items| :: items[m] != entry
        decreases |items| - k
      {
        if tmp.next == entry {
          WithoutAt(items, k + 1);
          Unlink(tmp, entry, k);
          return true;
        }
        tmp := tmp.next;
        k := k + 1;
      }
      WithoutAbsent(items, entry);
    }
  }

  // ---- The calls

  datatype PortHandle = PortHandle(id: nat, domain: nat)

  /** What one process keeps for the domain: its domain handles, and the handles of each port. */
  datatype Process = Process(handles: seq<nat>, ports: seq<seq<PortHandle>>)

  /** `next` is an address no handle has had yet. */
  datatype Domain = Domain(procs: seq<Process>, refcnt: int, configured: bool, creator: nat, next: nat)

  datatype Call =
    | AttachDomain(p: nat)
    | DetachDomain(p: nat, h: nat)
    | AttachPort(p: nat, h: nat, port: nat)
    | DetachPort(p: nat, port: nat, ph: PortHandle)
    | Reset(p: nat)

  datatype Error = EINVAL | EEXIST | EPERM

  datatype Outcome = Done | Failed(error: Error)

  predicate NoPorts(l: Process) { forall k | 0 <= k < |l.ports| :: l.ports[k] == [] }

  /** The outcome of a call, by the checks the library makes. */
  function Check(d: Domain, c: Call): Outcome {
    match c
    case AttachDomain(p) => if p < |d.procs| && d.configured then Done else Failed(EINVAL)
    case DetachDomain(p, h) =>
      if !(p < |d.procs| && h in d.procs[p].handles) then Failed(EINVAL)
      else if !NoPorts(d.procs[p]) then Failed(EEXIST) else Done
    case AttachPort(p, h, port) =>
      if p < |d.procs| && h in d.procs[p].handles && port < |d.procs[p].ports| then Done else Failed(EINVAL)
    case DetachPort(p, port, ph) =>
      if p < |d.procs| && port < |d.procs[p].ports| && ph in d.procs[p].ports[port] then Done else Failed(EINVAL)
    case Reset(p) =>
      if p != d.creator then Failed(EPERM)
      else if !d.configured then Failed(EINVAL)
      else if d.refcnt != 0 then Failed(EEXIST) else Done
  }

  function SetProcess(d: Domain, p: nat, l: Process): Domain
    requires p < |d.procs|
  {
    d.(procs := d.procs[p := l])
  }

  function After(d: Domain, c: Call): Domain {
    if Check(d, c) != Done then d
    else
      match c
      case AttachDomain(p) =>
        var l := d.procs[p];
        SetProcess(d, p, l.(handles := [d.next] + l.handles)).(refcnt := d.refcnt + 1, next := d.next + 1)
      case DetachDomain(p, h) =>
        var l := d.procs[p];
        SetProcess(d, p, l.(handles := Without(l.handles, h))).(refcnt := d.refcnt - 1)
      case AttachPort(p, h, port) =>
        var l := d.procs[p];
        SetProcess(d, p, l.(ports := l.ports[port := [PortHandle(d.next, h)] + l.ports[port]])).(next := d.next + 1)
      case DetachPort(p, port, ph) =>
        var l := d.procs[p];
        SetProcess(d, p, l.(ports := l.ports[port := Without(l.ports[port], ph)]))
      case Reset(_) => d.(configured := false)
  }

  function HandleCount(procs: seq<Process>): nat {
    if procs == [] then 0 else HandleCount(procs[..|procs| - 1]) + |procs[|procs| - 1].handles|
  }

  /** A port handle hangs on an attached domain handle of its own process. */
  ghost predicate PortsHang(l: Process) {
    forall k, ph | 0 <= k < |l.ports| && ph in l.ports[k] :: ph.domain in l.handles
  }

  predicate NoDup<T(==)>(s: seq<T>) { forall i, j | 0 <= i < j < |s| :: s[i] != s[j] }

  /** No handle is twice in a list, and `next` is in none. */
  ghost predicate Distinct(l: Process, next: nat) {
    && NoDup(l.handles) && (forall h | h in l.handles :: h < next)
    && (forall k | 0 <= k < |l.ports| :: NoDup(l.ports[k]))
    && (forall k, ph | 0 <= k < |l.ports| && ph in l.ports[k] :: ph.id < next)
  }

  ghost predicate Inv(d: Domain) {
    && d.refcnt == HandleCount(d.procs)
    && (forall p | 0 <= p < |d.procs| :: PortsHang(d.procs[p]) && Distinct(d.procs[p], d.next))
    && (!d.configured ==> d.refcnt == 0)
  }

  lemma {:induction false} CountUpdate(procs: seq<Process>, p: nat, l: Process)
    requires p < |procs|
    ensures HandleCount(procs[p := l]) == HandleCount(procs) - |procs[p].handles| + |l.handles|
  {
    var n := |procs| - 1;
    if p == n {
      assert procs[p := l][..n] == procs[..n];
    } else {
      CountUpdate(procs[..n], p, l);
      assert procs[p := l][..n] == procs[..n][p := l];
    }
  }

  lemma {:induction false} CountZero(procs: seq<Process>, p: nat)
    requires HandleCount(procs) == 0 && p < |procs|
    ensures procs[p].handles == []
  {
    if p == |procs| - 1 {
    } else {
      CountZero(procs[..|procs| - 1], p);
    }
  }

  lemma {:induction false} WithoutFacts<T>(s: seq<T>, h: T)
    ensures h in s ==> |Without(s, h)| == |s| - 1
  {
    if s == [] || s[0] == h {
    } else {
      WithoutFacts(s[1..], h);
    }
  }

  lemma NoDupCons<T>(s: seq<T>, x: T)
    requires NoDup(s) && x !in s
    ensures NoDup([x] + s)
  {
  }

  lemma {:induction false} WithoutNoDup<T>(s: seq<T>, h: T)
    requires NoDup(s)
    ensures NoDup(Without(s, h)) && forall x :: x in Without(s, h) <==> x in s && x != h
  {
    if s == [] {
    } else {
      assert forall k | 1 <= k < |s| :: s[k] != s[0];
      assert NoDup(s[1..]) && s[0] !in s[1..] && s == [s[0]] + s[1..];
      if s[0] != h {
        WithoutNoDup(s[1..], h);
        NoDupCons(Without(s[1..], h), s[0]);
      }
    }
  }

  lemma ProcessKeeps(d: Domain, c: Call)
    requires Inv(d) && Check(d, c) == Done && !c.Reset?
    ensures PortsHang(After(d, c).procs[c.p]) && Distinct(After(d, c).procs[c.p], After(d, c).next)
  {
    var l := d.procs[c.p];
    assert PortsHang(l) && Distinct(l, d.next);
    match c
    case AttachDomain(_) => NoDupCons(l.handles, d.next);
    case DetachDomain(_, h) => WithoutNoDup(l.handles, h);
    case AttachPort(_, h, port) =>
      if PortHandle(d.next, h) !in l.ports[port] { NoDupCons(l.ports[port], PortHandle(d.next, h)); }
    case DetachPort(_, port, ph) => WithoutNoDup(l.ports[port], ph);
  }

  lemma CallKeeps(d: Domain, c: Call)
    requires Inv(d)
    ensures Inv(After(d, c))
  {
    if Check(d, c) == Done && !c.Reset? {
      var l, d' := d.procs[c.p], After(d, c);
      CountUpdate(d.procs, c.p, d'.procs[c.p]);
      if c.DetachDomain? { WithoutFacts(l.handles, c.h); }
      ProcessKeeps(d, c);
    }
  }

  predicate Init(d: Domain) {
    && d.configured && d.refcnt == 0
    && forall p | 0 <= p < |d.procs| :: d.procs[p].handles == [] && NoPorts(d.procs[p])
  }

  function Run(d: Domain, calls: seq<Call>): Domain {
    if calls == [] then d else After(Run(d, calls[..|calls| - 1]), calls[|calls| - 1])
  }

  lemma {:induction false} InitCount(procs: seq<Process>)
    requires forall p | 0 <= p < |procs| :: procs[p].handles == []
    ensures HandleCount(procs) == 0
  {
    if procs == [] {
    } else {
      InitCount(procs[..|procs| - 1]);
    }
  }

  lemma {:induction false} RunKeeps(d: Domain, calls: seq<Call>)
    requires Init(d)
    ensures Inv(Run(d, calls))
  {
    if calls == [] {
      InitCount(d.procs);
    } else {
      RunKeeps(d, calls[..|calls| - 1]);
      CallKeeps(Run(d, calls[..|calls| - 1]), calls[|calls| - 1]);
    }
  }

  lemma NoDomainNoPorts(l: Process)
    requires PortsHang(l) && l.handles == []
    ensures NoPorts(l)
  {
    forall k | 0 <= k < |l.ports|
      ensures l.ports[k] == []
    {
      SomeMember(l.ports[k]);
      assert forall ph | ph in l.ports[k] :: ph.domain in l.handles;
    }
  }

  lemma SomeMember(s: seq<PortHandle>)
    ensures s != [] ==> exists x :: x in s
  {
    if s != [] { assert s[0] in s; }
  }

  /** After any calls, a reset by the creator succeeds exactly when no process has a handle of either kind left. */
  lemma ResetNeedsNoHandles(d: Domain, calls: seq<Call>)
    requires Init(d) && Run(d, calls).configured
    ensures var now := Run(d, calls);
            Check(now, Reset(now.creator)) == Done <==>
              forall p | 0 <= p < |now.procs| :: now.procs[p].handles == [] && NoPorts(now.procs[p])
  {
    RunKeeps(d, calls);
    var now := Run(d, calls);
    if now.refcnt == 0 {
      forall p | 0 <= p < |now.procs|
        ensures now.procs[p].handles == [] && NoPorts(now.procs[p])
      {
        CountZero(now.procs, p);
        NoDomainNoPorts(now.procs[p]);
      }
    } else if forall p | 0 <= p < |now.procs| :: now.procs[p].handles == [] && NoPorts(now.procs[p]) {
      InitCount(now.procs);
    }
  }

  // ---- The lists hold exactly the attached handles

  /** Domain handles that process p attached and did not detach. */
  function DomainHandles(d: Domain, calls: seq<Call>, p: nat): set<nat> {
    if calls == [] then {}
    else
      var before, c := Run(d, calls[..|calls| - 1]), calls[|calls| - 1];
      var handles := DomainHandles(d, calls[..|calls| - 1], p);
      if Check(before, c) != Done || c.p != p then handles
      else if c.AttachDomain? then handles + {before.next}
      else if c.DetachDomain? then handles - {c.h}
      else handles
  }

  /** The same for the handles of one port. */
  function PortHandles(d: Domain, calls: seq<Call>, p: nat, port: nat): set<PortHandle> {
    if calls == [] then {}
    else
      var before, c := Run(d, calls[..|calls| - 1]), calls[|calls| - 1];
      var handles := PortHandles(d, calls[..|calls| - 1], p, port);
      if Check(before, c) != Done || c.p != p then handles
      else if c.AttachPort? && c.port == port then handles + {PortHandle(before.next, c.h)}
      else if c.DetachPort? && c.port == port then handles - {c.ph}
      else handles
  }

  lemma {:induction false} ListsHoldAttachedHandles(d: Domain, calls: seq<Call>, p: nat, port: nat)
    requires Init(d) && p < |d.procs| && port < |d.procs[p].ports|
    ensures var now := Run(d, calls);
            && |now.procs| == |d.procs| && |now.procs[p].ports| == |d.procs[p].ports|
            && (forall h :: h in now.procs[p].handles <==> h in DomainHandles(d, calls, p))
            && (forall ph :: ph in now.procs[p].ports[port] <==> ph in PortHandles(d, calls, p, port))
  {
    if calls == [] {
    } else {
      var before, c := Run(d, calls[..|calls| - 1]), calls[|calls| - 1];
      ListsHoldAttachedHandles(d, calls[..|calls| - 1], p, port);
      RunKeeps(d, calls[..|calls| - 1]);
      if Check(before, c) == Done && c.p == p {
        assert Distinct(before.procs[p], before.next);
        if c.DetachDomain? { WithoutNoDup(before.procs[p].handles, c.h); }
        if c.DetachPort? { WithoutNoDup(before.procs[p].ports[c.port], c.ph); }
      }
    }
  }

  // ---- Which calls succeed, by what was called before

  /** Some reset has succeeded. */
  function WasReset(d: Domain, calls: seq<Call>): bool {
    calls != []
    && (WasReset(d, calls[..|calls| - 1])
        || (calls[|calls| - 1].Reset? && Check(Run(d, calls[..|calls| - 1]), calls[|calls| - 1]) == Done))
  }

  lemma {:induction false} ConfiguredUntilReset(d: Domain, calls: seq<Call>)
    requires Init(d)
    ensures Run(d, calls).configured <==> !WasReset(d, calls)
    ensures Run(d, calls).creator == d.creator && |Run(d, calls).procs| == |d.procs|
  {
    if calls == [] {
    } else {
      ConfiguredUntilReset(d, calls[..|calls| - 1]);
    }
  }

  /** After any calls a domain handle is attached unless the domain has been reset. */
  lemma AttachDomainSucceeds(d: Domain, calls: seq<Call>, p: nat)
    requires Init(d) && p < |d.procs|
    ensures Check(Run(d, calls), AttachDomain(p)) == if WasReset(d, calls) then Failed(EINVAL) else Done
  {
    ConfiguredUntilReset(d, calls);
  }

  /** A port handle is attached to a domain handle that is attached, and detached if it is. */
  lemma PortCallsSucceed(d: Domain, calls: seq<Call>, p: nat, port: nat, h: nat, ph: PortHandle)
    requires Init(d) && p < |d.procs| && port < |d.procs[p].ports|
    ensures Check(Run(d, calls), AttachPort(p, h, port))
            == if h in DomainHandles(d, calls, p) then Done else Failed(EINVAL)
    ensures Check(Run(d, calls), DetachPort(p, port, ph))
            == if ph in PortHandles(d, calls, p, port) then Done else Failed(EINVAL)
  {
    ListsHoldAttachedHandles(d, calls, p, port);
  }

  /** A port handle of process p is attached. */
  ghost predicate PortAttached(d: Domain, calls: seq<Call>, p: nat)
    requires p < |d.procs|
  {
    exists port | 0 <= port < |d.procs[p].ports| :: PortHandles(d, calls, p, port) != {}
  }

  lemma PortListIsSet(d: Domain, calls: seq<Call>, p: nat, port: nat)
    requires Init(d) && p < |d.procs| && port < |d.procs[p].ports|
    ensures var now := Run(d, calls);
            && |now.procs| == |d.procs| && |now.procs[p].ports| == |d.procs[p].ports|
            && (now.procs[p].ports[port] == [] <==> PortHandles(d, calls, p, port) == {})
  {
    ListsHoldAttachedHandles(d, calls, p, port);
    SomeMember(Run(d, calls).procs[p].ports[port]);
  }

  /** A domain handle is detached if it is attached and no port handle of the process is. */
  lemma DetachDomainSucceeds(d: Domain, calls: seq<Call>, p: nat, h: nat)
    requires Init(d) && p < |d.procs| && |d.procs[p].ports| > 0
    ensures Check(Run(d, calls), DetachDomain(p, h))
            == if h !in DomainHandles(d, calls, p) then Failed(EINVAL)
               else if PortAttached(d, calls, p) then Failed(EEXIST) else Done
  {
    ListsHoldAttachedHandles(d, calls, p, 0);
    forall port | 0 <= port < |d.procs[p].ports|
      ensures Run(d, calls).procs[p].ports[port] == [] <==> PortHandles(d, calls, p, port) == {}
    {
      PortListIsSet(d, calls, p, port);
    }
    if PortAttached(d, calls, p) {
      var port :| 0 <= port < |d.procs[p].ports| && PortHandles(d, calls, p, port) != {};
      assert Run(d, calls).procs[p].ports[port] != [];
    }
  }

  /** A reset is refused to anyone but the creator, and to him after a reset or with a handle left anywhere. */
  lemma ResetOutcome(d: Domain, calls: seq<Call>, p: nat)
    requires Init(d)
    ensures var now := Run(d, calls).procs;
            var left := exists q | 0 <= q < |now| :: now[q].handles != [];
            Check(Run(d, calls), Reset(p))
            == if p != d.creator then Failed(EPERM)
               else if WasReset(d, calls) then Failed(EINVAL)
               else if left then Failed(EEXIST) else Done
  {
    ConfiguredUntilReset(d, calls);
    RunKeeps(d, calls);
    var now := Run(d, calls);
    if now.refcnt == 0 {
      forall q | 0 <= q < |now.procs|
        ensures now.procs[q].handles == []
      {
        CountZero(now.procs, q);
      }
    } else if forall q | 0 <= q < |now.procs| :: now.procs[q].handles == [] {
      InitCount(now.procs);
    }
  }
}
