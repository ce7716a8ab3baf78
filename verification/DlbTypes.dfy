/** Values shared by every part of the model: port types, commands, events and queue elements (QEs). */
module DlbTypes {

  datatype Option<+T> = None | Some(value: T)

  function Min(a: nat, b: nat): nat { if a < b then a else b }

  // Unsigned C integers: the value left after the wrap.
  function W16(x: int): nat { if 0 <= x < 0x1_0000 then x else x % 0x1_0000 }
  function W32(x: int): nat { if 0 <= x < 0x1_0000_0000 then x else x % 0x1_0000_0000 }

  /** Wrapping at every addition is wrapping once. */
  lemma W16Adds(a: nat, b: nat)
    ensures W16(W16(a) + b) == W16(a + b)
  {
  }

  /** What is left after taking the used part off a wrapped counter. */
  lemma W16Restores(unused: nat, used: nat)
    requires unused < 0x1_0000
    ensures W16(W16(unused + used) - used) == unused
  {
  }

  /** dlb_port_type_t. */
  datatype PortType = LDB | DIR

  /** One value per port type, as the C arrays of NUM_PORT_TYPES entries. */
  datatype PerType<T> = PerType(ldb: T, dir: T) {
    function At(t: PortType): T { if t.LDB? then ldb else dir }
    function With(t: PortType, v: T): PerType<T> {
      if t.LDB? then this.(ldb := v) else this.(dir := v)
    }
  }

  const NONE: PerType<nat> := PerType(0, 0)

  // enum dlb_event_cmd_t
  const NOOP: nat := 0
  const BAT_T: nat := 1
  const REL: nat := 2
  const REL_T: nat := 3
  const ARM: nat := 5
  const NEW: nat := 8
  const NEW_T: nat := 9
  const FWD: nat := 10
  const FWD_T: nat := 11
  const FRAG: nat := 12
  const FRAG_T: nat := 13

  /** Commands whose tokens library and device count alike: all but two of the reserved ones, 4 to 7 (DebtsAgree). */
  predicate LegalCmd(c: nat) { c <= FRAG_T && c != ARM && c != 7 }

  predicate CreditsRequired(c: nat) { NEW <= c <= FRAG_T }

  predicate CompletesEvent(c: nat) { c == REL || c == REL_T || c == FWD || c == FWD_T }

  predicate IsEnqueue(c: nat) { c == NEW || c == NEW_T || c == FWD || c == FWD_T }

  /** The 16 bytes of a dlb_adv_send_t. `flow` doubles as num_tokens_minus_one. */
  datatype Event = Event(data: nat, opaque_: nat, qid: nat, directed: bool, prio: nat,
                         flow: nat, weight: nat, cmd: nat)

  /** The 16 bytes of a QE written to the producer port, with the misc bits that are always zero left out. */
  datatype Qe = Qe(data: nat, opaque_: nat, qid: nat, directed: bool, prio: nat,
                   flow: nat, weight: nat, cmd: nat, intArm: bool)

  /** Clear QE bit 1 (qe_comp): FWD becomes NEW, REL becomes NOOP. */
  function ClearComp(c: nat): (r: nat)
    ensures r % 2 == c % 2 && !CompletesEvent(r)
  {
    if (c / 2) % 2 == 1 then c - 2 else c
  }

  function QeOf(e: Event, keepWeight: bool, clearComp: bool): Qe {
    Qe(e.data, e.opaque_, e.qid, e.directed, e.prio, e.flow,
       if keepWeight then e.weight else 0,
       if clearComp then ClearComp(e.cmd) else e.cmd, false)
  }

  /** Commands whose name says that they return one token with what else they do. */
  predicate ReturnsToken(c: nat) { c == REL_T || c == NEW_T || c == FWD_T || c == FRAG_T }

  /** CQ tokens a command returns to the device. That the reserved ones return none is an assumption. */
  function CmdTokens(cmd: nat, flow: nat): nat {
    if cmd == BAT_T then 1 + flow else if ReturnsToken(cmd) then 1 else 0
  }

  /** The tokens dec_port_owed_tokens() takes off: it looks at bit 0 only. */
  function TokensOff(cmd: nat, flow: nat): nat {
    if cmd % 2 == 0 then 0 else if cmd == BAT_T then 1 + flow else 1
  }

  /** The reserved commands 5 and 7 take a token off the library's count that the device never gets. */
  lemma DebtsAgree(cmd: nat, flow: nat)
    requires cmd <= FRAG_T
    ensures TokensOff(cmd, flow) == CmdTokens(cmd, flow) <==> LegalCmd(cmd)
  {
  }

  /** The commands by number: what each is, what it returns to the device, and whether it costs a credit. */
  lemma CommandTable(c: nat, flow: nat)
    ensures CmdTokens(c, flow) == if c == 1 then 1 + flow else if c in {3, 9, 11, 13} then 1 else 0
    ensures CmdReleases(c) == if c in {2, 3, 10, 11} then 1 else 0
    ensures CreditsRequired(c) <==> 8 <= c <= 13
    ensures IsEnqueue(c) <==> 8 <= c <= 11
  {
  }

  /** Bit 1 of a command completes an event, but for the reserved 6 and 7; a directed port clears it in an enqueue. */
  lemma CompletionBit(c: nat)
    requires c <= 13
    ensures c != 6 && c != 7 ==> (CmdReleases(c) == 1 <==> (c / 2) % 2 == 1)
    ensures c >= 8 ==> ClearComp(c) == match c case 10 => 8 case 11 => 9 case _ => c
  {
  }

  function CmdReleases(cmd: nat): nat { if CompletesEvent(cmd) then 1 else 0 }

  // What the device takes from the slots written to a producer port.

  function TokensUpTo(slots: seq<Qe>, n: nat): nat
    requires n <= |slots|
  {
    if n == 0 then 0 else TokensUpTo(slots, n - 1) + CmdTokens(slots[n - 1].cmd, slots[n - 1].flow)
  }

  function ReleasesUpTo(slots: seq<Qe>, n: nat): nat
    requires n <= |slots|
  {
    if n == 0 then 0 else ReleasesUpTo(slots, n - 1) + CmdReleases(slots[n - 1].cmd)
  }

  function SlotTokens(slots: seq<Qe>): nat { TokensUpTo(slots, |slots|) }

  function SlotReleases(slots: seq<Qe>): nat { ReleasesUpTo(slots, |slots|) }

  lemma {:induction false} SameUpTo(before: seq<Qe>, after: seq<Qe>, n: nat)
    requires n <= |before| && before <= after
    ensures TokensUpTo(after, n) == TokensUpTo(before, n)
    ensures ReleasesUpTo(after, n) == ReleasesUpTo(before, n)
  {
    if n == 0 {
      assert TokensUpTo(after, 0) == ReleasesUpTo(after, 0) == 0;
    } else {
      SameUpTo(before, after, n - 1);
      assert after[n - 1] == before[n - 1];
    }
  }

  /** The same for one cache line of four. */
  function LineTokens(l: seq<Qe>): nat
    requires |l| == 4
  {
    CmdTokens(l[0].cmd, l[0].flow) + CmdTokens(l[1].cmd, l[1].flow)
    + CmdTokens(l[2].cmd, l[2].flow) + CmdTokens(l[3].cmd, l[3].flow)
  }

  function LineReleases(l: seq<Qe>): nat
    requires |l| == 4
  {
    CmdReleases(l[0].cmd) + CmdReleases(l[1].cmd) + CmdReleases(l[2].cmd) + CmdReleases(l[3].cmd)
  }

  lemma OneMoreSlot(slots: seq<Qe>, q: Qe)
    ensures SlotTokens(slots + [q]) == SlotTokens(slots) + CmdTokens(q.cmd, q.flow)
    ensures SlotReleases(slots + [q]) == SlotReleases(slots) + CmdReleases(q.cmd)
  {
    SameUpTo(slots, slots + [q], |slots|);
  }

  lemma OneMoreLine(slots: seq<Qe>, l: seq<Qe>)
    requires |l| == 4
    ensures SlotTokens(slots + l) == SlotTokens(slots) + LineTokens(l)
    ensures SlotReleases(slots + l) == SlotReleases(slots) + LineReleases(l)
  {
    OneMoreSlot(slots, l[0]);
    OneMoreSlot(slots + [l[0]], l[1]);
    OneMoreSlot(slots + [l[0]] + [l[1]], l[2]);
    OneMoreSlot(slots + [l[0]] + [l[1]] + [l[2]], l[3]);
    assert slots + l == slots + [l[0]] + [l[1]] + [l[2]] + [l[3]];
  }

  // What the library charges for the first n events of a call.

  function EventTokens(evts: seq<Event>, n: nat): nat
    requires n <= |evts|
  {
    if n == 0 then 0 else EventTokens(evts, n - 1) + CmdTokens(evts[n - 1].cmd, evts[n - 1].flow)
  }

  function EventReleases(evts: seq<Event>, n: nat): nat
    requires n <= |evts|
  {
    if n == 0 then 0 else EventReleases(evts, n - 1) + CmdReleases(evts[n - 1].cmd)
  }

  lemma {:induction false} ChargesGrow(evts: seq<Event>, k: nat, n: nat)
    requires k <= n <= |evts|
    ensures EventTokens(evts, k) <= EventTokens(evts, n)
    ensures EventReleases(evts, k) <= EventReleases(evts, n)
  {
    if k == n {
    } else {
      ChargesGrow(evts, k, n - 1);
    }
  }
}
