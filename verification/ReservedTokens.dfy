/**
 The reserved-token scheme of v1 devices: the library keeps some CQ tokens
 back and spends one of them each time it arms the CQ interrupt.
 */
module ReservedTokens {
  import opened DlbTypes

  /**
   owed_tokens and cq_rsvd_token_deficit, and what they stand for: events received and tokens given back to the
   device so far.
   */
  datatype Tokens = Tokens(owed: nat, deficit: nat, received: nat, returned: nat)

  /** Reserved tokens in hand. */
  function Held(t: Tokens, rsvd: nat): int { rsvd - t.deficit }

  /** Every token not given back is either owed by the application or held in reserve. */
  predicate Balanced(t: Tokens, rsvd: nat) {
    && t.deficit <= rsvd && t.returned <= t.received
    && t.received - t.returned == t.owed + Held(t, rsvd)
  }

  /** inc_port_owed_tokens(). */
  function Incremented(t: Tokens, cnt: nat): Tokens {
    if cnt < t.deficit then t.(deficit := t.deficit - cnt, received := t.received + cnt)
    else t.(owed := t.owed + cnt - t.deficit, deficit := 0, received := t.received + cnt)
  }

  /** dlb_pop_cq(): at most what is owed. */
  function Popped(t: Tokens, num: nat): Tokens {
    t.(owed := t.owed - Min(num, t.owed), returned := t.returned + Min(num, t.owed))
  }

  /** __dlb_send_rsvd_token_int_arm(): one token goes back, and the deficit is set to 1. */
  function Armed(t: Tokens): Tokens {
    t.(deficit := 1, returned := t.returned + 1)
  }

  lemma IncrementKeeps(t: Tokens, rsvd: nat, cnt: nat)
    requires Balanced(t, rsvd)
    ensures Balanced(Incremented(t, cnt), rsvd)
    ensures Held(Incremented(t, cnt), rsvd) == Min(rsvd, rsvd - t.deficit + cnt)
    ensures Incremented(t, cnt).received == t.received + cnt && Incremented(t, cnt).returned == t.returned
  {
  }

  /** A pop gives back at most what is owed, and leaves the reserve alone. */
  lemma PopKeeps(t: Tokens, rsvd: nat, num: nat)
    requires Balanced(t, rsvd)
    ensures Balanced(Popped(t, num), rsvd) && Held(Popped(t, num), rsvd) == Held(t, rsvd)
    ensures Popped(t, num).returned == t.returned + Min(num, t.owed) && Popped(t, num).received == t.received
  {
  }

  /** Arming keeps the balance if and only if there is no deficit; otherwise the deficit is forgotten. */
  lemma ArmingNeedsNoDeficit(t: Tokens, rsvd: nat)
    requires Balanced(t, rsvd) && rsvd > 0
    ensures Balanced(Armed(t), rsvd) <==> t.deficit == 0
    ensures Armed(t).owed == t.owed && Armed(t).received == t.received && Armed(t).returned == t.returned + 1
    ensures Armed(t).owed + Held(Armed(t), rsvd) == Armed(t).received - Armed(t).returned + t.deficit
  {
  }

  /**
   The depth and reserve of a port's CQ: for the requested depth the ring is doubled and half of it reserved; at the
   largest depth one token is.
   */
  datatype Sizes = Sizes(depth: nat, rsvd: nat)

  function SizesFor(cqDepth: nat): (s: Sizes)
    requires 0 < cqDepth <= 1024
    ensures s.rsvd == (if cqDepth < 1024 then cqDepth else 1)
    ensures s.depth - s.rsvd == if cqDepth < 1024 then cqDepth else 1023
  {
    if cqDepth < 1024 then Sizes(2 * cqDepth, cqDepth) else Sizes(cqDepth, 1)
  }

  class RsvdPort {
    const requested: nat
    const sizes: Sizes
    var owedTokens: nat
    var deficit: nat
    var intArmed: bool

    // Events the device has written, events received, tokens returned
    ghost var written: nat
    ghost var received: nat
    ghost var returned: nat

    ghost function View(): Tokens
      reads this
    {
      Tokens(owedTokens, deficit, received, returned)
    }

    ghost predicate Valid()
      reads this
    {
      && 0 < requested <= 1024 && sizes == SizesFor(requested)
      && Balanced(View(), sizes.rsvd) && owedTokens < 0x1_0000
      && received <= written <= returned + sizes.depth
    }

    /** Entries the device can still have unread in the CQ. */
    ghost function Usable(): int
      reads this
    {
      returned + sizes.depth - received
    }

    /** What is reserved never eats into the depth that was asked for: only owed tokens do. */
    lemma UsableDepth()
      requires Valid()
      ensures Usable() + owedTokens >= if requested < 1024 then requested else 1023
      ensures Usable() + owedTokens == sizes.depth - Held(View(), sizes.rsvd)
    {
    }

    constructor (cqDepth: nat)
      requires 0 < cqDepth <= 1024
      ensures Valid() && requested == cqDepth && View() == Tokens(0, SizesFor(cqDepth).rsvd, 0, 0) && written == 0
    {
      requested, sizes := cqDepth, SizesFor(cqDepth);
      owedTokens, deficit, intArmed := 0, SizesFor(cqDepth).rsvd, false;
      written, received, returned := 0, 0, 0;
    }

    /** The device writes an event while it has a token for it. */
    ghost method DeviceWrite()
      requires Valid() && written < returned + sizes.depth
      modifies this`written
      ensures Valid() && written == old(written) + 1
    {
      written := written + 1;
    }

    /** The accounting of a receive of cnt events. */
    method Receive(cnt: nat)
      requires Valid() && received + cnt <= written
      modifies this`owedTokens, this`deficit, this`received
      ensures Valid() && View() == Incremented(old(View()), cnt)
    {
      if cnt < deficit {
        deficit := deficit - cnt;
      } else {
        owedTokens := W16(owedTokens + (cnt - deficit));
        deficit := 0;
      }
      received := received + cnt;
    }

    method Pop(num: nat) returns (count: nat)
      requires Valid()
      modifies this`owedTokens, this`returned
      ensures Valid() && View() == Popped(old(View()), num)
      ensures count == old(owedTokens) - owedTokens
    {
      count := if num < owedTokens then num else owedTokens;
      owedTokens := owedTokens - count;
      returned := returned + count;
    }

    /** __dlb_issue_int_arm_hcw() with reserved tokens. */
    method Arm()
      requires 0 < requested <= 1024 && sizes == SizesFor(requested)
      modifies this`deficit, this`intArmed, this`returned
      ensures View() == Armed(old(View())) && intArmed
      ensures old(Valid()) ==> (Valid() <==> old(deficit) == 0)
    {
      ghost var t := View();
      returned := returned + 1;
      deficit := 1;
      intArmed := true;
      if Balanced(t, sizes.rsvd) { ArmingNeedsNoDeficit(t, sizes.rsvd); }
    }

    /** dlb_block_on_cq_interrupt(): with a deficit it polls instead of arming. */
    method BlockOnInterrupt() returns (ret: int)
      requires Valid()
      modifies this`deficit, this`intArmed, this`returned
      ensures Valid()
      ensures View() == if old(intArmed) || old(deficit) > 0 then old(View()) else Armed(old(View()))
      ensures !old(intArmed) && old(deficit) > 0 ==> ret == 0
      ensures intArmed == (ret != 0)
    {
      if !intArmed {
        if deficit != 0 { return 0; }
        Arm();
      }
      ret := *;
      intArmed := ret != 0;
    }
  }
}
