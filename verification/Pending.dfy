/** Slots for sockets that have not paired yet: internal/ws/pending.go. */
module Pending {

  const MAX_PENDING := 32
  const MAX_PER_ADDR := 4

  type Shares = map<string, nat>

  /** The table counts a bag of addresses: one entry for each address in it, no zeroes. */
  ghost predicate Counts(total: nat, byAddr: Shares, held: multiset<string>) {
    && total == |held|
    && forall a :: (a in byAddr <==> a in held) && (a in byAddr ==> byAddr[a] == held[a])
  }

  class PendingConns {
    const limit: nat
    const perAddr: nat
    var total: nat
    var byAddr: Shares
    ghost var held: multiset<string>      // the address of every slot taken and not given back

    ghost predicate Valid()
      reads this
    {
      Counts(total, byAddr, held)
    }

    constructor (most: nat, share: nat)
      ensures Valid() && held == multiset{} && limit == most && perAddr == share
    {
      limit, perAddr, total, byAddr, held := most, share, 0, map[], multiset{};
    }

    /** A slot is given exactly when both caps leave room for one. */
    method Acquire(addr: string) returns (ok: bool)
      requires Valid()
      modifies this
      ensures Valid()
      ensures ok <==> |old(held)| < limit && old(held)[addr] < perAddr
      ensures held == if ok then old(held) + multiset{addr} else old(held)
    {
      var n := if addr in byAddr then byAddr[addr] else 0;
      if total >= limit || n >= perAddr {
        return false;
      }
      total := total + 1;
      byAddr := byAddr[addr := n + 1];
      held := held + multiset{addr};
      ok := true;
    }

    /** Gives back one slot of an address that has one. */
    method Release(addr: string)
      requires Valid() && addr in held
      modifies this
      ensures Valid() && held == old(held) - multiset{addr}
    {
      if total > 0 {
        total := total - 1;
      }
      var n := if addr in byAddr then byAddr[addr] else 0;
      if n > 1 {
        byAddr := byAddr[addr := n - 1];
      } else {
        byAddr := byAddr - {addr};
      }
      held := held - multiset{addr};
    }
  }

  /** The shares of some of the addresses, added up. */
  ghost function SumOver(byAddr: Shares, addrs: set<string>): nat
    requires addrs <= byAddr.Keys
  {
    if addrs == {} then 0
    else
      var a :| a in addrs;
      byAddr[a] + SumOver(byAddr, addrs - {a})
  }

  lemma {:induction false} SumCounts(byAddr: Shares, held: multiset<string>, addrs: set<string>)
    requires addrs <= byAddr.Keys
    requires forall a :: a in addrs ==> byAddr[a] == held[a]
    requires forall a :: a in held ==> a in addrs
    ensures SumOver(byAddr, addrs) == |held|
  {
    if addrs == {} {
      assert held == multiset{};
    } else {
      var a :| a in addrs && SumOver(byAddr, addrs) == byAddr[a] + SumOver(byAddr, addrs - {a});
      SumCounts(byAddr, held[a := 0], addrs - {a});
    }
  }

  /** The per-address shares add up to the total, and every share is at least one. */
  lemma SharesAddUp(total: nat, byAddr: Shares, held: multiset<string>)
    requires Counts(total, byAddr, held)
    ensures SumOver(byAddr, byAddr.Keys) == total
    ensures forall a :: a in byAddr ==> 1 <= byAddr[a] <= total
  {
    SumCounts(byAddr, held, byAddr.Keys);
    forall a | a in byAddr
      ensures 1 <= byAddr[a] <= total
    {
      assert a in held;
      assert held[a := 0] + multiset{}[a := held[a]] == held;
    }
  }
}
