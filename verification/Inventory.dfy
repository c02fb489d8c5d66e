/** The nonce counter, the broadcast block and the balances of one process. */
module Inventories {
  import opened Bundles
  import opened Wrappers

  class Inventory {
    var nonce: nat
    var blockedUntil: nat
    var eth: nat
    var weth: nat
    const gate: bool

    constructor (gate: bool)
      ensures nonce == 0 && blockedUntil == 0 && eth == 0 && weth == 0 && this.gate == gate
    {
      nonce, blockedUntil, eth, weth := 0, 0, 0, 0;
      this.gate := gate;
    }

    /** A refresh may advance the counter; it never erases a private reservation. */
    method AdvanceChainNonce(pending: nat)
      modifies `nonce
      ensures old(nonce) <= nonce && pending <= nonce && (nonce == old(nonce) || nonce == pending)
    {
      if nonce < pending { nonce := pending; }
    }

    method ReserveNonces(count: nat) returns (start: nat)
      modifies `nonce
      ensures start == old(nonce) && nonce == start + count
    {
      start := nonce;
      nonce := nonce + count;
    }

    /** Gives a range back only when it is the newest one. */
    method ReleaseNonces(start: nat, count: nat) returns (released: bool)
      modifies `nonce
      ensures released <==> old(nonce) == start + count
      ensures nonce == if released then start else old(nonce)
    {
      released := nonce == start + count;
      if released { nonce := start; }
    }

    method BlockBroadcastUntil(block: nat)
      modifies `blockedUntil
      ensures old(blockedUntil) <= blockedUntil && block <= blockedUntil
      ensures blockedUntil == old(blockedUntil) || blockedUntil == block
    {
      if blockedUntil < block { blockedUntil := block; }
    }

    predicate BroadcastAvailable(head: nat)
      reads this
    {
      head > blockedUntil
    }

    /** The signer pays gas in ETH; what is not flash-funded spends the executor's WETH. */
    predicate CanFund(opp: Opportunity)
      reads this
    {
      !gate || (eth != 0 && (opp.flashTokens != [] || opp.notional <= weth))
    }

    /** Each answer may be missing: the last known value then stays. Without an executor there is
        no WETH. */
    method Refresh(pending: Option<nat>, ethBalance: Option<nat>, executor: bool, wethBalance: Option<nat>)
      modifies this
      ensures blockedUntil == old(blockedUntil)
      ensures nonce == if pending.Some? && old(nonce) < pending.value then pending.value else old(nonce)
      ensures eth == if ethBalance.Some? then ethBalance.value else old(eth)
      ensures weth == if !executor then 0 else if wethBalance.Some? then wethBalance.value else old(weth)
    {
      if pending.Some? { AdvanceChainNonce(pending.value); }
      if ethBalance.Some? { eth := ethBalance.value; }
      if executor {
        if wethBalance.Some? { weth := wethBalance.value; }
      } else {
        weth := 0;
      }
    }
  }

  /** Reserving and giving back is undone exactly when no refresh went past the range. */
  method ReserveThenRelease(inv: Inventory, count: nat, pending: nat) returns (released: bool)
    modifies inv
    ensures released <==> pending <= old(inv.nonce) + count
    ensures released ==> inv.nonce == old(inv.nonce)
    ensures !released ==> inv.nonce == pending
  {
    var start := inv.ReserveNonces(count);
    inv.AdvanceChainNonce(pending);
    released := inv.ReleaseNonces(start, count);
  }
}
