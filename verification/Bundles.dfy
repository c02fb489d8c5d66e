/** Bundle construction: which transactions a bundle holds, which nonces they use and which of
    them settles. */
module Bundles {
  import opened Chain

  datatype Call = Call(target: Address, value: nat, data: seq<nat>)

  datatype Opportunity = Opportunity(id: nat, frontCalls: seq<Call>, backCalls: seq<Call>,
                                     flashTokens: seq<Address>, flashAmounts: seq<nat>,
                                     profitToken: Address, targetBlock: nat, notional: nat)

  datatype RiskConfig = RiskConfig(minNetProfit: nat, bribeBps: nat, maxBaseFee: nat)

  datatype Guard = Guard(profitToken: Address, minProfit: nat, bribeBps: nat, blockDeadline: nat,
                         maxBaseFee: nat, phase: nat)

  /** The two executor entry points, before ABI encoding. */
  datatype Execution =
    | Execute(tag: nat, calls: seq<Call>, guard: Guard)
    | FlashExecute(tag: nat, tokens: seq<Address>, amounts: seq<nat>, calls: seq<Call>, guard: Guard)

  datatype Tx =
    | Own(nonce: nat, body: Execution)
    | Foreign(raw: seq<nat>)

  /** `Inventory::legs`: how many nonces of ours a bundle consumes. */
  function Legs(opp: Opportunity): nat
  {
    (if opp.frontCalls != [] then 1 else 0) + (if opp.backCalls != [] then 1 else 0)
  }

  function EncodeExecute(opp: Opportunity, calls: seq<Call>, front: bool, risk: RiskConfig): Execution
  {
    var singleLeg := opp.backCalls == [];
    var enforce := !front || singleLeg;
    var guard := Guard(opp.profitToken,
                       if enforce then risk.minNetProfit else 0,
                       if enforce then risk.bribeBps else 0,
                       opp.targetBlock,
                       risk.maxBaseFee,
                       if singleLeg then 0 else if front then 1 else 2);
    if enforce && opp.flashTokens != [] then
      FlashExecute(opp.id, opp.flashTokens, opp.flashAmounts, calls, guard)
    else
      Execute(opp.id, calls, guard)
  }

  // ------------------------------------------------------------------
  // Construction
  // ------------------------------------------------------------------

  function ForeignTxs(victims: seq<seq<nat>>): seq<Tx>
  {
    seq(|victims|, i requires 0 <= i < |victims| => Foreign(victims[i]))
  }

  /** Front leg, victims in their order, back leg, with consecutive nonces. */
  function Layout(opp: Opportunity, victims: seq<seq<nat>>, start: nat, risk: RiskConfig): seq<Tx>
  {
    FrontLeg(opp, start, risk) + ForeignTxs(victims) + BackLeg(opp, start, risk)
  }

  function FrontLeg(opp: Opportunity, start: nat, risk: RiskConfig): seq<Tx>
  {
    if opp.frontCalls == [] then [] else [Own(start, EncodeExecute(opp, opp.frontCalls, true, risk))]
  }

  function BackLeg(opp: Opportunity, start: nat, risk: RiskConfig): seq<Tx>
  {
    if opp.backCalls == [] then []
    else
      var nonce := if opp.frontCalls == [] then start else start + 1;
      [Own(nonce, EncodeExecute(opp, opp.backCalls, false, risk))]
  }

  /** Our transaction: what it executes, under which guard, in which phase (0 for a lone front, 1
      before the victims, 2 after them), and whether it settles the bundle. */
  predicate IsLeg(opp: Opportunity, risk: RiskConfig, tx: Tx, nonce: nat, calls: seq<Call>, phase: nat, settles: bool)
  {
    && tx.Own? && tx.nonce == nonce && tx.body.tag == opp.id && tx.body.calls == calls
    && tx.body.guard.profitToken == opp.profitToken && tx.body.guard.blockDeadline == opp.targetBlock
    && tx.body.guard.maxBaseFee == risk.maxBaseFee && tx.body.guard.phase == phase
    && tx.body.guard.minProfit == (if settles then risk.minNetProfit else 0)
    && tx.body.guard.bribeBps == (if settles then risk.bribeBps else 0)
    && (tx.body.FlashExecute? <==> settles && opp.flashTokens != [])
    && (tx.body.FlashExecute? ==> tx.body.tokens == opp.flashTokens && tx.body.amounts == opp.flashAmounts)
  }

  /** The whole bundle: the front calls first if there are any, the victims in order, the back calls
      last if there are any; the last of ours settles. */
  predicate IsBundle(opp: Opportunity, victims: seq<seq<nat>>, start: nat, risk: RiskConfig, txs: seq<Tx>)
  {
    var (front, back) := (|opp.frontCalls| > 0, |opp.backCalls| > 0);
    var head := if front then 1 else 0;
    && |txs| == head + |victims| + (if back then 1 else 0)
    && (forall i :: 0 <= i < |victims| ==> txs[head + i] == Foreign(victims[i]))
    && (front ==> IsLeg(opp, risk, txs[0], start, opp.frontCalls, if back then 1 else 0, !back))
    && (back ==> IsLeg(opp, risk, txs[head + |victims|], start + head, opp.backCalls, 2, true))
  }

  lemma EncodedLegsAre(opp: Opportunity, start: nat, nonce: nat, risk: RiskConfig)
    ensures IsLeg(opp, risk, Own(start, EncodeExecute(opp, opp.frontCalls, true, risk)), start, opp.frontCalls,
                  if |opp.backCalls| > 0 then 1 else 0, |opp.backCalls| == 0)
    ensures |opp.backCalls| > 0 ==>
              IsLeg(opp, risk, Own(nonce, EncodeExecute(opp, opp.backCalls, false, risk)), nonce, opp.backCalls, 2, true)
  {
  }

  lemma LayoutIsBundle(opp: Opportunity, victims: seq<seq<nat>>, start: nat, risk: RiskConfig)
    ensures IsBundle(opp, victims, start, risk, Layout(opp, victims, start, risk))
  {
    hide EncodeExecute, IsLeg, Layout;
    var head := if opp.frontCalls == [] then 0 else 1;
    EncodedLegsAre(opp, start, start + head, risk);
    LayoutPositions(opp, victims, start, risk);
  }

  method BuildBundle(opp: Opportunity, victimsRaw: seq<seq<nat>>, ctxNonce: nat, risk: RiskConfig)
    returns (txs: seq<Tx>)
    ensures txs == Layout(opp, victimsRaw, ctxNonce, risk)
    ensures IsBundle(opp, victimsRaw, ctxNonce, risk, txs)
  {
    hide IsBundle, EncodeExecute;
    LayoutIsBundle(opp, victimsRaw, ctxNonce, risk);
    txs := [];
    var nonce := ctxNonce;
    if opp.frontCalls != [] {
      txs := txs + [Own(nonce, EncodeExecute(opp, opp.frontCalls, true, risk))];
      nonce := nonce + 1;
    }
    ghost var front := txs;
    for i := 0 to |victimsRaw|
      invariant txs == front + ForeignTxs(victimsRaw[..i])
    {
      txs := txs + [Foreign(victimsRaw[i])];
      assert ForeignTxs(victimsRaw[..i + 1]) == ForeignTxs(victimsRaw[..i]) + [Foreign(victimsRaw[i])];
    }
    assert victimsRaw[..|victimsRaw|] == victimsRaw;
    if opp.backCalls != [] {
      txs := txs + [Own(nonce, EncodeExecute(opp, opp.backCalls, false, risk))];
    }
  }

  // ------------------------------------------------------------------
  // What a built bundle holds
  // ------------------------------------------------------------------

  function OwnNonce(tx: Tx): seq<nat>
  {
    if tx.Own? then [tx.nonce] else []
  }

  function OwnNonces(txs: seq<Tx>): seq<nat>
  {
    if txs == [] then [] else OwnNonce(txs[0]) + OwnNonces(txs[1..])
  }

  lemma {:induction false} OwnNoncesOfConcat(a: seq<Tx>, b: seq<Tx>)
    ensures OwnNonces(a + b) == OwnNonces(a) + OwnNonces(b)
  {
    if a == [] {
      assert a + b == b;
    } else {
      hide OwnNonce;
      assert (a + b)[1..] == a[1..] + b;
      calc {
        OwnNonces(a + b);
        OwnNonce(a[0]) + OwnNonces(a[1..] + b);
        { OwnNoncesOfConcat(a[1..], b); }
        OwnNonce(a[0]) + (OwnNonces(a[1..]) + OwnNonces(b));
        OwnNonces(a) + OwnNonces(b);
      }
    }
  }

  lemma {:induction false} ForeignTxsUseNoNonce(victims: seq<seq<nat>>)
    ensures OwnNonces(ForeignTxs(victims)) == []
  {
    if victims != [] {
      assert ForeignTxs(victims)[1..] == ForeignTxs(victims[1..]);
      ForeignTxsUseNoNonce(victims[1..]);
    }
  }

  /** A built bundle carries exactly the nonces `[start, start + legs)`, in order. */
  lemma BundleUsesExactlyItsReservation(opp: Opportunity, victims: seq<seq<nat>>, start: nat, risk: RiskConfig)
    ensures OwnNonces(Layout(opp, victims, start, risk)) == seq(Legs(opp), i => start + i)
  {
    var front, middle, back := FrontLeg(opp, start, risk), ForeignTxs(victims), BackLeg(opp, start, risk);
    LoneLegNonce(opp, start, risk);
    ForeignTxsUseNoNonce(victims);
    hide OwnNonces, FrontLeg, BackLeg, ForeignTxs;
    OwnNoncesOfConcat(front + middle, back);
    OwnNoncesOfConcat(front, middle);
    assert OwnNonces(front + middle) == OwnNonces(front);
  }

  lemma LoneLegNonce(opp: Opportunity, start: nat, risk: RiskConfig)
    ensures OwnNonces(FrontLeg(opp, start, risk)) == if opp.frontCalls == [] then [] else [start]
    ensures OwnNonces(BackLeg(opp, start, risk))
         == if opp.backCalls == [] then [] else if opp.frontCalls == [] then [start] else [start + 1]
  {
  }

  /** The leg that carries the profit floor, the bribe and the flash funding. */
  predicate Settles(opp: Opportunity, risk: RiskConfig, body: Execution)
  {
    && body.guard.minProfit == risk.minNetProfit
    && body.guard.bribeBps == risk.bribeBps
    && (body.FlashExecute? <==> opp.flashTokens != [])
    && (body.FlashExecute? ==> body.tokens == opp.flashTokens && body.amounts == opp.flashAmounts)
  }

  /** A leg that promises nothing: it may end the transaction poorer. */
  predicate PromisesNothing(body: Execution)
  {
    body.guard.minProfit == 0 && body.guard.bribeBps == 0 && body.Execute?
  }

  /** With two legs the front promises nothing and the back settles; a lone leg settles. */
  lemma EncodedLegs(opp: Opportunity, risk: RiskConfig)
    ensures var front := EncodeExecute(opp, opp.frontCalls, true, risk);
      && front.guard.blockDeadline == opp.targetBlock
      && (if opp.backCalls == [] then Settles(opp, risk, front) else PromisesNothing(front))
    ensures var back := EncodeExecute(opp, opp.backCalls, false, risk);
      back.guard.blockDeadline == opp.targetBlock && Settles(opp, risk, back)
  {
  }

  /** What our transaction with nonce `tx.nonce` carries in a bundle built at `start`. */
  predicate CarriesItsDuty(opp: Opportunity, start: nat, risk: RiskConfig, tx: Tx)
    requires tx.Own?
  {
    && tx.body.guard.blockDeadline == opp.targetBlock
    && (if tx.nonce == start + Legs(opp) - 1 then Settles(opp, risk, tx.body) else PromisesNothing(tx.body))
  }

  /** Where each transaction of a bundle comes from. */
  lemma LayoutPositions(opp: Opportunity, victims: seq<seq<nat>>, start: nat, risk: RiskConfig)
    ensures var txs := Layout(opp, victims, start, risk);
      var front, back := FrontLeg(opp, start, risk), BackLeg(opp, start, risk);
      && |txs| == |front| + |victims| + |back|
      && (forall i :: 0 <= i < |victims| ==> txs[|front| + i] == Foreign(victims[i]))
      && (forall i :: 0 <= i < |txs| ==>
            if i < |front| then txs[i] == front[i]
            else if i < |front| + |victims| then txs[i].Foreign?
            else txs[i] == back[i - |front| - |victims|])
  {
    hide FrontLeg, BackLeg;
    var txs := Layout(opp, victims, start, risk);
    var front, middle := FrontLeg(opp, start, risk), ForeignTxs(victims);
    forall i | 0 <= i < |victims|
      ensures txs[|front| + i] == Foreign(victims[i])
    {
      assert txs[|front| + i] == middle[i];
    }
  }

  /** All victims, in their order, stand between our legs; our last leg settles and every other
      leg of ours promises nothing. */
  lemma LastLegSettles(opp: Opportunity, victims: seq<seq<nat>>, start: nat, risk: RiskConfig)
    ensures var txs := Layout(opp, victims, start, risk);
      var head := if opp.frontCalls != [] then 1 else 0;
      && |txs| == |victims| + Legs(opp)
      && (forall i :: 0 <= i < |victims| ==> txs[head + i] == Foreign(victims[i]))
      && (forall i :: 0 <= i < |txs| && txs[i].Own? ==>
            (i < head || i == |txs| - 1) && CarriesItsDuty(opp, start, risk, txs[i]))
  {
    hide EncodeExecute, Settles, PromisesNothing, Layout;
    EncodedLegs(opp, risk);
    LayoutPositions(opp, victims, start, risk);
  }
}
