/** The WETH ledger of `attribution.rs`: what an entity gained over a receipt's logs, in
    saturating 128-bit arithmetic. */
module Attribution {
  import opened Chain
  import opened Wrappers

  const I128_MAX: int := 0x7FFF_FFFF_FFFF_FFFF_FFFF_FFFF_FFFF_FFFF
  const I128_MIN: int := -0x8000_0000_0000_0000_0000_0000_0000_0000

  datatype Kind = Transfer | Deposit | Withdrawal | Other

  /** A log as far as it is read: the emitter, the event its first topic names, the addresses in
      its next two topics, and its data as an unsigned word. `None` is missing or malformed. */
  datatype Log = Log(emitter: Option<Address>, kind: Option<Kind>, first: Option<Address>, second: Option<Address>, word: nat)

  /** A receipt without a list of logs moves nothing. */
  type Receipt = Option<seq<Log>>

  // ------------------------------------------------------------------
  // Saturating arithmetic
  // ------------------------------------------------------------------

  function Saturate(n: int): int
  {
    if n > I128_MAX then I128_MAX else if n < I128_MIN then I128_MIN else n
  }

  function ToI128(v: nat): int
  {
    if v > I128_MAX then I128_MAX else v
  }

  // ------------------------------------------------------------------
  // The exact ledger
  // ------------------------------------------------------------------

  predicate Ours(address: Option<Address>, entity: set<Address>)
  {
    address.Some? && address.value in entity
  }

  /** What one log is worth to the entity. */
  function Effect(log: Log, weth: Address, entity: set<Address>): int
  {
    if log.emitter != Some(weth) then 0
    else
      var amount := ToI128(log.word);
      match log.kind
      case Some(Transfer) =>
        (if Ours(log.second, entity) then amount else 0) - (if Ours(log.first, entity) then amount else 0)
      case Some(Deposit) => if Ours(log.first, entity) then amount else 0
      case Some(Withdrawal) => if Ours(log.first, entity) then -amount else 0
      case _ => 0
  }

  function Ledger(logs: seq<Log>, weth: Address, entity: set<Address>): int
    decreases |logs|
  {
    if logs == [] then 0 else Ledger(logs[..|logs| - 1], weth, entity) + Effect(logs[|logs| - 1], weth, entity)
  }

  predicate Moves(log: Log, weth: Address)
  {
    log.emitter == Some(weth) && log.kind.Some? && !log.kind.value.Other?
  }

  /** All the WETH the logs move, whoever it belongs to. */
  function Volume(logs: seq<Log>, weth: Address): nat
    decreases |logs|
  {
    if logs == [] then 0
    else
      var last := logs[|logs| - 1];
      Volume(logs[..|logs| - 1], weth) + if Moves(last, weth) then ToI128(last.word) else 0
  }

  // ------------------------------------------------------------------
  // The computed delta
  // ------------------------------------------------------------------

  function SaturatingLedger(logs: seq<Log>, weth: Address, entity: set<Address>): (r: int)
    ensures I128_MIN <= r <= I128_MAX
    decreases |logs|
  {
    if logs == [] then 0
    else Saturate(SaturatingLedger(logs[..|logs| - 1], weth, entity) + Effect(logs[|logs| - 1], weth, entity))
  }

  /** `weth_delta`. */
  method WethDelta(receipt: Receipt, weth: Address, entity: set<Address>) returns (delta: int)
    ensures receipt.None? ==> delta == 0
    ensures receipt.Some? ==> delta == SaturatingLedger(receipt.value, weth, entity)
    ensures receipt.Some? && Volume(receipt.value, weth) <= I128_MAX ==> delta == Ledger(receipt.value, weth, entity)
    ensures receipt.Some? && Turnover(receipt.value, weth) < 0x8000_0000_0000_0000_0000_0000_0000_0000 ==>
              delta == Received(receipt.value, weth, entity) - Paid(receipt.value, weth, entity)
  {
    delta := 0;
    if receipt.None? { return; }
    var logs := receipt.value;
    for i := 0 to |logs|
      invariant delta == SaturatingLedger(logs[..i], weth, entity)
    {
      assert logs[..i + 1][..i] == logs[..i];
      var log := logs[i];
      if log.emitter != Some(weth) || log.kind.None? { continue; }
      var amount := ToI128(log.word);
      match log.kind.value {
        case Transfer =>
          var fromUs, toUs := Ours(log.first, entity), Ours(log.second, entity);
          if fromUs && !toUs {
            delta := Saturate(delta - amount);
          } else if toUs && !fromUs {
            delta := Saturate(delta + amount);
          }
        case Deposit =>
          if Ours(log.first, entity) { delta := Saturate(delta + amount); }
        case Withdrawal =>
          if Ours(log.first, entity) { delta := Saturate(delta - amount); }
        case Other =>
      }
    }
    assert logs[..|logs|] == logs;
    if Volume(logs, weth) <= I128_MAX {
      WithinVolume(logs, weth, entity);
    }
    if Turnover(logs, weth) < 0x8000_0000_0000_0000_0000_0000_0000_0000 {
      SmallTurnover(logs, weth);
      LedgerIsReceivedLessPaid(logs, weth, entity);
    }
  }

  // ------------------------------------------------------------------
  // Received and paid
  // ------------------------------------------------------------------

  /** WETH the entity is sent or wraps, log by log: what it sends itself is neither. */
  function Received(logs: seq<Log>, weth: Address, entity: set<Address>): nat
    decreases |logs|
  {
    if logs == [] then 0
    else
      var l := logs[|logs| - 1];
      var rest := Received(logs[..|logs| - 1], weth, entity);
      var (from, to) := (exists a :: a in entity && l.first == Some(a), exists a :: a in entity && l.second == Some(a));
      if l.emitter == Some(weth) && ((l.kind == Some(Transfer) && to && !from) || (l.kind == Some(Deposit) && from))
      then rest + l.word else rest
  }

  /** WETH the entity sends on or unwraps. */
  function Paid(logs: seq<Log>, weth: Address, entity: set<Address>): nat
    decreases |logs|
  {
    if logs == [] then 0
    else
      var l := logs[|logs| - 1];
      var rest := Paid(logs[..|logs| - 1], weth, entity);
      var (from, to) := (exists a :: a in entity && l.first == Some(a), exists a :: a in entity && l.second == Some(a));
      if l.emitter == Some(weth) && ((l.kind == Some(Transfer) && from && !to) || (l.kind == Some(Withdrawal) && from))
      then rest + l.word else rest
  }

  /** While every amount is below 2^127 the ledger is what was received less what was paid. */
  lemma {:induction false} LedgerIsReceivedLessPaid(logs: seq<Log>, weth: Address, entity: set<Address>)
    requires forall l :: l in logs && l.emitter == Some(weth) ==> l.word < 0x8000_0000_0000_0000_0000_0000_0000_0000
    ensures Ledger(logs, weth, entity) == Received(logs, weth, entity) - Paid(logs, weth, entity)
    decreases |logs|
  {
    if logs != [] {
      var l := logs[|logs| - 1];
      assert l in logs;
      LedgerIsReceivedLessPaid(logs[..|logs| - 1], weth, entity);
      assert Ours(l.first, entity) <==> exists a :: a in entity && l.first == Some(a);
      assert Ours(l.second, entity) <==> exists a :: a in entity && l.second == Some(a);
    }
  }

  /** Every amount the WETH contract logged, whatever for. */
  function Turnover(logs: seq<Log>, weth: Address): nat
    decreases |logs|
  {
    if logs == [] then 0
    else
      var l := logs[|logs| - 1];
      Turnover(logs[..|logs| - 1], weth) + if l.emitter == Some(weth) then l.word else 0
  }

  lemma {:induction false} SmallTurnover(logs: seq<Log>, weth: Address)
    ensures forall l :: l in logs && l.emitter == Some(weth) ==> l.word <= Turnover(logs, weth)
    ensures Volume(logs, weth) <= Turnover(logs, weth)
    decreases |logs|
  {
    if logs != [] {
      var init, last := logs[..|logs| - 1], logs[|logs| - 1];
      SmallTurnover(init, weth);
      assert forall l :: l in logs <==> l in init || l == last;
    }
  }

  /** A larger amount counts as 2^127 - 1. */
  lemma LargeAmountsAreCapped(l: Log, weth: Address, entity: set<Address>)
    requires 0x8000_0000_0000_0000_0000_0000_0000_0000 <= l.word
    ensures Effect(l, weth, entity)
         == Effect(l.(word := 0x7FFF_FFFF_FFFF_FFFF_FFFF_FFFF_FFFF_FFFF), weth, entity)
  {
  }

  /** The receipts of one candidate together. */
  function CandidateDelta(receipts: seq<Receipt>, weth: Address, entity: set<Address>): int
    decreases |receipts|
  {
    if receipts == [] then 0
    else
      var last := receipts[|receipts| - 1];
      Saturate(CandidateDelta(receipts[..|receipts| - 1], weth, entity)
               + if last.None? then 0 else SaturatingLedger(last.value, weth, entity))
  }

  // ------------------------------------------------------------------
  // When nothing saturates
  // ------------------------------------------------------------------

  /** Up to 2^127 - 1 wei in all, no partial sum can saturate and the delta is exact. */
  lemma {:induction false} WithinVolume(logs: seq<Log>, weth: Address, entity: set<Address>)
    requires Volume(logs, weth) <= I128_MAX
    ensures SaturatingLedger(logs, weth, entity) == Ledger(logs, weth, entity)
    ensures -(Volume(logs, weth) as int) <= Ledger(logs, weth, entity) <= Volume(logs, weth)
    decreases |logs|
  {
    if logs != [] {
      WithinVolume(logs[..|logs| - 1], weth, entity);
    }
  }

  predicate InRange(logs: seq<Log>, weth: Address, entity: set<Address>)
  {
    I128_MIN <= Ledger(logs, weth, entity) <= I128_MAX
  }

  predicate Exact(logs: seq<Log>, weth: Address, entity: set<Address>)
  {
    SaturatingLedger(logs, weth, entity) == Ledger(logs, weth, entity)
  }

  lemma {:induction false} ExactWithinRange(logs: seq<Log>, weth: Address, entity: set<Address>)
    requires forall k :: 0 <= k <= |logs| ==> InRange(logs[..k], weth, entity)
    ensures Exact(logs, weth, entity)
    decreases |logs|
  {
    var n := |logs|;
    assert InRange(logs[..n], weth, entity) && logs[..n] == logs;
    if n != 0 {
      var init := logs[..n - 1];
      forall k | 0 <= k <= |init|
        ensures InRange(init[..k], weth, entity)
      {
        assert InRange(logs[..k], weth, entity) && init[..k] == logs[..k];
      }
      ExactWithinRange(init, weth, entity);
    }
  }

  /** Reading the logs one after the other, the report stays exact all the way exactly when the
      exact ledger never leaves the 128-bit range. */
  lemma ExactAllTheWayExactlyWhen(logs: seq<Log>, weth: Address, entity: set<Address>)
    ensures (forall k :: 0 <= k <= |logs| ==> Exact(logs[..k], weth, entity))
       <==> (forall k :: 0 <= k <= |logs| ==> InRange(logs[..k], weth, entity))
  {
    if forall k :: 0 <= k <= |logs| ==> InRange(logs[..k], weth, entity) {
      forall k | 0 <= k <= |logs|
        ensures Exact(logs[..k], weth, entity)
      {
        assert forall j :: 0 <= j <= k ==> logs[..k][..j] == logs[..j];
        ExactWithinRange(logs[..k], weth, entity);
      }
    } else {
      var k :| 0 <= k <= |logs| && !InRange(logs[..k], weth, entity);
      assert !Exact(logs[..k], weth, entity);
    }
  }

  /** Past the range the order of the logs starts to matter: here one wei is lost. Amounts of this
      size exceed any supply of WETH; no receipt of the chain holds them. */
  lemma SaturationLosesAWei(weth: Address, us: Address, other: Address) returns (logs: seq<Log>)
    requires us != other
    ensures SaturatingLedger(logs, weth, {us}) == 0 && Ledger(logs, weth, {us}) == 1
  {
    var all := Log(Some(weth), Some(Transfer), Some(other), Some(us), I128_MAX);
    var one := all.(word := 1);
    var back := Log(Some(weth), Some(Transfer), Some(us), Some(other), I128_MAX);
    logs := [all, one, back];
    assert logs[..2] == [all, one] && [all, one][..1] == [all] && [all][..0] == [];
    assert Ledger([all], weth, {us}) == I128_MAX;
    assert Ledger([all, one], weth, {us}) == I128_MAX + 1;
    assert SaturatingLedger([all], weth, {us}) == I128_MAX;
    assert SaturatingLedger([all, one], weth, {us}) == I128_MAX;
  }

  // ------------------------------------------------------------------
  // Additivity
  // ------------------------------------------------------------------

  /** Over disjoint sets of addresses the ledger adds up: a transfer from one to the other is
      counted out of the first, into the second, and not at all for both together. */
  lemma {:induction false} LedgerIsAdditive(logs: seq<Log>, weth: Address, a: set<Address>, b: set<Address>)
    requires a !! b
    ensures Ledger(logs, weth, a + b) == Ledger(logs, weth, a) + Ledger(logs, weth, b)
    decreases |logs|
  {
    if logs != [] {
      LedgerIsAdditive(logs[..|logs| - 1], weth, a, b);
    }
  }

  /** What `weth_delta` reports for the union is the sum of its reports. */
  lemma DeltaIsAdditive(logs: seq<Log>, weth: Address, a: set<Address>, b: set<Address>)
    requires a !! b && Volume(logs, weth) <= I128_MAX
    ensures SaturatingLedger(logs, weth, a + b) == SaturatingLedger(logs, weth, a) + SaturatingLedger(logs, weth, b)
  {
    LedgerIsAdditive(logs, weth, a, b);
    WithinVolume(logs, weth, a);
    WithinVolume(logs, weth, b);
    WithinVolume(logs, weth, a + b);
  }

  function Mentioned(logs: seq<Log>): set<Address>
    decreases |logs|
  {
    if logs == [] then {}
    else
      var last := logs[|logs| - 1];
      Mentioned(logs[..|logs| - 1])
      + (if last.first.Some? then {last.first.value} else {}) + (if last.second.Some? then {last.second.value} else {})
  }

  /** Deposits less withdrawals; transfers with only one readable end count on that end. */
  function Minted(log: Log, weth: Address): int
  {
    if log.emitter != Some(weth) then 0
    else
      match log.kind
      case Some(Transfer) =>
        (if log.second.Some? then ToI128(log.word) else 0) - (if log.first.Some? then ToI128(log.word) else 0)
      case Some(Deposit) => if log.first.Some? then ToI128(log.word) else 0
      case Some(Withdrawal) => if log.first.Some? then -ToI128(log.word) else 0
      case _ => 0
  }

  function TotalMinted(logs: seq<Log>, weth: Address): int
    decreases |logs|
  {
    if logs == [] then 0 else TotalMinted(logs[..|logs| - 1], weth) + Minted(logs[|logs| - 1], weth)
  }

  /** Taken over everyone mentioned, transfers cancel: only wrapping and unwrapping is left. */
  lemma {:induction false} EveryoneTogetherGainsWhatIsMinted(logs: seq<Log>, weth: Address, all: set<Address>)
    requires Mentioned(logs) <= all
    ensures Ledger(logs, weth, all) == TotalMinted(logs, weth)
    decreases |logs|
  {
    if logs != [] {
      EveryoneTogetherGainsWhatIsMinted(logs[..|logs| - 1], weth, all);
    }
  }

  // ------------------------------------------------------------------
  // Receipts
  // ------------------------------------------------------------------

  function AllLogs(receipts: seq<Receipt>): seq<Log>
    decreases |receipts|
  {
    if receipts == [] then []
    else
      var last := receipts[|receipts| - 1];
      AllLogs(receipts[..|receipts| - 1]) + if last.None? then [] else last.value
  }

  lemma {:induction false} LedgerOfConcat(a: seq<Log>, b: seq<Log>, weth: Address, entity: set<Address>)
    ensures Ledger(a + b, weth, entity) == Ledger(a, weth, entity) + Ledger(b, weth, entity)
    ensures Volume(a + b, weth) == Volume(a, weth) + Volume(b, weth)
    decreases |b|
  {
    if b == [] {
      assert a + b == a;
    } else {
      assert (a + b)[..|a + b| - 1] == a + b[..|b| - 1];
      LedgerOfConcat(a, b[..|b| - 1], weth, entity);
    }
  }

  /** Summing receipt by receipt is the ledger over all their logs. */
  lemma {:induction false} ReceiptsAreOneLedger(receipts: seq<Receipt>, weth: Address, entity: set<Address>)
    requires Volume(AllLogs(receipts), weth) <= I128_MAX
    ensures CandidateDelta(receipts, weth, entity) == Ledger(AllLogs(receipts), weth, entity)
         == SaturatingLedger(AllLogs(receipts), weth, entity)
    decreases |receipts|
  {
    WithinVolume(AllLogs(receipts), weth, entity);
    if receipts != [] {
      var init, last := receipts[..|receipts| - 1], receipts[|receipts| - 1];
      var logs := if last.None? then [] else last.value;
      LedgerOfConcat(AllLogs(init), logs, weth, entity);
      ReceiptsAreOneLedger(init, weth, entity);
      WithinVolume(logs, weth, entity);
    }
  }
}
