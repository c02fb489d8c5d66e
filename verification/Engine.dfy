/** The engine's live lane as the object it is: a counter, a mode switch and a durable table that
    its methods change in place. Every change is logged as an event of the lane machine, so that
    what holds over every run of the machine holds of every engine. */
module Engines {
  import opened Bundles
  import opened Chain
  import opened Inventories
  import opened LaneMachine
  import opened LaneSafety
  import opened LaneClaims
  import opened LaneSettles
  import opened Stores
  import opened Wrappers

  /** What the world answers during one submission. `qualified(i)` is the i-th look at the
      strategy's qualification, `noise(i)` what other tasks do at the i-th await. */
  datatype Answers = Answers(
    qualified: nat -> bool, countersReadable: bool,
    rawTransportable: bool, pinAtEntry: bool,
    pendingNonce: Option<nat>, ethBalance: Option<nat>, wethBalance: Option<nat>,
    rebuilt: Option<(BundleId, nat)>, riskOk: bool,
    rowWritten: bool, pinAtSend: bool, gasAtRisk: Option<nat>, smokeDatabase: bool,
    statusWritten: bool, accepted: bool, cancelAcked: bool,
    noise: nat -> seq<Event>)

  ghost predicate Quietly(noise: nat -> seq<Event>)
  {
    forall i: nat :: AllOffLane(noise(i))
  }

  ghost predicate Calmly(noise: nat -> seq<Event>, limit: nat)
  {
    forall i: nat :: CalmNoise(noise(i), limit)
  }

  /** The store and the chain are as the last process's history left them. */
  ghost predicate LeftBehind(store: Store, head: nat, past: seq<Event>)
    reads store
  {
    var s := Run(Genesis(), past);
    && s.phase.Down? && s.head == head
    && s.table == store.table && s.smokeUsed == store.smokeUsed && s.smokeGas == store.smokeGas
  }

  /** What the boot loop writes of a row. */
  function BootStatus(row: Reservation, head: nat, acked: bool): Status
  {
    if row.target < head then Expired else if acked then Cancelled else RecoveryBlocked
  }

  lemma SameTargetSameStatus(a: Reservation, b: Reservation, head: nat, acked: bool)
    requires a.target == b.target
    ensures BootStatus(a, head, acked) == BootStatus(b, head, acked)
  {
  }

  /** The table once the boot loop has worked off `queue`. */
  function BootTable(table: Table, queue: seq<BundleId>, head: nat, acks: BundleId -> bool, wrote: BundleId -> bool): (t: Table)
    requires forall id :: id in queue ==> id in table
    ensures t.Keys == table.Keys
    decreases |queue|
  {
    if queue == [] then table
    else
      var id := queue[|queue| - 1];
      var t := BootTable(table, queue[..|queue| - 1], head, acks, wrote);
      LaneMachine.SetStatus(t, id, BootStatus(table[id], head, acks(id)), wrote(id))
  }

  /** Each row read reads what the loop wrote; every other is as it was. */
  lemma {:induction false} BootTableAt(table: Table, queue: seq<BundleId>, head: nat, acks: BundleId -> bool,
                                       wrote: BundleId -> bool)
    requires forall id :: id in queue ==> id in table
    ensures var t := BootTable(table, queue, head, acks, wrote);
      forall id :: id in table ==>
        t[id] == if id in queue && wrote(id) then table[id].(status := BootStatus(table[id], head, acks(id))) else table[id]
    decreases |queue|
  {
    if queue != [] {
      var init, last := queue[..|queue| - 1], queue[|queue| - 1];
      assert forall id :: id in queue <==> id in init || id == last;
      BootTableAt(table, init, head, acks, wrote);
      hide BootStatus;
    }
  }

  /** What a boot leaves of the table: every row read, and written, is expired, cancelled or blocked,
      as its target and the relays had it; every other is as it was. */
  ghost predicate RowsRecovered(before: Table, after: Table, rows: seq<BundleId>, head: nat, acks: BundleId -> bool,
                                wrote: BundleId -> bool)
  {
    && after.Keys == before.Keys && (forall id :: id in rows ==> id in before)
    && (forall id :: id in rows && wrote(id) ==>
          after[id].status == if before[id].target < head then Expired else if acks(id) then Cancelled else RecoveryBlocked)
    && (forall id :: id in before && (id !in rows || !wrote(id)) ==> after[id] == before[id])
  }

  lemma RowsBooted(table: Table, queue: seq<BundleId>, head: nat, acks: BundleId -> bool, wrote: BundleId -> bool)
    requires Lists(table, queue)
    ensures forall id :: id in queue ==> id in table
    ensures RowsRecovered(table, BootTable(table, queue, head, acks, wrote), queue, head, acks, wrote)
  {
    BootTableAt(table, queue, head, acks, wrote);
  }

  /** What a sweep leaves of the reservation `id`: acknowledged, or blocking through its target. */
  predicate SweptUp(s: State, id: BundleId, acked: bool, wrote: bool)
  {
    && id in s.table && (if acked then id in s.dead else s.table[id].target <= s.blockedUntil)
    && (wrote ==> s.table[id].status == Reconciled || s.table[id].status == if acked then Cancelled else RecoveryBlocked)
  }

  /** A sweep sends nothing, forgets no row and only raises the block. */
  predicate SweptOver(s: State, t: State)
  {
    && t.sent == s.sent && t.runtime == s.runtime && t.table.Keys == s.table.Keys
    && s.dead <= t.dead && s.blockedUntil <= t.blockedUntil
    && (forall id :: id in s.table ==> t.table[id] == s.table[id].(status := t.table[id].status))
  }

  /** One turn: every row but `id` keeps its status, or is retired by another task. */
  predicate SweptOn(s: State, t: State, id: BundleId)
  {
    && SweptOver(s, t)
    && (forall k :: k in s.table && k != id ==> t.table[k].status == s.table[k].status || t.table[k].status == Reconciled)
  }

  /** The job after simulating again at the reserved nonce. */
  function Rebuilt(job: Job, start: nat, rebuilt: Option<(BundleId, nat)>): Option<Job>
  {
    if rebuilt.None? then None else Some(Job(job.opp, Bundle(rebuilt.value.0, start, rebuilt.value.1)))
  }

  predicate SameSends(s: State, t: State)
  {
    && t.sent == s.sent && t.dead == s.dead && t.table.Keys == s.table.Keys
    && t.unqualifiedSends == s.unqualifiedSends && t.unqualifiedGas == s.unqualifiedGas
  }

  /** A sum that stops at `limit`. */
  function SumTo(a: nat, b: nat, limit: nat): nat
  {
    if a + b <= limit then a + b else limit
  }

  /** The gas an unqualified send puts at risk: none is counted outside raw mode. */
  function Exposure(raw: bool, gas: Option<nat>): nat
  {
    if raw && gas.Some? then gas.value else 0
  }

  /** The state a range was reserved in, whether no refresh goes past it, and whether status writes
      succeed. */
  datatype Ledger = Ledger(base: State, calm: bool, written: bool)

  ghost predicate Tracks(g: Ledger, s: State)
  {
    Stage(g.base, g.calm, g.written, s)
  }

  ghost predicate Agrees(g: Ledger, a: Answers)
  {
    Quietly(a.noise) && g.written == a.statusWritten && (g.calm ==> Calmly(a.noise, RangeEnd(g.base)))
  }

  lemma TracksNoise(g: Ledger, a: Answers, i: nat, s: State)
    requires Tracks(g, s) && Agrees(g, a) && LaneHeld(s) && !s.phase.lane.Admitted?
    ensures Tracks(g, Run(s, a.noise(i))) && SameSends(s, Run(s, a.noise(i)))
    ensures Run(s, a.noise(i)).phase == s.phase && Run(s, a.noise(i)).runtime == s.runtime
    ensures Run(s, a.noise(i)).smokeUsed == s.smokeUsed && Run(s, a.noise(i)).smokeGas == s.smokeGas
  {
    NoiseIsQuiet(s, a.noise(i));
    NoiseKeepsStage(g.base, g.calm, g.written, s, a.noise(i));
  }

  lemma QuietAt(g: Ledger, a: Answers, i: nat)
    requires Agrees(g, a)
    ensures AllOffLane(a.noise(i))
  {
  }

  lemma StartTracking(g: Ledger, a: Answers, s: State)
    requires Stage(g.base, g.calm, g.written, s) && Quietly(a.noise)
    requires g == Ledger(g.base, Calmly(a.noise, RangeEnd(g.base)), a.statusWritten)
    ensures Tracks(g, s) && Agrees(g, a)
  {
  }

  lemma FreeIsSettled(g: Ledger, s: State)
    requires Tracks(g, s) && s.phase == Up(Free)
    ensures Settled(g.base, g.calm, g.written, s)
  {
  }

  lemma WrittenAgrees(g: Ledger, a: Answers)
    requires Agrees(g, a)
    ensures g.written == a.statusWritten
  {
  }

  lemma ResimulateSends(s: State, e: Event)
    requires s.phase.Up? && s.phase.lane.Holding? && e.Resimulate?
    ensures SameSends(s, Step(s, e))
  {
  }

  lemma TracksStep(g: Ledger, s: State, e: Event)
    requires Tracks(g, s) && LaneHeld(s) && !s.phase.lane.Admitted?
    requires OfSubmission(e) && Orderly(e, false, g.written, 0)
    ensures Tracks(g, Step(s, e))
  {
    StepStage(g.base, g.calm, g.written, s, e);
  }

  /** The events of a submission. */
  predicate OfSubmission(e: Event)
  {
    e.Enter? || e.Gate? || e.Reserve? || e.Resimulate? || e.Recheck? || e.Persist? || e.PinCheck? || e.Budget?
    || e.Send? || e.Answer? || e.CancelAnswer?
  }

  lemma NoNoise(s: State)
    ensures Run(s, []) == s
  {
  }

  lemma OneTask(s: State, e: Event)
    requires e.OffLane()
    ensures SameSends(s, Step(s, e)) && Step(s, e).runtime == s.runtime
  {
  }

  lemma SweptStays(s: State, t: State, id: BundleId, other: BundleId, acked: bool, wrote: bool)
    requires SweptOn(s, t, id) && SweptUp(s, other, acked, wrote) && id != other
    ensures SweptUp(t, other, acked, wrote)
  {
  }

  lemma LeavingKeepsSwept(s: State, id: BundleId, acked: bool, wrote: bool)
    requires SweptUp(s, id, acked, wrote)
    ensures SweptUp(s.(phase := Up(Free)), id, acked, wrote)
  {
  }

  lemma SweepOrder(table: Table, listed: seq<BundleId>)
    requires Lists(table, listed)
    ensures var queue := NewestFirst(table, listed);
      && (forall i, j :: 0 <= i < j < |queue| ==> queue[i] != queue[j])
      && (forall i :: 0 <= i < |queue| ==> queue[i] in table)
      && (forall id :: id in listed ==> id in queue)
  {
    NewestFirstLists(table, listed);
    NewestFirstSorts(table, listed);
  }

  lemma ListedRows(table: Table, rows: seq<BundleId>)
    requires Lists(table, rows)
    ensures forall id :: id in rows ==> id in table
    ensures forall i, j :: 0 <= i < j < |rows| ==> rows[i] != rows[j]
  {
  }

  /** What a list leaves out does not depend on its order. */
  lemma SortedLeavesOutTheSame(s: State, rows: seq<BundleId>)
    requires Lists(s.table, rows)
    ensures LeavesOutNoDanger(s, NewestFirst(s.table, rows)) <==> LeavesOutNoDanger(s, rows)
  {
    ListedRows(s.table, rows);
    NewestFirstSorts(s.table, rows);
    var r := NewestFirst(s.table, rows);
    hide NewestFirst;
    forall height: nat
      ensures HoldsAt(s.table, r, height) <==> HoldsAt(s.table, rows, height)
    {
    }
    assert forall id :: id in s.sent ==> (Sheltered(s, r, id) <==> Sheltered(s, rows, id));
  }

  lemma BootExtends(past: seq<Event>, boot: Event)
    requires Run(Genesis(), past).phase.Down? && boot.Boot? && Lists(Run(Genesis(), past).table, boot.rows)
    ensures ReadsSuffice(Genesis(), past) && ListsLive(Run(Genesis(), past), boot.rows) ==>
              ReadsSuffice(Genesis(), past + [boot])
    ensures Run(Genesis(), past + [boot])
         == Run(Genesis(), past).(phase := Booting(boot.rows), nonce := boot.chainNonce, blockedUntil := 0,
                                  cfg := boot.cfg, runtime := boot.cfg.armed)
  {
    RunSnoc(Genesis(), past, boot);
    assert (past + [boot])[..|past + [boot]| - 1] == past;
    hide Run, Genesis;
  }

  class Engine {
    const inventory: Inventory
    const store: Store
    const cfg: Config
    /** Whether an executor is configured: without one no WETH is counted. */
    const executor: bool
    var runtime: bool
    var head: nat
    ghost var phase: Phase
    ghost var sent: map<BundleId, Job>
    ghost var dead: set<BundleId>
    ghost var unqualifiedSends: nat
    ghost var unqualifiedGas: nat
    ghost var history: seq<Event>
    /** Every read of the reservations so far, in this process and before, returned enough. */
    ghost var readEnough: bool

    ghost function View(): State
      reads this, inventory, store
    {
      State(phase, inventory.nonce, inventory.blockedUntil, cfg, runtime, store.table, store.smokeUsed, store.smokeGas,
            head, sent, dead, unqualifiedSends, unqualifiedGas)
    }

    /** The engine is where its history took it. */
    ghost predicate Valid()
      reads this, inventory, store
    {
      View() == Run(Genesis(), history) && (readEnough ==> ReadsSuffice(Genesis(), history))
    }

    /** So no two bundles that can still be mined share a nonce, at any time. */
    lemma ValidIsSafe()
      requires Valid()
      ensures readEnough ==> NoSharedNonce(View())
      ensures ModeInv(View())
    {
      if readEnough {
        NoncesAreNeverShared(history);
      }
      RunKeepsMode(history);
    }

    ghost method Log(before: State, e: Event)
      requires before == Run(Genesis(), history) && (readEnough ==> ReadsSuffice(Genesis(), history))
      requires View() == Step(before, e) && !e.Boot? && !StartsSweep(e)
      modifies `history
      ensures Valid() && history == old(history) + [e]
    {
      RunSnoc(Genesis(), history, e);
      assert (history + [e])[..|history + [e]| - 1] == history;
      history := history + [e];
    }

    /** The start of a sweep, with what it read. */
    ghost method LogSweep(before: State, e: Event)
      requires before == Run(Genesis(), history) && (readEnough ==> ReadsSuffice(Genesis(), history))
      requires View() == Step(before, e) && StartsSweep(e)
      modifies `history, `readEnough
      ensures Valid() && readEnough == (old(readEnough) && LeavesOutNoDanger(before, e.rows))
    {
      RunSnoc(Genesis(), history, e);
      assert (history + [e])[..|history + [e]| - 1] == history;
      readEnough := readEnough && LeavesOutNoDanger(before, e.rows);
      history := history + [e];
    }

    /** `Engine::new` on the store an earlier process left behind: the counter comes from the chain
        (or stays 0 when the refresh fails) and every active reservation that could be read is
        recovered before the lane opens. `acks` and `wrote` are the relays' and the database's answers per bundle. */
    constructor (store: Store, cfg: Config, gate: bool, executor: bool, head: nat, pending: Option<nat>,
                 ethBalance: Option<nat>, wethBalance: Option<nat>, rows: seq<BundleId>,
                 acks: BundleId -> bool, wrote: BundleId -> bool, ghost past: seq<Event>)
      requires LeftBehind(store, head, past)
      requires Lists(store.table, rows)
      modifies store
      ensures Valid() && phase == Up(Free) && fresh(inventory) && this.store == store && this.cfg == cfg
      ensures readEnough == (ReadsSuffice(Genesis(), past) && ListsLive(Run(Genesis(), past), rows))
      ensures runtime == cfg.armed && this.head == head && sent == Run(Genesis(), past).sent
      ensures inventory.nonce == (if pending.Some? then pending.value else 0) && this.executor == executor
      ensures inventory.eth == (if ethBalance.Some? then ethBalance.value else 0)
      ensures inventory.weth == (if executor && wethBalance.Some? then wethBalance.value else 0)
      ensures inventory.gate == gate
      ensures forall id :: id in rows ==>
                old(store.table)[id].target < head || (acks(id) && id in dead)
                || old(store.table)[id].target <= inventory.blockedUntil
      ensures RowsRecovered(old(store.table), store.table, rows, head, acks, wrote)
      ensures inventory.blockedUntil == 0
           || exists id :: id in rows && !acks(id) && old(store.table)[id].target == inventory.blockedUntil
    {
      hide Run, ReadsSuffice, Genesis, Step, Lists, ListsLive, RowsRecovered;
      this.inventory := new Inventory(gate);
      this.store, this.cfg, this.executor, this.head := store, cfg, executor, head;
      this.runtime := cfg.armed;
      this.phase := Booting(rows);
      ghost var before := Run(Genesis(), past);
      this.sent, this.dead := before.sent, before.dead;
      this.unqualifiedSends, this.unqualifiedGas := before.unqualifiedSends, before.unqualifiedGas;
      this.history, this.readEnough := past, false;
      new;
      this.inventory.Refresh(pending, ethBalance, executor, wethBalance);
      LogBoot(past, rows);
      hide Valid, View, LeftBehind;
      RecoverActive(rows, acks, wrote);
    }

    ghost method LogBoot(past: seq<Event>, rows: seq<BundleId>)
      requires var before := Run(Genesis(), past);
        && before.phase.Down? && before.head == head && before.sent == sent && before.dead == dead
        && before.unqualifiedSends == unqualifiedSends && before.unqualifiedGas == unqualifiedGas
        && before.table == store.table && before.smokeUsed == store.smokeUsed && before.smokeGas == store.smokeGas
      requires Lists(store.table, rows) && phase == Booting(rows) && inventory.blockedUntil == 0 && runtime == cfg.armed
      modifies `history, `readEnough
      ensures Valid() && readEnough == (ReadsSuffice(Genesis(), past) && ListsLive(Run(Genesis(), past), rows))
    {
      hide Run, ReadsSuffice, Genesis, Step, Lists, ListsLive;
      BootExtends(past, Boot(cfg, inventory.nonce, rows));
      history := past + [Boot(cfg, inventory.nonce, rows)];
      readEnough := ReadsSuffice(Genesis(), past) && ListsLive(Run(Genesis(), past), rows);
    }

    /** Recovery as a whole, up to the open lane. */
    method RecoverActive(rows: seq<BundleId>, acks: BundleId -> bool, wrote: BundleId -> bool)
      requires Valid() && phase == Booting(rows) && Lists(store.table, rows)
      modifies `phase, `dead, `history, inventory`blockedUntil, store`table
      ensures Valid() && phase == Up(Free)
      ensures forall id :: id in rows ==> id in old(store.table)
      ensures forall id :: id in rows ==>
                old(store.table)[id].target < head || (acks(id) && id in dead)
                || old(store.table)[id].target <= inventory.blockedUntil
      ensures RowsRecovered(old(store.table), store.table, rows, head, acks, wrote)
      ensures inventory.blockedUntil == old(inventory.blockedUntil)
           || exists id :: id in rows && !acks(id) && old(store.table)[id].target == inventory.blockedUntil
    {
      hide Valid, View, Lists, BootTable, BootStatus, RowsRecovered;
      RowsBooted(store.table, rows, head, acks, wrote);
      RecoverAll(rows, acks, wrote);
      OpenLane();
    }

    ghost method OpenLane()
      requires Valid() && phase == Booting([])
      modifies `phase, `history
      ensures Valid() && phase == Up(Free)
    {
      hide Run, ReadsSuffice, Genesis, StepSubmit;
      ghost var before := View();
      phase := Up(Free);
      Log(before, Ready);
    }

    /** What one turn of the boot loop does to the row and the block. */
    method RecoverRow(id: BundleId, ghost rest: seq<BundleId>, acked: bool, wrote: bool)
      requires phase == Booting([id] + rest) && id in store.table
      modifies `phase, `dead, inventory`blockedUntil, store`table
      ensures phase == Booting(rest) && View() == StepRecover(old(View()), acked, wrote)
      ensures dead == (if old(store.table)[id].target >= head && acked then old(dead) + {id} else old(dead))
      ensures store.table.Keys == old(store.table).Keys && old(inventory.blockedUntil) <= inventory.blockedUntil
      ensures forall k :: k in store.table ==> store.table[k].target == old(store.table)[k].target
      ensures store.table[id].target < head || acked || store.table[id].target <= inventory.blockedUntil
      ensures inventory.blockedUntil == old(inventory.blockedUntil)
           || (!acked && old(store.table)[id].target == inventory.blockedUntil)
      ensures store.table == LaneMachine.SetStatus(old(store.table), id, BootStatus(old(store.table)[id], head, acked), wrote)
    {
      assert ([id] + rest)[1..] == rest;
      var target := store.table[id].target;
      phase := Booting(rest);
      if target < head {
        store.SetStatus(id, Expired, wrote);
      } else if acked {
        dead := dead + {id};
        store.SetStatus(id, Cancelled, wrote);
      } else {
        inventory.BlockBroadcastUntil(target);
        store.SetStatus(id, RecoveryBlocked, wrote);
      }
    }

    /** One turn of the boot loop over the reservations an earlier process left active. */
    method RecoverOne(id: BundleId, ghost rest: seq<BundleId>, acked: bool, wrote: bool)
      requires Valid() && phase == Booting([id] + rest) && id in store.table
      modifies `phase, `dead, `history, inventory`blockedUntil, store`table
      ensures Valid() && phase == Booting(rest)
      ensures dead == (if old(store.table)[id].target >= head && acked then old(dead) + {id} else old(dead))
      ensures store.table.Keys == old(store.table).Keys && old(inventory.blockedUntil) <= inventory.blockedUntil
      ensures forall k :: k in store.table ==> store.table[k].target == old(store.table)[k].target
      ensures store.table[id].target < head || acked || store.table[id].target <= inventory.blockedUntil
      ensures inventory.blockedUntil == old(inventory.blockedUntil)
           || (!acked && old(store.table)[id].target == inventory.blockedUntil)
      ensures store.table == LaneMachine.SetStatus(old(store.table), id, BootStatus(old(store.table)[id], head, acked), wrote)
    {
      hide Run, ReadsSuffice, Genesis, StepSubmit, StepRecover;
      ghost var before := View();
      RecoverRow(id, rest, acked, wrote);
      Log(before, Recover(acked, wrote));
    }

    method RecoverAll(queue: seq<BundleId>, acks: BundleId -> bool, wrote: BundleId -> bool)
      requires Valid() && phase == Booting(queue)
      requires forall id :: id in queue ==> id in store.table
      modifies `phase, `dead, `history, inventory`blockedUntil, store`table
      ensures Valid() && phase == Booting([])
      ensures store.table == BootTable(old(store.table), queue, head, acks, wrote)
      ensures forall id :: id in queue ==>
                old(store.table)[id].target < head || (acks(id) && id in dead)
                || old(store.table)[id].target <= inventory.blockedUntil
      ensures inventory.blockedUntil == old(inventory.blockedUntil)
           || exists id :: id in queue && !acks(id) && old(store.table)[id].target == inventory.blockedUntil
    {
      hide Valid, View, Step, StepRecover, BootStatus;
      var i := 0;
      while i < |queue|
        invariant 0 <= i <= |queue| && Valid() && phase == Booting(queue[i..])
        invariant store.table == BootTable(old(store.table), queue[..i], head, acks, wrote)
        invariant forall k :: 0 <= k < i ==> (var id := queue[k];
                    old(store.table)[id].target < head || (acks(id) && id in dead)
                    || old(store.table)[id].target <= inventory.blockedUntil)
        invariant inventory.blockedUntil == old(inventory.blockedUntil)
               || exists id :: id in queue && !acks(id) && old(store.table)[id].target == inventory.blockedUntil
      {
        var id := queue[i];
        assert queue[i..] == [id] + queue[i + 1..];
        assert queue[..i + 1][..i] == queue[..i];
        BootTableAt(old(store.table), queue[..i], head, acks, wrote);
        SameTargetSameStatus(old(store.table)[id], store.table[id], head, acks(id));
        RecoverOne(id, queue[i + 1..], acks(id), wrote(id));
        i := i + 1;
      }
      assert queue[..i] == queue;
    }

    /** What another task can do without holding the lane. */
    method OffLaneTask(e: Event)
      requires Valid() && phase.Up? && e.OffLane()
      modifies this, inventory, store
      ensures Valid() && View() == Step(old(View()), e) && phase == old(phase)
      ensures readEnough == old(readEnough)
      ensures inventory.eth == old(inventory.eth) && inventory.weth == old(inventory.weth)
      ensures e.HeadAdvance? ==> old(head) <= head && e.height <= head
      ensures e.Reconcile? && e.id in store.table && store.table[e.id].target <= head ==> store.table[e.id].status == Reconciled
      ensures e.Reconcile? ==>
                forall id :: id in store.table && (id != e.id || head < store.table[id].target) ==> store.table[id] == old(store.table)[id]
    {
      hide Run, ReadsSuffice, Genesis, StepSubmit, SetStatus;
      ghost var before := View();
      match e {
        case HeadAdvance(height) => if head < height { head := height; }
        case ChainRefresh(pending) => inventory.AdvanceChainNonce(pending);
        case BlockBroadcast(target) => inventory.BlockBroadcastUntil(target);
        case Reconcile(id) =>
          if id in store.table && store.table[id].target <= head {
            store.SetStatus(id, Reconciled, true);
          }
      }
      assert View() == StepOffLane(before, e);
      Log(before, e);
    }

    /** An await: other tasks run, none of them holding the lane. */
    method Await(noise: seq<Event>)
      requires Valid() && phase.Up? && AllOffLane(noise)
      modifies this, inventory, store
      ensures Valid() && View() == Run(old(View()), noise)
      ensures readEnough == old(readEnough)
      ensures inventory.eth == old(inventory.eth) && inventory.weth == old(inventory.weth)
    {
      hide Valid, View, Step;
      var i := 0;
      while i < |noise|
        invariant 0 <= i <= |noise| && Valid() && View() == Run(old(View()), noise[..i]) && phase == old(phase)
        invariant readEnough == old(readEnough)
        invariant inventory.eth == old(inventory.eth) && inventory.weth == old(inventory.weth)
      {
        assert noise[i] in noise;
        OffLaneTask(noise[i]);
        RunSnoc(old(View()), noise[..i], noise[i]);
        assert noise[..i + 1] == noise[..i] + [noise[i]];
        i := i + 1;
      }
      assert noise[..i] == noise;
    }

    // ----------------------------------------------------------------
    // Mode, policy and sweeps
    // ----------------------------------------------------------------

    predicate Live()
      reads this
    {
      cfg.armed && runtime
    }

    /** What one turn of a sweep does, before it is logged. */
    method SweepRow(id: BundleId, ghost rest: seq<BundleId>, acked: bool, wrote: bool)
      requires phase == Up(Sweeping([id] + rest)) && id in store.table
      modifies `phase, `dead, inventory`nonce, inventory`blockedUntil, store`table
      ensures phase == Up(Sweeping(rest)) && View() == StepSweep(old(View()), acked, wrote)
      ensures dead == (if acked then old(dead) + {id} else old(dead))
      ensures store.table == LaneMachine.SetStatus(old(store.table), id, if acked then Cancelled else RecoveryBlocked, wrote)
      ensures old(inventory.blockedUntil) <= inventory.blockedUntil
      ensures acked || old(store.table)[id].target <= inventory.blockedUntil
    {
      assert ([id] + rest)[1..] == rest;
      var row := store.table[id];
      phase := Up(Sweeping(rest));
      if acked {
        dead := dead + {id};
        store.SetStatus(id, Cancelled, wrote);
        var _ := inventory.ReleaseNonces(row.start, row.count);
      } else {
        inventory.BlockBroadcastUntil(row.target);
        store.SetStatus(id, RecoveryBlocked, wrote);
      }
    }

    /** One turn of a sweep; the lane is held. */
    method SweepOne(id: BundleId, ghost rest: seq<BundleId>, acked: bool, wrote: bool)
      requires Valid() && phase == Up(Sweeping([id] + rest)) && id in store.table
      modifies `phase, `dead, `history, inventory`nonce, inventory`blockedUntil, store`table
      ensures Valid() && phase == Up(Sweeping(rest))
      ensures dead == (if acked then old(dead) + {id} else old(dead))
      ensures store.table == LaneMachine.SetStatus(old(store.table), id, if acked then Cancelled else RecoveryBlocked, wrote)
      ensures old(inventory.blockedUntil) <= inventory.blockedUntil
      ensures acked || old(store.table)[id].target <= inventory.blockedUntil
    {
      hide Run, ReadsSuffice, Genesis, StepSubmit, StepSweep, SetStatus;
      ghost var before := View();
      SweepRow(id, rest, acked, wrote);
      Log(before, Sweep(acked, wrote));
    }

    /** One turn with what other tasks do while the relays are asked. */
    method SweepTurn(id: BundleId, ghost rest: seq<BundleId>, acked: bool, wrote: bool, noise: seq<Event>)
      requires Valid() && phase == Up(Sweeping([id] + rest)) && id in store.table && AllOffLane(noise)
      modifies this, inventory, store
      ensures Valid() && phase == Up(Sweeping(rest))
      ensures readEnough == old(readEnough)
      ensures SweptOn(old(View()), View(), id) && SweptUp(View(), id, acked, wrote)
    {
      hide Valid, Step, StepSweep, Run;
      ghost var before := View();
      Await(noise);
      NoiseIsQuiet(before, noise);
      SweepOne(id, rest, acked, wrote);
    }

    /** Cancels the active reservations that could be read, newest first, with other tasks running
        in between. */
    method CancelActiveSubmissionsLocked(rows: seq<BundleId>, acks: BundleId -> bool, wrote: BundleId -> bool,
                                         noise: nat -> seq<Event>)
      requires Valid() && Quietly(noise) && Lists(store.table, rows)
      requires phase == Up(Sweeping(NewestFirst(store.table, rows)))
      modifies this, inventory, store
      ensures Valid() && phase == Up(Free) && runtime == old(runtime) && sent == old(sent)
      ensures readEnough == old(readEnough)
      ensures forall id :: id in rows ==> SweptUp(View(), id, acks(id), wrote(id))
    {
      hide Valid, Step, StepSweep, SweptUp, Lists, NewestFirst;
      var queue := NewestFirst(store.table, rows);
      SweepOrder(store.table, rows);
      var i := 0;
      ghost var before := View();
      while i < |queue|
        invariant 0 <= i <= |queue| && Valid() && phase == Up(Sweeping(queue[i..]))
        invariant SweptOver(before, View()) && readEnough == old(readEnough)
        invariant forall k :: 0 <= k < i ==> SweptUp(View(), queue[k], acks(queue[k]), wrote(queue[k]))
      {
        var id := queue[i];
        assert queue[i..] == [id] + queue[i + 1..];
        ghost var turn := View();
        SweepTurn(id, queue[i + 1..], acks(id), wrote(id), noise(i));
        forall k | 0 <= k < i
          ensures SweptUp(View(), queue[k], acks(queue[k]), wrote(queue[k]))
        {
          SweptStays(turn, View(), queue[i], queue[k], acks(queue[k]), wrote(queue[k]));
        }
        i := i + 1;
      }
      ghost var swept := View();
      assert queue[i..] == [];
      EndSweep();
      forall id | id in rows
        ensures SweptUp(View(), id, acks(id), wrote(id))
      {
        assert id in queue;
        LeavingKeepsSwept(swept, id, acks(id), wrote(id));
      }
    }

    ghost method EndSweep()
      requires Valid() && phase == Up(Sweeping([]))
      modifies `phase, `history
      ensures Valid() && View() == old(View()).(phase := Up(Free))
    {
      hide Run, ReadsSuffice, Genesis, StepSubmit;
      ghost var before := View();
      phase := Up(Free);
      Log(before, SweepDone);
    }

    /** The switch to live mode. */
    method SwitchOn()
      requires Valid() && phase == Up(Free) && cfg.armed
      modifies `runtime, `history
      ensures Valid() && View() == old(View()).(runtime := true)
    {
      hide Run, ReadsSuffice, Genesis, StepSubmit;
      ghost var before := View();
      runtime := true;
      Log(before, SwitchMode(true, []));
    }

    /** The switch to simulation, and the start of the sweep it brings. */
    method SwitchOff(rows: seq<BundleId>)
      requires Valid() && phase == Up(Free) && Lists(store.table, rows)
      modifies `runtime, `phase, `history, `readEnough
      ensures Valid() && View() == old(View()).(phase := Up(Sweeping(NewestFirst(store.table, rows))), runtime := false)
      ensures readEnough == (old(readEnough) && LeavesOutNoDanger(old(View()), rows))
    {
      hide Run, ReadsSuffice, Genesis, StepSubmit, Lists, NewestFirst, LeavesOutNoDanger;
      ghost var before := View();
      ghost var queue := NewestFirst(store.table, rows);
      NewestFirstLists(store.table, rows);
      SortedLeavesOutTheSame(before, rows);
      runtime := false;
      phase := Up(Sweeping(queue));
      LogSweep(before, SwitchMode(false, queue));
    }

    /** `set_runtime_mode`, under the lane: an unarmed process refuses to go live and changes
        nothing; a switch to simulation leaves every reservation it could read acknowledged or
        blocking through its target, and from there nothing is sent until a switch back. */
    method SetRuntimeMode(live: bool, rows: seq<BundleId>, acks: BundleId -> bool, wrote: BundleId -> bool,
                          noise: nat -> seq<Event>)
      returns (r: Result<bool, ()>)
      requires Valid() && phase == Up(Free) && Quietly(noise) && Lists(store.table, rows)
      modifies this, inventory, store
      ensures Valid() && phase == Up(Free) && sent == old(sent)
      ensures r == if live && !cfg.armed then Err(()) else Ok(live)
      ensures r.Err? || live ==> View() == old(View()).(runtime := if live && cfg.armed then true else old(runtime))
      ensures r == Ok(false) ==> Paused(View())
      ensures r == Ok(false) ==> forall id :: id in rows ==> SweptUp(View(), id, acks(id), wrote(id))
      ensures readEnough == (old(readEnough) && (r == Ok(false) ==> LeavesOutNoDanger(old(View()), rows)))
    {
      hide Valid, Step, Lists, NewestFirst, SweptUp, LeavesOutNoDanger;
      if live && !cfg.armed { return Err(()); }
      NewestFirstLists(store.table, rows);
      if live { SwitchOn(); } else { SwitchOff(rows); }
      var effective := Live();
      if !effective {
        CancelActiveSubmissionsLocked(rows, acks, wrote, noise);
      }
      r := Ok(effective);
    }

    /** `cancel_active_submissions`, which `apply_runtime_risk` runs once the patch is accepted. */
    method CancelActiveSubmissions(rows: seq<BundleId>, acks: BundleId -> bool, wrote: BundleId -> bool,
                                   noise: nat -> seq<Event>)
      requires Valid() && phase == Up(Free) && Quietly(noise) && Lists(store.table, rows)
      modifies this, inventory, store
      ensures Valid() && phase == Up(Free) && sent == old(sent) && runtime == old(runtime)
      ensures forall id :: id in rows ==> SweptUp(View(), id, acks(id), wrote(id))
      ensures readEnough == (old(readEnough) && LeavesOutNoDanger(old(View()), rows))
    {
      BeginSweep(rows);
      hide Valid, Step, Lists, NewestFirst, SweptUp, LeavesOutNoDanger;
      CancelActiveSubmissionsLocked(rows, acks, wrote, noise);
    }

    ghost method BeginSweep(rows: seq<BundleId>)
      requires Valid() && phase == Up(Free) && Lists(store.table, rows)
      modifies `phase, `history, `readEnough
      ensures Valid() && View() == old(View()).(phase := Up(Sweeping(NewestFirst(store.table, rows))))
      ensures readEnough == (old(readEnough) && LeavesOutNoDanger(old(View()), rows))
    {
      hide Run, ReadsSuffice, Genesis, StepSubmit, Lists, NewestFirst, LeavesOutNoDanger;
      ghost var before := View();
      ghost var queue := NewestFirst(store.table, rows);
      NewestFirstLists(store.table, rows);
      SortedLeavesOutTheSame(before, rows);
      phase := Up(Sweeping(queue));
      LogSweep(before, PolicyChange(queue));
    }

    method ApplyRuntimeRisk(patched: bool, rows: seq<BundleId>, acks: BundleId -> bool, wrote: BundleId -> bool,
                            noise: nat -> seq<Event>)
      returns (r: Result<(), ()>)
      requires Valid() && phase == Up(Free) && Quietly(noise) && Lists(store.table, rows)
      modifies this, inventory, store
      ensures Valid() && phase == Up(Free) && sent == old(sent) && runtime == old(runtime)
      ensures r.Err? <==> !patched
      ensures r.Err? ==> View() == old(View())
      ensures r.Ok? ==> forall id :: id in rows ==> SweptUp(View(), id, acks(id), wrote(id))
      ensures readEnough == (old(readEnough) && (r.Ok? ==> LeavesOutNoDanger(old(View()), rows)))
    {
      hide Valid, Lists, SweptUp, LeavesOutNoDanger;
      if !patched { return Err(()); }
      CancelActiveSubmissions(rows, acks, wrote, noise);
      r := Ok(());
    }

    // ----------------------------------------------------------------
    // One submission
    // ----------------------------------------------------------------

    /** An unqualified strategy still has a smoke slot, and in raw mode gas, that it could spend. */
    ghost predicate SlotLeft(countersReadable: bool)
      reads this, store
    {
      countersReadable && store.smokeUsed + 1 <= cfg.smokeMax && (cfg.rawMode ==> store.smokeGas + 1 <= cfg.smokeGasCap)
    }

    /** The slot and the decoded gas can be taken: the durable counter has room for both. */
    ghost predicate SlotTakes(a: Answers)
      reads this, store
    {
      && a.smokeDatabase && store.smokeUsed + 1 <= cfg.smokeMax
      && (cfg.rawMode ==>
            a.gasAtRisk.Some? && 0 < cfg.smokeGasCap
            && (store.smokeGas + a.gasAtRisk.value <= cfg.smokeGasCap || U256_MAX <= cfg.smokeGasCap))
    }

    /** The account that pays for `opp` can: gas in ETH, and WETH unless it is borrowed. */
    ghost predicate Funds(opp: Opportunity)
      reads this, inventory
    {
      inventory.gate ==> 0 < inventory.eth && (|opp.flashTokens| > 0 || inventory.weth >= opp.notional)
    }

    /** Every control that stands before a reservation: armed and switched on, enabled, not blocked,
        in time, deliverable, pinned, and qualified at both looks or with a slot left. */
    ghost predicate Welcomed(job: Job, a: Answers)
      reads this, inventory, store
    {
      && cfg.armed && runtime && cfg.broadcastEnabled
      && inventory.blockedUntil < head < job.bundle.target
      && (cfg.rawMode ==> a.rawTransportable) && a.pinAtEntry
      && ((a.qualified(0) && a.qualified(1)) || SlotLeft(a.countersReadable))
      && (|job.opp.frontCalls| > 0 || |job.opp.backCalls| > 0)
    }

    /** Every check between the exact payload and the wire. */
    ghost predicate PassesChecks(opp: Opportunity, a: Answers)
      reads this, inventory, store
    {
      && (a.qualified(2) || SlotLeft(a.countersReadable)) && a.riskOk && Funds(opp)
      && a.rowWritten && a.pinAtSend && (a.qualified(3) || SlotTakes(a))
    }

    /** Qualified, or a smoke slot (and in raw mode a gas budget) is left. */
    predicate MayBroadcast(qualified: bool, readable: bool)
      reads this, store
    {
      qualified
      || (readable && 0 < cfg.smokeMax && store.smokeUsed < cfg.smokeMax
          && (!cfg.rawMode || (cfg.smokeGasCap != 0 && store.smokeGas < cfg.smokeGasCap)))
    }

    ghost method LogReserving(before: State, e: Event)
      requires before == Run(Genesis(), history) && (readEnough ==> ReadsSuffice(Genesis(), history))
      requires before.phase.Up? && before.phase.lane.Reserving() && OfSubmission(e)
      requires View() == StepReserving(before, e)
      modifies `history
      ensures Valid() && View() == Step(before, e)
    {
      hide StepReserving;
      Log(before, e);
    }

    ghost method LogSending(before: State, e: Event)
      requires before == Run(Genesis(), history) && (readEnough ==> ReadsSuffice(Genesis(), history))
      requires before.phase.Up? && !before.phase.lane.Reserving() && OfSubmission(e)
      requires View() == StepSending(before, e)
      modifies `history
      ensures Valid() && View() == Step(before, e)
    {
      hide StepSending;
      Log(before, e);
    }

    ghost method TakeLane(job: Job)
      requires Valid() && phase == Up(Free)
      modifies `phase, `history
      ensures Valid() && View() == old(View()).(phase := Up(Entered(job, head)))
    {
      hide Run, ReadsSuffice, Genesis;
      ghost var before := View();
      phase := Up(Entered(job, head));
      LogReserving(before, Enter(job));
    }

    /** Every control, against the head read when the lane was taken. */
    method CheckGate(job: Job, head0: nat, qualified: bool, readable: bool) returns (admitted: bool)
      requires Valid() && phase == Up(Entered(job, head0))
      modifies `phase, `history
      ensures Valid() && View() == old(View()).(phase := Up(if admitted then Admitted(job) else Free))
      ensures admitted <==> Live() && cfg.broadcastEnabled && MayBroadcast(qualified, readable)
                            && inventory.BroadcastAvailable(head0) && head0 < job.bundle.target
    {
      hide Run, ReadsSuffice, Genesis;
      ghost var before := View();
      admitted := Live() && cfg.broadcastEnabled && MayBroadcast(qualified, readable)
        && inventory.BroadcastAvailable(head0) && job.bundle.target > head0;
      phase := Up(if admitted then Admitted(job) else Free);
      LogReserving(before, Gate(qualified, readable));
    }

    method Admit(job: Job, a: Answers) returns (admitted: bool)
      requires Valid() && phase == Up(Free) && Quietly(a.noise)
      modifies this, inventory, store
      ensures Valid() && phase == Up(if admitted then Admitted(job) else Free)
      ensures readEnough == old(readEnough)
      ensures SameSends(old(View()), View())
      ensures admitted ==> Live() && cfg.broadcastEnabled && old(MayBroadcast(a.qualified(1), a.countersReadable))
                           && old(inventory.BroadcastAvailable(head)) && old(head) < job.bundle.target
      ensures runtime == old(runtime) && inventory.eth == old(inventory.eth) && inventory.weth == old(inventory.weth)
      ensures store.smokeUsed == old(store.smokeUsed) && store.smokeGas == old(store.smokeGas)
      ensures a.noise(0) == [] ==>
                (admitted <==> Live() && cfg.broadcastEnabled && old(MayBroadcast(a.qualified(1), a.countersReadable))
                               && old(inventory.BroadcastAvailable(head)) && old(head) < job.bundle.target)
    {
      hide Run, Valid, Step;
      var head0 := head;
      TakeLane(job);
      NoiseIsQuiet(View(), a.noise(0));
      if a.noise(0) == [] { NoNoise(View()); }
      Await(a.noise(0));
      admitted := CheckGate(job, head0, a.qualified(1), a.countersReadable);
    }

    method TakeRange(job: Job) returns (start: Option<nat>)
      requires Valid() && phase == Up(Admitted(job))
      modifies `phase, `history, inventory`nonce
      ensures Valid() && View() == StepReserve(old(View()), job)
      ensures start == if job.Legs() == 0 then None else Some(old(inventory.nonce))
    {
      hide Run, ReadsSuffice, Genesis;
      ghost var before := View();
      var count := Legs(job.opp);
      if count == 0 {
        start := None;
        phase := Up(Free);
      } else {
        var first := inventory.ReserveNonces(count);
        start := Some(first);
        phase := Up(Holding(job, first));
      }
      LogReserving(before, Reserve);
    }

    /** `Inventory::refresh`, under the lane: the pending nonce and the balances once more. */
    method RefreshInventory(a: Answers)
      requires Valid() && phase.Up?
      modifies `history, inventory
      ensures Valid() && SameSends(old(View()), View())
      ensures inventory.eth == if a.ethBalance.Some? then a.ethBalance.value else old(inventory.eth)
      ensures inventory.weth == if !executor then 0 else if a.wethBalance.Some? then a.wethBalance.value else old(inventory.weth)
    {
      hide Run, ReadsSuffice, Genesis, StepSubmit;
      ghost var before := View();
      inventory.Refresh(a.pendingNonce, a.ethBalance, executor, a.wethBalance);
      if a.pendingNonce.Some? { Log(before, ChainRefresh(a.pendingNonce.value)); }
    }

    /** Refresh once more, then take the next range. */
    method ReserveRange(job: Job, a: Answers) returns (start: Option<nat>, ghost base: State)
      requires Valid() && phase == Up(Admitted(job)) && Quietly(a.noise)
      modifies this, inventory, store
      ensures Valid() && SameSends(old(View()), View())
      ensures readEnough == old(readEnough)
      ensures start.None? <==> job.Legs() == 0
      ensures runtime == old(runtime) && store.smokeUsed == old(store.smokeUsed) && store.smokeGas == old(store.smokeGas)
      ensures inventory.eth == if a.ethBalance.Some? then a.ethBalance.value else old(inventory.eth)
      ensures inventory.weth == if !executor then 0 else if a.wethBalance.Some? then a.wethBalance.value else old(inventory.weth)
      ensures start.None? ==> phase == Up(Free)
      ensures start.Some? ==> phase == Up(Holding(job, start.value)) && base.phase == Up(Admitted(job))
                              && base.nonce == start.value && SameSends(base, View())
                              && (forall calm: bool, written: bool :: Stage(base, calm, written, View()))
    {
      hide Run, Valid, Step;
      NoiseIsQuiet(View(), a.noise(1));
      Await(a.noise(1));
      RefreshInventory(a);
      base := View();
      start := TakeRange(job);
    }

    /** Simulate again at the reserved nonce, or give the range back. */
    method Rebuild(job: Job, start: nat, rebuilt: Option<(BundleId, nat)>) returns (r: Option<Job>)
      requires Valid() && phase == Up(Holding(job, start)) && job.bundle.firstNonce != start
      modifies `phase, `history, inventory`nonce
      ensures Valid() && phase == Up(if r.Some? then Holding(r.value, start) else Free)
      ensures r == Rebuilt(job, start, rebuilt)
      ensures View() == Step(old(View()), Resimulate(if r.Some? then Some(r.value.bundle) else None))
    {
      hide Run, ReadsSuffice, Genesis;
      ghost var before := View();
      match rebuilt {
        case None =>
          var _ := inventory.ReleaseNonces(start, Legs(job.opp));
          r := None;
          phase := Up(Free);
          LogReserving(before, Resimulate(None));
        case Some((id, target)) =>
          var exact := Job(job.opp, Bundle(id, start, target));
          r := Some(exact);
          phase := Up(Holding(exact, start));
          LogReserving(before, Resimulate(Some(exact.bundle)));
      }
    }

    method MakeExact(job: Job, start: nat, a: Answers, ghost g: Ledger) returns (r: Option<Job>)
      requires Valid() && phase == Up(Holding(job, start)) && Tracks(g, View()) && Agrees(g, a)
      modifies this, inventory, store
      ensures Valid() && Tracks(g, View()) && SameSends(old(View()), View())
      ensures readEnough == old(readEnough)
      ensures phase == Up(if r.Some? then Holding(r.value, start) else Free)
      ensures runtime == old(runtime) && inventory.eth == old(inventory.eth) && inventory.weth == old(inventory.weth)
      ensures store.smokeUsed == old(store.smokeUsed) && store.smokeGas == old(store.smokeGas)
      ensures r == if job.bundle.firstNonce == start then Some(job) else Rebuilt(job, start, a.rebuilt)
    {
      hide Run, Valid, Step, Tracks, Agrees;
      if job.bundle.firstNonce == start { return Some(job); }
      TracksNoise(g, a, 2, View());
      QuietAt(g, a, 2);
      Await(a.noise(2));
      ghost var before := View();
      r := Rebuild(job, start, a.rebuilt);
      ghost var e := Resimulate(if r.Some? then Some(r.value.bundle) else None);
      TracksStep(g, before, e);
      ResimulateSends(before, e);
    }

    /** What the recheck does, before it is logged. */
    method DecideControls(job: Job, start: nat, qualified: bool, readable: bool, riskOk: bool) returns (ok: bool)
      requires phase == Up(Holding(job, start)) && job.bundle.firstNonce == start
      modifies `phase, inventory`nonce
      ensures phase == Up(if ok then Cleared(job, start) else Free)
      ensures View() == StepRecheck(old(View()), job, start, qualified, readable, riskOk && inventory.CanFund(job.opp))
      ensures ok <==> Live() && MayBroadcast(qualified, readable) && riskOk && inventory.CanFund(job.opp)
    {
      ok := Live() && MayBroadcast(qualified, readable) && riskOk && inventory.CanFund(job.opp);
      if ok {
        phase := Up(Cleared(job, start));
      } else {
        var _ := inventory.ReleaseNonces(start, Legs(job.opp));
        phase := Up(Free);
      }
    }

    /** The mutable controls once more, after the exact payload is known. */
    method RecheckControls(job: Job, start: nat, qualified: bool, readable: bool, riskOk: bool) returns (ok: bool)
      requires Valid() && phase == Up(Holding(job, start)) && job.bundle.firstNonce == start
      modifies `phase, `history, inventory`nonce
      ensures Valid() && phase == Up(if ok then Cleared(job, start) else Free)
      ensures View() == Step(old(View()), Recheck(qualified, readable, riskOk, inventory.CanFund(job.opp)))
      ensures ok <==> Live() && MayBroadcast(qualified, readable) && riskOk && inventory.CanFund(job.opp)
    {
      hide Run, ReadsSuffice, Genesis, StepRecheck, Step;
      ghost var before := View();
      ghost var funded := inventory.CanFund(job.opp);
      ok := DecideControls(job, start, qualified, readable, riskOk);
      LogReserving(before, Recheck(qualified, readable, riskOk, funded));
    }

    /** The durable row comes before anything reaches a relay. */
    method PersistRange(job: Job, start: nat, wrote: bool) returns (ok: bool)
      requires Valid() && phase == Up(Cleared(job, start)) && job.bundle.id !in store.table
      modifies `phase, `history, inventory`nonce, store`table
      ensures Valid() && phase == Up(if ok then Durable(job, start) else Free) && ok == wrote
      ensures View() == Step(old(View()), Persist(wrote))
      ensures store.table.Keys == old(store.table).Keys + (if ok then {job.bundle.id} else {})
    {
      hide Run, ReadsSuffice, Genesis;
      ghost var before := View();
      ok := store.ReserveBundleNonces(job.bundle.id, start, Legs(job.opp), job.bundle.target, wrote);
      if ok {
        phase := Up(Durable(job, start));
      } else {
        var _ := inventory.ReleaseNonces(start, Legs(job.opp));
        phase := Up(Free);
      }
      assert View() == StepPersist(before, job, start, wrote);
      hide StepPersist;
      LogSending(before, Persist(wrote));
    }

    method CancelUnsentRow(job: Job, start: nat, wrote: bool)
      requires phase.Up?
      modifies `phase, inventory`nonce, store`table
      ensures View() == old(View()).CancelUnsent(job, start, wrote) && store.table.Keys == old(store.table).Keys
    {
      hide SetStatus;
      store.SetStatus(job.bundle.id, Cancelled, wrote);
      var _ := inventory.ReleaseNonces(start, Legs(job.opp));
      phase := Up(Free);
    }

    /** The pinned state a last time, before a smoke slot is spent. */
    method CheckPinLast(job: Job, start: nat, pinLive: bool, wrote: bool)
      requires Valid() && phase == Up(Durable(job, start))
      modifies `phase, `history, inventory`nonce, store`table
      ensures Valid() && phase == Up(if pinLive then Pinned(job, start) else Free)
      ensures View() == Step(old(View()), PinCheck(pinLive, wrote)) && store.table.Keys == old(store.table).Keys
    {
      hide Run, ReadsSuffice, Genesis;
      ghost var before := View();
      if pinLive {
        phase := Up(Pinned(job, start));
      } else {
        CancelUnsentRow(job, start, wrote);
      }
      LogSending(before, PinCheck(pinLive, wrote));
    }

    /** A durable slot, and in raw mode the decoded gas exposure; `None` when either is refused. */
    method SpendSlot(gasAtRisk: Option<nat>, database: bool) returns (risk: Option<nat>)
      modifies store`smokeUsed, store`smokeGas
      ensures risk.Some? <==> (cfg.rawMode ==> gasAtRisk.Some?) && database
                              && ConsumeSmoke(old(View()), if cfg.rawMode then gasAtRisk.value else 0).Some?
      ensures risk.Some? ==> risk.value == (if cfg.rawMode then gasAtRisk.value else 0)
                             && (store.smokeUsed, store.smokeGas) == ConsumeSmoke(old(View()), risk.value).value
      ensures risk.None? ==> View() == old(View())
      ensures store.smokeUsed == old(store.smokeUsed) + (if risk.Some? then 1 else 0)
      ensures risk.Some? ==> risk.value == Exposure(cfg.rawMode, gasAtRisk)
      ensures store.smokeGas == if risk.Some? then SumTo(old(store.smokeGas), Exposure(cfg.rawMode, gasAtRisk), U256_MAX)
                                else old(store.smokeGas)
    {
      if cfg.rawMode && gasAtRisk.None? { return None; }
      var atRisk := if cfg.rawMode then gasAtRisk.value else 0;
      var taken := store.TryConsumeSmoke(cfg.smokeMax, if cfg.rawMode then Some(cfg.smokeGasCap) else None, atRisk, database);
      risk := if taken == Ok(true) then Some(atRisk) else None;
    }

    /** A qualified strategy spends no slot; without a slot the row is cancelled. */
    method PayForSend(job: Job, start: nat, qualified: bool, gasAtRisk: Option<nat>, database: bool, wrote: bool)
      returns (ok: bool)
      requires phase == Up(Pinned(job, start))
      modifies `phase, inventory`nonce, store
      ensures View() == StepBudget(old(View()), job, start, qualified, gasAtRisk, database, wrote)
      ensures phase == Up(if ok then Funded(job, start, qualified, if qualified then 0 else Exposure(cfg.rawMode, gasAtRisk))
                          else Free)
      ensures ok <==> qualified || ((cfg.rawMode ==> gasAtRisk.Some?) && database
                                     && ConsumeSmoke(old(View()), if cfg.rawMode then gasAtRisk.value else 0).Some?)
      ensures store.smokeUsed == old(store.smokeUsed) + (if ok && !qualified then 1 else 0)
      ensures store.smokeGas == if ok && !qualified then SumTo(old(store.smokeGas), Exposure(cfg.rawMode, gasAtRisk), U256_MAX)
                                else old(store.smokeGas)
      ensures store.table.Keys == old(store.table).Keys
    {
      hide ConsumeSmoke, SetStatus;
      var risk := Some(0);
      if !qualified { risk := SpendSlot(gasAtRisk, database); }
      ok := risk.Some?;
      if ok {
        phase := Up(Funded(job, start, qualified, risk.value));
      } else {
        CancelUnsentRow(job, start, wrote);
      }
    }

    method TakeSmokeSlot(job: Job, start: nat, qualified: bool, gasAtRisk: Option<nat>, database: bool, wrote: bool)
      returns (ok: bool)
      requires Valid() && phase == Up(Pinned(job, start))
      modifies `phase, `history, inventory`nonce, store
      ensures Valid() && View() == Step(old(View()), Budget(qualified, gasAtRisk, database, wrote))
      ensures phase == Up(if ok then Funded(job, start, qualified, if qualified then 0 else Exposure(cfg.rawMode, gasAtRisk))
                          else Free)
      ensures ok <==> qualified || ((cfg.rawMode ==> gasAtRisk.Some?) && database
                                     && ConsumeSmoke(old(View()), if cfg.rawMode then gasAtRisk.value else 0).Some?)
      ensures store.smokeUsed == old(store.smokeUsed) + (if ok && !qualified then 1 else 0)
      ensures store.smokeGas == if ok && !qualified then SumTo(old(store.smokeGas), Exposure(cfg.rawMode, gasAtRisk), U256_MAX)
                                else old(store.smokeGas)
      ensures store.table.Keys == old(store.table).Keys
    {
      hide Run, ReadsSuffice, Genesis, StepBudget, ConsumeSmoke;
      ghost var before := View();
      ok := PayForSend(job, start, qualified, gasAtRisk, database, wrote);
      LogSending(before, Budget(qualified, gasAtRisk, database, wrote));
    }

    // ----------------------------------------------------------------
    // The wire
    // ----------------------------------------------------------------

    ghost method HandOutRow(job: Job, start: nat)
      requires phase.Up? && phase.lane.Funded? && phase.lane.job == job && phase.lane.start == start
      modifies `phase, `sent, `unqualifiedSends, `unqualifiedGas
      ensures phase == Up(OnWire(job, start)) && sent == old(sent)[job.bundle.id := job]
      ensures View() == StepSend(old(View()), job, start, old(phase).lane.qualified, old(phase).lane.gas)
      ensures unqualifiedSends == old(unqualifiedSends) + (if old(phase).lane.qualified then 0 else 1)
      ensures unqualifiedGas == old(unqualifiedGas) + (if old(phase).lane.qualified then 0 else old(phase).lane.gas)
    {
      sent := sent[job.bundle.id := job];
      if !phase.lane.qualified {
        unqualifiedSends := unqualifiedSends + 1;
        unqualifiedGas := unqualifiedGas + phase.lane.gas;
      }
      phase := Up(OnWire(job, start));
    }

    ghost method HandOut(job: Job, start: nat)
      requires Valid() && phase.Up? && phase.lane.Funded? && phase.lane.job == job && phase.lane.start == start
      modifies `phase, `sent, `unqualifiedSends, `unqualifiedGas, `history
      ensures Valid() && phase == Up(OnWire(job, start)) && View() == Step(old(View()), Send)
      ensures sent == old(sent)[job.bundle.id := job] && dead == old(dead)
      ensures unqualifiedSends == old(unqualifiedSends) + (if old(phase).lane.qualified then 0 else 1)
      ensures unqualifiedGas == old(unqualifiedGas) + (if old(phase).lane.qualified then 0 else old(phase).lane.gas)
    {
      hide Run, ReadsSuffice, Genesis, StepSend, Step;
      ghost var before := View();
      HandOutRow(job, start);
      LogSending(before, Send);
    }

    method HearAnswer(job: Job, start: nat, accepted: bool, wrote: bool)
      requires Valid() && phase == Up(OnWire(job, start)) && job.bundle.id in store.table
      modifies `phase, `history, store`table
      ensures Valid() && phase == Up(if accepted then Free else Refused(job, start))
      ensures View() == Step(old(View()), Answer(accepted, wrote)) && store.table.Keys == old(store.table).Keys
      ensures accepted && wrote ==> store.table[job.bundle.id].status == Accepted
    {
      hide Run, ReadsSuffice, Genesis;
      ghost var before := View();
      if accepted {
        store.SetStatus(job.bundle.id, Accepted, wrote);
        phase := Up(Free);
      } else {
        phase := Up(Refused(job, start));
      }
      LogSending(before, Answer(accepted, wrote));
    }

    method RecallRow(job: Job, start: nat, acked: bool, wrote: bool)
      requires phase == Up(Refused(job, start))
      modifies `phase, `dead, inventory`nonce, inventory`blockedUntil, store`table
      ensures View() == StepCancelAnswer(old(View()), job, start, acked, wrote) && phase == Up(Free)
      ensures sent == old(sent) && history == old(history) && readEnough == old(readEnough)
      ensures if acked then job.bundle.id in dead else job.bundle.target <= inventory.blockedUntil
    {
      hide SetStatus;
      if acked {
        dead := dead + {job.bundle.id};
        CancelUnsentRow(job, start, wrote);
      } else {
        inventory.BlockBroadcastUntil(job.bundle.target);
        store.SetStatus(job.bundle.id, RecoveryBlocked, wrote);
        phase := Up(Free);
      }
    }

    method Recall(job: Job, start: nat, acked: bool, wrote: bool)
      requires Valid() && phase == Up(Refused(job, start)) && job.bundle.id in store.table
      modifies `phase, `dead, `history, inventory`nonce, inventory`blockedUntil, store`table
      ensures Valid() && phase == Up(Free) && View() == Step(old(View()), CancelAnswer(acked, wrote))
      ensures if acked then job.bundle.id in dead else job.bundle.target <= inventory.blockedUntil
    {
      hide Run, ReadsSuffice, Genesis, StepCancelAnswer;
      ghost var before := View();
      RecallRow(job, start, acked, wrote);
      LogSending(before, CancelAnswer(acked, wrote));
    }

    /** Send, and on a refusal recall. */
    method Broadcast(job: Job, start: nat, a: Answers, ghost g: Ledger) returns (accepted: bool)
      requires Valid() && phase.Up? && phase.lane.Funded? && phase.lane.job == job && phase.lane.start == start
      requires Tracks(g, View()) && Agrees(g, a) && job.bundle.id in store.table
      modifies this, inventory, store
      ensures Valid() && phase == Up(Free) && Tracks(g, View()) && accepted == a.accepted
      ensures readEnough == old(readEnough)
      ensures inventory.eth == old(inventory.eth) && inventory.weth == old(inventory.weth) && store.smokeUsed == old(store.smokeUsed)
      ensures store.smokeGas == old(store.smokeGas)
      ensures sent == old(sent)[job.bundle.id := job]
      ensures accepted && a.statusWritten ==> job.bundle.id in store.table && store.table[job.bundle.id].status == Accepted
      ensures !accepted ==> if a.cancelAcked then job.bundle.id in dead else job.bundle.target <= inventory.blockedUntil
      ensures unqualifiedSends == old(unqualifiedSends) + (if old(phase).lane.qualified then 0 else 1)
      ensures unqualifiedGas == old(unqualifiedGas) + (if old(phase).lane.qualified then 0 else old(phase).lane.gas)
    {
      hide Run, Valid, Step, Tracks, Agrees;
      QuietAt(g, a, 3);
      QuietAt(g, a, 4);
      TracksStep(g, View(), Send);
      HandOut(job, start);
      TracksNoise(g, a, 3, View());
      Await(a.noise(3));
      accepted := a.accepted;
      WrittenAgrees(g, a);
      TracksStep(g, View(), Answer(accepted, a.statusWritten));
      HearAnswer(job, start, accepted, a.statusWritten);
      if !accepted {
        TracksNoise(g, a, 4, View());
        Await(a.noise(4));
        TracksStep(g, View(), CancelAnswer(a.cancelAcked, a.statusWritten));
        Recall(job, start, a.cancelAcked, a.statusWritten);
      }
    }

    /** The controls once more, then the durable row. */
    method ReserveDurably(job: Job, start: nat, a: Answers, ghost g: Ledger) returns (ok: bool)
      requires Valid() && phase == Up(Holding(job, start)) && job.bundle.firstNonce == start
      requires Tracks(g, View()) && Agrees(g, a) && job.bundle.id !in store.table
      modifies `phase, `history, inventory`nonce, store`table
      ensures Valid() && Tracks(g, View()) && phase == Up(if ok then Durable(job, start) else Free)
      ensures ok ==> job.bundle.id in store.table
      ensures ok <==> Live() && old(MayBroadcast(a.qualified(2), a.countersReadable)) && a.riskOk
                      && inventory.CanFund(job.opp) && a.rowWritten
    {
      hide Run, Valid, Step, Tracks, Agrees;
      ghost var held := View();
      ok := RecheckControls(job, start, a.qualified(2), a.countersReadable, a.riskOk);
      TracksStep(g, held, Recheck(a.qualified(2), a.countersReadable, a.riskOk, inventory.CanFund(job.opp)));
      if ok {
        ghost var before := View();
        ok := PersistRange(job, start, a.rowWritten);
        TracksStep(g, before, Persist(a.rowWritten));
      }
    }

    lemma SlotIsTaken(a: Answers)
      ensures SlotTakes(a) <==> (cfg.rawMode ==> a.gasAtRisk.Some?) && a.smokeDatabase
                                && ConsumeSmoke(View(), if cfg.rawMode then a.gasAtRisk.value else 0).Some?
    {
    }

    /** The pin a last time, then the smoke slot; either cancels the row. */
    method LastChecks(job: Job, start: nat, a: Answers, ghost g: Ledger) returns (ok: bool)
      requires Valid() && phase == Up(Durable(job, start)) && Tracks(g, View()) && Agrees(g, a)
      modifies `phase, `history, inventory`nonce, store
      ensures Valid() && Tracks(g, View()) && store.table.Keys == old(store.table).Keys
      ensures phase == Up(if ok then Funded(job, start, a.qualified(3), if a.qualified(3) then 0 else Exposure(cfg.rawMode, a.gasAtRisk))
                          else Free)
      ensures ok <==> a.pinAtSend && (a.qualified(3) || old(SlotTakes(a)))
      ensures store.smokeUsed == old(store.smokeUsed) + (if ok && !a.qualified(3) then 1 else 0)
      ensures store.smokeGas == if ok && !a.qualified(3) then SumTo(old(store.smokeGas), Exposure(cfg.rawMode, a.gasAtRisk), U256_MAX)
                                else old(store.smokeGas)
    {
      hide Run, Valid, Step, Tracks, Agrees;
      SlotIsTaken(a);
      WrittenAgrees(g, a);
      ghost var before := View();
      CheckPinLast(job, start, a.pinAtSend, a.statusWritten);
      TracksStep(g, before, PinCheck(a.pinAtSend, a.statusWritten));
      ok := a.pinAtSend;
      if ok {
        before := View();
        ok := TakeSmokeSlot(job, start, a.qualified(3), a.gasAtRisk, a.smokeDatabase, a.statusWritten);
        TracksStep(g, before, Budget(a.qualified(3), a.gasAtRisk, a.smokeDatabase, a.statusWritten));
      }
    }

    /** From a reserved range to the durable row and the last checks. */
    method Commit(job: Job, start: nat, a: Answers, ghost g: Ledger) returns (ok: bool)
      requires Valid() && phase == Up(Holding(job, start)) && job.bundle.firstNonce == start
      requires Tracks(g, View()) && Agrees(g, a) && job.bundle.id !in store.table
      modifies `phase, `history, inventory`nonce, store
      ensures Valid() && Tracks(g, View())
      ensures phase == Up(if ok then Funded(job, start, a.qualified(3), if a.qualified(3) then 0 else Exposure(cfg.rawMode, a.gasAtRisk))
                          else Free)
      ensures ok ==> job.bundle.id in store.table
      ensures ok <==> Live() && old(PassesChecks(job.opp, a))
      ensures store.smokeUsed == old(store.smokeUsed) + (if ok && !a.qualified(3) then 1 else 0)
      ensures store.smokeGas == if ok && !a.qualified(3) then SumTo(old(store.smokeGas), Exposure(cfg.rawMode, a.gasAtRisk), U256_MAX)
                                else old(store.smokeGas)
    {
      hide Run, Valid, View, Step, Tracks, Agrees;
      ok := ReserveDurably(job, start, a, g);
      if ok { ok := LastChecks(job, start, a, g); }
    }

    /** A reserved range from the exact payload to the end, whichever it is. */
    method Proceed(job: Job, start: nat, a: Answers, ghost g: Ledger)
      returns (bundle: Bundle, submitted: bool, ghost handed: bool)
      requires Valid() && phase == Up(Holding(job, start)) && Tracks(g, View()) && Agrees(g, a)
      requires job.bundle.id !in store.table && (a.rebuilt.Some? ==> a.rebuilt.value.0 !in store.table)
      modifies this, inventory, store
      ensures Valid() && phase == Up(Free) && Tracks(g, View())
      ensures readEnough == old(readEnough) && inventory.eth == old(inventory.eth) && inventory.weth == old(inventory.weth)
      ensures job.bundle.firstNonce == start ==> bundle == job.bundle
      ensures job.bundle.firstNonce != start && a.rebuilt.Some? ==> bundle == Bundle(a.rebuilt.value.0, start, a.rebuilt.value.1)
      ensures handed <==> (job.bundle.firstNonce == start || a.rebuilt.Some?) && old(Live()) && old(PassesChecks(job.opp, a))
      ensures submitted == (handed && a.accepted)
      ensures sent == if handed then old(sent)[bundle.id := Job(job.opp, bundle)] else old(sent)
      ensures store.smokeUsed == old(store.smokeUsed) + (if handed && !a.qualified(3) then 1 else 0)
      ensures store.smokeGas == if handed && !a.qualified(3)
                                then SumTo(old(store.smokeGas), Exposure(cfg.rawMode, a.gasAtRisk), U256_MAX)
                                else old(store.smokeGas)
      ensures unqualifiedSends == old(unqualifiedSends) + (if handed && !a.qualified(3) then 1 else 0)
      ensures unqualifiedGas == old(unqualifiedGas)
                                + (if handed && !a.qualified(3) then Exposure(cfg.rawMode, a.gasAtRisk) else 0)
      ensures submitted && a.statusWritten ==> bundle.id in store.table && store.table[bundle.id].status == Accepted
      ensures handed && !submitted ==> if a.cancelAcked then bundle.id in dead else bundle.target <= inventory.blockedUntil
    {
      hide Run, Valid, Step, Tracks, Agrees;
      bundle, submitted, handed := job.bundle, false, false;
      var exact := MakeExact(job, start, a, g);
      if exact.None? { return; }
      bundle := exact.value.bundle;
      assert exact.value == Job(job.opp, bundle);
      var ok := Commit(exact.value, start, a, g);
      handed := ok;
      if ok {
        submitted := Broadcast(exact.value, start, a, g);
      }
    }

    /** Everything before the range is taken: the checks outside the lane, the gate under it, the
        refresh. */
    method Enlist(job: Job, a: Answers) returns (start: Option<nat>, ghost base: State)
      requires Valid() && phase == Up(Free) && Quietly(a.noise)
      modifies this, inventory, store
      ensures Valid() && SameSends(old(View()), View())
      ensures readEnough == old(readEnough)
      ensures runtime == old(runtime) && store.smokeUsed == old(store.smokeUsed) && store.smokeGas == old(store.smokeGas)
      ensures start.None? ==> phase == Up(Free)
      ensures start.Some? ==> phase == Up(Holding(job, start.value)) && base.phase == Up(Admitted(job))
                              && base.nonce == start.value && SameSends(base, View())
                              && (forall calm: bool, written: bool :: Stage(base, calm, written, View()))
      ensures start.Some? ==>
                inventory.eth == (if a.ethBalance.Some? then a.ethBalance.value else old(inventory.eth))
                && inventory.weth == (if !executor then 0 else if a.wethBalance.Some? then a.wethBalance.value
                                      else old(inventory.weth))
      ensures start.Some? ==> old(Welcomed(job, a))
      ensures old(Welcomed(job, a)) && a.noise(0) == [] ==> start.Some?
    {
      hide Run, Valid, Step, Stage;
      start, base := None, View();
      if !a.qualified(0) && !MayBroadcast(a.qualified(0), a.countersReadable) { return; }
      if cfg.rawMode && !a.rawTransportable { return; }
      if !a.pinAtEntry { return; }
      var admitted := Admit(job, a);
      if admitted {
        start, base := ReserveRange(job, a);
      }
    }

    /** `submit_live_candidate`. Whatever the world answers, the lane is left free, the history
        extends to a run of the machine, and a range once reserved is settled. A range is reserved
        exactly when every control before it is met (when nothing happens while the lane is waited
        for), and the bundle is handed to the relays exactly when every check after it is. */
    method SubmitLiveCandidate(job: Job, a: Answers)
      returns (bundle: Bundle, submitted: bool, ghost reserved: bool, ghost handed: bool, ghost base: State)
      requires Valid() && phase == Up(Free) && Quietly(a.noise)
      requires job.bundle.id !in store.table && (a.rebuilt.Some? ==> a.rebuilt.value.0 !in store.table)
      modifies this, inventory, store
      ensures Valid() && phase == Up(Free)
      ensures readEnough == old(readEnough)
      ensures !reserved ==> !handed && SameSends(old(View()), View())
      ensures reserved ==> SameSends(old(View()), base) && base.phase == Up(Admitted(job))
      ensures reserved ==> Settled(base, Calmly(a.noise, RangeEnd(base)), a.statusWritten, View())
      ensures reserved ==> old(Welcomed(job, a))
      ensures old(Welcomed(job, a)) && a.noise(0) == [] ==> reserved
      ensures reserved ==>
                inventory.eth == (if a.ethBalance.Some? then a.ethBalance.value else old(inventory.eth))
                && inventory.weth == (if !executor then 0 else if a.wethBalance.Some? then a.wethBalance.value
                                      else old(inventory.weth))
      ensures reserved ==>
                (handed <==> (job.bundle.firstNonce == base.nonce || a.rebuilt.Some?)
                             && (a.qualified(2) || old(SlotLeft(a.countersReadable))) && a.riskOk && Funds(job.opp)
                             && a.rowWritten && a.pinAtSend && (a.qualified(3) || old(SlotTakes(a))))
      ensures submitted == (handed && a.accepted)
      ensures sent == if handed then old(sent)[bundle.id := Job(job.opp, bundle)] else old(sent)
      ensures handed && inventory.gate ==>
                inventory.eth != 0 && (job.opp.flashTokens != [] || job.opp.notional <= inventory.weth)
      ensures handed ==> bundle == if job.bundle.firstNonce == base.nonce then job.bundle
                                   else Bundle(a.rebuilt.value.0, base.nonce, a.rebuilt.value.1)
      ensures store.smokeUsed == old(store.smokeUsed) + (if handed && !a.qualified(3) then 1 else 0)
      ensures store.smokeGas == if handed && !a.qualified(3)
                                then SumTo(old(store.smokeGas), Exposure(cfg.rawMode, a.gasAtRisk), U256_MAX)
                                else old(store.smokeGas)
      ensures unqualifiedSends == old(unqualifiedSends) + (if handed && !a.qualified(3) then 1 else 0)
      ensures unqualifiedGas == old(unqualifiedGas)
                                + (if handed && !a.qualified(3) then Exposure(cfg.rawMode, a.gasAtRisk) else 0)
      ensures submitted && a.statusWritten ==> bundle.id in store.table && store.table[bundle.id].status == Accepted
      ensures handed && !submitted ==> if a.cancelAcked then bundle.id in dead else bundle.target <= inventory.blockedUntil
    {
      hide Run, Valid, Step, Stage, Tracks, Agrees, Settled;
      hide Calmly, RangeEnd, Quietly;
      bundle, submitted, handed := job.bundle, false, false;
      var range;
      range, base := Enlist(job, a);
      reserved := range.Some?;
      if range.Some? {
        ghost var g := Ledger(base, Calmly(a.noise, RangeEnd(base)), a.statusWritten);
        StartTracking(g, a, View());
        bundle, submitted, handed := Proceed(job, range.value, a, g);
        FreeIsSettled(g, View());
      }
    }
  }
}
