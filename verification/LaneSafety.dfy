/** What every run of the submission lane keeps, across crashes and restarts. */
module LaneSafety {
  import opened LaneMachine
  import opened Wrappers

  // ------------------------------------------------------------------
  // The claims
  // ------------------------------------------------------------------

  /** A bundle that can still be mined: handed out, never acknowledged as cancelled, and its
      target block is still ahead of the observed head. */
  ghost predicate Live(s: State, id: BundleId)
  {
    id in s.sent && id !in s.dead && s.head < s.sent[id].bundle.target
  }

  ghost predicate Apart(a: Job, b: Job)
  {
    a.End() <= b.bundle.firstNonce || b.End() <= a.bundle.firstNonce
  }

  /** No two bundles that can still be mined share a nonce. */
  ghost predicate NoSharedNonce(s: State)
  {
    forall a, b :: Live(s, a) && Live(s, b) && a != b ==> Apart(s.sent[a], s.sent[b])
  }

  // ------------------------------------------------------------------
  // The invariant
  // ------------------------------------------------------------------

  /** The durable row of a bundle that was sent: it was written before the send, and it only
      reads cancelled or retired when the bundle can no longer be mined. */
  ghost predicate RowTells(s: State, id: BundleId)
    requires id in s.sent
  {
    && id in s.table
    && s.sent[id].bundle.id == id
    && (var row, job := s.table[id], s.sent[id];
        && 0 < job.Legs() && row.start == job.bundle.firstNonce && row.count == job.Legs() && row.target == job.bundle.target
        && (row.status == Cancelled ==> id in s.dead)
        && (row.status in {Expired, Reconciled} ==> row.target <= s.head))
  }

  ghost predicate DurableFirst(s: State)
  {
    && (forall id :: id in s.sent ==> RowTells(s, id))
    && (forall id :: id in s.dead ==> id in s.table)
    && (forall id :: id in s.table ==> 0 < s.table[id].count)
  }

  /** Live bundles other than `own` end at or below `limit`. */
  ghost predicate OthersBelow(s: State, own: Option<BundleId>, limit: nat)
  {
    forall id :: Live(s, id) && own != Some(id) ==> s.sent[id].End() <= limit
  }

  /** No gate opens before the bundle's target has passed: it asks for a head above the block, and
      the bundle for one below its target. */
  predicate Blocked(s: State, id: BundleId)
    requires id in s.sent
  {
    s.sent[id].bundle.target <= s.blockedUntil + 1
  }

  /** Live bundles are below the counter, or broadcasting is blocked through their target. */
  ghost predicate BelowOrBlocked(s: State)
  {
    forall id :: Live(s, id) ==> s.sent[id].End() <= s.nonce || Blocked(s, id)
  }

  /** While the list of a boot is worked off: live bundles are still listed, or blocked. */
  ghost predicate ListedOrBlocked(s: State, queue: seq<BundleId>)
  {
    && (forall id :: Live(s, id) ==> id in queue || Blocked(s, id))
    && (forall id :: id in queue ==> id in s.table)
  }

  /** No listed range reaches across the height from below: giving the listed ranges back never
      takes a counter that stands at or above it to below it. */
  ghost predicate HoldsAt(table: Table, queue: seq<BundleId>, height: nat)
  {
    forall id :: id in queue && id in table ==> End(table[id]) < height || height <= table[id].start
  }

  function End(row: Reservation): nat
  {
    row.start + row.count
  }

  /** Some height from `top` up to the counter stops it there. */
  ghost predicate Stopped(table: Table, queue: seq<BundleId>, top: nat, nonce: nat)
  {
    exists height :: top <= height <= nonce && HoldsAt(table, queue, height)
  }

  /** Whatever a sweep over `queue` gives back, the bundle stays below the counter. */
  ghost predicate Sheltered(s: State, queue: seq<BundleId>, id: BundleId)
    requires id in s.sent
  {
    Stopped(s.table, queue, s.sent[id].End(), s.nonce)
  }

  /** A list of reservations is no danger to the live bundles it leaves out. */
  ghost predicate LeavesOutNoDanger(s: State, queue: seq<BundleId>)
  {
    forall id :: Live(s, id) ==> id in queue || Blocked(s, id) || Sheltered(s, queue, id)
  }

  ghost predicate ExactPayload(job: Job, start: nat)
  {
    job.bundle.firstNonce == start
  }

  ghost predicate OwnRowFresh(s: State, job: Job, start: nat)
  {
    var id := job.bundle.id;
    && id in s.table && id !in s.sent && id !in s.dead
    && (var row := s.table[id];
        && row.start == start && row.count == job.Legs() && row.target == job.bundle.target
        && (row.status == Reserved || (row.status == Reconciled && row.target <= s.head)))
  }

  ghost predicate HoldsRange(s: State, own: Option<BundleId>, job: Job, start: nat)
  {
    OthersBelow(s, own, start) && 0 < job.Legs() && start + job.Legs() <= s.nonce
  }

  ghost predicate LaneInv(s: State, lane: Lane)
  {
    match lane
    case Free => BelowOrBlocked(s)
    case Entered(job, head0) => BelowOrBlocked(s) && head0 <= s.head
    case Admitted(job) => OthersBelow(s, None, s.nonce)
    case Holding(job, start) => HoldsRange(s, None, job, start)
    case Cleared(job, start) => HoldsRange(s, None, job, start) && ExactPayload(job, start)
    case Durable(job, start) => HoldsRange(s, None, job, start) && ExactPayload(job, start) && OwnRowFresh(s, job, start)
    case Pinned(job, start) => HoldsRange(s, None, job, start) && ExactPayload(job, start) && OwnRowFresh(s, job, start)
    case Funded(job, start, _, _) => HoldsRange(s, None, job, start) && ExactPayload(job, start) && OwnRowFresh(s, job, start)
    case OnWire(job, start) => OnTheWire(s, job, start)
    case Refused(job, start) => OnTheWire(s, job, start)
    case Sweeping(queue) => LeavesOutNoDanger(s, queue) && forall id :: id in queue ==> id in s.table
  }

  ghost predicate OnTheWire(s: State, job: Job, start: nat)
  {
    && job.bundle.id in s.sent && s.sent[job.bundle.id] == job
    && HoldsRange(s, Some(job.bundle.id), job, start) && ExactPayload(job, start)
  }

  ghost predicate PhaseInv(s: State)
  {
    match s.phase
    case Down => true
    case Booting(pending) => ListedOrBlocked(s, pending)
    case Up(lane) => LaneInv(s, lane)
  }

  ghost predicate NonceInv(s: State)
  {
    DurableFirst(s) && NoSharedNonce(s) && PhaseInv(s)
  }

  // ------------------------------------------------------------------
  // Every step keeps it
  // ------------------------------------------------------------------

  /** The rows a boot has to be able to read: those of the live bundles. */
  ghost predicate ListsLive(s: State, rows: seq<BundleId>)
  {
    forall id :: Live(s, id) ==> id in rows
  }

  /** What the step reads of the table is enough: a boot sees every live bundle, and a sweep leaves
      out none that the ranges it gives back could expose. */
  ghost predicate ReadsEnough(s: State, e: Event)
  {
    && (e.Boot? && s.phase.Down? && Lists(s.table, e.rows) ==> ListsLive(s, e.rows))
    && (StartsSweep(e) && s.phase == Up(Free) && Lists(s.table, e.rows) ==> LeavesOutNoDanger(s, e.rows))
  }

  predicate StartsSweep(e: Event)
  {
    e.PolicyChange? || (e.SwitchMode? && !e.on)
  }

  /** A read of every active row is enough for any step, and so is an empty one for a sweep. */
  lemma FullReadIsEnough(s: State, e: Event)
    requires NonceInv(s) && (e.Boot? || StartsSweep(e))
    requires (forall id :: id in s.table && s.table[id].Active() ==> id in e.rows) || (StartsSweep(e) && e.rows == [])
    ensures ReadsEnough(s, e)
  {
    forall id | Live(s, id)
      ensures id in s.table && s.table[id].Active()
    {
      LiveRowsAreActive(s, id);
    }
    if e.rows == [] && s.phase == Up(Free) {
      EmptyLeavesOutNoDanger(s);
    }
  }

  lemma EmptyLeavesOutNoDanger(s: State)
    requires BelowOrBlocked(s)
    ensures LeavesOutNoDanger(s, [])
  {
    assert HoldsAt(s.table, [], s.nonce);
  }

  /** With nothing newly sent, fewer bundles are live. */
  lemma FewerLive(s: State, t: State)
    requires t.sent == s.sent && s.dead <= t.dead && s.head <= t.head
    ensures forall id :: Live(t, id) ==> Live(s, id)
    ensures NoSharedNonce(s) ==> NoSharedNonce(t)
  {
  }

  /** Marking one row keeps every row telling the truth, if the mark itself is true. */
  lemma MarkKeepsRows(s: State, t: State, id: BundleId, status: Status, wrote: bool)
    requires DurableFirst(s) && id in s.table && t.table == SetStatus(s.table, id, status, wrote)
    requires t.sent == s.sent && s.dead <= t.dead <= s.dead + {id} && s.head <= t.head
    requires status == Cancelled ==> id in t.dead || id !in s.sent
    requires status in {Expired, Reconciled} ==> s.table[id].target <= t.head
    ensures DurableFirst(t)
  {
    forall k | k in t.sent
      ensures RowTells(t, k)
    {
      assert RowTells(s, k);
    }
  }

  lemma SameRowsStillTell(s: State, t: State)
    requires DurableFirst(s) && t.table == s.table && t.sent == s.sent && t.dead == s.dead && s.head <= t.head
    ensures DurableFirst(t)
  {
    forall k | k in t.sent
      ensures RowTells(t, k)
    {
      assert RowTells(s, k);
    }
  }

  // ------------------------------------------------------------------
  // Steps off the lane
  // ------------------------------------------------------------------

  /** What an off-lane step may change: clocks go up, rows may be retired once their target passed. */
  ghost predicate Quiet(s: State, t: State)
  {
    && t.sent == s.sent && t.dead == s.dead && s.head <= t.head
    && s.nonce <= t.nonce && s.blockedUntil <= t.blockedUntil && t.table.Keys == s.table.Keys
    && (forall id :: id in s.table ==>
          t.table[id] == s.table[id]
          || (t.table[id] == s.table[id].(status := Reconciled) && s.table[id].target <= t.head))
  }

  lemma QuietKeepsLane(s: State, t: State, lane: Lane)
    requires Quiet(s, t) && LaneInv(s, lane)
    ensures LaneInv(t, lane)
  {
    FewerLive(s, t);
    match lane {
      case Free =>
      case Entered(_, _) =>
      case Admitted(_) =>
      case Holding(_, _) =>
      case Cleared(_, _) =>
      case Durable(job, _) => assert job.bundle.id in s.table;
      case Pinned(job, _) => assert job.bundle.id in s.table;
      case Funded(job, _, _, _) => assert job.bundle.id in s.table;
      case OnWire(_, _) =>
      case Refused(_, _) =>
      case Sweeping(queue) => QuietKeepsShelter(s, t, queue);
    }
  }

  lemma QuietKeepsShelter(s: State, t: State, queue: seq<BundleId>)
    requires Quiet(s, t) && LeavesOutNoDanger(s, queue)
    ensures LeavesOutNoDanger(t, queue)
  {
    FewerLive(s, t);
    forall id | Live(t, id) && !Blocked(t, id) && id !in queue
      ensures Sheltered(t, queue, id)
    {
      assert Live(s, id) && Sheltered(s, queue, id);
      var height :| s.sent[id].End() <= height <= s.nonce && HoldsAt(s.table, queue, height);
      assert HoldsAt(t.table, queue, height);
    }
  }

  lemma OffLaneIsQuiet(s: State, e: Event)
    requires e.OffLane()
    ensures Quiet(s, Step(s, e)) && Step(s, e).phase == s.phase
  {
  }

  lemma QuietKeepsRows(s: State, t: State)
    requires DurableFirst(s) && Quiet(s, t)
    ensures DurableFirst(t)
  {
    forall k | k in t.sent
      ensures RowTells(t, k)
    {
      assert RowTells(s, k);
    }
  }

  lemma OffLaneKeeps(s: State, e: Event)
    requires NonceInv(s) && e.OffLane()
    ensures NonceInv(Step(s, e))
  {
    var t := Step(s, e);
    OffLaneIsQuiet(s, e);
    hide Step;
    FewerLive(s, t);
    QuietKeepsRows(s, t);
    if s.phase.Up? {
      QuietKeepsLane(s, t, s.phase.lane);
    }
  }

  // ------------------------------------------------------------------
  // Boot, recovery and sweeps
  // ------------------------------------------------------------------

  lemma LiveRowsAreActive(s: State, id: BundleId)
    requires DurableFirst(s) && Live(s, id)
    ensures id in s.table && s.table[id].Active() && s.head < s.table[id].target
  {
    assert RowTells(s, id);
  }

  lemma BootKeeps(s: State, e: Event)
    requires NonceInv(s) && e.Boot? && ReadsEnough(s, e)
    ensures NonceInv(Step(s, e))
  {
    var t := Step(s, e);
    FewerLive(s, t);
    SameRowsStillTell(s, t);
  }

  /** The head of a list is worked off: it is dead, or blocked through its target, or past. */
  lemma WorkedOff(s: State, t: State, queue: seq<BundleId>)
    requires queue != [] && ListedOrBlocked(s, queue) && t.table.Keys == s.table.Keys
    requires t.sent == s.sent && s.dead <= t.dead && s.head <= t.head && s.blockedUntil <= t.blockedUntil
    requires Live(t, queue[0]) ==> Blocked(t, queue[0])
    ensures ListedOrBlocked(t, queue[1..])
  {
    FewerLive(s, t);
    assert forall id :: id in queue ==> id == queue[0] || id in queue[1..];
  }

  lemma RecoverKeeps(s: State, acked: bool, wrote: bool)
    requires NonceInv(s)
    ensures NonceInv(StepRecover(s, acked, wrote))
  {
    var t := StepRecover(s, acked, wrote);
    if t != s {
      var id := s.phase.pending[0];
      FewerLive(s, t);
      var status := if s.table[id].target < s.head then Expired else if acked then Cancelled else RecoveryBlocked;
      assert t.table == SetStatus(s.table, id, status, wrote) && t.phase == Booting(s.phase.pending[1..]);
      assert s.blockedUntil <= t.blockedUntil && (status == RecoveryBlocked ==> s.table[id].target <= t.blockedUntil);
      assert t.dead == if status == Cancelled then s.dead + {id} else s.dead;
      hide StepRecover;
      MarkKeepsRows(s, t, id, status, wrote);
      assert id in s.sent ==> RowTells(s, id);
      WorkedOff(s, t, s.phase.pending);
    }
  }

  /** The head of a sweep's list is worked off: the same, and what is sheltered stays so, as a
      height the head does not reach across stops the counter. */
  lemma SweptOff(s: State, t: State, queue: seq<BundleId>)
    requires queue != [] && LeavesOutNoDanger(s, queue) && t.sent == s.sent && s.dead <= t.dead && s.head <= t.head
    requires s.blockedUntil <= t.blockedUntil && t.table.Keys == s.table.Keys && queue[0] in s.table
    requires forall id :: id in s.table ==> t.table[id].start == s.table[id].start && t.table[id].count == s.table[id].count
    requires t.nonce == s.nonce || (s.nonce == End(s.table[queue[0]]) && t.nonce == s.table[queue[0]].start)
    requires Live(t, queue[0]) ==> Blocked(t, queue[0])
    ensures LeavesOutNoDanger(t, queue[1..])
  {
    FewerLive(s, t);
    assert forall id :: id in queue ==> id == queue[0] || id in queue[1..];
    assert queue[0] in queue;
    forall id | Live(t, id) && !Blocked(t, id) && id !in queue[1..]
      ensures Sheltered(t, queue[1..], id)
    {
      assert id != queue[0] && Sheltered(s, queue, id);
      var height :| s.sent[id].End() <= height <= s.nonce && HoldsAt(s.table, queue, height);
      assert HoldsAt(t.table, queue[1..], height);
    }
  }

  lemma SweepKeeps(s: State, acked: bool, wrote: bool)
    requires NonceInv(s)
    ensures NonceInv(StepSweep(s, acked, wrote))
  {
    var t := StepSweep(s, acked, wrote);
    if t != s {
      var queue := s.phase.lane.queue;
      var id := queue[0];
      SweepChanges(s, acked, wrote);
      hide StepSweep;
      FewerLive(s, t);
      MarkKeepsRows(s, t, id, if acked then Cancelled else RecoveryBlocked, wrote);
      assert id in s.sent ==> RowTells(s, id);
      SweptOff(s, t, queue);
    }
  }

  lemma SweepChanges(s: State, acked: bool, wrote: bool)
    requires s.phase.Up? && s.phase.lane.Sweeping? && s.phase.lane.queue != [] && s.phase.lane.queue[0] in s.table
    ensures var (t, id) := (StepSweep(s, acked, wrote), s.phase.lane.queue[0]);
      && t.phase == Up(Sweeping(s.phase.lane.queue[1..]))
      && t.table == SetStatus(s.table, id, if acked then Cancelled else RecoveryBlocked, wrote)
      && t.sent == s.sent && t.head == s.head && t.dead == (if acked then s.dead + {id} else s.dead)
      && s.blockedUntil <= t.blockedUntil && (!acked ==> s.table[id].target <= t.blockedUntil)
      && t.nonce == (if acked && s.nonce == End(s.table[id]) then s.table[id].start else s.nonce)
  {
  }

  lemma StillNoDanger(s: State, t: State, rows: seq<BundleId>)
    requires LeavesOutNoDanger(s, rows) && t.sent == s.sent && t.dead == s.dead && t.head == s.head
    requires t.table == s.table && t.nonce == s.nonce && t.blockedUntil == s.blockedUntil
    ensures LeavesOutNoDanger(t, rows)
  {
    forall id | Live(t, id) && !Blocked(t, id) && id !in rows
      ensures Sheltered(t, rows, id)
    {
      assert Live(s, id) && Sheltered(s, rows, id);
      var height :| s.sent[id].End() <= height <= s.nonce && HoldsAt(s.table, rows, height);
    }
  }

  lemma SweepStartKeeps(s: State, rows: seq<BundleId>)
    requires NonceInv(s) && s.phase == Up(Free) && (Lists(s.table, rows) ==> LeavesOutNoDanger(s, rows))
    ensures NonceInv(StartSweep(s, rows))
  {
    var t := StartSweep(s, rows);
    if t != s {
      FewerLive(s, t);
      SameRowsStillTell(s, t);
      StillNoDanger(s, t, rows);
    }
  }

  lemma SwitchKeeps(s: State, on: bool, rows: seq<BundleId>)
    requires NonceInv(s) && ReadsEnough(s, SwitchMode(on, rows))
    ensures NonceInv(StepSwitch(s, on, rows))
  {
    if s.phase == Up(Free) {
      var t := s.(runtime := on);
      FewerLive(s, t);
      SameRowsStillTell(s, t);
      assert BelowOrBlocked(t);
      if !on && Lists(s.table, rows) {
        StillNoDanger(s, t, rows);
        SweepStartKeeps(t, rows);
      }
    }
  }

  // ------------------------------------------------------------------
  // A submission
  // ------------------------------------------------------------------

  /** Giving the newest reservation back leaves every live bundle below the counter. */
  lemma AbandonKeeps(s: State, job: Job, start: nat)
    requires DurableFirst(s) && NoSharedNonce(s) && HoldsRange(s, None, job, start)
    ensures NonceInv(s.Abandon(job, start))
  {
    var t := s.Abandon(job, start);
    FewerLive(s, t);
    SameRowsStillTell(s, t);
    assert BelowOrBlocked(t);
  }

  lemma CancelUnsentKeeps(s: State, job: Job, start: nat, wrote: bool)
    requires DurableFirst(s) && NoSharedNonce(s) && HoldsRange(s, None, job, start) && OwnRowFresh(s, job, start)
    ensures NonceInv(s.CancelUnsent(job, start, wrote))
  {
    var t := s.Mark(job.bundle.id, Cancelled, wrote);
    FewerLive(s, t);
    MarkKeepsRows(s, t, job.bundle.id, Cancelled, wrote);
    AbandonKeeps(t, job, start);
  }

  /** A step that only moves the lane on, in a state its new stage describes. */
  lemma LaneMoveKeeps(s: State, lane: Lane)
    requires DurableFirst(s) && NoSharedNonce(s) && LaneInv(s, lane)
    ensures NonceInv(s.AtLane(lane))
  {
    var t := s.AtLane(lane);
    FewerLive(s, t);
    SameRowsStillTell(s, t);
    QuietKeepsLane(s, t, lane);
  }

  /** Passing the gate means every live bundle ends at or below the counter: the ones blocked
      through their target are past it. */
  lemma GateKeeps(s: State, job: Job, head0: nat, qualified: bool, readable: bool)
    requires NonceInv(s) && s.phase == Up(Entered(job, head0))
    ensures NonceInv(StepGate(s, job, head0, qualified, readable))
  {
    LaneMoveKeeps(s, Free);
    if head0 > s.blockedUntil {
      assert OthersBelow(s, None, s.nonce);
      LaneMoveKeeps(s, Admitted(job));
    }
  }

  lemma ReserveKeeps(s: State, job: Job)
    requires NonceInv(s) && s.phase == Up(Admitted(job))
    ensures NonceInv(StepReserve(s, job))
  {
    if job.Legs() == 0 {
      LaneMoveKeeps(s, Free);
    } else {
      var t := s.(nonce := s.nonce + job.Legs());
      FewerLive(s, t);
      SameRowsStillTell(s, t);
      assert OthersBelow(t, None, s.nonce);
      LaneMoveKeeps(t, Holding(job, s.nonce));
    }
  }

  lemma HoldingKeeps(s: State, job: Job, start: nat, e: Event)
    requires NonceInv(s) && s.phase == Up(Holding(job, start))
    ensures NonceInv(StepReserving(s, e))
  {
    AbandonKeeps(s, job, start);
    if e.Resimulate? && e.rebuilt.Some? {
      LaneMoveKeeps(s, Holding(job.(bundle := e.rebuilt.value), start));
    }
    if e.Recheck? && job.bundle.firstNonce == start {
      LaneMoveKeeps(s, Cleared(job, start));
    }
    hide NonceInv;
  }

  /** The durable row is written under a fresh id, before anything is sent. */
  lemma PersistKeeps(s: State, job: Job, start: nat, wrote: bool)
    requires NonceInv(s) && s.phase == Up(Cleared(job, start))
    ensures NonceInv(StepPersist(s, job, start, wrote))
  {
    var id := job.bundle.id;
    if !wrote {
      AbandonKeeps(s, job, start);
    } else if id !in s.table {
      var t := s.(table := s.table[id := Reservation(start, job.Legs(), job.bundle.target, Reserved)]);
      FewerLive(s, t);
      assert id in s.sent ==> RowTells(s, id);
      forall k | k in t.sent
        ensures RowTells(t, k)
      {
        assert RowTells(s, k);
      }
      LaneMoveKeeps(t, Durable(job, start));
    }
  }

  lemma BudgetKeeps(s: State, job: Job, start: nat, qualified: bool, gas: Option<nat>, persisted: bool, wrote: bool)
    requires NonceInv(s) && s.phase == Up(Pinned(job, start))
    ensures NonceInv(StepBudget(s, job, start, qualified, gas, persisted, wrote))
  {
    CancelUnsentKeeps(s, job, start, wrote);
    LaneMoveKeeps(s, Funded(job, start, true, 0));
    var t := StepBudget(s, job, start, qualified, gas, persisted, wrote);
    if t.phase.lane.Funded? && !qualified {
      var u := s.(smokeUsed := t.smokeUsed, smokeGas := t.smokeGas);
      FewerLive(s, u);
      SameRowsStillTell(s, u);
      QuietKeepsLane(s, u, Pinned(job, start));
      LaneMoveKeeps(u, t.phase.lane);
    }
  }

  /** The send itself: every other live bundle ends at or below the first nonce used. */
  lemma SendKeeps(s: State, job: Job, start: nat, qualified: bool, gas: nat)
    requires NonceInv(s) && s.phase == Up(Funded(job, start, qualified, gas))
    ensures NonceInv(StepSend(s, job, start, qualified, gas))
  {
    var id := job.bundle.id;
    var t := StepSend(s, job, start, qualified, gas);
    forall k | k in t.sent
      ensures RowTells(t, k)
    {
      assert k != id ==> RowTells(s, k);
    }
    assert DurableFirst(t);
    assert forall k :: Live(t, k) && k != id ==> Live(s, k) && t.sent[k] == s.sent[k];
    assert OthersBelow(t, Some(id), start);
    forall a, b | Live(t, a) && Live(t, b) && a != b
      ensures Apart(t.sent[a], t.sent[b])
    {
      assert a != id && b != id ==> Apart(s.sent[a], s.sent[b]);
    }
  }

  lemma AnswerKeeps(s: State, job: Job, start: nat, accepted: bool, wrote: bool)
    requires NonceInv(s) && s.phase == Up(OnWire(job, start))
    ensures NonceInv(StepAnswer(s, job, start, accepted, wrote))
  {
    var t := s.Mark(job.bundle.id, Accepted, wrote);
    assert RowTells(s, job.bundle.id);
    FewerLive(s, t);
    MarkKeepsRows(s, t, job.bundle.id, Accepted, wrote);
    assert BelowOrBlocked(t);
    LaneMoveKeeps(t, Free);
    LaneMoveKeeps(s, Refused(job, start));
  }

  lemma CancelAnswerKeeps(s: State, job: Job, start: nat, acked: bool, wrote: bool)
    requires NonceInv(s) && s.phase == Up(Refused(job, start))
    ensures NonceInv(StepCancelAnswer(s, job, start, acked, wrote))
  {
    var id := job.bundle.id;
    assert RowTells(s, id);
    if acked {
      var t := s.(dead := s.dead + {id}).Mark(id, Cancelled, wrote);
      FewerLive(s, t);
      MarkKeepsRows(s, t, id, Cancelled, wrote);
      assert HoldsRange(t, None, job, start);
      AbandonKeeps(t, job, start);
    } else {
      var t := s.BlockUntil(job.bundle.target).Mark(id, RecoveryBlocked, wrote);
      FewerLive(s, t);
      MarkKeepsRows(s, t, id, RecoveryBlocked, wrote);
      assert BelowOrBlocked(t);
      LaneMoveKeeps(t, Free);
    }
  }

  lemma ReservingKeeps(s: State, e: Event)
    requires NonceInv(s) && s.phase.Up? && s.phase.lane.Reserving()
    ensures NonceInv(StepReserving(s, e))
  {
    hide StepGate, StepReserve, StepResimulate, StepRecheck;
    match (s.phase.lane, e) {
      case (Free, Enter(job)) => LaneMoveKeeps(s, Entered(job, s.head));
      case (Entered(job, head0), Gate(qualified, readable)) => GateKeeps(s, job, head0, qualified, readable);
      case (Admitted(job), Reserve) => ReserveKeeps(s, job);
      case (Holding(job, start), _) => HoldingKeeps(s, job, start, e);
      case _ =>
    }
  }

  lemma PinCheckKeeps(s: State, job: Job, start: nat, pinLive: bool, wrote: bool)
    requires NonceInv(s) && s.phase == Up(Durable(job, start))
    ensures NonceInv(StepPinCheck(s, job, start, pinLive, wrote))
  {
    if pinLive {
      LaneMoveKeeps(s, Pinned(job, start));
    } else {
      CancelUnsentKeeps(s, job, start, wrote);
    }
  }

  lemma SendingKeeps(s: State, e: Event)
    requires NonceInv(s) && s.phase.Up? && !s.phase.lane.Reserving()
    ensures NonceInv(StepSending(s, e))
  {
    hide StepPersist, StepPinCheck, StepBudget, StepSend, StepAnswer, StepCancelAnswer, NonceInv;
    match (s.phase.lane, e) {
      case (Cleared(job, start), Persist(wrote)) => PersistKeeps(s, job, start, wrote);
      case (Durable(job, start), PinCheck(pinLive, wrote)) => PinCheckKeeps(s, job, start, pinLive, wrote);
      case (Pinned(job, start), Budget(qualified, gas, persisted, wrote)) =>
        BudgetKeeps(s, job, start, qualified, gas, persisted, wrote);
      case (Funded(job, start, qualified, gas), Send) => SendKeeps(s, job, start, qualified, gas);
      case (OnWire(job, start), Answer(accepted, wrote)) => AnswerKeeps(s, job, start, accepted, wrote);
      case (Refused(job, start), CancelAnswer(acked, wrote)) => CancelAnswerKeeps(s, job, start, acked, wrote);
      case _ =>
    }
  }

  lemma SubmitKeeps(s: State, e: Event)
    requires NonceInv(s) && s.phase.Up?
    ensures NonceInv(StepSubmit(s, e))
  {
    hide StepReserving, StepSending, NonceInv;
    if s.phase.lane.Reserving() { ReservingKeeps(s, e); } else { SendingKeeps(s, e); }
  }

  // ------------------------------------------------------------------
  // Whole runs
  // ------------------------------------------------------------------

  lemma StepKeeps(s: State, e: Event)
    requires NonceInv(s) && ReadsEnough(s, e)
    ensures NonceInv(Step(s, e))
  {
    hide StepSubmit, StepSweep, StepRecover, StepSwitch, StartSweep, StepOffLane, StepBoot;
    if e.OffLane() {
      OffLaneKeeps(s, e);
    } else {
      match e {
        case Crash => FewerLive(s, s.(phase := Down)); SameRowsStillTell(s, s.(phase := Down));
        case Boot(_, _, _) => BootKeeps(s, e);
        case Recover(acked, wrote) => RecoverKeeps(s, acked, wrote);
        case Ready => FewerLive(s, s.AtLane(Free)); SameRowsStillTell(s, s.AtLane(Free));
        case SwitchMode(on, rows) => SwitchKeeps(s, on, rows);
        case PolicyChange(rows) => if s.phase == Up(Free) { SweepStartKeeps(s, rows); }
        case Sweep(acked, wrote) => SweepKeeps(s, acked, wrote);
        case SweepDone => FewerLive(s, s.AtLane(Free)); SameRowsStillTell(s, s.AtLane(Free));
        case _ => if s.phase.Up? { SubmitKeeps(s, e); }
      }
    }
  }

  /** Every read of the reservation table along the run returned enough. */
  ghost predicate ReadsSuffice(s: State, es: seq<Event>)
    decreases |es|
  {
    es == [] || (ReadsSuffice(s, es[..|es| - 1]) && ReadsEnough(Run(s, es[..|es| - 1]), es[|es| - 1]))
  }

  lemma {:induction false} RunKeeps(s: State, es: seq<Event>)
    requires NonceInv(s) && ReadsSuffice(s, es)
    ensures NonceInv(Run(s, es))
    decreases |es|
  {
    if es != [] {
      RunKeeps(s, es[..|es| - 1]);
      StepKeeps(Run(s, es[..|es| - 1]), es[|es| - 1]);
    }
  }

  /** Over every run, whatever crashes, restarts, refreshes, refusals and failed status writes it
      contains, two bundles that can still be mined never share a nonce. */
  lemma NoncesAreNeverShared(es: seq<Event>)
    requires ReadsSuffice(Genesis(), es)
    ensures NoSharedNonce(Run(Genesis(), es))
  {
    RunKeeps(Genesis(), es);
  }
}
