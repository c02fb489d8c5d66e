/** Within one process: reserved ranges stay apart and end at or below the counter, from any table
    that has a floor under the counter no range reaches across. */
module LaneCover {
  import opened LaneMachine
  import opened LaneSafety
  import opened Wrappers

  predicate Queued(s: State, id: BundleId)
  {
    s.phase.Up? && s.phase.lane.Sweeping? && id in s.phase.lane.queue
  }

  /** A range not known to be free: its row is active, or its bundle can still be mined, or a sweep
      still has to get to it. */
  ghost predicate Outstanding(s: State, id: BundleId)
  {
    id in s.table && (s.table[id].Active() || Live(s, id) || Queued(s, id))
  }

  /** Two ranges from the floor up do not overlap. */
  predicate ApartAbove(a: Reservation, b: Reservation, floor: nat)
  {
    floor <= a.start && floor <= b.start ==> End(a) <= b.start || End(b) <= a.start
  }

  /** The outstanding ranges from the floor up are pairwise disjoint. */
  ghost predicate AllApart(s: State, floor: nat)
  {
    forall a, b :: Outstanding(s, a) && Outstanding(s, b) && a != b ==> ApartAbove(s.table[a], s.table[b], floor)
  }

  /** A range stays clear of the floor from below, or lies between it and the limit. */
  predicate Placed(row: Reservation, floor: nat, limit: nat)
  {
    0 < row.count && (End(row) < floor || (floor <= row.start && End(row) <= limit))
  }

  ghost predicate EndBelow(s: State, floor: nat, own: Option<BundleId>, limit: nat)
  {
    floor <= limit && forall id :: Outstanding(s, id) && own != Some(id) ==> Placed(s.table[id], floor, limit)
  }

  predicate OwnRow(s: State, job: Job, start: nat)
  {
    var id := job.bundle.id;
    id in s.table && s.table[id].start == start && s.table[id].count == job.Legs()
  }

  ghost predicate LaneCovers(s: State, floor: nat, lane: Lane)
  {
    match lane
    case Free => EndBelow(s, floor, None, s.nonce)
    case Entered(_, _) => EndBelow(s, floor, None, s.nonce)
    case Admitted(_) => EndBelow(s, floor, None, s.nonce)
    case Holding(job, start) => Above(s, floor, None, job, start)
    case Cleared(job, start) => Above(s, floor, None, job, start)
    case Durable(job, start) => Above(s, floor, Some(job.bundle.id), job, start) && OwnRow(s, job, start) && job.bundle.id !in s.sent
    case Pinned(job, start) => Above(s, floor, Some(job.bundle.id), job, start) && OwnRow(s, job, start) && job.bundle.id !in s.sent
    case Funded(job, start, _, _) => Above(s, floor, Some(job.bundle.id), job, start) && OwnRow(s, job, start) && job.bundle.id !in s.sent
    case OnWire(job, start) => Above(s, floor, Some(job.bundle.id), job, start) && OwnRow(s, job, start)
    case Refused(job, start) => Above(s, floor, Some(job.bundle.id), job, start) && OwnRow(s, job, start)
    case Sweeping(queue) =>
      && EndBelow(s, floor, None, s.nonce) && (forall id :: id in queue ==> id in s.table)
      && (forall i, j :: 0 <= i < j < |queue| ==> queue[i] != queue[j])
  }

  /** The range in hand lies above every other outstanding one, at or below the counter. */
  ghost predicate Above(s: State, floor: nat, own: Option<BundleId>, job: Job, start: nat)
  {
    EndBelow(s, floor, own, start) && 0 < job.Legs() && start + job.Legs() <= s.nonce
  }

  ghost predicate CoverInv(s: State, floor: nat)
  {
    && AllApart(s, floor)
    && (forall id :: id in s.sent ==> id in s.table)
    && !s.phase.Booting?
    && (s.phase.Up? ==> LaneCovers(s, floor, s.phase.lane))
  }

  /** One process, whose cancellations reach the reservation table; other writes may fail. */
  predicate OneProcess(e: Event)
  {
    && !e.Boot?
    && (e.PinCheck? && !e.pinLive ==> e.wrote) && (e.Budget? ==> e.wrote)
    && (e.CancelAnswer? && e.acked ==> e.wrote) && (e.Sweep? && e.acked ==> e.wrote)
  }

  /** No range becomes outstanding, none moves. */
  ghost predicate Fewer(s: State, t: State)
  {
    && t.sent == s.sent
    && (forall id :: id in s.table ==> id in t.table)
    && (forall id :: id in s.table && id in t.table ==>
          t.table[id].start == s.table[id].start && t.table[id].count == s.table[id].count)
    && (forall id :: Outstanding(t, id) ==> Outstanding(s, id))
  }

  lemma FewerApart(s: State, t: State, floor: nat)
    requires AllApart(s, floor) && Fewer(s, t)
    ensures AllApart(t, floor)
  {
  }

  lemma FewerBelow(s: State, t: State, floor: nat, own: Option<BundleId>, limit: nat)
    requires EndBelow(s, floor, own, limit) && Fewer(s, t)
    ensures EndBelow(t, floor, own, limit)
  {
  }

  /** The lane's part looks at the outstanding ranges, the sends and the counter only. */
  lemma LaneStillCovers(s: State, t: State, floor: nat, lane: Lane)
    requires LaneCovers(s, floor, lane) && Fewer(s, t) && s.nonce <= t.nonce
    ensures LaneCovers(t, floor, lane)
  {
    match lane {
      case Holding(_, start) => FewerBelow(s, t, floor, None, start);
      case Cleared(_, start) => FewerBelow(s, t, floor, None, start);
      case Durable(job, start) => FewerBelow(s, t, floor, Some(job.bundle.id), start);
      case Pinned(job, start) => FewerBelow(s, t, floor, Some(job.bundle.id), start);
      case Funded(job, start, _, _) => FewerBelow(s, t, floor, Some(job.bundle.id), start);
      case OnWire(job, start) => FewerBelow(s, t, floor, Some(job.bundle.id), start);
      case Refused(job, start) => FewerBelow(s, t, floor, Some(job.bundle.id), start);
      case _ => FewerBelow(s, t, floor, None, s.nonce);
    }
  }

  lemma OffLaneFewer(s: State, e: Event)
    requires e.OffLane()
    ensures Fewer(s, Step(s, e)) && s.nonce <= Step(s, e).nonce && Step(s, e).phase == s.phase
  {
  }

  lemma OffLaneCovers(s: State, floor: nat, e: Event)
    requires CoverInv(s, floor) && e.OffLane()
    ensures CoverInv(Step(s, e), floor)
  {
    var t := Step(s, e);
    OffLaneFewer(s, e);
    hide Step, Outstanding;
    FewerApart(s, t, floor);
    if s.phase.Up? {
      LaneStillCovers(s, t, floor, s.phase.lane);
    }
    hide LaneCovers, AllApart;
  }

  lemma LaneMoveCovers(s: State, floor: nat, lane: Lane)
    requires AllApart(s, floor) && (forall id :: id in s.sent ==> id in s.table)
    requires LaneCovers(s, floor, lane) && (lane.Sweeping? ==> forall id :: id in lane.queue ==> Outstanding(s, id))
    ensures CoverInv(s.AtLane(lane), floor)
  {
    var t := s.AtLane(lane);
    assert Fewer(s, t);
    FewerApart(s, t, floor);
    LaneStillCovers(s, t, floor, lane);
  }

  // ------------------------------------------------------------------
  // Sweeps
  // ------------------------------------------------------------------

  /** The counter only drops to the start of a range that no other outstanding one reaches into. */
  lemma ReleaseStaysAbove(s: State, t: State, floor: nat, id: BundleId)
    requires AllApart(s, floor) && EndBelow(s, floor, None, s.nonce) && Outstanding(s, id)
    requires Fewer(s, t) && !Outstanding(t, id)
    requires t.nonce == s.Release(s.table[id].start, s.table[id].count).nonce
    ensures EndBelow(t, floor, None, t.nonce)
  {
    forall k | Outstanding(t, k)
      ensures Placed(t.table[k], floor, t.nonce)
    {
      assert Placed(s.table[k], floor, s.nonce) && Placed(s.table[id], floor, s.nonce);
      assert ApartAbove(s.table[k], s.table[id], floor);
    }
  }

  lemma SweepFewer(s: State, floor: nat, acked: bool, wrote: bool)
    requires CoverInv(s, floor) && s.phase.Up? && s.phase.lane.Sweeping? && s.phase.lane.queue != []
    requires acked ==> wrote
    ensures var (t, id) := (StepSweep(s, acked, wrote), s.phase.lane.queue[0]);
      Fewer(s, t) && Outstanding(s, id) && (acked ==> !Outstanding(t, id))
  {
    hide AllApart, EndBelow;
    assert s.phase.lane.queue[0] in s.table;
    SweepChanges(s, acked, wrote);
    hide StepSweep;
  }

  lemma SweepCovers(s: State, floor: nat, acked: bool, wrote: bool)
    requires CoverInv(s, floor) && (acked ==> wrote)
    ensures CoverInv(StepSweep(s, acked, wrote), floor)
  {
    var t := StepSweep(s, acked, wrote);
    if t != s {
      var id := s.phase.lane.queue[0];
      SweepFewer(s, floor, acked, wrote);
      SweepChanges(s, acked, wrote);
      assert t.nonce == if acked then s.Release(s.table[id].start, s.table[id].count).nonce else s.nonce;
      hide StepSweep, SetStatus;
      FewerApart(s, t, floor);
      if acked {
        ReleaseStaysAbove(s, t, floor, id);
      } else {
        FewerBelow(s, t, floor, None, s.nonce);
      }
      hide AllApart, EndBelow, Fewer, Outstanding;
    }
  }

  lemma SweepStartCovers(s: State, floor: nat, rows: seq<BundleId>)
    requires CoverInv(s, floor) && s.phase == Up(Free)
    ensures CoverInv(StartSweep(s, rows), floor)
  {
    if Lists(s.table, rows) {
      LaneMoveCovers(s, floor, Sweeping(rows));
    }
  }

  lemma SwitchCovers(s: State, floor: nat, on: bool, rows: seq<BundleId>)
    requires CoverInv(s, floor)
    ensures CoverInv(StepSwitch(s, on, rows), floor)
  {
    if s.phase == Up(Free) {
      var t := s.(runtime := on);
      assert Fewer(s, t);
      FewerApart(s, t, floor);
      LaneStillCovers(s, t, floor, Free);
      SweepStartCovers(t, floor, rows);
    }
  }

  // ------------------------------------------------------------------
  // A submission
  // ------------------------------------------------------------------

  /** Giving back a range that is outstanding no more. */
  lemma AbandonCovers(s: State, floor: nat, own: Option<BundleId>, job: Job, start: nat)
    requires AllApart(s, floor) && (forall id :: id in s.sent ==> id in s.table)
    requires Above(s, floor, own, job, start) && (own.Some? ==> !Outstanding(s, own.value))
    ensures CoverInv(s.Abandon(job, start), floor)
  {
    var t := s.Abandon(job, start);
    assert Fewer(s, t);
    FewerApart(s, t, floor);
    FewerBelow(s, t, floor, own, start);
  }

  lemma CancelCovers(s: State, floor: nat, job: Job, start: nat)
    requires AllApart(s, floor) && (forall id :: id in s.sent ==> id in s.table)
    requires s.phase.Up? && !s.phase.lane.Sweeping?
    requires Above(s, floor, Some(job.bundle.id), job, start) && (job.bundle.id in s.sent ==> job.bundle.id in s.dead)
    ensures CoverInv(s.CancelUnsent(job, start, true), floor)
  {
    var t := s.Mark(job.bundle.id, Cancelled, true);
    assert Fewer(s, t);
    FewerApart(s, t, floor);
    FewerBelow(s, t, floor, Some(job.bundle.id), start);
    AbandonCovers(t, floor, Some(job.bundle.id), job, start);
  }

  /** A range becomes outstanding above all others. */
  lemma NewRangeCovers(s: State, t: State, floor: nat, job: Job, start: nat)
    requires AllApart(s, floor) && Above(s, floor, Some(job.bundle.id), job, start) && t.nonce == s.nonce && OwnRow(t, job, start)
    requires forall id :: id in s.table ==> id in t.table
    requires forall id :: Outstanding(t, id) && id != job.bundle.id ==>
               Outstanding(s, id) && t.table[id].start == s.table[id].start && t.table[id].count == s.table[id].count
    ensures AllApart(t, floor) && Above(t, floor, Some(job.bundle.id), job, start) && EndBelow(t, floor, None, t.nonce)
  {
  }

  lemma PersistCovers(s: State, floor: nat, job: Job, start: nat, wrote: bool)
    requires CoverInv(s, floor) && s.phase == Up(Cleared(job, start))
    ensures CoverInv(StepPersist(s, job, start, wrote), floor)
  {
    var id := job.bundle.id;
    if !wrote {
      AbandonCovers(s, floor, None, job, start);
    } else if id !in s.table {
      var t := s.(table := s.table[id := Reservation(start, job.Legs(), job.bundle.target, Reserved)]);
      NewRangeCovers(s, t, floor, job, start);
      LaneMoveCovers(t, floor, Durable(job, start));
    }
  }

  lemma SendCovers(s: State, floor: nat, job: Job, start: nat, qualified: bool, gas: nat)
    requires CoverInv(s, floor) && s.phase == Up(Funded(job, start, qualified, gas))
    ensures CoverInv(StepSend(s, job, start, qualified, gas), floor)
  {
    var t := StepSend(s, job, start, qualified, gas);
    NewRangeCovers(s, t, floor, job, start);
  }

  lemma AnswerCovers(s: State, floor: nat, job: Job, start: nat, accepted: bool, wrote: bool)
    requires CoverInv(s, floor) && s.phase == Up(OnWire(job, start))
    ensures CoverInv(StepAnswer(s, job, start, accepted, wrote), floor)
  {
    var t := s.Mark(job.bundle.id, Accepted, wrote);
    NewRangeCovers(s, t, floor, job, start);
    LaneMoveCovers(t, floor, Free);
    LaneMoveCovers(s, floor, Refused(job, start));
  }

  lemma CancelAnswerCovers(s: State, floor: nat, job: Job, start: nat, acked: bool, wrote: bool)
    requires CoverInv(s, floor) && s.phase == Up(Refused(job, start)) && (acked ==> wrote)
    ensures CoverInv(StepCancelAnswer(s, job, start, acked, wrote), floor)
  {
    if acked {
      var t := s.(dead := s.dead + {job.bundle.id});
      assert Fewer(s, t);
      FewerApart(s, t, floor);
      FewerBelow(s, t, floor, Some(job.bundle.id), start);
      CancelCovers(t, floor, job, start);
    } else {
      var t := s.BlockUntil(job.bundle.target).Mark(job.bundle.id, RecoveryBlocked, wrote);
      NewRangeCovers(s, t, floor, job, start);
      LaneMoveCovers(t, floor, Free);
    }
  }

  lemma BudgetCovers(s: State, floor: nat, job: Job, start: nat, e: Event)
    requires CoverInv(s, floor) && s.phase == Up(Pinned(job, start)) && e.Budget? && e.wrote
    ensures CoverInv(StepBudget(s, job, start, e.qualified, e.gas, e.persisted, true), floor)
  {
    CancelCovers(s, floor, job, start);
    LaneMoveCovers(s, floor, Funded(job, start, true, 0));
    var t := StepBudget(s, job, start, e.qualified, e.gas, e.persisted, true);
    if t.phase.lane.Funded? && !e.qualified {
      var u := s.(smokeUsed := t.smokeUsed, smokeGas := t.smokeGas);
      assert Fewer(s, u);
      FewerApart(s, u, floor);
      LaneStillCovers(s, u, floor, Pinned(job, start));
      LaneMoveCovers(u, floor, t.phase.lane);
    }
  }

  lemma ReserveCovers(s: State, floor: nat, job: Job)
    requires CoverInv(s, floor) && s.phase == Up(Admitted(job))
    ensures CoverInv(StepReserve(s, job), floor)
  {
    var t := s.(nonce := s.nonce + job.Legs());
    assert Fewer(s, t);
    FewerApart(s, t, floor);
    FewerBelow(s, t, floor, None, s.nonce);
    LaneMoveCovers(s, floor, Free);
    if 0 < job.Legs() {
      LaneMoveCovers(t, floor, Holding(job, s.nonce));
    }
  }

  lemma HoldingCovers(s: State, floor: nat, job: Job, start: nat, e: Event)
    requires CoverInv(s, floor) && s.phase == Up(Holding(job, start))
    ensures CoverInv(StepReserving(s, e), floor)
  {
    AbandonCovers(s, floor, None, job, start);
    LaneMoveCovers(s, floor, Cleared(job, start));
    if e.Resimulate? && e.rebuilt.Some? {
      LaneMoveCovers(s, floor, Holding(job.(bundle := e.rebuilt.value), start));
    }
    hide CoverInv;
  }

  lemma ReservingCovers(s: State, floor: nat, e: Event)
    requires CoverInv(s, floor) && s.phase.Up? && s.phase.lane.Reserving()
    ensures CoverInv(StepReserving(s, e), floor)
  {
    hide StepReserve, StepResimulate, StepRecheck, AllApart, EndBelow, Outstanding;
    match (s.phase.lane, e) {
      case (Free, Enter(job)) => LaneMoveCovers(s, floor, Entered(job, s.head));
      case (Entered(job, _), Gate(_, _)) =>
        LaneMoveCovers(s, floor, Free);
        LaneMoveCovers(s, floor, Admitted(job));
      case (Admitted(job), Reserve) => ReserveCovers(s, floor, job);
      case (Holding(job, start), _) => HoldingCovers(s, floor, job, start, e);
      case _ =>
    }
  }

  lemma SendingCovers(s: State, floor: nat, e: Event)
    requires CoverInv(s, floor) && s.phase.Up? && !s.phase.lane.Reserving() && OneProcess(e)
    ensures CoverInv(StepSending(s, e), floor)
  {
    hide StepPersist, StepBudget, StepSend, StepAnswer, StepCancelAnswer, AllApart, EndBelow, Outstanding;
    match (s.phase.lane, e) {
      case (Cleared(job, start), Persist(wrote)) => PersistCovers(s, floor, job, start, wrote);
      case (Durable(job, start), PinCheck(_, _)) =>
        CancelCovers(s, floor, job, start);
        LaneMoveCovers(s, floor, Pinned(job, start));
      case (Pinned(job, start), Budget(_, _, _, _)) => BudgetCovers(s, floor, job, start, e);
      case (Funded(job, start, qualified, gas), Send) => SendCovers(s, floor, job, start, qualified, gas);
      case (OnWire(job, start), Answer(accepted, wrote)) => AnswerCovers(s, floor, job, start, accepted, wrote);
      case (Refused(job, start), CancelAnswer(acked, wrote)) => CancelAnswerCovers(s, floor, job, start, acked, wrote);
      case _ =>
    }
  }

  lemma SubmitCovers(s: State, floor: nat, e: Event)
    requires CoverInv(s, floor) && s.phase.Up? && OneProcess(e)
    ensures CoverInv(StepSubmit(s, e), floor)
  {
    hide StepReserving, StepSending, CoverInv;
    if s.phase.lane.Reserving() { ReservingCovers(s, floor, e); } else { SendingCovers(s, floor, e); }
  }

  // ------------------------------------------------------------------
  // Whole runs
  // ------------------------------------------------------------------

  lemma StepCovers(s: State, floor: nat, e: Event)
    requires CoverInv(s, floor) && OneProcess(e)
    ensures CoverInv(Step(s, e), floor)
  {
    hide StepSubmit, StepSweep, StepRecover, StepSwitch, StartSweep, StepOffLane, StepBoot;
    if e.OffLane() {
      OffLaneCovers(s, floor, e);
    } else {
      match e {
        case Crash =>
          assert Fewer(s, s.(phase := Down));
          FewerApart(s, s.(phase := Down), floor);
        case Recover(acked, wrote) => assert StepRecover(s, acked, wrote) == s by { NotBooting(s, acked, wrote); }
        case SwitchMode(on, rows) => SwitchCovers(s, floor, on, rows);
        case PolicyChange(rows) => if s.phase == Up(Free) { SweepStartCovers(s, floor, rows); }
        case Sweep(acked, wrote) => SweepCovers(s, floor, acked, wrote);
        case SweepDone => if s.phase == Up(Sweeping([])) { LaneMoveCovers(s, floor, Free); }
        case _ => if s.phase.Up? { SubmitCovers(s, floor, e); }
      }
    }
  }

  lemma NotBooting(s: State, acked: bool, wrote: bool)
    requires !s.phase.Booting?
    ensures StepRecover(s, acked, wrote) == s
  {
  }

  // ------------------------------------------------------------------
  // From the table
  // ------------------------------------------------------------------

  /** What the table and the counter alone have to show: the active ranges from the floor up are
      disjoint and end at or below the counter, all others end below the floor. Active ranges that
      are disjoint and end at or below the counter have the floor 0. */
  ghost predicate Founded(s: State, floor: nat)
  {
    && floor <= s.nonce
    && (forall id :: id in s.table && s.table[id].Active() ==> Placed(s.table[id], floor, s.nonce))
    && (forall a, b :: a in s.table && b in s.table && s.table[a].Active() && s.table[b].Active() && a != b ==>
          ApartAbove(s.table[a], s.table[b], floor))
  }

  lemma FoundedCovers(s: State, floor: nat)
    requires NonceInv(s) && s.phase == Up(Free) && Founded(s, floor)
    ensures CoverInv(s, floor)
  {
    forall id | Outstanding(s, id)
      ensures s.table[id].Active()
    {
      if Live(s, id) { LiveRowsAreActive(s, id); }
    }
    assert forall id :: id in s.sent ==> RowTells(s, id);
  }

  /** No bundle that can still be mined ends above the counter. */
  ghost predicate LiveBelow(s: State)
  {
    forall id :: Live(s, id) ==> s.sent[id].End() <= s.nonce
  }

  lemma CoveredIsBelow(s: State, floor: nat)
    requires NonceInv(s) && CoverInv(s, floor) && s.phase == Up(Free)
    ensures LiveBelow(s)
  {
    forall id | Live(s, id)
      ensures s.sent[id].End() <= s.nonce
    {
      assert RowTells(s, id) && Outstanding(s, id);
    }
  }

  /** A covered process is in no danger from any sweep, however little of the table it reads. */
  lemma CoveredReadsEnough(s: State, floor: nat, e: Event)
    requires NonceInv(s) && CoverInv(s, floor) && !e.Boot?
    ensures ReadsEnough(s, e)
  {
    if StartsSweep(e) && s.phase == Up(Free) && Lists(s.table, e.rows) {
      forall id | Live(s, id) && id !in e.rows
        ensures Sheltered(s, e.rows, id)
      {
        CoveredIsSheltered(s, floor, e.rows, id);
      }
    }
  }

  lemma CoveredIsSheltered(s: State, floor: nat, rows: seq<BundleId>, id: BundleId)
    requires NonceInv(s) && CoverInv(s, floor) && s.phase == Up(Free) && Lists(s.table, rows)
    requires Live(s, id) && id !in rows
    ensures Sheltered(s, rows, id)
  {
    assert RowTells(s, id) && Outstanding(s, id) && Placed(s.table[id], floor, s.nonce);
    var height := if End(s.table[id]) < floor then floor else End(s.table[id]);
    forall k | k in rows && k in s.table
      ensures End(s.table[k]) < height || height <= s.table[k].start
    {
      var i :| 0 <= i < |rows| && rows[i] == k;
      assert Outstanding(s, k) && Placed(s.table[k], floor, s.nonce) && ApartAbove(s.table[k], s.table[id], floor);
    }
    assert HoldsAt(s.table, rows, height);
  }

  lemma CoveredStepKeeps(s: State, floor: nat, e: Event)
    requires NonceInv(s) && CoverInv(s, floor) && OneProcess(e)
    ensures NonceInv(Step(s, e)) && CoverInv(Step(s, e), floor)
  {
    StepCovers(s, floor, e);
    hide Step, CoverInv, NonceInv, ReadsEnough;
    CoveredReadsEnough(s, floor, e);
    StepKeeps(s, e);
  }

  lemma {:induction false} RunCovers(s: State, floor: nat, es: seq<Event>)
    requires NonceInv(s) && CoverInv(s, floor) && forall e :: e in es ==> OneProcess(e)
    ensures NonceInv(Run(s, es)) && CoverInv(Run(s, es), floor)
    decreases |es|
  {
    hide NonceInv, CoverInv;
    if es != [] {
      RunCovers(s, floor, es[..|es| - 1]);
      CoveredStepKeeps(Run(s, es[..|es| - 1]), floor, es[|es| - 1]);
    }
  }

  /** A run that reads nothing reads enough. */
  lemma {:induction false} NothingReadIsEnough(s: State, es: seq<Event>)
    requires forall e :: e in es ==> !e.Boot? && !StartsSweep(e)
    ensures ReadsSuffice(s, es)
    decreases |es|
  {
    if es != [] {
      NothingReadIsEnough(s, es[..|es| - 1]);
    }
  }

  /** A process that comes up on a table with a floor keeps every bundle that can still be mined at
      or below the counter for as long as it runs, whatever the relays, the chain and the operator
      do, and however little of the table its sweeps can read; and no two of them share a nonce. */
  lemma OneProcessStaysCovered(s: State, floor: nat, es: seq<Event>)
    requires NonceInv(s) && s.phase == Up(Free) && Founded(s, floor)
    requires forall e :: e in es ==> OneProcess(e)
    ensures CoverInv(Run(s, es), floor) && NoSharedNonce(Run(s, es))
    ensures Run(s, es).phase == Up(Free) ==> LiveBelow(Run(s, es))
  {
    FoundedCovers(s, floor);
    RunCovers(s, floor, es);
    if Run(s, es).phase == Up(Free) {
      CoveredIsBelow(Run(s, es), floor);
    }
  }
}
