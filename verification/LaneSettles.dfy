/** Every reservation is settled before the lane is left. */
module LaneSettles {
  import opened LaneMachine

  /** No row is newly active, except, when status writes fail, the reserved range's own. */
  predicate NoNewActive(base: State, written: bool, t: State, job: Job)
  {
    forall id :: id in t.table && t.table[id].Active() && id !in base.table ==>
      !written && id == job.bundle.id && t.table[id].start == base.nonce && t.table[id].count == job.Legs()
  }

  /** The bundle never left: its row, if any, is cancelled, and the nonces are back unless the
      chain moved past them meanwhile. */
  ghost predicate Withdrawn(base: State, calm: bool, written: bool, t: State, job: Job)
  {
    && t.sent == base.sent && t.dead == base.dead && NoNewActive(base, written, t, job)
    && (calm ==> t.nonce == base.nonce)
  }

  /** The row reads `status`; after a failed write it reads what it did before. */
  predicate Reads(row: Reservation, status: Status, written: bool)
  {
    row.status == status || (!written && row.status in {Reserved, Reconciled})
  }

  /** A rebuilt bundle still serves the opportunity the lane was taken for. */
  predicate SameOpportunity(base: State, job: Job)
  {
    base.phase.Up? && base.phase.lane.Admitted? && job.opp == base.phase.lane.job.opp
  }

  function RangeEnd(base: State): nat
  {
    if base.phase.Up? && base.phase.lane.Admitted? then base.nonce + base.phase.lane.job.Legs() else base.nonce
  }

  /** The bundle went out at the reserved nonces under a durable row of its own. */
  ghost predicate WentOut(base: State, t: State, job: Job)
  {
    var id := job.bundle.id;
    && SameOpportunity(base, job) && t.sent == base.sent[id := job] && job.bundle.firstNonce == base.nonce
    && id in t.table && id !in base.table
    && t.table[id].start == base.nonce && t.table[id].count == job.Legs() && t.table[id].target == job.bundle.target
  }

  ghost predicate Settlement(base: State, calm: bool, written: bool, t: State, job: Job)
  {
    var id := job.bundle.id;
    || Withdrawn(base, calm, written, t, job)
    || (WentOut(base, t, job) && Reads(t.table[id], Accepted, written))
    || (WentOut(base, t, job) && Reads(t.table[id], Cancelled, written) && id in t.dead && (calm ==> t.nonce == base.nonce))
    || (WentOut(base, t, job) && Reads(t.table[id], RecoveryBlocked, written) && job.bundle.target <= t.blockedUntil)
  }

  ghost predicate Settled(base: State, calm: bool, written: bool, t: State)
  {
    exists job :: Settlement(base, calm, written, t, job)
  }

  /** The counter stands at the end of the range, or the chain pushed it on. */
  predicate RangeHeld(base: State, calm: bool, t: State, job: Job, start: nat)
  {
    && SameOpportunity(base, job) && start == base.nonce && 0 < job.Legs() && start + job.Legs() <= t.nonce
    && (calm ==> t.nonce == start + job.Legs())
  }

  /** How far a reservation made in `base` has come. */
  ghost predicate Stage(base: State, calm: bool, written: bool, t: State)
  {
    t.phase.Up? &&
    match t.phase.lane
    case Admitted(job) => t == base && 0 < job.Legs()
    case Holding(job, start) => RangeHeld(base, calm, t, job, start) && Unsent(base, t)
    case Cleared(job, start) => RangeHeld(base, calm, t, job, start) && Unsent(base, t) && job.bundle.firstNonce == start
    case Durable(job, start) => Persisted(base, calm, t, job, start)
    case Pinned(job, start) => Persisted(base, calm, t, job, start)
    case Funded(job, start, _, _) => Persisted(base, calm, t, job, start)
    case OnWire(job, start) => InFlight(base, calm, t, job, start)
    case Refused(job, start) => InFlight(base, calm, t, job, start)
    case Free => Settled(base, calm, written, t)
    case _ => false
  }

  ghost predicate InFlight(base: State, calm: bool, t: State, job: Job, start: nat)
  {
    && RangeHeld(base, calm, t, job, start) && WentOut(base, t, job)
    && t.table[job.bundle.id].status in {Reserved, Reconciled}
  }

  ghost predicate Unsent(base: State, t: State)
  {
    t.sent == base.sent && t.dead == base.dead && t.table.Keys == base.table.Keys
  }

  ghost predicate Persisted(base: State, calm: bool, t: State, job: Job, start: nat)
  {
    var id := job.bundle.id;
    && RangeHeld(base, calm, t, job, start) && job.bundle.firstNonce == start
    && t.sent == base.sent && t.dead == base.dead
    && id !in base.table && t.table.Keys == base.table.Keys + {id}
    && t.table[id].start == start && t.table[id].count == job.Legs() && t.table[id].target == job.bundle.target
    && t.table[id].status in {Reserved, Reconciled}
  }

  /** The process lives; with `written`, status writes succeed; in a calm run no refresh sees a
      nonce beyond the reserved range. */
  predicate Orderly(e: Event, calm: bool, written: bool, limit: nat)
  {
    && !e.Crash?
    && (written && e.PinCheck? ==> e.wrote) && (written && e.Budget? ==> e.wrote)
    && (written && e.Answer? ==> e.wrote) && (written && e.CancelAnswer? ==> e.wrote)
    && (calm && e.ChainRefresh? ==> e.pending <= limit)
  }

  // ------------------------------------------------------------------
  // Every step moves a reservation on or settles it
  // ------------------------------------------------------------------

  lemma Withdraw(base: State, calm: bool, written: bool, t: State, job: Job, start: nat)
    requires t.phase.Up? && RangeHeld(base, calm, t, job, start) && t.sent == base.sent && t.dead == base.dead
    requires NoNewActive(base, written, t, job)
    ensures Stage(base, calm, written, t.Abandon(job, start))
  {
    assert Settlement(base, calm, written, t.Abandon(job, start), job);
  }

  lemma CancelPersisted(base: State, calm: bool, written: bool, t: State, job: Job, start: nat, wrote: bool)
    requires t.phase.Up? && Persisted(base, calm, t, job, start) && (written ==> wrote)
    ensures Stage(base, calm, written, t.CancelUnsent(job, start, wrote))
  {
    Withdraw(base, calm, written, t.Mark(job.bundle.id, Cancelled, wrote), job, start);
  }

  lemma OffLaneStage(base: State, calm: bool, written: bool, t: State, e: Event)
    requires Stage(base, calm, written, t) && !t.phase.lane.Free? && !t.phase.lane.Admitted?
    requires e.OffLane() && Orderly(e, calm, written, RangeEnd(base))
    ensures Stage(base, calm, written, Step(t, e))
  {
  }

  lemma HoldingStage(base: State, calm: bool, written: bool, t: State, e: Event)
    requires Stage(base, calm, written, t) && t.phase.lane.Holding?
    ensures Stage(base, calm, written, StepReserving(t, e))
  {
    var job, start := t.phase.lane.job, t.phase.lane.start;
    Withdraw(base, calm, written, t, job, start);
    hide Withdrawn, Settled;
  }

  lemma PersistStage(base: State, calm: bool, written: bool, t: State, wrote: bool)
    requires Stage(base, calm, written, t) && t.phase.lane.Cleared?
    ensures Stage(base, calm, written, StepPersist(t, t.phase.lane.job, t.phase.lane.start, wrote))
  {
    Withdraw(base, calm, written, t, t.phase.lane.job, t.phase.lane.start);
    hide Withdrawn, Settled;
  }

  lemma BudgetStage(base: State, calm: bool, written: bool, t: State, e: Event)
    requires Stage(base, calm, written, t) && t.phase.lane.Pinned? && e.Budget? && (written ==> e.wrote)
    ensures Stage(base, calm, written, StepBudget(t, t.phase.lane.job, t.phase.lane.start, e.qualified, e.gas, e.persisted, e.wrote))
  {
    CancelPersisted(base, calm, written, t, t.phase.lane.job, t.phase.lane.start, e.wrote);
    hide Withdrawn, Settled;
  }

  lemma PinStage(base: State, calm: bool, written: bool, t: State, pinLive: bool, wrote: bool)
    requires Stage(base, calm, written, t) && t.phase.lane.Durable? && (written ==> wrote)
    ensures Stage(base, calm, written, StepPinCheck(t, t.phase.lane.job, t.phase.lane.start, pinLive, wrote))
  {
    CancelPersisted(base, calm, written, t, t.phase.lane.job, t.phase.lane.start, wrote);
    hide Withdrawn, Settled;
  }

  lemma SendStage(base: State, calm: bool, written: bool, t: State)
    requires Stage(base, calm, written, t) && t.phase.lane.Funded?
    ensures var lane := t.phase.lane; Stage(base, calm, written, StepSend(t, lane.job, lane.start, lane.qualified, lane.gas))
  {
  }

  lemma AnswerStage(base: State, calm: bool, written: bool, t: State, accepted: bool, wrote: bool)
    requires Stage(base, calm, written, t) && t.phase.lane.OnWire? && (written ==> wrote)
    ensures Stage(base, calm, written, StepAnswer(t, t.phase.lane.job, t.phase.lane.start, accepted, wrote))
  {
    var job, start := t.phase.lane.job, t.phase.lane.start;
    assert accepted ==> Settlement(base, calm, written, StepAnswer(t, job, start, accepted, wrote), job);
  }

  lemma CancelAnswerStage(base: State, calm: bool, written: bool, t: State, acked: bool, wrote: bool)
    requires Stage(base, calm, written, t) && t.phase.lane.Refused? && (written ==> wrote)
    ensures Stage(base, calm, written, StepCancelAnswer(t, t.phase.lane.job, t.phase.lane.start, acked, wrote))
  {
    var job, start := t.phase.lane.job, t.phase.lane.start;
    assert Settlement(base, calm, written, StepCancelAnswer(t, job, start, acked, wrote), job);
  }

  lemma SendingStage(base: State, calm: bool, written: bool, t: State, e: Event)
    requires Stage(base, calm, written, t) && !t.phase.lane.Reserving() && Orderly(e, calm, written, RangeEnd(base))
    ensures Stage(base, calm, written, StepSending(t, e))
  {
    hide StepPersist, StepPinCheck, StepBudget, StepSend, StepAnswer, StepCancelAnswer, Settled, Persisted, InFlight;
    match (t.phase.lane, e) {
      case (Cleared(_, _), Persist(wrote)) => PersistStage(base, calm, written, t, wrote);
      case (Durable(_, _), PinCheck(pinLive, wrote)) => PinStage(base, calm, written, t, pinLive, wrote);
      case (Pinned(_, _), Budget(_, _, _, _)) => BudgetStage(base, calm, written, t, e);
      case (Funded(_, _, _, _), Send) => SendStage(base, calm, written, t);
      case (OnWire(_, _), Answer(accepted, wrote)) => AnswerStage(base, calm, written, t, accepted, wrote);
      case (Refused(_, _), CancelAnswer(acked, wrote)) => CancelAnswerStage(base, calm, written, t, acked, wrote);
      case _ =>
    }
  }

  lemma StepStage(base: State, calm: bool, written: bool, t: State, e: Event)
    requires Stage(base, calm, written, t) && !t.phase.lane.Free? && !t.phase.lane.Admitted?
    requires Orderly(e, calm, written, RangeEnd(base))
    ensures Stage(base, calm, written, Step(t, e))
  {
    hide StepReserving, StepSending, StepOffLane;
    if e.OffLane() {
      OffLaneStage(base, calm, written, t, e);
    } else if t.phase.lane.Holding? {
      HoldingStage(base, calm, written, t, e);
    } else {
      SendingStage(base, calm, written, t, e);
    }
  }

  // ------------------------------------------------------------------
  // What other tasks do meanwhile
  // ------------------------------------------------------------------

  ghost predicate AllOffLane(noise: seq<Event>)
  {
    forall e :: e in noise ==> e.OffLane()
  }

  /** No refresh sees a nonce beyond `limit`. */
  ghost predicate CalmNoise(noise: seq<Event>, limit: nat)
  {
    forall e :: e in noise && e.ChainRefresh? ==> e.pending <= limit
  }

  /** Off-lane work moves clocks and retires rows; it sends nothing and leaves the lane alone. */
  lemma {:induction false} NoiseIsQuiet(s: State, noise: seq<Event>)
    requires AllOffLane(noise)
    ensures var t := Run(s, noise);
      && t.phase == s.phase && t.sent == s.sent && t.dead == s.dead && t.table.Keys == s.table.Keys
      && t.runtime == s.runtime && t.cfg == s.cfg && t.smokeUsed == s.smokeUsed && t.smokeGas == s.smokeGas
      && t.unqualifiedSends == s.unqualifiedSends && t.unqualifiedGas == s.unqualifiedGas
      && s.nonce <= t.nonce && s.head <= t.head && s.blockedUntil <= t.blockedUntil
      && (forall id :: id in t.table ==>
            t.table[id] == s.table[id] || t.table[id] == s.table[id].(status := Reconciled))
    decreases |noise|
  {
    if noise != [] {
      NoiseIsQuiet(s, noise[..|noise| - 1]);
      var u, e := Run(s, noise[..|noise| - 1]), noise[|noise| - 1];
      assert e.OffLane();
    }
  }

  lemma {:induction false} NoiseKeepsStage(base: State, calm: bool, written: bool, t: State, noise: seq<Event>)
    requires Stage(base, calm, written, t) && !t.phase.lane.Free? && !t.phase.lane.Admitted?
    requires AllOffLane(noise) && (calm ==> CalmNoise(noise, RangeEnd(base)))
    ensures Stage(base, calm, written, Run(t, noise)) && Run(t, noise).phase == t.phase
    decreases |noise|
  {
    if noise != [] {
      var init := noise[..|noise| - 1];
      assert forall e :: e in init ==> e in noise;
      NoiseKeepsStage(base, calm, written, t, init);
      NoiseIsQuiet(t, noise);
      assert noise[|noise| - 1] in noise;
      OffLaneStage(base, calm, written, Run(t, init), noise[|noise| - 1]);
    }
  }

  // ------------------------------------------------------------------
  // Whole submissions
  // ------------------------------------------------------------------

  predicate LaneHeld(s: State)
  {
    s.phase.Up? && !s.phase.lane.Free?
  }

  /** The lane is not left before the end of `es`. */
  ghost predicate Busy(s: State, es: seq<Event>)
    decreases |es|
  {
    es == [] || (Busy(s, es[..|es| - 1]) && LaneHeld(Run(s, es[..|es| - 1])))
  }

  lemma {:induction false} SubmissionStages(base: State, calm: bool, written: bool, es: seq<Event>)
    requires base.phase.Up? && base.phase.lane.Admitted? && 0 < base.phase.lane.job.Legs()
    requires es != [] && es[0] == Reserve && Busy(base, es)
    requires forall e :: e in es ==> Orderly(e, calm, written, RangeEnd(base))
    ensures Stage(base, calm, written, Run(base, es)) && !Run(base, es).phase.lane.Admitted?
    decreases |es|
  {
    var init, last := es[..|es| - 1], es[|es| - 1];
    assert last in es;
    if init == [] {
      assert Run(base, init) == base;
    } else {
      SubmissionStages(base, calm, written, init);
      StepStage(base, calm, written, Run(base, init), last);
      StaysPastAdmission(Run(base, init), last);
    }
  }

  lemma StaysPastAdmission(t: State, e: Event)
    requires LaneHeld(t) && !t.phase.lane.Admitted? && !t.phase.lane.Entered? && !t.phase.lane.Sweeping?
    ensures Step(t, e).phase.Up? ==> !Step(t, e).phase.lane.Admitted?
  {
  }

  /** A reservation is settled on every path through the lane, whatever else happens meanwhile:
      the bundle is out and its row says accepted; or nothing of it remains and the nonces are
      back (when no refresh went past them); or it could not be recalled, and broadcasting is
      blocked through its target. A failed status write only leaves the row as it read before. */
  lemma EveryReservationSettles(base: State, calm: bool, written: bool, es: seq<Event>)
    requires base.phase.Up? && base.phase.lane.Admitted? && 0 < base.phase.lane.job.Legs()
    requires es != [] && es[0] == Reserve && Busy(base, es)
    requires forall e :: e in es ==> Orderly(e, calm, written, RangeEnd(base))
    requires Run(base, es).phase == Up(Free)
    ensures Settled(base, calm, written, Run(base, es))
  {
    SubmissionStages(base, calm, written, es);
  }
}
