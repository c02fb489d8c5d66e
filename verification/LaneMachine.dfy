/** The live submission lane as a step machine. Every await point of the source is a boundary
    between steps; an event names a step and carries what the environment answered. An event that
    does not fit the current state changes nothing. */
module LaneMachine {
  import opened Arithmetic
  import opened Bundles
  import opened Chain
  import opened Wrappers

  /** A bundle id is a version 4 UUID: a fresh one for every bundle built. */
  type BundleId = nat

  // ------------------------------------------------------------------
  // Durable state
  // ------------------------------------------------------------------

  /** `Reconciled` stands for every terminal status the reconciliation pass writes. */
  datatype Status = Reserved | Accepted | Cancelled | RecoveryBlocked | Expired | Reconciled

  datatype Reservation = Reservation(start: nat, count: nat, target: nat, status: Status)
  {
    predicate Active()
    {
      status in {Reserved, Accepted, RecoveryBlocked}
    }
  }

  type Table = map<BundleId, Reservation>

  function SetStatus(table: Table, id: BundleId, status: Status, wrote: bool): Table
  {
    if wrote && id in table then table[id := table[id].(status := status)] else table
  }

  /** What a read of the active reservations may return: some of them, each once. Rows that do not
      decode are dropped, and a read that fails is taken for an empty one. */
  predicate Lists(table: Table, rows: seq<BundleId>)
  {
    && (forall i :: 0 <= i < |rows| ==> rows[i] in table && table[rows[i]].Active())
    && (forall i, j :: 0 <= i < j < |rows| ==> rows[i] != rows[j])
  }

  // ------------------------------------------------------------------
  // Process state
  // ------------------------------------------------------------------

  datatype Config = Config(armed: bool, broadcastEnabled: bool, rawMode: bool, smokeMax: nat, smokeGasCap: nat)

  /** A bundle record: `firstNonce` is the nonce it was built and signed with. */
  datatype Bundle = Bundle(id: BundleId, firstNonce: nat, target: nat)

  datatype Job = Job(opp: Opportunity, bundle: Bundle)
  {
    function Legs(): nat
    {
      Bundles.Legs(opp)
    }

    function End(): nat
    {
      bundle.firstNonce + Legs()
    }
  }

  datatype Lane =
    | Free
    | Entered(job: Job, head0: nat)
    | Admitted(job: Job)
    | Holding(job: Job, start: nat)
    | Cleared(job: Job, start: nat)
    | Durable(job: Job, start: nat)
    | Pinned(job: Job, start: nat)
    | Funded(job: Job, start: nat, qualified: bool, gas: nat)
    | OnWire(job: Job, start: nat)
    | Refused(job: Job, start: nat)
    | Sweeping(queue: seq<BundleId>)
  {
    predicate Reserving()
    {
      Free? || Entered? || Admitted? || Holding?
    }
  }

  datatype Phase = Down | Booting(pending: seq<BundleId>) | Up(lane: Lane)

  /** `sent` holds every bundle ever handed to the relays and `dead` every id whose cancellation
      was acknowledged; the two `unqualified` fields sum the sends that bypassed qualification. */
  datatype State = State(
    phase: Phase, nonce: nat, blockedUntil: nat, cfg: Config, runtime: bool,
    table: Table, smokeUsed: nat, smokeGas: nat,
    head: nat, sent: map<BundleId, Job>, dead: set<BundleId>, unqualifiedSends: nat, unqualifiedGas: nat)
  {
    predicate LiveMode()
    {
      cfg.armed && runtime
    }

    /** `may_broadcast`: qualified, or a smoke slot (and in raw mode a gas budget) is left. */
    predicate MayBroadcast(qualified: bool, readable: bool)
    {
      qualified
      || (readable && 0 < cfg.smokeMax && smokeUsed < cfg.smokeMax
          && (!cfg.rawMode || (cfg.smokeGasCap != 0 && smokeGas < cfg.smokeGasCap)))
    }

    /** `release_nonces`: only the newest reservation is given back. */
    function Release(start: nat, count: nat): State
    {
      if nonce == start + count then this.(nonce := start) else this
    }

    function BlockUntil(target: nat): State
    {
      if blockedUntil < target then this.(blockedUntil := target) else this
    }

    function AtLane(lane: Lane): State
    {
      this.(phase := Up(lane))
    }

    function Mark(id: BundleId, status: Status, wrote: bool): State
    {
      this.(table := SetStatus(table, id, status, wrote))
    }

    /** Leave the lane, giving the nonces back. */
    function Abandon(job: Job, start: nat): State
    {
      Release(start, job.Legs()).AtLane(Free)
    }

    /** Leave the lane after the durable row was written. */
    function CancelUnsent(job: Job, start: nat, wrote: bool): State
    {
      Mark(job.bundle.id, Cancelled, wrote).Abandon(job, start)
    }
  }

  /** `try_consume_smoke_budget`: the counters after taking a slot, or `None`. The gas
      counter is a saturating 256-bit word. */
  function ConsumeSmoke(s: State, gas: nat): Option<(nat, nat)>
  {
    var next := Min(s.smokeGas + gas, U256_MAX);
    if s.cfg.smokeMax == 0 || s.smokeUsed >= s.cfg.smokeMax then None
    else if s.cfg.rawMode && (s.cfg.smokeGasCap == 0 || next > s.cfg.smokeGasCap) then None
    else Some((s.smokeUsed + 1, next))
  }

  // ------------------------------------------------------------------
  // Events
  // ------------------------------------------------------------------

  datatype Event =
    // the environment
    | HeadAdvance(height: nat)
    | ChainRefresh(pending: nat)
    | BlockBroadcast(target: nat)
    | Reconcile(id: BundleId)
    | Crash
    | Boot(cfg: Config, chainNonce: nat, rows: seq<BundleId>)
    | Recover(acked: bool, wrote: bool)
    | Ready
    // the operator and the risk policy
    | SwitchMode(on: bool, rows: seq<BundleId>)
    | PolicyChange(rows: seq<BundleId>)
    | Sweep(acked: bool, wrote: bool)
    | SweepDone
    // one submission
    | Enter(job: Job)
    | Gate(qualified: bool, readable: bool)
    | Reserve
    | Resimulate(rebuilt: Option<Bundle>)
    | Recheck(qualified: bool, readable: bool, riskOk: bool, funded: bool)
    | Persist(wrote: bool)
    | PinCheck(pinLive: bool, wrote: bool)
    | Budget(qualified: bool, gas: Option<nat>, persisted: bool, wrote: bool)
    | Send
    | Answer(accepted: bool, wrote: bool)
    | CancelAnswer(acked: bool, wrote: bool)
  {
    /** What can happen at any await without holding the lane. */
    predicate OffLane()
    {
      HeadAdvance? || ChainRefresh? || BlockBroadcast? || Reconcile?
    }
  }

  // ------------------------------------------------------------------
  // Steps
  // ------------------------------------------------------------------

  function StepOffLane(s: State, e: Event): State
    requires e.OffLane()
  {
    match e
    case HeadAdvance(height) => if s.head < height then s.(head := height) else s
    case ChainRefresh(pending) =>
      if s.phase.Up? && s.nonce < pending then s.(nonce := pending) else s
    case BlockBroadcast(target) => if s.phase.Up? then s.BlockUntil(target) else s
    case Reconcile(id) =>
      if s.phase.Up? && id in s.table && s.table[id].target <= s.head then s.Mark(id, Reconciled, true) else s
  }

  /** A new process: counter from the chain, nothing blocked, the rows it could read to recover. */
  function StepBoot(s: State, e: Event): State
    requires e.Boot?
  {
    if s.phase.Down? && Lists(s.table, e.rows) then
      s.(phase := Booting(e.rows), nonce := e.chainNonce, blockedUntil := 0, cfg := e.cfg, runtime := e.cfg.armed)
    else s
  }

  /** One turn of the boot recovery loop. */
  function StepRecover(s: State, acked: bool, wrote: bool): State
  {
    if !s.phase.Booting? || s.phase.pending == [] || s.phase.pending[0] !in s.table then s
    else
      var id := s.phase.pending[0];
      var next := s.(phase := Booting(s.phase.pending[1..]));
      var target := s.table[id].target;
      if target < s.head then next.Mark(id, Expired, wrote)
      else if acked then next.Mark(id, Cancelled, wrote).(dead := s.dead + {id})
      else next.BlockUntil(target).Mark(id, RecoveryBlocked, wrote)
  }

  /** Take the lane for a sweep over the reservations that could be read. */
  function StartSweep(s: State, rows: seq<BundleId>): State
  {
    if Lists(s.table, rows) then s.AtLane(Sweeping(rows)) else s
  }

  /** Under the lane: an unarmed process refuses to go live; a switch to simulation sweeps. */
  function StepSwitch(s: State, on: bool, rows: seq<BundleId>): State
  {
    if s.phase != Up(Free) || (on && !s.cfg.armed) then s
    else if on then s.(runtime := true)
    else if !Lists(s.table, rows) then s
    else StartSweep(s.(runtime := false), rows)
  }

  /** One turn of `cancel_active_submissions_locked`. */
  function StepSweep(s: State, acked: bool, wrote: bool): State
  {
    if !s.phase.Up? || !s.phase.lane.Sweeping? || s.phase.lane.queue == [] || s.phase.lane.queue[0] !in s.table then s
    else
      var id := s.phase.lane.queue[0];
      var row := s.table[id];
      var next := s.AtLane(Sweeping(s.phase.lane.queue[1..]));
      if acked then next.Mark(id, Cancelled, wrote).(dead := s.dead + {id}).Release(row.start, row.count)
      else next.BlockUntil(row.target).Mark(id, RecoveryBlocked, wrote)
  }

  /** The gate right after the lane is taken, against the head read on entry. */
  function StepGate(s: State, job: Job, head0: nat, qualified: bool, readable: bool): State
  {
    if s.LiveMode() && s.cfg.broadcastEnabled && s.MayBroadcast(qualified, readable)
       && head0 > s.blockedUntil && job.bundle.target > head0
    then s.AtLane(Admitted(job)) else s.AtLane(Free)
  }

  function StepReserve(s: State, job: Job): State
  {
    if job.Legs() == 0 then s.AtLane(Free)
    else s.(nonce := s.nonce + job.Legs()).AtLane(Holding(job, s.nonce))
  }

  /** A payload signed for another nonce is simulated again at the reserved one. */
  function StepResimulate(s: State, job: Job, start: nat, rebuilt: Option<Bundle>): State
  {
    if job.bundle.firstNonce == start then s
    else
      match rebuilt
      case Some(b) => if b.firstNonce == start then s.AtLane(Holding(job.(bundle := b), start)) else s
      case None => s.Abandon(job, start)
  }

  function StepRecheck(s: State, job: Job, start: nat, qualified: bool, readable: bool, allowed: bool): State
  {
    if job.bundle.firstNonce != start then s
    else if s.LiveMode() && s.MayBroadcast(qualified, readable) && allowed then s.AtLane(Cleared(job, start))
    else s.Abandon(job, start)
  }

  function StepPersist(s: State, job: Job, start: nat, wrote: bool): State
  {
    if job.bundle.id in s.table then s
    else if wrote then
      s.(table := s.table[job.bundle.id := Reservation(start, job.Legs(), job.bundle.target, Reserved)])
       .AtLane(Durable(job, start))
    else s.Abandon(job, start)
  }

  function StepPinCheck(s: State, job: Job, start: nat, pinLive: bool, wrote: bool): State
  {
    if pinLive then s.AtLane(Pinned(job, start)) else s.CancelUnsent(job, start, wrote)
  }

  /** An unqualified send takes a durable smoke slot, and in raw mode gas exposure, or is refused. */
  function StepBudget(s: State, job: Job, start: nat, qualified: bool, gas: Option<nat>, persisted: bool, wrote: bool): State
  {
    if qualified then s.AtLane(Funded(job, start, true, 0))
    else if s.cfg.rawMode && gas.None? then s.CancelUnsent(job, start, wrote)
    else
      var risk := if s.cfg.rawMode then gas.value else 0;
      match ConsumeSmoke(s, risk)
      case None => s.CancelUnsent(job, start, wrote)
      case Some(counters) =>
        if persisted then
          s.(smokeUsed := counters.0, smokeGas := counters.1).AtLane(Funded(job, start, false, risk))
        else s.CancelUnsent(job, start, wrote)
  }

  function StepSend(s: State, job: Job, start: nat, qualified: bool, gas: nat): State
  {
    s.(sent := s.sent[job.bundle.id := job],
       unqualifiedSends := s.unqualifiedSends + (if qualified then 0 else 1),
       unqualifiedGas := s.unqualifiedGas + (if qualified then 0 else gas))
     .AtLane(OnWire(job, start))
  }

  function StepAnswer(s: State, job: Job, start: nat, accepted: bool, wrote: bool): State
  {
    if accepted then s.Mark(job.bundle.id, Accepted, wrote).AtLane(Free) else s.AtLane(Refused(job, start))
  }

  function StepCancelAnswer(s: State, job: Job, start: nat, acked: bool, wrote: bool): State
  {
    if acked then s.(dead := s.dead + {job.bundle.id}).CancelUnsent(job, start, wrote)
    else s.BlockUntil(job.bundle.target).Mark(job.bundle.id, RecoveryBlocked, wrote).AtLane(Free)
  }

  /** Up to the checked reservation: nothing durable, nothing on the wire. */
  function StepReserving(s: State, e: Event): State
    requires s.phase.Up?
  {
    match (s.phase.lane, e)
    case (Free, Enter(job)) => s.AtLane(Entered(job, s.head))
    case (Entered(job, head0), Gate(qualified, readable)) => StepGate(s, job, head0, qualified, readable)
    case (Admitted(job), Reserve) => StepReserve(s, job)
    case (Holding(job, start), Resimulate(rebuilt)) => StepResimulate(s, job, start, rebuilt)
    case (Holding(job, start), Recheck(qualified, readable, riskOk, funded)) =>
      StepRecheck(s, job, start, qualified, readable, riskOk && funded)
    case _ => s
  }

  /** From the durable row to the relays' answer. */
  function StepSending(s: State, e: Event): State
    requires s.phase.Up?
  {
    match (s.phase.lane, e)
    case (Cleared(job, start), Persist(wrote)) => StepPersist(s, job, start, wrote)
    case (Durable(job, start), PinCheck(pinLive, wrote)) => StepPinCheck(s, job, start, pinLive, wrote)
    case (Pinned(job, start), Budget(qualified, gas, persisted, wrote)) =>
      StepBudget(s, job, start, qualified, gas, persisted, wrote)
    case (Funded(job, start, qualified, gas), Send) => StepSend(s, job, start, qualified, gas)
    case (OnWire(job, start), Answer(accepted, wrote)) => StepAnswer(s, job, start, accepted, wrote)
    case (Refused(job, start), CancelAnswer(acked, wrote)) => StepCancelAnswer(s, job, start, acked, wrote)
    case _ => s
  }

  /** One step of `submit_live_candidate`, from taking the lane to leaving it. */
  function StepSubmit(s: State, e: Event): State
    requires s.phase.Up?
  {
    if s.phase.lane.Reserving() then StepReserving(s, e) else StepSending(s, e)
  }

  function Step(s: State, e: Event): State
  {
    if e.OffLane() then StepOffLane(s, e)
    else
      match e
      case Crash => s.(phase := Down)
      case Boot(_, _, _) => StepBoot(s, e)
      case Recover(acked, wrote) => StepRecover(s, acked, wrote)
      case Ready => if s.phase == Booting([]) then s.AtLane(Free) else s
      case SwitchMode(on, rows) => StepSwitch(s, on, rows)
      case PolicyChange(rows) => if s.phase == Up(Free) then StartSweep(s, rows) else s
      case Sweep(acked, wrote) => StepSweep(s, acked, wrote)
      case SweepDone => if s.phase == Up(Sweeping([])) then s.AtLane(Free) else s
      case _ => if s.phase.Up? then StepSubmit(s, e) else s
  }

  function Run(s: State, es: seq<Event>): State
    decreases |es|
  {
    if es == [] then s else Step(Run(s, es[..|es| - 1]), es[|es| - 1])
  }

  /** Before the first process: an empty store and nothing on the wire. */
  function Genesis(): State
  {
    State(Down, 0, 0, Config(false, false, false, 0, 0), false, map[], 0, 0, 0, map[], {}, 0, 0)
  }

  lemma {:induction false} RunConcat(s: State, es: seq<Event>, fs: seq<Event>)
    ensures Run(s, es + fs) == Run(Run(s, es), fs)
    decreases |fs|
  {
    if fs == [] {
      assert es + fs == es;
    } else {
      var init := fs[..|fs| - 1];
      assert (es + fs)[..|es + fs| - 1] == es + init;
      RunConcat(s, es, init);
    }
  }

  lemma RunSnoc(s: State, es: seq<Event>, e: Event)
    ensures Run(s, es + [e]) == Step(Run(s, es), e)
  {
    assert (es + [e])[..|es + [e]| - 1] == es;
  }
}
