/** A clean send, and a run that shows where the guarantees of the counter end: it falls below a
    nonce still outstanding. */
module LaneRuns {
  import opened Bundles
  import opened LaneCover
  import opened LaneMachine
  import opened LaneSafety
  import opened Wrappers

  lemma {:induction false} RunFirst(s: State, es: seq<Event>)
    requires es != []
    ensures Run(s, es) == Run(Step(s, es[0]), es[1..])
    decreases |es|
  {
    assert es == [es[0]] + es[1..];
    RunConcat(s, [es[0]], es[1..]);
    RunSnoc(s, [], es[0]);
    assert [] + [es[0]] == [es[0]];
  }

  /** The events of a qualified submission that every check lets through. */
  function Approvals(): seq<Event>
  {
    [Gate(true, true), Reserve, Recheck(true, true, true, true), Persist(true),
     PinCheck(true, true), Budget(true, None, true, true), Send, Answer(true, true)]
  }

  predicate ReadyToSend(s: State, job: Job)
  {
    && s.phase == Up(Free) && s.LiveMode() && s.cfg.broadcastEnabled
    && s.blockedUntil < s.head < job.bundle.target
    && 0 < job.Legs() && job.bundle.firstNonce == s.nonce && job.bundle.id !in s.table
  }

  function AfterSend(s: State, job: Job): State
  {
    var row := Reservation(s.nonce, job.Legs(), job.bundle.target, Accepted);
    s.(nonce := s.nonce + job.Legs(), table := s.table[job.bundle.id := row], sent := s.sent[job.bundle.id := job])
  }

  function AfterPersist(s: State, job: Job): State
  {
    var row := Reservation(s.nonce, job.Legs(), job.bundle.target, Reserved);
    s.(nonce := s.nonce + job.Legs(), table := s.table[job.bundle.id := row]).AtLane(Durable(job, s.nonce))
  }

  function WithRange(s: State, job: Job, lane: Lane): State
  {
    s.(nonce := s.nonce + job.Legs()).AtLane(lane)
  }

  lemma ReservationSteps(s: State, job: Job)
    requires ReadyToSend(s, job)
    ensures Step(s, Enter(job)) == s.AtLane(Entered(job, s.head))
    ensures Step(s.AtLane(Entered(job, s.head)), Gate(true, true)) == s.AtLane(Admitted(job))
    ensures Step(s.AtLane(Admitted(job)), Reserve) == WithRange(s, job, Holding(job, s.nonce))
  {
  }

  lemma ClearanceSteps(s: State, job: Job)
    requires ReadyToSend(s, job)
    ensures Step(WithRange(s, job, Holding(job, s.nonce)), Recheck(true, true, true, true))
         == WithRange(s, job, Cleared(job, s.nonce))
    ensures Step(WithRange(s, job, Cleared(job, s.nonce)), Persist(true)) == AfterPersist(s, job)
  {
  }

  lemma CleanReservation(s: State, job: Job)
    requires ReadyToSend(s, job)
    ensures Run(s, [Enter(job)] + Approvals()[..4]) == AfterPersist(s, job)
  {
    ReservationSteps(s, job);
    ClearanceSteps(s, job);
    hide Step, AfterPersist, WithRange;
    var es := [Enter(job)] + Approvals()[..4];
    RunFirst(s, es);
    RunFirst(s.AtLane(Entered(job, s.head)), es[1..]);
    RunFirst(s.AtLane(Admitted(job)), es[2..]);
    RunFirst(WithRange(s, job, Holding(job, s.nonce)), es[3..]);
    RunFirst(WithRange(s, job, Cleared(job, s.nonce)), es[4..]);
    assert es[5..] == [];
  }

  function AfterHandOut(s: State, job: Job): State
  {
    AfterPersist(s, job).(sent := s.sent[job.bundle.id := job]).AtLane(OnWire(job, s.nonce))
  }

  lemma FundingSteps(s: State, job: Job)
    requires ReadyToSend(s, job)
    ensures var durable := AfterPersist(s, job);
      && Step(durable, PinCheck(true, true)) == durable.AtLane(Pinned(job, s.nonce))
      && Step(durable.AtLane(Pinned(job, s.nonce)), Budget(true, None, true, true))
         == durable.AtLane(Funded(job, s.nonce, true, 0))
  {
  }

  lemma BroadcastSteps(s: State, job: Job)
    requires ReadyToSend(s, job)
    ensures Step(AfterPersist(s, job).AtLane(Funded(job, s.nonce, true, 0)), Send) == AfterHandOut(s, job)
    ensures Step(AfterHandOut(s, job), Answer(true, true)) == AfterSend(s, job)
  {
    var row := Reservation(s.nonce, job.Legs(), job.bundle.target, Accepted);
    assert AfterHandOut(s, job).table[job.bundle.id := row] == s.table[job.bundle.id := row];
  }

  lemma CleanBroadcast(s: State, job: Job)
    requires ReadyToSend(s, job)
    ensures Run(AfterPersist(s, job), Approvals()[4..]) == AfterSend(s, job)
  {
    FundingSteps(s, job);
    BroadcastSteps(s, job);
    hide Step, AfterHandOut, AfterSend, AfterPersist;
    var es := Approvals()[4..];
    var durable := AfterPersist(s, job);
    RunFirst(durable, es);
    RunFirst(durable.AtLane(Pinned(job, s.nonce)), es[1..]);
    RunFirst(durable.AtLane(Funded(job, s.nonce, true, 0)), es[2..]);
    RunFirst(AfterHandOut(s, job), es[3..]);
    assert es[4..] == [];
  }

  /** Any bundle built at the counter for a coming block can be sent by a live, unblocked process. */
  lemma CleanSend(s: State, job: Job)
    requires ReadyToSend(s, job)
    ensures Run(s, [Enter(job)] + Approvals()) == AfterSend(s, job)
  {
    CleanReservation(s, job);
    CleanBroadcast(s, job);
    RunConcat(s, [Enter(job)] + Approvals()[..4], Approvals()[4..]);
    assert [Enter(job)] + Approvals() == [Enter(job)] + Approvals()[..4] + Approvals()[4..];
  }

  lemma {:induction false} Beyond(ids: set<BundleId>) returns (bound: BundleId)
    ensures forall id :: id in ids ==> id < bound
    decreases |ids|
  {
    if ids == {} {
      bound := 0;
    } else {
      var id :| id in ids;
      var rest := Beyond(ids - {id});
      assert forall k :: k in ids ==> k == id || k in ids - {id};
      bound := if id < rest then rest else id + 1;
    }
  }

  // ------------------------------------------------------------------
  // A counter below an outstanding nonce
  // ------------------------------------------------------------------

  const ARMED := Config(true, true, false, 0, 0)

  function Sample(legs: nat): Opportunity
    ensures 1 <= legs <= 2 ==> Legs(Sample(legs)) == legs
  {
    var call := [Call(0, 0, [])];
    Opportunity(0, call, if legs == 2 then call else [], [], [], 0, 0, 0)
  }

  const OLD := Job(Sample(2), Bundle(1, 10, 5))
  const FIRST := Job(Sample(1), Bundle(2, 10, 9))
  const SECOND := Job(Sample(1), Bundle(3, 11, 9))

  /** A process sends two nonces and dies. */
  function FirstProcess(): seq<Event>
  {
    [HeadAdvance(4), Boot(ARMED, 10, []), Ready] + ([Enter(OLD)] + Approvals()) + [Crash]
  }

  /** The next one cannot get that bundle cancelled, waits its target out, and sends two more at
      the nonces that fell free again. */
  function SecondProcess(): seq<Event>
  {
    [Boot(ARMED, 10, [1]), Recover(false, true), Ready, HeadAdvance(6)]
    + ([Enter(FIRST)] + Approvals()) + ([Enter(SECOND)] + Approvals())
  }

  /** A switch to simulation then acknowledges all but the newest, the stale one last. */
  function Switch(): seq<Event>
  {
    [SwitchMode(false, [3, 2, 1]), Sweep(false, true), Sweep(true, true), Sweep(true, true)]
  }

  function AfterFirst(): State
  {
    State(Down, 12, 0, ARMED, true, map[1 := Reservation(10, 2, 5, Accepted)], 0, 0, 4, map[1 := OLD], {}, 0, 0)
  }

  function AfterSecond(): State
  {
    State(Up(Free), 12, 5, ARMED, true,
          map[1 := Reservation(10, 2, 5, RecoveryBlocked), 2 := Reservation(10, 1, 9, Accepted), 3 := Reservation(11, 1, 9, Accepted)],
          0, 0, 6, map[1 := OLD, 2 := FIRST, 3 := SECOND], {}, 0, 0)
  }

  lemma FirstProcessRuns()
    ensures Run(Genesis(), FirstProcess()) == AfterFirst()
  {
    var boot := [HeadAdvance(4), Boot(ARMED, 10, []), Ready];
    var up := State(Up(Free), 10, 0, ARMED, true, map[], 0, 0, 4, map[], {}, 0, 0);
    var send := [Enter(OLD)] + Approvals();
    assert Run(Genesis(), boot) == up by {
      RunFirst(Genesis(), boot);
      RunFirst(Step(Genesis(), boot[0]), boot[1..]);
      RunFirst(Step(Step(Genesis(), boot[0]), boot[1]), boot[2..]);
      assert boot[3..] == [];
    }
    CleanSend(up, OLD);
    RunConcat(Genesis(), boot, send);
    RunSnoc(Genesis(), boot + send, Crash);
    assert AfterSend(up, OLD).(phase := Down) == AfterFirst();
  }

  function Recovered(): State
  {
    State(Up(Free), 10, 5, ARMED, true, map[1 := Reservation(10, 2, 5, RecoveryBlocked)], 0, 0, 6, map[1 := OLD], {}, 0, 0)
  }

  lemma RecoverySteps()
    ensures var s := AfterFirst();
      && Step(s, Boot(ARMED, 10, [1])) == s.(phase := Booting([1]), nonce := 10)
      && Step(s.(phase := Booting([1]), nonce := 10), Recover(false, true))
         == Recovered().(phase := Booting([]), head := 4)
  {
    var s := AfterFirst();
    var one: seq<BundleId> := [1];
    assert Lists(s.table, one);
    assert one[1..] == [];
    assert s.table[1 := Reservation(10, 2, 5, RecoveryBlocked)] == Recovered().table;
  }

  lemma Recovery()
    ensures Run(AfterFirst(), SecondProcess()[..4]) == Recovered()
  {
    RecoverySteps();
    var es := SecondProcess()[..4];
    var s := AfterFirst();
    RunFirst(s, es);
    RunFirst(s.(phase := Booting([1]), nonce := 10), es[1..]);
    RunFirst(Recovered().(phase := Booting([]), head := 4), es[2..]);
    RunFirst(Recovered().(head := 4), es[3..]);
    assert es[4..] == [];
  }

  lemma SecondProcessRuns()
    ensures Run(AfterFirst(), SecondProcess()) == AfterSecond()
  {
    var es := SecondProcess();
    var up := Recovered();
    Recovery();
    CleanSend(up, FIRST);
    var next := AfterSend(up, FIRST);
    CleanSend(next, SECOND);
    var first := [Enter(FIRST)] + Approvals();
    var second := [Enter(SECOND)] + Approvals();
    RunConcat(AfterFirst(), es[..4], first);
    RunConcat(AfterFirst(), es[..4] + first, second);
    assert es == es[..4] + first + second;
    assert AfterSend(next, SECOND) == AfterSecond();
  }

  lemma SweepSteps()
    ensures var off := AfterSecond().(runtime := false);
      && Step(AfterSecond(), SwitchMode(false, [3, 2, 1])) == off.AtLane(Sweeping([3, 2, 1]))
      && (var kept := StepSweep(off.AtLane(Sweeping([3, 2, 1])), false, true);
          && kept.phase == Up(Sweeping([2, 1])) && kept.table == off.table[3 := Reservation(11, 1, 9, RecoveryBlocked)]
          && kept == off.(phase := kept.phase, table := kept.table, blockedUntil := 9))
  {
    var s := AfterSecond();
    assert Lists(s.table, [3, 2, 1]);
    var queue: seq<BundleId> := [3, 2, 1];
    assert queue[1..] == [2, 1];
  }

  /** The newest of the two acknowledged ones is not on top; the stale one is. */
  lemma StaleRowGivesBack(s: State)
    requires s.phase == Up(Sweeping([2, 1])) && s.nonce == 12 && 1 in s.table && 2 in s.table
    requires s.table[1].start == 10 && s.table[1].count == 2 && s.table[2].start == 10 && s.table[2].count == 1
    ensures var t := StepSweep(StepSweep(s, true, true), true, true);
      && t.nonce == 10 && t.sent == s.sent && t.dead == s.dead + {1, 2}
      && t.head == s.head && t.blockedUntil == s.blockedUntil
  {
    var queue: seq<BundleId> := [2, 1];
    assert queue[1..] == [1];
    var t := StepSweep(s, true, true);
    assert t.phase == Up(Sweeping([1])) && t.nonce == 12 && t.table[1] == s.table[1];
  }

  lemma SweepIsStep(s: State, acked: bool)
    ensures Step(s, Sweep(acked, true)) == StepSweep(s, acked, true)
  {
  }

  lemma SwitchRuns()
    ensures var t := Run(AfterSecond(), Switch());
      t.nonce == 10 && t.sent == AfterSecond().sent && t.dead == {1, 2} && t.head == 6 && t.blockedUntil == 9
  {
    var s, es := AfterSecond(), Switch();
    SweepSteps();
    var off := s.(runtime := false).AtLane(Sweeping([3, 2, 1]));
    var kept := StepSweep(off, false, true);
    StaleRowGivesBack(kept);
    SweepIsStep(off, false);
    SweepIsStep(kept, true);
    SweepIsStep(StepSweep(kept, true, true), true);
    hide Step, StepSweep, AfterSecond;
    RunFirst(s, es);
    RunFirst(off, es[1..]);
    RunFirst(kept, es[2..]);
    RunFirst(StepSweep(kept, true, true), es[3..]);
    assert es[4..] == [];
  }

  lemma {:induction false} ReadsConcat(s: State, a: seq<Event>, b: seq<Event>)
    requires ReadsSuffice(s, a) && ReadsSuffice(Run(s, a), b)
    ensures ReadsSuffice(s, a + b)
    decreases |b|
  {
    if b == [] {
      assert a + b == a;
    } else {
      var init := b[..|b| - 1];
      assert (a + b)[..|a + b| - 1] == a + init;
      ReadsConcat(s, a, init);
      RunConcat(s, a, init);
    }
  }

  lemma ReadsOnceThenNothing(s: State, es: seq<Event>)
    requires es != [] && ReadsEnough(s, es[0])
    requires forall e :: e in es[1..] ==> !e.Boot? && !StartsSweep(e)
    ensures ReadsSuffice(s, es)
  {
    assert es == [es[0]] + es[1..];
    assert [es[0]][..0] == [];
    NothingReadIsEnough(Step(s, es[0]), es[1..]);
    RunSnoc(s, [], es[0]);
    assert [] + [es[0]] == [es[0]];
    ReadsConcat(s, [es[0]], es[1..]);
  }

  lemma FirstReads()
    ensures ReadsSuffice(Genesis(), FirstProcess())
  {
    var es := FirstProcess();
    var s := Genesis().(head := 4);
    RunFirst(Genesis(), es[..1]);
    assert Run(Genesis(), es[..1]) == s;
    NothingReadIsEnough(Genesis(), es[..1]);
    ReadsOnceThenNothing(s, es[1..]);
    ReadsConcat(Genesis(), es[..1], es[1..]);
    assert es == es[..1] + es[1..];
  }

  lemma SecondReads()
    ensures ReadsSuffice(AfterFirst(), SecondProcess()) && ReadsSuffice(AfterSecond(), Switch())
  {
    var s := AfterFirst();
    assert ListsLive(s, [1]);
    ReadsOnceThenNothing(s, SecondProcess());
    assert LeavesOutNoDanger(AfterSecond(), [3, 2, 1]);
    ReadsOnceThenNothing(AfterSecond(), Switch());
  }

  /** The counter can come to rest below the nonce of a bundle that can still be mined: a stale
      reservation of an earlier process, acknowledged last, gives back nonces used again since.
      Broadcasting is then blocked through that bundle's target. */
  lemma CounterFallsBelowALiveBundle() returns (es: seq<Event>)
    ensures ReadsSuffice(Genesis(), es)
    ensures var s := Run(Genesis(), es);
      exists id :: Live(s, id) && s.nonce < s.sent[id].bundle.firstNonce && s.sent[id].bundle.target <= s.blockedUntil
  {
    FirstProcessRuns();
    SecondProcessRuns();
    SwitchRuns();
    es := FirstProcess() + SecondProcess() + Switch();
    FirstReads();
    SecondReads();
    hide FirstProcess, SecondProcess, Switch, AfterFirst, ReadsSuffice;
    RunConcat(Genesis(), FirstProcess(), SecondProcess());
    RunConcat(Genesis(), FirstProcess() + SecondProcess(), Switch());
    ReadsConcat(Genesis(), FirstProcess(), SecondProcess());
    ReadsConcat(Genesis(), FirstProcess() + SecondProcess(), Switch());
    assert Live(Run(Genesis(), es), 3);
  }
}
