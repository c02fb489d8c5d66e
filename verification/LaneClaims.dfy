/** Live mode, smoke budget and sweeps over whole runs of the lane. */
module LaneClaims {
  import opened Arithmetic
  import opened Chain
  import opened LaneMachine
  import opened LaneSafety

  // ------------------------------------------------------------------
  // Live mode
  // ------------------------------------------------------------------

  /** The lane is between passing the gate and handing the bundle out. */
  predicate PastGate(lane: Lane)
  {
    lane.Admitted? || lane.Holding? || lane.Cleared? || lane.Durable? || lane.Pinned? || lane.Funded?
  }

  ghost predicate ModeInv(s: State)
  {
    && (s.runtime ==> s.cfg.armed)
    && (s.phase.Up? && PastGate(s.phase.lane) ==> s.runtime && s.cfg.broadcastEnabled)
  }

  lemma ReservingKeepsMode(s: State, e: Event)
    requires ModeInv(s) && s.phase.Up? && s.phase.lane.Reserving()
    ensures ModeInv(StepReserving(s, e))
  {
  }

  lemma SendingKeepsMode(s: State, e: Event)
    requires ModeInv(s) && s.phase.Up? && !s.phase.lane.Reserving()
    ensures ModeInv(StepSending(s, e))
  {
  }

  lemma SubmitKeepsMode(s: State, e: Event)
    requires ModeInv(s) && s.phase.Up?
    ensures ModeInv(StepSubmit(s, e))
  {
    hide StepReserving, StepSending, ModeInv;
    if s.phase.lane.Reserving() { ReservingKeepsMode(s, e); } else { SendingKeepsMode(s, e); }
  }

  lemma StepKeepsMode(s: State, e: Event)
    requires ModeInv(s)
    ensures ModeInv(Step(s, e))
  {
    if s.phase.Up? {
      SubmitKeepsMode(s, e);
    }
    hide StepSubmit;
  }

  lemma {:induction false} RunKeepsMode(es: seq<Event>)
    ensures ModeInv(Run(Genesis(), es))
    decreases |es|
  {
    if es != [] {
      RunKeepsMode(es[..|es| - 1]);
      StepKeepsMode(Run(Genesis(), es[..|es| - 1]), es[|es| - 1]);
    }
  }

  /** Nothing is sent except in live mode of a process armed at boot, and then only a bundle
      whose exact payload holds a durable reservation under its own id. */
  lemma SendsAreLiveAndReserved(es: seq<Event>, e: Event)
    requires ReadsSuffice(Genesis(), es)
    ensures var s := Run(Genesis(), es);
      Step(s, e).sent != s.sent ==>
        && e.Send? && s.phase.Up? && s.phase.lane.Funded?
        && s.cfg.armed && s.runtime && s.cfg.broadcastEnabled
        && (var (job, start) := (s.phase.lane.job, s.phase.lane.start);
            && Step(s, e).sent == s.sent[job.bundle.id := job]
            && job.bundle.id in s.table
            && s.table[job.bundle.id].start == job.bundle.firstNonce == start
            && s.table[job.bundle.id].count == job.Legs())
  {
    RunKeepsMode(es);
    InitKeeps();
    RunKeeps(Genesis(), es);
    if !Hands(Run(Genesis(), es), e) {
      OnlySendSends(Run(Genesis(), es), e);
    }
    hide Run;
  }

  lemma InitKeeps()
    ensures NonceInv(Genesis())
  {
  }

  predicate Hands(s: State, e: Event)
  {
    e.Send? && s.phase.Up? && s.phase.lane.Funded?
  }

  lemma ReservingSendsNothing(s: State, e: Event)
    requires s.phase.Up?
    ensures StepReserving(s, e).sent == s.sent
  {
  }

  lemma SendingSends(s: State, e: Event)
    requires s.phase.Up? && !Hands(s, e)
    ensures StepSending(s, e).sent == s.sent
  {
    hide StepSend, StepBudget, StepPersist, StepCancelAnswer;
    match s.phase.lane {
      case Pinned(job, start) =>
        if e.Budget? { BudgetSendsNothing(s, job, start, e); }
      case Cleared(job, start) =>
        if e.Persist? { PersistSendsNothing(s, job, start, e.wrote); }
      case Refused(job, start) =>
        if e.CancelAnswer? { CancelSendsNothing(s, job, start, e.acked, e.wrote); }
      case _ =>
    }
  }

  lemma BudgetSendsNothing(s: State, job: Job, start: nat, e: Event)
    requires e.Budget?
    ensures StepBudget(s, job, start, e.qualified, e.gas, e.persisted, e.wrote).sent == s.sent
  {
  }

  lemma PersistSendsNothing(s: State, job: Job, start: nat, wrote: bool)
    ensures StepPersist(s, job, start, wrote).sent == s.sent
  {
  }

  lemma CancelSendsNothing(s: State, job: Job, start: nat, acked: bool, wrote: bool)
    ensures StepCancelAnswer(s, job, start, acked, wrote).sent == s.sent
  {
  }

  lemma SubmitSends(s: State, e: Event)
    requires s.phase.Up? && !Hands(s, e)
    ensures StepSubmit(s, e).sent == s.sent
  {
    hide StepReserving, StepSending, Hands;
    ReservingSendsNothing(s, e);
    SendingSends(s, e);
  }

  lemma OnlySendSends(s: State, e: Event)
    requires !Hands(s, e)
    ensures Step(s, e).sent == s.sent
  {
    hide StepSubmit;
    if s.phase.Up? {
      SubmitSends(s, e);
    }
  }

  /** A paused process: whatever lane work is left cannot pass the gate. */
  ghost predicate Paused(s: State)
  {
    s.phase.Down? || (s.phase.Up? && !s.runtime && (s.phase.lane.Free? || s.phase.lane.Entered? || s.phase.lane.Sweeping?))
  }

  /** Only a switch back or a restart ends a pause. */
  predicate EndsPause(e: Event)
  {
    e.Boot? || (e.SwitchMode? && e.on)
  }

  lemma PauseHolds(s: State, e: Event)
    requires Paused(s) && !EndsPause(e)
    ensures Paused(Step(s, e)) && Step(s, e).sent == s.sent
  {
    hide StepReserve, StepResimulate, StepRecheck, StepPersist, StepPinCheck, StepBudget, StepSend, StepAnswer, StepCancelAnswer;
  }

  /** After a switch to simulation nothing is sent until a switch back or a restart. */
  lemma {:induction false} NothingIsSentWhilePaused(s: State, es: seq<Event>)
    requires Paused(s)
    requires forall i :: 0 <= i < |es| ==> !EndsPause(es[i])
    ensures Paused(Run(s, es)) && Run(s, es).sent == s.sent
    decreases |es|
  {
    if es != [] {
      NothingIsSentWhilePaused(s, es[..|es| - 1]);
      PauseHolds(Run(s, es[..|es| - 1]), es[|es| - 1]);
    }
  }

  // ------------------------------------------------------------------
  // Smoke budget
  // ------------------------------------------------------------------

  /** The slot an unqualified bundle holds between its budget check and its send. */
  function PendingSmoke(s: State): (nat, nat)
  {
    if s.phase.Up? && s.phase.lane.Funded? && !s.phase.lane.qualified then (1, s.phase.lane.gas) else (0, 0)
  }

  predicate ConfigWithin(cfg: Config, slots: nat, gas: nat)
  {
    cfg.smokeMax <= slots && (cfg.rawMode ==> cfg.smokeGasCap <= gas)
  }

  ghost predicate SmokeInv(s: State, slots: nat, gas: nat)
  {
    && ConfigWithin(s.cfg, slots, gas)
    && s.unqualifiedSends + PendingSmoke(s).0 <= s.smokeUsed <= slots
    && Min(s.unqualifiedGas + PendingSmoke(s).1, U256_MAX) <= s.smokeGas <= gas
  }

  lemma ReservingKeepsSmoke(s: State, e: Event, slots: nat, gas: nat)
    requires SmokeInv(s, slots, gas) && s.phase.Up? && s.phase.lane.Reserving()
    ensures SmokeInv(StepReserving(s, e), slots, gas)
  {
    hide ConfigWithin;
  }

  lemma SendingKeepsSmoke(s: State, e: Event, slots: nat, gas: nat)
    requires SmokeInv(s, slots, gas) && s.phase.Up? && !s.phase.lane.Reserving()
    ensures SmokeInv(StepSending(s, e), slots, gas)
  {
    hide StepBudget, StepSend, ConfigWithin;
    match s.phase.lane {
      case Pinned(job, start) =>
        if e.Budget? { BudgetKeepsSmoke(s, job, start, e, slots, gas); }
      case Funded(job, start, _, _) => SendKeepsSmoke(s, job, start, slots, gas);
      case _ =>
    }
  }

  lemma SubmitKeepsSmoke(s: State, e: Event, slots: nat, gas: nat)
    requires SmokeInv(s, slots, gas) && s.phase.Up?
    ensures SmokeInv(StepSubmit(s, e), slots, gas)
  {
    hide StepReserving, StepSending, SmokeInv;
    if s.phase.lane.Reserving() { ReservingKeepsSmoke(s, e, slots, gas); } else { SendingKeepsSmoke(s, e, slots, gas); }
  }

  lemma BudgetKeepsSmoke(s: State, job: Job, start: nat, e: Event, slots: nat, gas: nat)
    requires SmokeInv(s, slots, gas) && s.phase == Up(Pinned(job, start)) && e.Budget?
    ensures SmokeInv(StepBudget(s, job, start, e.qualified, e.gas, e.persisted, e.wrote), slots, gas)
  {
  }

  lemma SendKeepsSmoke(s: State, job: Job, start: nat, slots: nat, gas: nat)
    requires SmokeInv(s, slots, gas) && s.phase.Up? && s.phase.lane.Funded?
    ensures SmokeInv(StepSend(s, job, start, s.phase.lane.qualified, s.phase.lane.gas), slots, gas)
  {
  }

  lemma StepKeepsSmoke(s: State, e: Event, slots: nat, gas: nat)
    requires SmokeInv(s, slots, gas)
    requires e.Boot? ==> ConfigWithin(e.cfg, slots, gas)
    ensures SmokeInv(Step(s, e), slots, gas)
  {
    hide StepSubmit, ConfigWithin;
    if s.phase.Up? {
      SubmitKeepsSmoke(s, e, slots, gas);
    }
  }

  /** Over all restarts together, bundles sent without qualification never exceed the largest
      slot limit, nor in raw mode the largest gas cap (the largest word caps nothing: the counter
      saturates there), that any process was configured with. */
  lemma {:induction false} SmokeIsNeverRefilled(es: seq<Event>, slots: nat, gas: nat)
    requires forall i :: 0 <= i < |es| && es[i].Boot? ==> ConfigWithin(es[i].cfg, slots, gas)
    ensures SmokeInv(Run(Genesis(), es), slots, gas)
    ensures Run(Genesis(), es).unqualifiedSends <= slots
    ensures gas < U256_MAX ==> Run(Genesis(), es).unqualifiedGas <= gas
    decreases |es|
  {
    if es != [] {
      SmokeIsNeverRefilled(es[..|es| - 1], slots, gas);
      StepKeepsSmoke(Run(Genesis(), es[..|es| - 1]), es[|es| - 1], slots, gas);
    }
  }

  // ------------------------------------------------------------------
  // Sweeps
  // ------------------------------------------------------------------

  /** The order a sweep works in: highest start first, ties in the order they were listed. */
  predicate Descending(table: Table, rows: seq<BundleId>)
  {
    forall i, j :: 0 <= i < j < |rows| && rows[i] in table && rows[j] in table ==> table[rows[i]].start >= table[rows[j]].start
  }

  function Insert(table: Table, id: BundleId, rows: seq<BundleId>): seq<BundleId>
    decreases |rows|
  {
    if rows == [] || id !in table || rows[0] !in table || table[id].start >= table[rows[0]].start then [id] + rows
    else [rows[0]] + Insert(table, id, rows[1..])
  }

  function NewestFirst(table: Table, rows: seq<BundleId>): seq<BundleId>
    decreases |rows|
  {
    if rows == [] then [] else Insert(table, rows[0], NewestFirst(table, rows[1..]))
  }

  lemma {:induction false} InsertKeepsRows(table: Table, id: BundleId, rows: seq<BundleId>)
    ensures multiset(Insert(table, id, rows)) == multiset(rows) + multiset{id}
    decreases |rows|
  {
    if rows != [] {
      InsertKeepsRows(table, id, rows[1..]);
      assert rows == [rows[0]] + rows[1..];
    }
  }

  lemma InsertMembers(table: Table, id: BundleId, rows: seq<BundleId>)
    ensures forall k :: k in Insert(table, id, rows) <==> k == id || k in rows
  {
    InsertKeepsRows(table, id, rows);
    var r := Insert(table, id, rows);
    hide Insert;
    assert forall k :: k in r <==> k in multiset(r);
    assert forall k :: k in rows <==> k in multiset(rows);
  }

  lemma {:induction false} InsertDescends(table: Table, id: BundleId, rows: seq<BundleId>)
    requires id in table && (forall k :: k in rows ==> k in table) && Descending(table, rows)
    ensures Descending(table, Insert(table, id, rows))
    decreases |rows|
  {
    if rows != [] && table[id].start < table[rows[0]].start {
      InsertDescends(table, id, rows[1..]);
      InsertMembers(table, id, rows[1..]);
      DescendsFrom(table, rows[0], Insert(table, id, rows[1..]));
    }
  }

  lemma DescendsFrom(table: Table, first: BundleId, rest: seq<BundleId>)
    requires first in table && Descending(table, rest)
    requires forall k :: k in rest && k in table ==> table[k].start <= table[first].start
    ensures Descending(table, [first] + rest)
  {
  }

  /** Sorting loses no reservation, invents none, and puts the newest first. */
  lemma {:induction false} NewestFirstSorts(table: Table, rows: seq<BundleId>)
    requires forall k :: k in rows ==> k in table
    ensures var r := NewestFirst(table, rows); Descending(table, r) && multiset(r) == multiset(rows)
    ensures forall k :: k in NewestFirst(table, rows) <==> k in rows
    decreases |rows|
  {
    if rows != [] {
      NewestFirstSorts(table, rows[1..]);
      InsertKeepsRows(table, rows[0], NewestFirst(table, rows[1..]));
      InsertMembers(table, rows[0], NewestFirst(table, rows[1..]));
      InsertDescends(table, rows[0], NewestFirst(table, rows[1..]));
      assert rows == [rows[0]] + rows[1..];
    }
  }

  lemma NewestFirstLists(table: Table, rows: seq<BundleId>)
    requires Lists(table, rows)
    ensures Lists(table, NewestFirst(table, rows))
  {
    var r := NewestFirst(table, rows);
    assert forall k :: k in rows ==> k in table;
    NewestFirstSorts(table, rows);
    SameBagStaysDistinct(rows, r);
    hide Descending, NewestFirst;
    SameRowsList(table, rows, r);
    hide Lists;
  }

  lemma SameRowsList(table: Table, rows: seq<BundleId>, r: seq<BundleId>)
    requires Lists(table, rows) && (forall k :: k in r <==> k in rows)
    requires forall i, j :: 0 <= i < j < |r| ==> r[i] != r[j]
    ensures Lists(table, r)
  {
    assert forall i :: 0 <= i < |r| ==> r[i] in r;
  }

  lemma SameBagStaysDistinct(rows: seq<BundleId>, r: seq<BundleId>)
    requires multiset(r) == multiset(rows)
    requires forall i, j :: 0 <= i < j < |rows| ==> rows[i] != rows[j]
    ensures forall i, j :: 0 <= i < j < |r| ==> r[i] != r[j]
  {
    forall i, j | 0 <= i < j < |r|
      ensures r[i] != r[j]
    {
      if r[i] == r[j] {
        TwiceInSequence(r, i, j);
        OnceInSequence(rows, r[i]);
      }
    }
  }

  lemma TwiceInSequence(s: seq<BundleId>, i: nat, j: nat)
    requires i < j < |s| && s[i] == s[j]
    ensures multiset(s)[s[i]] >= 2
  {
    assert s == s[..i] + [s[i]] + s[i + 1..j] + [s[j]] + s[j + 1..];
  }

  lemma {:induction false} OnceInSequence(s: seq<BundleId>, id: BundleId)
    requires forall i, j :: 0 <= i < j < |s| ==> s[i] != s[j]
    ensures multiset(s)[id] <= 1
    decreases |s|
  {
    if s != [] {
      assert s == [s[0]] + s[1..];
      OnceInSequence(s[1..], id);
      assert s[0] == id ==> id !in s[1..];
    }
  }

  /** Reservations stacked from the counter downwards, newest first. */
  predicate Stacked(table: Table, queue: seq<BundleId>, nonce: nat)
    decreases |queue|
  {
    queue == []
    || (queue[0] in table && table[queue[0]].start + table[queue[0]].count == nonce
        && Stacked(table, queue[1..], table[queue[0]].start))
  }

  function LowestStart(table: Table, queue: seq<BundleId>, nonce: nat): nat
    requires Stacked(table, queue, nonce)
    decreases |queue|
  {
    if queue == [] then nonce else LowestStart(table, queue[1..], table[queue[0]].start)
  }

  lemma {:induction false} StackedByRanges(table: Table, table': Table, queue: seq<BundleId>, nonce: nat)
    requires Stacked(table, queue, nonce) && table.Keys == table'.Keys
    requires forall id :: id in table ==> table'[id] == table[id].(status := table'[id].status)
    ensures Stacked(table', queue, nonce) && LowestStart(table', queue, nonce) == LowestStart(table, queue, nonce)
    decreases |queue|
  {
    if queue != [] {
      StackedByRanges(table, table', queue[1..], table[queue[0]].start);
    }
  }

  function SweepAll(s: State, acks: seq<bool>): State
    decreases |acks|
  {
    if acks == [] then s else SweepAll(StepSweep(s, acks[0], true), acks[1..])
  }

  /** Working the newest reservation off first, with every cancellation acknowledged, gives the
      counter back down to the oldest outstanding nonce. */
  lemma {:induction false} FullSweepReturnsTheCounter(s: State, queue: seq<BundleId>)
    requires s.phase == Up(Sweeping(queue)) && Stacked(s.table, queue, s.nonce)
    ensures var t := SweepAll(s, seq(|queue|, _ => true));
      t.phase == Up(Sweeping([])) && t.nonce == LowestStart(s.table, queue, s.nonce)
    decreases |queue|
  {
    if queue != [] {
      var t := StepSweep(s, true, true);
      StackedByRanges(s.table, t.table, queue[1..], s.table[queue[0]].start);
      assert seq(|queue|, _ => true)[1..] == seq(|queue[1..]|, _ => true);
      FullSweepReturnsTheCounter(t, queue[1..]);
    }
  }
}
