/** Exactly when one process keeps every bundle that can still be mined at or below its counter. */
module LaneFloor {
  import opened LaneClaims
  import opened LaneCover
  import opened LaneMachine
  import opened LaneRuns
  import opened LaneSafety

  /** Whatever the process goes through, as long as its status writes succeed: whenever the lane is
      free, no bundle that can still be mined ends above the counter. */
  ghost predicate CounterHolds(s: State)
  {
    forall es :: AllOneProcess(es) && Run(s, es).phase == Up(Free) ==> LiveBelow(Run(s, es))
  }

  predicate AllOneProcess(es: seq<Event>)
  {
    forall e :: e in es ==> OneProcess(e)
  }

  /** Both switches that a process cannot turn on by itself. */
  predicate CanSend(s: State)
  {
    s.phase == Up(Free) && s.cfg.armed && s.cfg.broadcastEnabled
  }

  // ------------------------------------------------------------------
  // A sweep in which the relays acknowledge one bundle only
  // ------------------------------------------------------------------

  lemma {:induction false} ListAll(ids: set<BundleId>) returns (rows: seq<BundleId>)
    ensures forall id :: id in rows <==> id in ids
    ensures forall i, j :: 0 <= i < j < |rows| ==> rows[i] != rows[j]
    decreases |ids|
  {
    if ids == {} {
      rows := [];
    } else {
      var id :| id in ids;
      var rest := ListAll(ids - {id});
      rows := [id] + rest;
    }
  }

  /** `rows` lists all active reservations, each once. */
  predicate ListsActive(table: Table, rows: seq<BundleId>)
  {
    Lists(table, rows) && forall id :: id in table && table[id].Active() ==> id in rows
  }

  /** The active rows in the order a sweep takes them. */
  lemma SweepList(table: Table) returns (rows: seq<BundleId>)
    ensures ListsActive(table, rows) && Descending(table, rows)
  {
    var listed := ListAll(set id | id in table && table[id].Active());
    assert forall i :: 0 <= i < |listed| ==> listed[i] in listed;
    NewestFirstLists(table, listed);
    NewestFirstSorts(table, listed);
    rows := NewestFirst(table, listed);
  }

  function AckOnly(queue: seq<BundleId>, id: BundleId): seq<Event>
    decreases |queue|
  {
    if queue == [] then [] else [Sweep(queue[0] == id, true)] + AckOnly(queue[1..], id)
  }

  /** What the sweep leaves of one row. */
  function AfterAckOnly(row: Reservation, swept: bool, acked: bool): Reservation
  {
    if !swept then row else row.(status := if acked then Cancelled else RecoveryBlocked)
  }

  /** `t` is `s` after working `queue` off with `id` acknowledged and nothing else. */
  ghost predicate AckedOnly(s: State, t: State, queue: seq<BundleId>, id: BundleId)
  {
    && t.sent == s.sent && t.head == s.head && t.cfg == s.cfg && t.table.Keys == s.table.Keys
    && t.dead == (if id in queue then s.dead + {id} else s.dead)
    && t.nonce == (if id in queue && id in s.table && s.nonce == End(s.table[id]) then s.table[id].start else s.nonce)
    && (forall k :: k in s.table ==> t.table[k] == AfterAckOnly(s.table[k], k in queue, k == id))
  }

  lemma OneTurn(s: State, queue: seq<BundleId>, id: BundleId)
    requires queue != [] && s.phase == Up(Sweeping(queue)) && queue[0] in s.table
    ensures var t := StepSweep(s, queue[0] == id, true);
      t.phase == Up(Sweeping(queue[1..])) && AckedOnly(s, t, [queue[0]], id)
  {
  }

  lemma ThenTheRest(s: State, t: State, u: State, queue: seq<BundleId>, id: BundleId)
    requires queue != [] && AckedOnly(s, t, [queue[0]], id) && AckedOnly(t, u, queue[1..], id)
    requires queue[0] !in queue[1..] && id in s.table
    ensures AckedOnly(s, u, queue, id)
  {
    assert forall k :: k in queue <==> k == queue[0] || k in queue[1..];
    forall k | k in s.table
      ensures u.table[k] == AfterAckOnly(s.table[k], k in queue, k == id)
    {
      assert t.table[k] == AfterAckOnly(s.table[k], k in [queue[0]], k == id);
    }
    assert t.table[id] == AfterAckOnly(s.table[id], id in [queue[0]], true);
  }

  lemma {:induction false} AckOnlyRuns(s: State, queue: seq<BundleId>, id: BundleId)
    requires s.phase == Up(Sweeping(queue)) && id in s.table && (forall k :: k in queue ==> k in s.table)
    requires forall i, j :: 0 <= i < j < |queue| ==> queue[i] != queue[j]
    ensures var t := Run(s, AckOnly(queue, id)); t.phase == Up(Sweeping([])) && AckedOnly(s, t, queue, id)
    ensures AllOneProcess(AckOnly(queue, id))
    decreases |queue|
  {
    if queue != [] {
      var es := AckOnly(queue, id);
      var t := StepSweep(s, queue[0] == id, true);
      OneTurn(s, queue, id);
      SweepIsStep(s, queue[0] == id);
      RunFirst(s, es);
      assert es[1..] == AckOnly(queue[1..], id);
      AckOnlyRuns(t, queue[1..], id);
      ThenTheRest(s, t, Run(t, es[1..]), queue, id);
      hide StepSweep, Step, Run, AckedOnly;
    }
  }

  /** `t` is `s` with the range of `id` given back: nothing else changes but statuses. */
  ghost predicate GivenBack(s: State, t: State, id: BundleId)
    requires id in s.table
  {
    && t.phase == Up(Free) && t.nonce == s.table[id].start && t.dead == s.dead + {id}
    && t.sent == s.sent && t.head == s.head && t.cfg == s.cfg && t.table.Keys == s.table.Keys
    && (forall k :: k in s.table ==> t.table[k].start == s.table[k].start && t.table[k].count == s.table[k].count
                                     && (t.table[k].Active() <==> s.table[k].Active() && k != id))
  }

  lemma AckedIsGivenBack(s: State, t: State, rows: seq<BundleId>, id: BundleId)
    requires id in s.table && s.table[id].Active() && s.nonce == End(s.table[id])
    requires ListsActive(s.table, rows) && AckedOnly(s, t, rows, id)
    ensures GivenBack(s, t.AtLane(Free), id)
  {
    forall k | k in s.table
      ensures t.table[k].start == s.table[k].start && t.table[k].count == s.table[k].count
      ensures t.table[k].Active() <==> s.table[k].Active() && k != id
    {
      assert t.table[k] == AfterAckOnly(s.table[k], k in rows, k == id);
    }
  }

  lemma SweepRuns(s: State, rows: seq<BundleId>, body: seq<Event>)
    requires s.phase == Up(Free) && ListsActive(s.table, rows)
    requires Run(s.AtLane(Sweeping(rows)), body).phase == Up(Sweeping([]))
    ensures Run(s, [PolicyChange(rows)] + body + [SweepDone]) == Run(s.AtLane(Sweeping(rows)), body).AtLane(Free)
  {
    var swept := Run(s.AtLane(Sweeping(rows)), body);
    assert Step(s, PolicyChange(rows)) == s.AtLane(Sweeping(rows));
    assert Step(swept, SweepDone) == swept.AtLane(Free);
    hide Step, Run;
    RunFirst(s, [PolicyChange(rows)] + body);
    assert ([PolicyChange(rows)] + body)[1..] == body;
    RunSnoc(s, [PolicyChange(rows)] + body, SweepDone);
  }

  /** The range at the top of the counter can be given back alone. */
  lemma GiveBack(s: State, id: BundleId) returns (es: seq<Event>)
    requires s.phase == Up(Free) && id in s.table && s.table[id].Active() && s.nonce == End(s.table[id])
    ensures AllOneProcess(es) && GivenBack(s, Run(s, es), id)
  {
    hide Run, GivenBack;
    var rows := SweepList(s.table);
    var sweeping := s.AtLane(Sweeping(rows));
    AckOnlyRuns(sweeping, rows, id);
    SweepRuns(s, rows, AckOnly(rows, id));
    AckedIsGivenBack(s, Run(sweeping, AckOnly(rows, id)), rows, id);
    es := [PolicyChange(rows)] + AckOnly(rows, id) + [SweepDone];
  }

  // ------------------------------------------------------------------
  // A range that ends above the counter
  // ------------------------------------------------------------------

  /** Any active range that ends above the counter, whatever process it comes from, breaks it: the
      chain moves the counter just below that end, a bundle is sent there, and the range is then
      given back from under it. */
  lemma RangeAboveBreaks(s: State, id: BundleId) returns (es: seq<Event>)
    requires CanSend(s) && id in s.table && s.table[id].Active()
    requires 0 < s.table[id].count && s.nonce < End(s.table[id])
    ensures AllOneProcess(es) && Run(s, es).phase == Up(Free) && !LiveBelow(Run(s, es))
  {
    var top := End(s.table[id]);
    var before, u := MoveUnder(s, top - 1);
    var unused := Beyond(s.table.Keys + s.dead);
    var job := Job(Sample(1), Bundle(unused, top - 1, u.head + 1));
    CleanSend(u, job);
    var sent := AfterSend(u, job);
    var after := GiveBack(sent, id);
    es := before + ([Enter(job)] + Approvals()) + after;
    RunConcat(s, before, [Enter(job)] + Approvals());
    RunConcat(s, before + ([Enter(job)] + Approvals()), after);
    SendingIsOneProcess(job);
    var t := Run(sent, after);
    assert Live(t, unused) && t.sent[unused].End() == top;
    hide Run, Approvals;
  }

  lemma SendingIsOneProcess(job: Job)
    ensures AllOneProcess([Enter(job)] + Approvals())
  {
  }

  /** Live mode on, the head past the block, the counter moved up by a refresh. */
  lemma MoveUnder(s: State, nonce: nat) returns (es: seq<Event>, u: State)
    requires CanSend(s) && s.nonce <= nonce
    ensures AllOneProcess(es) && u == Run(s, es) && u.phase == Up(Free) && u.LiveMode() && u.blockedUntil < u.head
    ensures u.nonce == nonce && u.cfg == s.cfg && u.table == s.table && u.sent == s.sent && u.dead == s.dead
    ensures u.head == if s.blockedUntil < s.head then s.head else s.blockedUntil + 1
    ensures forall e :: e in es ==> !StartsSweep(e)
  {
    var height := if s.blockedUntil < s.head then s.head else s.blockedUntil + 1;
    es := [SwitchMode(true, []), HeadAdvance(height), ChainRefresh(nonce)];
    var on := s.(runtime := true);
    RunFirst(s, es);
    RunFirst(on, es[1..]);
    RunFirst(on.(head := height), es[2..]);
    assert es[3..] == [];
    u := on.(head := height, nonce := nonce);
  }

  // ------------------------------------------------------------------
  // The condition
  // ------------------------------------------------------------------

  /** With the top range given back, a floor for what is left is one for the whole. */
  lemma FloorWithTop(s: State, t: State, id: BundleId, floor: nat)
    requires id in s.table && s.table[id].Active() && 0 < s.table[id].count && s.nonce == End(s.table[id])
    requires GivenBack(s, t, id) && Founded(t, floor)
    ensures Founded(s, floor)
  {
    forall k | k in s.table && s.table[k].Active()
      ensures Placed(s.table[k], floor, s.nonce)
    {
      if k != id {
        assert t.table[k].Active() && Placed(t.table[k], floor, t.nonce);
      }
    }
    forall a, b | a in s.table && b in s.table && s.table[a].Active() && s.table[b].Active() && a != b
      ensures ApartAbove(s.table[a], s.table[b], floor)
    {
      assert a != id ==> t.table[a].Active() && Placed(t.table[a], floor, t.nonce);
      assert b != id ==> t.table[b].Active() && Placed(t.table[b], floor, t.nonce);
      assert a != id && b != id ==> ApartAbove(t.table[a], t.table[b], floor);
    }
  }

  ghost predicate HasFloor(s: State)
  {
    exists floor :: Founded(s, floor)
  }

  /** Without a floor, giving back one top range after another ends at a range above the counter. */
  lemma {:induction false} NoFloorBreaks(s: State) returns (es: seq<Event>)
    requires CanSend(s) && !HasFloor(s) && forall id :: id in s.table ==> 0 < s.table[id].count
    ensures AllOneProcess(es) && Run(s, es).phase == Up(Free) && !LiveBelow(Run(s, es))
    decreases s.nonce
  {
    if id :| id in s.table && s.table[id].Active() && s.nonce < End(s.table[id]) {
      es := RangeAboveBreaks(s, id);
    } else if id :| id in s.table && s.table[id].Active() && s.nonce == End(s.table[id]) {
      var first := GiveBack(s, id);
      var t := Run(s, first);
      forall floor | Founded(t, floor)
        ensures Founded(s, floor)
      {
        FloorWithTop(s, t, id, floor);
      }
      var rest := NoFloorBreaks(t);
      es := first + rest;
      RunConcat(s, first, rest);
    } else {
      assert Founded(s, s.nonce);
    }
  }

  /** A process keeps its live bundles at or below the counter, whatever happens to it, exactly when
      the table it starts from has a floor: a height at or below the counter that no active range
      touches from below or straddles, and above which the active ranges are disjoint and end at or
      below the counter. */
  lemma CounterHoldsExactlyWhen(s: State)
    requires NonceInv(s) && CanSend(s)
    ensures CounterHolds(s) <==> HasFloor(s)
  {
    if HasFloor(s) {
      var floor :| Founded(s, floor);
      forall es | AllOneProcess(es) && Run(s, es).phase == Up(Free)
        ensures LiveBelow(Run(s, es))
      {
        OneProcessStaysCovered(s, floor, es);
      }
    } else {
      var es := NoFloorBreaks(s);
    }
  }

  /** A cancellation the database did not take leaves an active range above the counter, and with
      it the guarantee is gone: that is what failed status writes cost. */
  lemma FailedCancelBreaks(s: State)
    requires NonceInv(s) && s.cfg.armed && s.cfg.broadcastEnabled
    requires s.phase.Up? && s.phase.lane.Durable?
    requires s.nonce == s.phase.lane.start + s.phase.lane.job.Legs()
    requires s.table[s.phase.lane.job.bundle.id].status == Reserved
    ensures !CounterHolds(Step(s, PinCheck(false, false)))
  {
    var t := Step(s, PinCheck(false, false));
    var id := s.phase.lane.job.bundle.id;
    var es := RangeAboveBreaks(t, id);
  }
}
