/** How much of the reservation table a boot and a sweep have to read. Rows that do not decode are
    dropped one by one, and a read that fails is taken for an empty one. */
module LaneReads {
  import opened LaneClaims
  import opened LaneCover
  import opened LaneFloor
  import opened LaneMachine
  import opened LaneRuns
  import opened LaneSafety

  // ------------------------------------------------------------------
  // A boot that does not read everything
  // ------------------------------------------------------------------

  lemma AckedTurn(s: State, queue: seq<BundleId>)
    requires queue != [] && s.phase == Booting(queue) && queue[0] in s.table
    ensures var t := Step(s, Recover(true, true));
      t.phase == Booting(queue[1..]) && Recovered(s, t) && t.dead <= s.dead + {queue[0]}
  {
  }

  /** Only the phase, statuses and acknowledgements differ. */
  ghost predicate Recovered(s: State, t: State)
  {
    && t.nonce == s.nonce && t.blockedUntil == s.blockedUntil && t.cfg == s.cfg && t.runtime == s.runtime
    && t.head == s.head && t.sent == s.sent && t.table.Keys == s.table.Keys
  }

  function AckedRecovery(rows: seq<BundleId>): seq<Event>
    decreases |rows|
  {
    if rows == [] then [Ready] else [Recover(true, true)] + AckedRecovery(rows[1..])
  }

  /** Recovering a list with every cancellation acknowledged: nothing is blocked, and no bundle
      outside the list dies. */
  lemma {:induction false} AckedRecoveryRuns(s: State, queue: seq<BundleId>)
    requires s.phase == Booting(queue) && forall id :: id in queue ==> id in s.table
    ensures var t := Run(s, AckedRecovery(queue));
      t.phase == Up(Free) && Recovered(s, t) && forall id :: id in t.dead ==> id in s.dead || id in queue
    ensures forall e :: e in AckedRecovery(queue) ==> !e.Boot? && !StartsSweep(e)
    decreases |queue|
  {
    var es := AckedRecovery(queue);
    RunFirst(s, es);
    if queue == [] {
      assert es[1..] == [];
      assert Step(s, Ready) == s.AtLane(Free);
    } else {
      AckedTurn(s, queue);
      hide Run, Step;
      assert es[1..] == AckedRecovery(queue[1..]);
      AckedRecoveryRuns(Step(s, Recover(true, true)), queue[1..]);
    }
  }

  /** The new process starts from a pending nonce that does not show a private bundle it could not
      read the row of, and sends another bundle at the same nonce. */
  lemma UnreadRowReusesNonce(s: State, rows: seq<BundleId>, id: BundleId) returns (boot: Event, es: seq<Event>)
    requires NonceInv(s) && s.phase.Down? && 0 < s.head && Lists(s.table, rows) && Live(s, id) && id !in rows
    ensures boot.Boot? && boot.rows == rows && ReadsSuffice(Step(s, boot), es)
    ensures !NoSharedNonce(Run(Step(s, boot), es))
  {
    var older := s.sent[id];
    assert RowTells(s, id);
    boot := Boot(Config(true, true, false, 0, 0), older.bundle.firstNonce, rows);
    var booted := BootedOn(s, boot);
    AckedRecoveryRuns(booted, rows);
    var free := Run(booted, AckedRecovery(rows));
    var send := SendAgain(free, id);
    es := AckedRecovery(rows) + send;
    RunConcat(booted, AckedRecovery(rows), send);
    NothingReadIsEnough(booted, es);
  }

  lemma BootedOn(s: State, boot: Event) returns (t: State)
    requires s.phase.Down? && boot.Boot? && Lists(s.table, boot.rows)
    ensures t == Step(s, boot) == s.(phase := Booting(boot.rows), nonce := boot.chainNonce, blockedUntil := 0,
                                     cfg := boot.cfg, runtime := boot.cfg.armed)
    ensures forall id :: id in boot.rows ==> id in t.table
  {
    t := Step(s, boot);
    assert forall i :: 0 <= i < |boot.rows| ==> boot.rows[i] in t.table;
  }

  /** An open process whose counter stands inside the range of a live bundle sends another there. */
  lemma SendAgain(s: State, id: BundleId) returns (es: seq<Event>)
    requires s.phase == Up(Free) && s.LiveMode() && s.cfg.broadcastEnabled && s.blockedUntil < s.head
    requires Live(s, id) && s.sent[id].bundle.firstNonce <= s.nonce < s.sent[id].End()
    ensures forall e :: e in es ==> !e.Boot? && !StartsSweep(e)
    ensures !NoSharedNonce(Run(s, es))
  {
    var unused := Beyond(s.table.Keys + s.dead + s.sent.Keys);
    var job := Job(Sample(1), Bundle(unused, s.nonce, s.head + 1));
    CleanSend(s, job);
    es := [Enter(job)] + Approvals();
    var t := AfterSend(s, job);
    hide Run;
    assert Live(t, id) && Live(t, unused) && !Apart(t.sent[id], t.sent[unused]);
  }

  /** What a boot reads of the table is enough, over everything that can follow, exactly when it
      reads the row of every live bundle. A failed read is safe exactly when there is none. */
  lemma BootIsSafeExactlyWhenItReadsTheLive(s: State, rows: seq<BundleId>)
    requires NonceInv(s) && s.phase.Down? && 0 < s.head && Lists(s.table, rows)
    ensures ListsLive(s, rows)
      <==> (forall boot: Event, es :: boot.Boot? && boot.rows == rows && ReadsSuffice(Step(s, boot), es)
              ==> NoSharedNonce(Run(Step(s, boot), es)))
  {
    if ListsLive(s, rows) {
      forall boot: Event, es | boot.Boot? && boot.rows == rows && ReadsSuffice(Step(s, boot), es)
        ensures NoSharedNonce(Run(Step(s, boot), es))
      {
        StepKeeps(s, boot);
        RunKeeps(Step(s, boot), es);
      }
    } else {
      var id :| Live(s, id) && id !in rows;
      var boot, es := UnreadRowReusesNonce(s, rows, id);
    }
  }

  /** What an operator can check of such a boot: every active row it did not read targets a block
      the head has reached. */
  lemma UnreadRowsAreOver(s: State, rows: seq<BundleId>)
    requires NonceInv(s)
    requires forall id :: id in s.table && s.table[id].Active() && id !in rows ==> s.table[id].target <= s.head
    ensures ListsLive(s, rows)
  {
    forall id | Live(s, id)
      ensures id in rows
    {
      LiveRowsAreActive(s, id);
    }
  }

  // ------------------------------------------------------------------
  // A sweep that does not read everything
  // ------------------------------------------------------------------

  /** The lowest a counter can be made to stand after the turn of one row. */
  function Lowered(row: Reservation, nonce: nat): nat
  {
    if row.start < nonce <= End(row) then row.start else nonce
  }

  /** Working the head of the list off at the worst moment stops the counter nowhere new. */
  lemma StillExposed(table: Table, queue: seq<BundleId>, top: nat, nonce: nat)
    requires queue != [] && (forall id :: id in queue ==> id in table) && Descending(table, queue)
    ensures Stopped(table, queue[1..], top, Lowered(table[queue[0]], nonce)) ==> Stopped(table, queue, top, nonce)
  {
    var row := table[queue[0]];
    var next := Lowered(row, nonce);
    if Stopped(table, queue[1..], top, next) {
      var height :| top <= height <= next && HoldsAt(table, queue[1..], height);
      assert forall id :: id in queue ==> id == queue[0] || id in queue[1..];
      if row.start < height <= End(row) {
        BelowTheHead(table, queue, height, nonce);
      } else {
        assert HoldsAt(table, queue, height);
      }
    }
  }

  /** When the head reaches across a height the rest do not, the rest end below it. */
  lemma BelowTheHead(table: Table, queue: seq<BundleId>, height: nat, nonce: nat)
    requires queue != [] && (forall id :: id in queue ==> id in table) && Descending(table, queue)
    requires table[queue[0]].start < height <= nonce && End(table[queue[0]]) < nonce
    requires HoldsAt(table, queue[1..], height)
    ensures HoldsAt(table, queue, nonce)
  {
    forall id | id in queue && id in table
      ensures End(table[id]) < nonce || nonce <= table[id].start
    {
      if id != queue[0] {
        var i :| 0 < i < |queue| && queue[i] == id;
        assert id in queue[1..] && table[queue[0]].start >= table[queue[i]].start;
      }
    }
  }

  /** The turn of one row: a refresh takes the counter to the end of the range if the range reaches
      across it, and the cancellation is acknowledged. */
  function WorstTurn(row: Reservation, nonce: nat): seq<Event>
  {
    if row.start < nonce <= End(row) then [ChainRefresh(End(row)), Sweep(true, true)] else [Sweep(true, true)]
  }

  /** Only statuses, acknowledgements and the counter differ. */
  ghost predicate SameBut(s: State, t: State)
  {
    && t.sent == s.sent && t.head == s.head && t.blockedUntil == s.blockedUntil && t.cfg == s.cfg
    && t.table.Keys == s.table.Keys
    && (forall id :: id in s.table ==> t.table[id].start == s.table[id].start && t.table[id].count == s.table[id].count)
  }

  lemma AckedSweep(s: State, queue: seq<BundleId>)
    requires queue != [] && s.phase == Up(Sweeping(queue)) && queue[0] in s.table
    ensures var (row, t) := (s.table[queue[0]], Step(s, Sweep(true, true)));
      && t.phase == Up(Sweeping(queue[1..])) && t.nonce == (if s.nonce == End(row) then row.start else s.nonce)
      && SameBut(s, t) && t.dead == s.dead + {queue[0]}
  {
  }

  lemma Raised(s: State, nonce: nat)
    requires s.phase.Up? && s.nonce <= nonce
    ensures Step(s, ChainRefresh(nonce)) == s.(nonce := nonce)
  {
  }

  lemma WorstTurnRuns(s: State, queue: seq<BundleId>)
    requires queue != [] && s.phase == Up(Sweeping(queue)) && queue[0] in s.table && 0 < s.table[queue[0]].count
    ensures var (row, t) := (s.table[queue[0]], Run(s, WorstTurn(s.table[queue[0]], s.nonce)));
      && t.phase == Up(Sweeping(queue[1..])) && t.nonce == Lowered(row, s.nonce)
      && SameBut(s, t) && t.dead == s.dead + {queue[0]}
  {
    hide Step;
    var row := s.table[queue[0]];
    var es := WorstTurn(row, s.nonce);
    RunFirst(s, es);
    if row.start < s.nonce <= End(row) {
      var raised := s.(nonce := End(row));
      Raised(s, End(row));
      RunFirst(raised, es[1..]);
      assert es[2..] == [];
      AckedSweep(raised, queue);
    } else {
      assert es[1..] == [];
      AckedSweep(s, queue);
    }
  }

  lemma SameRanges(s: State, t: State, queue: seq<BundleId>, top: nat)
    requires SameBut(s, t) && forall id :: id in queue ==> id in s.table
    ensures Descending(s.table, queue) ==> Descending(t.table, queue)
    ensures !Stopped(s.table, queue, top, t.nonce) ==> !Stopped(t.table, queue, top, t.nonce)
  {
    forall height: nat
      ensures HoldsAt(t.table, queue, height) ==> HoldsAt(s.table, queue, height)
    {
    }
  }

  /** Where no height stops it, a sweep newest first takes the counter below `top`. */
  lemma {:induction false} WorstSweep(s: State, queue: seq<BundleId>, top: nat) returns (es: seq<Event>)
    requires s.phase == Up(Sweeping(queue)) && Descending(s.table, queue)
    requires (forall id :: id in queue ==> id in s.table) && (forall id :: id in s.table ==> 0 < s.table[id].count)
    requires !Stopped(s.table, queue, top, s.nonce)
    ensures forall e :: e in es ==> !e.Boot? && !StartsSweep(e)
    ensures var t := Run(s, es);
      t.phase == Up(Sweeping([])) && t.nonce < top && SameBut(s, t) && t.dead == s.dead + (set id | id in queue)
    decreases |queue|
  {
    if queue == [] {
      es := [];
      assert HoldsAt(s.table, queue, s.nonce);
    } else {
      var turn := WorstTurn(s.table[queue[0]], s.nonce);
      var t := Run(s, turn);
      WorstTurnRuns(s, queue);
      StillExposed(s.table, queue, top, s.nonce);
      SameRanges(s, t, queue[1..], top);
      RestDescends(s.table, queue);
      hide Run, Stopped, Descending;
      var rest := WorstSweep(t, queue[1..], top);
      es := turn + rest;
      RunConcat(s, turn, rest);
      assert (set id | id in queue) == {queue[0]} + (set id | id in queue[1..]);
    }
  }

  lemma RestDescends(table: Table, queue: seq<BundleId>)
    requires queue != [] && Descending(table, queue)
    ensures Descending(table, queue[1..])
  {
  }

  /** A live bundle that the sweep leaves out, that no block protects and no height shelters, ends
      up sharing a nonce: the sweep takes the counter below its end, and another is sent there. */
  lemma UnsweptBundleIsExposed(s: State, rows: seq<BundleId>, id: BundleId) returns (es: seq<Event>)
    requires NonceInv(s) && CanSend(s) && Lists(s.table, rows) && Descending(s.table, rows)
    requires Live(s, id) && id !in rows && !Blocked(s, id) && !Sheltered(s, rows, id)
    ensures ReadsSuffice(s.AtLane(Sweeping(rows)), es) && !NoSharedNonce(Run(s.AtLane(Sweeping(rows)), es))
  {
    var sweeping := s.AtLane(Sweeping(rows));
    var top := s.sent[id].End();
    assert RowTells(s, id);
    var sweep := SweptFree(s, rows, top);
    var free := Run(sweeping, sweep);
    var before, u := MoveUnder(free, top - 1);
    var send := SendAgain(u, id);
    es := sweep + before + send;
    RunConcat(sweeping, sweep, before);
    RunConcat(sweeping, sweep + before, send);
    hide Run;
    NothingReadIsEnough(sweeping, es);
  }

  lemma SweptFree(s: State, rows: seq<BundleId>, top: nat) returns (es: seq<Event>)
    requires NonceInv(s) && CanSend(s) && Lists(s.table, rows) && Descending(s.table, rows)
    requires !Stopped(s.table, rows, top, s.nonce)
    ensures forall e :: e in es ==> !e.Boot? && !StartsSweep(e)
    ensures var t := Run(s.AtLane(Sweeping(rows)), es);
      CanSend(t) && t.nonce < top && SameBut(s, t) && forall id :: id in t.dead ==> id in s.dead || id in rows
  {
    var sweeping := s.AtLane(Sweeping(rows));
    assert forall i :: 0 <= i < |rows| ==> rows[i] in s.table;
    var sweep := WorstSweep(sweeping, rows, top);
    var swept := Run(sweeping, sweep);
    es := sweep + [SweepDone];
    RunSnoc(sweeping, sweep, SweepDone);
    hide Run;
    assert Step(swept, SweepDone) == swept.AtLane(Free);
  }

  /** What a sweep reads of the table is enough, over everything that can follow, exactly when every
      live bundle it leaves out is blocked through its target or lies below a height at or below the
      counter that no range it read reaches across. */
  lemma SweepIsSafeExactlyWhenNothingIsExposed(s: State, rows: seq<BundleId>)
    requires NonceInv(s) && CanSend(s) && Lists(s.table, rows) && Descending(s.table, rows)
    ensures LeavesOutNoDanger(s, rows)
      <==> (forall es :: ReadsSuffice(s.AtLane(Sweeping(rows)), es) ==> NoSharedNonce(Run(s.AtLane(Sweeping(rows)), es)))
  {
    var sweeping := s.AtLane(Sweeping(rows));
    if LeavesOutNoDanger(s, rows) {
      SweepStartKeeps(s, rows);
      forall es | ReadsSuffice(sweeping, es)
        ensures NoSharedNonce(Run(sweeping, es))
      {
        RunKeeps(sweeping, es);
      }
    } else {
      var id :| Live(s, id) && id !in rows && !Blocked(s, id) && !Sheltered(s, rows, id);
      var es := UnsweptBundleIsExposed(s, rows, id);
    }
  }
}
