/** The durable reservation table and smoke counters, as the engine uses them. */
module Stores {
  import opened Arithmetic
  import opened Chain
  import opened LaneMachine
  import opened Wrappers

  class Store {
    var table: Table
    var smokeUsed: nat
    var smokeGas: nat

    constructor ()
      ensures table == map[] && smokeUsed == 0 && smokeGas == 0
    {
      table, smokeUsed, smokeGas := map[], 0, 0;
    }

    /** `wrote` is whether the database took the write. */
    method ReserveBundleNonces(id: BundleId, start: nat, count: nat, target: nat, wrote: bool) returns (ok: bool)
      modifies `table
      ensures ok == wrote
      ensures table == if wrote then old(table)[id := Reservation(start, count, target, Reserved)] else old(table)
    {
      ok := wrote;
      if wrote { table := table[id := Reservation(start, count, target, Reserved)]; }
    }

    method SetStatus(id: BundleId, status: Status, wrote: bool)
      modifies `table
      ensures table == LaneMachine.SetStatus(old(table), id, status, wrote) && table.Keys == old(table).Keys
      ensures forall k :: k in table ==>
                table[k] == (if wrote && k == id then old(table)[k].(status := status) else old(table)[k])
    {
      if wrote && id in table { table := table[id := table[id].(status := status)]; }
    }

    /** Takes one slot, and in raw mode (`rawCap` given) gas exposure, or refuses and takes
        nothing. An error is a read or write the database did not take. */
    method TryConsumeSmoke(max: nat, rawCap: Option<nat>, gas: nat, database: bool) returns (r: Result<bool, ()>)
      modifies `smokeUsed, `smokeGas
      ensures r == Ok(true) ==> smokeUsed == old(smokeUsed) + 1 <= max && smokeGas == Min(old(smokeGas) + gas, U256_MAX)
      ensures r == Ok(true) && rawCap.Some? ==> smokeGas <= rawCap.value && rawCap.value != 0
      ensures r.Err? <==> max != 0 && !database
      ensures r != Ok(true) ==> smokeUsed == old(smokeUsed) && smokeGas == old(smokeGas)
      ensures r == Ok(true) <==> database && old(smokeUsed) < max
                                 && (rawCap.Some? ==> rawCap.value != 0 && Min(old(smokeGas) + gas, U256_MAX) <= rawCap.value)
    {
      if max == 0 { return Ok(false); }
      if !database { return Err(()); }
      if smokeUsed >= max { return Ok(false); }
      var next := Min(smokeGas + gas, U256_MAX);
      if rawCap.Some? && (rawCap.value == 0 || next > rawCap.value) { return Ok(false); }
      smokeUsed, smokeGas := smokeUsed + 1, next;
      return Ok(true);
    }
  }
}
