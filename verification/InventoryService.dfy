// The inventory service: each operation is one transaction over the stored
// ledger, and the multi-line operations retry when a row lock is refused.

module InventoryService {
  import opened Common
  import opened InventoryLedger

  // What one attempt of a retried operation meets: the rows that other sessions
  // committed since the attempt before, the warehouses locked by then, and
  // whether it obtains all its NOWAIT locks.
  datatype Try = Try(arrived: seq<Row>, locked: set<WarehouseId>, granted: bool)

  // Whether the attempt settles the call; a refused lock starts another one.
  predicate Settled(t: Try, warehouses: set<WarehouseId>) {
    t.granted || !(warehouses !! t.locked)
  }

  // The ledger as it stands when attempt k has begun.
  function SeenBy(ledger: seq<Row>, tries: seq<Try>, k: nat): seq<Row>
    requires k < |tries|
  {
    if k == 0 then ledger + tries[0].arrived else SeenBy(ledger, tries, k - 1) + tries[k].arrived
  }

  // How a retried operation ends: attempt `last` is the first that is not
  // refused a lock, or the last one, and its outcome is the outcome of the call.
  ghost predicate Outcome(before: seq<Row>, op: Op, warehouses: set<WarehouseId>, tries: seq<Try>,
                          last: nat, after: seq<Row>, r: Result<seq<Row>, Error>)
  {
    && last < |tries| == 3
    && (forall k :: 0 <= k < last ==> !Settled(tries[k], warehouses))
    && (Settled(tries[last], warehouses) || last == 2)
    && var seen := SeenBy(before, tries, last);
       && r == (if !(warehouses !! tries[last].locked) then Err(WarehouseLocked)
                else if !tries[last].granted then Err(LockNotAvailable)
                else Process(seen, op, LineCount(op)))
       && after == if r.Ok? then seen + r.value else seen
  }

  class InventoryService {
    var ledger: seq<Row>

    constructor ()
      ensures ledger == []
    {
      ledger := [];
    }

    method RecordMovement(d: MovementData, now: int) returns (r: Result<Row, Error>)
      modifies this
      ensures Execute(old(ledger), Movement(d, now))
              == match r case Ok(row) => Ok(old(ledger) + [row]) case Err(e) => Err(e)
      ensures ledger == After(old(ledger), Movement(d, now))
    {
      if !ValidMovement(d, now) {
        return Err(ValidationError);
      }
      ghost var op := Movement(d, now);
      assert Process(ledger, op, 0) == Ok([]) && ledger + [] == ledger;
      r := MovementRow(ledger, d);
      if r.Ok? {
        assert [] + [r.value] == [r.value];
        ledger := ledger + [r.value];
      }
    }

    method TransferStock(from: WarehouseId, to: WarehouseId, date: int, moves: seq<TransferLine>, tries: seq<Try>)
      returns (r: Result<seq<Row>, Error>, ghost last: nat)
      requires |tries| == 3
      modifies this
      ensures from == to ==> r == Err(ValidationError) && ledger == old(ledger)
      ensures from != to ==>
                Outcome(old(ledger), Transfer(from, to, date, moves), {from, to}, tries, last, ledger, r)
    {
      last := 0;
      if from == to {
        return Err(ValidationError), last;
      }
      for attempt := 0 to MAX_ATTEMPTS
        invariant forall k :: 0 <= k < attempt ==> !Settled(tries[k], {from, to})
        invariant ledger == if attempt == 0 then old(ledger) else SeenBy(old(ledger), tries, attempt - 1)
      {
        last := attempt;
        ledger := ledger + tries[attempt].arrived;
        if from in tries[attempt].locked || to in tries[attempt].locked {
          return Err(WarehouseLocked), last;
        }
        if tries[attempt].granted {
          r := TransferLines(from, to, date, moves);
          ledger := if r.Ok? then ledger + r.value else ledger;
          return r, last;
        }
      }
      last := MAX_ATTEMPTS - 1;
      return Err(LockNotAvailable), last;
    }

    // The lines of a transfer, each seeing the rows of those before it.
    method TransferLines(from: WarehouseId, to: WarehouseId, date: int, moves: seq<TransferLine>)
      returns (r: Result<seq<Row>, Error>)
      ensures r == Process(ledger, Transfer(from, to, date, moves), |moves|)
    {
      var rows := [];
      for i := 0 to |moves|
        invariant Process(ledger, Transfer(from, to, date, moves), i) == Ok(rows)
      {
        var line := TransferRows(ledger + rows, from, to, date, moves[i]);
        if line.Err? {
          ProcessStops(ledger, Transfer(from, to, date, moves), i + 1);
          return Err(line.error);
        }
        rows := rows + line.value;
      }
      return Ok(rows);
    }

    method AdjustStock(warehouse: WarehouseId, date: int, reasonGiven: bool, counts: seq<AdjustLine>, tries: seq<Try>)
      returns (r: Result<seq<Row>, Error>, ghost last: nat)
      requires |tries| == 3
      modifies this
      ensures !reasonGiven ==> r == Err(ValidationError) && ledger == old(ledger)
      ensures reasonGiven ==>
                Outcome(old(ledger), Adjust(warehouse, date, reasonGiven, counts), {warehouse}, tries, last, ledger, r)
    {
      last := 0;
      if !reasonGiven {
        return Err(ValidationError), last;
      }
      for attempt := 0 to MAX_ATTEMPTS
        invariant forall k :: 0 <= k < attempt ==> !Settled(tries[k], {warehouse})
        invariant ledger == if attempt == 0 then old(ledger) else SeenBy(old(ledger), tries, attempt - 1)
      {
        last := attempt;
        ledger := ledger + tries[attempt].arrived;
        if warehouse in tries[attempt].locked {
          return Err(WarehouseLocked), last;
        }
        if tries[attempt].granted {
          r := AdjustLines(warehouse, date, counts);
          ledger := if r.Ok? then ledger + r.value else ledger;
          return r, last;
        }
      }
      last := MAX_ATTEMPTS - 1;
      return Err(LockNotAvailable), last;
    }

    method AdjustLines(warehouse: WarehouseId, date: int, counts: seq<AdjustLine>)
      returns (r: Result<seq<Row>, Error>)
      ensures r == Process(ledger, Adjust(warehouse, date, true, counts), |counts|)
    {
      var rows := [];
      for i := 0 to |counts|
        invariant Process(ledger, Adjust(warehouse, date, true, counts), i) == Ok(rows)
      {
        var line := AdjustRows(ledger + rows, warehouse, date, counts[i]);
        if line.Err? {
          ProcessStops(ledger, Adjust(warehouse, date, true, counts), i + 1);
          return Err(line.error);
        }
        rows := rows + line.value;
      }
      return Ok(rows);
    }
  }

  // A line that fails fails the whole operation with its error.
  lemma {:induction false} ProcessStops(ledger: seq<Row>, op: Op, k: nat)
    requires k <= LineCount(op) && Process(ledger, op, k).Err?
    ensures Process(ledger, op, LineCount(op)) == Process(ledger, op, k)
    decreases LineCount(op) - k
  {
    if k < LineCount(op) {
      ProcessStops(ledger, op, k + 1);
    }
  }
}
