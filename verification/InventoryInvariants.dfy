// The running columns agree with a fold over the whole ledger, over every
// chronological run of the three operations.

module InventoryInvariants {
  import opened Common
  import opened InventoryLedger

  // ------------------------------------------------ the reference definition

  datatype Position = Position(qty: real, cost: real)

  // Perpetual weighted-average costing, replayed from the quantity and
  // unit-cost columns alone: no running column and no clamp is read.
  function Replay(ledger: seq<Row>, p: ProductId, w: WarehouseId): Position {
    if ledger == [] then Position(0.0, 0.0) else
      var k := |ledger| - 1;
      var pos := Replay(ledger[..k], p, w);
      if At(ledger[k], p, w) then Step(pos, ledger[k]) else pos
  }

  function Step(pos: Position, r: Row): Position {
    if r.qtyIn > 0.0 then Position(pos.qty + r.qtyIn, pos.cost + r.qtyIn * r.unitCost)
    else Position(pos.qty - r.qtyOut, pos.cost - r.qtyOut * Average(pos.cost, pos.qty))
  }

  ghost predicate ConsistentAt(ledger: seq<Row>, p: ProductId, w: WarehouseId) {
    && RunningQty(ledger, p, w) == Balance(ledger, p, w) == Replay(ledger, p, w).qty
    && RunningCost(ledger, p, w) == Replay(ledger, p, w).cost
    && 0.0 <= RunningQty(ledger, p, w)
    && 0.0 <= RunningCost(ledger, p, w)
    && (RunningQty(ledger, p, w) == 0.0 ==> RunningCost(ledger, p, w) == 0.0)
  }

  ghost predicate Consistent(ledger: seq<Row>) {
    forall p, w :: ConsistentAt(ledger, p, w)
  }

  // Every row is dated no earlier than the older rows of its product and warehouse.
  ghost predicate Chronological(ledger: seq<Row>) {
    forall i, j :: 0 <= i < j < |ledger| && At(ledger[j], ledger[i].product, ledger[i].warehouse)
                   ==> ledger[i].date <= ledger[j].date
  }

  // ------------------------------------------------------------ a legal row

  // The row records a receipt at its own unit cost, or an issue at average cost
  // of no more than is there, and its running columns say so.
  ghost predicate LegalRow(ledger: seq<Row>, r: Row) {
    LegalOn(RunningQty(ledger, r.product, r.warehouse), RunningCost(ledger, r.product, r.warehouse), r)
  }

  ghost predicate LegalOn(qty: real, cost: real, r: Row) {
    || (&& r.qtyIn > 0.0 && r.qtyOut == 0.0 && r.unitCost >= 0.0
        && r.runningQty == qty + r.qtyIn
        && r.runningCost == cost + r.qtyIn * r.unitCost)
    || (&& r.qtyIn == 0.0 && 0.0 < r.qtyOut <= qty
        && r.runningQty == qty - r.qtyOut
        && r.runningCost == cost - r.qtyOut * Average(cost, qty))
  }

  lemma {:induction false} AppendedRow(ledger: seq<Row>, r: Row, p: ProductId, w: WarehouseId)
    ensures RunningQty(ledger + [r], p, w) == if At(r, p, w) then r.runningQty else RunningQty(ledger, p, w)
    ensures RunningCost(ledger + [r], p, w) == if At(r, p, w) then r.runningCost else RunningCost(ledger, p, w)
    ensures SumIn(ledger + [r], p, w) == SumIn(ledger, p, w) + if At(r, p, w) then r.qtyIn else 0.0
    ensures SumOut(ledger + [r], p, w) == SumOut(ledger, p, w) + if At(r, p, w) then r.qtyOut else 0.0
    ensures Replay(ledger + [r], p, w) == if At(r, p, w) then Step(Replay(ledger, p, w), r) else Replay(ledger, p, w)
  {
    assert (ledger + [r])[..|ledger|] == ledger;
  }

  // Issuing part of a position at average cost leaves the remaining share of the cost.
  lemma {:induction false} IssueShare(qty: real, cost: real, out: real)
    requires 0.0 < out <= qty && 0.0 <= cost
    ensures 0.0 <= cost - out * Average(cost, qty)
    ensures out == qty ==> cost - out * Average(cost, qty) == 0.0
    ensures (cost / qty) * out == out * Average(cost, qty) >= 0.0
    ensures Average(cost, qty) >= 0.0
  {
    var avg := cost / qty;
    assert avg * qty == cost;
    ProductKeepsOrder(out, qty, avg);
  }

  // One legal row takes a sound position to a sound one, which its running
  // columns show.
  ghost predicate Sound(pos: Position) {
    0.0 <= pos.qty && 0.0 <= pos.cost && (pos.qty == 0.0 ==> pos.cost == 0.0)
  }

  lemma {:induction false} LegalRowStep(ledger: seq<Row>, r: Row)
    requires ConsistentAt(ledger, r.product, r.warehouse) && LegalRow(ledger, r)
    ensures Step(Replay(ledger, r.product, r.warehouse), r) == Position(r.runningQty, r.runningCost)
    ensures Sound(Position(r.runningQty, r.runningCost))
  {
    var pos := Replay(ledger, r.product, r.warehouse);
    assert pos == Position(RunningQty(ledger, r.product, r.warehouse), RunningCost(ledger, r.product, r.warehouse));
    if r.qtyIn > 0.0 {
      assert r.qtyIn * r.unitCost >= 0.0;
    } else {
      IssueShare(pos.qty, pos.cost, r.qtyOut);
    }
  }

  lemma {:induction false} LegalRowKeepsConsistent(ledger: seq<Row>, r: Row)
    requires Consistent(ledger) && LegalRow(ledger, r)
    ensures Consistent(ledger + [r])
  {
    assert ConsistentAt(ledger, r.product, r.warehouse);
    LegalRowStep(ledger, r);
    forall p, w ensures ConsistentAt(ledger + [r], p, w) {
      AppendedRow(ledger, r, p, w);
      assert ConsistentAt(ledger, p, w);
    }
  }

  // --------------------------------------------- the operations write legal rows

  lemma {:induction false} NewestAgree(ledger: seq<Row>, p: ProductId, w: WarehouseId)
    requires Chronological(ledger)
    ensures NewestByDate(ledger, p, w) == Newest(ledger, p, w)
    ensures Newest(ledger, p, w).Some? ==> Newest(ledger, p, w).value in ledger && At(Newest(ledger, p, w).value, p, w)
  {
    if ledger != [] {
      NewestAgree(ledger[..|ledger| - 1], p, w);
    }
  }

  ghost predicate LegalRows(ledger: seq<Row>, rows: seq<Row>) {
    forall i :: 0 <= i < |rows| ==> LegalRow(ledger + rows[..i], rows[i])
  }

  lemma {:induction false} LegalRowsKeepConsistent(ledger: seq<Row>, rows: seq<Row>)
    requires Consistent(ledger) && LegalRows(ledger, rows)
    ensures Consistent(ledger + rows)
  {
    if rows == [] {
      assert ledger + rows == ledger;
    } else {
      var k := |rows| - 1;
      forall i | 0 <= i < k ensures LegalRow(ledger + rows[..k][..i], rows[..k][i]) {
        assert rows[..k][..i] == rows[..i];
      }
      LegalRowsKeepConsistent(ledger, rows[..k]);
      LegalRowKeepsConsistent(ledger + rows[..k], rows[k]);
      assert ledger + rows == (ledger + rows[..k]) + [rows[k]];
    }
  }

  lemma {:induction false} LegalRowsJoin(ledger: seq<Row>, rows: seq<Row>, more: seq<Row>)
    requires LegalRows(ledger, rows) && LegalRows(ledger + rows, more)
    ensures LegalRows(ledger, rows + more)
  {
    forall i | 0 <= i < |rows + more| ensures LegalRow(ledger + (rows + more)[..i], (rows + more)[i]) {
      if i < |rows| {
        assert (rows + more)[..i] == rows[..i];
      } else {
        assert ledger + (rows + more)[..i] == (ledger + rows) + more[..i - |rows|];
      }
    }
  }

  lemma {:induction false} BaseUnits(d: MovementData)
    ensures Rate(d) > 0.0
    ensures d.qtyIn == 0.0 ==> BaseIn(d) == 0.0
    ensures d.qtyIn > 0.0 ==> BaseIn(d) > 0.0
    ensures d.qtyOut == 0.0 ==> BaseOut(d) == 0.0
    ensures d.qtyOut > 0.0 ==> BaseOut(d) > 0.0
    ensures d.unitCost >= 0.0 ==> BaseUnitCost(d) >= 0.0
    ensures BaseIn(d) * BaseUnitCost(d) == d.qtyIn * d.unitCost
  {
    var r := Rate(d);
    assert r * (d.unitCost / r) == d.unitCost;
    assert BaseIn(d) * BaseUnitCost(d) == d.qtyIn * (r * (d.unitCost / r));
  }

  lemma {:induction false} MovementRowIsLegal(ledger: seq<Row>, d: MovementData, now: int)
    requires Consistent(ledger) && Chronological(ledger) && ValidMovement(d, now)
    ensures MovementRow(ledger, d).Ok? ==> LegalRow(ledger, MovementRow(ledger, d).value)
    ensures MovementRow(ledger, d).Err? <==> Balance(ledger, d.product, d.warehouse) < BaseOut(d)
  {
    var p, w := d.product, d.warehouse;
    NewestAgree(ledger, p, w);
    BaseUnits(d);
    assert ConsistentAt(ledger, p, w);
    var qty, cost := RunningQty(ledger, p, w), RunningCost(ledger, p, w);
    if BaseIn(d) > 0.0 {
      assert BaseIn(d) * BaseUnitCost(d) >= 0.0;
    } else if BaseOut(d) <= qty {
      IssueShare(qty, cost, BaseOut(d));
    }
  }

  lemma {:induction false} MovementAlone(ledger: seq<Row>, d: MovementData, now: int)
    requires ValidMovement(d, now)
    ensures Execute(ledger, Movement(d, now))
            == match MovementRow(ledger, d) case Err(e) => Err(e) case Ok(row) => Ok(ledger + [row])
  {
    var op := Movement(d, now);
    assert Process(ledger, op, 0) == Ok([]) && ledger + [] == ledger;
    if MovementRow(ledger, d).Ok? {
      assert [] + [MovementRow(ledger, d).value] == [MovementRow(ledger, d).value];
    }
  }

  lemma {:induction false} TransferRowsAreLegal(ledger: seq<Row>, from: WarehouseId, to: WarehouseId,
      date: int, move: TransferLine)
    requires Consistent(ledger) && from != to && move.qty > 0.0
    ensures TransferRows(ledger, from, to, date, move).Ok?
            ==> LegalRows(ledger, TransferRows(ledger, from, to, date, move).value)
    ensures TransferRows(ledger, from, to, date, move).Err?
            ==> TransferRows(ledger, from, to, date, move).error == InsufficientStock
                && Balance(ledger, move.product, from) < move.qty
  {
    assert ConsistentAt(ledger, move.product, from) && ConsistentAt(ledger, move.product, to);
    if move.qty <= Balance(ledger, move.product, from) {
      var rows := TransferRows(ledger, from, to, date, move).value;
      TransferOutIsLegal(ledger, from, to, date, move);
      AppendedRow(ledger, rows[0], move.product, to);
      TransferInIsLegal(ledger, from, to, date, move);
      LegalPair(ledger, rows[0], rows[1]);
    }
  }

  lemma {:induction false} TransferOutIsLegal(ledger: seq<Row>, from: WarehouseId, to: WarehouseId, date: int,
      move: TransferLine)
    requires ConsistentAt(ledger, move.product, from) && 0.0 < move.qty <= Balance(ledger, move.product, from)
    ensures TransferRows(ledger, from, to, date, move).Ok?
    ensures LegalRow(ledger, TransferRows(ledger, from, to, date, move).value[0])
  {
    IssueShare(RunningQty(ledger, move.product, from), RunningCost(ledger, move.product, from), move.qty);
  }

  lemma {:induction false} TransferInIsLegal(ledger: seq<Row>, from: WarehouseId, to: WarehouseId, date: int,
      move: TransferLine)
    requires ConsistentAt(ledger, move.product, from) && ConsistentAt(ledger, move.product, to) && from != to
    requires 0.0 < move.qty <= Balance(ledger, move.product, from)
    ensures TransferRows(ledger, from, to, date, move).Ok?
    ensures var rows := TransferRows(ledger, from, to, date, move).value;
            LegalRow(ledger + [rows[0]], rows[1])
  {
    IssueShare(RunningQty(ledger, move.product, from), RunningCost(ledger, move.product, from), move.qty);
    var rows := TransferRows(ledger, from, to, date, move).value;
    AppendedRow(ledger, rows[0], move.product, to);
  }

  lemma {:induction false} LegalPair(ledger: seq<Row>, first: Row, second: Row)
    requires LegalRow(ledger, first) && LegalRow(ledger + [first], second)
    ensures LegalRows(ledger, [first, second])
  {
    var rows := [first, second];
    assert rows[..0] == [] && rows[..1] == [first];
    assert ledger + [] == ledger;
  }

  lemma {:induction false} AdjustRowsAreLegal(ledger: seq<Row>, w: WarehouseId, date: int, line: AdjustLine)
    requires Consistent(ledger) && line.unitCost >= 0.0
    ensures AdjustRows(ledger, w, date, line).Ok? ==> LegalRows(ledger, AdjustRows(ledger, w, date, line).value)
    ensures AdjustRows(ledger, w, date, line).Err?
            <==> Balance(ledger, line.product, w) < line.qtySystem - line.qtyActual
  {
    var p := line.product;
    assert ConsistentAt(ledger, p, w);
    var qty, cost, diff := RunningQty(ledger, p, w), RunningCost(ledger, p, w), line.qtyActual - line.qtySystem;
    assert ledger + [] == ledger;
    if diff > 0.0 {
      assert diff * line.unitCost >= 0.0;
    } else if diff < 0.0 && -diff <= qty {
      IssueShare(qty, cost, -diff);
      assert diff * Average(cost, qty) == -((-diff) * Average(cost, qty));
    }
  }

  // ------------------------------------------------------------ whole runs

  // An operation that reads the newest row by date needs the ledger it sees to
  // be chronological; the other two order by insertion.
  lemma {:induction false} LineRowsAreLegal(ledger: seq<Row>, op: Op, k: nat)
    requires Consistent(ledger) && Admissible(op) && WithinDto(op) && k < LineCount(op)
    requires op.Movement? ==> Chronological(ledger)
    ensures LineRows(ledger, op, k).Ok? ==> LegalRows(ledger, LineRows(ledger, op, k).value)
    ensures LineRows(ledger, op, k).Err? ==> LineRows(ledger, op, k).error == InsufficientStock
  {
    match op
    case Movement(d, now) =>
      MovementRowIsLegal(ledger, d, now);
      if LineRows(ledger, op, k).Ok? {
        assert ledger + LineRows(ledger, op, k).value[..0] == ledger;
      }
    case Transfer(from, to, date, moves) =>
      TransferRowsAreLegal(ledger, from, to, date, moves[k]);
    case Adjust(w, date, _, counts) =>
      AdjustRowsAreLegal(ledger, w, date, counts[k]);
  }

  lemma {:induction false} ProcessKeepsConsistent(ledger: seq<Row>, op: Op, k: nat)
    requires Consistent(ledger) && Admissible(op) && WithinDto(op) && k <= LineCount(op)
    requires op.Movement? ==> Chronological(ledger)
    ensures Process(ledger, op, k).Ok? ==> Consistent(ledger + Process(ledger, op, k).value)
    ensures Process(ledger, op, k).Err? ==> Process(ledger, op, k).error == InsufficientStock
  {
    assert ledger + [] == ledger;
    if k > 0 {
      ProcessKeepsConsistent(ledger, op, k - 1);
      if Process(ledger, op, k - 1).Ok? {
        var seen := ledger + Process(ledger, op, k - 1).value;
        if op.Movement? { assert seen == ledger; }
        LineRowsAreLegal(seen, op, k - 1);
        if LineRows(seen, op, k - 1).Ok? {
          var more := LineRows(seen, op, k - 1).value;
          LegalRowsKeepConsistent(seen, more);
          assert seen + more == ledger + (Process(ledger, op, k - 1).value + more);
        }
      }
    }
  }

  lemma {:induction false} ProcessWritesLegalRows(ledger: seq<Row>, op: Op, k: nat)
    requires Consistent(ledger) && Admissible(op) && WithinDto(op) && k <= LineCount(op)
    requires op.Movement? ==> Chronological(ledger)
    requires Process(ledger, op, k).Ok?
    ensures LegalRows(ledger, Process(ledger, op, k).value)
  {
    if k > 0 {
      var rows := Process(ledger, op, k - 1).value;
      var more := LineRows(ledger + rows, op, k - 1).value;
      assert Process(ledger, op, k).value == rows + more;
      assert LegalRows(ledger, rows) by { ProcessWritesLegalRows(ledger, op, k - 1); }
      assert LegalRows(ledger + rows, more) by {
        ProcessKeepsConsistent(ledger, op, k - 1);
        if op.Movement? { assert ledger + rows == ledger; }
        LineRowsAreLegal(ledger + rows, op, k - 1);
      }
      LegalRowsJoin(ledger, rows, more);
    }
  }

  // Main theorem: in any chronological run every row ever written is legal over
  // the rows before it, and the newest row of every product and warehouse
  // carries the replayed position, which is the balance of the quantity columns;
  // nothing is negative and no stock means no cost.  The replay has no clamp, so
  // no Math.max(0, ..) ever changed a stored cost.
  lemma {:induction false} RunsAreConsistent(ops: seq<Op>)
    requires forall i :: 0 <= i < |ops| ==> WithinDto(ops[i])
    requires Chronological(RunOf(ops))
    ensures LegalRows([], RunOf(ops))
    ensures Consistent(RunOf(ops))
  {
    if ops == [] {
      forall p, w ensures ConsistentAt([], p, w) {}
    } else {
      var k := |ops| - 1;
      var before := RunOf(ops[..k]);
      assert before <= After(before, ops[k]);
      assert before == RunOf(ops)[..|before|];
      assert Chronological(before);
      RunsAreConsistent(ops[..k]);
      if Admissible(ops[k]) {
        ProcessKeepsConsistent(before, ops[k], LineCount(ops[k]));
        if Execute(before, ops[k]).Ok? {
          assert [] + before == before;
          ProcessWritesLegalRows(before, ops[k], LineCount(ops[k]));
          LegalRowsJoin([], before, Process(before, ops[k], LineCount(ops[k])).value);
        }
      }
    }
  }

  // ---------------------------------------------------------- what a row carries

  function OpDate(op: Op): int {
    match op
    case Movement(d, _) => d.date
    case Transfer(_, _, date, _) => date
    case Adjust(_, date, _, _) => date
  }

  function OpWarehouses(op: Op): set<WarehouseId> {
    match op
    case Movement(d, _) => {d.warehouse}
    case Transfer(from, to, _, _) => {from, to}
    case Adjust(w, _, _, _) => {w}
  }

  // A row bears the date of its operation, the product of its line and a
  // warehouse the operation names.
  ghost predicate Stamped(op: Op, k: nat, r: Row)
    requires k < LineCount(op)
  {
    && r.date == OpDate(op) && r.product == LineProduct(op, k) && r.warehouse in OpWarehouses(op)
    && r.origin == (match op case Movement(_, _) => FromMovement case Transfer(_, _, _, _) => FromTransfer
                             case Adjust(_, _, _, _) => FromAdjustment)
  }

  lemma {:induction false} LineRowsAreStamped(ledger: seq<Row>, op: Op, k: nat)
    requires k < LineCount(op) && LineRows(ledger, op, k).Ok?
    ensures forall r :: r in LineRows(ledger, op, k).value ==> Stamped(op, k, r)
  {
  }
}
