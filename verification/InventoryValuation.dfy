// The cost columns as a valuation of the ledger.

module InventoryValuation {
  import opened Common
  import opened InventoryLedger
  import opened InventoryInvariants

  // total_cost over in-rows minus total_cost over out-rows.
  function LedgerValue(ledger: seq<Row>, p: ProductId, w: WarehouseId): real {
    if ledger == [] then 0.0 else
      var k := |ledger| - 1;
      var r := ledger[k];
      LedgerValue(ledger[..k], p, w)
      + if !At(r, p, w) then 0.0 else if r.qtyIn > 0.0 then r.totalCost else -r.totalCost
  }

  predicate OutboundMovement(r: Row, p: ProductId, w: WarehouseId) {
    At(r, p, w) && r.origin.FromMovement? && r.qtyOut > 0.0
  }

  // Cost that outbound movements took out of stock without writing it to total_cost.
  function Unrecorded(ledger: seq<Row>, p: ProductId, w: WarehouseId): real {
    if ledger == [] then 0.0 else
      var k := |ledger| - 1;
      Unrecorded(ledger[..k], p, w)
      + if OutboundMovement(ledger[k], p, w) then RunningCost(ledger[..k], p, w) - ledger[k].runningCost else 0.0
  }

  // No outbound movement ever took goods that carried a cost.
  ghost predicate OnlyCostlessIssues(ledger: seq<Row>, p: ProductId, w: WarehouseId) {
    forall i :: 0 <= i < |ledger| && OutboundMovement(ledger[i], p, w) ==> RunningCost(ledger[..i], p, w) == 0.0
  }

  // The total_cost column of a row: what came in, or the average cost of what
  // went out, except that an outbound movement stores nothing.
  ghost predicate Costed(ledger: seq<Row>, r: Row) {
    if r.qtyIn > 0.0 then r.totalCost == r.qtyIn * r.unitCost
    else r.totalCost == if r.origin.FromMovement? then 0.0
                        else r.qtyOut * Average(RunningCost(ledger, r.product, r.warehouse),
                                                RunningQty(ledger, r.product, r.warehouse))
  }

  ghost predicate CostedRows(ledger: seq<Row>, rows: seq<Row>) {
    forall i :: 0 <= i < |rows| ==> Costed(ledger + rows[..i], rows[i])
  }

  lemma {:induction false} LineRowsAreCosted(ledger: seq<Row>, op: Op, k: nat)
    requires Admissible(op) && WithinDto(op) && k < LineCount(op)
    requires LineRows(ledger, op, k).Ok?
    ensures CostedRows(ledger, LineRows(ledger, op, k).value)
  {
    var rows := LineRows(ledger, op, k).value;
    assert ledger + [] == ledger && rows[..0] == [];
    match op
    case Movement(d, now) => BaseUnits(d);
    case Transfer(from, to, date, moves) => TransferIsCosted(ledger, from, to, date, moves[k]);
    case Adjust(w, date, _, counts) => AdjustIsCosted(ledger, w, date, counts[k]);
  }

  lemma {:induction false} TransferIsCosted(ledger: seq<Row>, from: WarehouseId, to: WarehouseId, date: int,
      move: TransferLine)
    requires move.qty > 0.0 && TransferRows(ledger, from, to, date, move).Ok?
    ensures CostedRows(ledger, TransferRows(ledger, from, to, date, move).value)
  {
    var rows := TransferRows(ledger, from, to, date, move).value;
    assert ledger + rows[..0] == ledger;
    assert Costed(ledger, rows[0]);
    assert Costed(ledger + rows[..1], rows[1]);
  }

  lemma {:induction false} AdjustIsCosted(ledger: seq<Row>, w: WarehouseId, date: int, line: AdjustLine)
    requires AdjustRows(ledger, w, date, line).Ok?
    ensures CostedRows(ledger, AdjustRows(ledger, w, date, line).value)
  {
    var rows := AdjustRows(ledger, w, date, line).value;
    if rows != [] {
      assert ledger + rows[..0] == ledger;
      assert Costed(ledger, rows[0]);
    }
  }

  lemma {:induction false} CostedRowsJoin(ledger: seq<Row>, rows: seq<Row>, more: seq<Row>)
    requires CostedRows(ledger, rows) && CostedRows(ledger + rows, more)
    ensures CostedRows(ledger, rows + more)
  {
    forall i | 0 <= i < |rows + more| ensures Costed(ledger + (rows + more)[..i], (rows + more)[i]) {
      if i < |rows| {
        assert (rows + more)[..i] == rows[..i];
      } else {
        assert ledger + (rows + more)[..i] == (ledger + rows) + more[..i - |rows|];
      }
    }
  }

  lemma {:induction false} ProcessWritesCostedRows(ledger: seq<Row>, op: Op, k: nat)
    requires Admissible(op) && WithinDto(op) && k <= LineCount(op)
    requires Process(ledger, op, k).Ok?
    ensures CostedRows(ledger, Process(ledger, op, k).value)
  {
    if k > 0 {
      ProcessWritesCostedRows(ledger, op, k - 1);
      var rows := Process(ledger, op, k - 1).value;
      LineRowsAreCosted(ledger + rows, op, k - 1);
      CostedRowsJoin(ledger, rows, LineRows(ledger + rows, op, k - 1).value);
    }
  }

  lemma {:induction false} RunsAreCosted(ops: seq<Op>)
    requires forall i :: 0 <= i < |ops| ==> WithinDto(ops[i])
    ensures CostedRows([], RunOf(ops))
  {
    if ops != [] {
      var k := |ops| - 1;
      RunsAreCosted(ops[..k]);
      var before := RunOf(ops[..k]);
      if Execute(before, ops[k]).Ok? {
        ProcessWritesCostedRows(before, ops[k], LineCount(ops[k]));
        assert [] + before == before;
        CostedRowsJoin([], before, Process(before, ops[k], LineCount(ops[k])).value);
      }
    }
  }

  lemma {:induction false} LegalIsConsistent(ledger: seq<Row>)
    requires LegalRows([], ledger) && CostedRows([], ledger)
    ensures Consistent(ledger)
  {
    if ledger == [] {
      forall p, w ensures ConsistentAt([], p, w) {}
    } else {
      var k := |ledger| - 1;
      LegalPrefix(ledger, k);
      LegalIsConsistent(ledger[..k]);
      LegalRowKeepsConsistent(ledger[..k], ledger[k]);
      assert ledger == ledger[..k] + [ledger[k]];
    }
  }

  lemma {:induction false} ValueOfLegalLedger(ledger: seq<Row>, p: ProductId, w: WarehouseId)
    requires LegalRows([], ledger) && CostedRows([], ledger)
    ensures LedgerValue(ledger, p, w) == RunningCost(ledger, p, w) + Unrecorded(ledger, p, w)
    ensures Unrecorded(ledger, p, w) >= 0.0
    ensures Unrecorded(ledger, p, w) == 0.0 <==> OnlyCostlessIssues(ledger, p, w)
  {
    if ledger != [] {
      var k := |ledger| - 1;
      LegalPrefix(ledger, k);
      ValueOfLegalLedger(ledger[..k], p, w);
      LegalIsConsistent(ledger[..k]);
      ValueStep(ledger[..k], ledger[k], p, w);
      assert ledger == ledger[..k] + [ledger[k]];
      CostlessStep(ledger, p, w);
    }
  }

  lemma {:induction false} CostlessStep(ledger: seq<Row>, p: ProductId, w: WarehouseId)
    requires ledger != []
    ensures var before, r := ledger[..|ledger| - 1], ledger[|ledger| - 1];
            OnlyCostlessIssues(ledger, p, w)
            <==> OnlyCostlessIssues(before, p, w) && (OutboundMovement(r, p, w) ==> RunningCost(before, p, w) == 0.0)
  {
    var before := ledger[..|ledger| - 1];
    assert forall i :: 0 <= i < |before| ==> ledger[i] == before[i] && ledger[..i] == before[..i];
  }

  lemma {:induction false} ValueStep(before: seq<Row>, r: Row, p: ProductId, w: WarehouseId)
    requires Consistent(before) && LegalRow(before, r) && Costed(before, r)
    ensures var ledger := before + [r];
            LedgerValue(ledger, p, w) - LedgerValue(before, p, w)
            == RunningCost(ledger, p, w) - RunningCost(before, p, w)
               + Unrecorded(ledger, p, w) - Unrecorded(before, p, w)
    ensures Unrecorded(before + [r], p, w) >= Unrecorded(before, p, w)
    ensures Unrecorded(before + [r], p, w) == Unrecorded(before, p, w)
            <==> (OutboundMovement(r, p, w) ==> RunningCost(before, p, w) == 0.0)
  {
    assert (before + [r])[..|before|] == before;
    AppendedRow(before, r, p, w);
    assert ConsistentAt(before, p, w);
    if At(r, p, w) && r.qtyOut > 0.0 {
      ShareIsZeroIff(RunningQty(before, p, w), RunningCost(before, p, w), r.qtyOut);
    }
  }

  lemma {:induction false} LegalPrefix(ledger: seq<Row>, k: nat)
    requires LegalRows([], ledger) && CostedRows([], ledger) && k < |ledger|
    ensures LegalRows([], ledger[..k]) && LegalRow(ledger[..k], ledger[k])
    ensures CostedRows([], ledger[..k]) && Costed(ledger[..k], ledger[k])
  {
    assert [] + ledger[..k] == ledger[..k];
    forall i | 0 <= i < k
      ensures LegalRow([] + ledger[..k][..i], ledger[..k][i]) && Costed([] + ledger[..k][..i], ledger[..k][i])
    {
      assert ledger[..k][..i] == ledger[..i];
    }
  }

  lemma {:induction false} ShareIsZeroIff(qty: real, cost: real, out: real)
    requires 0.0 < out <= qty && 0.0 <= cost
    ensures out * (cost / qty) >= 0.0
    ensures out * (cost / qty) == 0.0 <==> cost == 0.0
  {
    var avg := cost / qty;
    assert avg * qty == cost;
    if cost > 0.0 {
      assert avg > 0.0;
      assert out * avg > 0.0;
    }
  }

  // In a chronological run the running cost falls short of the ledger value by
  // exactly the cost that outbound movements removed unrecorded; the two agree
  // if and only if no outbound movement took goods that carried a cost.
  lemma {:induction false} CostColumnIsLedgerValue(ops: seq<Op>, p: ProductId, w: WarehouseId)
    requires forall i :: 0 <= i < |ops| ==> WithinDto(ops[i])
    requires Chronological(RunOf(ops))
    ensures var ledger := RunOf(ops);
            && LedgerValue(ledger, p, w) - RunningCost(ledger, p, w) == Unrecorded(ledger, p, w) >= 0.0
            && (LedgerValue(ledger, p, w) == RunningCost(ledger, p, w) <==> OnlyCostlessIssues(ledger, p, w))
  {
    RunsAreConsistent(ops);
    RunsAreCosted(ops);
    ValueOfLegalLedger(RunOf(ops), p, w);
  }

  // The gap is real: ten bought for 5 each, four issued by a movement.
  lemma {:induction false} IssuesLeaveTheColumnsApart()
    ensures var buy := Movement(MovementData(1, 1, 0, 10.0, 0.0, None, 5.0), 0);
            var sell := Movement(MovementData(1, 1, 1, 0.0, 4.0, None, 0.0), 1);
            var ledger := RunOf([buy, sell]);
            RunningCost(ledger, 1, 1) == 30.0 && LedgerValue(ledger, 1, 1) == 50.0
  {
    var buyData := MovementData(1, 1, 0, 10.0, 0.0, None, 5.0);
    var sellData := MovementData(1, 1, 1, 0.0, 4.0, None, 0.0);
    var buy, sell := Movement(buyData, 0), Movement(sellData, 1);
    assert [buy, sell][..1] == [buy] && [buy][..0] == [];
    MovementAlone([], buyData, 0);
    var bought := Row(FromMovement, 1, 1, 0, 10.0, 0.0, 5.0, 50.0, 10.0, 50.0);
    assert RunOf([buy]) == [bought] by { assert [] + [bought] == [bought]; }
    MovementAlone([bought], sellData, 1);
    assert NewestByDate([bought], 1, 1) == Some(bought) by { assert [bought][..0] == []; }
    var sold := Row(FromMovement, 1, 1, 1, 0.0, 4.0, 0.0, 0.0, 6.0, 30.0);
    assert MovementRow([bought], sellData) == Ok(sold);
    assert RunOf([buy, sell]) == [bought, sold];
    assert [bought, sold][..1] == [bought] && [bought][..0] == [];
  }

  // ------------------------------------------------------------ stock balance

  datatype StockBalance = StockBalance(qtyAvailable: real, averageCost: real, totalValue: real)

  function BalanceReport(ledger: seq<Row>, p: ProductId, w: WarehouseId): StockBalance {
    var latest := NewestByDate(ledger, p, w);
    var balance := Balance(ledger, p, w);
    var average := Average(CostOf(latest), QtyOf(latest));
    StockBalance(balance, MaxZero(average), MaxZero(balance * average))
  }

  // The report gives the replayed position: its quantity, its cost as the value,
  // and an average that is value per unit.
  ghost predicate ReportsPosition(ledger: seq<Row>, p: ProductId, w: WarehouseId) {
    var r := BalanceReport(ledger, p, w);
    && r.totalValue == RunningCost(ledger, p, w) == Replay(ledger, p, w).cost
    && r.qtyAvailable == RunningQty(ledger, p, w) == Replay(ledger, p, w).qty >= 0.0
    && r.averageCost * r.qtyAvailable == r.totalValue
    && (r.qtyAvailable == 0.0 ==> r.averageCost == 0.0)
  }

  lemma {:induction false} ReportOf(ledger: seq<Row>, p: ProductId, w: WarehouseId)
    requires Consistent(ledger) && Chronological(ledger)
    ensures ReportsPosition(ledger, p, w)
  {
    NewestAgree(ledger, p, w);
    assert ConsistentAt(ledger, p, w);
    var qty, cost := RunningQty(ledger, p, w), RunningCost(ledger, p, w);
    if qty > 0.0 {
      assert qty * (cost / qty) == cost;
      assert cost / qty >= 0.0;
    }
  }

  lemma {:induction false} BalanceReportIsPosition(ops: seq<Op>, p: ProductId, w: WarehouseId)
    requires forall i :: 0 <= i < |ops| ==> WithinDto(ops[i])
    requires Chronological(RunOf(ops))
    ensures ReportsPosition(RunOf(ops), p, w)
  {
    RunsAreConsistent(ops);
    ReportOf(RunOf(ops), p, w);
  }

  // ------------------------------------------------------------- average cost

  datatype CostError = NegativeStock

  function AverageWith(ledger: seq<Row>, p: ProductId, w: WarehouseId,
                       incomingQty: Option<real>, incomingCost: Option<real>): Result<real, CostError>
  {
    var currentQty := Balance(ledger, p, w);
    if currentQty < 0.0 then Err(NegativeStock) else
      var currentValue := ValueAt(currentQty, RunningCost(ledger, p, w), RunningQty(ledger, p, w));
      Ok(BlendedAverage(currentQty, currentValue,
                        if incomingQty.Some? then incomingQty.value else 0.0,
                        if incomingCost.Some? then incomingCost.value else 0.0))
  }

  // So many units at the average cost of a position.
  function ValueAt(units: real, cost: real, qty: real): real {
    units * Average(cost, qty)
  }

  function BlendedAverage(qty: real, value: real, inQty: real, inCost: real): real {
    if qty + inQty == 0.0 then 0.0 else FourPlaces((value + inCost) / (qty + inQty))
  }

  function FourPlaces(x: real): real {
    MaxZero(Round(x * 10000.0) as real / 10000.0)
  }

  lemma {:induction false} ReceiptRow(ledger: seq<Row>, d: MovementData, now: int)
    requires Consistent(ledger) && Chronological(ledger) && ValidMovement(d, now) && d.qtyIn > 0.0
    ensures MovementRow(ledger, d).Ok?
    ensures var row := MovementRow(ledger, d).value;
            && row.runningQty == RunningQty(ledger, d.product, d.warehouse) + BaseIn(d) > 0.0
            && row.runningCost == RunningCost(ledger, d.product, d.warehouse) + d.qtyIn * d.unitCost >= 0.0
  {
    MovementRowIsLegal(ledger, d, now);
    BaseUnits(d);
    assert ConsistentAt(ledger, d.product, d.warehouse);
    assert d.qtyIn * d.unitCost >= 0.0;
  }

  lemma {:induction false} QuoteOf(ledger: seq<Row>, p: ProductId, w: WarehouseId, inQty: real, inCost: real)
    requires ConsistentAt(ledger, p, w)
    ensures AverageWith(ledger, p, w, Some(inQty), Some(inCost))
            == Ok(BlendedAverage(RunningQty(ledger, p, w), RunningCost(ledger, p, w), inQty, inCost))
  {
    CurrentValue(RunningQty(ledger, p, w), RunningCost(ledger, p, w), Balance(ledger, p, w));
  }

  ghost predicate Predicts(quote: Result<real, CostError>, row: Row) {
    row.runningQty > 0.0 && quote.Ok? && AbsReal(quote.value - row.runningCost / row.runningQty) <= 0.00005
  }

  lemma {:induction false} QuotePredicts(qty: real, cost: real, inQty: real, inCost: real, row: Row)
    requires row.runningQty == qty + inQty > 0.0 && row.runningCost == cost + inCost >= 0.0
    ensures Predicts(Ok(BlendedAverage(qty, cost, inQty, inCost)), row)
  {
    assert (cost + inCost) / (qty + inQty) >= 0.0;
  }

  // Quoting an incoming lot predicts, to half of the fourth decimal, the average
  // cost that receiving the lot leaves behind.
  lemma {:induction false} QuoteMatchesReceipt(ledger: seq<Row>, d: MovementData, now: int)
    requires Consistent(ledger) && Chronological(ledger) && ValidMovement(d, now) && d.qtyIn > 0.0
    ensures MovementRow(ledger, d).Ok?
    ensures Predicts(AverageWith(ledger, d.product, d.warehouse, Some(BaseIn(d)), Some(d.qtyIn * d.unitCost)),
                     MovementRow(ledger, d).value)
  {
    var p, w := d.product, d.warehouse;
    ReceiptRow(ledger, d, now);
    BaseUnits(d);
    assert ConsistentAt(ledger, p, w);
    QuoteOf(ledger, p, w, BaseIn(d), d.qtyIn * d.unitCost);
    QuotePredicts(RunningQty(ledger, p, w), RunningCost(ledger, p, w), BaseIn(d), d.qtyIn * d.unitCost,
                  MovementRow(ledger, d).value);
  }

  predicate FourDecimals(x: real) {
    (x * 10000.0).Floor as real == x * 10000.0
  }

  // The quote in general: an incoming quantity or cost that is not given counts as
  // none, no stock at all is quoted at 0, and everything else at value per unit to
  // the nearest four decimals, but never below 0.
  lemma {:induction false} QuoteOutcome(ledger: seq<Row>, p: ProductId, w: WarehouseId, inQty: Option<real>,
      inCost: Option<real>)
    requires Consistent(ledger)
    ensures var r := AverageWith(ledger, p, w, inQty, inCost);
            var qty := Balance(ledger, p, w) + if inQty.Some? then inQty.value else 0.0;
            var value := RunningCost(ledger, p, w) + if inCost.Some? then inCost.value else 0.0;
            && r.Ok? && r.value >= 0.0 && FourDecimals(r.value)
            && (qty == 0.0 ==> r.value == 0.0)
            && (qty != 0.0 && value / qty >= 0.0 ==> AbsReal(r.value - value / qty) <= 0.00005)
            && (qty != 0.0 && value / qty < 0.0 ==> r.value == 0.0)
  {
    assert ConsistentAt(ledger, p, w);
    CurrentValue(RunningQty(ledger, p, w), RunningCost(ledger, p, w), Balance(ledger, p, w));
    var qty := Balance(ledger, p, w) + if inQty.Some? then inQty.value else 0.0;
    var value := RunningCost(ledger, p, w) + if inCost.Some? then inCost.value else 0.0;
    if qty != 0.0 { RoundsToFour(value / qty); }
  }

  lemma {:induction false} RoundsToFour(x: real)
    ensures FourPlaces(x) >= 0.0 && FourDecimals(FourPlaces(x))
    ensures x >= 0.0 ==> AbsReal(FourPlaces(x) - x) <= 0.00005
    ensures x < 0.0 ==> FourPlaces(x) == 0.0
  {
    var n := Round(x * 10000.0);
    assert (n as real / 10000.0) * 10000.0 == n as real;
  }

  // Only a negative stock is not quoted.
  lemma {:induction false} NegativeStockIsNotQuoted(ledger: seq<Row>, p: ProductId, w: WarehouseId,
                                 inQty: Option<real>, inCost: Option<real>)
    ensures AverageWith(ledger, p, w, inQty, inCost).Err? <==> Balance(ledger, p, w) < 0.0
  {
  }

  lemma {:induction false} CurrentValue(qty: real, cost: real, balance: real)
    requires 0.0 <= balance == qty && 0.0 <= cost && (qty == 0.0 ==> cost == 0.0)
    ensures ValueAt(balance, cost, qty) == cost
  {
  }
}
