// What the ledger operations mean for stock, for its cost and for its value.

module InventoryTheorems {
  import opened Common
  import opened InventoryLedger
  import opened InventoryInvariants

  // ------------------------------------------------------ transfer of stock

  // What a transfer asks of one product, summed over repeated lines.
  function Demand(moves: seq<TransferLine>, p: ProductId): real {
    if moves == [] then 0.0 else
      var k := |moves| - 1;
      Demand(moves[..k], p) + if moves[k].product == p then moves[k].qty else 0.0
  }

  // `after` differs from `before` only in that `q` of product `p` went from one
  // warehouse to the other, together with some of its cost.
  ghost predicate Moved(before: seq<Row>, after: seq<Row>, p: ProductId, from: WarehouseId, to: WarehouseId, q: real) {
    && Balance(after, p, from) == Balance(before, p, from) - q
    && Balance(after, p, to) == Balance(before, p, to) + q
    && RunningCost(after, p, from) + RunningCost(after, p, to)
       == RunningCost(before, p, from) + RunningCost(before, p, to)
    && forall w :: w != from && w != to ==> SameStock(before, after, p, w)
  }

  ghost predicate SameStock(before: seq<Row>, after: seq<Row>, p: ProductId, w: WarehouseId) {
    && Balance(after, p, w) == Balance(before, p, w)
    && RunningQty(after, p, w) == RunningQty(before, p, w)
    && RunningCost(after, p, w) == RunningCost(before, p, w)
  }

  // The two rows of a transfer line: an issue and a receipt of the same quantity,
  // which together leave the cost at both ends as it was.
  ghost predicate TransferPair(ledger: seq<Row>, from: WarehouseId, to: WarehouseId, p: ProductId, q: real,
                               a: Row, b: Row)
  {
    && At(a, p, from) && a.qtyIn - a.qtyOut == -q && At(b, p, to) && b.qtyIn - b.qtyOut == q
    && a.runningCost + b.runningCost == RunningCost(ledger, p, from) + RunningCost(ledger, p, to)
  }

  lemma {:induction false} TransferWritesPair(ledger: seq<Row>, from: WarehouseId, to: WarehouseId, date: int,
      move: TransferLine)
    requires Consistent(ledger) && from != to && move.qty > 0.0
    requires TransferRows(ledger, from, to, date, move).Ok?
    ensures var rows := TransferRows(ledger, from, to, date, move).value;
            |rows| == 2 && TransferPair(ledger, from, to, move.product, move.qty, rows[0], rows[1])
  {
    var p := move.product;
    assert ConsistentAt(ledger, p, from) && ConsistentAt(ledger, p, to);
    IssueShare(RunningQty(ledger, p, from), RunningCost(ledger, p, from), move.qty);
  }

  lemma {:induction false} TransferLineEffect(ledger: seq<Row>, from: WarehouseId, to: WarehouseId, date: int,
      move: TransferLine)
    requires Consistent(ledger) && from != to && move.qty > 0.0
    requires TransferRows(ledger, from, to, date, move).Ok?
    ensures var after := ledger + TransferRows(ledger, from, to, date, move).value;
            && Moved(ledger, after, move.product, from, to, move.qty)
            && forall p, w :: p != move.product ==> SameStock(ledger, after, p, w)
  {
    TransferWritesPair(ledger, from, to, date, move);
    var rows := TransferRows(ledger, from, to, date, move).value;
    assert ledger + rows == (ledger + [rows[0]]) + [rows[1]];
    PairMoves(ledger, from, to, move.product, move.qty, rows[0], rows[1]);
  }

  lemma {:induction false} PairMoves(ledger: seq<Row>, from: WarehouseId, to: WarehouseId, p: ProductId,
      q: real, a: Row, b: Row)
    requires from != to && TransferPair(ledger, from, to, p, q, a, b)
    ensures var after := (ledger + [a]) + [b];
            && Moved(ledger, after, p, from, to, q)
            && forall p', w :: p' != p ==> SameStock(ledger, after, p', w)
  {
    var mid, after := ledger + [a], (ledger + [a]) + [b];
    forall p', w ensures Appended(ledger, mid, a, p', w) && Appended(mid, after, b, p', w) {
      AppendedRow(ledger, a, p', w);
      AppendedRow(mid, b, p', w);
    }
    forall p', w | p' != p || (w != from && w != to) ensures SameStock(ledger, after, p', w) {
      assert Appended(ledger, mid, a, p', w) && Appended(mid, after, b, p', w);
    }
    assert Appended(ledger, mid, a, p, from) && Appended(mid, after, b, p, from);
    assert Appended(ledger, mid, a, p, to) && Appended(mid, after, b, p, to);
  }

  ghost predicate Appended(before: seq<Row>, after: seq<Row>, r: Row, p: ProductId, w: WarehouseId) {
    && Balance(after, p, w) == Balance(before, p, w) + (if At(r, p, w) then r.qtyIn - r.qtyOut else 0.0)
    && RunningQty(after, p, w) == (if At(r, p, w) then r.runningQty else RunningQty(before, p, w))
    && RunningCost(after, p, w) == (if At(r, p, w) then r.runningCost else RunningCost(before, p, w))
  }

  lemma {:induction false} MovedTwice(before: seq<Row>, mid: seq<Row>, after: seq<Row>, p: ProductId,
                   from: WarehouseId, to: WarehouseId, q: real, more: real)
    requires Moved(before, mid, p, from, to, q) && Moved(mid, after, p, from, to, more)
    ensures Moved(before, after, p, from, to, q + more)
  {
    forall w | w != from && w != to ensures SameStock(before, after, p, w) {
      assert SameStock(before, mid, p, w) && SameStock(mid, after, p, w);
    }
  }

  lemma {:induction false} NextDemand(moves: seq<TransferLine>, k: nat, p: ProductId)
    requires 0 < k <= |moves|
    ensures Demand(moves[..k], p)
            == Demand(moves[..k - 1], p) + if moves[k - 1].product == p then moves[k - 1].qty else 0.0
  {
    assert moves[..k][..k - 1] == moves[..k - 1];
  }

  // Conservation: however often a product is repeated, a successful transfer
  // moves its demand and keeps its quantity and cost over both warehouses; no
  // other warehouse and no other product is touched.
  lemma {:induction false} TransferConserves(ledger: seq<Row>, op: Op, k: nat)
    requires Consistent(ledger) && op.Transfer? && Admissible(op) && WithinDto(op) && k <= LineCount(op)
    requires Process(ledger, op, k).Ok?
    ensures var after := ledger + Process(ledger, op, k).value;
            forall p :: Moved(ledger, after, p, op.from, op.to, Demand(op.moves[..k], p))
    ensures var after := ledger + Process(ledger, op, k).value;
            forall p, w :: (forall i :: 0 <= i < k ==> op.moves[i].product != p) ==> SameStock(ledger, after, p, w)
  {
    if k == 0 {
      assert ledger + [] == ledger;
    } else {
      TransferConserves(ledger, op, k - 1);
      ProcessKeepsConsistent(ledger, op, k - 1);
      var rows := Process(ledger, op, k - 1).value;
      var seen := ledger + rows;
      var move := op.moves[k - 1];
      var more := TransferRows(seen, op.from, op.to, op.date, move).value;
      TransferLineEffect(seen, op.from, op.to, op.date, move);
      var after := seen + more;
      assert after == ledger + (rows + more);
      forall p ensures Moved(ledger, after, p, op.from, op.to, Demand(op.moves[..k], p)) {
        NextDemand(op.moves, k, p);
        var q := if p == move.product then move.qty else 0.0;
        assert Moved(seen, after, p, op.from, op.to, q) by {
          if p != move.product {
            assert SameStock(seen, after, p, op.from) && SameStock(seen, after, p, op.to);
          }
        }
        MovedTwice(ledger, seen, after, p, op.from, op.to, Demand(op.moves[..k - 1], p), q);
      }
      forall p, w | forall i :: 0 <= i < k ==> op.moves[i].product != p
        ensures SameStock(ledger, after, p, w)
      {
        assert op.moves[k - 1].product != p;
        assert SameStock(ledger, seen, p, w) && SameStock(seen, after, p, w);
      }
    }
  }

  lemma {:induction false} DemandGrows(moves: seq<TransferLine>, k: nat, p: ProductId)
    requires k <= |moves| && forall i :: 0 <= i < |moves| ==> moves[i].qty > 0.0
    ensures Demand(moves[..k], p) <= Demand(moves, p)
  {
    if k < |moves| {
      var n := |moves| - 1;
      assert moves[..n][..k] == moves[..k];
      DemandGrows(moves[..n], k, p);
    } else {
      assert moves[..k] == moves;
    }
  }

  // Exactly the coverable transfers succeed; nothing but missing stock fails
  // one, so the "Invariant violated" check never fires.
  lemma {:induction false} TransferSucceedsIff(ledger: seq<Row>, op: Op, k: nat)
    requires Consistent(ledger) && op.Transfer? && Admissible(op) && WithinDto(op) && k <= LineCount(op)
    ensures Process(ledger, op, k).Ok?
            <==> forall p :: Demand(op.moves[..k], p) <= Balance(ledger, p, op.from)
    ensures Process(ledger, op, k).Err? ==> Process(ledger, op, k).error == InsufficientStock
  {
    ProcessKeepsConsistent(ledger, op, k);
    if k == 0 {
      forall p ensures Demand(op.moves[..0], p) <= Balance(ledger, p, op.from) {
        assert ConsistentAt(ledger, p, op.from);
      }
    } else {
      TransferSucceedsIff(ledger, op, k - 1);
      var sofar, move := op.moves[..k - 1], op.moves[k - 1];
      forall p ensures Demand(op.moves[..k], p) == Demand(sofar, p) + if move.product == p then move.qty else 0.0 {
        NextDemand(op.moves, k, p);
      }
      if Process(ledger, op, k - 1).Ok? {
        TransferConserves(ledger, op, k - 1);
        ProcessKeepsConsistent(ledger, op, k - 1);
        var seen := ledger + Process(ledger, op, k - 1).value;
        assert Moved(ledger, seen, move.product, op.from, op.to, Demand(sofar, move.product));
        TransferRowsAreLegal(seen, op.from, op.to, op.date, move);
      } else {
        var p :| Demand(sofar, p) > Balance(ledger, p, op.from);
        DemandGrows(op.moves[..k], k - 1, p);
      }
    }
  }

  // Totals over any duplicate-free list of warehouses that holds both ends.
  function Total(ws: seq<WarehouseId>, of: WarehouseId -> real): real {
    if ws == [] then 0.0 else Total(ws[..|ws| - 1], of) + of(ws[|ws| - 1])
  }

  lemma {:induction false} TotalGrows(ws: seq<WarehouseId>, w: WarehouseId, of: WarehouseId -> real)
    ensures Total([], of) == 0.0 && Total(ws + [w], of) == Total(ws, of) + of(w)
  {
    assert (ws + [w])[..|ws|] == ws;
  }

  lemma {:induction false} TotalChange(ws: seq<WarehouseId>, f: WarehouseId -> real, g: WarehouseId -> real,
      w: WarehouseId)
    requires Distinct(ws)
    requires forall x :: x in ws && x != w ==> f(x) == g(x)
    ensures Total(ws, g) - Total(ws, f) == if w in ws then g(w) - f(w) else 0.0
  {
    if ws != [] {
      var k := |ws| - 1;
      TotalChange(ws[..k], f, g, w);
      assert w in ws <==> w in ws[..k] || w == ws[k];
    }
  }

  lemma {:induction false} TotalShift(ws: seq<WarehouseId>, f: WarehouseId -> real, g: WarehouseId -> real,
      a: WarehouseId, b: WarehouseId)
    requires Distinct(ws) && a in ws && b in ws && a != b
    requires forall x :: x != a && x != b ==> f(x) == g(x)
    requires f(a) + f(b) == g(a) + g(b)
    ensures Total(ws, f) == Total(ws, g)
  {
    var h := (x: WarehouseId) => if x == a then g(a) else f(x);
    TotalChange(ws, f, h, a);
    TotalChange(ws, h, g, b);
  }

  lemma {:induction false} TransferKeepsTotals(ledger: seq<Row>, op: Op, p: ProductId, ws: seq<WarehouseId>)
    requires Consistent(ledger) && op.Transfer? && Admissible(op) && WithinDto(op)
    requires Execute(ledger, op).Ok?
    requires Distinct(ws) && op.from in ws && op.to in ws
    ensures var after := After(ledger, op);
            && Total(ws, (w: WarehouseId) => Balance(after, p, w))
               == Total(ws, (w: WarehouseId) => Balance(ledger, p, w))
            && Total(ws, (w: WarehouseId) => RunningCost(after, p, w))
               == Total(ws, (w: WarehouseId) => RunningCost(ledger, p, w))
  {
    TransferConserves(ledger, op, LineCount(op));
    var after := After(ledger, op);
    assert Moved(ledger, after, p, op.from, op.to, Demand(op.moves[..LineCount(op)], p));
    var q, q' := (w: WarehouseId) => Balance(ledger, p, w), (w: WarehouseId) => Balance(after, p, w);
    var c, c' := (w: WarehouseId) => RunningCost(ledger, p, w), (w: WarehouseId) => RunningCost(after, p, w);
    forall w: WarehouseId | w != op.from && w != op.to ensures q(w) == q'(w) && c(w) == c'(w) {
      assert SameStock(ledger, after, p, w);
    }
    TotalShift(ws, q, q', op.from, op.to);
    TotalShift(ws, c, c', op.from, op.to);
  }

  // -------------------------------------------- movements and adjustments

  lemma {:induction false} IssueKeepsAverage(qty: real, cost: real, out: real)
    requires 0.0 < out <= qty && 0.0 <= cost
    ensures (cost - out * (cost / qty)) * qty == cost * (qty - out)
  {
    var avg := cost / qty;
    assert avg * qty == cost;
    assert (cost - out * avg) * qty == cost * qty - out * (avg * qty);
  }

  // One position changes by `delta` units and nothing else does: what comes in
  // brings its own unit cost, what goes out leaves the average cost as it was.
  ghost predicate Changed(before: seq<Row>, after: seq<Row>, p: ProductId, w: WarehouseId, delta: real, unit: real) {
    && Balance(after, p, w) == Balance(before, p, w) + delta
    && (delta >= 0.0 ==> RunningCost(after, p, w) == RunningCost(before, p, w) + delta * unit)
    && (delta < 0.0 ==>
          RunningCost(after, p, w) * Balance(before, p, w) == RunningCost(before, p, w) * Balance(after, p, w))
    && forall p', w' :: p' != p || w' != w ==> SameStock(before, after, p', w')
  }

  lemma {:induction false} LegalRowChanges(ledger: seq<Row>, r: Row)
    requires Consistent(ledger) && LegalRow(ledger, r)
    ensures Changed(ledger, ledger + [r], r.product, r.warehouse, r.qtyIn - r.qtyOut, r.unitCost)
  {
    var p, w := r.product, r.warehouse;
    assert ConsistentAt(ledger, p, w);
    forall p', w' ensures Appended(ledger, ledger + [r], r, p', w') { AppendedRow(ledger, r, p', w'); }
    assert Appended(ledger, ledger + [r], r, p, w);
    if r.qtyOut > 0.0 {
      IssueKeepsAverage(RunningQty(ledger, p, w), RunningCost(ledger, p, w), r.qtyOut);
    }
  }

  // A movement is refused exactly when it would overdraw, and otherwise changes
  // its position by its quantity in base units at its cost per base unit; the
  // cost it brings in is the one stated in the caller's own units.
  lemma {:induction false} MovementEffect(ledger: seq<Row>, d: MovementData, now: int)
    requires Consistent(ledger) && Chronological(ledger) && ValidMovement(d, now)
    ensures var r := Execute(ledger, Movement(d, now));
            && (r.Err? <==> Balance(ledger, d.product, d.warehouse) < d.qtyOut * Rate(d))
            && (r.Err? ==> r.error == InsufficientStock)
            && (r.Ok? ==> Changed(ledger, r.value, d.product, d.warehouse, BaseIn(d) - BaseOut(d), BaseUnitCost(d)))
    ensures BaseIn(d) - BaseOut(d) == (d.qtyIn - d.qtyOut) * Rate(d)
    ensures BaseIn(d) * BaseUnitCost(d) == d.qtyIn * d.unitCost
  {
    MovementRowIsLegal(ledger, d, now);
    BaseUnits(d);
    MovementAlone(ledger, d, now);
    if MovementRow(ledger, d).Ok? {
      LegalRowChanges(ledger, MovementRow(ledger, d).value);
    }
  }

  // A count changes its position by the difference it reports, a surplus at the
  // stated cost; it is refused exactly when the shortage exceeds the balance.
  lemma {:induction false} AdjustLineEffect(ledger: seq<Row>, w: WarehouseId, date: int, line: AdjustLine)
    requires Consistent(ledger) && line.unitCost >= 0.0
    ensures var diff := line.qtyActual - line.qtySystem;
            && (AdjustRows(ledger, w, date, line).Err? <==> Balance(ledger, line.product, w) + diff < 0.0)
            && (AdjustRows(ledger, w, date, line).Ok?
                ==> Changed(ledger, ledger + AdjustRows(ledger, w, date, line).value,
                            line.product, w, diff, line.unitCost))
  {
    var diff := line.qtyActual - line.qtySystem;
    AdjustRowsAreLegal(ledger, w, date, line);
    if AdjustRows(ledger, w, date, line).Ok? {
      var rows := AdjustRows(ledger, w, date, line).value;
      assert ledger + [] == ledger;
      if diff != 0.0 {
        assert rows == [rows[0]] && LegalRow(ledger + rows[..0], rows[0]);
        LegalRowChanges(ledger, rows[0]);
      }
    }
  }

  // ------------------------------------------------------ average-cost hull

  // Goods that enter the company, as opposed to moving between warehouses.
  predicate ExternalInflow(r: Row, p: ProductId) {
    r.product == p && r.qtyIn > 0.0 && r.origin != FromTransfer
  }

  ghost predicate InflowsWithin(ledger: seq<Row>, p: ProductId, lo: real, hi: real) {
    forall i :: 0 <= i < |ledger| && ExternalInflow(ledger[i], p) ==> lo <= ledger[i].unitCost <= hi
  }

  ghost predicate Between(lo: real, hi: real, qty: real, cost: real) {
    lo * qty <= cost <= hi * qty
  }

  ghost predicate WithinHull(ledger: seq<Row>, p: ProductId, lo: real, hi: real) {
    forall w :: Between(lo, hi, RunningQty(ledger, p, w), RunningCost(ledger, p, w))
  }

  lemma {:induction false} HullStep(qty: real, cost: real, lo: real, hi: real, q: real, unit: real)
    requires Between(lo, hi, qty, cost) && q >= 0.0 && lo <= unit <= hi
    ensures Between(lo, hi, qty + q, cost + q * unit)
  {
    ProductKeepsOrder(lo, unit, q);
    ProductKeepsOrder(unit, hi, q);
    assert lo * (qty + q) == lo * qty + lo * q && hi * (qty + q) == hi * qty + hi * q;
  }

  lemma {:induction false} HullIssue(qty: real, cost: real, lo: real, hi: real, out: real)
    requires Between(lo, hi, qty, cost) && 0.0 < out <= qty
    ensures lo <= Average(cost, qty) <= hi
    ensures Between(lo, hi, qty - out, cost - out * Average(cost, qty))
  {
    var avg := cost / qty;
    assert avg * qty == cost;
    ProductCancels(lo, avg, qty);
    ProductCancels(avg, hi, qty);
    ProductKeepsOrder(lo, avg, qty - out);
    ProductKeepsOrder(avg, hi, qty - out);
    assert cost - out * avg == avg * (qty - out);
  }

  lemma {:induction false} LegalOnWithinHull(qty: real, cost: real, r: Row, lo: real, hi: real)
    requires LegalOn(qty, cost, r) && (r.qtyIn > 0.0 ==> lo <= r.unitCost <= hi) && Between(lo, hi, qty, cost)
    ensures Between(lo, hi, r.runningQty, r.runningCost)
  {
    if r.qtyIn > 0.0 {
      HullStep(qty, cost, lo, hi, r.qtyIn, r.unitCost);
    } else {
      HullIssue(qty, cost, lo, hi, r.qtyOut);
    }
  }

  lemma {:induction false} LegalRowKeepsHull(ledger: seq<Row>, r: Row, p: ProductId, lo: real, hi: real)
    requires LegalRow(ledger, r) && WithinHull(ledger, p, lo, hi)
    requires r.product == p && r.qtyIn > 0.0 ==> lo <= r.unitCost <= hi
    ensures WithinHull(ledger + [r], p, lo, hi)
  {
    if r.product == p {
      var qty, cost := RunningQty(ledger, p, r.warehouse), RunningCost(ledger, p, r.warehouse);
      assert Between(lo, hi, qty, cost);
      LegalOnWithinHull(qty, cost, r, lo, hi);
    }
    forall w ensures Between(lo, hi, RunningQty(ledger + [r], p, w), RunningCost(ledger + [r], p, w)) {
      AppendedRow(ledger, r, p, w);
      assert Between(lo, hi, RunningQty(ledger, p, w), RunningCost(ledger, p, w));
    }
  }

  lemma {:induction false} LineKeepsHull(ledger: seq<Row>, op: Op, k: nat, p: ProductId, lo: real, hi: real)
    requires Consistent(ledger) && Admissible(op) && WithinDto(op) && k < LineCount(op)
    requires op.Movement? ==> Chronological(ledger)
    requires LineRows(ledger, op, k).Ok? && InflowsWithin(LineRows(ledger, op, k).value, p, lo, hi)
    requires WithinHull(ledger, p, lo, hi)
    ensures WithinHull(ledger + LineRows(ledger, op, k).value, p, lo, hi)
  {
    var rows := LineRows(ledger, op, k).value;
    LineRowsAreLegal(ledger, op, k);
    assert ledger + [] == ledger;
    if op.Transfer? {
      TransferKeepsHull(ledger, op.from, op.to, op.date, op.moves[k], p, lo, hi);
    } else if rows != [] {
      assert rows == [rows[0]] && LegalRow(ledger + rows[..0], rows[0]);
      LegalRowKeepsHull(ledger, rows[0], p, lo, hi);
    }
  }

  lemma {:induction false} TransferKeepsHull(ledger: seq<Row>, from: WarehouseId, to: WarehouseId, date: int,
      move: TransferLine, p: ProductId, lo: real, hi: real)
    requires Consistent(ledger) && WithinHull(ledger, p, lo, hi) && move.qty > 0.0
    requires TransferRows(ledger, from, to, date, move).Ok?
    requires LegalRows(ledger, TransferRows(ledger, from, to, date, move).value)
    ensures WithinHull(ledger + TransferRows(ledger, from, to, date, move).value, p, lo, hi)
  {
    var rows := TransferRows(ledger, from, to, date, move).value;
    var first, second := rows[0], rows[1];
    assert rows == [first, second] && rows[..0] == [] && rows[..1] == [first];
    assert ledger + [] == ledger && LegalRow(ledger + rows[..0], first) && LegalRow(ledger + rows[..1], second);
    assert ConsistentAt(ledger, move.product, from);
    if move.product == p {
      HullIssue(RunningQty(ledger, p, from), RunningCost(ledger, p, from), lo, hi, move.qty);
    }
    LegalRowKeepsHull(ledger, first, p, lo, hi);
    LegalRowKeepsHull(ledger + [first], second, p, lo, hi);
    assert ledger + rows == (ledger + [first]) + [second];
  }

  lemma {:induction false} ProcessKeepsHull(ledger: seq<Row>, op: Op, k: nat, p: ProductId, lo: real, hi: real)
    requires Consistent(ledger) && Admissible(op) && WithinDto(op) && k <= LineCount(op)
    requires op.Movement? ==> Chronological(ledger)
    requires Process(ledger, op, k).Ok? && InflowsWithin(Process(ledger, op, k).value, p, lo, hi)
    requires WithinHull(ledger, p, lo, hi)
    ensures WithinHull(ledger + Process(ledger, op, k).value, p, lo, hi)
  {
    assert ledger + [] == ledger;
    if k > 0 {
      var rows := Process(ledger, op, k - 1).value;
      var seen := ledger + rows;
      var more := LineRows(seen, op, k - 1).value;
      InflowsSplit(rows, more, p, lo, hi);
      assert WithinHull(seen, p, lo, hi) by { ProcessKeepsHull(ledger, op, k - 1, p, lo, hi); }
      assert Consistent(seen) by { ProcessKeepsConsistent(ledger, op, k - 1); }
      assert op.Movement? ==> seen == ledger;
      assert WithinHull(seen + more, p, lo, hi) by { LineKeepsHull(seen, op, k - 1, p, lo, hi); }
      assert seen + more == ledger + (rows + more);
    }
  }

  lemma {:induction false} InflowsSplit(rows: seq<Row>, more: seq<Row>, p: ProductId, lo: real, hi: real)
    requires InflowsWithin(rows + more, p, lo, hi)
    ensures InflowsWithin(rows, p, lo, hi) && InflowsWithin(more, p, lo, hi)
  {
    assert forall i :: 0 <= i < |rows| ==> rows[i] == (rows + more)[i];
    assert forall i :: 0 <= i < |more| ==> more[i] == (rows + more)[|rows| + i];
  }

  lemma {:induction false} RunsKeepHull(ops: seq<Op>, p: ProductId, lo: real, hi: real)
    requires forall i :: 0 <= i < |ops| ==> WithinDto(ops[i])
    requires Chronological(RunOf(ops)) && InflowsWithin(RunOf(ops), p, lo, hi)
    ensures WithinHull(RunOf(ops), p, lo, hi)
  {
    if ops != [] {
      var k := |ops| - 1;
      var before := RunOf(ops[..k]);
      assert before <= After(before, ops[k]);
      assert before == RunOf(ops)[..|before|];
      assert Chronological(before);
      RunsAreConsistent(ops[..k]);
      RunsKeepHull(ops[..k], p, lo, hi);
      if Execute(before, ops[k]).Ok? {
        InflowsSplit(before, Process(before, ops[k], LineCount(ops[k])).value, p, lo, hi);
        ProcessKeepsHull(before, ops[k], LineCount(ops[k]), p, lo, hi);
      }
    }
  }

  // The cheapest and the dearest unit cost at which the product ever came in.
  function LowestInflow(ledger: seq<Row>, p: ProductId): Option<real> {
    if ledger == [] then None else
      var k := |ledger| - 1;
      var low := LowestInflow(ledger[..k], p);
      if ExternalInflow(ledger[k], p) && (low.None? || ledger[k].unitCost < low.value)
      then Some(ledger[k].unitCost) else low
  }

  function HighestInflow(ledger: seq<Row>, p: ProductId): Option<real> {
    if ledger == [] then None else
      var k := |ledger| - 1;
      var high := HighestInflow(ledger[..k], p);
      if ExternalInflow(ledger[k], p) && (high.None? || ledger[k].unitCost > high.value)
      then Some(ledger[k].unitCost) else high
  }

  lemma {:induction false} InflowBounds(ledger: seq<Row>, p: ProductId)
    ensures LowestInflow(ledger, p).Some? <==> HighestInflow(ledger, p).Some?
    ensures match (LowestInflow(ledger, p), HighestInflow(ledger, p))
            case (Some(lo), Some(hi)) => InflowsWithin(ledger, p, lo, hi)
            case _ => forall i :: 0 <= i < |ledger| ==> !ExternalInflow(ledger[i], p)
  {
    if ledger != [] {
      InflowBounds(ledger[..|ledger| - 1], p);
    }
  }

  // Goods came in at exactly these unit costs, by a movement or an adjustment.
  ghost predicate CameInAt(ledger: seq<Row>, p: ProductId, unit: real) {
    exists i :: 0 <= i < |ledger| && ledger[i].product == p && ledger[i].qtyIn > 0.0
                && ledger[i].origin in {FromMovement, FromAdjustment} && ledger[i].unitCost == unit
  }

  lemma {:induction false} BoundsAreReached(ledger: seq<Row>, p: ProductId)
    ensures match LowestInflow(ledger, p) case Some(lo) => CameInAt(ledger, p, lo) case None => true
    ensures match HighestInflow(ledger, p) case Some(hi) => CameInAt(ledger, p, hi) case None => true
  {
    if ledger != [] {
      var k := |ledger| - 1;
      BoundsAreReached(ledger[..k], p);
      if LowestInflow(ledger, p) == LowestInflow(ledger[..k], p) && LowestInflow(ledger, p).Some? {
        StillCameIn(ledger, p, LowestInflow(ledger, p).value);
      }
      if HighestInflow(ledger, p) == HighestInflow(ledger[..k], p) && HighestInflow(ledger, p).Some? {
        StillCameIn(ledger, p, HighestInflow(ledger, p).value);
      }
    }
  }

  lemma {:induction false} StillCameIn(ledger: seq<Row>, p: ProductId, unit: real)
    requires ledger != []
    ensures CameInAt(ledger[..|ledger| - 1], p, unit) ==> CameInAt(ledger, p, unit)
  {
    var before := ledger[..|ledger| - 1];
    if CameInAt(before, p, unit) {
      var i :| 0 <= i < |before| && before[i].product == p && before[i].qtyIn > 0.0
               && before[i].origin in {FromMovement, FromAdjustment} && before[i].unitCost == unit;
      assert ledger[i] == before[i];
    }
  }

  lemma {:induction false} AverageInRun(ops: seq<Op>, p: ProductId, w: WarehouseId, lo: real, hi: real)
    requires forall i :: 0 <= i < |ops| ==> WithinDto(ops[i])
    requires Chronological(RunOf(ops)) && InflowsWithin(RunOf(ops), p, lo, hi)
    requires RunningQty(RunOf(ops), p, w) > 0.0
    ensures lo <= Average(RunningCost(RunOf(ops), p, w), RunningQty(RunOf(ops), p, w)) <= hi
  {
    RunsKeepHull(ops, p, lo, hi);
    var qty, cost := RunningQty(RunOf(ops), p, w), RunningCost(RunOf(ops), p, w);
    HullIssue(qty, cost, lo, hi, qty);
  }

  // Main theorem: wherever a product is in stock, after any chronological run
  // and any chain of transfers, it came in from outside, and its average cost
  // lies between the lowest and the highest unit cost of those inflows.
  lemma {:induction false} AverageCostWithinInflows(ops: seq<Op>, p: ProductId, w: WarehouseId)
    requires forall i :: 0 <= i < |ops| ==> WithinDto(ops[i])
    requires Chronological(RunOf(ops))
    requires RunningQty(RunOf(ops), p, w) > 0.0
    ensures LowestInflow(RunOf(ops), p).Some? && HighestInflow(RunOf(ops), p).Some?
    ensures LowestInflow(RunOf(ops), p).value
            <= Average(RunningCost(RunOf(ops), p, w), RunningQty(RunOf(ops), p, w))
            <= HighestInflow(RunOf(ops), p).value
  {
    InflowBounds(RunOf(ops), p);
    if LowestInflow(RunOf(ops), p).None? {
      AverageInRun(ops, p, w, 1.0, 0.0);
      assert false;
    }
    AverageInRun(ops, p, w, LowestInflow(RunOf(ops), p).value, HighestInflow(RunOf(ops), p).value);
  }
}
