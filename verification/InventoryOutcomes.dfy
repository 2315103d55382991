// What each inventory call stores and when it is refused, in terms of the
// request and of the stock before it.

module InventoryOutcomes {
  import opened Common
  import opened InventoryLedger
  import opened InventoryInvariants
  import opened InventoryTheorems

  // --------------------------------------------------------------- movements

  ghost predicate WellFormed(d: MovementData, now: int) {
    && d.qtyIn >= 0.0 && d.qtyOut >= 0.0 && d.unitCost >= 0.0 && d.date <= now
    && (d.qtyIn > 0.0 <==> d.qtyOut == 0.0)
  }

  // The row stores quantities times, and the unit cost divided by, the number of
  // base units in one unit of the caller.
  ghost predicate StoresMovement(r: Row, d: MovementData, c: real) {
    && r.origin == FromMovement && r.product == d.product && r.warehouse == d.warehouse && r.date == d.date
    && r.qtyIn == d.qtyIn * c && r.qtyOut == d.qtyOut * c && r.unitCost * c == d.unitCost
    && r.totalCost == d.qtyIn * d.unitCost
  }

  // Receipts bring in what they cost, issues leave the average cost.
  ghost predicate MovesStock(before: seq<Row>, after: seq<Row>, d: MovementData, c: real) {
    var p, w := d.product, d.warehouse;
    && Balance(after, p, w) == Balance(before, p, w) + (d.qtyIn - d.qtyOut) * c
    && RunningQty(after, p, w) == Balance(after, p, w)
    && (d.qtyIn > 0.0 ==> RunningCost(after, p, w) == RunningCost(before, p, w) + d.qtyIn * d.unitCost)
    && (d.qtyOut > 0.0 ==>
          RunningCost(after, p, w) * Balance(before, p, w) == RunningCost(before, p, w) * Balance(after, p, w))
    && forall p', w' :: p' != p || w' != w ==> SameStock(before, after, p', w')
  }

  // A movement goes through exactly when it is well formed and the stock covers
  // what it issues, and then stores one row in base units, c of which make one
  // unit of the caller: two boxes of twelve at 60 a box are 24 pieces at 5.
  lemma {:induction false} MovementOutcome(ledger: seq<Row>, d: MovementData, now: int, c: real)
    requires Consistent(ledger) && Chronological(ledger)
    requires (d.rate == Some(c) && c > 0.0) || (c == 1.0 && (d.rate.None? || d.rate.value <= 0.0))
    ensures var r := Execute(ledger, Movement(d, now));
            && (r.Ok? <==> WellFormed(d, now) && d.qtyOut * c <= Balance(ledger, d.product, d.warehouse))
            && (r.Err? ==> r.error == if WellFormed(d, now) then InsufficientStock else ValidationError)
            && (r.Ok? ==>
                  && |r.value| == |ledger| + 1 && ledger <= r.value
                  && StoresMovement(r.value[|ledger|], d, c)
                  && MovesStock(ledger, r.value, d, c))
  {
    MovementSucceedsIff(ledger, d, now, c);
    if ValidMovement(d, now) && MovementRow(ledger, d).Ok? {
      MovementAlone(ledger, d, now);
      StoredColumns(ledger, d, now, c);
      MovementMovesStock(ledger, d, now, c);
    }
  }

  lemma {:induction false} MovementSucceedsIff(ledger: seq<Row>, d: MovementData, now: int, c: real)
    requires Consistent(ledger) && Chronological(ledger)
    requires (d.rate == Some(c) && c > 0.0) || (c == 1.0 && (d.rate.None? || d.rate.value <= 0.0))
    ensures ValidMovement(d, now) <==> WellFormed(d, now)
    ensures var r := Execute(ledger, Movement(d, now));
            && (r.Ok? <==> WellFormed(d, now) && d.qtyOut * c <= Balance(ledger, d.product, d.warehouse))
            && (r.Ok? <==> ValidMovement(d, now) && MovementRow(ledger, d).Ok?)
            && (r.Err? ==> r.error == if WellFormed(d, now) then InsufficientStock else ValidationError)
  {
    if ValidMovement(d, now) {
      StoredColumns(ledger, d, now, c);
      MovementAlone(ledger, d, now);
      MovementEffect(ledger, d, now);
    }
  }

  lemma {:induction false} MovementMovesStock(ledger: seq<Row>, d: MovementData, now: int, c: real)
    requires Consistent(ledger) && Chronological(ledger) && ValidMovement(d, now) && MovementRow(ledger, d).Ok?
    requires (d.rate == Some(c) && c > 0.0) || (c == 1.0 && (d.rate.None? || d.rate.value <= 0.0))
    ensures MovesStock(ledger, ledger + [MovementRow(ledger, d).value], d, c)
  {
    StoredColumns(ledger, d, now, c);
    MovementAlone(ledger, d, now);
    MovementEffect(ledger, d, now);
    MovementKeepsConsistent(ledger, d, now);
    ScaledDelta(d, c);
  }

  lemma {:induction false} ScaledDelta(d: MovementData, c: real)
    requires Rate(d) == c > 0.0
    ensures BaseIn(d) - BaseOut(d) == (d.qtyIn - d.qtyOut) * c
    ensures BaseIn(d) * BaseUnitCost(d) == d.qtyIn * d.unitCost
    ensures d.qtyOut > 0.0 ==> BaseOut(d) > 0.0
  {
    BaseUnits(d);
  }

  lemma {:induction false} StoredColumns(ledger: seq<Row>, d: MovementData, now: int, c: real)
    requires ValidMovement(d, now)
    requires (d.rate == Some(c) && c > 0.0) || (c == 1.0 && (d.rate.None? || d.rate.value <= 0.0))
    ensures Rate(d) == c
    ensures MovementRow(ledger, d).Ok? ==> StoresMovement(MovementRow(ledger, d).value, d, c)
  {
    assert c * (d.unitCost / c) == d.unitCost;
    BaseUnits(d);
  }

  lemma {:induction false} MovementKeepsConsistent(ledger: seq<Row>, d: MovementData, now: int)
    requires Consistent(ledger) && Chronological(ledger) && ValidMovement(d, now) && MovementRow(ledger, d).Ok?
    ensures RunningQty(ledger + [MovementRow(ledger, d).value], d.product, d.warehouse)
            == Balance(ledger + [MovementRow(ledger, d).value], d.product, d.warehouse)
  {
    MovementRowIsLegal(ledger, d, now);
    LegalRowKeepsConsistent(ledger, MovementRow(ledger, d).value);
    assert ConsistentAt(ledger + [MovementRow(ledger, d).value], d.product, d.warehouse);
  }

  // --------------------------------------------------------------- transfers

  // The unit cost is the average cost of the position.
  ghost predicate AtAverage(ledger: seq<Row>, p: ProductId, w: WarehouseId, unit: real) {
    unit * Balance(ledger, p, w) == RunningCost(ledger, p, w)
  }

  // Both rows carry the average cost at the source.
  ghost predicate StoresTransfer(ledger: seq<Row>, rows: seq<Row>, from: WarehouseId, to: WarehouseId, date: int,
                                 move: TransferLine)
  {
    && |rows| == 2
    && var unit := rows[0].unitCost;
       && AtAverage(ledger, move.product, from, unit)
       && rows[0].(runningQty := 0.0, runningCost := 0.0)
          == Row(FromTransfer, move.product, from, date, 0.0, move.qty, unit, move.qty * unit, 0.0, 0.0)
       && rows[1].(runningQty := 0.0, runningCost := 0.0)
          == Row(FromTransfer, move.product, to, date, move.qty, 0.0, unit, move.qty * unit, 0.0, 0.0)
       && rows[0].runningQty == Balance(ledger, move.product, from) - move.qty
       && rows[1].runningQty == Balance(ledger, move.product, to) + move.qty
       && rows[0].runningCost == RunningCost(ledger, move.product, from) - move.qty * unit
       && rows[1].runningCost == RunningCost(ledger, move.product, to) + move.qty * unit
  }

  lemma {:induction false} TransferLineOutcome(ledger: seq<Row>, from: WarehouseId, to: WarehouseId, date: int,
      move: TransferLine)
    requires Consistent(ledger) && from != to && move.qty > 0.0
    ensures var r := TransferRows(ledger, from, to, date, move);
            && (r.Ok? <==> move.qty <= Balance(ledger, move.product, from))
            && (r.Err? ==> r.error == InsufficientStock)
            && (r.Ok? ==> StoresTransfer(ledger, r.value, from, to, date, move))
  {
    TransferRowsAreLegal(ledger, from, to, date, move);
    var p := move.product;
    assert ConsistentAt(ledger, p, from) && ConsistentAt(ledger, p, to);
    if move.qty <= Balance(ledger, p, from) {
      var qty, cost := RunningQty(ledger, p, from), RunningCost(ledger, p, from);
      IssueShare(qty, cost, move.qty);
      assert cost / qty * qty == cost;
    }
  }

  // A whole transfer goes through exactly when its ends differ and the source
  // covers what is asked of each product over all lines.  It then writes two
  // rows a line and moves exactly what is asked.
  lemma {:induction false} TransferOutcome(ledger: seq<Row>, from: WarehouseId, to: WarehouseId, date: int,
      moves: seq<TransferLine>)
    requires Consistent(ledger) && forall i :: 0 <= i < |moves| ==> moves[i].qty > 0.0
    ensures var r := Execute(ledger, Transfer(from, to, date, moves));
            && (r.Ok? <==> from != to && forall p :: Demand(moves, p) <= Balance(ledger, p, from))
            && (r.Err? ==> r.error == if from == to then ValidationError else InsufficientStock)
            && (r.Ok? ==>
                  && ledger <= r.value && |r.value| == |ledger| + 2 * |moves|
                  && forall p :: Moved(ledger, r.value, p, from, to, Demand(moves, p)))
  {
    if from != to {
      var op := Transfer(from, to, date, moves);
      assert moves[..|moves|] == moves;
      TransferSucceedsIff(ledger, op, |moves|);
      if Process(ledger, op, |moves|).Ok? {
        TransferConserves(ledger, op, |moves|);
        TwoRowsEach(ledger, op, |moves|);
      }
    }
  }

  lemma {:induction false} TwoRowsEach(ledger: seq<Row>, op: Op, k: nat)
    requires op.Transfer? && k <= |op.moves| && Process(ledger, op, k).Ok?
    ensures |Process(ledger, op, k).value| == 2 * k
  {
    if k > 0 {
      TwoRowsEach(ledger, op, k - 1);
    }
  }

  // ------------------------------------------------------------- adjustments

  // A surplus is stored at its stated cost, a shortage at the average cost.
  ghost predicate StoresCount(ledger: seq<Row>, r: Row, w: WarehouseId, date: int, line: AdjustLine) {
    var p, diff := line.product, line.qtyActual - line.qtySystem;
    && r.origin == FromAdjustment && r.product == p && r.warehouse == w && r.date == date
    && r.qtyIn == (if diff > 0.0 then diff else 0.0)
    && r.qtyOut == (if diff > 0.0 then 0.0 else -diff)
    && (if diff > 0.0 then r.unitCost == line.unitCost else AtAverage(ledger, p, w, r.unitCost))
    && r.totalCost == (r.qtyIn + r.qtyOut) * r.unitCost
    && r.runningQty == Balance(ledger, p, w) + diff
    && r.runningCost == RunningCost(ledger, p, w) + diff * r.unitCost
  }

  lemma {:induction false} AdjustLineOutcome(ledger: seq<Row>, w: WarehouseId, date: int, line: AdjustLine)
    requires Consistent(ledger) && line.unitCost >= 0.0
    ensures var r := AdjustRows(ledger, w, date, line);
            && (r.Ok? <==> line.qtySystem - line.qtyActual <= Balance(ledger, line.product, w))
            && (r.Err? ==> r.error == InsufficientStock)
            && (r.Ok? && line.qtyActual == line.qtySystem ==> r.value == [])
            && (r.Ok? && line.qtyActual != line.qtySystem ==>
                  |r.value| == 1 && StoresCount(ledger, r.value[0], w, date, line))
  {
    AdjustRowsAreLegal(ledger, w, date, line);
    var p, diff := line.product, line.qtyActual - line.qtySystem;
    assert ConsistentAt(ledger, p, w);
    var qty, cost := RunningQty(ledger, p, w), RunningCost(ledger, p, w);
    if diff < 0.0 && -diff <= qty {
      IssueShare(qty, cost, -diff);
      assert cost / qty * qty == cost;
      assert diff * Average(cost, qty) == -((-diff) * Average(cost, qty));
    } else if diff > 0.0 {
      assert diff * line.unitCost >= 0.0;
    }
  }

  // What the counts add to a product, summed over repeated lines.
  function Surplus(counts: seq<AdjustLine>, p: ProductId): real {
    if counts == [] then 0.0 else
      var k := |counts| - 1;
      Surplus(counts[..k], p)
      + if counts[k].product == p then counts[k].qtyActual - counts[k].qtySystem else 0.0
  }

  lemma {:induction false} NextSurplus(counts: seq<AdjustLine>, k: nat, p: ProductId)
    requires 0 < k <= |counts|
    ensures Surplus(counts[..k], p)
            == Surplus(counts[..k - 1], p)
               + if counts[k - 1].product == p then counts[k - 1].qtyActual - counts[k - 1].qtySystem else 0.0
  {
    assert counts[..k][..k - 1] == counts[..k - 1];
  }

  // Only the counted warehouse changes, by the surplus of each product.
  ghost predicate Adjusted(before: seq<Row>, after: seq<Row>, w: WarehouseId, p: ProductId, q: real) {
    Balance(after, p, w) == Balance(before, p, w) + q
    && forall w' :: w' != w ==> SameStock(before, after, p, w')
  }

  lemma {:induction false} AdjustsBySurplus(ledger: seq<Row>, op: Op, k: nat)
    requires Consistent(ledger) && op.Adjust? && Admissible(op) && WithinDto(op) && k <= |op.counts|
    requires Process(ledger, op, k).Ok?
    ensures forall p ::
      Adjusted(ledger, ledger + Process(ledger, op, k).value, op.warehouse, p, Surplus(op.counts[..k], p))
  {
    if k == 0 {
      assert ledger + [] == ledger;
    } else {
      AdjustsBySurplus(ledger, op, k - 1);
      ProcessKeepsConsistent(ledger, op, k - 1);
      var rows := Process(ledger, op, k - 1).value;
      var seen, line := ledger + rows, op.counts[k - 1];
      var more := AdjustRows(seen, op.warehouse, op.date, line).value;
      AdjustLineEffect(seen, op.warehouse, op.date, line);
      assert seen + more == ledger + (rows + more);
      forall p ensures Adjusted(ledger, seen + more, op.warehouse, p, Surplus(op.counts[..k], p)) {
        NextSurplus(op.counts, k, p);
        assert Adjusted(ledger, seen, op.warehouse, p, Surplus(op.counts[..k - 1], p));
        assert p != line.product ==> SameStock(seen, seen + more, p, op.warehouse);
        forall w | w != op.warehouse ensures SameStock(ledger, seen + more, p, w) {
          assert SameStock(ledger, seen, p, w) && SameStock(seen, seen + more, p, w);
        }
      }
    }
  }

  // No product is short after any of the first k lines.
  ghost predicate NeverShort(ledger: seq<Row>, w: WarehouseId, counts: seq<AdjustLine>, k: nat)
    requires k <= |counts|
  {
    forall j, p :: 0 <= j <= k ==> 0.0 <= Balance(ledger, p, w) + Surplus(counts[..j], p)
  }

  lemma {:induction false} AdjustSucceedsIff(ledger: seq<Row>, op: Op, k: nat)
    requires Consistent(ledger) && op.Adjust? && Admissible(op) && WithinDto(op) && k <= |op.counts|
    ensures Process(ledger, op, k).Ok? <==> NeverShort(ledger, op.warehouse, op.counts, k)
    ensures Process(ledger, op, k).Err? ==> Process(ledger, op, k).error == InsufficientStock
  {
    ProcessKeepsConsistent(ledger, op, k);
    if k == 0 {
      forall p ensures 0.0 <= Balance(ledger, p, op.warehouse) + Surplus(op.counts[..0], p) {
        assert ConsistentAt(ledger, p, op.warehouse);
      }
    } else {
      AdjustSucceedsIff(ledger, op, k - 1);
      if Process(ledger, op, k - 1).Ok? {
        NextCountIff(ledger, op, k);
      }
    }
  }

  lemma {:induction false} NextCountIff(ledger: seq<Row>, op: Op, k: nat)
    requires Consistent(ledger) && op.Adjust? && Admissible(op) && WithinDto(op) && 0 < k <= |op.counts|
    requires Process(ledger, op, k - 1).Ok? && NeverShort(ledger, op.warehouse, op.counts, k - 1)
    ensures Process(ledger, op, k).Ok? <==> NeverShort(ledger, op.warehouse, op.counts, k)
  {
    var w, line := op.warehouse, op.counts[k - 1];
    var seen := ledger + Process(ledger, op, k - 1).value;
    AdjustsBySurplus(ledger, op, k - 1);
    ProcessKeepsConsistent(ledger, op, k - 1);
    assert Adjusted(ledger, seen, w, line.product, Surplus(op.counts[..k - 1], line.product));
    AdjustLineOutcome(seen, w, op.date, line);
    forall p ensures Surplus(op.counts[..k], p)
                     == Surplus(op.counts[..k - 1], p)
                        + if line.product == p then line.qtyActual - line.qtySystem else 0.0
    {
      NextSurplus(op.counts, k, p);
    }
    assert Process(ledger, op, k).Ok?
           <==> 0.0 <= Balance(ledger, line.product, w) + Surplus(op.counts[..k], line.product);
    if Process(ledger, op, k).Ok? {
      forall j, p | 0 <= j <= k ensures 0.0 <= Balance(ledger, p, w) + Surplus(op.counts[..j], p) {
        if j == k && p != line.product {
          assert 0.0 <= Balance(ledger, p, w) + Surplus(op.counts[..k - 1], p);
        }
      }
    }
  }

  // A whole adjustment goes through exactly when a reason is given and no line
  // takes a product below zero; it then adds the surplus of each product.
  lemma {:induction false} AdjustOutcome(ledger: seq<Row>, w: WarehouseId, date: int, reasonGiven: bool,
      counts: seq<AdjustLine>)
    requires Consistent(ledger)
    requires forall i :: 0 <= i < |counts| ==>
      counts[i].qtySystem >= 0.0 && counts[i].qtyActual >= 0.0 && counts[i].unitCost >= 0.0
    ensures var r := Execute(ledger, Adjust(w, date, reasonGiven, counts));
            && (r.Ok? <==> reasonGiven && NeverShort(ledger, w, counts, |counts|))
            && (r.Err? ==> r.error == if reasonGiven then InsufficientStock else ValidationError)
            && (r.Ok? ==> ledger <= r.value && forall p :: Adjusted(ledger, r.value, w, p, Surplus(counts, p)))
  {
    if reasonGiven {
      var op := Adjust(w, date, reasonGiven, counts);
      assert counts[..|counts|] == counts;
      AdjustSucceedsIff(ledger, op, |counts|);
      if Process(ledger, op, |counts|).Ok? {
        AdjustsBySurplus(ledger, op, |counts|);
      }
    }
  }

  // -------------------------------------------------------------------- runs

  // A run starts with an empty ledger and takes each operation in turn; one that
  // fails leaves the ledger as it was.
  lemma {:induction false} RunOutcome(ops: seq<Op>, op: Op)
    ensures RunOf([]) == []
    ensures RunOf(ops + [op])
            == match Execute(RunOf(ops), op)
               case Ok(ledger) => ledger
               case Err(_) => RunOf(ops)
  {
    assert (ops + [op])[..|ops|] == ops;
  }

  // On any ledger, in date order or not, no operation stores a negative cost.
  lemma {:induction false} StoredCostsAreNotNegative(ledger: seq<Row>, op: Op, k: nat)
    requires k < LineCount(op) && LineRows(ledger, op, k).Ok?
    ensures forall r :: r in LineRows(ledger, op, k).value ==> r.runningCost >= 0.0
  {
  }
}
