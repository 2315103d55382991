// The append-only inventory ledger: its rows, the queries the service runs
// over them, and the rows each operation writes.

module InventoryLedger {
  import opened Common

  type ProductId = nat
  type WarehouseId = nat

  // How often an operation tries to take its NOWAIT locks.
  const MAX_ATTEMPTS := 3

  // Which operation wrote a row.  recordMovement takes its transaction_type
  // from the caller, so the type column alone does not tell.
  datatype Origin = FromMovement | FromTransfer | FromAdjustment

  datatype Row = Row(
    origin: Origin, product: ProductId, warehouse: WarehouseId, date: int,
    qtyIn: real, qtyOut: real, unitCost: real, totalCost: real,
    runningQty: real, runningCost: real)

  datatype Error =
    | ValidationError
    | InsufficientStock
    | InvariantViolated
    | WarehouseLocked
    | LockNotAvailable

  predicate At(r: Row, p: ProductId, w: WarehouseId) {
    r.product == p && r.warehouse == w
  }

  // ---------------------------------------------------------------- queries

  // SUM(qty_in) and SUM(qty_out) for one product in one warehouse.
  function SumIn(ledger: seq<Row>, p: ProductId, w: WarehouseId): real {
    if ledger == [] then 0.0 else
      var k := |ledger| - 1;
      SumIn(ledger[..k], p, w) + if At(ledger[k], p, w) then ledger[k].qtyIn else 0.0
  }

  function SumOut(ledger: seq<Row>, p: ProductId, w: WarehouseId): real {
    if ledger == [] then 0.0 else
      var k := |ledger| - 1;
      SumOut(ledger[..k], p, w) + if At(ledger[k], p, w) then ledger[k].qtyOut else 0.0
  }

  function Balance(ledger: seq<Row>, p: ProductId, w: WarehouseId): real {
    SumIn(ledger, p, w) - SumOut(ledger, p, w)
  }

  // ORDER BY created_at DESC: the row inserted last.
  function Newest(ledger: seq<Row>, p: ProductId, w: WarehouseId): Option<Row> {
    if ledger == [] then None else
      var k := |ledger| - 1;
      if At(ledger[k], p, w) then Some(ledger[k]) else Newest(ledger[..k], p, w)
  }

  // ORDER BY movement_date DESC, created_at DESC.
  function NewestByDate(ledger: seq<Row>, p: ProductId, w: WarehouseId): Option<Row> {
    if ledger == [] then None else
      var k := |ledger| - 1;
      var before := NewestByDate(ledger[..k], p, w);
      if At(ledger[k], p, w) && (before.None? || before.value.date <= ledger[k].date)
      then Some(ledger[k]) else before
  }

  function QtyOf(r: Option<Row>): real {
    if r.Some? then r.value.runningQty else 0.0
  }

  function CostOf(r: Option<Row>): real {
    if r.Some? then r.value.runningCost else 0.0
  }

  function RunningQty(ledger: seq<Row>, p: ProductId, w: WarehouseId): real {
    QtyOf(Newest(ledger, p, w))
  }

  function RunningCost(ledger: seq<Row>, p: ProductId, w: WarehouseId): real {
    CostOf(Newest(ledger, p, w))
  }

  function Average(cost: real, qty: real): real {
    if qty > 0.0 then cost / qty else 0.0
  }

  // ------------------------------------------------------------- operations

  datatype MovementData = MovementData(
    product: ProductId, warehouse: WarehouseId, date: int,
    qtyIn: real, qtyOut: real, rate: Option<real>, unitCost: real)

  datatype TransferLine = TransferLine(product: ProductId, qty: real)

  datatype AdjustLine = AdjustLine(
    product: ProductId, qtySystem: real, qtyActual: real, unitCost: real)

  datatype Op =
    | Movement(data: MovementData, now: int)
    | Transfer(from: WarehouseId, to: WarehouseId, date: int, moves: seq<TransferLine>)
    | Adjust(warehouse: WarehouseId, date: int, reasonGiven: bool, counts: seq<AdjustLine>)

  function Rate(d: MovementData): real {
    if d.rate.Some? && d.rate.value > 0.0 then d.rate.value else 1.0
  }

  function BaseIn(d: MovementData): real { d.qtyIn * Rate(d) }

  function BaseOut(d: MovementData): real { d.qtyOut * Rate(d) }

  function BaseUnitCost(d: MovementData): real { d.unitCost / Rate(d) }

  // validateMovementData
  predicate ValidMovement(d: MovementData, now: int) {
    && d.qtyIn >= 0.0
    && d.qtyOut >= 0.0
    && !(d.qtyIn > 0.0 && d.qtyOut > 0.0)
    && !(d.qtyIn == 0.0 && d.qtyOut == 0.0)
    && d.unitCost >= 0.0
    && d.date <= now
  }

  // What each operation checks before its transaction takes any lock.
  predicate Admissible(op: Op) {
    match op
    case Movement(d, now) => ValidMovement(d, now)
    case Transfer(from, to, _, _) => from != to
    case Adjust(_, _, reasonGiven, _) => reasonGiven
  }

  // The numeric ranges declared on the request objects.
  predicate WithinDto(op: Op) {
    match op
    case Movement(_, _) => true
    case Transfer(_, _, _, moves) => forall i :: 0 <= i < |moves| ==> moves[i].qty > 0.0
    case Adjust(_, _, _, counts) =>
      forall i :: 0 <= i < |counts| ==>
        counts[i].qtySystem >= 0.0 && counts[i].qtyActual >= 0.0 && counts[i].unitCost >= 0.0
  }

  function LineCount(op: Op): nat {
    match op
    case Movement(_, _) => 1
    case Transfer(_, _, _, moves) => |moves|
    case Adjust(_, _, _, counts) => |counts|
  }

  function LineProduct(op: Op, k: nat): ProductId
    requires k < LineCount(op)
  {
    match op
    case Movement(d, _) => d.product
    case Transfer(_, _, _, moves) => moves[k].product
    case Adjust(_, _, _, counts) => counts[k].product
  }

  // The row a movement writes on top of the newest one.
  function MovementOn(last: Option<Row>, d: MovementData): Result<Row, Error> {
    var prevQty, prevCost := QtyOf(last), CostOf(last);
    var qty := prevQty + BaseIn(d) - BaseOut(d);
    var added := if BaseIn(d) > 0.0 then BaseIn(d) * BaseUnitCost(d) else 0.0;
    var removed := if BaseOut(d) > 0.0 && prevQty > 0.0 then (prevCost / prevQty) * BaseOut(d) else 0.0;
    if qty < 0.0 then Err(InsufficientStock)
    else Ok(Row(FromMovement, d.product, d.warehouse, d.date, BaseIn(d), BaseOut(d),
                BaseUnitCost(d), added, qty, MaxZero(prevCost + added - removed)))
  }

  function MovementRow(ledger: seq<Row>, d: MovementData): Result<Row, Error> {
    MovementOn(NewestByDate(ledger, d.product, d.warehouse), d)
  }

  // The two rows of a transfer line, from the balances and newest rows at both ends.
  function TransferOn(srcQty: real, src: Option<Row>, destQty: real, dest: Option<Row>,
                      from: WarehouseId, to: WarehouseId, date: int, move: TransferLine): Result<seq<Row>, Error>
  {
    if srcQty < move.qty then Err(InsufficientStock) else
      var unit := Average(CostOf(src), QtyOf(src));
      var srcNewQty, destNewQty := srcQty - move.qty, destQty + move.qty;
      if srcNewQty + destNewQty != srcQty + destQty then Err(InvariantViolated) else
        Ok([Row(FromTransfer, move.product, from, date, 0.0, move.qty, unit, move.qty * unit,
                srcNewQty, MaxZero(CostOf(src) - move.qty * unit)),
            Row(FromTransfer, move.product, to, date, move.qty, 0.0, unit, move.qty * unit,
                destNewQty, MaxZero(CostOf(dest) + move.qty * unit))])
  }

  function TransferRows(ledger: seq<Row>, from: WarehouseId, to: WarehouseId, date: int, move: TransferLine)
    : Result<seq<Row>, Error>
  {
    var p := move.product;
    TransferOn(Balance(ledger, p, from), Newest(ledger, p, from),
               Balance(ledger, p, to), Newest(ledger, p, to), from, to, date, move)
  }

  // The row of a count line, if the count differs at all.
  function AdjustOn(qty: real, latest: Option<Row>, w: WarehouseId, date: int, line: AdjustLine)
    : Result<seq<Row>, Error>
  {
    var diff := line.qtyActual - line.qtySystem;
    if diff == 0.0 then Ok([])
    else if diff < 0.0 && qty < -diff then Err(InsufficientStock) else
      var unit := if diff > 0.0 then line.unitCost else Average(CostOf(latest), QtyOf(latest));
      Ok([Row(FromAdjustment, line.product, w, date, MaxZero(diff), MaxZero(-diff), unit, AbsReal(diff) * unit,
              qty + diff, MaxZero(CostOf(latest) + diff * unit))])
  }

  function AdjustRows(ledger: seq<Row>, w: WarehouseId, date: int, line: AdjustLine): Result<seq<Row>, Error> {
    AdjustOn(Balance(ledger, line.product, w), Newest(ledger, line.product, w), w, date, line)
  }

  // The rows that line k of an operation writes when it sees `ledger`.
  function LineRows(ledger: seq<Row>, op: Op, k: nat): Result<seq<Row>, Error>
    requires k < LineCount(op)
  {
    match op
    case Movement(d, _) =>
      (match MovementRow(ledger, d)
       case Err(e) => Err(e)
       case Ok(row) => Ok([row]))
    case Transfer(from, to, date, moves) => TransferRows(ledger, from, to, date, moves[k])
    case Adjust(w, date, _, counts) => AdjustRows(ledger, w, date, counts[k])
  }

  // The rows written by the first k lines; each line sees the rows of the
  // lines before it.
  function Process(ledger: seq<Row>, op: Op, k: nat): Result<seq<Row>, Error>
    requires k <= LineCount(op)
  {
    if k == 0 then Ok([]) else
      match Process(ledger, op, k - 1)
      case Err(e) => Err(e)
      case Ok(rows) =>
        match LineRows(ledger + rows, op, k - 1)
        case Err(e) => Err(e)
        case Ok(more) => Ok(rows + more)
  }

  // One whole operation run alone: the extended ledger, or the error.
  function Execute(ledger: seq<Row>, op: Op): Result<seq<Row>, Error> {
    if !Admissible(op) then Err(ValidationError) else
      match Process(ledger, op, LineCount(op))
      case Err(e) => Err(e)
      case Ok(rows) => Ok(ledger + rows)
  }

  // A failed operation is rolled back.
  function After(ledger: seq<Row>, op: Op): seq<Row> {
    match Execute(ledger, op)
    case Ok(l) => l
    case Err(_) => ledger
  }

  // The ledger left by a run of operations, starting empty.
  function RunOf(ops: seq<Op>): seq<Row> {
    if ops == [] then [] else After(RunOf(ops[..|ops| - 1]), ops[|ops| - 1])
  }
}
