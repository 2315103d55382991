// Concurrent sessions of the ledger operations.  A session takes the row locks
// of its products, in sorted order, before it reads or writes the ledger, and
// keeps them until it commits or fails.  recordMovement waits for its one lock;
// the other operations give up on a taken lock, release what they hold and
// start over, three attempts in all.  Reads see what is committed at that
// moment together with the session's own rows.

module InventorySessions {
  import opened Common
  import opened InventoryLedger
  import opened InventoryInvariants

  datatype Phase =
    | Idle
    | Locking(attempt: nat, taken: nat)
    | Working(done: nat, rows: seq<Row>, seen: Option<seq<Row>>)
    | Committed
    | Failed

  datatype Session = Session(op: Op, phase: Phase)

  datatype System = System(ledger: seq<Row>, sessions: seq<Session>, log: seq<nat>)

  datatype Event =
    | Start(i: nat)
    | TryLock(i: nat)
    | Read(i: nat)
    | Write(i: nat)
    | Commit(i: nat)
    | Abort(i: nat)  // a locked warehouse, a lost connection, a crash

  // ------------------------------------------------------------- lock order

  function Insert(p: ProductId, s: seq<ProductId>): (r: seq<ProductId>)
    ensures forall q :: q in r <==> q == p || q in s
  {
    if s == [] || p < s[0] then [p] + s
    else if p == s[0] then s
    else [s[0]] + Insert(p, s[1..])
  }

  // Array.from(new Set(products)).sort()
  function SortedProducts(op: Op, k: nat): (r: seq<ProductId>)
    requires k <= LineCount(op)
    ensures forall p :: p in r <==> exists i :: 0 <= i < k && LineProduct(op, i) == p
  {
    if k == 0 then [] else Insert(LineProduct(op, k - 1), SortedProducts(op, k - 1))
  }

  function LockOrder(op: Op): seq<ProductId> {
    SortedProducts(op, LineCount(op))
  }

  function Products(op: Op): set<ProductId> {
    set p | p in LockOrder(op)
  }

  function Held(s: Session): set<ProductId> {
    match s.phase
    case Locking(_, taken) => if taken <= |LockOrder(s.op)| then set p | p in LockOrder(s.op)[..taken] else {}
    case Working(_, _, _) => Products(s.op)
    case _ => {}
  }

  predicate HeldByOther(sys: System, i: nat, p: ProductId) {
    exists j :: 0 <= j < |sys.sessions| && j != i && p in Held(sys.sessions[j])
  }

  // ------------------------------------------------------------------ steps

  function Enter(sys: System, i: nat, phase: Phase): System
    requires i < |sys.sessions|
  {
    sys.(sessions := sys.sessions[i := sys.sessions[i].(phase := phase)])
  }

  function StartStep(sys: System, i: nat): System
    requires i < |sys.sessions|
  {
    if !sys.sessions[i].phase.Idle? then sys
    else Enter(sys, i, if Admissible(sys.sessions[i].op) then Locking(1, 0) else Failed)
  }

  function LockStep(sys: System, i: nat): System
    requires i < |sys.sessions|
  {
    var Session(op, phase) := sys.sessions[i];
    if !phase.Locking? then sys
    else if phase.taken >= |LockOrder(op)| then Enter(sys, i, Working(0, [], None))
    else if !HeldByOther(sys, i, LockOrder(op)[phase.taken]) then Enter(sys, i, Locking(phase.attempt, phase.taken + 1))
    else if op.Movement? then sys  // FOR UPDATE waits
    else if phase.attempt < MAX_ATTEMPTS then Enter(sys, i, Locking(phase.attempt + 1, 0))
    else Enter(sys, i, Failed)
  }

  function ReadStep(sys: System, i: nat): System
    requires i < |sys.sessions|
  {
    var Session(op, phase) := sys.sessions[i];
    if phase.Working? && phase.seen.None? && phase.done < LineCount(op)
    then Enter(sys, i, phase.(seen := Some(sys.ledger)))
    else sys
  }

  function WriteStep(sys: System, i: nat): System
    requires i < |sys.sessions|
  {
    var Session(op, phase) := sys.sessions[i];
    if phase.Working? && phase.seen.Some? && phase.done < LineCount(op) then
      match LineRows(phase.seen.value + phase.rows, op, phase.done)
      case Ok(more) => Enter(sys, i, Working(phase.done + 1, phase.rows + more, None))
      case Err(_) => Enter(sys, i, Failed)
    else sys
  }

  function CommitStep(sys: System, i: nat): System
    requires i < |sys.sessions|
  {
    var Session(op, phase) := sys.sessions[i];
    if phase.Working? && phase.seen.None? && phase.done == LineCount(op)
    then Enter(sys, i, Committed).(ledger := sys.ledger + phase.rows, log := sys.log + [i])
    else sys
  }

  function AbortStep(sys: System, i: nat): System
    requires i < |sys.sessions|
  {
    if sys.sessions[i].phase.Committed? then sys else Enter(sys, i, Failed)
  }

  // An event that is not enabled leaves the system as it is.
  function Step(sys: System, e: Event): System {
    if e.i >= |sys.sessions| then sys else
      match e
      case Start(i) => StartStep(sys, i)
      case TryLock(i) => LockStep(sys, i)
      case Read(i) => ReadStep(sys, i)
      case Write(i) => WriteStep(sys, i)
      case Commit(i) => CommitStep(sys, i)
      case Abort(i) => AbortStep(sys, i)
  }

  function Init(ops: seq<Op>): System {
    System([], seq(|ops|, k requires 0 <= k < |ops| => Session(ops[k], Idle)), [])
  }

  function Run(ops: seq<Op>, events: seq<Event>): System {
    if events == [] then Init(ops)
    else Step(Run(ops, events[..|events| - 1]), events[|events| - 1])
  }

  // --------------------------------------------------------------- locality

  // The two ledgers answer every query about these products alike.
  ghost predicate Agree(a: seq<Row>, b: seq<Row>, products: set<ProductId>) {
    forall p, w :: p in products ==> AgreeAt(a, b, p, w)
  }

  ghost predicate AgreeAt(a: seq<Row>, b: seq<Row>, p: ProductId, w: WarehouseId) {
    && SumIn(a, p, w) == SumIn(b, p, w)
    && SumOut(a, p, w) == SumOut(b, p, w)
    && Newest(a, p, w) == Newest(b, p, w)
    && NewestByDate(a, p, w) == NewestByDate(b, p, w)
  }

  lemma {:induction false} AgreeAfterSameRows(a: seq<Row>, b: seq<Row>, products: set<ProductId>, rows: seq<Row>)
    requires Agree(a, b, products)
    ensures Agree(a + rows, b + rows, products)
  {
    if rows == [] {
      assert a + rows == a && b + rows == b;
    } else {
      var k := |rows| - 1;
      AgreeAfterSameRows(a, b, products, rows[..k]);
      assert (a + rows)[..|a + rows| - 1] == a + rows[..k];
      assert (b + rows)[..|b + rows| - 1] == b + rows[..k];
      forall p, w | p in products ensures AgreeAt(a + rows, b + rows, p, w) {
        assert AgreeAt(a + rows[..k], b + rows[..k], p, w);
      }
    }
  }

  lemma {:induction false} AgreeAfterForeignRows(a: seq<Row>, products: set<ProductId>, rows: seq<Row>)
    requires forall k :: 0 <= k < |rows| ==> rows[k].product !in products
    ensures Agree(a, a + rows, products)
  {
    if rows == [] {
      assert a + rows == a;
    } else {
      var k := |rows| - 1;
      AgreeAfterForeignRows(a, products, rows[..k]);
      assert (a + rows)[..|a + rows| - 1] == a + rows[..k];
      forall p, w | p in products ensures AgreeAt(a, a + rows, p, w) {
        assert AgreeAt(a, a + rows[..k], p, w);
      }
    }
  }

  lemma {:induction false} LineRowsLocal(a: seq<Row>, b: seq<Row>, op: Op, k: nat)
    requires k < LineCount(op) && Agree(a, b, Products(op))
    ensures LineRows(a, op, k) == LineRows(b, op, k)
  {
    var p := LineProduct(op, k);
    assert p in LockOrder(op);
    match op
    case Movement(d, _) =>
      assert AgreeAt(a, b, p, d.warehouse);
    case Transfer(from, to, _, _) => assert AgreeAt(a, b, p, from) && AgreeAt(a, b, p, to);
    case Adjust(w, _, _, _) => assert AgreeAt(a, b, p, w);
  }

  lemma {:induction false} OwnProducts(a: seq<Row>, op: Op, k: nat)
    requires k < LineCount(op) && LineRows(a, op, k).Ok?
    ensures forall r :: r in LineRows(a, op, k).value ==> r.product in Products(op)
  {
    LineRowsAreStamped(a, op, k);
    assert LineProduct(op, k) in LockOrder(op);
  }

  lemma {:induction false} ProcessLocal(a: seq<Row>, b: seq<Row>, op: Op, k: nat)
    requires k <= LineCount(op) && Agree(a, b, Products(op))
    ensures Process(a, op, k) == Process(b, op, k)
  {
    if k > 0 {
      ProcessLocal(a, b, op, k - 1);
      if Process(a, op, k - 1).Ok? {
        var rows := Process(a, op, k - 1).value;
        AgreeAfterSameRows(a, b, Products(op), rows);
        LineRowsLocal(a + rows, b + rows, op, k - 1);
      }
    }
  }

  lemma {:induction false} ProcessProducts(a: seq<Row>, op: Op, k: nat)
    requires k <= LineCount(op) && Process(a, op, k).Ok?
    ensures forall r :: r in Process(a, op, k).value ==> r.product in Products(op)
  {
    if k > 0 {
      ProcessProducts(a, op, k - 1);
      var rows := Process(a, op, k - 1).value;
      var more := LineRows(a + rows, op, k - 1).value;
      OwnProducts(a + rows, op, k - 1);
      assert forall r :: r in rows + more <==> r in rows || r in more;
    }
  }

  // -------------------------------------------------------------- invariant

  ghost predicate Exclusive(sys: System) {
    forall i, j :: 0 <= i < j < |sys.sessions| ==> Held(sys.sessions[i]) !! Held(sys.sessions[j])
  }

  // What a session has done so far is what it would have done alone, starting
  // from the ledger as it is committed now.
  ghost predicate OnTrack(ledger: seq<Row>, s: Session) {
    match s.phase
    case Locking(_, taken) => Admissible(s.op) && taken <= |LockOrder(s.op)|
    case Working(done, rows, seen) =>
      && Admissible(s.op)
      && done <= LineCount(s.op)
      && Process(ledger, s.op, done) == Ok(rows)
      && (seen.Some? ==> done < LineCount(s.op) && Agree(seen.value, ledger, Products(s.op)))
    case _ => true
  }

  ghost predicate AllOnTrack(sys: System) {
    forall i :: 0 <= i < |sys.sessions| ==> OnTrack(sys.ledger, sys.sessions[i])
  }

  ghost predicate LogExact(sys: System) {
    && Distinct(sys.log)
    && (forall i :: i in sys.log ==> i < |sys.sessions|)
    && (forall i :: 0 <= i < |sys.sessions| ==> (i in sys.log <==> sys.sessions[i].phase.Committed?))
  }

  // The operations of the sessions named by a log, in log order.
  ghost function OpsOf(sessions: seq<Session>, log: seq<nat>): seq<Op> {
    if log == [] then [] else
      var k := |log| - 1;
      OpsOf(sessions, log[..k]) + if log[k] < |sessions| then [sessions[log[k]].op] else []
  }

  ghost function CommittedOps(sys: System): seq<Op> {
    OpsOf(sys.sessions, sys.log)
  }

  // Run one after the other, each of these operations succeeds.
  ghost predicate AllSucceed(ops: seq<Op>) {
    ops == [] || (AllSucceed(ops[..|ops| - 1]) && Execute(RunOf(ops[..|ops| - 1]), ops[|ops| - 1]).Ok?)
  }

  ghost predicate Serial(sys: System) {
    && LogExact(sys)
    && sys.ledger == RunOf(CommittedOps(sys))
    && AllSucceed(CommittedOps(sys))
  }

  ghost predicate Inv(sys: System) {
    Exclusive(sys) && AllOnTrack(sys) && Serial(sys)
  }

  // ------------------------------------------------------------ preservation

  // A step that changes one session and no committed row.
  lemma {:induction false} EnterKeepsInv(sys: System, i: nat, phase: Phase)
    requires Inv(sys) && i < |sys.sessions|
    requires !sys.sessions[i].phase.Committed? && !phase.Committed?
    requires OnTrack(sys.ledger, sys.sessions[i].(phase := phase))
    requires forall p :: p in Held(sys.sessions[i].(phase := phase)) ==> !HeldByOther(sys, i, p)
    ensures Inv(Enter(sys, i, phase))
  {
    var next := Enter(sys, i, phase);
    forall a, b | 0 <= a < b < |next.sessions| ensures Held(next.sessions[a]) !! Held(next.sessions[b]) {
      if a == i {
        forall p | p in Held(next.sessions[a]) ensures p !in Held(next.sessions[b]) {
          assert !HeldByOther(sys, i, p);
        }
      } else if b == i {
        forall p | p in Held(next.sessions[b]) ensures p !in Held(next.sessions[a]) {
          assert !HeldByOther(sys, i, p);
        }
      }
    }
    OpsKept(sys.sessions, i, phase, sys.log);
  }

  lemma {:induction false} OpsKept(sessions: seq<Session>, i: nat, phase: Phase, log: seq<nat>)
    requires i < |sessions|
    ensures OpsOf(sessions[i := sessions[i].(phase := phase)], log) == OpsOf(sessions, log)
  {
    if log != [] {
      OpsKept(sessions, i, phase, log[..|log| - 1]);
    }
  }

  lemma {:induction false} HeldAlone(sys: System, i: nat)
    requires Exclusive(sys) && i < |sys.sessions|
    ensures forall p :: p in Held(sys.sessions[i]) ==> !HeldByOther(sys, i, p)
  {
  }

  predicate ReadyToCommit(s: Session) {
    s.phase.Working? && s.phase.seen.None? && s.phase.done == LineCount(s.op)
  }

  // Rows committed by a session that shares no lock with s do not disturb s.
  lemma {:induction false} OnTrackAfterCommit(ledger: seq<Row>, s: Session, rows: seq<Row>)
    requires OnTrack(ledger, s)
    requires forall r :: r in rows ==> r.product !in Held(s)
    ensures OnTrack(ledger + rows, s)
  {
    if s.phase.Working? {
      AgreeAfterForeignRows(ledger, Products(s.op), rows);
      ProcessLocal(ledger, ledger + rows, s.op, s.phase.done);
      if s.phase.seen.Some? {
        AgreeJoin(s.phase.seen.value, ledger, ledger + rows, Products(s.op));
      }
    }
  }

  lemma {:induction false} CommitKeepsOnTrack(sys: System, i: nat)
    requires Inv(sys) && i < |sys.sessions| && ReadyToCommit(sys.sessions[i])
    ensures Exclusive(CommitStep(sys, i)) && AllOnTrack(CommitStep(sys, i))
  {
    var next := CommitStep(sys, i);
    var op, rows := sys.sessions[i].op, sys.sessions[i].phase.rows;
    assert OnTrack(sys.ledger, sys.sessions[i]);
    ProcessProducts(sys.ledger, op, LineCount(op));
    forall j | 0 <= j < |sys.sessions| && j != i ensures OnTrack(next.ledger, next.sessions[j]) {
      assert Held(sys.sessions[j]) !! Held(sys.sessions[i]);
      OnTrackAfterCommit(sys.ledger, sys.sessions[j], rows);
    }
  }

  lemma {:induction false} CommitKeepsLog(sys: System, i: nat)
    requires LogExact(sys) && i < |sys.sessions| && ReadyToCommit(sys.sessions[i])
    ensures LogExact(CommitStep(sys, i))
  {
    assert i !in sys.log;
  }

  lemma {:induction false} CommitKeepsSerial(sys: System, i: nat)
    requires Serial(sys) && i < |sys.sessions| && ReadyToCommit(sys.sessions[i])
    requires OnTrack(sys.ledger, sys.sessions[i])
    ensures Serial(CommitStep(sys, i))
  {
    CommitKeepsLog(sys, i);
    CommittedGrows(sys, i);
    SerialGrows(CommittedOps(sys), sys.sessions[i].op, sys.sessions[i].phase.rows);
  }

  lemma {:induction false} CommittedGrows(sys: System, i: nat)
    requires i < |sys.sessions| && ReadyToCommit(sys.sessions[i])
    ensures CommittedOps(CommitStep(sys, i)) == CommittedOps(sys) + [sys.sessions[i].op]
  {
    OpsKept(sys.sessions, i, Committed, sys.log);
    assert (sys.log + [i])[..|sys.log|] == sys.log;
  }

  lemma {:induction false} SerialGrows(ops: seq<Op>, op: Op, rows: seq<Row>)
    requires AllSucceed(ops) && Admissible(op) && Process(RunOf(ops), op, LineCount(op)) == Ok(rows)
    ensures AllSucceed(ops + [op]) && RunOf(ops + [op]) == RunOf(ops) + rows
  {
    assert (ops + [op])[..|ops|] == ops;
  }

  lemma {:induction false} AgreeJoin(a: seq<Row>, b: seq<Row>, c: seq<Row>, products: set<ProductId>)
    requires Agree(a, b, products) && Agree(b, c, products)
    ensures Agree(a, c, products)
  {
    forall p, w | p in products ensures AgreeAt(a, c, p, w) {
      assert AgreeAt(a, b, p, w) && AgreeAt(b, c, p, w);
    }
  }

  lemma {:induction false} LockKeepsInv(sys: System, i: nat)
    requires Inv(sys) && i < |sys.sessions| && sys.sessions[i].phase.Locking?
    ensures Inv(LockStep(sys, i))
  {
    var Session(op, phase) := sys.sessions[i];
    assert phase.taken <= |LockOrder(op)| by { assert OnTrack(sys.ledger, sys.sessions[i]); }
    if phase.taken == |LockOrder(op)| {
      assert LockStep(sys, i) == Enter(sys, i, Working(0, [], None));
      TakenAll(sys, i);
    } else if !HeldByOther(sys, i, LockOrder(op)[phase.taken]) {
      assert LockStep(sys, i) == Enter(sys, i, Locking(phase.attempt, phase.taken + 1));
      TakesNext(sys, i);
    } else if op.Movement? {
      assert LockStep(sys, i) == sys;
    } else if phase.attempt < MAX_ATTEMPTS {
      assert LockStep(sys, i) == Enter(sys, i, Locking(phase.attempt + 1, 0));
      GivesUp(sys, i, Locking(phase.attempt + 1, 0));
    } else {
      assert LockStep(sys, i) == Enter(sys, i, Failed);
      GivesUp(sys, i, Failed);
    }
  }

  lemma {:induction false} GivesUp(sys: System, i: nat, phase: Phase)
    requires Inv(sys) && i < |sys.sessions| && sys.sessions[i].phase.Locking?
    requires phase.Failed? || (phase.Locking? && phase.taken == 0)
    ensures Inv(Enter(sys, i, phase))
  {
    assert OnTrack(sys.ledger, sys.sessions[i]);
    EnterKeepsInv(sys, i, phase);
  }

  lemma {:induction false} TakenAll(sys: System, i: nat)
    requires Inv(sys) && i < |sys.sessions| && sys.sessions[i].phase.Locking?
    requires sys.sessions[i].phase.taken == |LockOrder(sys.sessions[i].op)|
    ensures Inv(Enter(sys, i, Working(0, [], None)))
  {
    assert OnTrack(sys.ledger, sys.sessions[i]);
    HeldAlone(sys, i);
    LocksGrow(sys.sessions[i]);
    EnterKeepsInv(sys, i, Working(0, [], None));
  }

  lemma {:induction false} TakesNext(sys: System, i: nat)
    requires Inv(sys) && i < |sys.sessions| && sys.sessions[i].phase.Locking?
    requires var s := sys.sessions[i];
             s.phase.taken < |LockOrder(s.op)| && !HeldByOther(sys, i, LockOrder(s.op)[s.phase.taken])
    ensures var phase := sys.sessions[i].phase;
            Inv(Enter(sys, i, Locking(phase.attempt, phase.taken + 1)))
  {
    var s := sys.sessions[i];
    assert OnTrack(sys.ledger, s);
    HeldAlone(sys, i);
    LocksGrow(s);
    EnterKeepsInv(sys, i, Locking(s.phase.attempt, s.phase.taken + 1));
  }

  lemma {:induction false} LocksGrow(s: Session)
    requires s.phase.Locking? && s.phase.taken <= |LockOrder(s.op)|
    ensures var order, taken := LockOrder(s.op), s.phase.taken;
            if taken == |order| then Held(s) == Products(s.op)
            else Held(s.(phase := Locking(s.phase.attempt, taken + 1))) == Held(s) + {order[taken]}
  {
    var order, taken := LockOrder(s.op), s.phase.taken;
    if taken == |order| {
      assert order[..taken] == order;
    } else {
      assert order[..taken + 1] == order[..taken] + [order[taken]];
    }
  }

  lemma {:induction false} ReadKeepsInv(sys: System, i: nat)
    requires Inv(sys) && i < |sys.sessions|
    ensures Inv(ReadStep(sys, i))
  {
    var s := sys.sessions[i];
    assert OnTrack(sys.ledger, s);
    if ReadStep(sys, i) != sys {
      HeldAlone(sys, i);
      EnterKeepsInv(sys, i, s.phase.(seen := Some(sys.ledger)));
    }
  }

  lemma {:induction false} WriteKeepsInv(sys: System, i: nat)
    requires Inv(sys) && i < |sys.sessions|
    ensures Inv(WriteStep(sys, i))
  {
    var s := sys.sessions[i];
    assert OnTrack(sys.ledger, s);
    if s.phase.Working? && s.phase.seen.Some? {
      var Working(done, rows, seen) := s.phase;
      assert LineRows(seen.value + rows, s.op, done) == LineRows(sys.ledger + rows, s.op, done) by {
        AgreeAfterSameRows(seen.value, sys.ledger, Products(s.op), rows);
        LineRowsLocal(seen.value + rows, sys.ledger + rows, s.op, done);
      }
      HeldAlone(sys, i);
      match LineRows(seen.value + rows, s.op, done)
      case Ok(more) => EnterKeepsInv(sys, i, Working(done + 1, rows + more, None));
      case Err(_) => EnterKeepsInv(sys, i, Failed);
    }
  }

  lemma {:induction false} StepKeepsInv(sys: System, e: Event)
    requires Inv(sys)
    ensures Inv(Step(sys, e))
  {
    if e.i < |sys.sessions| {
      var s := sys.sessions[e.i];
      match e
      case Start(i) =>
        if s.phase.Idle? { EnterKeepsInv(sys, i, if Admissible(s.op) then Locking(1, 0) else Failed); }
      case TryLock(i) => if s.phase.Locking? { LockKeepsInv(sys, i); }
      case Read(i) => ReadKeepsInv(sys, i);
      case Write(i) => WriteKeepsInv(sys, i);
      case Commit(i) =>
        if ReadyToCommit(s) {
          assert OnTrack(sys.ledger, s);
          CommitKeepsOnTrack(sys, i);
          CommitKeepsSerial(sys, i);
        }
      case Abort(i) => if !s.phase.Committed? { EnterKeepsInv(sys, i, Failed); }
    }
  }
}
