// What becomes of a session: left alone it commits what its operation stores, and
// it fails only for one of four reasons.

module InventoryAttempts {
  import opened Common
  import opened InventoryLedger
  import opened InventorySessions
  import opened InventorySerializability
  import InventoryService

  // -------------------------------------------------------------- lock order

  ghost predicate Ascending(s: seq<nat>) {
    forall i, j :: 0 <= i < j < |s| ==> s[i] < s[j]
  }

  lemma {:induction false} InsertKeepsAscending(p: ProductId, s: seq<ProductId>)
    requires Ascending(s)
    ensures Ascending(Insert(p, s))
  {
    if s != [] && p > s[0] {
      InsertKeepsAscending(p, s[1..]);
      var r := Insert(p, s[1..]);
      forall k | 0 <= k < |r| ensures s[0] < r[k] {
        assert r[k] in r;
        if r[k] != p { var n :| 0 <= n < |s[1..]| && s[1..][n] == r[k]; }
      }
    }
  }

  lemma {:induction false} SortedProductsAscend(op: Op, k: nat)
    requires k <= LineCount(op)
    ensures Ascending(SortedProducts(op, k))
  {
    if k > 0 {
      SortedProductsAscend(op, k - 1);
      InsertKeepsAscending(LineProduct(op, k - 1), SortedProducts(op, k - 1));
    }
  }

  // Every session locks the products of its lines, each once, in ascending order.
  lemma {:induction false} LockOrderIsSorted(op: Op)
    ensures Ascending(LockOrder(op))
    ensures match op
            case Movement(d, _) => LockOrder(op) == [d.product]
            case Transfer(_, _, _, moves) =>
              forall p :: p in LockOrder(op) <==> exists i :: 0 <= i < |moves| && moves[i].product == p
            case Adjust(_, _, _, counts) =>
              forall p :: p in LockOrder(op) <==> exists i :: 0 <= i < |counts| && counts[i].product == p
  {
    SortedProductsAscend(op, LineCount(op));
    match op
    case Movement(_, _) => assert SortedProducts(op, 0) == [];
    case Transfer(_, _, _, moves) =>
      forall p ensures p in LockOrder(op) <==> exists i :: 0 <= i < |moves| && moves[i].product == p {
        assert forall i :: 0 <= i < |moves| ==> LineProduct(op, i) == moves[i].product;
      }
    case Adjust(_, _, _, counts) =>
      forall p ensures p in LockOrder(op) <==> exists i :: 0 <= i < |counts| && counts[i].product == p {
        assert forall i :: 0 <= i < |counts| ==> LineProduct(op, i) == counts[i].product;
      }
  }

  // ------------------------------------------------------- a session left alone

  function Continued(sys: System, events: seq<Event>): System {
    if events == [] then sys else Step(Continued(sys, events[..|events| - 1]), events[|events| - 1])
  }

  lemma {:induction false} RunContinued(ops: seq<Op>, events: seq<Event>, more: seq<Event>)
    ensures Run(ops, events + more) == Continued(Run(ops, events), more)
  {
    if more == [] {
      assert events + more == events;
    } else {
      RunContinued(ops, events, more[..|more| - 1]);
      assert (events + more)[..|events + more| - 1] == events + more[..|more| - 1];
    }
  }

  function Locks(i: nat, k: nat): seq<Event> {
    if k == 0 then [Start(i)] else Locks(i, k - 1) + [TryLock(i)]
  }

  function Works(i: nat, locks: nat, k: nat): seq<Event> {
    if k == 0 then Locks(i, locks) else Works(i, locks, k - 1) + [Read(i)] + [Write(i)]
  }

  // Start, one TryLock for each lock and one more, a Read and a Write for each
  // line, and Commit.
  function OneByOne(i: nat, op: Op): seq<Event> {
    Works(i, |LockOrder(op)| + 1, LineCount(op)) + [Commit(i)]
  }

  lemma {:induction false} ContinuedOnce(sys: System, events: seq<Event>, e: Event)
    ensures Continued(sys, events + [e]) == Step(Continued(sys, events), e)
  {
    assert (events + [e])[..|events|] == events;
  }

  lemma {:induction false} ReachesTwice(sys: System, events: seq<Event>, d: Event, e: Event)
    ensures Continued(sys, events + [d] + [e]) == Step(Step(Continued(sys, events), d), e)
  {
    ContinuedOnce(sys, events, d);
    ContinuedOnce(sys, events + [d], e);
  }

  lemma {:induction false} Reaches(sys: System, events: seq<Event>, e: Event, mid: System, after: System)
    requires Continued(sys, events) == mid && Step(mid, e) == after
    ensures Continued(sys, events + [e]) == after
  {
    ContinuedOnce(sys, events, e);
  }

  ghost predicate Free(sys: System, i: nat) {
    i < |sys.sessions| && forall p :: p in LockOrder(sys.sessions[i].op) ==> !HeldByOther(sys, i, p)
  }

  // Session i is in this phase; nothing else of the system has changed.
  lemma {:induction false} EnterTwice(sys: System, i: nat, a: Phase, b: Phase)
    requires i < |sys.sessions|
    ensures Enter(Enter(sys, i, a), i, b) == Enter(sys, i, b)
    ensures forall p :: HeldByOther(Enter(sys, i, a), i, p) <==> HeldByOther(sys, i, p)
  {
    var next := Enter(sys, i, a);
    forall p ensures HeldByOther(next, i, p) <==> HeldByOther(sys, i, p) {
      assert forall j :: 0 <= j < |sys.sessions| && j != i ==> next.sessions[j] == sys.sessions[j];
    }
  }

  lemma {:induction false} TakesLocks(sys: System, i: nat, k: nat)
    requires Free(sys, i) && sys.sessions[i].phase.Idle? && Admissible(sys.sessions[i].op)
    requires k <= |LockOrder(sys.sessions[i].op)|
    ensures Continued(sys, Locks(i, k)) == Enter(sys, i, Locking(1, k))
  {
    if k == 0 {
      assert [] + [Start(i)] == [Start(i)];
      ContinuedOnce(sys, [], Start(i));
    } else {
      var mid := Enter(sys, i, Locking(1, k - 1));
      assert Continued(sys, Locks(i, k - 1)) == mid by { TakesLocks(sys, i, k - 1); }
      assert Step(mid, TryLock(i)) == Enter(sys, i, Locking(1, k)) by { TakesLock(sys, i, k - 1); }
      Reaches(sys, Locks(i, k - 1), TryLock(i), mid, Enter(sys, i, Locking(1, k)));
    }
  }

  lemma {:induction false} TakesLock(sys: System, i: nat, k: nat)
    requires Free(sys, i) && k < |LockOrder(sys.sessions[i].op)|
    ensures Step(Enter(sys, i, Locking(1, k)), TryLock(i)) == Enter(sys, i, Locking(1, k + 1))
  {
    EnterTwice(sys, i, Locking(1, k), Locking(1, k + 1));
    var order := LockOrder(sys.sessions[i].op);
    assert order[k] in order;
  }

  lemma {:induction false} StartsWorking(sys: System, i: nat)
    requires Free(sys, i) && sys.sessions[i].phase.Idle? && Admissible(sys.sessions[i].op)
    ensures Continued(sys, Locks(i, |LockOrder(sys.sessions[i].op)| + 1)) == Enter(sys, i, Working(0, [], None))
  {
    var n := |LockOrder(sys.sessions[i].op)|;
    TakesLocks(sys, i, n);
    ContinuedOnce(sys, Locks(i, n), TryLock(i));
    EnterTwice(sys, i, Locking(1, n), Working(0, [], None));
  }

  // How far the session has come after k lines.
  function Progress(ledger: seq<Row>, op: Op, k: nat): Phase
    requires k <= LineCount(op)
  {
    match Process(ledger, op, k)
    case Ok(rows) => Working(k, rows, None)
    case Err(_) => Failed
  }

  lemma {:induction false} ReadsAndWrites(sys: System, i: nat, k: nat)
    requires i < |sys.sessions| && k < LineCount(sys.sessions[i].op)
    requires sys.sessions[i].phase == Progress(sys.ledger, sys.sessions[i].op, k)
    ensures Step(Step(sys, Read(i)), Write(i)) == Enter(sys, i, Progress(sys.ledger, sys.sessions[i].op, k + 1))
  {
    var s := sys.sessions[i];
    if s.phase.Working? {
      EnterTwice(sys, i, s.phase.(seen := Some(sys.ledger)), Progress(sys.ledger, s.op, k + 1));
    } else {
      assert Enter(sys, i, Failed) == sys;
    }
  }

  lemma {:induction false} WorksThrough(sys: System, i: nat, k: nat)
    requires Free(sys, i) && sys.sessions[i].phase.Idle? && Admissible(sys.sessions[i].op)
    requires k <= LineCount(sys.sessions[i].op)
    ensures Continued(sys, Works(i, |LockOrder(sys.sessions[i].op)| + 1, k))
            == Enter(sys, i, Progress(sys.ledger, sys.sessions[i].op, k))
  {
    var op := sys.sessions[i].op;
    if k == 0 {
      StartsWorking(sys, i);
    } else {
      var before := Works(i, |LockOrder(op)| + 1, k - 1);
      WorksThrough(sys, i, k - 1);
      WorksOneLine(sys, i, k);
      ReachesTwice(sys, before, Read(i), Write(i));
      assert Works(i, |LockOrder(op)| + 1, k) == before + [Read(i)] + [Write(i)];
    }
  }

  lemma {:induction false} WorksOneLine(sys: System, i: nat, k: nat)
    requires i < |sys.sessions| && 0 < k <= LineCount(sys.sessions[i].op)
    ensures var op := sys.sessions[i].op;
            Step(Step(Enter(sys, i, Progress(sys.ledger, op, k - 1)), Read(i)), Write(i))
            == Enter(sys, i, Progress(sys.ledger, op, k))
  {
    var op := sys.sessions[i].op;
    ReadsAndWrites(Enter(sys, i, Progress(sys.ledger, op, k - 1)), i, k - 1);
    EnterTwice(sys, i, Progress(sys.ledger, op, k - 1), Progress(sys.ledger, op, k));
  }

  // Main theorem: in any reachable system, an idle session whose products nobody
  // else holds, given its turns one by one, commits exactly what its operation
  // stores on the ledger committed so far; if the operation fails there, the
  // session fails and the ledger stays.
  lemma {:induction false} IdleSessionCompletes(ops: seq<Op>, events: seq<Event>, i: nat)
    requires i < |ops| && i < |Run(ops, events).sessions| && Run(ops, events).sessions[i].phase.Idle?
    requires forall p :: p in LockOrder(ops[i]) ==> !HeldByOther(Run(ops, events), i, p)
    ensures var before, after := Run(ops, events), Run(ops, events + OneByOne(i, ops[i]));
            match Execute(before.ledger, ops[i])
            case Ok(ledger) =>
              && after.ledger == ledger && after.log == before.log + [i]
              && after.sessions == before.sessions[i := Session(ops[i], Committed)]
            case Err(_) =>
              && after.ledger == before.ledger && after.log == before.log
              && after.sessions == before.sessions[i := Session(ops[i], Failed)]
  {
    var before := Run(ops, events);
    SessionsKeepOps(ops, events);
    RunContinued(ops, events, OneByOne(i, ops[i]));
    CompletesAlone(before, i);
  }

  lemma {:induction false} CompletesAlone(sys: System, i: nat)
    requires Free(sys, i) && sys.sessions[i].phase.Idle?
    ensures var op := sys.sessions[i].op;
            Continued(sys, OneByOne(i, op))
            == match Execute(sys.ledger, op)
               case Ok(ledger) => Enter(sys, i, Committed).(ledger := ledger, log := sys.log + [i])
               case Err(_) => Enter(sys, i, Failed)
  {
    var op := sys.sessions[i].op;
    var works := Works(i, |LockOrder(op)| + 1, LineCount(op));
    ContinuedOnce(sys, works, Commit(i));
    if Admissible(op) {
      WorksThrough(sys, i, LineCount(op));
      CommitsProgress(sys, i);
    } else {
      StaysFailed(sys, i, |LockOrder(op)| + 1, LineCount(op));
    }
  }

  lemma {:induction false} CommitsProgress(sys: System, i: nat)
    requires i < |sys.sessions|
    ensures var op := sys.sessions[i].op;
            Step(Enter(sys, i, Progress(sys.ledger, op, LineCount(op))), Commit(i))
            == match Process(sys.ledger, op, LineCount(op))
               case Ok(rows) => Enter(sys, i, Committed).(ledger := sys.ledger + rows, log := sys.log + [i])
               case Err(_) => Enter(sys, i, Failed)
  {
    var op := sys.sessions[i].op;
    EnterTwice(sys, i, Progress(sys.ledger, op, LineCount(op)), Committed);
  }

  lemma {:induction false} StaysFailed(sys: System, i: nat, locks: nat, k: nat)
    requires i < |sys.sessions| && sys.sessions[i].phase.Idle? && !Admissible(sys.sessions[i].op)
    ensures Continued(sys, Works(i, locks, k)) == Enter(sys, i, Failed)
  {
    if k > 0 {
      StaysFailed(sys, i, locks, k - 1);
      ContinuedOnce(sys, Works(i, locks, k - 1), Read(i));
      ContinuedOnce(sys, Works(i, locks, k - 1) + [Read(i)], Write(i));
    } else if locks > 0 {
      StaysFailed(sys, i, locks - 1, 0);
      ContinuedOnce(sys, Locks(i, locks - 1), TryLock(i));
    } else {
      assert [] + [Start(i)] == [Start(i)];
      ContinuedOnce(sys, [], Start(i));
    }
  }

  // --------------------------------------------------------- why a session fails

  // The event finds session i before a lock that another session holds.
  predicate Refuses(sys: System, e: Event, i: nat) {
    && e == TryLock(i) && i < |sys.sessions| && sys.sessions[i].phase.Locking?
    && var Session(op, phase) := sys.sessions[i];
       phase.taken < |LockOrder(op)| && HeldByOther(sys, i, LockOrder(op)[phase.taken])
  }

  // How often a NOWAIT lock has been refused to session i.
  function Refusals(ops: seq<Op>, events: seq<Event>, i: nat): nat {
    if events == [] then 0 else
      var k := |events| - 1;
      Refusals(ops, events[..k], i) + if Refuses(Run(ops, events[..k]), events[k], i) then 1 else 0
  }

  ghost predicate AbortedIn(events: seq<Event>, i: nat) {
    exists k :: 0 <= k < |events| && events[k] == Abort(i)
  }

  // At the event, a line of session i fails, as the whole operation would on the
  // ledger committed by then.
  ghost predicate LineFailsAt(ops: seq<Op>, events: seq<Event>, i: nat, k: nat) {
    k < |events| && i < |ops| && events[k] == Write(i) && Execute(Run(ops, events[..k]).ledger, ops[i]).Err?
  }

  ghost predicate LineFailed(ops: seq<Op>, events: seq<Event>, i: nat) {
    exists k :: LineFailsAt(ops, events, i, k)
  }

  // What is known of a session: in its first, second or third attempt it has been
  // refused none, one or two locks, a third refusal has ended it, and when it has
  // failed there is a reason.
  ghost predicate Accounted(ops: seq<Op>, events: seq<Event>, i: nat, s: Session) {
    var refused := Refusals(ops, events, i);
    && (s.phase.Idle? ==> refused == 0)
    && (!s.op.Movement? ==>
          && refused <= 3 && (refused == 3 ==> s.phase.Failed?)
          && (s.phase.Locking? ==> s.phase.attempt == refused + 1))
    && (s.phase.Failed? ==> HasReason(ops, events, i, s.op))
  }

  ghost predicate HasReason(ops: seq<Op>, events: seq<Event>, i: nat, op: Op) {
    || !Admissible(op) || AbortedIn(events, i) || LineFailed(ops, events, i)
    || (!op.Movement? && Refusals(ops, events, i) == 3)
  }

  lemma {:induction false} ReasonsStay(ops: seq<Op>, events: seq<Event>, i: nat)
    requires events != []
    ensures var before := events[..|events| - 1];
            && (AbortedIn(before, i) ==> AbortedIn(events, i))
            && (LineFailed(ops, before, i) ==> LineFailed(ops, events, i))
  {
    var before := events[..|events| - 1];
    if LineFailed(ops, before, i) {
      var k: nat :| LineFailsAt(ops, before, i, k);
      assert before[..k] == events[..k];
      assert LineFailsAt(ops, events, i, k);
    }
    if AbortedIn(before, i) {
      var k :| 0 <= k < |before| && before[k] == Abort(i);
      assert events[k] == Abort(i);
    }
  }

  // The line that fails would fail the operation on the committed ledger too.
  lemma {:induction false} FailingLine(sys: System, i: nat)
    requires Inv(sys) && i < |sys.sessions| && !sys.sessions[i].phase.Failed?
    requires WriteStep(sys, i).sessions[i].phase.Failed?
    ensures Execute(sys.ledger, sys.sessions[i].op).Err?
  {
    var Session(op, phase) := sys.sessions[i];
    assert OnTrack(sys.ledger, sys.sessions[i]);
    var Working(done, rows, seen) := phase;
    AgreeAfterSameRows(seen.value, sys.ledger, Products(op), rows);
    LineRowsLocal(seen.value + rows, sys.ledger + rows, op, done);
    assert Process(sys.ledger, op, done + 1).Err?;
    InventoryService.ProcessStops(sys.ledger, op, done + 1);
  }

  lemma {:induction false} OtherStepsKeepSession(sys: System, e: Event, i: nat)
    requires i < |sys.sessions| && e.i != i
    ensures |Step(sys, e).sessions| == |sys.sessions| && Step(sys, e).sessions[i] == sys.sessions[i]
  {
  }

  lemma {:induction false} StepIsAccounted(ops: seq<Op>, events: seq<Event>, i: nat)
    requires events != [] && i < |ops|
    requires var sys := Run(ops, events[..|events| - 1]);
             && Inv(sys) && i < |sys.sessions| && sys.sessions[i].op == ops[i]
             && Accounted(ops, events[..|events| - 1], i, sys.sessions[i])
    ensures i < |Run(ops, events).sessions| && Accounted(ops, events, i, Run(ops, events).sessions[i])
  {
    var k := |events| - 1;
    var sys, e := Run(ops, events[..k]), events[k];
    assert Run(ops, events) == Step(sys, e);
    ReasonsStay(ops, events, i);
    if e.i != i {
      OtherStepsKeepSession(sys, e, i);
    } else {
      OwnStepIsAccounted(ops, events, i);
    }
  }

  lemma {:induction false} OwnStepIsAccounted(ops: seq<Op>, events: seq<Event>, i: nat)
    requires events != [] && i < |ops| && events[|events| - 1].i == i
    requires var sys := Run(ops, events[..|events| - 1]);
             && Inv(sys) && i < |sys.sessions| && sys.sessions[i].op == ops[i]
             && Accounted(ops, events[..|events| - 1], i, sys.sessions[i])
    ensures i < |Run(ops, events).sessions| && Accounted(ops, events, i, Run(ops, events).sessions[i])
  {
    var k := |events| - 1;
    var sys, e := Run(ops, events[..k]), events[k];
    var s := sys.sessions[i];
    ReasonsStay(ops, events, i);
    assert OnTrack(sys.ledger, s);
    match e
    case Abort(_) => assert AbortedIn(events, i);
    case Write(_) =>
      if !s.phase.Failed? && WriteStep(sys, i).sessions[i].phase.Failed? {
        FailingLine(sys, i);
        assert LineFailsAt(ops, events, i, k);
      }
    case _ =>
  }

  // Main theorem: a session fails only because its operation is inadmissible,
  // because it was aborted, because a line failed, or because it was refused a
  // NOWAIT lock for the third time; and the third refusal always ends it, the
  // first and the second never do.
  lemma {:induction false} SessionsFailForAReason(ops: seq<Op>, events: seq<Event>, i: nat)
    requires i < |ops|
    ensures i < |Run(ops, events).sessions| && Accounted(ops, events, i, Run(ops, events).sessions[i])
  {
    if events != [] {
      var before := events[..|events| - 1];
      SessionsFailForAReason(ops, before, i);
      CommittedLedgerIsSerial(ops, before);
      SessionsKeepOps(ops, before);
      StepIsAccounted(ops, events, i);
    }
  }

  // -------------------------------------------------------- refusals and aborts

  // A refused movement waits; any other operation lets go of the locks it has and
  // tries again, unless this was its third attempt.
  lemma {:induction false} RefusalOutcome(sys: System, i: nat)
    requires Refuses(sys, TryLock(i), i)
    ensures var before, next := sys.sessions[i], Step(sys, TryLock(i));
            && next.ledger == sys.ledger && next.log == sys.log
            && (before.op.Movement? ==> next == sys)
            && (!before.op.Movement? ==>
                  && |next.sessions| == |sys.sessions| && Held(next.sessions[i]) == {}
                  && next.sessions[i]
                     == before.(phase := if before.phase.attempt < 3 then Locking(before.phase.attempt + 1, 0)
                                         else Failed)
                  && forall j :: 0 <= j < |sys.sessions| && j != i ==> next.sessions[j] == sys.sessions[j])
  {
  }

  // An abort ends a session that has not committed, frees its locks and leaves no
  // row.
  lemma {:induction false} AbortOutcome(sys: System, i: nat)
    requires i < |sys.sessions| && !sys.sessions[i].phase.Committed?
    ensures var next := Step(sys, Abort(i));
            && next.ledger == sys.ledger && next.log == sys.log && |next.sessions| == |sys.sessions|
            && next.sessions[i] == sys.sessions[i].(phase := Failed) && Held(next.sessions[i]) == {}
            && forall j :: 0 <= j < |sys.sessions| && j != i ==> next.sessions[j] == sys.sessions[j]
  {
  }

  // What a session holds: the first locks of its order while it takes them, all of
  // them while it works, and none before or after.
  lemma {:induction false} HeldOutcome(s: Session, p: ProductId)
    requires s.phase.Locking? ==> s.phase.taken <= |LockOrder(s.op)|
    ensures p in Held(s)
            <==> match s.phase
                 case Locking(_, taken) => exists k :: 0 <= k < taken && LockOrder(s.op)[k] == p
                 case Working(_, _, _) => p in LockOrder(s.op)
                 case _ => false
  {
  }
}
