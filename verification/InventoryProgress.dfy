// Progress of the concurrent sessions: who waits for whom, why nobody waits for
// ever, and how every run ends.

module InventoryProgress {
  import opened Common
  import opened InventoryLedger
  import opened InventorySessions
  import opened InventorySerializability

  // ---------------------------------------------------------------- waiting

  // Session i stands before a lock that j holds, and trying for it gets i nowhere.
  ghost predicate WaitsFor(sys: System, i: nat, j: nat) {
    && i < |sys.sessions| && j < |sys.sessions| && i != j
    && var Session(op, phase) := sys.sessions[i];
       && phase.Locking? && phase.taken < |LockOrder(op)|
       && LockOrder(op)[phase.taken] in Held(sys.sessions[j])
       && LockStep(sys, i) == sys
  }

  // Only a movement ever waits, for the only lock it takes: the other operations
  // give up their attempt, which changes their phase.
  lemma {:induction false} OnlyMovementsWait(sys: System, i: nat, j: nat)
    requires WaitsFor(sys, i, j)
    ensures sys.sessions[i].op.Movement? && Held(sys.sessions[i]) == {}
  {
    var Session(op, phase) := sys.sessions[i];
    assert HeldByOther(sys, i, LockOrder(op)[phase.taken]);
    assert LockStep(sys, i).sessions[i] == sys.sessions[i];
    MovementLocksItsProduct(op);
  }

  ghost function Successor(cycle: seq<nat>, k: nat): nat
    requires k < |cycle|
  {
    if k + 1 < |cycle| then cycle[k + 1] else cycle[0]
  }

  ghost predicate WaitCycle(sys: System, cycle: seq<nat>) {
    |cycle| > 0 && forall k :: 0 <= k < |cycle| ==> WaitsFor(sys, cycle[k], Successor(cycle, k))
  }

  // A waiting session holds nothing, so nobody waits for it.
  lemma {:induction false} NoWaitCycle(ops: seq<Op>, events: seq<Event>, cycle: seq<nat>)
    ensures !WaitCycle(Run(ops, events), cycle)
  {
    if cycle != [] && WaitsFor(Run(ops, events), cycle[0], Successor(cycle, 0)) {
      HolderIsNotWaiting(Run(ops, events), cycle[0], Successor(cycle, 0));
    }
  }

  lemma {:induction false} HolderIsNotWaiting(sys: System, i: nat, j: nat)
    requires WaitsFor(sys, i, j)
    ensures !Finished(sys.sessions[j]) && forall k: nat :: !WaitsFor(sys, j, k)
  {
    assert Held(sys.sessions[j]) != {};
    forall k: nat ensures !WaitsFor(sys, j, k) {
      if WaitsFor(sys, j, k) { OnlyMovementsWait(sys, j, k); }
    }
  }

  predicate Finished(s: Session) {
    s.phase.Committed? || s.phase.Failed?
  }

  ghost predicate CanMove(sys: System) {
    exists e: Event :: !e.Abort? && Moves(sys, e)
  }

  predicate Moves(sys: System, e: Event) {
    Step(sys, e) != sys
  }

  // No deadlock: while a session is unfinished, some session can move on
  // without anyone being aborted.
  lemma {:induction false} SomeoneCanMove(ops: seq<Op>, events: seq<Event>, i: nat)
    requires i < |Run(ops, events).sessions| && !Finished(Run(ops, events).sessions[i])
    ensures CanMove(Run(ops, events))
  {
    CommittedLedgerIsSerial(ops, events);
    UnfinishedMoves(Run(ops, events), i);
  }

  lemma {:induction false} UnfinishedMoves(sys: System, i: nat)
    requires Inv(sys) && i < |sys.sessions| && !Finished(sys.sessions[i])
    ensures CanMove(sys)
  {
    if exists j: nat :: WaitsFor(sys, i, j) {
      var j: nat :| WaitsFor(sys, i, j);
      HolderIsNotWaiting(sys, i, j);
      Unblocked(sys, j);
    } else {
      Unblocked(sys, i);
    }
  }

  lemma {:induction false} Unblocked(sys: System, i: nat)
    requires Inv(sys) && i < |sys.sessions| && !Finished(sys.sessions[i])
    requires forall j: nat :: !WaitsFor(sys, i, j)
    ensures CanMove(sys)
  {
    var s := sys.sessions[i];
    assert OnTrack(sys.ledger, s);
    match s.phase
    case Idle => assert StartStep(sys, i).sessions[i] != s && Moves(sys, Start(i));
    case Locking(attempt, taken) =>
      if LockStep(sys, i) == sys { LockedOut(sys, i); }
      assert Moves(sys, TryLock(i));
    case Working(done, rows, seen) => WorkMoves(sys, i);
  }

  lemma {:induction false} WorkMoves(sys: System, i: nat)
    requires i < |sys.sessions| && sys.sessions[i].phase.Working? && OnTrack(sys.ledger, sys.sessions[i])
    ensures CanMove(sys)
  {
    var s := sys.sessions[i];
    if s.phase.seen.Some? {
      assert WriteStep(sys, i).sessions[i] != s && Moves(sys, Write(i));
    } else if s.phase.done < LineCount(s.op) {
      assert ReadStep(sys, i).sessions[i] != s && Moves(sys, Read(i));
    } else {
      assert CommitStep(sys, i).sessions[i] != s && Moves(sys, Commit(i));
    }
  }

  lemma {:induction false} LockedOut(sys: System, i: nat)
    requires i < |sys.sessions| && sys.sessions[i].phase.Locking? && LockStep(sys, i) == sys
    ensures exists j: nat :: WaitsFor(sys, i, j)
  {
    var Session(op, phase) := sys.sessions[i];
    assert LockStep(sys, i).sessions[i] == sys.sessions[i];
    assert phase.taken < |LockOrder(op)| && HeldByOther(sys, i, LockOrder(op)[phase.taken]);
    var j :| 0 <= j < |sys.sessions| && j != i && LockOrder(op)[phase.taken] in Held(sys.sessions[j]);
    assert WaitsFor(sys, i, j);
  }

  lemma {:induction false} MovementLocksItsProduct(op: Op)
    ensures op.Movement? ==> LockOrder(op) == [op.data.product]
  {
    assert SortedProducts(op, 0) == [];
  }

  // ------------------------------------------------------------- termination

  // How many more steps a session can take at most.
  function Left(s: Session): nat {
    var locks, lines := |LockOrder(s.op)|, LineCount(s.op);
    match s.phase
    case Idle => 2 * lines + 4 + MAX_ATTEMPTS * (locks + 1)
    case Locking(attempt, taken) =>
      2 * lines + 3 + (if attempt < MAX_ATTEMPTS then (MAX_ATTEMPTS - attempt) * (locks + 1) else 0)
      + (if taken < locks then locks - taken else 0)
    case Working(done, _, seen) =>
      2 + (if done < lines then 2 * (lines - done) - (if seen.Some? then 1 else 0) else 0)
    case _ => 0
  }

  function AllLeft(sessions: seq<Session>): nat {
    if sessions == [] then 0 else AllLeft(sessions[..|sessions| - 1]) + Left(sessions[|sessions| - 1])
  }

  lemma {:induction false} AllLeftChanges(sessions: seq<Session>, i: nat, s: Session)
    requires i < |sessions|
    ensures AllLeft(sessions[i := s]) == AllLeft(sessions) - Left(sessions[i]) + Left(s)
  {
    var k := |sessions| - 1;
    if i < k {
      AllLeftChanges(sessions[..k], i, s);
      assert sessions[i := s][..k] == sessions[..k][i := s];
    } else {
      assert sessions[i := s][..k] == sessions[..k];
    }
  }

  lemma {:induction false} LockUsesUp(sys: System, i: nat)
    requires i < |sys.sessions| && LockStep(sys, i) != sys
    ensures Left(LockStep(sys, i).sessions[i]) < Left(sys.sessions[i])
  {
    var Session(op, phase) := sys.sessions[i];
    if phase.attempt < MAX_ATTEMPTS {
      assert (MAX_ATTEMPTS - phase.attempt) * (|LockOrder(op)| + 1)
             == (MAX_ATTEMPTS - (phase.attempt + 1)) * (|LockOrder(op)| + 1) + |LockOrder(op)| + 1;
    }
  }

  lemma {:induction false} WorkUsesUp(sys: System, i: nat)
    requires i < |sys.sessions|
    ensures ReadStep(sys, i) != sys ==> Left(ReadStep(sys, i).sessions[i]) < Left(sys.sessions[i])
    ensures WriteStep(sys, i) != sys ==> Left(WriteStep(sys, i).sessions[i]) < Left(sys.sessions[i])
    ensures CommitStep(sys, i) != sys ==> Left(CommitStep(sys, i).sessions[i]) < Left(sys.sessions[i])
  {
  }

  lemma {:induction false} EndsUseUp(sys: System, i: nat)
    requires i < |sys.sessions|
    ensures StartStep(sys, i) != sys ==> Left(StartStep(sys, i).sessions[i]) < Left(sys.sessions[i])
    ensures AbortStep(sys, i) != sys ==> Left(AbortStep(sys, i).sessions[i]) < Left(sys.sessions[i])
  {
    if sys.sessions[i].phase.Failed? {
      assert AbortStep(sys, i) == sys;
    }
  }

  lemma {:induction false} SessionUsesUp(sys: System, e: Event)
    requires Moves(sys, e)
    ensures Left(Step(sys, e).sessions[e.i]) < Left(sys.sessions[e.i])
  {
    match e
    case Start(i) => EndsUseUp(sys, i);
    case TryLock(i) => LockUsesUp(sys, i);
    case Read(i) => WorkUsesUp(sys, i);
    case Write(i) => WorkUsesUp(sys, i);
    case Commit(i) => WorkUsesUp(sys, i);
    case Abort(i) => EndsUseUp(sys, i);
  }

  // Every step that changes anything, refused locks and aborts included, uses up
  // some of what is left.
  lemma {:induction false} StepUsesUp(sys: System, e: Event)
    requires Moves(sys, e)
    ensures AllLeft(Step(sys, e).sessions) < AllLeft(sys.sessions)
  {
    var next := Step(sys, e).sessions[e.i];
    SessionUsesUp(sys, e);
    OnlyOneChanges(sys, e);
    AllLeftChanges(sys.sessions, e.i, next);
  }

  lemma {:induction false} OnlyOneChanges(sys: System, e: Event)
    requires e.i < |sys.sessions|
    ensures |Step(sys, e).sessions| == |sys.sessions|
    ensures Step(sys, e).sessions == sys.sessions[e.i := Step(sys, e).sessions[e.i]]
  {
  }

  // The events of a run that changed anything.
  function Effective(ops: seq<Op>, events: seq<Event>): nat {
    if events == [] then 0 else
      var before := Run(ops, events[..|events| - 1]);
      Effective(ops, events[..|events| - 1]) + if Moves(before, events[|events| - 1]) then 1 else 0
  }

  lemma {:induction false} EffectiveGrows(ops: seq<Op>, events: seq<Event>, e: Event)
    ensures Effective(ops, []) == 0
    ensures Effective(ops, events + [e])
            == Effective(ops, events) + if Step(Run(ops, events), e) == Run(ops, events) then 0 else 1
  {
    assert (events + [e])[..|events|] == events;
  }

  // No run goes on for ever: retries and all, its effective steps are bounded by
  // a number that the operations alone determine.
  lemma {:induction false} RunsAreBounded(ops: seq<Op>, events: seq<Event>)
    ensures Effective(ops, events) + AllLeft(Run(ops, events).sessions) <= AllLeft(Init(ops).sessions)
  {
    if events != [] {
      RunsAreBounded(ops, events[..|events| - 1]);
      var before := Run(ops, events[..|events| - 1]);
      if Moves(before, events[|events| - 1]) {
        StepUsesUp(before, events[|events| - 1]);
      }
    }
  }

  ghost predicate AllFinished(sys: System) {
    forall i :: 0 <= i < |sys.sessions| ==> Finished(sys.sessions[i])
  }

  lemma {:induction false} NextMove(ops: seq<Op>, events: seq<Event>) returns (e: Event)
    requires !AllFinished(Run(ops, events))
    ensures !e.Abort? && AllLeft(Run(ops, events + [e]).sessions) < AllLeft(Run(ops, events).sessions)
  {
    var sys := Run(ops, events);
    var i :| 0 <= i < |sys.sessions| && !Finished(sys.sessions[i]);
    SomeoneCanMove(ops, events, i);
    e :| !e.Abort? && Moves(sys, e);
    StepUsesUp(sys, e);
    assert (events + [e])[..|events|] == events;
  }

  // After these further events, none an abort, every session is finished.
  ghost predicate Completes(ops: seq<Op>, events: seq<Event>, more: seq<Event>) {
    AllFinished(Run(ops, events + more)) && forall k :: 0 <= k < |more| ==> !more[k].Abort?
  }

  lemma {:induction false} CompletesWith(ops: seq<Op>, events: seq<Event>, e: Event, rest: seq<Event>)
    requires !e.Abort? && Completes(ops, events + [e], rest)
    ensures Completes(ops, events, [e] + rest)
  {
    assert events + ([e] + rest) == (events + [e]) + rest;
  }

  // Hence every run can be completed, without aborting anyone, until all
  // sessions are committed or have failed of their own.
  lemma {:induction false} EveryRunCanFinish(ops: seq<Op>, events: seq<Event>) returns (more: seq<Event>)
    ensures Completes(ops, events, more)
    decreases AllLeft(Run(ops, events).sessions)
  {
    if AllFinished(Run(ops, events)) {
      more := [];
      assert events + [] == events;
    } else {
      var e := NextMove(ops, events);
      var rest := EveryRunCanFinish(ops, events + [e]);
      CompletesWith(ops, events, e, rest);
      more := [e] + rest;
    }
  }
}
