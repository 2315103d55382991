// Deduplicated auto-posting and reversal over whole runs.

module Reversals {
  import opened Common
  import opened Journal
  import opened GeneralLedger
  import opened PeriodClosing
  import FiscalPeriods
  import GeneralLedgerOutcomes

  predicate IsReversal(e: Entry) {
    e.auto && e.refType == REVERSAL
  }

  predicate IsReversalOf(e: Entry, i: nat) {
    IsReversal(e) && e.refId == i + 1
  }

  // At most one POSTED auto-generated entry per reference.
  ghost predicate KeysUnique(entries: seq<Entry>) {
    forall i, j :: 0 <= i < j < |entries| && entries[j].refId != NIL && entries[j].status.Posted? && entries[j].auto
      ==> !AutoPosted(entries[i], entries[j].refType, entries[j].refId)
  }

  // Every reversal stands behind its REVERSED original and mirrors its lines in
  // the same period.
  ghost predicate Mirrored(entries: seq<Entry>) {
    forall j :: 0 <= j < |entries| && IsReversal(entries[j]) ==>
      0 < entries[j].refId <= j && Mirrors(entries[j], entries[entries[j].refId - 1])
  }

  ghost predicate Mirrors(r: Entry, e: Entry) {
    e.status.Reversed? && r.lines == Swapped(e.lines) && r.period == e.period
  }

  // No entry has two reversals.
  ghost predicate ReversedOnce(entries: seq<Entry>) {
    forall j, k :: 0 <= j < k < |entries| && IsReversal(entries[j]) && IsReversal(entries[k])
      ==> entries[j].refId != entries[k].refId
  }

  // Every REVERSED entry has one.
  ghost predicate HasReversal(entries: seq<Entry>, i: nat) {
    exists j :: i < j < |entries| && IsReversalOf(entries[j], i)
  }

  ghost predicate AllAccounted(entries: seq<Entry>) {
    forall i :: 0 <= i < |entries| && entries[i].status.Reversed? ==> HasReversal(entries, i)
  }

  ghost predicate ReversalsLinked(entries: seq<Entry>) {
    Mirrored(entries) && ReversedOnce(entries) && AllAccounted(entries)
  }

  // Every entry has a reference of its own, and is reversed as it should be.
  ghost predicate Sound(entries: seq<Entry>) {
    KeysUnique(entries) && ReversalsLinked(entries)
  }

  // The entry closes its period, and that period is settled; `named` are the
  // reference ids under which callers may post events of this type themselves.
  ghost predicate ClosingSettled(setup: Setup, books: Books, named: set<nat>, e: Entry) {
    e.auto && e.refType == CLOSING ==>
      e.refId in named || (0 < e.refId && Settled(setup, books, e.refId - 1))
  }

  // A period whose closing entry exists is settled.
  ghost predicate ClosingsSettled(setup: Setup, books: Books, named: set<nat>) {
    forall i :: 0 <= i < |books.entries| ==> ClosingSettled(setup, books, named, books.entries[i])
  }

  ghost predicate Inv(setup: Setup, books: Books, named: set<nat>) {
    Sound(books.entries) && ClosingsSettled(setup, books, named)
  }

  // No caller posts an event under JE_REVERSAL, and a posted journal entry does
  // not call itself auto-generated.
  predicate Plain(step: Step) {
    match step
    case PostStep(d) => !d.auto
    case EventStep(e) => e.refType != REVERSAL
    case _ => true
  }

  // The step keeps events of type PERIOD_CLOSING to these references and closes
  // none of the periods they refer to.
  ghost predicate Apart(step: Step, named: set<nat>) {
    match step
    case EventStep(e) => e.refType == CLOSING ==> e.refId in named
    case CloseStep(p) => p + 1 !in named
    case _ => true
  }

  // ------------------------------------------------------------- preservation

  lemma {:induction false} SettledStays(setup: Setup, books: Books, named: set<nat>, step: Step)
    requires ClosingsSettled(setup, books, named)
    ensures forall i :: 0 <= i < |books.entries| ==>
      ClosingSettled(setup, After(setup, books, step), named, books.entries[i])
  {
    forall i | 0 <= i < |books.entries|
      ensures ClosingSettled(setup, After(setup, books, step), named, books.entries[i])
    {
      assert ClosingSettled(setup, books, named, books.entries[i]);
      ClosingStays(setup, books, named, step, books.entries[i]);
    }
  }

  lemma {:induction false} AppendKeepsLinks(entries: seq<Entry>, e: Entry)
    requires ReversalsLinked(entries) && e.status.Posted? && !IsReversal(e)
    ensures ReversalsLinked(entries + [e])
  {
    StillAccounted(entries, entries + [e]);
    assert ReversedOnce(entries + [e]);
  }

  lemma {:induction false} StillAccounted(entries: seq<Entry>, next: seq<Entry>)
    requires AllAccounted(entries) && |entries| <= |next|
    requires forall i :: 0 <= i < |entries| ==>
      next[i].auto == entries[i].auto && next[i].refType == entries[i].refType && next[i].refId == entries[i].refId
    ensures forall i :: 0 <= i < |entries| && entries[i].status.Reversed? ==> HasReversal(next, i)
  {
    forall i | 0 <= i < |entries| && entries[i].status.Reversed? ensures HasReversal(next, i) {
      assert HasReversal(entries, i);
      var j :| i < j < |entries| && IsReversalOf(entries[j], i);
      assert IsReversalOf(next[j], i);
    }
  }

  // No entry of this reference is in force.
  ghost predicate KeyFree(entries: seq<Entry>, refType: string, refId: nat) {
    forall i :: 0 <= i < |entries| ==> !AutoPosted(entries[i], refType, refId)
  }

  // Appending keeps references unique exactly when the entry is not
  // auto-generated, has no reference, or has one that is free.
  lemma {:induction false} AppendKeepsKeysIff(entries: seq<Entry>, e: Entry)
    requires KeysUnique(entries) && e.status.Posted?
    ensures KeysUnique(entries + [e]) <==> (e.auto && e.refId != NIL ==> KeyFree(entries, e.refType, e.refId))
  {
    var next := entries + [e];
    if KeysUnique(next) && e.auto && e.refId != NIL {
      forall i | 0 <= i < |entries| ensures !AutoPosted(entries[i], e.refType, e.refId) {
        assert next[i] == entries[i] && next[|entries|] == e;
      }
    }
  }

  lemma {:induction false} ReverseKeepsLinks(books: Books, id: nat)
    requires ReversalsLinked(books.entries) && Reverse(books, id).Ok?
    ensures ReversalsLinked(Reverse(books, id).value.entries)
  {
    var entries, next := books.entries, Reverse(books, id).value.entries;
    var n := |entries|;
    StillAccounted(entries, next);
    assert IsReversalOf(next[n], id) && HasReversal(next, id);
    assert AllAccounted(next);
    ReverseKeepsMirrors(books, id);
    forall j | 0 <= j < n && IsReversal(next[j]) ensures next[j].refId != id + 1 {
      assert Mirrors(entries[j], entries[entries[j].refId - 1]);
    }
    assert ReversedOnce(next);
  }

  lemma {:induction false} ReverseKeepsMirrors(books: Books, id: nat)
    requires Mirrored(books.entries) && Reverse(books, id).Ok?
    ensures Mirrored(Reverse(books, id).value.entries)
  {
    var entries, next := books.entries, Reverse(books, id).value.entries;
    forall j | 0 <= j < |entries| && IsReversal(next[j])
      ensures 0 < next[j].refId <= j && Mirrors(next[j], next[next[j].refId - 1])
    {
      assert Mirrors(entries[j], entries[entries[j].refId - 1]);
    }
    assert Mirrors(next[|entries|], next[id]);
  }

  lemma {:induction false} ReverseKeepsKeys(books: Books, id: nat)
    requires KeysUnique(books.entries) && ReversalsLinked(books.entries) && Reverse(books, id).Ok?
    ensures KeysUnique(Reverse(books, id).value.entries)
  {
    var entries, next := books.entries, Reverse(books, id).value.entries;
    forall i | 0 <= i < |entries| ensures !AutoPosted(next[i], REVERSAL, id + 1) {
      assert entries[id].status.Posted?;
    }
  }

  lemma {:induction false} ReverseSparesClosings(setup: Setup, books: Books, named: set<nat>, id: nat)
    requires ClosingsSettled(setup, books, named) && Reverse(books, id).Ok?
    ensures ClosingsSettled(setup, Reverse(books, id).value, named)
  {
    SettledStays(setup, books, named, ReverseStep(id));
    var next := Reverse(books, id).value;
    forall i | 0 <= i < |next.entries| ensures ClosingSettled(setup, next, named, next.entries[i]) {
      if i < |books.entries| { assert ClosingSettled(setup, next, named, books.entries[i]); }
    }
  }

  lemma {:induction false} AppendKeepsInv(setup: Setup, books: Books, named: set<nat>, step: Step, e: Entry)
    requires Inv(setup, books, named) && Attempt(setup, books, step) == Ok(books.(entries := books.entries + [e]))
    requires e.status.Posted? && !IsReversal(e) && (e.auto && e.refType == CLOSING ==> e.refId in named)
    requires e.auto && e.refId != NIL ==> KeyFree(books.entries, e.refType, e.refId)
    ensures Inv(setup, After(setup, books, step), named)
  {
    AppendKeepsLinks(books.entries, e);
    AppendKeepsKeysIff(books.entries, e);
    AppendKeepsClosings(setup, books, named, step, e);
  }

  lemma {:induction false} AppendKeepsClosings(setup: Setup, books: Books, named: set<nat>, step: Step, e: Entry)
    requires ClosingsSettled(setup, books, named)
    requires Attempt(setup, books, step) == Ok(books.(entries := books.entries + [e]))
    requires e.auto && e.refType == CLOSING ==> e.refId in named
    ensures ClosingsSettled(setup, After(setup, books, step), named)
  {
    SettledStays(setup, books, named, step);
    assert forall i :: 0 <= i < |books.entries| ==> (books.entries + [e])[i] == books.entries[i];
  }

  lemma {:induction false} CloseKeepsInv(setup: Setup, books: Books, named: set<nat>, p: nat)
    requires Inv(setup, books, named) && p < |books.periods| && p + 1 !in named
    ensures Inv(setup, After(setup, books, CloseStep(p)), named)
  {
    CloseKeepsClosings(setup, books, named, p);
    var entry := ClosingEntry(setup.chart, books.entries, p);
    if entry.Some? {
      assert !Settled(setup, books, p);
      AppendKeepsLinks(books.entries, entry.value);
      AppendKeepsKeysIff(books.entries, entry.value);
    } else {
      assert books.entries + [] == books.entries;
    }
  }

  lemma {:induction false} CloseKeepsClosings(setup: Setup, books: Books, named: set<nat>, p: nat)
    requires ClosingsSettled(setup, books, named) && p < |books.periods|
    ensures ClosingsSettled(setup, After(setup, books, CloseStep(p)), named)
  {
    CloseSettles(setup, books, p);
    SettledStays(setup, books, named, CloseStep(p));
    var next := After(setup, books, CloseStep(p));
    forall i | 0 <= i < |next.entries| ensures ClosingSettled(setup, next, named, next.entries[i]) {
      if i < |books.entries| {
        assert next.entries[i] == books.entries[i];
      } else {
        assert next.entries[i] == ClosingEntry(setup.chart, books.entries, p).value;
        assert Settled(setup, next, p);
      }
    }
  }

  lemma {:induction false} ClosingStays(setup: Setup, books: Books, named: set<nat>, step: Step, e: Entry)
    requires ClosingSettled(setup, books, named, e)
    ensures ClosingSettled(setup, After(setup, books, step), named, e)
  {
    if e.auto && e.refType == CLOSING && e.refId !in named {
      StepLeavesSettled(setup, books, step, e.refId - 1);
    }
  }

  lemma {:induction false} StepKeepsInv(setup: Setup, books: Books, named: set<nat>, step: Step)
    requires Inv(setup, books, named) && Plain(step) && Apart(step, named)
    ensures Inv(setup, After(setup, books, step), named)
  {
    if Attempt(setup, books, step).Ok? {
      var next := After(setup, books, step);
      match step
      case PostStep(_) => AppendKeepsInv(setup, books, named, step, next.entries[|books.entries|]);
      case EventStep(e) =>
        if Process(setup, books, e).value.1 == |books.entries| {
          AppendKeepsInv(setup, books, named, step, next.entries[|books.entries|]);
        }
      case ManualStep(_, _, _) => AppendKeepsInv(setup, books, named, step, next.entries[|books.entries|]);
      case ReverseStep(id) =>
        ReverseKeepsLinks(books, id);
        ReverseKeepsKeys(books, id);
        ReverseSparesClosings(setup, books, named, id);
      case CloseStep(p) => CloseKeepsInv(setup, books, named, p);
      case PeriodStep(_) => SettledStays(setup, books, named, step);
    }
  }

  lemma {:induction false} RunsKeepInv(setup: Setup, periods: seq<FiscalPeriods.Period>, steps: seq<Step>,
      named: set<nat>)
    requires forall i :: 0 <= i < |steps| ==> Plain(steps[i]) && Apart(steps[i], named)
    ensures Inv(setup, Run(setup, Books(periods, []), steps), named)
  {
    if steps != [] {
      var k := |steps| - 1;
      RunsKeepInv(setup, periods, steps[..k], named);
      StepKeepsInv(setup, Run(setup, Books(periods, []), steps[..k]), named, steps[k]);
    }
  }

  // No event of the run takes the closing reference of a period it closes; a run
  // that closes no period may use PERIOD_CLOSING as it likes.
  ghost predicate ClosingsReserved(steps: seq<Step>) {
    forall i, j :: 0 <= i < |steps| && 0 <= j < |steps| ==> !TakesClosingOf(steps[i], steps[j])
  }

  predicate TakesClosingOf(event: Step, close: Step) {
    event.EventStep? && close.CloseStep? && event.event.refType == CLOSING && event.event.refId == close.period + 1
  }

  // Main theorem: over every such run from an empty ledger there is at most one
  // POSTED auto-generated entry per (reference type, non-nil reference id), and
  // each entry is reversed at most once, by its mirror image.
  lemma {:induction false} RunsStaySound(setup: Setup, periods: seq<FiscalPeriods.Period>, steps: seq<Step>)
    requires ClosingsReserved(steps) && forall i :: 0 <= i < |steps| ==> Plain(steps[i])
    ensures Sound(Run(setup, Books(periods, []), steps).entries)
  {
    var named := set i | 0 <= i < |steps| && steps[i].EventStep? && steps[i].event.refType == CLOSING
                   :: steps[i].event.refId;
    forall i | 0 <= i < |steps| ensures Apart(steps[i], named) {
      if steps[i].CloseStep? && steps[i].period + 1 in named {
        var k :| 0 <= k < |steps| && steps[k].EventStep? && steps[k].event.refType == CLOSING
                 && steps[k].event.refId == steps[i].period + 1;
        assert TakesClosingOf(steps[k], steps[i]);
      }
    }
    RunsKeepInv(setup, periods, steps, named);
  }

  // ------------------------------------------------- exactly when keys stay unique

  // The reference the step would post under, if it posts one, is free.
  ghost predicate LeavesKeysUnique(setup: Setup, books: Books, step: Step) {
    match step
    case PostStep(d) =>
      Post(setup, books, d).Ok? && d.auto && d.refId != NIL ==> KeyFree(books.entries, d.refType, d.refId)
    case ReverseStep(id) =>
      Reverse(books, id).Ok? ==>
        forall i :: 0 <= i < |books.entries| && i != id ==> !AutoPosted(books.entries[i], REVERSAL, id + 1)
    case CloseStep(p) =>
      p < |books.periods| && ClosingEntry(setup.chart, books.entries, p).Some? ==>
        KeyFree(books.entries, CLOSING, p + 1)
    case _ => true
  }

  // Without any restriction on what callers do: a step leaves at most one POSTED
  // auto-generated entry per reference exactly when it does not post an
  // auto-flagged entry, a reversal or a closing entry under a taken reference.
  // Events, manual entries and period changes never break it.
  lemma {:induction false} StepKeepsKeysIff(setup: Setup, books: Books, step: Step)
    requires KeysUnique(books.entries)
    ensures KeysUnique(After(setup, books, step).entries) <==> LeavesKeysUnique(setup, books, step)
  {
    if Attempt(setup, books, step).Ok? {
      var next := After(setup, books, step).entries;
      match step
      case PostStep(_) => AppendKeepsKeysIff(books.entries, next[|books.entries|]);
      case EventStep(e) =>
        if Process(setup, books, e).value.1 == |books.entries| {
          AppendKeepsKeysIff(books.entries, next[|books.entries|]);
        }
      case ManualStep(_, _, _) => AppendKeepsKeysIff(books.entries, next[|books.entries|]);
      case ReverseStep(id) => ReverseKeepsKeysIff(books, id);
      case CloseStep(p) => CloseKeepsKeysIff(setup, books, p);
      case PeriodStep(_) =>
    }
  }

  lemma {:induction false} CloseKeepsKeysIff(setup: Setup, books: Books, p: nat)
    requires KeysUnique(books.entries) && p < |books.periods|
    ensures KeysUnique(After(setup, books, CloseStep(p)).entries) <==> LeavesKeysUnique(setup, books, CloseStep(p))
  {
    var entry := ClosingEntry(setup.chart, books.entries, p);
    if entry.Some? {
      AppendKeepsKeysIff(books.entries, entry.value);
    } else {
      assert books.entries + [] == books.entries;
    }
  }

  lemma {:induction false} ReverseKeepsKeysIff(books: Books, id: nat)
    requires KeysUnique(books.entries) && Reverse(books, id).Ok?
    ensures KeysUnique(Reverse(books, id).value.entries)
            <==> forall i :: 0 <= i < |books.entries| && i != id ==> !AutoPosted(books.entries[i], REVERSAL, id + 1)
  {
    var marked := books.entries[id := books.entries[id].(status := Reversed)];
    assert KeysUnique(marked);
    AppendKeepsKeysIff(marked, Reversal(books.entries, id));
    assert forall i :: 0 <= i < |marked| && i != id ==> marked[i] == books.entries[i];
    assert !AutoPosted(marked[id], REVERSAL, id + 1);
  }

  function ClosingEvent(): Event {
    Event("SALE", CLOSING, 1, 0, 100.0, [])
  }

  lemma {:induction false} ClosingEventIsPosted(setup: Setup)
    requires setup == Setup(SmallChart(), map["SALE" := Template(0, 1, true)])
    ensures Run(setup, Books([], []), [January(), EventStep(ClosingEvent())]).periods
            == [NewPeriod(1, 0, 30)]
    ensures Run(setup, Books([], []), [January(), EventStep(ClosingEvent())]).entries
            == [NewEntry(0, CLOSING, 1, true, [Line(0, 100.0, 0.0), Line(1, 0.0, 100.0)])]
  {
    var books := Books([NewPeriod(1, 0, 30)], []);
    RunOfThree(setup, Books([], []), January(), EventStep(ClosingEvent()), January());
    assert After(setup, Books([], []), January()) == books;
    var lines := EventLines(setup.templates["SALE"], ClosingEvent());
    assert BalancedInCents(lines) by {
      TwoLines(0, 1, 100.0, 0);
      assert AllWholeCents(lines);
      TestsAgreeOnWholeCents(lines);
    }
    GeneralLedgerOutcomes.EventOutcome(setup, books, ClosingEvent());
    assert GeneralLedgerOutcomes.PostsEvent(setup, books, ClosingEvent(), lines);
  }

  // An event posted under (PERIOD_CLOSING, period 1), then period 1 closed: two
  // POSTED auto-generated entries under one reference.
  lemma {:induction false} ClosingEventTakesKey()
    ensures var setup := Setup(SmallChart(), map["SALE" := Template(0, 1, true)]);
            var entries := Run(setup, Books([], []), [January(), EventStep(ClosingEvent()), CloseStep(0)]).entries;
            |entries| == 2 && AutoPosted(entries[0], CLOSING, 1) && AutoPosted(entries[1], CLOSING, 1)
  {
    var setup := Setup(SmallChart(), map["SALE" := Template(0, 1, true)]);
    RunOfThree(setup, Books([], []), January(), EventStep(ClosingEvent()), CloseStep(0));
    ClosingEventIsPosted(setup);
    var books := Run(setup, Books([], []), [January(), EventStep(ClosingEvent())]);
    var lines := books.entries[0].lines;
    assert PostedLines(books.entries, 0) == lines by { PostedLinesOfOne(books.entries[0], 0); }
    assert Net(lines, 1) == -100.0 && Net(lines, 2) == 0.0 by {
      TwoLines(0, 1, 100.0, 1);
      TwoLines(0, 1, 100.0, 2);
    }
    SmallClosing(books.entries, 0);
    CloseAppends(setup, books, 0);
  }

  // ------------------------------------------------------------ consequences

  // As long as the entry that answered an event stands, the event is answered
  // by that entry again and the ledger stays as it is.
  lemma {:induction false} ReplayChangesNothing(setup: Setup, books: Books, e: Event, i: nat)
    requires KeysUnique(books.entries) && e.refId != NIL
    requires i < |books.entries| && AutoPosted(books.entries[i], e.refType, e.refId)
    ensures Process(setup, books, e) == Ok((books, i))
  {
    var found := FindAuto(books.entries, e.refType, e.refId);
    assert found == i;
  }

  // An event answered at all is answered by such an entry.
  lemma {:induction false} AnsweredByItsEntry(setup: Setup, books: Books, e: Event)
    requires Process(setup, books, e).Ok?
    ensures var (next, i) := Process(setup, books, e).value;
            i < |next.entries| && AutoPosted(next.entries[i], e.refType, e.refId)
            && books.entries <= next.entries && |next.entries| <= |books.entries| + 1
  {
  }

  // A REVERSED entry has exactly one reversal; counted together they cancel on
  // every account.
  lemma {:induction false} ReversalCancels(books: Books, i: nat) returns (j: nat)
    requires ReversalsLinked(books.entries) && i < |books.entries| && books.entries[i].status.Reversed?
    ensures i < j < |books.entries| && IsReversalOf(books.entries[j], i)
    ensures forall k :: 0 <= k < |books.entries| && IsReversalOf(books.entries[k], i) ==> k == j
    ensures forall a :: Net(books.entries[i].lines, a) + Net(books.entries[j].lines, a) == 0.0
  {
    assert HasReversal(books.entries, i);
    j :| i < j < |books.entries| && IsReversalOf(books.entries[j], i);
    assert Mirrors(books.entries[j], books.entries[i]);
    forall a ensures Net(books.entries[i].lines, a) + Net(books.entries[j].lines, a) == 0.0 {
      SwapCancels(books.entries[i].lines, a);
    }
  }
}
