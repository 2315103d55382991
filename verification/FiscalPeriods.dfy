// Fiscal periods: DRAFT -> OPEN -> CLOSED.  A period's id is its position in
// storage; rows are never deleted.

module FiscalPeriods {
  import opened Common

  datatype Status = Draft | Open | Closed

  datatype Period = Period(year: int, month: int, start: int, end: int, status: Status)

  datatype PeriodError =
    | MonthOutOfRange | EmptyRange | DuplicateMonth | OverlappingDates
    | NotFound | NotDraft | AnotherIsOpen | NotOpen | EarlierNotClosed | ChecklistFailed

  // The three tests of the overlap query.
  predicate OverlapTest(p: Period, start: int, end: int) {
    || (p.start <= start && p.end >= start)
    || (p.start <= end && p.end >= end)
    || (p.start >= start && p.end <= end)
  }

  predicate Earlier(p: Period, q: Period) {
    p.year < q.year || (p.year == q.year && p.month < q.month)
  }

  function Create(periods: seq<Period>, year: int, month: int, start: int, end: int): Result<seq<Period>, PeriodError> {
    if month < 1 || month > 12 then Err(MonthOutOfRange)
    else if start >= end then Err(EmptyRange)
    else if exists i :: 0 <= i < |periods| && periods[i].year == year && periods[i].month == month
      then Err(DuplicateMonth)
    else if exists i :: 0 <= i < |periods| && OverlapTest(periods[i], start, end) then Err(OverlappingDates)
    else Ok(periods + [Period(year, month, start, end, Draft)])
  }

  function Opened(periods: seq<Period>, id: nat): Result<seq<Period>, PeriodError> {
    if id >= |periods| then Err(NotFound)
    else if !periods[id].status.Draft? then Err(NotDraft)
    else if exists i :: 0 <= i < |periods| && periods[i].status.Open? then Err(AnotherIsOpen)
    else Ok(periods[id := periods[id].(status := Open)])
  }

  function ClosedAfter(periods: seq<Period>, id: nat, checklistPassed: bool): Result<seq<Period>, PeriodError> {
    if id >= |periods| then Err(NotFound)
    else if !periods[id].status.Open? then Err(NotOpen)
    else if exists i :: 0 <= i < |periods| && !periods[i].status.Closed? && Earlier(periods[i], periods[id])
      then Err(EarlierNotClosed)
    else if !checklistPassed then Err(ChecklistFailed)
    else Ok(periods[id := periods[id].(status := Closed)])
  }

  class PeriodManagerService {
    var periods: seq<Period>

    constructor ()
      ensures periods == []
    {
      periods := [];
    }

    method CreatePeriod(year: int, month: int, start: int, end: int) returns (failure: Option<PeriodError>)
      modifies this
      ensures Settles(Create(old(periods), year, month, start, end), old(periods), periods, failure)
    {
      if month < 1 || month > 12 {
        return Some(MonthOutOfRange);
      }
      if start >= end {
        return Some(EmptyRange);
      }
      for i := 0 to |periods|
        invariant forall k :: 0 <= k < i ==> !(periods[k].year == year && periods[k].month == month)
      {
        if periods[i].year == year && periods[i].month == month {
          return Some(DuplicateMonth);
        }
      }
      for i := 0 to |periods|
        invariant forall k :: 0 <= k < i ==> !OverlapTest(periods[k], start, end)
      {
        if OverlapTest(periods[i], start, end) {
          return Some(OverlappingDates);
        }
      }
      periods := periods + [Period(year, month, start, end, Draft)];
      return None;
    }

    method OpenPeriod(id: nat) returns (failure: Option<PeriodError>)
      modifies this
      ensures Settles(Opened(old(periods), id), old(periods), periods, failure)
    {
      if id >= |periods| {
        return Some(NotFound);
      }
      if !periods[id].status.Draft? {
        return Some(NotDraft);
      }
      var current := GetCurrentPeriod();
      if current.Some? {
        return Some(AnotherIsOpen);
      }
      periods := periods[id := periods[id].(status := Open)];
      return None;
    }

    method ClosePeriod(id: nat, checklistPassed: bool) returns (failure: Option<PeriodError>)
      modifies this
      ensures Settles(ClosedAfter(old(periods), id, checklistPassed), old(periods), periods, failure)
    {
      if id >= |periods| {
        return Some(NotFound);
      }
      if !periods[id].status.Open? {
        return Some(NotOpen);
      }
      for i := 0 to |periods|
        invariant forall k :: 0 <= k < i ==> periods[k].status.Closed? || !Earlier(periods[k], periods[id])
      {
        if !periods[i].status.Closed? && Earlier(periods[i], periods[id]) {
          return Some(EarlierNotClosed);
        }
      }
      if !checklistPassed {
        return Some(ChecklistFailed);
      }
      periods := periods[id := periods[id].(status := Closed)];
      return None;
    }

    // findFirst over the OPEN periods.
    method GetCurrentPeriod() returns (r: Option<nat>)
      ensures r.Some? ==> r.value < |periods| && periods[r.value].status.Open?
      ensures r.None? ==> forall i :: 0 <= i < |periods| ==> !periods[i].status.Open?
    {
      for i := 0 to |periods|
        invariant forall k :: 0 <= k < i ==> !periods[k].status.Open?
      {
        if periods[i].status.Open? {
          return Some(i);
        }
      }
      return None;
    }

    // findFirst over the period that holds a date.
    method GetPeriodForDate(date: int) returns (r: Option<nat>)
      ensures r.Some? ==> r.value < |periods| && Holds(periods[r.value], date)
      ensures r.None? ==> forall i :: 0 <= i < |periods| ==> !Holds(periods[i], date)
    {
      for i := 0 to |periods|
        invariant forall k :: 0 <= k < i ==> !Holds(periods[k], date)
      {
        if Holds(periods[i], date) {
          return Some(i);
        }
      }
      return None;
    }
  }

  // -------------------------------------------------------------------- runs

  datatype Step =
    | CreateStep(year: int, month: int, start: int, end: int)
    | OpenStep(id: nat)
    | CloseStep(id: nat, checklistPassed: bool)

  function Attempt(periods: seq<Period>, step: Step): Result<seq<Period>, PeriodError> {
    match step
    case CreateStep(year, month, start, end) => Create(periods, year, month, start, end)
    case OpenStep(id) => Opened(periods, id)
    case CloseStep(id, checklistPassed) => ClosedAfter(periods, id, checklistPassed)
  }

  function After(periods: seq<Period>, step: Step): seq<Period> {
    match Attempt(periods, step)
    case Ok(next) => next
    case Err(_) => periods
  }

  function Run(steps: seq<Step>): seq<Period> {
    if steps == [] then [] else After(Run(steps[..|steps| - 1]), steps[|steps| - 1])
  }

  predicate Holds(p: Period, date: int) {
    p.start <= date <= p.end
  }

  ghost predicate Share(p: Period, start: int, end: int) {
    exists date :: Holds(p, date) && start <= date <= end
  }

  predicate Apart(p: Period, q: Period) {
    p.end < q.start || q.end < p.start
  }

  // The three tests together find exactly the periods sharing a date with the new one.
  lemma {:induction false} OverlapTestIsComplete(p: Period, start: int, end: int)
    requires p.start <= p.end && start <= end
    ensures OverlapTest(p, start, end) <==> Share(p, start, end)
  {
    if OverlapTest(p, start, end) {
      var date := if p.start <= start then start else p.start;
      assert Holds(p, date) && start <= date <= end;
    }
  }

  ghost predicate WellDated(periods: seq<Period>) {
    forall i :: 0 <= i < |periods| ==> periods[i].start < periods[i].end && 1 <= periods[i].month <= 12
  }

  ghost predicate AllApart(periods: seq<Period>) {
    forall i, j :: 0 <= i < j < |periods| ==> Apart(periods[i], periods[j])
  }

  ghost predicate MonthsUnique(periods: seq<Period>) {
    forall i, j :: 0 <= i < j < |periods| ==> periods[i].year != periods[j].year || periods[i].month != periods[j].month
  }

  ghost predicate OneOpen(periods: seq<Period>) {
    forall i, j :: 0 <= i < j < |periods| ==> !(periods[i].status.Open? && periods[j].status.Open?)
  }

  ghost predicate Lifecycle(periods: seq<Period>) {
    WellDated(periods) && AllApart(periods) && MonthsUnique(periods) && OneOpen(periods)
  }

  // Over every run the date ranges stay disjoint, months unique, and at most one
  // period open.
  lemma {:induction false} RunsKeepLifecycle(steps: seq<Step>)
    ensures Lifecycle(Run(steps))
  {
    if steps != [] {
      var k := |steps| - 1;
      RunsKeepLifecycle(steps[..k]);
      StepKeepsLifecycle(Run(steps[..k]), steps[k]);
    }
  }

  lemma {:induction false} StepKeepsLifecycle(periods: seq<Period>, step: Step)
    requires Lifecycle(periods)
    ensures Lifecycle(After(periods, step))
  {
    match step
    case CreateStep(year, month, start, end) =>
      if Create(periods, year, month, start, end).Ok? {
        AddedKeepsLifecycle(periods, Period(year, month, start, end, Draft));
      }
    case OpenStep(id) => if Opened(periods, id).Ok? { StatusKeepsLifecycle(periods, id, Open); }
    case CloseStep(id, passed) => if ClosedAfter(periods, id, passed).Ok? { StatusKeepsLifecycle(periods, id, Closed); }
  }

  lemma {:induction false} AddedKeepsLifecycle(periods: seq<Period>, p: Period)
    requires Lifecycle(periods) && p.status.Draft?
    requires p.start < p.end && 1 <= p.month <= 12
    requires forall i :: 0 <= i < |periods| ==> !(periods[i].year == p.year && periods[i].month == p.month)
    requires forall i :: 0 <= i < |periods| ==> !OverlapTest(periods[i], p.start, p.end)
    ensures Lifecycle(periods + [p])
  {
    assert AllApart(periods + [p]) by {
      forall i | 0 <= i < |periods| ensures Apart(periods[i], p) {
        assert !OverlapTest(periods[i], p.start, p.end);
      }
    }
  }

  lemma {:induction false} StatusKeepsLifecycle(periods: seq<Period>, id: nat, status: Status)
    requires Lifecycle(periods) && id < |periods|
    requires status.Open? ==> forall i :: 0 <= i < |periods| ==> !periods[i].status.Open?
    ensures Lifecycle(periods[id := periods[id].(status := status)])
  {
    var next := periods[id := periods[id].(status := status)];
    assert AllApart(next) by {
      assert forall i :: 0 <= i < |periods| ==> next[i].start == periods[i].start && next[i].end == periods[i].end;
    }
    assert MonthsUnique(next) by {
      assert forall i :: 0 <= i < |periods| ==> next[i].year == periods[i].year && next[i].month == periods[i].month;
    }
  }

  // Hence a date lies in at most one period and at most one period is current.
  lemma {:induction false} AnswersAreUnique(steps: seq<Step>, date: int)
    ensures forall i, j | 0 <= i < j < |Run(steps)| :: !(Holds(Run(steps)[i], date) && Holds(Run(steps)[j], date))
    ensures forall i, j | 0 <= i < j < |Run(steps)| :: !(Run(steps)[i].status.Open? && Run(steps)[j].status.Open?)
  {
    RunsKeepLifecycle(steps);
    assert forall i, j | 0 <= i < j < |Run(steps)| :: Apart(Run(steps)[i], Run(steps)[j]);
  }

  function Rank(s: Status): nat {
    match s case Draft => 0 case Open => 1 case Closed => 2
  }

  // A period keeps its dates, and one step moves its status up by at most one.
  lemma {:induction false} StatusOnlyAdvances(periods: seq<Period>, step: Step, i: nat)
    requires i < |periods|
    ensures i < |After(periods, step)|
    ensures var before, after := periods[i], After(periods, step)[i];
            && after == before.(status := after.status)
            && Rank(before.status) <= Rank(after.status) <= Rank(before.status) + 1
            && (after.status != before.status ==> step == OpenStep(i) || (step.CloseStep? && step.id == i))
  {
  }

  // The closing order: no period is closed before one that is earlier by year and
  // month.
  ghost predicate ClosedInOrder(periods: seq<Period>) {
    forall i, j ::
      0 <= i < |periods| && 0 <= j < |periods| && Earlier(periods[i], periods[j]) && periods[j].status.Closed?
      ==> periods[i].status.Closed?
  }

  ghost predicate EarlierAreClosed(periods: seq<Period>, p: nat)
    requires p < |periods|
  {
    forall i :: 0 <= i < |periods| && Earlier(periods[i], periods[p]) ==> periods[i].status.Closed?
  }

  // The step creates a period dated before one that is closed already.
  ghost predicate Backdates(periods: seq<Period>, step: Step) {
    step.CreateStep? && Attempt(periods, step).Ok?
    && exists j :: 0 <= j < |periods| && periods[j].status.Closed?
                   && Earlier(Period(step.year, step.month, step.start, step.end, Draft), periods[j])
  }

  lemma {:induction false} ClosingKeepsOrderIff(periods: seq<Period>, p: nat)
    requires ClosedInOrder(periods) && p < |periods|
    ensures ClosedInOrder(periods[p := periods[p].(status := Closed)]) <==> EarlierAreClosed(periods, p)
  {
    var next := periods[p := periods[p].(status := Closed)];
    assert forall i :: 0 <= i < |periods| ==> next[i] == periods[i].(status := next[i].status);
    if ClosedInOrder(next) {
      forall i | 0 <= i < |periods| && Earlier(periods[i], periods[p]) ensures periods[i].status.Closed? {
        assert i != p && Earlier(next[i], next[p]);
      }
    }
  }

  lemma {:induction false} CreatingKeepsOrderIff(periods: seq<Period>, p: Period)
    requires ClosedInOrder(periods) && p.status.Draft?
    ensures ClosedInOrder(periods + [p])
            <==> !exists j :: 0 <= j < |periods| && periods[j].status.Closed? && Earlier(p, periods[j])
  {
    var next := periods + [p];
    assert next[|periods|] == p && forall i :: 0 <= i < |periods| ==> next[i] == periods[i];
  }

  // PeriodManagerService keeps the closing order exactly when no period is
  // created before one that is closed.
  lemma {:induction false} StepKeepsOrderIff(periods: seq<Period>, step: Step)
    requires ClosedInOrder(periods)
    ensures ClosedInOrder(After(periods, step)) <==> !Backdates(periods, step)
  {
    if Attempt(periods, step).Ok? {
      match step
      case CreateStep(year, month, start, end) =>
        CreatingKeepsOrderIff(periods, Period(year, month, start, end, Draft));
      case OpenStep(id) =>
        var next := periods[id := periods[id].(status := Open)];
        assert forall i :: 0 <= i < |periods| ==> next[i] == periods[i].(status := next[i].status);
      case CloseStep(id, _) => ClosingKeepsOrderIff(periods, id);
    }
  }

  lemma {:induction false} RunsCloseInOrder(steps: seq<Step>)
    requires forall k :: 0 <= k < |steps| ==> !Backdates(Run(steps[..k]), steps[k])
    ensures ClosedInOrder(Run(steps))
  {
    if steps != [] {
      var n := |steps| - 1;
      assert forall k :: 0 <= k < n ==> steps[..n][..k] == steps[..k];
      RunsCloseInOrder(steps[..n]);
      StepKeepsOrderIff(Run(steps[..n]), steps[n]);
    }
  }

  ghost predicate CalendarOrder(periods: seq<Period>) {
    forall i, j :: 0 <= i < j < |periods| ==> Earlier(periods[i], periods[j])
  }

  ghost predicate ClosedPrefix(periods: seq<Period>) {
    forall i, j :: 0 <= i < j < |periods| && periods[j].status.Closed? ==> periods[i].status.Closed?
  }

  // For periods stored in calendar order it means that the closed ones come first.
  lemma {:induction false} PrefixIffInOrder(periods: seq<Period>)
    requires CalendarOrder(periods)
    ensures ClosedPrefix(periods) <==> ClosedInOrder(periods)
  {
    if ClosedInOrder(periods) {
      forall i, j | 0 <= i < j < |periods| && periods[j].status.Closed? ensures periods[i].status.Closed? {
        assert Earlier(periods[i], periods[j]);
      }
    }
    if ClosedPrefix(periods) {
      forall i, j | 0 <= i < |periods| && 0 <= j < |periods| && Earlier(periods[i], periods[j])
                    && periods[j].status.Closed?
        ensures periods[i].status.Closed?
      {
        if j < i { assert Earlier(periods[j], periods[i]); }
      }
    }
  }

  // When periods are created in calendar order, the closed ones come first.
  lemma {:induction false} ClosedFormPrefix(steps: seq<Step>)
    requires CalendarOrder(Run(steps))
    ensures ClosedPrefix(Run(steps))
  {
    forall k | 0 <= k < |steps| ensures !Backdates(Run(steps[..k]), steps[k]) {
      PrefixInCalendarOrder(steps, k + 1);
      assert steps[..k + 1][..k] == steps[..k];
      NewestIsLatest(Run(steps[..k]), steps[k]);
    }
    RunsCloseInOrder(steps);
    PrefixIffInOrder(Run(steps));
  }

  lemma {:induction false} NewestIsLatest(periods: seq<Period>, step: Step)
    requires CalendarOrder(After(periods, step))
    ensures !Backdates(periods, step)
  {
    if step.CreateStep? && Attempt(periods, step).Ok? {
      var next := After(periods, step);
      forall j | 0 <= j < |periods| ensures !Earlier(next[|periods|], periods[j]) {
        assert Earlier(next[j], next[|periods|]);
      }
    }
  }

  lemma {:induction false} PrefixInCalendarOrder(steps: seq<Step>, k: nat)
    requires k <= |steps| && CalendarOrder(Run(steps))
    ensures CalendarOrder(Run(steps[..k]))
    decreases |steps|
  {
    if k == |steps| {
      assert steps[..k] == steps;
    } else {
      var n := |steps| - 1;
      var before, after := Run(steps[..n]), Run(steps);
      forall i, j | 0 <= i < j < |before| ensures Earlier(before[i], before[j]) {
        StatusOnlyAdvances(before, steps[n], i);
        StatusOnlyAdvances(before, steps[n], j);
        assert Earlier(after[i], after[j]);
      }
      assert steps[..n][..k] == steps[..k];
      PrefixInCalendarOrder(steps[..n], k);
    }
  }

  // February is closed, then January is created: the closing order is broken by
  // a period that is not the first to be stored.
  lemma {:induction false} ClosedPrefixNeedsOrder()
    ensures var steps := [CreateStep(2024, 2, 10, 20), OpenStep(0), CloseStep(0, true), CreateStep(2024, 1, 1, 5)];
            && |Run(steps)| == 2 && Run(steps)[0].status.Closed? && Run(steps)[1].status.Draft?
            && Earlier(Run(steps)[1], Run(steps)[0]) && !ClosedInOrder(Run(steps))
  {
    var steps := [CreateStep(2024, 2, 10, 20), OpenStep(0), CloseStep(0, true), CreateStep(2024, 1, 1, 5)];
    var p := Period(2024, 2, 10, 20, Draft);
    assert steps[..0] == [] && steps[..1][..0] == [] && steps[..2][..1] == steps[..1] && steps[..3][..2] == steps[..2];
    assert Run(steps[..1]) == [p];
    assert Run(steps[..2]) == [p.(status := Open)];
    assert Run(steps[..3]) == [p.(status := Closed)];
    assert Run(steps) == After(Run(steps[..3]), steps[3]);
    assert Run(steps)[1].status.Draft? && Run(steps)[0].status.Closed?;
  }

  // Creation succeeds exactly for a real month, a real range, a new month and
  // dates that no existing period holds, and adds a DRAFT period.
  lemma {:induction false} CreateSucceedsIff(steps: seq<Step>, year: int, month: int, start: int, end: int)
    ensures var periods := Run(steps);
            var r := Attempt(periods, CreateStep(year, month, start, end));
            && (r.Ok?
                <==> && 1 <= month <= 12 && start < end
                     && (forall i :: 0 <= i < |periods| ==> !(periods[i].year == year && periods[i].month == month))
                     && (forall i :: 0 <= i < |periods| ==> !Share(periods[i], start, end)))
            && (r.Ok? ==> r.value == periods + [Period(year, month, start, end, Draft)])
  {
    var periods := Run(steps);
    RunsKeepLifecycle(steps);
    if start < end {
      forall i | 0 <= i < |periods| ensures OverlapTest(periods[i], start, end) <==> Share(periods[i], start, end) {
        OverlapTestIsComplete(periods[i], start, end);
      }
    }
  }

  // Opening takes a DRAFT period while none is OPEN.
  lemma {:induction false} OpenOutcome(periods: seq<Period>, id: nat)
    ensures var r := Attempt(periods, OpenStep(id));
            && (r.Ok? <==> id < |periods| && periods[id].status == Draft
                           && forall i :: 0 <= i < |periods| ==> periods[i].status != Open)
            && (r.Ok? ==> |r.value| == |periods| && r.value[id] == periods[id].(status := Open)
                          && forall i :: 0 <= i < |periods| && i != id ==> r.value[i] == periods[i])
            && (r.Err? ==> r.error == if id >= |periods| then NotFound
                                      else if periods[id].status != Draft then NotDraft else AnotherIsOpen)
  {
    if id < |periods| && periods[id].status == Draft && Attempt(periods, OpenStep(id)).Err? {
      var i :| 0 <= i < |periods| && periods[i].status.Open?;
      assert periods[i].status == Open;
    }
  }

  ghost predicate Before(p: Period, year: int, month: int) {
    p.year < year || (p.year == year && p.month < month)
  }

  // Closing takes an OPEN period once no earlier month is open or in draft and the
  // checklist is complete.
  lemma {:induction false} CloseOutcome(periods: seq<Period>, id: nat, passed: bool)
    ensures var r := Attempt(periods, CloseStep(id, passed));
            && (r.Ok? <==> id < |periods| && periods[id].status == Open && passed
                           && forall i :: 0 <= i < |periods| && Before(periods[i], periods[id].year, periods[id].month)
                                          ==> periods[i].status == Closed)
            && (r.Ok? ==> |r.value| == |periods| && r.value[id] == periods[id].(status := Closed)
                          && forall i :: 0 <= i < |periods| && i != id ==> r.value[i] == periods[i])
            && (r.Err? ==>
                  if id >= |periods| then r.error == NotFound
                  else if periods[id].status != Open then r.error == NotOpen
                  else r.error == EarlierNotClosed || (r.error == ChecklistFailed && !passed))
  {
    if id < |periods| && periods[id].status == Open {
      if exists i :: 0 <= i < |periods| && !periods[i].status.Closed? && Earlier(periods[i], periods[id]) {
        var i :| 0 <= i < |periods| && !periods[i].status.Closed? && Earlier(periods[i], periods[id]);
        assert Before(periods[i], periods[id].year, periods[id].month) && periods[i].status != Closed;
      }
    }
  }

  // A run takes each step in turn; one that fails changes nothing.
  lemma {:induction false} RunOutcome(steps: seq<Step>, step: Step)
    ensures Run([]) == []
    ensures Run(steps + [step])
            == match Attempt(Run(steps), step)
               case Ok(next) => next
               case Err(_) => Run(steps)
  {
    assert (steps + [step])[..|steps|] == steps;
  }
}
