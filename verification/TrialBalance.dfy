// The trial balance: per-account totals against the entries behind them, and
// how far debits and credits can drift apart.

module TrialBalance {
  import opened Common
  import opened Journal
  import opened GeneralLedger
  import FiscalPeriods
  import PeriodClosing

  // Totals over the first n accounts of the chart.
  function AccountDebits(lines: seq<Line>, n: nat): real {
    if n == 0 then 0.0 else AccountDebits(lines, n - 1) + DebitsOf(lines, n - 1)
  }

  function AccountCredits(lines: seq<Line>, n: nat): real {
    if n == 0 then 0.0 else AccountCredits(lines, n - 1) + CreditsOf(lines, n - 1)
  }

  // The rows of the report: every account of the chart that has a line.
  datatype TrialRow = TrialRow(account: AccountId, debit: real, credit: real)

  predicate HasLine(lines: seq<Line>, a: AccountId) {
    exists i :: 0 <= i < |lines| && lines[i].account == a
  }

  ghost predicate Named(lines: seq<Line>, a: AccountId) {
    exists l :: l in lines && l.account == a
  }

  ghost predicate ReportsAccounts(rows: seq<TrialRow>, lines: seq<Line>, n: nat) {
    && (forall a :: 0 <= a < n && Named(lines, a) ==> TrialRow(a, DebitsOf(lines, a), CreditsOf(lines, a)) in rows)
    && (forall r :: r in rows ==> r.account < n && Named(lines, r.account)
                                  && r.debit == DebitsOf(lines, r.account) && r.credit == CreditsOf(lines, r.account))
    && (forall i, j :: 0 <= i < j < |rows| ==> rows[i].account < rows[j].account)
  }

  lemma {:induction false} NoLineNoTotal(lines: seq<Line>, a: AccountId)
    requires !HasLine(lines, a)
    ensures DebitsOf(lines, a) == 0.0 && CreditsOf(lines, a) == 0.0
  {
    if lines != [] {
      assert forall i :: 0 <= i < |lines| - 1 ==> lines[..|lines| - 1][i] == lines[i];
      NoLineNoTotal(lines[..|lines| - 1], a);
    }
  }

  lemma {:induction false} OneMoreLine(lines: seq<Line>, n: nat)
    requires lines != []
    ensures var l, rest := lines[|lines| - 1], lines[..|lines| - 1];
            && AccountDebits(lines, n) == AccountDebits(rest, n) + (if l.account < n then l.debit else 0.0)
            && AccountCredits(lines, n) == AccountCredits(rest, n) + (if l.account < n then l.credit else 0.0)
  {
    if n > 0 {
      OneMoreLine(lines, n - 1);
    }
  }

  // Grouping by account loses no line, as long as every line names an account.
  lemma {:induction false} GroupingKeepsTotals(chart: seq<Account>, lines: seq<Line>)
    requires AccountsExist(chart, lines)
    ensures AccountDebits(lines, |chart|) == Debits(lines)
    ensures AccountCredits(lines, |chart|) == Credits(lines)
  {
    if lines == [] {
      NoLines(|chart|);
    } else {
      GroupingKeepsTotals(chart, lines[..|lines| - 1]);
      OneMoreLine(lines, |chart|);
    }
  }

  lemma {:induction false} NoLines(n: nat)
    ensures AccountDebits([], n) == 0.0 && AccountCredits([], n) == 0.0
  {
    if n > 0 {
      NoLines(n - 1);
    }
  }

  // --------------------------------------------------------------- tidy books

  predicate WithinCent(e: Entry) {
    AbsReal(e.totalDebit - e.totalCredit) <= 0.01
  }

  ghost predicate TidyEntry(chart: seq<Account>, e: Entry) {
    && AccountsExist(chart, e.lines)
    && e.totalDebit == Debits(e.lines) && e.totalCredit == Credits(e.lines)
    && WithinCent(e)
  }

  // A reversal copies the totals of its original, though its lines are swapped.
  ghost predicate TidyReversal(chart: seq<Account>, e: Entry) {
    && AccountsExist(chart, e.lines)
    && e.totalDebit == Credits(e.lines) && e.totalCredit == Debits(e.lines)
    && WithinCent(e)
  }

  ghost predicate Tidy(setup: Setup, books: Books) {
    forall i :: 0 <= i < |books.entries| ==>
      TidyEntry(setup.chart, books.entries[i]) || TidyReversal(setup.chart, books.entries[i])
  }

  // The amounts handed to processEvent and createManualEntry are whole cents.
  ghost predicate WholeCentStep(step: Step) {
    match step
    case EventStep(e) => WholeCents(e.amount) && AllWholeCents(e.lines)
    case ManualStep(_, _, lines) => AllWholeCents(lines)
    case _ => true
  }

  lemma {:induction false} StepKeepsTidy(setup: Setup, books: Books, step: Step)
    requires Tidy(setup, books) && WholeCentStep(step)
    ensures Tidy(setup, After(setup, books, step))
  {
    if Attempt(setup, books, step).Ok? {
      match step
      case PostStep(d) =>
        var lines := ResolvedLines(setup.chart, d.refs, d.amounts);
        assert JournalCheck(lines).None?;
      case EventStep(e) =>
        if Process(setup, books, e).value.1 == |books.entries| {
          assert WholeCents(0.0);
          TestsAgreeOnWholeCents(EventLines(setup.templates[e.kind], e));
        }
      case ManualStep(_, _, lines) => TestsAgreeOnWholeCents(lines);
      case ReverseStep(id) => ReversalIsTidy(setup, books, id);
      case CloseStep(p) =>
        if ClosingEntry(setup.chart, books.entries, p).Some? {
          PeriodClosing.ClosingEntryIsCorrect(setup, books, p);
        }
      case PeriodStep(_) =>
    }
  }

  lemma {:induction false} ReversalIsTidy(setup: Setup, books: Books, id: nat)
    requires Tidy(setup, books) && Reverse(books, id).Ok?
    ensures Tidy(setup, Reverse(books, id).value)
  {
    var e := books.entries[id];
    SwapCancels(e.lines, 0);
    var r := Reversal(books.entries, id);
    assert AccountsExist(setup.chart, r.lines);
    assert TidyEntry(setup.chart, e) || TidyReversal(setup.chart, e);
    assert TidyEntry(setup.chart, r) || TidyReversal(setup.chart, r);
  }

  lemma {:induction false} RunsKeepTidy(setup: Setup, books: Books, steps: seq<Step>)
    requires Tidy(setup, books) && forall i :: 0 <= i < |steps| ==> WholeCentStep(steps[i])
    ensures Tidy(setup, Run(setup, books, steps))
  {
    if steps != [] {
      var k := |steps| - 1;
      RunsKeepTidy(setup, books, steps[..k]);
      StepKeepsTidy(setup, Run(setup, books, steps[..k]), steps[k]);
    }
  }

  // -------------------------------------------------------------------- drift

  function PostedCount(entries: seq<Entry>, p: nat): nat {
    if entries == [] then 0 else
      var e := entries[|entries| - 1];
      PostedCount(entries[..|entries| - 1], p) + if e.period == p && e.status.Posted? then 1 else 0
  }

  lemma {:induction false} DriftOfEntries(setup: Setup, books: Books, p: nat)
    requires Tidy(setup, books)
    ensures AccountsExist(setup.chart, PostedLines(books.entries, p))
    ensures AbsReal(Debits(PostedLines(books.entries, p)) - Credits(PostedLines(books.entries, p)))
            <= 0.01 * PostedCount(books.entries, p) as real
    decreases |books.entries|
  {
    if books.entries != [] {
      var k := |books.entries| - 1;
      var before, e := books.entries[..k], books.entries[k];
      DriftOfEntries(setup, books.(entries := before), p);
      assert TidyEntry(setup.chart, e) || TidyReversal(setup.chart, e);
      TotalsOfConcat(PostedLines(before, p), e.lines, 0);
      assert PostedLines(before, p) + [] == PostedLines(before, p);
    }
  }

  ghost predicate DriftBounded(chart: seq<Account>, entries: seq<Entry>, p: nat) {
    var lines := PostedLines(entries, p);
    AbsReal(AccountDebits(lines, |chart|) - AccountCredits(lines, |chart|)) <= 0.01 * PostedCount(entries, p) as real
  }

  // Main theorem: in every run on whole-cent amounts the trial balance of a
  // period is out by at most one cent per POSTED entry.
  lemma {:induction false} TrialBalanceDrift(setup: Setup, periods: seq<FiscalPeriods.Period>, steps: seq<Step>, p: nat)
    requires forall i :: 0 <= i < |steps| ==> WholeCentStep(steps[i])
    ensures DriftBounded(setup.chart, Run(setup, Books(periods, []), steps).entries, p)
  {
    RunsKeepTidy(setup, Books(periods, []), steps);
    var books := Run(setup, Books(periods, []), steps);
    DriftOfEntries(setup, books, p);
    GroupingKeepsTotals(setup.chart, PostedLines(books.entries, p));
  }

  // Item 3 of the closing checklist: entries of the period out by more than a cent.
  function UnbalancedCount(entries: seq<Entry>, p: nat): nat {
    if entries == [] then 0 else
      var e := entries[|entries| - 1];
      UnbalancedCount(entries[..|entries| - 1], p) + if e.period == p && !WithinCent(e) then 1 else 0
  }

  lemma {:induction false} NoneUnbalanced(entries: seq<Entry>, p: nat)
    requires forall i :: 0 <= i < |entries| ==> WithinCent(entries[i])
    ensures UnbalancedCount(entries, p) == 0
  {
    if entries != [] {
      NoneUnbalanced(entries[..|entries| - 1], p);
    }
  }

  // Both counts look at the entries of the period one by one.
  lemma {:induction false} CountsGrow(entries: seq<Entry>, e: Entry, p: nat)
    ensures PostedCount([], p) == UnbalancedCount([], p) == 0
    ensures PostedCount(entries + [e], p)
            == PostedCount(entries, p) + if e.period == p && e.status == Posted then 1 else 0
    ensures UnbalancedCount(entries + [e], p)
            == UnbalancedCount(entries, p)
               + if e.period == p && (e.totalDebit - e.totalCredit > 0.01 || e.totalCredit - e.totalDebit > 0.01)
                 then 1 else 0
  {
    assert (entries + [e])[..|entries|] == entries;
  }

  // ... which therefore never fails in such a run.
  lemma {:induction false} ChecklistItemThreeHolds(setup: Setup, periods: seq<FiscalPeriods.Period>,
      steps: seq<Step>, p: nat)
    requires forall i :: 0 <= i < |steps| ==> WholeCentStep(steps[i])
    ensures UnbalancedCount(Run(setup, Books(periods, []), steps).entries, p) == 0
  {
    RunsKeepTidy(setup, Books(periods, []), steps);
    NoneUnbalanced(Run(setup, Books(periods, []), steps).entries, p);
  }
}
