// Closing a period: what the closing entry does, when it does it, and why a
// closed period never changes again.

module PeriodClosing {
  import opened Common
  import opened Journal
  import opened GeneralLedger

  // --------------------------------------------------------- the closing lines

  lemma {:induction false} NetOfOne(l: Line, a: AccountId)
    ensures Net([l], a) == if l.account == a then l.debit - l.credit else 0.0
    ensures Debits([l]) == l.debit && Credits([l]) == l.credit
  {
    assert [l][..0] == [];
    assert DebitsOf([l], a) == if l.account == a then l.debit else 0.0;
    assert CreditsOf([l], a) == if l.account == a then l.credit else 0.0;
  }

  lemma {:induction false} NetOfConcat(x: seq<Line>, y: seq<Line>, a: AccountId)
    ensures Net(x + y, a) == Net(x, a) + Net(y, a)
    ensures Excess(x + y) == Excess(x) + Excess(y)
  {
    TotalsOfConcat(x, y, a);
  }

  // What the closing lines of the first n accounts do to account a.
  function ClosedOff(chart: seq<Account>, lines: seq<Line>, n: nat, a: AccountId): real {
    if a < n && a < |chart| && Temporary(chart[a]) then -Net(lines, a) else 0.0
  }

  lemma {:induction false} ClosingLinesNet(chart: seq<Account>, lines: seq<Line>, n: nat, a: AccountId)
    requires n <= |chart|
    ensures Net(ClosingLines(chart, lines, n), a) == ClosedOff(chart, lines, n, a)
  {
    if n > 0 {
      ClosingLinesNet(chart, lines, n - 1, a);
      ClosingLineAdds(chart, lines, n, a, ClosingLines(chart, lines, n - 1));
    }
  }

  lemma {:induction false} ClosingLineAdds(chart: seq<Account>, lines: seq<Line>, n: nat, a: AccountId,
      before: seq<Line>)
    requires 0 < n <= |chart| && Net(before, a) == ClosedOff(chart, lines, n - 1, a)
    ensures Net(before + ClosingLine(chart, lines, n - 1), a) == ClosedOff(chart, lines, n, a)
  {
    NetOfConcat(before, ClosingLine(chart, lines, n - 1), a);
    ClosingLineNet(chart, lines, n - 1, a);
  }

  lemma {:induction false} ClosingLinesExcess(chart: seq<Account>, lines: seq<Line>, n: nat)
    requires n <= |chart|
    ensures Excess(ClosingLines(chart, lines, n)) == NetIncome(chart, lines, n)
  {
    if n > 0 {
      var before, line := ClosingLines(chart, lines, n - 1), ClosingLine(chart, lines, n - 1);
      assert Excess(before) == NetIncome(chart, lines, n - 1) by { ClosingLinesExcess(chart, lines, n - 1); }
      assert Excess(line) == (if Temporary(chart[n - 1]) then -Net(lines, n - 1) else 0.0) by {
        ClosingLineNet(chart, lines, n - 1, n - 1);
      }
      assert Excess(before + line) == Excess(before) + Excess(line) by { NetOfConcat(before, line, 0); }
    }
  }

  lemma {:induction false} ClosingLineNet(chart: seq<Account>, lines: seq<Line>, b: AccountId, a: AccountId)
    requires b < |chart|
    ensures var line := ClosingLine(chart, lines, b);
            && Net(line, a) == (if a == b && Temporary(chart[b]) then -Net(lines, b) else 0.0)
            && Excess(line) == (if Temporary(chart[b]) then -Net(lines, b) else 0.0)
  {
    var line := ClosingLine(chart, lines, b);
    if line != [] {
      assert line == [line[0]];
      NetOfOne(line[0], a);
    }
  }

  lemma {:induction false} NothingLeftToClose(chart: seq<Account>, lines: seq<Line>, n: nat)
    requires n <= |chart|
    requires forall a :: 0 <= a < n && Temporary(chart[a]) ==> Net(lines, a) == 0.0
    ensures NetIncome(chart, lines, n) == 0.0
  {
    if n > 0 {
      NothingLeftToClose(chart, lines, n - 1);
    }
  }

  ghost predicate TemporariesAreZero(chart: seq<Account>, entries: seq<Entry>, p: nat) {
    forall a :: 0 <= a < |chart| && Temporary(chart[a]) ==> Net(PostedLines(entries, p), a) == 0.0
  }

  // The closing entry balances exactly; posting it zeroes every revenue, expense
  // and COGS account of the period, whatever the sign of its balance, moves
  // retained earnings by exactly the net income, and touches no other account.
  lemma {:induction false} ClosingEntryIsCorrect(setup: Setup, books: Books, p: nat)
    requires p < |books.periods| && ClosingEntry(setup.chart, books.entries, p).Some?
    ensures var e := ClosingEntry(setup.chart, books.entries, p).value;
            e.totalDebit == e.totalCredit && AccountsExist(setup.chart, e.lines)
    ensures var after := After(setup, books, CloseStep(p)).entries;
            var before := books.entries;
            && TemporariesAreZero(setup.chart, after, p)
            && (forall a :: 0 <= a < |setup.chart| && !Temporary(setup.chart[a]) ==>
                  Net(PostedLines(after, p), a) - Net(PostedLines(before, p), a)
                  == if a == RetainedEarnings(setup.chart)
                     then -NetIncome(setup.chart, PostedLines(before, p), |setup.chart|) else 0.0)
  {
    var chart, lines := setup.chart, PostedLines(books.entries, p);
    ClosingBalances(chart, books.entries, p);
    AfterClosing(setup, books, p);
    forall a ensures Net(lines + AllClosingLines(chart, lines), a) == Net(lines, a) + ClosingEffect(chart, lines, a) {
      ClosingNet(chart, lines, a);
      NetOfConcat(lines, AllClosingLines(chart, lines), a);
    }
  }

  lemma {:induction false} ClosingBalances(chart: seq<Account>, entries: seq<Entry>, p: nat)
    requires ClosingEntry(chart, entries, p).Some?
    ensures var e := ClosingEntry(chart, entries, p).value;
            e.totalDebit == e.totalCredit && AccountsExist(chart, e.lines)
  {
    ClosingAccountsExist(chart, PostedLines(entries, p), |chart|);
    ClosingExcess(chart, PostedLines(entries, p));
  }

  lemma {:induction false} AfterClosing(setup: Setup, books: Books, p: nat)
    requires p < |books.periods| && ClosingEntry(setup.chart, books.entries, p).Some?
    ensures var lines := PostedLines(books.entries, p);
            PostedLines(After(setup, books, CloseStep(p)).entries, p) == lines + AllClosingLines(setup.chart, lines)
  {
    var e := ClosingEntry(setup.chart, books.entries, p).value;
    assert After(setup, books, CloseStep(p)).entries == books.entries + [e];
    assert e.lines == AllClosingLines(setup.chart, PostedLines(books.entries, p));
    PostedLinesOfMore(books.entries, e, p);
  }

  // What the closing entry adds to an account.
  function ClosingEffect(chart: seq<Account>, lines: seq<Line>, a: AccountId): real {
    if a < |chart| && Temporary(chart[a]) then -Net(lines, a)
    else if a == RetainedEarnings(chart) then -NetIncome(chart, lines, |chart|)
    else 0.0
  }

  function AllClosingLines(chart: seq<Account>, lines: seq<Line>): seq<Line> {
    ClosingLines(chart, lines, |chart|) + [IncomeLine(RetainedEarnings(chart), NetIncome(chart, lines, |chart|))]
  }

  lemma {:induction false} ClosingNet(chart: seq<Account>, lines: seq<Line>, a: AccountId)
    requires RetainedEarnings(chart) < |chart|
    ensures Net(AllClosingLines(chart, lines), a) == ClosingEffect(chart, lines, a)
  {
    var last := IncomeLine(RetainedEarnings(chart), NetIncome(chart, lines, |chart|));
    ClosingLinesNet(chart, lines, |chart|, a);
    NetOfConcat(ClosingLines(chart, lines, |chart|), [last], a);
    NetOfOne(last, a);
  }

  lemma {:induction false} ClosingExcess(chart: seq<Account>, lines: seq<Line>)
    ensures Excess(AllClosingLines(chart, lines)) == 0.0
  {
    var last := IncomeLine(RetainedEarnings(chart), NetIncome(chart, lines, |chart|));
    ClosingLinesExcess(chart, lines, |chart|);
    NetOfConcat(ClosingLines(chart, lines, |chart|), [last], 0);
    NetOfOne(last, 0);
  }

  lemma {:induction false} ClosingAccountsExist(chart: seq<Account>, lines: seq<Line>, n: nat)
    requires n <= |chart|
    ensures AccountsExist(chart, ClosingLines(chart, lines, n))
  {
    if n > 0 {
      ClosingAccountsExist(chart, lines, n - 1);
    }
  }

  // Closing zeroes the temporary accounts exactly when it posts an entry or
  // they were zero before; it posts one exactly when a retained-earnings account
  // exists and net income is not zero.
  lemma {:induction false} CloseZeroesIff(setup: Setup, books: Books, p: nat)
    requires p < |books.periods|
    ensures TemporariesAreZero(setup.chart, After(setup, books, CloseStep(p)).entries, p)
            <==> ClosingEntry(setup.chart, books.entries, p).Some? || TemporariesAreZero(setup.chart, books.entries, p)
    ensures ClosingEntry(setup.chart, books.entries, p).Some?
            <==> (exists r :: 0 <= r < |setup.chart| && IsRetainedEarnings(setup.chart[r]))
                 && NetIncome(setup.chart, PostedLines(books.entries, p), |setup.chart|) != 0.0
  {
    if ClosingEntry(setup.chart, books.entries, p).Some? {
      ClosingEntryIsCorrect(setup, books, p);
    } else {
      assert books.entries + [] == books.entries;
    }
  }

  // The step that creates January, the period a step like it stores, and a
  // posting of one debit and one credit to the first period.
  function January(): Step {
    PeriodStep(FiscalPeriods.CreateStep(2024, 1, 0, 30))
  }

  function NewPeriod(month: int, start: int, end: int): FiscalPeriods.Period {
    FiscalPeriods.Period(2024, month, start, end, FiscalPeriods.Draft)
  }

  function PostTo(debit: AccountId, credit: AccountId, amount: real): Step {
    PostStep(PostData(Some(0), "SALE", 1, false, [], [Line(debit, amount, 0.0), Line(credit, 0.0, amount)]))
  }

  lemma {:induction false} TwoLines(debit: AccountId, credit: AccountId, amount: real, a: AccountId)
    ensures var lines := [Line(debit, amount, 0.0), Line(credit, 0.0, amount)];
            && Net(lines, a) == (if a == debit then amount else 0.0) - (if a == credit then amount else 0.0)
            && Excess(lines) == 0.0
  {
    var x, y := Line(debit, amount, 0.0), Line(credit, 0.0, amount);
    assert [x, y] == [x] + [y];
    NetOfConcat([x], [y], a);
    NetOfOne(x, a);
    NetOfOne(y, a);
  }

  // A DRAFT period takes postings: January is created and posted to, and has
  // never been opened.
  lemma {:induction false} DraftTakesPostings(setup: Setup, debit: AccountId, credit: AccountId, amount: real)
    requires debit < |setup.chart| && credit < |setup.chart| && amount > 0.0
    ensures var later := Run(setup, Books([], []), [January(), PostTo(debit, credit, amount)]);
            && |later.periods| == 1 && later.periods[0].status.Draft?
            && |later.entries| == 1 && later.entries[0].period == 0 && later.entries[0].status.Posted?
            && later.entries[0].lines == [Line(debit, amount, 0.0), Line(credit, 0.0, amount)]
  {
    var post := PostTo(debit, credit, amount);
    RunOfThree(setup, Books([], []), January(), post, post);
    TwoLines(debit, credit, amount, 0);
    assert ResolvedLines(setup.chart, [], post.data.amounts) == post.data.amounts;
  }

  // Retained earnings, one revenue and one expense account.
  function SmallChart(): seq<Account> {
    [Account("3", Equity, false), Account("4", Revenue, false), Account("5", Expense, true)]
  }

  lemma {:induction false} SmallIncome(lines: seq<Line>)
    ensures NetIncome(SmallChart(), lines, 3) == -Net(lines, 1) - Net(lines, 2)
    ensures RetainedEarnings(SmallChart()) == 0
  {
    var chart := SmallChart();
    assert NetIncome(chart, lines, 1) == 0.0;
    assert NetIncome(chart, lines, 2) == -Net(lines, 1);
    assert IsRetainedEarnings(chart[0]);
  }

  lemma {:induction false} SmallClosing(entries: seq<Entry>, p: nat)
    ensures var closing := ClosingEntry(SmallChart(), entries, p);
            && (closing.Some? <==> Net(PostedLines(entries, p), 1) + Net(PostedLines(entries, p), 2) != 0.0)
            && (closing.Some? ==> closing.value.period == p && AutoPosted(closing.value, CLOSING, p + 1))
  {
    SmallIncome(PostedLines(entries, p));
  }

  lemma {:induction false} CloseAppends(setup: Setup, books: Books, p: nat)
    requires p < |books.periods|
    ensures After(setup, books, CloseStep(p)).entries
            == match ClosingEntry(setup.chart, books.entries, p)
               case Some(e) => books.entries + [e]
               case None => books.entries
  {
    assert books.entries + [] == books.entries;
  }

  // Revenue 100 against expense 100: net income is zero, nothing is posted, and
  // both accounts keep their balance in the closed period.
  lemma {:induction false} BreakEvenIsNotClosed()
    ensures var later := Run(Setup(SmallChart(), map[]), Books([], []), [January(), PostTo(2, 1, 100.0), CloseStep(0)]);
            && |later.periods| == 1 && later.periods[0].status.Closed?
            && Net(PostedLines(later.entries, 0), 1) == -100.0 && Net(PostedLines(later.entries, 0), 2) == 100.0
  {
    var setup := Setup(SmallChart(), map[]);
    var books := Run(setup, Books([], []), [January(), PostTo(2, 1, 100.0)]);
    RunOfThree(setup, Books([], []), January(), PostTo(2, 1, 100.0), CloseStep(0));
    PostedNet(setup, 2, 1, 100.0, 1);
    PostedNet(setup, 2, 1, 100.0, 2);
    SmallClosing(books.entries, 0);
    CloseAppends(setup, books, 0);
  }

  // What January carries after the posting.
  lemma {:induction false} PostedNet(setup: Setup, debit: AccountId, credit: AccountId, amount: real, a: AccountId)
    requires debit < |setup.chart| && credit < |setup.chart| && amount > 0.0
    ensures var books := Run(setup, Books([], []), [January(), PostTo(debit, credit, amount)]);
            && |books.periods| == 1
            && Net(PostedLines(books.entries, 0), a)
               == (if a == debit then amount else 0.0) - (if a == credit then amount else 0.0)
  {
    var books := Run(setup, Books([], []), [January(), PostTo(debit, credit, amount)]);
    DraftTakesPostings(setup, debit, credit, amount);
    assert books.entries == [books.entries[0]];
    PostedLinesOfOne(books.entries[0], 0);
    TwoLines(debit, credit, amount, a);
  }

  // AccountingService.closePeriod asks for neither status nor order.  It keeps
  // the closing order exactly when every period earlier by year and month is
  // closed, which PeriodManagerService would have demanded.
  lemma {:induction false} CloseKeepsOrderIff(setup: Setup, books: Books, p: nat)
    requires FiscalPeriods.ClosedInOrder(books.periods) && p < |books.periods|
    ensures FiscalPeriods.ClosedInOrder(After(setup, books, CloseStep(p)).periods)
            <==> FiscalPeriods.EarlierAreClosed(books.periods, p)
  {
    FiscalPeriods.ClosingKeepsOrderIff(books.periods, p);
  }

  // So among everything that can happen to the ledger, the closing order is
  // broken by exactly two kinds of step: such a close, and the creation of a
  // period dated before a closed one.
  lemma {:induction false} StepKeepsOrderIff(setup: Setup, books: Books, step: Step)
    requires FiscalPeriods.ClosedInOrder(books.periods)
    ensures FiscalPeriods.ClosedInOrder(After(setup, books, step).periods)
            <==> match step
                 case CloseStep(p) => p < |books.periods| ==> FiscalPeriods.EarlierAreClosed(books.periods, p)
                 case PeriodStep(change) => !FiscalPeriods.Backdates(books.periods, change)
                 case _ => true
  {
    match step
    case CloseStep(p) => if p < |books.periods| { CloseKeepsOrderIff(setup, books, p); }
    case PeriodStep(change) => FiscalPeriods.StepKeepsOrderIff(books.periods, change);
    case _ =>
  }

  // For periods stored in calendar order: the closed ones stay in front exactly
  // when all those stored before p are closed.
  lemma {:induction false} CloseKeepsPrefixIff(setup: Setup, books: Books, p: nat)
    requires FiscalPeriods.CalendarOrder(books.periods) && FiscalPeriods.ClosedPrefix(books.periods)
    requires p < |books.periods|
    ensures FiscalPeriods.ClosedPrefix(After(setup, books, CloseStep(p)).periods)
            <==> forall i :: 0 <= i < p ==> books.periods[i].status.Closed?
  {
    var next := After(setup, books, CloseStep(p)).periods;
    assert FiscalPeriods.CalendarOrder(next) by {
      assert forall i :: 0 <= i < |next| ==> next[i] == books.periods[i].(status := next[i].status);
    }
    FiscalPeriods.PrefixIffInOrder(books.periods);
    FiscalPeriods.PrefixIffInOrder(next);
    CloseKeepsOrderIff(setup, books, p);
    assert forall i :: 0 <= i < p ==> FiscalPeriods.Earlier(books.periods[i], books.periods[p]);
    assert forall i :: p < i < |next| ==> FiscalPeriods.Earlier(books.periods[p], books.periods[i]);
  }

  function February(): Step {
    PeriodStep(FiscalPeriods.CreateStep(2024, 2, 31, 59))
  }

  lemma {:induction false} TwoMonths(setup: Setup)
    ensures Run(setup, Books([], []), [January(), February()]) == Books([NewPeriod(1, 0, 30), NewPeriod(2, 31, 59)], [])
  {
    RunOfThree(setup, Books([], []), January(), February(), January());
    assert After(setup, Books([], []), January()) == Books([NewPeriod(1, 0, 30)], []);
  }

  // January and February are created in this order; February is closed at once,
  // with January before it and itself never opened.
  lemma {:induction false} CloseBreaksOrder(setup: Setup)
    ensures var periods := Run(setup, Books([], []), [January(), February(), CloseStep(1)]).periods;
            && periods == [NewPeriod(1, 0, 30), NewPeriod(2, 31, 59).(status := FiscalPeriods.Closed)]
            && !FiscalPeriods.ClosedInOrder(periods)
  {
    RunOfThree(setup, Books([], []), January(), February(), CloseStep(1));
    TwoMonths(setup);
    var books := Run(setup, Books([], []), [January(), February()]);
    assert FiscalPeriods.Earlier(books.periods[0], books.periods[1]) && !books.periods[0].status.Closed?;
    CloseKeepsOrderIff(setup, books, 1);
  }

  // Closed through PeriodManagerService, January gets no closing entry; the later
  // AccountingService.closePeriod posts one into the CLOSED period.
  lemma {:induction false} ClosedPeriodTakesEntry()
    ensures var setup := Setup(SmallChart(), map[]);
            var steps := ThroughPeriodManager();
            var closed, later := Run(setup, Books([], []), steps), Run(setup, Books([], []), steps + [CloseStep(0)]);
            && |closed.periods| == 1 && closed.periods[0].status.Closed? && |closed.entries| == 1
            && |later.entries| == 2 && later.entries[1].period == 0
            && !Untouched(closed.entries, later.entries, 0)
  {
    var setup := Setup(SmallChart(), map[]);
    var posted := Run(setup, Books([], []), [January(), PostTo(0, 1, 100.0)]);
    var closed := Run(setup, Books([], []), ThroughPeriodManager());
    DraftTakesPostings(setup, 0, 1, 100.0);
    AfterPeriodManager(setup);
    RunOneMore(setup, Books([], []), ThroughPeriodManager(), CloseStep(0));
    PostedNet(setup, 0, 1, 100.0, 1);
    PostedNet(setup, 0, 1, 100.0, 2);
    SmallClosing(closed.entries, 0);
    CloseAppends(setup, closed, 0);
  }

  // A sale of 100 in January, which is then opened and closed through
  // PeriodManagerService.
  function ThroughPeriodManager(): seq<Step> {
    [January(), PostTo(0, 1, 100.0)] + [PeriodStep(FiscalPeriods.OpenStep(0))]
    + [PeriodStep(FiscalPeriods.CloseStep(0, true))]
  }

  lemma {:induction false} AfterPeriodManager(setup: Setup)
    requires setup.chart == SmallChart()
    ensures var posted := Run(setup, Books([], []), [January(), PostTo(0, 1, 100.0)]);
            var closed := Run(setup, Books([], []), ThroughPeriodManager());
            && |closed.periods| == 1 && closed.periods[0].status.Closed? && closed.entries == posted.entries
  {
    var opens, closes := PeriodStep(FiscalPeriods.OpenStep(0)), PeriodStep(FiscalPeriods.CloseStep(0, true));
    DraftTakesPostings(setup, 0, 1, 100.0);
    RunOneMore(setup, Books([], []), [January(), PostTo(0, 1, 100.0)], opens);
    RunOneMore(setup, Books([], []), [January(), PostTo(0, 1, 100.0)] + [opens], closes);
  }

  // ------------------------------------------------------------------ freezing

  // Nothing of period p changed: its entries are where and what they were, and
  // every added entry belongs to another period.
  ghost predicate Untouched(before: seq<Entry>, after: seq<Entry>, p: nat) {
    && |before| <= |after|
    && (forall i :: 0 <= i < |before| && (before[i].period == p || after[i].period == p) ==> after[i] == before[i])
    && (forall i :: |before| <= i < |after| ==> after[i].period != p)
  }

  lemma {:induction false} UntouchedLines(before: seq<Entry>, after: seq<Entry>, p: nat)
    requires Untouched(before, after, p)
    ensures PostedLines(after, p) == PostedLines(before, p)
    decreases |after|
  {
    if |after| > |before| {
      UntouchedLines(before, after[..|after| - 1], p);
    } else if before != [] {
      UntouchedLines(before[..|before| - 1], after[..|after| - 1], p);
    }
  }

  // A closed period that a further close would leave alone.
  ghost predicate Settled(setup: Setup, books: Books, p: nat) {
    && p < |books.periods|
    && books.periods[p].status.Closed?
    && ClosingEntry(setup.chart, books.entries, p).None?
  }

  // After AccountingService.closePeriod a second close finds net income zero, or
  // no retained-earnings account, and would post nothing.
  lemma {:induction false} CloseSettles(setup: Setup, books: Books, p: nat)
    requires p < |books.periods|
    ensures Settled(setup, After(setup, books, CloseStep(p)), p)
  {
    if ClosingEntry(setup.chart, books.entries, p).Some? {
      ClosingEntryIsCorrect(setup, books, p);
      NothingLeftToClose(setup.chart, PostedLines(After(setup, books, CloseStep(p)).entries, p), |setup.chart|);
    } else {
      assert books.entries + [] == books.entries;
    }
  }

  lemma {:induction false} StepLeavesSettled(setup: Setup, books: Books, step: Step, p: nat)
    requires Settled(setup, books, p)
    ensures Untouched(books.entries, After(setup, books, step).entries, p)
    ensures Settled(setup, After(setup, books, step), p)
  {
    StepLeavesEntries(setup, books, step, p);
    UntouchedLines(books.entries, After(setup, books, step).entries, p);
    if step.PeriodStep? { FiscalPeriods.StatusOnlyAdvances(books.periods, step.change, p); }
  }

  // Every way of writing an entry refuses a CLOSED period or writes elsewhere.
  lemma {:induction false} StepLeavesEntries(setup: Setup, books: Books, step: Step, p: nat)
    requires Settled(setup, books, p)
    ensures Untouched(books.entries, After(setup, books, step).entries, p)
  {
    match step
    case PostStep(_) =>
    case EventStep(_) =>
    case ManualStep(_, _, _) =>
    case ReverseStep(_) =>
    case CloseStep(_) =>
    case PeriodStep(_) =>
  }

  lemma {:induction false} SettledIsFrozen(setup: Setup, books: Books, steps: seq<Step>, p: nat)
    requires Settled(setup, books, p)
    ensures Untouched(books.entries, Run(setup, books, steps).entries, p)
    ensures Settled(setup, Run(setup, books, steps), p)
  {
    if steps != [] {
      var k := |steps| - 1;
      SettledIsFrozen(setup, books, steps[..k], p);
      StepLeavesSettled(setup, Run(setup, books, steps[..k]), steps[k], p);
    }
  }

  // Main theorem: once AccountingService.closePeriod has closed a period, no
  // later run of postings, events, manual entries, reversals, closes and period
  // changes alters its entries, its lines, their statuses or its own status.
  lemma {:induction false} ClosedPeriodIsFrozen(setup: Setup, books: Books, p: nat, steps: seq<Step>)
    requires p < |books.periods|
    ensures var closed := After(setup, books, CloseStep(p));
            var later := Run(setup, closed, steps);
            && Untouched(closed.entries, later.entries, p)
            && p < |later.periods| && later.periods[p].status.Closed?
            && PostedLines(later.entries, p) == PostedLines(closed.entries, p)
  {
    CloseSettles(setup, books, p);
    var closed := After(setup, books, CloseStep(p));
    SettledIsFrozen(setup, closed, steps, p);
    UntouchedLines(closed.entries, Run(setup, closed, steps).entries, p);
  }

  // A period may also be closed by PeriodManagerService, which posts no closing
  // entry.  A CLOSED period is frozen if and only if closing would post nothing.
  lemma {:induction false} ClosedIsFrozenIff(setup: Setup, books: Books, p: nat)
    requires p < |books.periods| && books.periods[p].status.Closed?
    ensures (forall steps: seq<Step> :: Untouched(books.entries, Run(setup, books, steps).entries, p))
            <==> ClosingEntry(setup.chart, books.entries, p).None?
  {
    if ClosingEntry(setup.chart, books.entries, p).None? {
      forall steps: seq<Step> ensures Untouched(books.entries, Run(setup, books, steps).entries, p) {
        SettledIsFrozen(setup, books, steps, p);
      }
    } else {
      var steps := [CloseStep(p)];
      assert steps[..0] == [];
      assert Run(setup, books, steps) == After(setup, books, CloseStep(p));
      assert Run(setup, books, steps).entries[|books.entries|].period == p;
      assert !Untouched(books.entries, Run(setup, books, steps).entries, p);
    }
  }
}
