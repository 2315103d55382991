// The services that write the general ledger: AccountingService and
// JournalEngineService over the stored periods and entries.

module GeneralLedgerService {
  import opened Common
  import opened FiscalPeriods
  import opened Journal
  import opened GeneralLedger
  import opened TrialBalance

  class LedgerService {
    const setup: Setup
    var periods: seq<Period>
    var entries: seq<Entry>

    constructor (setup: Setup, periods: seq<Period>)
      ensures this.setup == setup && View() == Books(periods, [])
    {
      this.setup := setup;
      this.periods, entries := periods, [];
    }

    function View(): Books
      reads this
    {
      Books(periods, entries)
    }

    // Stores one entry under the foreign key on accounts.
    method Insert(e: Entry) returns (failure: Option<LedgerError>)
      modifies this`entries
      ensures Settles(GeneralLedger.Store(setup, old(View()), e), old(View()), View(), failure)
    {
      for i := 0 to |e.lines|
        invariant AccountsExist(setup.chart, e.lines[..i])
      {
        if e.lines[i].account >= |setup.chart| {
          return Some(UnknownAccount);
        }
      }
      assert e.lines[..|e.lines|] == e.lines;
      entries := entries + [e];
      return None;
    }

    method PostJournalEntry(d: PostData) returns (failure: Option<LedgerError>)
      modifies this`entries
      ensures Settles(Post(setup, old(View()), d), old(View()), View(), failure)
    {
      var period := d.period;
      if period.None? {
        period := EarliestOpen(periods);
        if period.None? {
          return Some(NoOpenPeriod);
        }
      } else {
        var refused := PeriodRefused(periods, period.value);
        if refused.Some? {
          return refused;
        }
      }
      var lines: seq<Line> := [];
      for i := 0 to |d.amounts|
        invariant |lines| == i
        invariant lines == ResolvedLines(setup.chart, d.refs, d.amounts)[..i]
      {
        var account := if i < |d.refs| then Resolve(setup.chart, d.refs[i]) else d.amounts[i].account;
        lines := lines + [d.amounts[i].(account := account)];
      }
      assert lines == ResolvedLines(setup.chart, d.refs, d.amounts);
      var bad := ValidateJournalBalance(lines);
      if bad.Some? {
        return Some(BadLines(bad.value));
      }
      failure := Insert(NewEntry(period.value, d.refType, d.refId, d.auto, lines));
    }

    method ProcessEvent(e: Event) returns (r: Result<nat, LedgerError>)
      modifies this`entries
      ensures match Process(setup, old(View()), e)
              case Ok(p) => View() == p.0 && r == Ok(p.1)
              case Err(err) => View() == old(View()) && r == Err(err)
    {
      if e.refId != NIL {
        var found := FindAuto(entries, e.refType, e.refId);
        if found < |entries| {
          return Ok(found);
        }
      }
      var refused := PeriodRefused(periods, e.period);
      if refused.Some? {
        return Err(refused.value);
      }
      if e.kind !in setup.templates || !setup.templates[e.kind].active {
        return Err(TemplateNotFound);
      }
      var lines := EventLines(setup.templates[e.kind], e);
      var balanced := ValidateBalance(lines);
      if !balanced {
        return Err(BadLines(Unbalanced));
      }
      var failure := Insert(NewEntry(e.period, e.refType, e.refId, true, lines));
      return if failure.Some? then Err(failure.value) else Ok(|entries| - 1);
    }

    method CreateManualEntry(refType: string, refId: nat, lines: seq<Line>) returns (failure: Option<LedgerError>)
      modifies this`entries
      ensures Settles(Manual(setup, old(View()), refType, refId, lines), old(View()), View(), failure)
    {
      var period := CurrentPeriod(periods);
      if period == |periods| {
        return Some(NoOpenPeriod);
      }
      var balanced := ValidateBalance(lines);
      if !balanced {
        return Some(BadLines(Unbalanced));
      }
      failure := Insert(NewEntry(period, refType, refId, false, lines));
    }

    method ReverseJournalEntry(id: nat) returns (failure: Option<LedgerError>)
      modifies this`entries
      ensures Settles(Reverse(old(View()), id), old(View()), View(), failure)
    {
      if id >= |entries| {
        return Some(EntryNotFound);
      }
      if !entries[id].status.Posted? {
        return Some(NotPosted);
      }
      var refused := PeriodRefused(periods, entries[id].period);
      if refused.Some? {
        return refused;
      }
      var reversal := Reversal(entries, id);
      entries := entries[id := entries[id].(status := Reversed)] + [reversal];
      return None;
    }

    method ClosePeriod(p: nat) returns (failure: Option<LedgerError>)
      modifies this
      ensures Settles(Close(setup, old(View()), p), old(View()), View(), failure)
    {
      if p >= |periods| {
        return Some(PeriodNotFound);
      }
      var lines := PostedLines(entries, p);
      var retained := RetainedEarnings(setup.chart);
      if retained < |setup.chart| {
        var closing, income := [], 0.0;
        for a := 0 to |setup.chart|
          invariant closing == ClosingLines(setup.chart, lines, a)
          invariant income == NetIncome(setup.chart, lines, a)
        {
          var account := setup.chart[a];
          if Temporary(account) {
            var balance := NormalBalance(account, DebitsOf(lines, a), CreditsOf(lines, a));
            if balance != 0.0 {
              if account.debitNormal {
                closing := closing + [Line(a, 0.0, balance)];
                income := income - balance;
              } else {
                closing := closing + [Line(a, balance, 0.0)];
                income := income + balance;
              }
            }
          }
        }
        if income != 0.0 {
          closing := closing + [IncomeLine(retained, income)];
          entries := entries + [NewEntry(p, CLOSING, p + 1, true, closing)];
        }
      }
      periods := periods[p := periods[p].(status := Closed)];
      assert old(entries) + [] == old(entries);
      return None;
    }

    // The report lists each account with lines once, in order, with its totals;
    // its grand totals cover every posted line.
    method GetTrialBalance(p: nat) returns (rows: seq<TrialRow>, totalDebit: real, totalCredit: real)
      ensures ReportsAccounts(rows, PostedLines(entries, p), |setup.chart|)
      ensures totalDebit == AccountDebits(PostedLines(entries, p), |setup.chart|)
      ensures totalCredit == AccountCredits(PostedLines(entries, p), |setup.chart|)
      ensures AccountsExist(setup.chart, PostedLines(entries, p)) ==>
                totalDebit == Debits(PostedLines(entries, p)) && totalCredit == Credits(PostedLines(entries, p))
    {
      var lines := PostedLines(entries, p);
      rows, totalDebit, totalCredit := [], 0.0, 0.0;
      for a := 0 to |setup.chart|
        invariant ReportsAccounts(rows, lines, a)
        invariant totalDebit == AccountDebits(lines, a) && totalCredit == AccountCredits(lines, a)
      {
        assert HasLine(lines, a) <==> Named(lines, a);
        if HasLine(lines, a) {
          var debit, credit := DebitsOf(lines, a), CreditsOf(lines, a);
          rows := rows + [TrialRow(a, debit, credit)];
          totalDebit, totalCredit := totalDebit + debit, totalCredit + credit;
        } else {
          NoLineNoTotal(lines, a);
        }
      }
      if AccountsExist(setup.chart, lines) {
        GroupingKeepsTotals(setup.chart, lines);
      }
    }
  }
}
