// The double-entry ledger: posting, deduplicated auto-posting, manual entries,
// reversal, period close and the trial balance.  Entries are stored in
// creation order; an entry's id is its position plus one, so 0 is the nil UUID.

module GeneralLedger {
  import opened Common
  import opened FiscalPeriods
  import opened Journal

  // ------------------------------------------------------------------- state

  datatype AccountType = Asset | Liability | Equity | Revenue | Expense | Cogs | OtherIncome | OtherExpense

  datatype Account = Account(code: string, kind: AccountType, debitNormal: bool)

  datatype Template = Template(debitAccount: AccountId, creditAccount: AccountId, active: bool)

  // The chart of accounts, an account's id being its position, and the
  // auto-journal templates by event type.  Both are fixed during a run.
  datatype Setup = Setup(chart: seq<Account>, templates: map<string, Template>)

  datatype EntryStatus = Posted | Reversed

  datatype Entry = Entry(
    period: nat, refType: string, refId: nat, auto: bool, status: EntryStatus,
    lines: seq<Line>, totalDebit: real, totalCredit: real)

  datatype Books = Books(periods: seq<Period>, entries: seq<Entry>)

  datatype LedgerError =
    | NoOpenPeriod | PeriodNotFound | PeriodLocked | UnknownAccount | TemplateNotFound
    | EntryNotFound | NotPosted | BadLines(cause: JournalError) | BadPeriod(reason: PeriodError)

  const NIL := 0
  const REVERSAL := "JE_REVERSAL"
  const CLOSING := "PERIOD_CLOSING"

  predicate AccountsExist(chart: seq<Account>, lines: seq<Line>) {
    forall i :: 0 <= i < |lines| ==> lines[i].account < |chart|
  }

  // validatePeriodOpen refuses a missing or CLOSED period; DRAFT passes.
  function PeriodRefused(periods: seq<Period>, p: nat): Option<LedgerError> {
    if p >= |periods| then Some(PeriodNotFound)
    else if periods[p].status.Closed? then Some(PeriodLocked)
    else None
  }

  // The OPEN period with the earliest start.
  function EarliestOpen(periods: seq<Period>): (r: Option<nat>)
    ensures r.Some? ==> r.value < |periods| && periods[r.value].status.Open?
    ensures r.None? ==> forall i :: 0 <= i < |periods| ==> !periods[i].status.Open?
    ensures r.Some? ==>
              forall i :: 0 <= i < |periods| && periods[i].status.Open? ==> periods[r.value].start <= periods[i].start
  {
    if periods == [] then None else
      var k := |periods| - 1;
      var r := EarliestOpen(periods[..k]);
      if periods[k].status.Open? && (r.None? || periods[k].start < periods[r.value].start) then Some(k) else r
  }

  function NewEntry(period: nat, refType: string, refId: nat, auto: bool, lines: seq<Line>): Entry {
    Entry(period, refType, refId, auto, Posted, lines, Debits(lines), Credits(lines))
  }

  // Storing an entry; a line on an unknown account breaks the foreign key.
  function Store(setup: Setup, books: Books, e: Entry): Result<Books, LedgerError> {
    if !AccountsExist(setup.chart, e.lines) then Err(UnknownAccount)
    else Ok(books.(entries := books.entries + [e]))
  }

  // ----------------------------------------------------------------- posting

  // The caller may name an account by id or by code.
  datatype AccountRef = Id(id: AccountId) | Code(code: string)

  datatype PostData = PostData(
    period: Option<nat>, refType: string, refId: nat, auto: bool,
    refs: seq<AccountRef>, amounts: seq<Line>)

  function FindCode(chart: seq<Account>, code: string): (r: nat)
    ensures r <= |chart|
    ensures r < |chart| ==> chart[r].code == code
    ensures forall i :: 0 <= i < r ==> chart[i].code != code
  {
    if chart == [] then 0
    else
      var r := FindCode(chart[..|chart| - 1], code);
      if r < |chart| - 1 || chart[|chart| - 1].code == code then r else |chart|
  }

  // A reference that resolves to nothing keeps an id that no account has.
  function Resolve(chart: seq<Account>, r: AccountRef): AccountId {
    match r
    case Id(id) => id
    case Code(code) => FindCode(chart, code)
  }

  function ResolvedLines(chart: seq<Account>, refs: seq<AccountRef>, amounts: seq<Line>): (lines: seq<Line>)
    ensures |lines| == |amounts|
    ensures forall i :: 0 <= i < |lines| ==>
      lines[i] == if i < |refs| then amounts[i].(account := Resolve(chart, refs[i])) else amounts[i]
  {
    seq(|amounts|, i requires 0 <= i < |amounts| =>
      if i < |refs| then amounts[i].(account := Resolve(chart, refs[i])) else amounts[i])
  }

  function Post(setup: Setup, books: Books, d: PostData): Result<Books, LedgerError> {
    var period := if d.period.Some? then d.period else EarliestOpen(books.periods);
    if period.None? then Err(NoOpenPeriod)
    else if d.period.Some? && PeriodRefused(books.periods, period.value).Some? then
      Err(PeriodRefused(books.periods, period.value).value)
    else
      var lines := ResolvedLines(setup.chart, d.refs, d.amounts);
      match JournalCheck(lines)
      case Some(e) => Err(BadLines(e))
      case None => Store(setup, books, NewEntry(period.value, d.refType, d.refId, d.auto, lines))
  }

  // ------------------------------------------------------------ auto-posting

  datatype Event = Event(kind: string, refType: string, refId: nat, period: nat, amount: real, lines: seq<Line>)

  predicate AutoPosted(e: Entry, refType: string, refId: nat) {
    e.status.Posted? && e.auto && e.refType == refType && e.refId == refId
  }

  // findFirst of the POSTED auto-generated entry for a reference.
  function FindAuto(entries: seq<Entry>, refType: string, refId: nat): (r: nat)
    ensures r <= |entries|
    ensures r < |entries| ==> AutoPosted(entries[r], refType, refId)
    ensures forall i :: 0 <= i < r ==> !AutoPosted(entries[i], refType, refId)
  {
    if entries == [] then 0 else
      var k := |entries| - 1;
      var r := FindAuto(entries[..k], refType, refId);
      if r < k || AutoPosted(entries[k], refType, refId) then r else k + 1
  }

  function EventLines(t: Template, e: Event): seq<Line> {
    if |e.lines| > 0 then e.lines
    else [Line(t.debitAccount, e.amount, 0.0), Line(t.creditAccount, 0.0, e.amount)]
  }

  // The books afterwards and the position of the entry that answers the event.
  function Process(setup: Setup, books: Books, e: Event): Result<(Books, nat), LedgerError> {
    var found := FindAuto(books.entries, e.refType, e.refId);
    if e.refId != NIL && found < |books.entries| then Ok((books, found))
    else if PeriodRefused(books.periods, e.period).Some? then Err(PeriodRefused(books.periods, e.period).value)
    else if e.kind !in setup.templates || !setup.templates[e.kind].active then Err(TemplateNotFound)
    else
      var lines := EventLines(setup.templates[e.kind], e);
      if !BalancedInCents(lines) then Err(BadLines(Unbalanced))
      else match Store(setup, books, NewEntry(e.period, e.refType, e.refId, true, lines))
        case Err(err) => Err(err)
        case Ok(next) => Ok((next, |books.entries|))
  }

  function CurrentPeriod(periods: seq<Period>): (r: nat)
    ensures r <= |periods|
    ensures r < |periods| ==> periods[r].status.Open?
    ensures forall i :: 0 <= i < r ==> !periods[i].status.Open?
  {
    if periods == [] then 0 else
      var k := |periods| - 1;
      var r := CurrentPeriod(periods[..k]);
      if r < k || periods[k].status.Open? then r else k + 1
  }

  function Manual(setup: Setup, books: Books, refType: string, refId: nat, lines: seq<Line>):
    Result<Books, LedgerError> {
    var period := CurrentPeriod(books.periods);
    if period == |books.periods| then Err(NoOpenPeriod)
    else if !BalancedInCents(lines) then Err(BadLines(Unbalanced))
    else Store(setup, books, NewEntry(period, refType, refId, false, lines))
  }

  // ---------------------------------------------------------------- reversal

  function Reversal(entries: seq<Entry>, id: nat): Entry
    requires id < |entries|
  {
    var e := entries[id];
    Entry(e.period, REVERSAL, id + 1, true, Posted, Swapped(e.lines), e.totalDebit, e.totalCredit)
  }

  function Reverse(books: Books, id: nat): Result<Books, LedgerError> {
    if id >= |books.entries| then Err(EntryNotFound)
    else
      var e := books.entries[id];
      if !e.status.Posted? then Err(NotPosted)
      else if PeriodRefused(books.periods, e.period).Some? then Err(PeriodRefused(books.periods, e.period).value)
      else Ok(books.(entries := books.entries[id := e.(status := Reversed)] + [Reversal(books.entries, id)]))
  }

  // ------------------------------------------------------------- period close

  // The lines of the POSTED entries of a period.
  function PostedLines(entries: seq<Entry>, p: nat): seq<Line> {
    if entries == [] then [] else
      var e := entries[|entries| - 1];
      PostedLines(entries[..|entries| - 1], p) + if e.period == p && e.status.Posted? then e.lines else []
  }

  predicate Temporary(a: Account) {
    a.kind in {Revenue, Expense, Cogs}
  }

  // The balance on the account's normal side.
  function NormalBalance(a: Account, debit: real, credit: real): real {
    if a.debitNormal then debit - credit else credit - debit
  }

  function ClosingLine(chart: seq<Account>, lines: seq<Line>, a: AccountId): seq<Line>
    requires a < |chart|
  {
    var balance := NormalBalance(chart[a], DebitsOf(lines, a), CreditsOf(lines, a));
    if !Temporary(chart[a]) || balance == 0.0 then []
    else if chart[a].debitNormal then [Line(a, 0.0, balance)]
    else [Line(a, balance, 0.0)]
  }

  // The closing lines of the first n accounts.
  function ClosingLines(chart: seq<Account>, lines: seq<Line>, n: nat): seq<Line>
    requires n <= |chart|
  {
    if n == 0 then [] else ClosingLines(chart, lines, n - 1) + ClosingLine(chart, lines, n - 1)
  }

  // What they earn: credits over debits of the temporary accounts.
  function NetIncome(chart: seq<Account>, lines: seq<Line>, n: nat): real
    requires n <= |chart|
  {
    if n == 0 then 0.0
    else NetIncome(chart, lines, n - 1) - if Temporary(chart[n - 1]) then Net(lines, n - 1) else 0.0
  }

  predicate IsRetainedEarnings(a: Account) {
    a.kind.Equity? && |a.code| > 0 && a.code[0] == '3'
  }

  function RetainedEarnings(chart: seq<Account>): (r: nat)
    ensures r <= |chart|
    ensures r < |chart| ==> IsRetainedEarnings(chart[r])
    ensures forall i :: 0 <= i < r ==> !IsRetainedEarnings(chart[i])
  {
    if chart == [] then 0 else
      var k := |chart| - 1;
      var r := RetainedEarnings(chart[..k]);
      if r < k || IsRetainedEarnings(chart[k]) then r else k + 1
  }

  function IncomeLine(account: AccountId, netIncome: real): Line {
    Line(account, if netIncome < 0.0 then -netIncome else 0.0, if netIncome > 0.0 then netIncome else 0.0)
  }

  // The entry that closing a period posts, if it posts one.
  function ClosingEntry(chart: seq<Account>, entries: seq<Entry>, p: nat): Option<Entry> {
    var lines := PostedLines(entries, p);
    var income := NetIncome(chart, lines, |chart|);
    var retained := RetainedEarnings(chart);
    if retained == |chart| || income == 0.0 then None
    else Some(NewEntry(p, CLOSING, p + 1, true, ClosingLines(chart, lines, |chart|) + [IncomeLine(retained, income)]))
  }

  function Close(setup: Setup, books: Books, p: nat): Result<Books, LedgerError> {
    if p >= |books.periods| then Err(PeriodNotFound) else
      var entry := ClosingEntry(setup.chart, books.entries, p);
      Ok(Books(books.periods[p := books.periods[p].(status := Closed)],
               books.entries + if entry.Some? then [entry.value] else []))
  }

  // -------------------------------------------------------------------- runs

  datatype Step =
    | PostStep(data: PostData)
    | EventStep(event: Event)
    | ManualStep(refType: string, refId: nat, lines: seq<Line>)
    | ReverseStep(id: nat)
    | CloseStep(period: nat)
    | PeriodStep(change: FiscalPeriods.Step)

  function Attempt(setup: Setup, books: Books, step: Step): Result<Books, LedgerError> {
    match step
    case PostStep(d) => Post(setup, books, d)
    case EventStep(e) =>
      (match Process(setup, books, e)
       case Ok(r) => Ok(r.0)
       case Err(err) => Err(err))
    case ManualStep(refType, refId, lines) => Manual(setup, books, refType, refId, lines)
    case ReverseStep(id) => Reverse(books, id)
    case CloseStep(p) => Close(setup, books, p)
    case PeriodStep(change) =>
      match FiscalPeriods.Attempt(books.periods, change)
      case Ok(periods) => Ok(books.(periods := periods))
      case Err(e) => Err(BadPeriod(e))
  }

  // A failed call is rolled back.
  function After(setup: Setup, books: Books, step: Step): Books {
    match Attempt(setup, books, step)
    case Ok(next) => next
    case Err(_) => books
  }

  function Run(setup: Setup, books: Books, steps: seq<Step>): Books {
    if steps == [] then books
    else After(setup, Run(setup, books, steps[..|steps| - 1]), steps[|steps| - 1])
  }

  lemma {:induction false} RunOneMore(setup: Setup, books: Books, steps: seq<Step>, step: Step)
    ensures Run(setup, books, steps + [step]) == After(setup, Run(setup, books, steps), step)
  {
    assert (steps + [step])[..|steps|] == steps;
  }

  lemma {:induction false} RunOfThree(setup: Setup, books: Books, a: Step, b: Step, c: Step)
    ensures Run(setup, books, [a, b]) == After(setup, After(setup, books, a), b)
    ensures Run(setup, books, [a, b, c]) == After(setup, Run(setup, books, [a, b]), c)
  {
    assert [a, b, c][..2] == [a, b] && [a, b][..1] == [a] && [a][..0] == [];
    assert Run(setup, books, [a]) == After(setup, books, a);
  }

  lemma {:induction false} PostedLinesOfOne(e: Entry, p: nat)
    ensures PostedLines([e], p) == if e.period == p && e.status.Posted? then e.lines else []
  {
    assert [e][..0] == [];
  }

  lemma {:induction false} PostedLinesOfMore(entries: seq<Entry>, e: Entry, p: nat)
    requires e.period == p && e.status.Posted?
    ensures PostedLines(entries + [e], p) == PostedLines(entries, p) + e.lines
  {
    assert (entries + [e])[..|entries|] == entries;
  }
}
