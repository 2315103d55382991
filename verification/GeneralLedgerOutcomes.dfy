// When each call on the general ledger goes through, and exactly what it stores.

module GeneralLedgerOutcomes {
  import opened Common
  import FiscalPeriods
  import opened Journal
  import opened GeneralLedger
  import opened PeriodClosing

  // The call stores one more POSTED entry, with the totals of its lines, and
  // changes nothing else.
  ghost predicate Stores(books: Books, r: Result<Books, LedgerError>, period: nat, refType: string, refId: nat,
                         auto: bool, lines: seq<Line>)
  {
    r == Ok(Books(books.periods, books.entries
      + [Entry(period, refType, refId, auto, Posted, lines, Debits(lines), Credits(lines))]))
  }

  ghost predicate KnownAccounts(setup: Setup, lines: seq<Line>) {
    forall i :: 0 <= i < |lines| ==> lines[i].account < |setup.chart|
  }

  // ----------------------------------------------------------------- posting

  // The named period, if it is not closed; else the OPEN one that starts first.
  ghost predicate TakesPeriod(periods: seq<FiscalPeriods.Period>, named: Option<nat>, p: nat) {
    && p < |periods|
    && match named
       case Some(q) => p == q && !periods[p].status.Closed?
       case None =>
         && periods[p].status.Open?
         && (forall i :: 0 <= i < p && periods[i].status.Open? ==> periods[p].start < periods[i].start)
         && (forall i :: p < i < |periods| && periods[i].status.Open? ==> periods[p].start <= periods[i].start)
  }

  // The account with that id, or the first one with that code.
  ghost predicate Names(chart: seq<Account>, r: AccountRef, a: AccountId) {
    && a < |chart|
    && match r
       case Id(id) => a == id
       case Code(code) => chart[a].code == code && forall i :: 0 <= i < a ==> chart[i].code != code
  }

  // The given amounts on the accounts that the references name.
  ghost predicate PostsLines(setup: Setup, d: PostData, lines: seq<Line>) {
    && |lines| == |d.amounts|
    && forall i :: 0 <= i < |lines| ==>
         && lines[i].debit == d.amounts[i].debit && lines[i].credit == d.amounts[i].credit
         && if i < |d.refs| then Names(setup.chart, d.refs[i], lines[i].account)
            else lines[i].account == d.amounts[i].account < |setup.chart|
  }

  ghost predicate Acceptable(lines: seq<Line>) {
    && |lines| >= 2
    && (forall i :: 0 <= i < |lines| ==>
          && lines[i].debit >= 0.0 && lines[i].credit >= 0.0
          && (lines[i].debit == 0.0 || lines[i].credit == 0.0))
    && -0.01 <= Debits(lines) - Credits(lines) <= 0.01
  }

  ghost predicate Posts(setup: Setup, books: Books, d: PostData, p: nat, lines: seq<Line>) {
    TakesPeriod(books.periods, d.period, p) && PostsLines(setup, d, lines) && Acceptable(lines)
  }

  // A posting goes through exactly when there is a period to take it, every
  // account is known, and the lines are two or more, one-sided and balanced to a
  // cent; it then stores these lines in that period.
  lemma {:induction false} PostOutcome(setup: Setup, books: Books, d: PostData)
    ensures var r := Attempt(setup, books, PostStep(d));
            && (r.Ok? <==> exists p: nat, lines: seq<Line> :: Posts(setup, books, d, p, lines))
            && (forall p: nat, lines: seq<Line> :: Posts(setup, books, d, p, lines) ==>
                  Stores(books, r, p, d.refType, d.refId, d.auto, lines))
  {
    forall p: nat, lines: seq<Line> | Posts(setup, books, d, p, lines)
      ensures Stores(books, Post(setup, books, d), p, d.refType, d.refId, d.auto, lines)
    {
      PostsIsStored(setup, books, d, p, lines);
    }
    if Post(setup, books, d).Ok? {
      StoredIsPosts(setup, books, d);
    }
  }

  lemma {:induction false} PostsIsStored(setup: Setup, books: Books, d: PostData, p: nat, lines: seq<Line>)
    requires Posts(setup, books, d, p, lines)
    ensures Stores(books, Post(setup, books, d), p, d.refType, d.refId, d.auto, lines)
  {
    var resolved := ResolvedLines(setup.chart, d.refs, d.amounts);
    EarliestIsFirst(books.periods);
    forall i | 0 <= i < |lines| && i < |d.refs| ensures lines[i].account == resolved[i].account {
      FindCodeIs(setup.chart, d.refs[i], lines[i].account);
    }
    assert lines == resolved;
  }

  lemma {:induction false} StoredIsPosts(setup: Setup, books: Books, d: PostData)
    requires Post(setup, books, d).Ok?
    ensures exists p: nat, lines: seq<Line> :: Posts(setup, books, d, p, lines)
  {
    var lines := ResolvedLines(setup.chart, d.refs, d.amounts);
    var chosen := if d.period.Some? then d.period else EarliestOpen(books.periods);
    EarliestIsFirst(books.periods);
    assert PostsLines(setup, d, lines);
    assert Posts(setup, books, d, chosen.value, lines);
  }

  lemma {:induction false} FindCodeIs(chart: seq<Account>, r: AccountRef, a: AccountId)
    requires Names(chart, r, a)
    ensures Resolve(chart, r) == a
  {
  }

  lemma {:induction false} EarliestIsFirst(periods: seq<FiscalPeriods.Period>)
    ensures match EarliestOpen(periods)
            case Some(p) => TakesPeriod(periods, None, p)
            case None => forall i :: 0 <= i < |periods| ==> !periods[i].status.Open?
    ensures forall p, q :: TakesPeriod(periods, None, p) && TakesPeriod(periods, None, q) ==> p == q
  {
    if periods != [] {
      EarliestIsFirst(periods[..|periods| - 1]);
    }
  }

  // Without a period to take it the posting fails for that reason.
  lemma {:induction false} PostRefusals(setup: Setup, books: Books, d: PostData)
    ensures var r := Attempt(setup, books, PostStep(d));
            && (r == Err(NoOpenPeriod)
                <==> d.period == None && forall i :: 0 <= i < |books.periods| ==> !books.periods[i].status.Open?)
            && (r == Err(PeriodNotFound) <==> d.period.Some? && d.period.value >= |books.periods|)
            && (r == Err(PeriodLocked)
                <==> d.period.Some? && d.period.value < |books.periods|
                     && books.periods[d.period.value].status.Closed?)
  {
    EarliestIsFirst(books.periods);
  }

  // ------------------------------------------------------------ auto-posting

  // The entry answers events with this reference.
  ghost predicate Answers(e: Entry, refType: string, refId: nat) {
    e.status == Posted && e.auto && e.refType == refType && e.refId == refId
  }

  // An event with a reference that an entry answers is not posted again.
  lemma {:induction false} AnsweredEvent(setup: Setup, books: Books, e: Event, i: nat)
    requires e.refId != 0 && i < |books.entries| && Answers(books.entries[i], e.refType, e.refId)
    requires forall k :: 0 <= k < i ==> !Answers(books.entries[k], e.refType, e.refId)
    ensures Process(setup, books, e) == Ok((books, i)) && Attempt(setup, books, EventStep(e)) == Ok(books)
  {
  }

  // The lines an event brings, or else one debit and one credit of its amount on
  // the accounts of its template.
  ghost predicate BringsLines(t: Template, e: Event, lines: seq<Line>) {
    if |e.lines| > 0 then lines == e.lines
    else && |lines| == 2
         && lines[0] == Line(t.debitAccount, e.amount, 0.0) && lines[1] == Line(t.creditAccount, 0.0, e.amount)
  }

  ghost predicate PostsEvent(setup: Setup, books: Books, e: Event, lines: seq<Line>) {
    && e.period < |books.periods| && !books.periods[e.period].status.Closed?
    && e.kind in setup.templates && setup.templates[e.kind].active
    && BringsLines(setup.templates[e.kind], e, lines)
    && BalancedInCents(lines) && KnownAccounts(setup, lines)
  }

  // An event that no entry answers goes through exactly when its period is not
  // closed, its template is active, and its lines balance in cents on known
  // accounts; it then stores these lines.
  lemma {:induction false} EventOutcome(setup: Setup, books: Books, e: Event)
    requires e.refId != 0 ==> forall i :: 0 <= i < |books.entries| ==> !Answers(books.entries[i], e.refType, e.refId)
    ensures var r := Attempt(setup, books, EventStep(e));
            && (r.Ok? <==> exists lines: seq<Line> :: PostsEvent(setup, books, e, lines))
            && (forall lines: seq<Line> :: PostsEvent(setup, books, e, lines) ==>
                  && Stores(books, r, e.period, e.refType, e.refId, true, lines)
                  && Process(setup, books, e) == Ok((r.value, |books.entries|)))
  {
    if e.refId != 0 {
      assert forall i :: 0 <= i < |books.entries| ==> !AutoPosted(books.entries[i], e.refType, e.refId);
      assert FindAuto(books.entries, e.refType, e.refId) == |books.entries|;
    }
    if e.kind in setup.templates {
      var brought := EventLines(setup.templates[e.kind], e);
      forall lines: seq<Line> | PostsEvent(setup, books, e, lines)
        ensures Stores(books, Attempt(setup, books, EventStep(e)), e.period, e.refType, e.refId, true, lines)
        ensures Process(setup, books, e).Ok? && Process(setup, books, e).value.1 == |books.entries|
      {
        assert lines == brought;
      }
      if Process(setup, books, e).Ok? { assert PostsEvent(setup, books, e, brought); }
    }
  }

  // A manual entry goes to the OPEN period stored first, if its lines balance in
  // cents on known accounts.
  lemma {:induction false} ManualOutcome(setup: Setup, books: Books, refType: string, refId: nat, lines: seq<Line>)
    ensures var r := Attempt(setup, books, ManualStep(refType, refId, lines));
            && (r.Ok? <==> (exists p :: 0 <= p < |books.periods| && books.periods[p].status.Open?)
                           && BalancedInCents(lines) && KnownAccounts(setup, lines))
            && (r.Ok? ==>
                  exists p :: && 0 <= p < |books.periods| && books.periods[p].status.Open?
                              && (forall i :: 0 <= i < p ==> !books.periods[i].status.Open?)
                              && Stores(books, r, p, refType, refId, false, lines))
  {
    var p := CurrentPeriod(books.periods);
    if p < |books.periods| { assert books.periods[p].status.Open?; }
  }

  // ---------------------------------------------------------------- reversal

  // The entry with debits and credits of every line exchanged.
  ghost predicate Mirrors(r: Entry, e: Entry) {
    && r.period == e.period && r.totalDebit == e.totalDebit && r.totalCredit == e.totalCredit
    && |r.lines| == |e.lines|
    && forall k :: 0 <= k < |e.lines| ==> r.lines[k] == Line(e.lines[k].account, e.lines[k].credit, e.lines[k].debit)
  }

  // A reversal goes through exactly for a POSTED entry of a period that is not
  // closed; it marks the entry and adds its mirror image under its reference.
  lemma {:induction false} ReverseOutcome(setup: Setup, books: Books, id: nat)
    ensures var r := Attempt(setup, books, ReverseStep(id));
            && (r.Ok? <==> && id < |books.entries| && books.entries[id].status == Posted
                           && books.entries[id].period < |books.periods|
                           && !books.periods[books.entries[id].period].status.Closed?)
            && (r.Ok? ==>
                  && r.value.periods == books.periods && |r.value.entries| == |books.entries| + 1
                  && r.value.entries[id] == books.entries[id].(status := Reversed)
                  && (forall i :: 0 <= i < |books.entries| && i != id ==> r.value.entries[i] == books.entries[i])
                  && var mirror := r.value.entries[|books.entries|];
                     && mirror.status == Posted && mirror.auto && mirror.refType == "JE_REVERSAL"
                     && mirror.refId == id + 1 && Mirrors(mirror, books.entries[id]))
            && (r.Err? ==>
                  r.error == if id >= |books.entries| then EntryNotFound
                             else if books.entries[id].status != Posted then NotPosted
                             else if books.entries[id].period >= |books.periods| then PeriodNotFound
                             else PeriodLocked)
  {
  }

  // ------------------------------------------------------------- period close

  // What the revenue, expense and COGS accounts among the first n carry.
  function ResultOf(chart: seq<Account>, lines: seq<Line>, n: nat): real
    requires n <= |chart|
  {
    if n == 0 then 0.0 else
      ResultOf(chart, lines, n - 1)
      + match chart[n - 1].kind
        case Revenue => Net(lines, n - 1)
        case Expense => Net(lines, n - 1)
        case Cogs => Net(lines, n - 1)
        case _ => 0.0
  }

  ghost predicate ClosesAccount(kind: AccountType) {
    kind == Revenue || kind == Expense || kind == Cogs
  }

  // The first equity account whose code starts with 3.
  ghost predicate TakesResult(chart: seq<Account>, a: nat) {
    && a < |chart| && chart[a].kind == Equity && |chart[a].code| > 0 && chart[a].code[0] == '3'
    && forall i :: 0 <= i < a && chart[i].kind == Equity ==> |chart[i].code| == 0 || chart[i].code[0] != '3'
  }

  lemma {:induction false} ResultIsNetIncome(chart: seq<Account>, lines: seq<Line>, n: nat)
    requires n <= |chart|
    ensures ResultOf(chart, lines, n) == -NetIncome(chart, lines, n)
  {
    if n > 0 {
      ResultIsNetIncome(chart, lines, n - 1);
    }
  }

  lemma {:induction false} RetainedTakesResult(chart: seq<Account>)
    ensures RetainedEarnings(chart) < |chart| ==> TakesResult(chart, RetainedEarnings(chart))
    ensures forall a: nat :: TakesResult(chart, a) ==> a == RetainedEarnings(chart)
  {
    forall a: nat | TakesResult(chart, a) ensures a == RetainedEarnings(chart) {
      assert IsRetainedEarnings(chart[a]);
    }
  }

  // Every revenue, expense and COGS account stands at zero; the result has gone
  // to one equity account, and no other account has changed.
  ghost predicate ResultMoved(chart: seq<Account>, before: seq<Line>, after: seq<Line>) {
    forall a :: 0 <= a < |chart| ==>
      Net(after, a) == if ClosesAccount(chart[a].kind) then 0.0
                       else if TakesResult(chart, a) then Net(before, a) + ResultOf(chart, before, |chart|)
                       else Net(before, a)
  }

  // Closing takes any period there is and marks it CLOSED.  It posts exactly when
  // there is an account to take the result and the result is not zero; one
  // balanced entry then moves the result.
  lemma {:induction false} CloseOutcome(setup: Setup, books: Books, p: nat)
    ensures var r := Attempt(setup, books, CloseStep(p));
            && (r.Ok? <==> p < |books.periods|)
            && (r.Err? ==> r.error == PeriodNotFound)
            && (r.Ok? ==>
                  && |r.value.periods| == |books.periods|
                  && r.value.periods[p] == books.periods[p].(status := FiscalPeriods.Closed)
                  && (forall i :: 0 <= i < |books.periods| && i != p ==> r.value.periods[i] == books.periods[i])
                  && var lines := PostedLines(books.entries, p);
                     if (exists a: nat :: TakesResult(setup.chart, a))
                        && ResultOf(setup.chart, lines, |setup.chart|) != 0.0
                     then PostsClosing(setup, books, r.value.entries, p)
                     else r.value.entries == books.entries)
  {
    ResultIsNetIncome(setup.chart, PostedLines(books.entries, p), |setup.chart|);
    RetainedTakesResult(setup.chart);
    if p < |books.periods| {
      if ClosingEntry(setup.chart, books.entries, p).Some? {
        ClosingIsPosted(setup, books, p);
      } else {
        assert books.entries + [] == books.entries;
      }
    }
  }

  ghost predicate PostsClosing(setup: Setup, books: Books, after: seq<Entry>, p: nat) {
    && |after| == |books.entries| + 1 && books.entries <= after
    && var e := after[|books.entries|];
       && e.period == p && e.refType == "PERIOD_CLOSING" && e.refId == p + 1 && e.auto && e.status == Posted
       && e.totalDebit == Debits(e.lines) == Credits(e.lines) == e.totalCredit && KnownAccounts(setup, e.lines)
       && ResultMoved(setup.chart, PostedLines(books.entries, p), PostedLines(after, p))
       && ClosingLinesFit(setup.chart, PostedLines(books.entries, p), e.lines)
  }

  // The line empties its account from the account's normal side.
  ghost predicate Empties(chart: seq<Account>, lines: seq<Line>, l: Line) {
    && l.account < |chart| && ClosesAccount(chart[l.account].kind)
    && var net := Net(lines, l.account);
       net != 0.0 && l == if chart[l.account].debitNormal then Line(l.account, 0.0, net) else Line(l.account, -net, 0.0)
  }

  // One line for every account that carries something, and the result last: a
  // loss on the debit side, a profit on the credit side.
  ghost predicate ClosingLinesFit(chart: seq<Account>, lines: seq<Line>, closing: seq<Line>) {
    && |closing| > 0
    && (forall k :: 0 <= k < |closing| - 1 ==> Empties(chart, lines, closing[k]))
    && (forall j, k :: 0 <= j < k < |closing| - 1 ==> closing[j].account < closing[k].account)
    && var last, result := closing[|closing| - 1], ResultOf(chart, lines, |chart|);
       && TakesResult(chart, last.account)
       && last.debit == (if result > 0.0 then result else 0.0)
       && last.credit == (if result < 0.0 then -result else 0.0)
  }

  lemma {:induction false} ClosingLineEmpties(chart: seq<Account>, lines: seq<Line>, a: AccountId)
    requires a < |chart|
    ensures var line := ClosingLine(chart, lines, a);
            |line| <= 1 && (line != [] ==> line[0].account == a && Empties(chart, lines, line[0]))
  {
    assert Temporary(chart[a]) <==> ClosesAccount(chart[a].kind);
  }

  ghost predicate AllEmpty(chart: seq<Account>, lines: seq<Line>, closing: seq<Line>, n: nat) {
    && (forall k :: 0 <= k < |closing| ==> Empties(chart, lines, closing[k]) && closing[k].account < n)
    && forall j, k :: 0 <= j < k < |closing| ==> closing[j].account < closing[k].account
  }

  lemma {:induction false} ClosingLinesEmpty(chart: seq<Account>, lines: seq<Line>, n: nat)
    requires n <= |chart|
    ensures AllEmpty(chart, lines, ClosingLines(chart, lines, n), n)
  {
    if n > 0 {
      ClosingLinesEmpty(chart, lines, n - 1);
      ClosingLineEmpties(chart, lines, n - 1);
    }
  }

  lemma {:induction false} ClosingFits(chart: seq<Account>, lines: seq<Line>)
    requires RetainedEarnings(chart) < |chart|
    ensures ClosingLinesFit(chart, lines, AllClosingLines(chart, lines))
  {
    ClosingLinesEmpty(chart, lines, |chart|);
    ResultIsNetIncome(chart, lines, |chart|);
    RetainedTakesResult(chart);
  }

  lemma {:induction false} ClosingIsPosted(setup: Setup, books: Books, p: nat)
    requires p < |books.periods| && ClosingEntry(setup.chart, books.entries, p).Some?
    ensures PostsClosing(setup, books, After(setup, books, CloseStep(p)).entries, p)
  {
    var chart, lines := setup.chart, PostedLines(books.entries, p);
    ClosingEntryIsCorrect(setup, books, p);
    ResultIsNetIncome(chart, lines, |chart|);
    RetainedTakesResult(chart);
    ClosingFits(chart, lines);
    assert ResultMoved(chart, lines, PostedLines(After(setup, books, CloseStep(p)).entries, p)) by {
      forall a | 0 <= a < |chart| ensures Temporary(chart[a]) <==> ClosesAccount(chart[a].kind) {}
    }
  }

  // The lines a period carries are those of its POSTED entries, in order.
  lemma {:induction false} PostedLinesGrow(entries: seq<Entry>, e: Entry, p: nat)
    ensures PostedLines([], p) == []
    ensures PostedLines(entries + [e], p)
            == if e.period == p && e.status == Posted then PostedLines(entries, p) + e.lines
               else PostedLines(entries, p)
  {
    assert (entries + [e])[..|entries|] == entries;
    assert PostedLines(entries, p) + [] == PostedLines(entries, p);
  }

  // ------------------------------------------------------------------ periods

  // A change of the periods leaves the entries alone, and fails as it fails there.
  lemma {:induction false} PeriodChangeOutcome(setup: Setup, books: Books, change: FiscalPeriods.Step)
    ensures Attempt(setup, books, PeriodStep(change))
            == match FiscalPeriods.Attempt(books.periods, change)
               case Ok(periods) => Ok(Books(periods, books.entries))
               case Err(e) => Err(BadPeriod(e))
  {
  }

  // -------------------------------------------------------------------- runs

  // A run takes each step in turn; one that fails changes nothing.
  lemma {:induction false} RunOutcome(setup: Setup, books: Books, steps: seq<Step>, step: Step)
    ensures Run(setup, books, []) == books
    ensures Run(setup, books, steps + [step])
            == match Attempt(setup, Run(setup, books, steps), step)
               case Ok(next) => next
               case Err(_) => Run(setup, books, steps)
  {
    RunOneMore(setup, books, steps, step);
  }
}
