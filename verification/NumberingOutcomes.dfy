// What a document number looks like, and what becomes of a call.

module NumberingOutcomes {
  import opened Common
  import opened Numbering

  // ----------------------------------------------------------------- the number

  // Each type is written as it is called.
  lemma {:induction false} PrefixNames()
    ensures Prefix(PR) == "PR" && Prefix(PO) == "PO" && Prefix(GR) == "GR" && Prefix(INV) == "INV"
    ensures Prefix(POS) == "POS" && Prefix(RCV) == "RCV" && Prefix(PV) == "PV" && Prefix(JE) == "JE"
    ensures Prefix(SA) == "SA" && Prefix(SOP) == "SOP" && Prefix(SO) == "SO" && Prefix(DO) == "DO"
    ensures Prefix(SR) == "SR" && Prefix(CN) == "CN" && Prefix(DN) == "DN" && Prefix(TO) == "TO"
    ensures Prefix(SHF) == "SHF" && Prefix(PRET) == "PRET"
  {
  }

  ghost predicate AllDigits(s: string) {
    forall i :: 0 <= i < |s| ==> '0' <= s[i] <= '9'
  }

  // The text spells the number in decimal digits.
  ghost predicate Spells(s: string, n: nat) {
    AllDigits(s) && ValueOf(s) == n
  }

  function ValueOf(s: string): int {
    if s == "" then 0 else 10 * ValueOf(s[..|s| - 1]) + (s[|s| - 1] as int - '0' as int)
  }

  lemma {:induction false} ValueIs(s: string)
    requires IsDigits(s)
    ensures ValueOf(s) == Value(s)
  {
    if s != "" {
      ValueIs(s[..|s| - 1]);
    }
  }

  // The counter has five digits, or more if it needs them, and no more zeros than
  // that takes.
  lemma {:induction false} CounterOutcome(n: nat)
    ensures Spells(Printed(n), n)
    ensures |Printed(n)| == 5 || (|Printed(n)| > 5 && Printed(n)[0] != '0')
  {
    ValueOfPrinted(n);
    ValueIs(Printed(n));
    NoLeadingZero(n);
  }

  lemma {:induction false} NoLeadingZero(n: nat)
    ensures n > 0 ==> Decimal(n)[0] != '0'
  {
    if n >= 10 {
      NoLeadingZero(n / 10);
    }
  }

  lemma {:induction false} ValueOfJoin(s: string, t: string)
    requires IsDigits(s) && IsDigits(t)
    ensures Value(s + t) == Value(s) * Power10(|t|) + Value(t)
  {
    if t == "" {
      assert s + t == s;
    } else {
      var k := |t| - 1;
      ValueOfJoin(s, t[..k]);
      NextDigit(s, t);
      OneDigitOn(Value(s), Power10(k), Value(t[..k]), t[k] as nat - '0' as nat);
    }
  }

  lemma {:induction false} NextDigit(s: string, t: string)
    requires IsDigits(s) && IsDigits(t) && t != ""
    ensures Value(s + t) == 10 * Value(s + t[..|t| - 1]) + (t[|t| - 1] as nat - '0' as nat)
    ensures Value(t) == 10 * Value(t[..|t| - 1]) + (t[|t| - 1] as nat - '0' as nat)
    ensures Power10(|t|) == 10 * Power10(|t| - 1)
  {
    assert (s + t)[..|s + t| - 1] == s + t[..|t| - 1];
  }

  // The period is the year, two digits of month and, for POS transactions and
  // shifts, two digits of day.
  lemma {:induction false} PeriodOutcome(t: DocumentType, d: Date)
    requires 1 <= d.month <= 12 && 1 <= d.day <= 31
    ensures var s := BuildPeriod(t, d);
            if t == POS || t == SHF
            then Spells(s, d.year * 10000 + d.month * 100 + d.day) && |s| == |Decimal(d.year)| + 4
            else Spells(s, d.year * 100 + d.month) && |s| == |Decimal(d.year)| + 2
  {
    var y, m, a := Decimal(d.year), Pad(Decimal(d.month), 2), Pad(Decimal(d.day), 2);
    TwoDigits(d.month);
    TwoDigits(d.day);
    ValueOfDecimal(d.year);
    ValueOfJoin(y, m);
    ValueOfJoin(y + m, a);
    assert Power10(2) == 100;
    ValueIs(BuildPeriod(t, d));
  }

  lemma {:induction false} NumberOutcome(t: DocumentType, period: string, n: nat)
    ensures FormatNumber(t, period, n) == Prefix(t) + "-" + period + "-" + Printed(n)
    ensures Prefix(t) != "" && '-' !in Prefix(t)
  {
    PrefixReadsBack(t);
  }

  // --------------------------------------------------------- counters and calls

  // The event counts for the key.
  predicate Counts(sys: System, e: Event, k: Key) {
    e.Increment? && e.i < |sys.callers| && sys.callers[e.i].state.Trying?
    && (sys.callers[e.i].kind, sys.callers[e.i].period) == k
  }

  function Counted(calls: seq<(DocumentType, Date)>, events: seq<Event>, k: Key): nat {
    if events == [] then 0 else
      var n := |events| - 1;
      Counted(calls, events[..n], k) + if Counts(Run(calls, events[..n]), events[n], k) then 1 else 0
  }

  // The counter of a type and period is how often it has been counted: no number
  // is left out.
  lemma {:induction false} CountersAreGapless(calls: seq<(DocumentType, Date)>, events: seq<Event>, k: Key)
    ensures CounterOf(Run(calls, events).counters, k) == Counted(calls, events, k)
  {
    if events != [] {
      CountersAreGapless(calls, events[..|events| - 1], k);
    }
  }

  // In any reachable system, a call that is begun, counted and answered gets the
  // next number of its type and period.
  lemma {:induction false} CallIsAnswered(calls: seq<(DocumentType, Date)>, events: seq<Event>, i: nat)
    requires i < |Run(calls, events).callers| && Run(calls, events).callers[i].state == Idle
    ensures var before := Run(calls, events);
            var after := Run(calls, events + [Begin(i)] + [Increment(i)] + [Answer(i)]);
            var c := before.callers[i];
            && |after.callers| == |before.callers|
            && after.callers[i] == Caller(c.kind, c.period, Returned(Counted(calls, events, (c.kind, c.period)) + 1))
            && forall j :: 0 <= j < |before.callers| && j != i ==> after.callers[j] == before.callers[j]
  {
    var c := Run(calls, events).callers[i];
    CountersAreGapless(calls, events, (c.kind, c.period));
    RunOneMore(calls, events, Begin(i));
    RunOneMore(calls, events + [Begin(i)], Increment(i));
    RunOneMore(calls, events + [Begin(i)] + [Increment(i)], Answer(i));
  }

  // At the start no counter exists and every call is idle, with the period of its
  // date.
  lemma {:induction false} RunOneMore(calls: seq<(DocumentType, Date)>, events: seq<Event>, e: Event)
    ensures var start := Run(calls, []);
            && start.counters == map[] && |start.callers| == |calls|
            && forall i :: 0 <= i < |calls| ==>
                 start.callers[i] == Caller(calls[i].0, BuildPeriod(calls[i].0, calls[i].1), Idle)
    ensures Run(calls, events + [e]) == Step(Run(calls, events), e)
  {
    assert (events + [e])[..|events|] == events;
  }

  // The event ends an attempt of caller i without a number.
  predicate Fails(sys: System, e: Event, i: nat) {
    i < |sys.callers|
    && ((e == Refuse(i) && sys.callers[i].state.Trying?) || (e == Lose(i) && sys.callers[i].state.Counted?))
  }

  function Failures(calls: seq<(DocumentType, Date)>, events: seq<Event>, i: nat): nat {
    if events == [] then 0 else
      var n := |events| - 1;
      Failures(calls, events[..n], i) + if Fails(Run(calls, events[..n]), events[n], i) then 1 else 0
  }

  ghost predicate Attempted(s: State, failures: nat) {
    match s
    case Idle => failures == 0
    case Trying(attempt) => attempt == failures + 1 <= 3
    case Counted(attempt, _) => attempt == failures + 1 <= 3
    case Returned(_) => failures <= 2
    case GaveUp => failures == 3
  }

  // A call tries three times: it gives up exactly after its third failure.
  lemma {:induction false} ThreeAttempts(calls: seq<(DocumentType, Date)>, events: seq<Event>, i: nat)
    requires i < |calls|
    ensures i < |Run(calls, events).callers|
    ensures Attempted(Run(calls, events).callers[i].state, Failures(calls, events, i))
  {
    if events != [] {
      ThreeAttempts(calls, events[..|events| - 1], i);
    }
  }
}
