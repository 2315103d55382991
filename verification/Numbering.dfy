// Document numbers: one counter per document type and period, incremented
// atomically by the database, formatted as TYPE-PERIOD-COUNTER.

module Numbering {
  import opened Common

  datatype DocumentType = PR | PO | GR | INV | POS | RCV | PV | JE | SA | SOP | SO | DO | SR | CN | DN | TO | SHF | PRET

  datatype Date = Date(year: nat, month: nat, day: nat)

  predicate ValidDate(d: Date) {
    1 <= d.month <= 12 && 1 <= d.day <= 31
  }

  // -------------------------------------------------------------------- text

  function Digit(n: nat): char
    requires n < 10
  {
    '0' + n as char
  }

  predicate IsDigits(s: string) {
    forall i :: 0 <= i < |s| ==> '0' <= s[i] <= '9'
  }

  // String(n)
  function Decimal(n: nat): (s: string)
    ensures IsDigits(s) && |s| > 0
  {
    if n < 10 then [Digit(n)] else Decimal(n / 10) + [Digit(n % 10)]
  }

  function Value(s: string): nat
    requires IsDigits(s)
  {
    if s == "" then 0 else 10 * Value(s[..|s| - 1]) + (s[|s| - 1] as nat - '0' as nat)
  }

  // padStart(width, '0')
  function Pad(s: string, width: nat): (r: string)
    ensures |r| == if |s| < width then width else |s|
    ensures IsDigits(s) ==> IsDigits(r)
    decreases width - |s|
  {
    if |s| >= width then s else Pad("0" + s, width)
  }

  lemma {:induction false} ValueOfDecimal(n: nat)
    ensures Value(Decimal(n)) == n
  {
    if n >= 10 {
      ValueOfDecimal(n / 10);
      assert Decimal(n)[..|Decimal(n)| - 1] == Decimal(n / 10);
    } else {
      assert Decimal(n)[..0] == "";
    }
  }

  lemma {:induction false} ValueOfPadded(s: string, width: nat)
    requires IsDigits(s)
    ensures Value(Pad(s, width)) == Value(s)
    decreases width - |s|
  {
    if |s| < width {
      ValueOfPadded("0" + s, width);
      LeadingZero(s);
    }
  }

  lemma {:induction false} LeadingZero(s: string)
    requires IsDigits(s)
    ensures Value("0" + s) == Value(s)
  {
    if s == "" {
      assert ("0" + s)[..0] == "";
    } else {
      LeadingZero(s[..|s| - 1]);
      assert ("0" + s)[..|s|] == "0" + s[..|s| - 1];
    }
  }

  lemma {:induction false} DecimalLength(n: nat, width: nat)
    requires n < Power10(width) && width > 0
    ensures |Decimal(n)| <= width
  {
    if n >= 10 {
      assert width > 1;
      DecimalLength(n / 10, width - 1);
    }
  }

  function Power10(n: nat): (p: nat)
    ensures p >= 1
  {
    if n == 0 then 1 else 10 * Power10(n - 1)
  }

  // ------------------------------------------------------------------- format

  predicate Daily(t: DocumentType) {
    t == POS || t == SHF
  }

  function BuildPeriod(t: DocumentType, d: Date): (s: string)
    ensures IsDigits(s)
  {
    var month := Decimal(d.year) + Pad(Decimal(d.month), 2);
    if Daily(t) then month + Pad(Decimal(d.day), 2) else month
  }

  function Prefix(t: DocumentType): string {
    match t
    case PR => "PR" case PO => "PO" case GR => "GR" case INV => "INV" case POS => "POS" case RCV => "RCV"
    case PV => "PV" case JE => "JE" case SA => "SA" case SOP => "SOP" case SO => "SO" case DO => "DO"
    case SR => "SR" case CN => "CN" case DN => "DN" case TO => "TO" case SHF => "SHF" case PRET => "PRET"
  }

  // The counter as it is printed.
  function Printed(n: nat): (s: string)
    ensures IsDigits(s) && |s| >= 5
  {
    Pad(Decimal(n), 5)
  }

  function FormatNumber(t: DocumentType, period: string, counter: nat): string {
    Prefix(t) + "-" + period + "-" + Printed(counter)
  }

  // ------------------------------------------------------------------ reading

  function DashAt(s: string): (k: nat)
    ensures k <= |s|
    ensures k < |s| ==> s[k] == '-'
    ensures forall i :: 0 <= i < k ==> s[i] != '-'
  {
    if s == "" || s[0] == '-' then 0 else 1 + DashAt(s[1..])
  }

  function TypeOf(prefix: string): Option<DocumentType> {
    match prefix
    case "PR" => Some(PR) case "PO" => Some(PO) case "GR" => Some(GR) case "INV" => Some(INV)
    case "POS" => Some(POS) case "RCV" => Some(RCV) case "PV" => Some(PV) case "JE" => Some(JE)
    case "SA" => Some(SA) case "SOP" => Some(SOP) case "SO" => Some(SO) case "DO" => Some(DO)
    case "SR" => Some(SR) case "CN" => Some(CN) case "DN" => Some(DN) case "TO" => Some(TO)
    case "SHF" => Some(SHF) case "PRET" => Some(PRET)
    case _ => None
  }

  datatype Parsed = Parsed(kind: DocumentType, period: string, counter: nat)

  function Parse(s: string): Option<Parsed> {
    var k := DashAt(s);
    if k == |s| then None else ParseTail(TypeOf(s[..k]), s[k + 1..])
  }

  function ParseTail(kind: Option<DocumentType>, tail: string): Option<Parsed> {
    var m := DashAt(tail);
    if m == |tail| || kind.None? || !IsDigits(tail[m + 1..]) then None
    else Some(Parsed(kind.value, tail[..m], Value(tail[m + 1..])))
  }

  lemma {:induction false} DashAfter(head: string, tail: string)
    requires forall i :: 0 <= i < |head| ==> head[i] != '-'
    ensures DashAt(head + "-" + tail) == |head|
    ensures (head + "-" + tail)[..|head|] == head && (head + "-" + tail)[|head| + 1..] == tail
  {
    var s := head + "-" + tail;
    assert s[|head|] == '-';
    assert forall i :: 0 <= i < |head| ==> s[i] == head[i];
    assert DashAt(s) >= |head|;
  }

  lemma {:induction false} PrefixReadsBack(t: DocumentType)
    ensures TypeOf(Prefix(t)) == Some(t)
    ensures forall i :: 0 <= i < |Prefix(t)| ==> Prefix(t)[i] != '-'
  {
  }

  lemma {:induction false} TailReadsBack(t: DocumentType, period: string, counter: nat)
    requires IsDigits(period)
    ensures ParseTail(Some(t), period + "-" + Printed(counter)) == Some(Parsed(t, period, counter))
  {
    DashAfter(period, Printed(counter));
    ValueOfPrinted(counter);
  }

  // Round trip: type, period and counter are recovered from the number.
  lemma {:induction false} ParseInvertsFormat(t: DocumentType, period: string, counter: nat)
    requires IsDigits(period)
    ensures Parse(FormatNumber(t, period, counter)) == Some(Parsed(t, period, counter))
  {
    var tail := period + "-" + Printed(counter);
    assert FormatNumber(t, period, counter) == Prefix(t) + "-" + tail;
    PrefixReadsBack(t);
    DashAfter(Prefix(t), tail);
    TailReadsBack(t, period, counter);
  }

  lemma {:induction false} FormatIsInjective(t: DocumentType, p: string, n: nat, t': DocumentType, p': string, n': nat)
    requires IsDigits(p) && IsDigits(p') && FormatNumber(t, p, n) == FormatNumber(t', p', n')
    ensures t == t' && p == p' && n == n'
  {
    ParseInvertsFormat(t, p, n);
    ParseInvertsFormat(t', p', n');
  }

  // The period string determines the month, and the day where it has one.
  lemma {:induction false} PeriodIsInjective(t: DocumentType, d: Date, d': Date)
    requires ValidDate(d) && ValidDate(d') && BuildPeriod(t, d) == BuildPeriod(t, d')
    ensures d.year == d'.year && d.month == d'.month && (Daily(t) ==> d.day == d'.day)
  {
    var y, y' := Decimal(d.year), Decimal(d'.year);
    var m, m' := Pad(Decimal(d.month), 2), Pad(Decimal(d'.month), 2);
    var a, a' := Pad(Decimal(d.day), 2), Pad(Decimal(d'.day), 2);
    TwoDigits(d.month);
    TwoDigits(d'.month);
    TwoDigits(d.day);
    TwoDigits(d'.day);
    if Daily(t) {
      SplitTail(y + m, a, y' + m', a');
    }
    SplitTail(y, m, y', m');
    ValueOfDecimal(d.year);
    ValueOfDecimal(d'.year);
  }

  lemma {:induction false} TwoDigits(n: nat)
    requires n < 100
    ensures |Pad(Decimal(n), 2)| == 2 && Value(Pad(Decimal(n), 2)) == n
  {
    assert Power10(2) == 100;
    DecimalLength(n, 2);
    ValueOfPadded(Decimal(n), 2);
    ValueOfDecimal(n);
  }

  lemma {:induction false} SplitTail(a: string, b: string, a': string, b': string)
    requires a + b == a' + b' && |b| == |b'|
    ensures a == a' && b == b'
  {
    assert |a| == |a'|;
    assert a == (a + b)[..|a|] && a' == (a' + b')[..|a|];
    assert b == (a + b)[|a|..] && b' == (a' + b')[|a|..];
  }

  // ----------------------------------------------------------- order of issue

  // The order JavaScript compares strings by.
  predicate Before(s: string, t: string) {
    if t == "" then false
    else if s == "" then true
    else if s[0] != t[0] then s[0] < t[0]
    else Before(s[1..], t[1..])
  }

  lemma {:induction false} BeforeWithPrefix(head: string, s: string, t: string)
    ensures Before(head + s, head + t) <==> Before(s, t)
  {
    if head == "" {
      assert head + s == s && head + t == t;
    } else {
      assert (head + s)[1..] == head[1..] + s && (head + t)[1..] == head[1..] + t;
      BeforeWithPrefix(head[1..], s, t);
    }
  }

  lemma {:induction false} ValueSplit(s: string)
    requires IsDigits(s) && s != ""
    ensures Value(s) == (s[0] as nat - '0' as nat) * Power10(|s| - 1) + Value(s[1..])
    ensures Value(s[1..]) < Power10(|s| - 1)
  {
    if |s| == 1 {
      assert s[..0] == "" && s[1..] == "";
    } else {
      var k := |s| - 1;
      ValueSplit(s[..k]);
      assert s[..k][1..] == s[1..][..k - 1];
      assert s[1..][|s[1..]| - 1] == s[k];
      OneDigitOn(s[0] as nat - '0' as nat, Power10(k - 1), Value(s[1..][..k - 1]), s[k] as nat - '0' as nat);
    }
  }

  lemma {:induction false} OneDigitOn(a: nat, p: nat, v: nat, d: nat)
    ensures 10 * (a * p + v) + d == a * (10 * p) + (10 * v + d)
  {
  }

  // Digit strings of one length compare as the numbers they spell.
  lemma {:induction false} BeforeIsLess(s: string, t: string)
    requires IsDigits(s) && IsDigits(t) && |s| == |t|
    ensures Before(s, t) <==> Value(s) < Value(t)
  {
    if s != "" {
      ValueSplit(s);
      ValueSplit(t);
      BeforeIsLess(s[1..], t[1..]);
      if s[0] < t[0] {
        HigherDigitWins(s, t);
      } else if t[0] < s[0] {
        HigherDigitWins(t, s);
      }
    }
  }

  lemma {:induction false} HigherDigitWins(s: string, t: string)
    requires IsDigits(s) && IsDigits(t) && |s| == |t| > 0 && s[0] < t[0]
    ensures Value(s) < Value(t)
  {
    ValueSplit(s);
    ValueSplit(t);
    HigherLeads(s[0] as nat - '0' as nat, t[0] as nat - '0' as nat, Power10(|s| - 1), Value(s[1..]), Value(t[1..]));
  }

  lemma {:induction false} HigherLeads(a: nat, b: nat, p: nat, x: nat, y: nat)
    requires a < b && x < p
    ensures a * p + x < b * p + y
  {
    assert (a + 1) * p <= b * p;
  }

  // Against a longer string only its head of the same length matters, and a
  // proper prefix comes first.
  lemma {:induction false} BeforeByHead(s: string, t: string)
    requires |s| <= |t|
    ensures Before(s, t) <==> Before(s, t[..|s|]) || (s == t[..|s|] && |s| < |t|)
    ensures Before(t, s) <==> Before(t[..|s|], s)
  {
    if s != "" {
      BeforeByHead(s[1..], t[1..]);
      assert t[..|s|][1..] == t[1..][..|s| - 1];
      assert s == t[..|s|] <==> s[0] == t[0] && s[1..] == t[1..][..|s| - 1];
    }
  }

  lemma {:induction false} SameDigits(s: string, t: string)
    requires IsDigits(s) && IsDigits(t) && |s| == |t| && Value(s) == Value(t)
    ensures s == t
  {
    if s != "" {
      SameDigits(s[..|s| - 1], t[..|s| - 1]);
      assert s == s[..|s| - 1] + [s[|s| - 1]] && t == t[..|s| - 1] + [t[|s| - 1]];
    }
  }

  // The leading digits and the rest of a number.
  lemma {:induction false} ValueOfHead(s: string, k: nat)
    requires IsDigits(s) && k <= |s|
    ensures Value(s) == Value(s[..k]) * Power10(|s| - k) + Value(s[k..])
    ensures Value(s[k..]) < Power10(|s| - k)
  {
    if k == |s| {
      assert s[..k] == s;
    } else {
      var n := |s| - 1;
      ValueOfHead(s[..n], k);
      assert s[..n][..k] == s[..k] && s[..n][k..] == s[k..][..n - k];
      assert s[k..][|s[k..]| - 1] == s[n];
      OneDigitOn(Value(s[..k]), Power10(n - k), Value(s[k..][..n - k]), s[n] as nat - '0' as nat);
    }
  }

  // Comparing with a head is comparing with the whole.
  lemma {:induction false} HeadOrder(head: nat, p: nat, rest: nat, x: nat)
    requires rest < p
    ensures x <= head <==> x * p <= head * p + rest
  {
    if x <= head {
      assert x * p <= head * p;
    } else {
      assert x * p >= (head + 1) * p;
    }
  }

  // How many digits the printed counter takes.
  function Width(n: nat): (w: nat)
    ensures w >= 5
  {
    |Printed(n)|
  }

  lemma {:induction false} ValueOfPrinted(n: nat)
    ensures Value(Printed(n)) == n
  {
    ValueOfPadded(Decimal(n), 5);
    ValueOfDecimal(n);
  }

  lemma {:induction false} DecimalTooLong(n: nat, width: nat)
    requires n >= Power10(width)
    ensures |Decimal(n)| > width
  {
    if width > 0 {
      assert n >= 10;
      DecimalTooLong(n / 10, width - 1);
    }
  }

  // Five digits hold a counter up to 99999.
  lemma {:induction false} WidthIsFive(n: nat)
    ensures Width(n) == 5 <==> n <= 99999
  {
    assert Power10(3) == 1000 && Power10(5) == 100000;
    if n <= 99999 {
      DecimalLength(n, 5);
    } else {
      DecimalTooLong(n, 5);
    }
  }

  // Main theorem on order: within a type and period, for any two counters, the
  // narrower one is compared as if filled up with zeros behind.
  lemma {:induction false} StringOrderIff(t: DocumentType, period: string, m: nat, n: nat)
    ensures Before(FormatNumber(t, period, m), FormatNumber(t, period, n))
            <==> if Width(m) < Width(n) then m * Power10(Width(n) - Width(m)) <= n
                 else m < n * Power10(Width(m) - Width(n))
  {
    var a, b := Printed(m), Printed(n);
    BeforeWithPrefix(Prefix(t) + "-" + period + "-", a, b);
    ValueOfPrinted(m);
    ValueOfPrinted(n);
    if |a| < |b| {
      ShorterBeforeIff(a, b);
    } else {
      LongerBeforeIff(a, b);
    }
  }

  lemma {:induction false} ShorterBeforeIff(a: string, b: string)
    requires IsDigits(a) && IsDigits(b) && |a| < |b|
    ensures Before(a, b) <==> Value(a) * Power10(|b| - |a|) <= Value(b)
  {
    var head := b[..|a|];
    BeforeByHead(a, b);
    BeforeIsLess(a, head);
    if Value(a) == Value(head) { SameDigits(a, head); }
    ValueOfHead(b, |a|);
    HeadOrder(Value(head), Power10(|b| - |a|), Value(b[|a|..]), Value(a));
  }

  lemma {:induction false} LongerBeforeIff(a: string, b: string)
    requires IsDigits(a) && IsDigits(b) && |a| >= |b|
    ensures Before(a, b) <==> Value(a) < Value(b) * Power10(|a| - |b|)
  {
    var head := a[..|b|];
    BeforeByHead(b, a);
    BeforeIsLess(head, b);
    ValueOfHead(a, |b|);
    HeadOrder(Value(head), Power10(|a| - |b|), Value(a[|b|..]), Value(b));
  }

  // String order is issue order up to 99999 ...
  lemma {:induction false} StringOrderIsIssueOrder(t: DocumentType, period: string, m: nat, n: nat)
    requires m <= 99999 && n <= 99999
    ensures Before(FormatNumber(t, period, m), FormatNumber(t, period, n)) <==> m < n
  {
    StringOrderIff(t, period, m, n);
    WidthIsFive(m);
    WidthIsFive(n);
    assert Power10(0) == 1;
  }

  // ... and no further: it is the order of all counters up to a bound exactly
  // when the bound is at most 99999.  Number 100000 is the first to sort early.
  lemma {:induction false} OrderHoldsIff(t: DocumentType, period: string, bound: nat)
    ensures (forall m: nat, n: nat :: m <= bound && n <= bound ==>
               (Before(FormatNumber(t, period, m), FormatNumber(t, period, n)) <==> m < n))
            <==> bound <= 99999
  {
    if bound <= 99999 {
      forall m: nat, n: nat | m <= bound && n <= bound
        ensures Before(FormatNumber(t, period, m), FormatNumber(t, period, n)) <==> m < n
      {
        StringOrderIsIssueOrder(t, period, m, n);
      }
    } else {
      OrderBreaksAt100000(t, period);
    }
  }

  lemma {:induction false} OrderBreaksAt100000(t: DocumentType, period: string)
    ensures Before(FormatNumber(t, period, 100000), FormatNumber(t, period, 99999))
  {
    StringOrderIff(t, period, 100000, 99999);
    WidthIsFive(100000);
    WidthIsFive(99999);
    assert Power10(1) == 10 && Power10(3) == 1000 && Power10(6) == 1000000;
    DecimalLength(100000, 6);
    assert Width(100000) == 6;
  }

  // ------------------------------------------------------------------ issuing

  type Key = (DocumentType, string)

  const MAX_RETRIES := 3

  // How one attempt ends: the upsert fails and counts nothing, it counts but its
  // result is lost, or its result arrives.
  datatype Ending = Refused | Lost | Arrived

  function Increments(endings: seq<Ending>): nat {
    if endings == [] then 0
    else match endings[0]
      case Refused => Increments(endings[1..])
      case Lost => 1 + Increments(endings[1..])
      case Arrived => 1
  }

  function CounterOf(counters: map<Key, nat>, k: Key): nat {
    if k in counters then counters[k] else 0
  }

  class NumberingService {
    var counters: map<Key, nat>

    constructor ()
      ensures counters == map[]
    {
      counters := map[];
    }

    method AtomicIncrement(k: Key) returns (n: nat)
      modifies this
      ensures counters == old(counters)[k := n] && n == CounterOf(old(counters), k) + 1
    {
      n := CounterOf(counters, k) + 1;
      counters := counters[k := n];
    }

    // Retries until a result arrives; every counted attempt uses up a number.
    method Generate(t: DocumentType, date: Date, endings: seq<Ending>) returns (number: Option<string>)
      requires |endings| == 3
      modifies this
      ensures var k := (t, BuildPeriod(t, date));
              var last := CounterOf(old(counters), k) + Increments(endings);
              && CounterOf(counters, k) == last
              && (forall k' :: k' != k ==> CounterOf(counters, k') == CounterOf(old(counters), k'))
              && number == if Arrived in endings then Some(FormatNumber(t, k.1, last)) else None
    {
      var k := (t, BuildPeriod(t, date));
      for attempt := 0 to MAX_RETRIES
        invariant Arrived !in endings[..attempt]
        invariant CounterOf(counters, k) + Increments(endings[attempt..])
          == CounterOf(old(counters), k) + Increments(endings)
        invariant forall k' :: k' != k ==> CounterOf(counters, k') == CounterOf(old(counters), k')
      {
        assert endings[attempt..][1..] == endings[attempt + 1..];
        if !endings[attempt].Refused? {
          var n := AtomicIncrement(k);
          if endings[attempt].Arrived? {
            return Some(FormatNumber(t, k.1, n));
          }
        }
      }
      return None;
    }
  }

  // --------------------------------------------------- interleaved generate calls

  datatype State =
    | Idle
    | Trying(attempt: nat)
    | Counted(attempt: nat, counter: nat)
    | Returned(counter: nat)
    | GaveUp

  datatype Caller = Caller(kind: DocumentType, period: string, state: State)

  datatype System = System(counters: map<Key, nat>, callers: seq<Caller>)

  datatype Event = Begin(i: nat) | Increment(i: nat) | Refuse(i: nat) | Answer(i: nat) | Lose(i: nat)

  function KeyOf(c: Caller): Key {
    (c.kind, c.period)
  }

  function NumberOf(c: Caller): string
    requires c.state.Returned?
  {
    FormatNumber(c.kind, c.period, c.state.counter)
  }

  function Enter(sys: System, i: nat, state: State): System
    requires i < |sys.callers|
  {
    sys.(callers := sys.callers[i := sys.callers[i].(state := state)])
  }

  function Retry(attempt: nat): State {
    if attempt < MAX_RETRIES then Trying(attempt + 1) else GaveUp
  }

  function Step(sys: System, e: Event): System {
    if e.i >= |sys.callers| then sys else
      var c := sys.callers[e.i];
      match (e, c.state)
      case (Begin(i), Idle) => Enter(sys, i, Trying(1))
      case (Increment(i), Trying(attempt)) =>
        var next := CounterOf(sys.counters, KeyOf(c)) + 1;
        Enter(sys, i, Counted(attempt, next)).(counters := sys.counters[KeyOf(c) := next])
      case (Refuse(i), Trying(attempt)) => Enter(sys, i, Retry(attempt))
      case (Answer(i), Counted(_, counter)) => Enter(sys, i, Returned(counter))
      case (Lose(i), Counted(attempt, _)) => Enter(sys, i, Retry(attempt))
      case _ => sys
  }

  function Start(calls: seq<(DocumentType, Date)>): System {
    System(map[], seq(|calls|, i requires 0 <= i < |calls| =>
      Caller(calls[i].0, BuildPeriod(calls[i].0, calls[i].1), Idle)))
  }

  function Run(calls: seq<(DocumentType, Date)>, events: seq<Event>): System {
    if events == [] then Start(calls) else Step(Run(calls, events[..|events| - 1]), events[|events| - 1])
  }

  predicate HasCounter(c: Caller) {
    c.state.Counted? || c.state.Returned?
  }

  // Counters in use were handed out, and never twice for one type and period.
  ghost predicate Fresh(sys: System) {
    && (forall i :: 0 <= i < |sys.callers| ==> IsDigits(sys.callers[i].period))
    && (forall i :: 0 <= i < |sys.callers| && HasCounter(sys.callers[i]) ==>
          sys.callers[i].state.counter <= CounterOf(sys.counters, KeyOf(sys.callers[i])))
    && (forall i, j :: 0 <= i < j < |sys.callers| && HasCounter(sys.callers[i]) && HasCounter(sys.callers[j])
          ==> KeyOf(sys.callers[i]) != KeyOf(sys.callers[j])
              || sys.callers[i].state.counter != sys.callers[j].state.counter)
  }

  lemma {:induction false} StepKeepsFresh(sys: System, e: Event)
    requires Fresh(sys)
    ensures Fresh(Step(sys, e))
  {
  }

  lemma {:induction false} RunsKeepFresh(calls: seq<(DocumentType, Date)>, events: seq<Event>)
    ensures Fresh(Run(calls, events))
  {
    if events != [] {
      RunsKeepFresh(calls, events[..|events| - 1]);
      StepKeepsFresh(Run(calls, events[..|events| - 1]), events[|events| - 1]);
    }
  }

  // Main theorem: whatever the interleaving, and whatever attempts count and are
  // then lost, no two calls are answered with the same number.
  lemma {:induction false} NumbersAreDistinct(calls: seq<(DocumentType, Date)>, events: seq<Event>, i: nat, j: nat)
    requires var callers := Run(calls, events).callers;
             i < j < |callers| && callers[i].state.Returned? && callers[j].state.Returned?
    ensures NumberOf(Run(calls, events).callers[i]) != NumberOf(Run(calls, events).callers[j])
  {
    RunsKeepFresh(calls, events);
    var a, b := Run(calls, events).callers[i], Run(calls, events).callers[j];
    if NumberOf(a) == NumberOf(b) {
      FormatIsInjective(a.kind, a.period, a.state.counter, b.kind, b.period, b.state.counter);
    }
  }
}
