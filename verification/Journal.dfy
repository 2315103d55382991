// Journal lines, their totals, and the two balance tests.

module Journal {
  import opened Common

  type AccountId = nat

  datatype Line = Line(account: AccountId, debit: real, credit: real)

  // ------------------------------------------------------------------ totals

  function Debits(lines: seq<Line>): real {
    if lines == [] then 0.0 else Debits(lines[..|lines| - 1]) + lines[|lines| - 1].debit
  }

  function Credits(lines: seq<Line>): real {
    if lines == [] then 0.0 else Credits(lines[..|lines| - 1]) + lines[|lines| - 1].credit
  }

  function Excess(lines: seq<Line>): real {
    Debits(lines) - Credits(lines)
  }

  function DebitsOf(lines: seq<Line>, a: AccountId): real {
    if lines == [] then 0.0 else
      var l := lines[|lines| - 1];
      DebitsOf(lines[..|lines| - 1], a) + if l.account == a then l.debit else 0.0
  }

  function CreditsOf(lines: seq<Line>, a: AccountId): real {
    if lines == [] then 0.0 else
      var l := lines[|lines| - 1];
      CreditsOf(lines[..|lines| - 1], a) + if l.account == a then l.credit else 0.0
  }

  // What the lines add to an account, debits counted positive.
  function Net(lines: seq<Line>, a: AccountId): real {
    DebitsOf(lines, a) - CreditsOf(lines, a)
  }

  lemma {:induction false} TotalsOfConcat(x: seq<Line>, y: seq<Line>, a: AccountId)
    ensures Debits(x + y) == Debits(x) + Debits(y)
    ensures Credits(x + y) == Credits(x) + Credits(y)
    ensures DebitsOf(x + y, a) == DebitsOf(x, a) + DebitsOf(y, a)
    ensures CreditsOf(x + y, a) == CreditsOf(x, a) + CreditsOf(y, a)
  {
    if y == [] {
      assert x + y == x;
    } else {
      assert (x + y)[..|x + y| - 1] == x + y[..|y| - 1];
      TotalsOfConcat(x, y[..|y| - 1], a);
    }
  }

  function Swapped(lines: seq<Line>): (r: seq<Line>)
    ensures |r| == |lines|
    ensures forall i :: 0 <= i < |lines| ==> r[i] == Line(lines[i].account, lines[i].credit, lines[i].debit)
  {
    if lines == [] then [] else
      var l := lines[|lines| - 1];
      Swapped(lines[..|lines| - 1]) + [Line(l.account, l.credit, l.debit)]
  }

  lemma {:induction false} SwapCancels(lines: seq<Line>, a: AccountId)
    ensures Net(lines, a) + Net(Swapped(lines), a) == 0.0
    ensures Debits(Swapped(lines)) == Credits(lines) && Credits(Swapped(lines)) == Debits(lines)
  {
    if lines != [] {
      var k := |lines| - 1;
      SwapCancels(lines[..k], a);
      assert Swapped(lines)[..k] == Swapped(lines[..k]);
    }
  }

  // ------------------------------------------------------------ balance tests

  datatype JournalError = TooFewLines | NegativeAmount | TwoSidedLine | Unbalanced

  function RoundedCents(x: real): int {
    Round(x * 100.0)
  }

  function DebitCents(lines: seq<Line>): int {
    if lines == [] then 0 else DebitCents(lines[..|lines| - 1]) + RoundedCents(lines[|lines| - 1].debit)
  }

  function CreditCents(lines: seq<Line>): int {
    if lines == [] then 0 else CreditCents(lines[..|lines| - 1]) + RoundedCents(lines[|lines| - 1].credit)
  }

  predicate BalancedInCents(lines: seq<Line>) {
    -1 <= DebitCents(lines) - CreditCents(lines) <= 1
  }

  predicate BalancedWithinCent(lines: seq<Line>) {
    AbsReal(Excess(lines)) <= 0.01
  }

  predicate OneSided(l: Line) {
    l.debit >= 0.0 && l.credit >= 0.0 && (l.debit == 0.0 || l.credit == 0.0)
  }

  // validateBalance
  method ValidateBalance(lines: seq<Line>) returns (ok: bool)
    ensures ok == BalancedInCents(lines)
  {
    var debit, credit := 0, 0;
    for i := 0 to |lines|
      invariant debit == DebitCents(lines[..i]) && credit == CreditCents(lines[..i])
    {
      assert lines[..i + 1][..i] == lines[..i];
      debit := debit + RoundedCents(lines[i].debit);
      credit := credit + RoundedCents(lines[i].credit);
    }
    assert lines[..|lines|] == lines;
    ok := -1 <= debit - credit <= 1;
  }

  // validateJournalBalance
  method ValidateJournalBalance(lines: seq<Line>) returns (r: Option<JournalError>)
    ensures r.None? <==>
      |lines| >= 2 && (forall i :: 0 <= i < |lines| ==> OneSided(lines[i])) && BalancedWithinCent(lines)
    ensures r == JournalCheck(lines)
  {
    if |lines| < 2 {
      return Some(TooFewLines);
    }
    for i := 0 to |lines|
      invariant forall k :: 0 <= k < i ==> OneSided(lines[k])
      invariant FirstBadLine(lines) == FirstBadLine(lines[i..])
    {
      assert lines[i..][1..] == lines[i + 1..];
      if lines[i].debit < 0.0 || lines[i].credit < 0.0 {
        return Some(NegativeAmount);
      }
      if lines[i].debit > 0.0 && lines[i].credit > 0.0 {
        return Some(TwoSidedLine);
      }
    }
    return if BalancedWithinCent(lines) then None else Some(Unbalanced);
  }

  // The complaint about the first line that is negative or two-sided.
  function FirstBadLine(lines: seq<Line>): (r: Option<JournalError>)
    ensures r.None? <==> forall i :: 0 <= i < |lines| ==> OneSided(lines[i])
  {
    if lines == [] then None
    else if lines[0].debit < 0.0 || lines[0].credit < 0.0 then Some(NegativeAmount)
    else if lines[0].debit > 0.0 && lines[0].credit > 0.0 then Some(TwoSidedLine)
    else FirstBadLine(lines[1..])
  }

  function JournalCheck(lines: seq<Line>): Option<JournalError> {
    if |lines| < 2 then Some(TooFewLines)
    else if FirstBadLine(lines).Some? then FirstBadLine(lines)
    else if BalancedWithinCent(lines) then None
    else Some(Unbalanced)
  }

  // Which complaint validateJournalBalance makes: too few lines first, then the
  // first line that is negative or two-sided, then the balance.
  lemma {:induction false} FirstFault(lines: seq<Line>)
    ensures match FirstBadLine(lines)
            case None => true
            case Some(e) =>
              exists k :: 0 <= k < |lines| && (forall i :: 0 <= i < k ==> OneSided(lines[i])) && Fault(lines[k], e)
  {
    if lines != [] && FirstBadLine(lines) == FirstBadLine(lines[1..]) && FirstBadLine(lines).Some?
       && OneSided(lines[0]) {
      FirstFault(lines[1..]);
      var e := FirstBadLine(lines).value;
      var k :| 0 <= k < |lines[1..]| && (forall i :: 0 <= i < k ==> OneSided(lines[1..][i])) && Fault(lines[1..][k], e);
      assert forall i :: 0 <= i < k + 1 ==> OneSided(lines[i]) by {
        forall i | 0 < i < k + 1 ensures OneSided(lines[i]) { assert lines[1..][i - 1] == lines[i]; }
      }
      assert Fault(lines[k + 1], e);
    } else if FirstBadLine(lines).Some? {
      assert Fault(lines[0], FirstBadLine(lines).value);
    }
  }

  ghost predicate Fault(l: Line, e: JournalError) {
    || (e == NegativeAmount && (l.debit < 0.0 || l.credit < 0.0))
    || (e == TwoSidedLine && l.debit > 0.0 && l.credit > 0.0)
  }

  lemma {:induction false} JournalFaults(lines: seq<Line>)
    ensures var r := JournalCheck(lines);
            && (r == Some(TooFewLines) <==> |lines| < 2)
            && (r == Some(Unbalanced) <==> |lines| >= 2 && (forall i :: 0 <= i < |lines| ==> OneSided(lines[i]))
                                           && (Debits(lines) - Credits(lines) > 0.01
                                               || Credits(lines) - Debits(lines) > 0.01))
            && (r in {Some(NegativeAmount), Some(TwoSidedLine)} ==>
                  exists k :: 0 <= k < |lines| && (forall i :: 0 <= i < k ==> OneSided(lines[i]))
                              && Fault(lines[k], r.value))
  {
    FirstFault(lines);
  }

  // --------------------------------------------- how far the cents test reaches

  predicate WholeCents(x: real) {
    (x * 100.0).Floor as real == x * 100.0
  }

  function Fraction(x: real): nat {
    if WholeCents(x) then 0 else 1
  }

  // How many amounts of the lines are not whole cents.
  function Fractions(lines: seq<Line>): nat {
    if lines == [] then 0 else
      var l := lines[|lines| - 1];
      Fractions(lines[..|lines| - 1]) + Fraction(l.debit) + Fraction(l.credit)
  }

  lemma {:induction false} RoundingOf(x: real)
    ensures AbsReal(x * 100.0 - RoundedCents(x) as real) <= Fraction(x) as real / 2.0
  {
    var cents := x * 100.0;
    if WholeCents(x) {
      assert cents.Floor == RoundedCents(x);
    } else {
      assert cents - 0.5 <= RoundedCents(x) as real <= cents + 0.5;
    }
  }

  lemma {:induction false} RoundingError(lines: seq<Line>)
    ensures AbsReal(Excess(lines) * 100.0 - (DebitCents(lines) - CreditCents(lines)) as real)
            <= Fractions(lines) as real / 2.0
  {
    if lines != [] {
      RoundingError(lines[..|lines| - 1]);
      RoundingOf(lines[|lines| - 1].debit);
      RoundingOf(lines[|lines| - 1].credit);
    }
  }

  // How far the lines are out, in cents.
  function OutBy(lines: seq<Line>): real {
    AbsReal(Excess(lines)) * 100.0
  }

  predicate WithinLineBound(lines: seq<Line>) {
    OutBy(lines) <= 1.0 + |lines| as real / 2.0
  }

  // Lines that pass are out by at most one cent plus half a cent for every
  // amount that is not whole cents; hence by 1 + L/2 cents when at most L amounts
  // are not, as when every line is one-sided, and by 1 + L cents for any L lines.
  lemma {:induction false} CentsTestBound(lines: seq<Line>)
    requires BalancedInCents(lines)
    ensures OutBy(lines) <= 1.0 + Fractions(lines) as real / 2.0
    ensures Fractions(lines) <= |lines| ==> WithinLineBound(lines)
    ensures (forall i :: 0 <= i < |lines| ==> OneSided(lines[i])) ==> WithinLineBound(lines)
    ensures OutBy(lines) <= 1.0 + |lines| as real
  {
    RoundingError(lines);
    FewFractions(lines);
  }

  lemma {:induction false} FewFractions(lines: seq<Line>)
    ensures Fractions(lines) <= 2 * |lines|
    ensures (forall i :: 0 <= i < |lines| ==> OneSided(lines[i])) ==> Fractions(lines) <= |lines|
  {
    if lines != [] {
      FewFractions(lines[..|lines| - 1]);
    }
  }

  // Accepted lines that are as far out as their fractions allow: one that rounds
  // to a cent of difference, then lines that round to none, with two fractional
  // amounts or with one.
  function Drifting(twos: nat, ones: nat): seq<Line> {
    if ones > 0 then Drifting(twos, ones - 1) + [Line(0, 0.01, 0.005)]
    else if twos > 0 then Drifting(twos - 1, 0) + [Line(0, 0.0149, 0.005)]
    else [Line(0, 0.0249, 0.005)]
  }

  lemma {:induction false} LineAppended(lines: seq<Line>, l: Line)
    ensures var more := lines + [l];
            && Excess(more) == Excess(lines) + (l.debit - l.credit)
            && DebitCents(more) == DebitCents(lines) + RoundedCents(l.debit)
            && CreditCents(more) == CreditCents(lines) + RoundedCents(l.credit)
            && Fractions(more) == Fractions(lines) + Fraction(l.debit) + Fraction(l.credit)
  {
    assert (lines + [l])[..|lines|] == lines;
  }

  lemma {:induction false} DriftingAmounts()
    ensures RoundedCents(0.01) == 1 && RoundedCents(0.0149) == 1 && RoundedCents(0.0249) == 2
    ensures RoundedCents(0.005) == 1
    ensures Fraction(0.01) == 0 && Fraction(0.0149) == 1 && Fraction(0.0249) == 1 && Fraction(0.005) == 1
  {
  }

  lemma {:induction false} DriftingTotals(twos: nat, ones: nat)
    ensures var lines := Drifting(twos, ones);
            && |lines| == 1 + twos + ones && Fractions(lines) == 2 + 2 * twos + ones
            && DebitCents(lines) - CreditCents(lines) == 1
            && Excess(lines) * 100.0 == 1.99 + 0.99 * twos as real + 0.5 * ones as real
  {
    DriftingAmounts();
    if ones > 0 {
      DriftingTotals(twos, ones - 1);
      LineAppended(Drifting(twos, ones - 1), Line(0, 0.01, 0.005));
    } else if twos > 0 {
      DriftingTotals(twos - 1, 0);
      LineAppended(Drifting(twos - 1, 0), Line(0, 0.0149, 0.005));
    } else {
      assert [] + [Line(0, 0.0249, 0.005)] == Drifting(0, 0);
      LineAppended([], Line(0, 0.0249, 0.005));
    }
  }

  // The bound 1 + L/2 holds of all accepted lists of n lines with f fractional
  // amounts if and only if f <= n.
  lemma {:induction false} LineBoundIff(n: nat, f: nat)
    requires f <= 2 * n
    ensures (forall lines: seq<Line> :: |lines| == n && Fractions(lines) == f && BalancedInCents(lines)
               ==> WithinLineBound(lines))
            <==> f <= n
  {
    if f <= n {
      forall lines: seq<Line> | |lines| == n && Fractions(lines) == f && BalancedInCents(lines)
        ensures WithinLineBound(lines)
      {
        CentsTestBound(lines);
      }
    } else {
      var lines := Drifting(f - n - 1, 2 * n - f);
      DriftingTotals(f - n - 1, 2 * n - f);
      assert |lines| == n && Fractions(lines) == f && BalancedInCents(lines) && !WithinLineBound(lines);
    }
  }

  // The same lines with k lines of zero after them.
  function Padded(lines: seq<Line>, k: nat): seq<Line> {
    if k == 0 then lines else Padded(lines, k - 1) + [Line(0, 0.0, 0.0)]
  }

  lemma {:induction false} PaddedTotals(lines: seq<Line>, k: nat)
    ensures var padded := Padded(lines, k);
            && |padded| == |lines| + k && Fractions(padded) == Fractions(lines) && Excess(padded) == Excess(lines)
            && DebitCents(padded) == DebitCents(lines) && CreditCents(padded) == CreditCents(lines)
  {
    if k > 0 {
      PaddedTotals(lines, k - 1);
      LineAppended(Padded(lines, k - 1), Line(0, 0.0, 0.0));
      assert RoundedCents(0.0) == 0 && Fraction(0.0) == 0;
    }
  }

  // Accepted lines with f fractional amounts, as few lines as that takes, that
  // are out by more than a cent.
  lemma {:induction false} MoreThanCent(f: nat) returns (lines: seq<Line>)
    requires f >= 1
    ensures 2 * |lines| <= f + 1 && Fractions(lines) == f && BalancedInCents(lines) && !BalancedWithinCent(lines)
  {
    if f == 1 {
      lines := [Line(0, 0.0249, 0.01)];
      OneFraction();
    } else {
      var twos, ones := (f - 2) / 2, f % 2;
      lines := Drifting(twos, ones);
      DriftingIsOut(twos, ones);
    }
  }

  lemma {:induction false} DriftingIsOut(twos: nat, ones: nat)
    ensures var lines := Drifting(twos, ones);
            && |lines| == 1 + twos + ones && Fractions(lines) == 2 + 2 * twos + ones
            && BalancedInCents(lines) && !BalancedWithinCent(lines)
  {
    DriftingTotals(twos, ones);
  }

  lemma {:induction false} OneFraction()
    ensures var lines := [Line(0, 0.0249, 0.01)];
            Fractions(lines) == 1 && BalancedInCents(lines) && !BalancedWithinCent(lines)
  {
    LineAppended([], Line(0, 0.0249, 0.01));
    assert [] + [Line(0, 0.0249, 0.01)] == [Line(0, 0.0249, 0.01)];
    assert RoundedCents(0.0249) == 2 && RoundedCents(0.01) == 1 && Fraction(0.0249) == 1 && Fraction(0.01) == 0;
  }

  // The 0.01 of BR-ACC-001 holds of all accepted lists of n lines with f
  // fractional amounts if and only if there are none: whole cents are exactly
  // what makes this test as strict as the other.
  lemma {:induction false} CentBoundIff(n: nat, f: nat)
    requires f <= 2 * n
    ensures (forall lines: seq<Line> :: |lines| == n && Fractions(lines) == f && BalancedInCents(lines)
               ==> BalancedWithinCent(lines))
            <==> f == 0
  {
    if f == 0 {
      forall lines: seq<Line> | |lines| == n && Fractions(lines) == f && BalancedInCents(lines)
        ensures BalancedWithinCent(lines)
      {
        CentsTestBound(lines);
      }
    } else {
      var few := MoreThanCent(f);
      PaddedTotals(few, n - |few|);
      var lines := Padded(few, n - |few|);
      assert |lines| == n && Fractions(lines) == f && BalancedInCents(lines) && !BalancedWithinCent(lines);
    }
  }

  ghost predicate AllWholeCents(lines: seq<Line>) {
    forall i :: 0 <= i < |lines| ==> WholeCents(lines[i].debit) && WholeCents(lines[i].credit)
  }

  lemma {:induction false} NoFractions(lines: seq<Line>)
    requires AllWholeCents(lines)
    ensures Fractions(lines) == 0
  {
    if lines != [] {
      NoFractions(lines[..|lines| - 1]);
    }
  }

  // On whole-cent lines the two balance tests agree.
  lemma {:induction false} TestsAgreeOnWholeCents(lines: seq<Line>)
    requires AllWholeCents(lines)
    ensures BalancedInCents(lines) <==> BalancedWithinCent(lines)
  {
    RoundingError(lines);
    NoFractions(lines);
  }
}
