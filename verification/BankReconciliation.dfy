// Matching bank statement lines to posted payments.

module BankReconciliation {
  import opened Common

  const ONE_DAY := 86400000

  datatype PaymentStatus = Draft | PendingApproval | Approved | Posted | Reconciled | Reversed

  datatype Payment = Payment(amount: real, date: int, status: PaymentStatus)

  // `matched` stands for is_matched together with matched_payment_id.
  datatype Statement = Statement(account: nat, amount: real, date: int, matched: Option<nat>)

  datatype Bank = Bank(statements: seq<Statement>, payments: seq<Payment>)

  datatype MatchError = AccountNotFound | StatementNotFound | AlreadyMatched | PaymentNotFound | PaymentNotPosted

  predicate Compatible(s: Statement, p: Payment) {
    p.amount == s.amount && -ONE_DAY <= p.date - s.date <= ONE_DAY
  }

  predicate Fits(s: Statement, p: Payment) {
    Compatible(s, p) && p.status.Posted?
  }

  predicate Candidate(bank: Bank, account: nat, i: nat) {
    i < |bank.statements| && bank.statements[i].account == account && bank.statements[i].matched.None?
  }

  // ---------------------------------------------------------- the greedy rule

  // The position `find` returns, or the length when nothing fits.
  function FirstFit(payments: seq<Payment>, s: Statement): (j: nat)
    ensures j <= |payments|
    ensures j < |payments| ==> Fits(s, payments[j])
    ensures forall k :: 0 <= k < j ==> !Fits(s, payments[k])
  {
    if payments == [] then 0 else
      var n := |payments| - 1;
      var j := FirstFit(payments[..n], s);
      if j < n || Fits(s, payments[n]) then j else n + 1
  }

  function Link(bank: Bank, i: nat, j: nat): Bank
    requires i < |bank.statements| && j < |bank.payments|
  {
    Bank(bank.statements[i := bank.statements[i].(matched := Some(j))],
         bank.payments[j := bank.payments[j].(status := Reconciled)])
  }

  type Pair = (nat, nat)

  datatype Outcome = Outcome(bank: Bank, pairs: seq<Pair>)

  // What the loop has done after the first k statement lines.
  function Greedy(bank: Bank, account: nat, k: nat): (o: Outcome)
    requires k <= |bank.statements|
    ensures |o.bank.statements| == |bank.statements| && |o.bank.payments| == |bank.payments|
  {
    if k == 0 then Outcome(bank, []) else GreedyStep(bank, Greedy(bank, account, k - 1), account, k - 1)
  }

  // One round of the loop: line i takes the first payment that fits.
  function GreedyStep(bank: Bank, o: Outcome, account: nat, i: nat): (next: Outcome)
    requires i < |bank.statements| == |o.bank.statements| && |o.bank.payments| == |bank.payments|
    ensures |next.bank.statements| == |bank.statements| && |next.bank.payments| == |bank.payments|
  {
    if !Candidate(bank, account, i) then o else
      var j := FirstFit(o.bank.payments, bank.statements[i]);
      if j == |bank.payments| then o else Outcome(Link(o.bank, i, j), o.pairs + [(i, j)])
  }

  function AutoMatched(bank: Bank, account: nat): Outcome {
    Greedy(bank, account, |bank.statements|)
  }

  function ManuallyMatched(bank: Bank, i: nat, j: nat): Result<Bank, MatchError> {
    if i >= |bank.statements| then Err(StatementNotFound)
    else if bank.statements[i].matched.Some? then Err(AlreadyMatched)
    else if j >= |bank.payments| then Err(PaymentNotFound)
    else if !bank.payments[j].status.Posted? then Err(PaymentNotPosted)
    else Ok(Link(bank, i, j))
  }

  function CandidateCount(bank: Bank, account: nat, k: nat): nat {
    if k == 0 then 0 else CandidateCount(bank, account, k - 1) + if Candidate(bank, account, k - 1) then 1 else 0
  }

  function AmountOf(bank: Bank, pairs: seq<Pair>): real
    requires forall k :: 0 <= k < |pairs| ==> pairs[k].0 < |bank.statements|
  {
    if pairs == [] then 0.0
    else AmountOf(bank, pairs[..|pairs| - 1]) + bank.statements[pairs[|pairs| - 1].0].amount
  }

  class BankReconciliationService {
    const accounts: set<nat>
    var statements: seq<Statement>
    var payments: seq<Payment>

    constructor (accounts: set<nat>, payments: seq<Payment>)
      ensures this.accounts == accounts && View() == Bank([], payments)
    {
      this.accounts, this.statements, this.payments := accounts, [], payments;
    }

    function View(): Bank
      reads this
    {
      Bank(statements, payments)
    }

    method ImportBankStatement(account: nat, lines: seq<(real, int)>) returns (failure: Option<MatchError>)
      modifies this`statements
      ensures Settles(ImportInto(accounts, old(View()), account, lines), old(View()), View(), failure)
    {
      if account !in accounts {
        return Some(AccountNotFound);
      }
      for i := 0 to |lines|
        invariant View() == Imported(old(View()), account, lines[..i])
      {
        assert lines[..i + 1][..i] == lines[..i];
        statements := statements + [Statement(account, lines[i].0, lines[i].1, None)];
      }
      assert lines[..|lines|] == lines;
      return None;
    }

    method AutoMatch(account: nat) returns (matched: nat, unmatched: int, total: real, ghost pairs: seq<Pair>)
      modifies this
      ensures Outcome(View(), pairs) == AutoMatched(old(View()), account)
      ensures matched == |pairs|
      ensures matched + unmatched == CandidateCount(old(View()), account, |old(statements)|)
      ensures forall k :: 0 <= k < |pairs| ==> pairs[k].0 < |old(statements)|
      ensures total == AmountOf(old(View()), pairs)
    {
      ghost var start := View();
      var lines, considered := statements, 0;
      matched, total, pairs := 0, 0.0, [];
      for i := 0 to |lines|
        invariant lines == start.statements
        invariant Outcome(View(), pairs) == Greedy(start, account, i)
        invariant matched == |pairs|
        invariant considered == CandidateCount(start, account, i)
        invariant forall k :: 0 <= k < |pairs| ==> pairs[k].0 < |start.statements|
        invariant total == AmountOf(start, pairs)
      {
        if lines[i].account == account && lines[i].matched.None? {
          considered := considered + 1;
          var j := 0;
          while j < |payments| && !Fits(lines[i], payments[j])
            invariant j <= |payments|
            invariant forall k :: 0 <= k < j ==> !Fits(lines[i], payments[k])
          {
            j := j + 1;
          }
          if j < |payments| {
            LinkRows(i, j);
            matched, total := matched + 1, total + lines[i].amount;
            assert (pairs + [(i, j)])[..|pairs|] == pairs;
            pairs := pairs + [(i, j)];
          }
        }
      }
      unmatched := considered - matched;
    }

    method ManualMatch(i: nat, j: nat) returns (failure: Option<MatchError>)
      modifies this
      ensures Settles(ManuallyMatched(old(View()), i, j), old(View()), View(), failure)
    {
      if i >= |statements| {
        return Some(StatementNotFound);
      }
      if statements[i].matched.Some? {
        return Some(AlreadyMatched);
      }
      if j >= |payments| {
        return Some(PaymentNotFound);
      }
      if !payments[j].status.Posted? {
        return Some(PaymentNotPosted);
      }
      LinkRows(i, j);
      return None;
    }

    // The two updates that record a match.
    method LinkRows(i: nat, j: nat)
      requires i < |statements| && j < |payments|
      modifies this
      ensures View() == Link(old(View()), i, j)
    {
      statements := statements[i := statements[i].(matched := Some(j))];
      payments := payments[j := payments[j].(status := Reconciled)];
    }
  }

  // ------------------------------------------------------- what a matching is

  // A set of statement/payment pairs that could be matched together.
  ghost predicate ValidMatching(bank: Bank, account: nat, m: set<Pair>) {
    && (forall x :: x in m ==> PairFits(bank, account, x))
    && OneToOne(m)
  }

  ghost function AsSet(pairs: seq<Pair>): set<Pair> {
    set x | x in pairs
  }

  ghost predicate PaidBy(pairs: seq<Pair>, j: nat) {
    exists k :: 0 <= k < |pairs| && pairs[k].1 == j
  }

  ghost predicate LinkedIn(pairs: seq<Pair>, i: nat) {
    exists k :: 0 <= k < |pairs| && pairs[k].0 == i
  }

  // The stored rows say exactly what the pairs say.
  ghost predicate LinesShowPairs(bank: Bank, o: Outcome) {
    forall k :: 0 <= k < |o.pairs| ==> LinkedTo(bank, o.bank, o.pairs[k])
  }

  ghost predicate LinkedTo(before: Bank, after: Bank, x: Pair) {
    x.0 < |before.statements| == |after.statements|
    && after.statements[x.0] == before.statements[x.0].(matched := Some(x.1))
  }

  ghost predicate OtherLinesKept(bank: Bank, o: Outcome) {
    |o.bank.statements| == |bank.statements|
    && forall i :: 0 <= i < |bank.statements| && !LinkedIn(o.pairs, i) ==> o.bank.statements[i] == bank.statements[i]
  }

  ghost predicate PaymentsShowPairs(bank: Bank, o: Outcome) {
    |o.bank.payments| == |bank.payments|
    && forall j :: 0 <= j < |bank.payments| ==>
         o.bank.payments[j] == if PaidBy(o.pairs, j) then bank.payments[j].(status := Reconciled) else bank.payments[j]
  }

  ghost predicate PairFits(bank: Bank, account: nat, x: Pair) {
    Candidate(bank, account, x.0) && x.1 < |bank.payments| && Fits(bank.statements[x.0], bank.payments[x.1])
  }

  ghost predicate PairsFit(bank: Bank, account: nat, pairs: seq<Pair>, k: nat) {
    forall a :: 0 <= a < |pairs| ==> pairs[a].0 < k && PairFits(bank, account, pairs[a])
  }

  ghost predicate PairsApart(pairs: seq<Pair>) {
    forall a, b :: 0 <= a < b < |pairs| ==> pairs[a].0 != pairs[b].0 && pairs[a].1 != pairs[b].1
  }

  // No unmatched line among the first k fits a payment that is still POSTED.
  ghost predicate NothingLeft(bank: Bank, account: nat, k: nat) {
    forall i, j :: 0 <= i < k && Candidate(bank, account, i) && 0 <= j < |bank.payments| ==>
      !Fits(bank.statements[i], bank.payments[j])
  }

  ghost predicate Sound(bank: Bank, account: nat, o: Outcome, k: nat) {
    && LinesShowPairs(bank, o) && OtherLinesKept(bank, o) && PaymentsShowPairs(bank, o)
    && PairsFit(bank, account, o.pairs, k) && PairsApart(o.pairs)
  }

  lemma {:induction false} GreedyIsSound(bank: Bank, account: nat, k: nat)
    requires k <= |bank.statements|
    ensures Sound(bank, account, Greedy(bank, account, k), k)
  {
    if k > 0 {
      GreedyIsSound(bank, account, k - 1);
      StepIsSound(bank, account, k);
    }
  }

  lemma {:induction false} StepIsSound(bank: Bank, account: nat, k: nat)
    requires 0 < k <= |bank.statements| && Sound(bank, account, Greedy(bank, account, k - 1), k - 1)
    ensures Sound(bank, account, Greedy(bank, account, k), k)
  {
    var o, i := Greedy(bank, account, k - 1), k - 1;
    var j := FirstFit(o.bank.payments, bank.statements[i]);
    if Candidate(bank, account, i) && j < |bank.payments| {
      assert Greedy(bank, account, k) == Outcome(Link(o.bank, i, j), o.pairs + [(i, j)]);
      LaterLineKept(bank, account, o, i);
      PairAdded(bank, account, o, i, j);
    } else {
      assert Greedy(bank, account, k) == o;
      SoundLater(bank, account, o, i);
    }
  }

  lemma {:induction false} SoundLater(bank: Bank, account: nat, o: Outcome, i: nat)
    requires Sound(bank, account, o, i)
    ensures Sound(bank, account, o, i + 1)
  {
  }

  lemma {:induction false} GreedyLeavesNothing(bank: Bank, account: nat, k: nat)
    requires k <= |bank.statements|
    ensures NothingLeft(Greedy(bank, account, k).bank, account, k)
  {
    if k > 0 {
      GreedyLeavesNothing(bank, account, k - 1);
      LineUntouched(bank, account, k - 1);
      StepLeavesNothing(bank, Greedy(bank, account, k - 1), account, k - 1);
    }
  }

  lemma {:induction false} LineUntouched(bank: Bank, account: nat, k: nat)
    requires k < |bank.statements|
    ensures Greedy(bank, account, k).bank.statements[k] == bank.statements[k]
  {
    GreedyIsSound(bank, account, k);
    LaterLineKept(bank, account, Greedy(bank, account, k), k);
  }

  lemma {:induction false} StepLeavesNothing(bank: Bank, o: Outcome, account: nat, i: nat)
    requires i < |bank.statements| == |o.bank.statements| && |o.bank.payments| == |bank.payments|
    requires o.bank.statements[i] == bank.statements[i] && NothingLeft(o.bank, account, i)
    ensures NothingLeft(GreedyStep(bank, o, account, i).bank, account, i + 1)
  {
    var j := FirstFit(o.bank.payments, bank.statements[i]);
    if Candidate(bank, account, i) && j < |bank.payments| {
      LinkLeavesNothing(o.bank, account, i, j);
    }
  }

  lemma {:induction false} LaterLineKept(bank: Bank, account: nat, o: Outcome, k: nat)
    requires Sound(bank, account, o, k) && k < |bank.statements|
    ensures o.bank.statements[k] == bank.statements[k]
  {
    assert !LinkedIn(o.pairs, k);
  }

  lemma {:induction false} LinkLeavesNothing(bank: Bank, account: nat, i: nat, j: nat)
    requires i < |bank.statements| && j < |bank.payments| && NothingLeft(bank, account, i)
    ensures NothingLeft(Link(bank, i, j), account, i + 1)
  {
    var next := Link(bank, i, j);
    forall a, b | 0 <= a < i + 1 && Candidate(next, account, a) && 0 <= b < |next.payments|
      ensures !Fits(next.statements[a], next.payments[b])
    {
      assert a != i && Candidate(bank, account, a);
    }
  }

  lemma {:induction false} Grown(pairs: seq<Pair>, x: Pair)
    ensures forall i :: LinkedIn(pairs + [x], i) <==> LinkedIn(pairs, i) || i == x.0
    ensures forall j :: PaidBy(pairs + [x], j) <==> PaidBy(pairs, j) || j == x.1
  {
    var next := pairs + [x];
    assert next[|pairs|] == x;
    forall i ensures LinkedIn(next, i) <==> LinkedIn(pairs, i) || i == x.0 {
      if LinkedIn(pairs, i) {
        var k :| 0 <= k < |pairs| && pairs[k].0 == i;
        assert next[k].0 == i;
      }
    }
    forall j ensures PaidBy(next, j) <==> PaidBy(pairs, j) || j == x.1 {
      if PaidBy(pairs, j) {
        var k :| 0 <= k < |pairs| && pairs[k].1 == j;
        assert next[k].1 == j;
      }
    }
  }

  lemma {:induction false} PairAdded(bank: Bank, account: nat, o: Outcome, i: nat, j: nat)
    requires Sound(bank, account, o, i) && Candidate(bank, account, i)
    requires j < |bank.payments| && Fits(bank.statements[i], o.bank.payments[j])
    requires o.bank.statements[i] == bank.statements[i]
    ensures Sound(bank, account, Outcome(Link(o.bank, i, j), o.pairs + [(i, j)]), i + 1)
  {
    var next := Outcome(Link(o.bank, i, j), o.pairs + [(i, j)]);
    Grown(o.pairs, (i, j));
    assert !PaidBy(o.pairs, j);
    assert LinesShowPairs(bank, next) by {
      forall k | 0 <= k < |o.pairs| ensures LinkedTo(bank, next.bank, o.pairs[k]) {
        assert LinkedTo(bank, o.bank, o.pairs[k]) && PairFits(bank, account, o.pairs[k]);
      }
    }
    assert PairsFit(bank, account, next.pairs, i + 1) by {
      assert PairFits(bank, account, (i, j));
    }
    assert PairsApart(next.pairs) by {
      forall a | 0 <= a < |o.pairs| ensures o.pairs[a].0 != i && o.pairs[a].1 != j {
        assert PairFits(bank, account, o.pairs[a]);
        assert PaidBy(o.pairs, o.pairs[a].1);
      }
    }
  }

  // Main theorem: autoMatch makes a valid matching, records exactly that
  // matching, and leaves no line and payment that could still be matched.
  lemma {:induction false} AutoMatchIsMaximal(bank: Bank, account: nat)
    ensures var o := AutoMatched(bank, account);
            && Sound(bank, account, o, |bank.statements|)
            && ValidMatching(bank, account, AsSet(o.pairs))
            && |AsSet(o.pairs)| == |o.pairs|
            && NothingLeft(o.bank, account, |o.bank.statements|)
  {
    GreedyIsSound(bank, account, |bank.statements|);
    GreedyLeavesNothing(bank, account, |bank.statements|);
    var pairs := AutoMatched(bank, account).pairs;
    forall x | x in AsSet(pairs) ensures PairFits(bank, account, x) {
      var k :| 0 <= k < |pairs| && pairs[k] == x;
    }
    DistinctPairs(AutoMatched(bank, account).pairs);
  }

  lemma {:induction false} DistinctPairs(pairs: seq<Pair>)
    requires PairsApart(pairs)
    ensures |AsSet(pairs)| == |pairs|
  {
    if pairs != [] {
      var n := |pairs| - 1;
      DistinctPairs(pairs[..n]);
      assert AsSet(pairs) == AsSet(pairs[..n]) + {pairs[n]};
    }
  }

  // ---------------------------------------------------------- half of optimal

  lemma {:induction false} CountByStatement(m: set<Pair>, s: set<nat>)
    requires forall x :: x in m ==> x.0 in s
    requires forall x, y :: x in m && y in m && x.0 == y.0 ==> x == y
    ensures |m| <= |s|
  {
    if m != {} {
      var x :| x in m;
      CountByStatement(m - {x}, s - {x.0});
    }
  }

  lemma {:induction false} CountByPayment(m: set<Pair>, s: set<nat>)
    requires forall x :: x in m ==> x.1 in s
    requires forall x, y :: x in m && y in m && x.1 == y.1 ==> x == y
    ensures |m| <= |s|
  {
    if m != {} {
      var x :| x in m;
      CountByPayment(m - {x}, s - {x.1});
    }
  }

  lemma {:induction false} EndsOf(pairs: seq<Pair>) returns (lines: set<nat>, paid: set<nat>)
    ensures forall i: nat :: i in lines <==> LinkedIn(pairs, i)
    ensures forall j: nat :: j in paid <==> PaidBy(pairs, j)
    ensures |lines| <= |pairs| && |paid| <= |pairs|
  {
    if pairs == [] {
      lines, paid := {}, {};
    } else {
      var n := |pairs| - 1;
      lines, paid := EndsOf(pairs[..n]);
      Grown(pairs[..n], pairs[n]);
      assert pairs[..n] + [pairs[n]] == pairs;
      lines, paid := lines + {pairs[n].0}, paid + {pairs[n].1};
    }
  }

  // Main theorem: no valid matching of the same lines and payments has more
  // than twice as many pairs as autoMatch finds.
  lemma {:induction false} AutoMatchIsHalfOptimal(bank: Bank, account: nat, m: set<Pair>)
    requires ValidMatching(bank, account, m)
    ensures |m| <= 2 * |AutoMatched(bank, account).pairs|
  {
    var pairs := AutoMatched(bank, account).pairs;
    forall x | x in m ensures LinkedIn(pairs, x.0) || PaidBy(pairs, x.1) {
      assert PairFits(bank, account, x);
      OneEndTaken(bank, account, x);
    }
    CountByEnds(m, pairs);
  }

  ghost predicate OneToOne(m: set<Pair>) {
    forall x, y :: x in m && y in m && (x.0 == y.0 || x.1 == y.1) ==> x == y
  }

  // Each pair of m shares an end with the pairs found, and each end is shared once.
  lemma {:induction false} CountByEnds(m: set<Pair>, pairs: seq<Pair>)
    requires OneToOne(m) && forall x :: x in m ==> LinkedIn(pairs, x.0) || PaidBy(pairs, x.1)
    ensures |m| <= 2 * |pairs|
  {
    var lines, paid := EndsOf(pairs);
    var m1 := set x | x in m && x.0 in lines;
    var m2 := set x | x in m && x.0 !in lines;
    assert |m1| <= |lines| by { CountByStatement(m1, lines); }
    assert |m2| <= |paid| by { CountByPayment(m2, paid); }
    assert m == m1 + m2 && m1 !! m2;
  }

  // By maximality a possible pair has lost its line or its payment.
  lemma {:induction false} OneEndTaken(bank: Bank, account: nat, x: Pair)
    requires PairFits(bank, account, x)
    ensures LinkedIn(AutoMatched(bank, account).pairs, x.0) || PaidBy(AutoMatched(bank, account).pairs, x.1)
  {
    var o := AutoMatched(bank, account);
    GreedyIsSound(bank, account, |bank.statements|);
    GreedyLeavesNothing(bank, account, |bank.statements|);
    if !LinkedIn(o.pairs, x.0) {
      assert o.bank.statements[x.0] == bank.statements[x.0];
      assert Candidate(o.bank, account, x.0);
      assert !Fits(o.bank.statements[x.0], o.bank.payments[x.1]);
    }
  }

  // The factor is reached: the first line takes the only payment that the
  // second line could have had.
  lemma {:induction false} HalfIsTight()
    ensures var bank := Bank([Statement(0, 5.0, ONE_DAY, None), Statement(0, 5.0, 0, None)],
                             [Payment(5.0, 0, Posted), Payment(5.0, 2 * ONE_DAY, Posted)]);
            && |AutoMatched(bank, 0).pairs| == 1
            && ValidMatching(bank, 0, {(0, 1), (1, 0)})
            && |{(0, 1), (1, 0)}| == 2
  {
    var bank := Bank([Statement(0, 5.0, ONE_DAY, None), Statement(0, 5.0, 0, None)],
                     [Payment(5.0, 0, Posted), Payment(5.0, 2 * ONE_DAY, Posted)]);
    assert Greedy(bank, 0, 0) == Outcome(bank, []);
    var first := FirstFit(bank.payments, bank.statements[0]);
    assert Fits(bank.statements[0], bank.payments[0]);
    assert first == 0;
    assert Greedy(bank, 0, 1) == Outcome(Link(bank, 0, 0), [(0, 0)]);
    assert forall j :: 0 <= j < 2 ==> !Fits(bank.statements[1], Link(bank, 0, 0).payments[j]);
    assert Greedy(bank, 0, 2) == Greedy(bank, 0, 1);
    assert (0, 1) != (1, 0);
  }

  // -------------------------------------------------------------------- runs

  function Imported(bank: Bank, account: nat, lines: seq<(real, int)>): Bank {
    if lines == [] then bank else
      var n := |lines| - 1;
      var b := Imported(bank, account, lines[..n]);
      b.(statements := b.statements + [Statement(account, lines[n].0, lines[n].1, None)])
  }

  // Lines are only stored for an account of the chart.
  function ImportInto(accounts: set<nat>, bank: Bank, account: nat, lines: seq<(real, int)>): Result<Bank, MatchError> {
    if account !in accounts then Err(AccountNotFound) else Ok(Imported(bank, account, lines))
  }

  datatype Step = Import(account: nat, lines: seq<(real, int)>) | Auto(account: nat) | Manual(i: nat, j: nat)

  function Attempt(accounts: set<nat>, bank: Bank, step: Step): Result<Bank, MatchError> {
    match step
    case Import(account, lines) => ImportInto(accounts, bank, account, lines)
    case Auto(account) => Ok(AutoMatched(bank, account).bank)
    case Manual(i, j) => ManuallyMatched(bank, i, j)
  }

  function After(accounts: set<nat>, bank: Bank, step: Step): Bank {
    match Attempt(accounts, bank, step)
    case Ok(next) => next
    case Err(_) => bank
  }

  function Run(accounts: set<nat>, bank: Bank, steps: seq<Step>): Bank {
    if steps == [] then bank
    else After(accounts, Run(accounts, bank, steps[..|steps| - 1]), steps[|steps| - 1])
  }

  // A linked payment is reconciled, and no two lines link to one payment.
  ghost predicate LinksExclusive(bank: Bank) {
    && (forall i :: 0 <= i < |bank.statements| && bank.statements[i].matched.Some? ==>
          bank.statements[i].matched.value < |bank.payments|
          && bank.payments[bank.statements[i].matched.value].status.Reconciled?)
    && (forall i, k :: 0 <= i < k < |bank.statements| && bank.statements[i].matched.Some? ==>
          bank.statements[i].matched != bank.statements[k].matched)
  }

  lemma {:induction false} LinkKeepsExclusive(bank: Bank, i: nat, j: nat)
    requires LinksExclusive(bank) && i < |bank.statements| && j < |bank.payments| && bank.payments[j].status.Posted?
    ensures LinksExclusive(Link(bank, i, j))
  {
  }

  lemma {:induction false} GreedyKeepsExclusive(bank: Bank, account: nat, k: nat)
    requires LinksExclusive(bank) && k <= |bank.statements|
    ensures LinksExclusive(Greedy(bank, account, k).bank)
  {
    if k > 0 {
      GreedyKeepsExclusive(bank, account, k - 1);
      var o := Greedy(bank, account, k - 1);
      if Greedy(bank, account, k) != o {
        LinkKeepsExclusive(o.bank, k - 1, FirstFit(o.bank.payments, bank.statements[k - 1]));
      }
    }
  }

  lemma {:induction false} ImportKeepsExclusive(bank: Bank, account: nat, lines: seq<(real, int)>)
    requires LinksExclusive(bank)
    ensures LinksExclusive(Imported(bank, account, lines))
  {
    if lines != [] {
      ImportKeepsExclusive(bank, account, lines[..|lines| - 1]);
    }
  }

  // Over every run of imports, automatic and manual matching, no payment is
  // linked from two statement lines.
  lemma {:induction false} RunsKeepExclusive(accounts: set<nat>, payments: seq<Payment>, steps: seq<Step>)
    ensures LinksExclusive(Run(accounts, Bank([], payments), steps))
  {
    if steps != [] {
      var before := Run(accounts, Bank([], payments), steps[..|steps| - 1]);
      RunsKeepExclusive(accounts, payments, steps[..|steps| - 1]);
      match steps[|steps| - 1]
      case Import(account, lines) => ImportKeepsExclusive(before, account, lines);
      case Auto(account) => GreedyKeepsExclusive(before, account, |before.statements|);
      case Manual(i, j) => if ManuallyMatched(before, i, j).Ok? { LinkKeepsExclusive(before, i, j); }
    }
  }
}
