// What importing and matching do, in terms of the stored lines and payments.

module BankOutcomes {
  import opened Common
  import opened BankReconciliation

  // The line is open and belongs to the account, the payment is posted, both have
  // the same amount, and at most one day lies between them.
  ghost predicate Matchable(bank: Bank, account: nat, i: nat, j: nat) {
    && i < |bank.statements| && j < |bank.payments|
    && bank.statements[i].account == account && bank.statements[i].matched == None
    && bank.payments[j].status == Posted
    && bank.payments[j].amount == bank.statements[i].amount
    && -86400000 <= bank.payments[j].date - bank.statements[i].date <= 86400000
  }

  // The rows record exactly these pairs.
  ghost predicate Records(before: Bank, after: Bank, pairs: seq<Pair>) {
    && |after.statements| == |before.statements| && |after.payments| == |before.payments|
    && (forall i :: 0 <= i < |before.statements| && !LinkedIn(pairs, i) ==>
          after.statements[i] == before.statements[i])
    && (forall j :: 0 <= j < |before.payments| && !PaidBy(pairs, j) ==> after.payments[j] == before.payments[j])
    && (forall k :: 0 <= k < |pairs| ==>
          && pairs[k].0 < |before.statements| && pairs[k].1 < |before.payments|
          && after.statements[pairs[k].0] == before.statements[pairs[k].0].(matched := Some(pairs[k].1))
          && after.payments[pairs[k].1] == before.payments[pairs[k].1].(status := Reconciled))
  }

  // Every line takes the first payment it can have when its turn comes.
  ghost predicate FirstServed(bank: Bank, account: nat, pairs: seq<Pair>) {
    && (forall a, b :: 0 <= a < b < |pairs| ==> pairs[a].0 < pairs[b].0 && pairs[a].1 != pairs[b].1)
    && (forall a, j: nat :: 0 <= a < |pairs| && j < pairs[a].1 && Matchable(bank, account, pairs[a].0, j) ==>
          PaidBy(pairs[..a], j))
  }

  // Automatic matching pairs only what can be matched, line after line with the
  // first payment that is left, records the pairs, and leaves nothing matchable.
  lemma {:induction false} AutoMatchOutcome(accounts: set<nat>, bank: Bank, account: nat)
    ensures var pairs := AutoMatched(bank, account).pairs;
            var r := Attempt(accounts, bank, Auto(account));
            && r.Ok?
            && (forall k :: 0 <= k < |pairs| ==> Matchable(bank, account, pairs[k].0, pairs[k].1))
            && FirstServed(bank, account, pairs)
            && Records(bank, r.value, pairs)
            && (forall i: nat, j: nat :: !Matchable(r.value, account, i, j))
  {
    var o := AutoMatched(bank, account);
    AutoMatchIsMaximal(bank, account);
    GreedyServesFirst(bank, account, |bank.statements|);
    PairsMatch(bank, account, o, |bank.statements|);
    SoundRecords(bank, account, o, |bank.statements|);
    LeavesNothing(o.bank, account);
  }

  lemma {:induction false} PairsMatch(bank: Bank, account: nat, o: Outcome, k: nat)
    requires Sound(bank, account, o, k)
    ensures forall a :: 0 <= a < |o.pairs| ==> Matchable(bank, account, o.pairs[a].0, o.pairs[a].1) && o.pairs[a].0 < k
  {
    forall a | 0 <= a < |o.pairs| ensures Matchable(bank, account, o.pairs[a].0, o.pairs[a].1) {
      assert PairFits(bank, account, o.pairs[a]);
    }
  }

  lemma {:induction false} SoundRecords(bank: Bank, account: nat, o: Outcome, k: nat)
    requires Sound(bank, account, o, k)
    ensures Records(bank, o.bank, o.pairs)
  {
    PairsMatch(bank, account, o, k);
    forall a | 0 <= a < |o.pairs|
      ensures o.bank.statements[o.pairs[a].0] == bank.statements[o.pairs[a].0].(matched := Some(o.pairs[a].1))
      ensures PaidBy(o.pairs, o.pairs[a].1)
    {
      assert LinkedTo(bank, o.bank, o.pairs[a]);
    }
  }

  lemma {:induction false} LeavesNothing(bank: Bank, account: nat)
    requires NothingLeft(bank, account, |bank.statements|)
    ensures forall i: nat, j: nat :: !Matchable(bank, account, i, j)
  {
    forall i: nat, j: nat ensures !Matchable(bank, account, i, j) {
      if Matchable(bank, account, i, j) {
        assert Candidate(bank, account, i) && Fits(bank.statements[i], bank.payments[j]);
      }
    }
  }

  lemma {:induction false} GreedyServesFirst(bank: Bank, account: nat, k: nat)
    requires k <= |bank.statements|
    ensures FirstServed(bank, account, Greedy(bank, account, k).pairs)
  {
    if k > 0 {
      GreedyServesFirst(bank, account, k - 1);
      NextRound(bank, account, k);
    }
  }

  lemma {:induction false} NextRound(bank: Bank, account: nat, k: nat)
    requires 0 < k <= |bank.statements| && FirstServed(bank, account, Greedy(bank, account, k - 1).pairs)
    ensures FirstServed(bank, account, Greedy(bank, account, k).pairs)
  {
    var o, i := Greedy(bank, account, k - 1), k - 1;
    var j := FirstFit(o.bank.payments, bank.statements[i]);
    if Candidate(bank, account, i) && j < |bank.payments| {
      assert Greedy(bank, account, k).pairs == o.pairs + [(i, j)];
      GreedyIsSound(bank, account, i);
      NextIsServedFirst(bank, account, o, i, j);
    } else {
      assert Greedy(bank, account, k) == o;
    }
  }

  lemma {:induction false} NextIsServedFirst(bank: Bank, account: nat, o: Outcome, i: nat, j: nat)
    requires i < |bank.statements| && Sound(bank, account, o, i) && FirstServed(bank, account, o.pairs)
    requires Candidate(bank, account, i) && j < |bank.payments| && j == FirstFit(o.bank.payments, bank.statements[i])
    ensures FirstServed(bank, account, o.pairs + [(i, j)])
  {
    var pairs := o.pairs + [(i, j)];
    forall a, n: nat | 0 <= a < |pairs| && n < pairs[a].1 && Matchable(bank, account, pairs[a].0, n)
      ensures PaidBy(pairs[..a], n)
    {
      if a < |o.pairs| {
        assert pairs[..a] == o.pairs[..a];
      } else {
        assert pairs[..a] == o.pairs;
        assert !Fits(bank.statements[i], o.bank.payments[n]);
      }
    }
    forall a | 0 <= a < |o.pairs| ensures o.pairs[a].0 < i && o.pairs[a].1 != j {
      assert PairFits(bank, account, o.pairs[a]);
      assert PaidBy(o.pairs, o.pairs[a].1);
    }
  }

  // The lines considered are the open lines of the account.
  lemma {:induction false} CandidatesCounted(bank: Bank, account: nat, k: nat)
    requires k <= |bank.statements|
    ensures CandidateCount(bank, account, k)
            == |set i | 0 <= i < k && bank.statements[i].account == account && bank.statements[i].matched == None|
  {
    var open := set i | 0 <= i < k && bank.statements[i].account == account && bank.statements[i].matched == None;
    if k > 0 {
      CandidatesCounted(bank, account, k - 1);
      var before :=
        set i | 0 <= i < k - 1 && bank.statements[i].account == account && bank.statements[i].matched == None;
      assert open == if Candidate(bank, account, k - 1) then before + {k - 1} else before;
    } else {
      assert open == {};
    }
  }

  // Manual matching takes an open line and a POSTED payment, whatever their
  // amounts and dates.
  lemma {:induction false} ManualMatchOutcome(accounts: set<nat>, bank: Bank, i: nat, j: nat)
    ensures var r := Attempt(accounts, bank, Manual(i, j));
            && (r.Ok? <==> && i < |bank.statements| && bank.statements[i].matched == None
                           && j < |bank.payments| && bank.payments[j].status == Posted)
            && (r.Ok? ==>
                  && r.value.statements == bank.statements[i := bank.statements[i].(matched := Some(j))]
                  && r.value.payments == bank.payments[j := bank.payments[j].(status := Reconciled)])
            && (r.Err? ==>
                  r.error == if i >= |bank.statements| then StatementNotFound
                             else if bank.statements[i].matched != None then AlreadyMatched
                             else if j >= |bank.payments| then PaymentNotFound else PaymentNotPosted)
  {
  }

  // Importing adds one open line for every line given, in order, with its amount
  // and date.
  lemma {:induction false} ImportOutcome(accounts: set<nat>, bank: Bank, account: nat, lines: seq<(real, int)>)
    ensures var r := Attempt(accounts, bank, Import(account, lines));
            && (r.Ok? <==> account in accounts)
            && (r.Err? ==> r.error == AccountNotFound)
            && (r.Ok? ==>
                  && r.value.payments == bank.payments
                  && |r.value.statements| == |bank.statements| + |lines| && bank.statements <= r.value.statements
                  && forall k :: 0 <= k < |lines| ==>
                       r.value.statements[|bank.statements| + k] == Statement(account, lines[k].0, lines[k].1, None))
  {
    ImportedLines(bank, account, lines);
  }

  lemma {:induction false} ImportedLines(bank: Bank, account: nat, lines: seq<(real, int)>)
    ensures var b := Imported(bank, account, lines);
            && b.payments == bank.payments
            && |b.statements| == |bank.statements| + |lines| && bank.statements <= b.statements
            && forall k :: 0 <= k < |lines| ==>
                 b.statements[|bank.statements| + k] == Statement(account, lines[k].0, lines[k].1, None)
  {
    if lines != [] {
      ImportedLines(bank, account, lines[..|lines| - 1]);
    }
  }

  // What has been matched adds up pair by pair.
  lemma {:induction false} AmountsAdd(bank: Bank, pairs: seq<Pair>, x: Pair)
    requires x.0 < |bank.statements| && forall k :: 0 <= k < |pairs| ==> pairs[k].0 < |bank.statements|
    ensures AmountOf(bank, []) == 0.0
    ensures AmountOf(bank, pairs + [x]) == AmountOf(bank, pairs) + bank.statements[x.0].amount
  {
    assert (pairs + [x])[..|pairs|] == pairs;
  }

  // A run takes each step in turn; one that fails changes nothing.
  lemma {:induction false} RunOutcome(accounts: set<nat>, bank: Bank, steps: seq<Step>, step: Step)
    ensures Run(accounts, bank, []) == bank
    ensures Run(accounts, bank, steps + [step])
            == match Attempt(accounts, Run(accounts, bank, steps), step)
               case Ok(next) => next
               case Err(_) => Run(accounts, bank, steps)
  {
    assert (steps + [step])[..|steps|] == steps;
  }
}
