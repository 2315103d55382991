// When each call on invoices and payments goes through, and what it stores.

module AllocationOutcomes {
  import opened Common
  import opened Allocations

  // ----------------------------------------------------------------- invoices

  // Quantity times price, plus that share of it in tax.
  function TotalOf(lines: seq<InvoiceLine>): real {
    if lines == [] then 0.0 else
      var l := lines[|lines| - 1];
      TotalOf(lines[..|lines| - 1]) + l.qty * l.unitPrice * (1.0 + l.taxPct / 100.0)
  }

  lemma {:induction false} HeaderIsTotal(lines: seq<InvoiceLine>)
    ensures Subtotal(lines) + Tax(lines) == TotalOf(lines)
  {
    if lines != [] {
      var l := lines[|lines| - 1];
      HeaderIsTotal(lines[..|lines| - 1]);
      WithTax(l.qty * l.unitPrice, l.taxPct);
    }
  }

  lemma {:induction false} WithTax(x: real, pct: real)
    ensures x * (1.0 + pct / 100.0) == x + x * pct / 100.0
  {
  }

  // A new invoice is a draft with nothing paid and its whole total outstanding.
  lemma {:induction false} CreateOutcome(r: Records, lines: seq<InvoiceLine>)
    ensures var total := TotalOf(lines);
            Attempt(r, Create(lines))
            == Ok(Records(r.invoices + [Invoice(Draft, total, 0.0, total)], r.payments, r.allocations))
  {
    HeaderIsTotal(lines);
  }

  // Posting opens a draft.
  lemma {:induction false} PostOutcome(r: Records, i: nat)
    ensures var next := Attempt(r, Post(i));
            && (next.Ok? <==> i < |r.invoices| && r.invoices[i].status == Draft)
            && (next.Ok? ==> next.value == r.(invoices := r.invoices[i := r.invoices[i].(status := Open)]))
            && (next.Err? ==> next.error == if i >= |r.invoices| then InvoiceNotFound else WrongStatus)
  {
  }

  lemma {:induction false} ReceiveOutcome(r: Records, amount: real)
    ensures Attempt(r, Receive(amount)) == Ok(Records(r.invoices, r.payments + [amount], r.allocations))
  {
  }

  // ---------------------------------------------------------------- one invoice

  ghost predicate AlreadyGiven(r: Records, i: nat, j: nat) {
    exists k :: 0 <= k < |r.allocations| && r.allocations[k].invoice == i && r.allocations[k].payment == j
  }

  // The invoice as it was seen, with so much more paid; settled once no more than
  // a cent is outstanding.
  ghost predicate PaysMore(seen: Invoice, after: Invoice, amount: real) {
    && after.total == seen.total && after.paid == seen.paid + amount
    && after.outstanding == seen.total - seen.paid - amount
    && after.status == if after.outstanding <= 0.01 then Paid else Partial
  }

  // Only invoice i has changed, and the allocation has been added.
  ghost predicate Gives(r: Records, next: Records, i: nat, j: nat, amount: real) {
    && next.payments == r.payments && next.allocations == r.allocations + [Allocation(i, j, amount)]
    && |next.invoices| == |r.invoices|
    && forall k :: 0 <= k < |r.invoices| && k != i ==> next.invoices[k] == r.invoices[k]
  }

  // applyPayment goes through exactly for a positive amount, no more than was seen
  // outstanding, on an invoice seen open, partly paid or overdue, from a payment
  // that has given it nothing yet.
  lemma {:induction false} ApplySeenOutcome(r: Records, i: nat, j: nat, amount: real, seen: Option<Invoice>)
    ensures var next := ApplySeen(r, i, j, amount, seen);
            && (next.Ok? <==> && amount > 0.0 && seen.Some? && i < |r.invoices|
                              && (seen.value.status == Open || seen.value.status == Partial
                                  || seen.value.status == Overdue)
                              && amount <= seen.value.outstanding
                              && j < |r.payments| && !AlreadyGiven(r, i, j))
            && (next.Ok? ==>
                  Gives(r, next.value, i, j, amount) && PaysMore(seen.value, next.value.invoices[i], amount))
            && (next.Err? ==>
                  if amount <= 0.0 then next.error == AmountNotPositive
                  else if seen.None? || i >= |r.invoices| then next.error == InvoiceNotFound
                  else if seen.value.status in {Draft, Paid, Disputed, Cancelled} then next.error == WrongStatus
                  else if amount > seen.value.outstanding then next.error == ExceedsOutstanding
                  else if j >= |r.payments| then next.error == PaymentNotFound
                  else next.error == AlreadyAllocated)
  {
    assert PairTaken(r, i, j) <==> AlreadyGiven(r, i, j);
  }

  // When nothing happens in between, the invoice is seen as it is stored.
  lemma {:induction false} ApplyOutcome(r: Records, i: nat, j: nat, amount: real)
    ensures Attempt(r, Apply(i, j, amount))
            == ApplySeen(r, i, j, amount, if i < |r.invoices| then Some(r.invoices[i]) else None)
  {
  }

  // --------------------------------------------------------------- many invoices

  // What share k leaves of its invoice.
  ghost predicate SharePaid(r: Records, next: Records, share: Share) {
    var i := share.invoice;
    && i < |r.invoices| && i < |next.invoices|
    && var before, after := r.invoices[i], next.invoices[i];
       && after.total == before.total && after.paid == before.paid + share.amount
       && after.outstanding == before.outstanding - share.amount
       && after.status == if after.outstanding <= 0.01 then Paid
                          else if after.outstanding < before.total then Partial else before.status
  }

  ghost predicate Named(shares: seq<Share>, i: nat) {
    exists n :: 0 <= n < |shares| && shares[n].invoice == i
  }

  // Every share is an allocation more and paid on its invoice; the other invoices
  // are as they were.
  ghost predicate GivesAll(r: Records, next: Records, j: nat, shares: seq<Share>) {
    && next.payments == r.payments && |next.invoices| == |r.invoices|
    && r.allocations <= next.allocations && |next.allocations| == |r.allocations| + |shares|
    && (forall k :: 0 <= k < |shares| ==>
          && next.allocations[|r.allocations| + k] == Allocation(shares[k].invoice, j, shares[k].amount)
          && SharePaid(r, next, shares[k]))
    && (forall i :: 0 <= i < |r.invoices| && !Named(shares, i) ==> next.invoices[i] == r.invoices[i])
  }

  lemma {:induction false} AllocateOneOutcome(r: Records, j: nat, share: Share)
    requires AllocateOne(r, j, share).Ok?
    ensures Gives(r, AllocateOne(r, j, share).value, share.invoice, j, share.amount)
    ensures SharePaid(r, AllocateOne(r, j, share).value, share)
  {
  }

  lemma {:induction false} AllocateFirstOutcome(r: Records, j: nat, shares: seq<Share>, k: nat)
    requires k <= |shares| && AllocateFirst(r, j, shares, k).Ok?
    ensures GivesAll(r, AllocateFirst(r, j, shares, k).value, j, shares[..k])
  {
    if k > 0 {
      AllocateFirstOutcome(r, j, shares, k - 1);
      NotNamedBefore(r, j, shares, k);
      NextShare(r, AllocateFirst(r, j, shares, k - 1).value, j, shares, k);
    }
  }

  lemma {:induction false} NotNamedBefore(r: Records, j: nat, shares: seq<Share>, k: nat)
    requires 0 < k <= |shares| && AllocateFirst(r, j, shares, k).Ok?
    ensures !Named(shares[..k - 1], shares[k - 1].invoice)
  {
    UntouchedInvoices(r, j, shares, k - 1, shares[k - 1].invoice);
    assert !NamedBefore(shares, k - 1, shares[k - 1].invoice);
    assert forall n :: 0 <= n < k - 1 ==> shares[..k - 1][n] == shares[n];
  }

  lemma {:induction false} NextShare(r: Records, mid: Records, j: nat, shares: seq<Share>, k: nat)
    requires 0 < k <= |shares| && GivesAll(r, mid, j, shares[..k - 1])
    requires AllocateOne(mid, j, shares[k - 1]).Ok? && !Named(shares[..k - 1], shares[k - 1].invoice)
    ensures GivesAll(r, AllocateOne(mid, j, shares[k - 1]).value, j, shares[..k])
  {
    var share, next := shares[k - 1], AllocateOne(mid, j, shares[k - 1]).value;
    AllocateOneOutcome(mid, j, share);
    assert mid.invoices[share.invoice] == r.invoices[share.invoice];
    forall n | 0 <= n < k
      ensures next.allocations[|r.allocations| + n] == Allocation(shares[..k][n].invoice, j, shares[..k][n].amount)
      ensures SharePaid(r, next, shares[..k][n])
    {
      if n < k - 1 {
        assert shares[..k][n] == shares[..k - 1][n] && SharePaid(r, mid, shares[..k - 1][n]);
        assert Named(shares[..k - 1], shares[n].invoice);
      }
    }
    forall i | 0 <= i < |r.invoices| && !Named(shares[..k], i) ensures next.invoices[i] == r.invoices[i] {
      assert shares[..k][k - 1].invoice != i;
      assert forall n :: 0 <= n < k - 1 ==> shares[..k][n] == shares[..k - 1][n];
    }
  }

  // allocateToInvoices gives every share as the invoices stood at the start; when
  // it goes through is AllocateSucceedsIff.
  lemma {:induction false} AllocateOutcome(r: Records, j: nat, shares: seq<Share>)
    requires Attempt(r, Allocate(j, shares)).Ok?
    ensures GivesAll(r, Attempt(r, Allocate(j, shares)).value, j, shares)
  {
    AllocateFirstOutcome(r, j, shares, |shares|);
    assert shares[..|shares|] == shares;
  }

  // It fails with the first complaint.
  lemma {:induction false} AllocateRefusals(r: Records, j: nat, shares: seq<Share>)
    ensures var next := Attempt(r, Allocate(j, shares));
            && (next == Err(PaymentNotFound) <==> j >= |r.payments|)
            && (next == Err(ExceedsPayment)
                <==> j < |r.payments| && AllocatedBy(r.allocations, j) + Requested(shares) > r.payments[j])
  {
    if j < |r.payments| { SharesFailOtherwise(r, j, shares, |shares|); }
  }

  lemma {:induction false} SharesFailOtherwise(r: Records, j: nat, shares: seq<Share>, k: nat)
    requires k <= |shares| && j < |r.payments|
    ensures AllocateFirst(r, j, shares, k).Ok? ==> AllocateFirst(r, j, shares, k).value.payments == r.payments
    ensures AllocateFirst(r, j, shares, k).Err? ==>
              AllocateFirst(r, j, shares, k).error in {InvoiceNotFound, ExceedsOutstanding, AlreadyAllocated}
  {
    if k > 0 {
      SharesFailOtherwise(r, j, shares, k - 1);
    }
  }

  // What is already given by a payment and what is requested are sums.
  lemma {:induction false} SumsGrow(allocations: seq<Allocation>, a: Allocation, shares: seq<Share>,
      share: Share, j: nat)
    ensures AllocatedBy([], j) == 0.0 && Requested([]) == 0.0
    ensures AllocatedBy(allocations + [a], j) == AllocatedBy(allocations, j) + if a.payment == j then a.amount else 0.0
    ensures Requested(shares + [share]) == Requested(shares) + share.amount
  {
    OneMoreAllocation(allocations, a, 0, j);
    assert (shares + [share])[..|shares|] == shares;
  }

  // A run takes each step in turn; one that fails changes nothing.
  lemma {:induction false} RunOutcome(steps: seq<Step>, step: Step)
    ensures Run([]) == Records([], [], [])
    ensures Run(steps + [step])
            == match Attempt(Run(steps), step)
               case Ok(next) => next
               case Err(_) => Run(steps)
  {
    RunOneMore(steps, step);
  }
}
