// Invoices, payments and the allocations between them.

module Allocations {
  import opened Common

  datatype InvoiceStatus = Draft | Open | Partial | Paid | Overdue | Disputed | Cancelled

  datatype Invoice = Invoice(status: InvoiceStatus, total: real, paid: real, outstanding: real)

  datatype Allocation = Allocation(invoice: nat, payment: nat, amount: real)

  // Payments are represented by their amounts.
  datatype Records = Records(invoices: seq<Invoice>, payments: seq<real>, allocations: seq<Allocation>)

  datatype AllocationError =
    | AmountNotPositive | InvoiceNotFound | WrongStatus | ExceedsOutstanding
    | PaymentNotFound | ExceedsPayment | AlreadyAllocated

  datatype InvoiceLine = InvoiceLine(qty: real, unitPrice: real, taxPct: real)

  // ------------------------------------------------------------------ amounts

  function LineSubtotal(l: InvoiceLine): real {
    l.qty * l.unitPrice
  }

  function LineTax(l: InvoiceLine): real {
    LineSubtotal(l) * l.taxPct / 100.0
  }

  function Subtotal(lines: seq<InvoiceLine>): real {
    if lines == [] then 0.0 else Subtotal(lines[..|lines| - 1]) + LineSubtotal(lines[|lines| - 1])
  }

  function Tax(lines: seq<InvoiceLine>): real {
    if lines == [] then 0.0 else Tax(lines[..|lines| - 1]) + LineTax(lines[|lines| - 1])
  }

  // The sum of the stored line totals.
  function LineTotals(lines: seq<InvoiceLine>): real {
    if lines == [] then 0.0
    else LineTotals(lines[..|lines| - 1]) + (LineSubtotal(lines[|lines| - 1]) + LineTax(lines[|lines| - 1]))
  }

  function NewInvoice(lines: seq<InvoiceLine>): Invoice {
    var total := Subtotal(lines) + Tax(lines);
    Invoice(Draft, total, 0.0, total)
  }

  // Quantities, prices and tax rates as the request object admits them.
  predicate WithinDto(lines: seq<InvoiceLine>) {
    forall i :: 0 <= i < |lines| ==> lines[i].qty > 0.0 && lines[i].unitPrice >= 0.0 && lines[i].taxPct >= 0.0
  }

  lemma {:induction false} HeaderMatchesLines(lines: seq<InvoiceLine>)
    ensures NewInvoice(lines).total == LineTotals(lines)
    ensures WithinDto(lines) ==> Subtotal(lines) >= 0.0 && Tax(lines) >= 0.0
  {
    if lines != [] {
      var rest, l := lines[..|lines| - 1], lines[|lines| - 1];
      HeaderMatchesLines(rest);
      if WithinDto(lines) {
        assert WithinDto(rest);
        assert LineSubtotal(l) >= 0.0;
        assert LineTax(l) >= 0.0;
      }
    }
  }

  function AllocatedTo(allocations: seq<Allocation>, i: nat): real {
    if allocations == [] then 0.0 else
      var a := allocations[|allocations| - 1];
      AllocatedTo(allocations[..|allocations| - 1], i) + if a.invoice == i then a.amount else 0.0
  }

  function AllocatedBy(allocations: seq<Allocation>, j: nat): real {
    if allocations == [] then 0.0 else
      var a := allocations[|allocations| - 1];
      AllocatedBy(allocations[..|allocations| - 1], j) + if a.payment == j then a.amount else 0.0
  }

  // --------------------------------------------------------------- operations

  predicate PairTaken(r: Records, i: nat, j: nat) {
    exists k :: 0 <= k < |r.allocations| && r.allocations[k].invoice == i && r.allocations[k].payment == j
  }

  // Inserting an allocation: the payment must exist and an invoice/payment pair
  // is allocated at most once.
  function Insert(r: Records, i: nat, j: nat, amount: real): Result<Records, AllocationError> {
    if j >= |r.payments| then Err(PaymentNotFound)
    else if PairTaken(r, i, j) then Err(AlreadyAllocated)
    else Ok(r.(allocations := r.allocations + [Allocation(i, j, amount)]))
  }

  // applyPayment reads the invoice before its transaction opens: the checks and
  // the new amounts go by the invoice as it was `seen`.
  function ApplySeen(r: Records, i: nat, j: nat, amount: real, seen: Option<Invoice>)
    : Result<Records, AllocationError>
  {
    if amount <= 0.0 then Err(AmountNotPositive)
    else if seen.None? || i >= |r.invoices| then Err(InvoiceNotFound)
    else if seen.value.status !in {Open, Partial, Overdue} then Err(WrongStatus)
    else if amount > seen.value.outstanding then Err(ExceedsOutstanding)
    else match Insert(r, i, j, amount)
      case Err(e) => Err(e)
      case Ok(next) => Ok(next.(invoices := r.invoices[i := PaidMore(seen.value, amount)]))
  }

  function PaidMore(seen: Invoice, amount: real): Invoice {
    var paid := seen.paid + amount;
    var outstanding := seen.total - paid;
    Invoice(if outstanding <= 0.01 then Paid else Partial, seen.total, paid, outstanding)
  }

  function InvoiceAt(r: Records, i: nat): Option<Invoice> {
    if i < |r.invoices| then Some(r.invoices[i]) else None
  }

  // The call when nothing happens between its reading and its writing.
  function ApplyPayment(r: Records, i: nat, j: nat, amount: real): Result<Records, AllocationError> {
    ApplySeen(r, i, j, amount, InvoiceAt(r, i))
  }

  datatype Share = Share(invoice: nat, amount: real)

  function Requested(shares: seq<Share>): real {
    if shares == [] then 0.0 else Requested(shares[..|shares| - 1]) + shares[|shares| - 1].amount
  }

  // One round of allocateToInvoices; it does not look at the invoice status.
  function AllocateOne(r: Records, j: nat, share: Share): Result<Records, AllocationError> {
    if share.invoice >= |r.invoices| then Err(InvoiceNotFound)
    else
      var invoice := r.invoices[share.invoice];
      if share.amount > invoice.outstanding then Err(ExceedsOutstanding)
      else match Insert(r, share.invoice, j, share.amount)
        case Err(e) => Err(e)
        case Ok(next) =>
          var outstanding := invoice.outstanding - share.amount;
          var status := if outstanding <= 0.01 then Paid
                        else if outstanding < invoice.total then Partial
                        else invoice.status;
          Ok(next.(invoices := r.invoices[share.invoice :=
            Invoice(status, invoice.total, invoice.paid + share.amount, outstanding)]))
  }

  function AllocateFirst(r: Records, j: nat, shares: seq<Share>, k: nat): Result<Records, AllocationError>
    requires k <= |shares|
  {
    if k == 0 then Ok(r) else
      match AllocateFirst(r, j, shares, k - 1)
      case Err(e) => Err(e)
      case Ok(next) => AllocateOne(next, j, shares[k - 1])
  }

  function AllocateToInvoices(r: Records, j: nat, shares: seq<Share>): Result<Records, AllocationError> {
    if j >= |r.payments| then Err(PaymentNotFound)
    else if AllocatedBy(r.allocations, j) + Requested(shares) > r.payments[j] then Err(ExceedsPayment)
    else AllocateFirst(r, j, shares, |shares|)
  }

  function PostInvoice(r: Records, i: nat): Result<Records, AllocationError> {
    if i >= |r.invoices| then Err(InvoiceNotFound)
    else if !r.invoices[i].status.Draft? then Err(WrongStatus)
    else Ok(r.(invoices := r.invoices[i := r.invoices[i].(status := Open)]))
  }

  class AllocationService {
    var invoices: seq<Invoice>
    var payments: seq<real>
    var allocations: seq<Allocation>

    constructor ()
      ensures View() == Records([], [], [])
    {
      invoices, payments, allocations := [], [], [];
    }

    function View(): Records
      reads this
    {
      Records(invoices, payments, allocations)
    }

    method CreateInvoice(lines: seq<InvoiceLine>) returns (i: nat)
      modifies this`invoices
      ensures i == |old(invoices)| && invoices == old(invoices) + [NewInvoice(lines)]
    {
      var subtotal, tax := 0.0, 0.0;
      for k := 0 to |lines|
        invariant subtotal == Subtotal(lines[..k]) && tax == Tax(lines[..k])
      {
        assert lines[..k + 1][..k] == lines[..k];
        subtotal, tax := subtotal + LineSubtotal(lines[k]), tax + LineTax(lines[k]);
      }
      assert lines[..|lines|] == lines;
      i := |invoices|;
      invoices := invoices + [Invoice(Draft, subtotal + tax, 0.0, subtotal + tax)];
    }

    // What a call does after it has read the invoice.
    method Apply(i: nat, j: nat, amount: real, seen: Option<Invoice>) returns (failure: Option<AllocationError>)
      modifies this
      ensures Settles(ApplySeen(old(View()), i, j, amount, seen), old(View()), View(), failure)
    {
      if amount <= 0.0 {
        return Some(AmountNotPositive);
      }
      if seen.None? || i >= |invoices| {
        return Some(InvoiceNotFound);
      }
      var invoice := seen.value;
      if invoice.status !in {Open, Partial, Overdue} {
        return Some(WrongStatus);
      }
      if amount > invoice.outstanding {
        return Some(ExceedsOutstanding);
      }
      var inserted := Insert(View(), i, j, amount);
      if inserted.Err? {
        return Some(inserted.error);
      }
      allocations := inserted.value.allocations;
      var paid := invoice.paid + amount;
      var outstanding := invoice.total - paid;
      var status := if outstanding <= 0.01 then Paid else Partial;
      invoices := invoices[i := Invoice(status, invoice.total, paid, outstanding)];
      return None;
    }

    method Allocate(j: nat, shares: seq<Share>) returns (failure: Option<AllocationError>)
      modifies this
      ensures Settles(AllocateToInvoices(old(View()), j, shares), old(View()), View(), failure)
    {
      if j >= |payments| {
        return Some(PaymentNotFound);
      }
      var requested := 0.0;
      for k := 0 to |shares|
        invariant requested == Requested(shares[..k])
      {
        assert shares[..k + 1][..k] == shares[..k];
        requested := requested + shares[k].amount;
      }
      assert shares[..|shares|] == shares;
      if AllocatedBy(allocations, j) + requested > payments[j] {
        return Some(ExceedsPayment);
      }
      var r := View();
      for k := 0 to |shares|
        invariant AllocateFirst(old(View()), j, shares, k) == Ok(r)
        invariant r.payments == payments
      {
        var next := AllocateOne(r, j, shares[k]);
        if next.Err? {
          AllocationStops(old(View()), j, shares, k + 1);
          return Some(next.error);
        }
        r := next.value;
      }
      invoices, allocations := r.invoices, r.allocations;
      return None;
    }
  }

  lemma {:induction false} AllocationStops(r: Records, j: nat, shares: seq<Share>, k: nat)
    requires k <= |shares| && AllocateFirst(r, j, shares, k).Err?
    ensures AllocateFirst(r, j, shares, |shares|) == AllocateFirst(r, j, shares, k)
    decreases |shares| - k
  {
    if k < |shares| {
      AllocationStops(r, j, shares, k + 1);
    }
  }

  // -------------------------------------------------------------------- runs

  datatype Step =
    | Create(lines: seq<InvoiceLine>)
    | Post(i: nat)
    | Receive(amount: real)
    | Apply(i: nat, j: nat, amount: real)
    | Allocate(j: nat, shares: seq<Share>)

  predicate StepWithinDto(step: Step) {
    match step
    case Create(lines) => WithinDto(lines)
    case Receive(amount) => amount > 0.0
    case Allocate(_, shares) => forall k :: 0 <= k < |shares| ==> shares[k].amount > 0.0
    case _ => true
  }

  function Attempt(r: Records, step: Step): Result<Records, AllocationError> {
    match step
    case Create(lines) => Ok(r.(invoices := r.invoices + [NewInvoice(lines)]))
    case Post(i) => PostInvoice(r, i)
    case Receive(amount) => Ok(r.(payments := r.payments + [amount]))
    case Apply(i, j, amount) => ApplyPayment(r, i, j, amount)
    case Allocate(j, shares) => AllocateToInvoices(r, j, shares)
  }

  function After(r: Records, step: Step): Records {
    match Attempt(r, step)
    case Ok(next) => next
    case Err(_) => r
  }

  function Run(steps: seq<Step>): Records {
    if steps == [] then Records([], [], []) else After(Run(steps[..|steps| - 1]), steps[|steps| - 1])
  }

  // --------------------------------------------------------------- invariants

  // The stored amounts of an invoice are what its allocations make them, and
  // its status follows from what is still outstanding.
  ghost predicate InvoiceExact(r: Records, i: nat)
    requires i < |r.invoices|
  {
    var invoice := r.invoices[i];
    && invoice.paid == AllocatedTo(r.allocations, i) >= 0.0
    && invoice.paid + invoice.outstanding == invoice.total
    && invoice.outstanding >= 0.0
    && (invoice.paid > 0.0 ==> invoice.status == if invoice.outstanding <= 0.01 then Paid else Partial)
    && (invoice.paid == 0.0 ==> invoice.status in {Draft, Open})
  }

  ghost predicate References(r: Records) {
    forall k :: 0 <= k < |r.allocations| ==>
      r.allocations[k].invoice < |r.invoices| && r.allocations[k].payment < |r.payments| &&
      r.allocations[k].amount > 0.0
  }

  ghost predicate Exact(r: Records) {
    References(r) && forall i :: 0 <= i < |r.invoices| ==> InvoiceExact(r, i)
  }

  lemma {:induction false} OneMoreAllocation(allocations: seq<Allocation>, a: Allocation, i: nat, j: nat)
    ensures AllocatedTo(allocations + [a], i) == AllocatedTo(allocations, i) + if a.invoice == i then a.amount else 0.0
    ensures AllocatedBy(allocations + [a], j) == AllocatedBy(allocations, j) + if a.payment == j then a.amount else 0.0
  {
    assert (allocations + [a])[..|allocations|] == allocations;
  }

  // Both ways of allocating write the same row over exact records.
  lemma {:induction false} AllocationKeepsExact(r: Records, i: nat, j: nat, amount: real, next: Records)
    requires Exact(r) && i < |r.invoices| && 0.0 < amount <= r.invoices[i].outstanding
    requires Insert(r, i, j, amount).Ok?
    requires var invoice := r.invoices[i];
             var outstanding := invoice.outstanding - amount;
             next == Insert(r, i, j, amount).value.(invoices := r.invoices[i :=
               Invoice(if outstanding <= 0.01 then Paid else Partial,
                       invoice.total, invoice.paid + amount, outstanding)])
    ensures Exact(next)
  {
    forall k | 0 <= k < |next.invoices| ensures InvoiceExact(next, k) {
      assert InvoiceExact(r, k);
      OneMoreAllocation(r.allocations, Allocation(i, j, amount), k, j);
    }
  }

  lemma {:induction false} AllocateOneKeepsExact(r: Records, j: nat, share: Share)
    requires Exact(r) && share.amount > 0.0 && AllocateOne(r, j, share).Ok?
    ensures Exact(AllocateOne(r, j, share).value)
  {
    assert InvoiceExact(r, share.invoice);
    AllocationKeepsExact(r, share.invoice, j, share.amount, AllocateOne(r, j, share).value);
  }

  lemma {:induction false} AllocateFirstKeepsExact(r: Records, j: nat, shares: seq<Share>, k: nat)
    requires Exact(r) && k <= |shares| && AllocateFirst(r, j, shares, k).Ok?
    requires forall n :: 0 <= n < |shares| ==> shares[n].amount > 0.0
    ensures Exact(AllocateFirst(r, j, shares, k).value)
  {
    if k > 0 {
      AllocateFirstKeepsExact(r, j, shares, k - 1);
      AllocateOneKeepsExact(AllocateFirst(r, j, shares, k - 1).value, j, shares[k - 1]);
    }
  }

  lemma {:induction false} CreateKeepsExact(r: Records, lines: seq<InvoiceLine>)
    requires Exact(r) && WithinDto(lines)
    ensures Exact(r.(invoices := r.invoices + [NewInvoice(lines)]))
  {
    HeaderMatchesLines(lines);
    NothingAllocated(r, |r.invoices|);
    var next := r.(invoices := r.invoices + [NewInvoice(lines)]);
    forall k | 0 <= k < |next.invoices| ensures InvoiceExact(next, k) {
      if k < |r.invoices| { assert InvoiceExact(r, k); }
    }
  }

  lemma {:induction false} NothingAllocated(r: Records, i: nat)
    requires forall k :: 0 <= k < |r.allocations| ==> r.allocations[k].invoice != i
    ensures AllocatedTo(r.allocations, i) == 0.0
    decreases |r.allocations|
  {
    if r.allocations != [] {
      NothingAllocated(r.(allocations := r.allocations[..|r.allocations| - 1]), i);
    }
  }

  lemma {:induction false} StepKeepsExact(r: Records, step: Step)
    requires Exact(r) && StepWithinDto(step)
    ensures Exact(After(r, step))
  {
    if Attempt(r, step).Ok? {
      match step
      case Create(lines) => CreateKeepsExact(r, lines);
      case Post(i) =>
        forall k | 0 <= k < |r.invoices| ensures InvoiceExact(After(r, step), k) { assert InvoiceExact(r, k); }
      case Receive(_) =>
        forall k | 0 <= k < |r.invoices| ensures InvoiceExact(After(r, step), k) { assert InvoiceExact(r, k); }
      case Apply(i, j, amount) =>
        assert InvoiceExact(r, i);
        AllocationKeepsExact(r, i, j, amount, After(r, step));
      case Allocate(j, shares) => AllocateFirstKeepsExact(r, j, shares, |shares|);
    }
  }

  // Main theorem: over every run each invoice has paid = sum of its allocations,
  // paid + outstanding = total, outstanding >= 0, and the status this implies.
  lemma {:induction false} RunsKeepExact(steps: seq<Step>)
    requires forall k :: 0 <= k < |steps| ==> StepWithinDto(steps[k])
    ensures Exact(Run(steps))
  {
    if steps != [] {
      RunsKeepExact(steps[..|steps| - 1]);
      StepKeepsExact(Run(steps[..|steps| - 1]), steps[|steps| - 1]);
    }
  }

  // ------------------------------------------------------------- conservation

  function PaidByInvoices(invoices: seq<Invoice>, n: nat): real
    requires n <= |invoices|
  {
    if n == 0 then 0.0 else PaidByInvoices(invoices, n - 1) + invoices[n - 1].paid
  }

  function AllocatedByPayments(allocations: seq<Allocation>, n: nat): real {
    if n == 0 then 0.0 else AllocatedByPayments(allocations, n - 1) + AllocatedBy(allocations, n - 1)
  }

  function AllocatedToInvoices(allocations: seq<Allocation>, n: nat): real {
    if n == 0 then 0.0 else AllocatedToInvoices(allocations, n - 1) + AllocatedTo(allocations, n - 1)
  }

  lemma {:induction false} LastAllocation(allocations: seq<Allocation>, n: nat)
    requires allocations != []
    ensures var a, rest := allocations[|allocations| - 1], allocations[..|allocations| - 1];
            && AllocatedByPayments(allocations, n)
               == AllocatedByPayments(rest, n) + (if a.payment < n then a.amount else 0.0)
            && AllocatedToInvoices(allocations, n)
               == AllocatedToInvoices(rest, n) + (if a.invoice < n then a.amount else 0.0)
  {
    if n > 0 {
      LastAllocation(allocations, n - 1);
    }
  }

  lemma {:induction false} NoAllocations(n: nat)
    ensures AllocatedByPayments([], n) == 0.0 && AllocatedToInvoices([], n) == 0.0
  {
    if n > 0 {
      NoAllocations(n - 1);
    }
  }

  lemma {:induction false} BothSidesAgree(r: Records)
    requires References(r)
    ensures AllocatedToInvoices(r.allocations, |r.invoices|) == AllocatedByPayments(r.allocations, |r.payments|)
    decreases |r.allocations|
  {
    if r.allocations == [] {
      NoAllocations(|r.invoices|);
      NoAllocations(|r.payments|);
    } else {
      BothSidesAgree(r.(allocations := r.allocations[..|r.allocations| - 1]));
      LastAllocation(r.allocations, |r.invoices|);
      LastAllocation(r.allocations, |r.payments|);
    }
  }

  lemma {:induction false} PaidIsAllocated(r: Records, n: nat)
    requires Exact(r) && n <= |r.invoices|
    ensures PaidByInvoices(r.invoices, n) == AllocatedToInvoices(r.allocations, n)
  {
    if n > 0 {
      PaidIsAllocated(r, n - 1);
      assert InvoiceExact(r, n - 1);
    }
  }

  // What invoices count as paid is, in total, what payments have given away.
  lemma {:induction false} PaidEqualsAllocated(steps: seq<Step>)
    requires forall k :: 0 <= k < |steps| ==> StepWithinDto(steps[k])
    ensures PaidByInvoices(Run(steps).invoices, |Run(steps).invoices|)
            == AllocatedByPayments(Run(steps).allocations, |Run(steps).payments|)
  {
    RunsKeepExact(steps);
    PaidIsAllocated(Run(steps), |Run(steps).invoices|);
    BothSidesAgree(Run(steps));
  }

  // ------------------------------------------------------------ payment limit

  ghost predicate WithinPayment(r: Records, j: nat) {
    j < |r.payments| ==> AllocatedBy(r.allocations, j) <= r.payments[j]
  }

  lemma {:induction false} AllocatedAfter(r: Records, j: nat, shares: seq<Share>, k: nat, p: nat)
    requires k <= |shares| && AllocateFirst(r, j, shares, k).Ok?
    ensures var next := AllocateFirst(r, j, shares, k).value;
            && next.payments == r.payments
            && AllocatedBy(next.allocations, p)
               == AllocatedBy(r.allocations, p) + (if p == j then Requested(shares[..k]) else 0.0)
  {
    if k > 0 {
      AllocatedAfter(r, j, shares, k - 1, p);
      assert shares[..k][..k - 1] == shares[..k - 1];
      AllocatedAfterOne(AllocateFirst(r, j, shares, k - 1).value, j, shares[k - 1], p);
    }
  }

  lemma {:induction false} AllocatedAfterOne(r: Records, j: nat, share: Share, p: nat)
    requires AllocateOne(r, j, share).Ok?
    ensures var next := AllocateOne(r, j, share).value;
            && next.payments == r.payments
            && AllocatedBy(next.allocations, p)
               == AllocatedBy(r.allocations, p) + (if p == j then share.amount else 0.0)
  {
    OneMoreAllocation(r.allocations, Allocation(share.invoice, j, share.amount), 0, p);
  }

  // applyPayment has no limit check: it keeps a payment within its amount
  // exactly when the amount applied still fits.
  predicate FitsPayment(r: Records, step: Step, p: nat) {
    step.Apply? && step.j == p && p < |r.payments| ==> AllocatedBy(r.allocations, p) + step.amount <= r.payments[p]
  }

  lemma {:induction false} StepKeepsPaymentIff(r: Records, step: Step, p: nat)
    requires WithinPayment(r, p) && References(r) && StepWithinDto(step) && Attempt(r, step).Ok?
    ensures WithinPayment(After(r, step), p) <==> FitsPayment(r, step, p)
  {
    match step
    case Apply(i, j, amount) => OneMoreAllocation(r.allocations, Allocation(i, j, amount), i, p);
    case Allocate(j, shares) =>
      AllocatedAfter(r, j, shares, |shares|, p);
      assert shares[..|shares|] == shares;
    case Receive(_) => if p == |r.payments| { NothingGiven(r, p); }
    case _ =>
  }

  lemma {:induction false} NothingGiven(r: Records, p: nat)
    requires forall k :: 0 <= k < |r.allocations| ==> r.allocations[k].payment != p
    ensures AllocatedBy(r.allocations, p) == 0.0
    decreases |r.allocations|
  {
    if r.allocations != [] {
      NothingGiven(r.(allocations := r.allocations[..|r.allocations| - 1]), p);
    }
  }

  // A payment that is only ever allocated through allocateToInvoices, or only
  // applied where it fits, never gives away more than its amount.
  lemma {:induction false} PaymentNeverExceeded(steps: seq<Step>, p: nat)
    requires forall k :: 0 <= k < |steps| ==> StepWithinDto(steps[k]) && FitsPayment(Run(steps[..k]), steps[k], p)
    ensures WithinPayment(Run(steps), p)
  {
    if steps != [] {
      var n := |steps| - 1;
      assert forall k :: 0 <= k < n ==> steps[..n][..k] == steps[..k];
      PaymentNeverExceeded(steps[..n], p);
      RunsKeepExact(steps[..n]);
      StepKeepsWithin(Run(steps[..n]), steps[n], p);
    }
  }

  lemma {:induction false} StepKeepsWithin(r: Records, step: Step, p: nat)
    requires WithinPayment(r, p) && References(r) && StepWithinDto(step) && FitsPayment(r, step, p)
    ensures WithinPayment(After(r, step), p)
  {
    if Attempt(r, step).Ok? { StepKeepsPaymentIff(r, step, p); }
  }

  lemma {:induction false} RunOneMore(steps: seq<Step>, step: Step)
    ensures Run(steps + [step]) == After(Run(steps), step)
  {
    assert (steps + [step])[..|steps|] == steps;
  }

  function OneLine(): seq<InvoiceLine> {
    [InvoiceLine(1.0, 10.0, 0.0)]
  }

  lemma {:induction false} OneLineInvoice()
    ensures NewInvoice(OneLine()) == Invoice(Draft, 10.0, 0.0, 10.0)
  {
    SingleLine(InvoiceLine(1.0, 10.0, 0.0));
  }

  lemma {:induction false} SingleLine(l: InvoiceLine)
    ensures Subtotal([l]) == LineSubtotal(l) && Tax([l]) == LineTax(l)
  {
    assert [l][..0] == [];
  }

  // The steps extended by an invoice of 10 that is created and posted.
  function WithInvoice(steps: seq<Step>, i: nat): seq<Step> {
    steps + [Create(OneLine())] + [Post(i)]
  }

  lemma {:induction false} AfterInvoice(steps: seq<Step>, i: nat)
    requires i == |Run(steps).invoices|
    ensures Run(WithInvoice(steps, i))
            == Run(steps).(invoices := Run(steps).invoices + [Invoice(Open, 10.0, 0.0, 10.0)])
  {
    OneLineInvoice();
    RunOneMore(steps, Create(OneLine()));
    RunOneMore(steps + [Create(OneLine())], Post(i));
  }

  // Two such invoices and one payment of 10.
  function TwoInvoices(): seq<Step> {
    WithInvoice(WithInvoice([], 0), 1) + [Receive(10.0)]
  }

  // Applied to both invoices, the payment gives away 20.
  lemma {:induction false} ApplyCanOverspend()
    ensures var later := Run(TwoInvoices() + [Apply(0, 0, 10.0)] + [Apply(1, 0, 10.0)]);
            later.payments == [10.0] && AllocatedBy(later.allocations, 0) == 20.0
  {
    AfterInvoice([], 0);
    AfterInvoice(WithInvoice([], 0), 1);
    RunOneMore(WithInvoice(WithInvoice([], 0), 1), Receive(10.0));
    RunOneMore(TwoInvoices(), Apply(0, 0, 10.0));
    RunOneMore(TwoInvoices() + [Apply(0, 0, 10.0)], Apply(1, 0, 10.0));
    var a, b := Allocation(0, 0, 10.0), Allocation(1, 0, 10.0);
    var once := Run(TwoInvoices() + [Apply(0, 0, 10.0)]);
    assert once.allocations == [a];
    assert !PairTaken(once, 1, 0);
    OneMoreAllocation([], a, 0, 0);
    OneMoreAllocation([a], b, 0, 0);
    assert [] + [a] == [a];
  }

  // ------------------------------------------------- reading before the transaction

  function Continued(r: Records, steps: seq<Step>): Records {
    if steps == [] then r else After(Continued(r, steps[..|steps| - 1]), steps[|steps| - 1])
  }

  lemma {:induction false} ContinuedIsExact(r: Records, steps: seq<Step>)
    requires Exact(r) && forall k :: 0 <= k < |steps| ==> StepWithinDto(steps[k])
    ensures Exact(Continued(r, steps))
  {
    if steps != [] {
      ContinuedIsExact(r, steps[..|steps| - 1]);
      StepKeepsExact(Continued(r, steps[..|steps| - 1]), steps[|steps| - 1]);
    }
  }

  // Invoices are never removed and never change their total.
  ghost predicate SameTotals(before: Records, after: Records) {
    |before.invoices| <= |after.invoices|
    && forall i :: 0 <= i < |before.invoices| ==> after.invoices[i].total == before.invoices[i].total
  }

  lemma {:induction false} AllocatingKeepsTotals(r: Records, j: nat, shares: seq<Share>, k: nat)
    requires k <= |shares| && AllocateFirst(r, j, shares, k).Ok?
    ensures SameTotals(r, AllocateFirst(r, j, shares, k).value)
  {
    if k > 0 {
      AllocatingKeepsTotals(r, j, shares, k - 1);
    }
  }

  lemma {:induction false} ContinuedKeepsTotals(r: Records, steps: seq<Step>)
    ensures SameTotals(r, Continued(r, steps))
  {
    if steps != [] {
      ContinuedKeepsTotals(r, steps[..|steps| - 1]);
      var now, step := Continued(r, steps[..|steps| - 1]), steps[|steps| - 1];
      if Attempt(now, step).Ok? && step.Allocate? {
        AllocatingKeepsTotals(now, step.j, step.shares, |step.shares|);
      }
    }
  }

  // An applyPayment that read its invoice, then saw other calls complete, and
  // then wrote: the amounts are right afterwards if and only if those calls left
  // what the invoice had been given as it was.
  lemma {:induction false} StaleApplyIff(r: Records, between: seq<Step>, i: nat, j: nat, amount: real)
    requires Exact(r) && forall k :: 0 <= k < |between| ==> StepWithinDto(between[k])
    requires ApplySeen(Continued(r, between), i, j, amount, InvoiceAt(r, i)).Ok?
    ensures var now := Continued(r, between);
            Exact(ApplySeen(now, i, j, amount, InvoiceAt(r, i)).value)
            <==> AllocatedTo(now.allocations, i) == AllocatedTo(r.allocations, i)
  {
    var now := Continued(r, between);
    var seen := r.invoices[i];
    ContinuedIsExact(r, between);
    ContinuedKeepsTotals(r, between);
    assert InvoiceExact(r, i) && InvoiceExact(now, i);
    StaleWriteIff(now, i, j, amount, seen);
  }

  lemma {:induction false} StaleWriteIff(now: Records, i: nat, j: nat, amount: real, seen: Invoice)
    requires Exact(now) && ApplySeen(now, i, j, amount, Some(seen)).Ok?
    requires seen.total == now.invoices[i].total && seen.paid + seen.outstanding == seen.total && seen.paid >= 0.0
    ensures Exact(ApplySeen(now, i, j, amount, Some(seen)).value) <==> seen.paid == now.invoices[i].paid
  {
    var next := ApplySeen(now, i, j, amount, Some(seen)).value;
    OneMoreAllocation(now.allocations, Allocation(i, j, amount), i, j);
    assert InvoiceExact(now, i);
    if seen.paid == now.invoices[i].paid {
      AllocationKeepsExact(now, i, j, amount, next);
    } else {
      assert !InvoiceExact(next, i);
    }
  }

  // Two payments of 5 applied to an invoice of 10 by calls that both read it
  // first: 10 are allocated, and 5 recorded as paid.
  lemma {:induction false} StaleApplyLosesPayment()
    ensures var read := Run(WithInvoice([], 0) + [Receive(5.0)] + [Receive(5.0)]);
            var now := Continued(read, [Apply(0, 0, 5.0)]);
            var after := ApplySeen(now, 0, 1, 5.0, InvoiceAt(read, 0));
            && after.Ok? && |after.value.invoices| == 1 && after.value.invoices[0].paid == 5.0
            && AllocatedTo(after.value.allocations, 0) == 10.0
  {
    AfterInvoice([], 0);
    RunOneMore(WithInvoice([], 0), Receive(5.0));
    RunOneMore(WithInvoice([], 0) + [Receive(5.0)], Receive(5.0));
    var read := Run(WithInvoice([], 0) + [Receive(5.0)] + [Receive(5.0)]);
    assert read == Records([Invoice(Open, 10.0, 0.0, 10.0)], [5.0, 5.0], []);
    var now := Continued(read, [Apply(0, 0, 5.0)]);
    assert now == After(read, Apply(0, 0, 5.0)) by { assert [Apply(0, 0, 5.0)][..0] == []; }
    assert now.allocations == [Allocation(0, 0, 5.0)];
    assert !PairTaken(now, 0, 1);
    OneMoreAllocation([], Allocation(0, 0, 5.0), 0, 0);
    OneMoreAllocation([Allocation(0, 0, 5.0)], Allocation(0, 1, 5.0), 0, 0);
    assert [] + [Allocation(0, 0, 5.0)] == [Allocation(0, 0, 5.0)];
  }

  // -------------------------------------------------- when an allocation succeeds

  ghost predicate NamedBefore(shares: seq<Share>, k: nat, i: nat)
    requires k <= |shares|
  {
    exists n :: 0 <= n < k && shares[n].invoice == i
  }

  // Share k can be given: its invoice exists, has that much outstanding, and has
  // nothing from this payment yet, neither stored nor named earlier.
  ghost predicate Givable(r: Records, j: nat, shares: seq<Share>, k: nat)
    requires k < |shares|
  {
    var i := shares[k].invoice;
    i < |r.invoices| && shares[k].amount <= r.invoices[i].outstanding
    && !PairTaken(r, i, j) && !NamedBefore(shares, k, i)
  }

  lemma {:induction false} PairTakenAfter(r: Records, i: nat, j: nat, a: Allocation)
    ensures PairTaken(r.(allocations := r.allocations + [a]), i, j)
            <==> PairTaken(r, i, j) || (a.invoice == i && a.payment == j)
  {
    var next := r.allocations + [a];
    assert next[|r.allocations|] == a;
    if PairTaken(r, i, j) {
      var k :| 0 <= k < |r.allocations| && r.allocations[k].invoice == i && r.allocations[k].payment == j;
      assert next[k] == r.allocations[k];
    }
  }

  lemma {:induction false} UntouchedInvoices(r: Records, j: nat, shares: seq<Share>, k: nat, i: nat)
    requires k <= |shares| && AllocateFirst(r, j, shares, k).Ok?
    ensures var next := AllocateFirst(r, j, shares, k).value;
            && |next.invoices| == |r.invoices| && next.payments == r.payments
            && (i < |r.invoices| && !NamedBefore(shares, k, i) ==> next.invoices[i] == r.invoices[i])
            && (PairTaken(next, i, j) <==> PairTaken(r, i, j) || NamedBefore(shares, k, i))
  {
    if k > 0 {
      UntouchedInvoices(r, j, shares, k - 1, i);
      var before := AllocateFirst(r, j, shares, k - 1).value;
      assert NamedBefore(shares, k, i) <==> NamedBefore(shares, k - 1, i) || shares[k - 1].invoice == i;
      PairTakenAfter(before, i, j, Allocation(shares[k - 1].invoice, j, shares[k - 1].amount));
    }
  }

  lemma {:induction false} AllocateFirstIff(r: Records, j: nat, shares: seq<Share>, k: nat)
    requires k <= |shares| && j < |r.payments|
    ensures AllocateFirst(r, j, shares, k).Ok? <==> forall n :: 0 <= n < k ==> Givable(r, j, shares, n)
  {
    if k > 0 {
      AllocateFirstIff(r, j, shares, k - 1);
      if AllocateFirst(r, j, shares, k - 1).Ok? {
        UntouchedInvoices(r, j, shares, k - 1, shares[k - 1].invoice);
        assert AllocateFirst(r, j, shares, k).Ok? <==> Givable(r, j, shares, k - 1);
      }
    }
  }

  // An allocation goes through exactly when the payment exists and still covers
  // the total, and every share can be given as the records stood at the start.
  lemma {:induction false} AllocateSucceedsIff(r: Records, j: nat, shares: seq<Share>)
    ensures AllocateToInvoices(r, j, shares).Ok?
            <==> && j < |r.payments|
                 && AllocatedBy(r.allocations, j) + Requested(shares) <= r.payments[j]
                 && forall n :: 0 <= n < |shares| ==> Givable(r, j, shares, n)
  {
    if j < |r.payments| {
      AllocateFirstIff(r, j, shares, |shares|);
    }
  }
}
