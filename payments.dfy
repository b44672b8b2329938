/**
 * The payments list: a search over customer name and payment id combined with a status dropdown,
 * the status badge, and the total, completed and pending summary cards.
 */
module Payments {
  import Text
  import Listing

  datatype Status = Completed | Pending | Failed {
    function Name(): string {
      match this
      case Completed => "completed"
      case Pending => "pending"
      case Failed => "failed"
    }
  }

  datatype Payment = Payment(id: string, customerId: string, customerName: string, amount: real, date: string,
                             status: Status, paymentMethod: string)

  predicate MatchesSearch(p: Payment, term: string) {
    Text.MatchesIgnoringCase(p.customerName, term) || Text.MatchesIgnoringCase(p.id, term)
  }

  function KeepWith(term: string, statusFilter: string): Payment -> bool {
    (p: Payment) => MatchesSearch(p, term) && Listing.Selects(statusFilter, p.status.Name())
  }

  function FilterPayments(payments: seq<Payment>, term: string, statusFilter: string): seq<Payment> {
    Listing.Filter(payments, KeepWith(term, statusFilter))
  }

  /** A payment is listed iff its customer name or id contains the term (ignoring case) and its
      status is the selected one or the filter is "all"; the list keeps the input order. */
  lemma FilterPaymentsCorrect(payments: seq<Payment>, term: string, statusFilter: string)
    ensures forall p :: p in FilterPayments(payments, term, statusFilter) <==>
              p in payments && MatchesSearch(p, term) && (statusFilter == "all" || p.status.Name() == statusFilter)
    ensures forall a, b :: FilterPayments(a + b, term, statusFilter) ==
                           FilterPayments(a, term, statusFilter) + FilterPayments(b, term, statusFilter)
  {
    Listing.FilterMembers(payments, KeepWith(term, statusFilter));
    forall a, b ensures FilterPayments(a + b, term, statusFilter) ==
                        FilterPayments(a, term, statusFilter) + FilterPayments(b, term, statusFilter) {
      Listing.FilterConcat(a, b, KeepWith(term, statusFilter));
    }
  }

  datatype Variant = Default | Secondary | Destructive | Outline

  /** `getStatusBadge`: the variant and the text of the badge; an unknown status is shown verbatim
      with the outline variant. */
  function StatusBadge(status: string): (r: (Variant, string))
    ensures r.0 == Outline <==> status !in ["completed", "pending", "failed"]
    ensures status == "completed" ==> r.0 == Default
    ensures status == "pending" ==> r.0 == Secondary
    ensures status == "failed" ==> r.0 == Destructive
    ensures r.0 == Outline ==> r.1 == status
    ensures forall s: Status :: status == s.Name() ==> r.1 == Text.Capitalize(s.Name())
  {
    match status
    case "completed" => (Default, "Completed")
    case "pending" => (Secondary, "Pending")
    case "failed" => (Destructive, "Failed")
    case _ => (Outline, status)
  }

  function Amount(p: Payment): real {
    p.amount
  }

  predicate IsCompleted(p: Payment) {
    p.status == Completed
  }

  predicate IsPending(p: Payment) {
    p.status == Pending
  }

  predicate IsFailed(p: Payment) {
    p.status == Failed
  }

  /** The total card sums every payment, whatever its status. */
  function TotalAmount(payments: seq<Payment>): real {
    Listing.Sum(payments, Amount)
  }

  function CompletedCount(payments: seq<Payment>): nat {
    |Listing.Filter(payments, IsCompleted)|
  }

  function PendingCount(payments: seq<Payment>): nat {
    |Listing.Filter(payments, IsPending)|
  }

  function FailedCount(payments: seq<Payment>): nat {
    |Listing.Filter(payments, IsFailed)|
  }

  /** Completed, pending and failed payments together are all of them, so completed and pending
      never exceed the count. */
  lemma {:induction false} CountsPartition(payments: seq<Payment>)
    ensures CompletedCount(payments) + PendingCount(payments) + FailedCount(payments) == |payments|
    ensures CompletedCount(payments) + PendingCount(payments) <= |payments|
  {
    if payments != [] {
      CountsPartition(payments[1..]);
    }
  }

  /** The total is the completed, pending and failed sums added up: nothing is left out. */
  lemma TotalIncludesEveryStatus(payments: seq<Payment>)
    ensures TotalAmount(payments) ==
            Listing.Sum(Listing.Filter(payments, IsCompleted), Amount) +
            Listing.Sum(Listing.Filter(Listing.Filter(payments, Listing.Not(IsCompleted)), IsPending), Amount) +
            Listing.Sum(Listing.Filter(Listing.Filter(payments, Listing.Not(IsCompleted)), Listing.Not(IsPending)), Amount)
  {
    Listing.SumPartition(payments, IsCompleted, Amount);
    Listing.SumPartition(Listing.Filter(payments, Listing.Not(IsCompleted)), IsPending, Amount);
  }

  const MockPayments: seq<Payment> := [
    Payment("PAY-001", "CUST-001", "John Smith", 1250.00, "2024-01-15", Completed, "Credit Card"),
    Payment("PAY-002", "CUST-002", "Sarah Johnson", 850.50, "2024-01-14", Pending, "Bank Transfer"),
    Payment("PAY-003", "CUST-003", "Mike Davis", 2100.75, "2024-01-13", Completed, "Cash"),
    Payment("PAY-004", "CUST-004", "Emily Brown", 450.00, "2024-01-12", Failed, "Credit Card")
  ]

  /** The sample cards: 4651.25 in total, two completed and one pending payment. */
  lemma MockSummary()
    ensures TotalAmount(MockPayments) == 4651.25
    ensures CompletedCount(MockPayments) == 2 && PendingCount(MockPayments) == 1
  {
    var m := MockPayments;
    assert m == [m[0]] + ([m[1]] + ([m[2]] + [m[3]]));
    Listing.SumCons(m[0], [m[1]] + ([m[2]] + [m[3]]), Amount);
    Listing.SumCons(m[1], [m[2]] + [m[3]], Amount);
    Listing.SumCons(m[2], [m[3]], Amount);
    Listing.SumCons(m[3], [], Amount);
    assert [m[3]] + [] == [m[3]];
    assert Listing.Filter(m[3..], IsCompleted) == [];
    assert Listing.Filter(m[2..], IsCompleted) == [m[2]];
    assert Listing.Filter(m[1..], IsCompleted) == [m[2]];
    assert Listing.Filter(m[2..], IsPending) == [];
    assert Listing.Filter(m[1..], IsPending) == [m[1]];
  }
}
