/**
 * The invoice list: a search over invoice number, customer name and e-mail combined with a status
 * dropdown, the four summary cards (total, paid, outstanding, overdue) with their counts, and the
 * capitalised status label of each row.
 */
module Invoices {
  import Text
  import Listing

  datatype Status = Draft | Sent | Paid | Overdue | Cancelled {
    /** The status as the data and the dropdown spell it. */
    function Name(): string {
      match this
      case Draft => "draft"
      case Sent => "sent"
      case Paid => "paid"
      case Overdue => "overdue"
      case Cancelled => "cancelled"
    }
  }

  datatype Invoice = Invoice(id: string, invoiceNumber: string, customerName: string, customerEmail: string,
                             issueDate: string, dueDate: string, amount: real, status: Status, items: int)

  // ---------------------------------------------------------------------------------------------
  // Filtering

  predicate MatchesSearch(inv: Invoice, term: string) {
    Text.MatchesIgnoringCase(inv.invoiceNumber, term) || Text.MatchesIgnoringCase(inv.customerName, term) ||
    Text.MatchesIgnoringCase(inv.customerEmail, term)
  }

  function KeepWith(term: string, statusFilter: string): Invoice -> bool {
    (inv: Invoice) => MatchesSearch(inv, term) && Listing.Selects(statusFilter, inv.status.Name())
  }

  function FilterInvoices(invoices: seq<Invoice>, term: string, statusFilter: string): seq<Invoice> {
    Listing.Filter(invoices, KeepWith(term, statusFilter))
  }

  /** An invoice is listed iff its number, customer name or e-mail contains the term (ignoring case)
      and its status is the selected one or the filter is "all"; each listed invoice keeps all its
      occurrences and the list keeps the input order. */
  lemma FilterInvoicesCorrect(invoices: seq<Invoice>, term: string, statusFilter: string)
    ensures forall inv :: inv in FilterInvoices(invoices, term, statusFilter) <==>
              inv in invoices && MatchesSearch(inv, term) && (statusFilter == "all" || inv.status.Name() == statusFilter)
    ensures forall inv :: inv in FilterInvoices(invoices, term, statusFilter) ==>
              multiset(FilterInvoices(invoices, term, statusFilter))[inv] == multiset(invoices)[inv]
    ensures forall a, b :: FilterInvoices(a + b, term, statusFilter) ==
                           FilterInvoices(a, term, statusFilter) + FilterInvoices(b, term, statusFilter)
  {
    var p := KeepWith(term, statusFilter);
    Listing.FilterMembers(invoices, p);
    forall inv | inv in FilterInvoices(invoices, term, statusFilter)
      ensures multiset(FilterInvoices(invoices, term, statusFilter))[inv] == multiset(invoices)[inv]
    {
      Listing.FilterMultiset(invoices, p, inv);
    }
    forall a, b ensures FilterInvoices(a + b, term, statusFilter) ==
                        FilterInvoices(a, term, statusFilter) + FilterInvoices(b, term, statusFilter) {
      Listing.FilterConcat(a, b, p);
    }
  }

  /** An empty search with status "all" lists every invoice. */
  lemma EmptySearchShowsAll(invoices: seq<Invoice>)
    ensures FilterInvoices(invoices, "", "all") == invoices
  {
    forall inv | inv in invoices ensures KeepWith("", "all")(inv) {
      Text.MatchesEmptyTerm(inv.invoiceNumber);
    }
    Listing.FilterKeepsAll(invoices, KeepWith("", "all"));
  }

  // ---------------------------------------------------------------------------------------------
  // Summary cards

  function Amount(inv: Invoice): real {
    inv.amount
  }

  predicate IsPaid(inv: Invoice) {
    inv.status == Paid
  }

  predicate IsOverdue(inv: Invoice) {
    inv.status == Overdue
  }

  predicate IsCancelled(inv: Invoice) {
    inv.status == Cancelled
  }

  /** The "pending invoices" of the outstanding card: neither paid nor cancelled. */
  predicate IsPending(inv: Invoice) {
    inv.status != Paid && inv.status != Cancelled
  }

  function TotalAmount(invoices: seq<Invoice>): real {
    Listing.Sum(invoices, Amount)
  }

  function PaidAmount(invoices: seq<Invoice>): real {
    Listing.Sum(Listing.Filter(invoices, IsPaid), Amount)
  }

  /** The outstanding card: the total minus the paid amount. */
  function Outstanding(invoices: seq<Invoice>): real {
    TotalAmount(invoices) - PaidAmount(invoices)
  }

  function OverdueCount(invoices: seq<Invoice>): nat {
    |Listing.Filter(invoices, IsOverdue)|
  }

  function PaidCount(invoices: seq<Invoice>): nat {
    |Listing.Filter(invoices, IsPaid)|
  }

  function CancelledCount(invoices: seq<Invoice>): nat {
    |Listing.Filter(invoices, IsCancelled)|
  }

  function PendingCount(invoices: seq<Invoice>): nat {
    |Listing.Filter(invoices, IsPending)|
  }

  /** The outstanding amount is the sum over every invoice that is not paid, cancelled ones
      included; with non-negative amounts it is non-negative and the paid amount is at most the
      total. */
  lemma OutstandingIsUnpaidSum(invoices: seq<Invoice>)
    ensures Outstanding(invoices) == Listing.Sum(Listing.Filter(invoices, Listing.Not(IsPaid)), Amount)
    ensures (forall inv :: inv in invoices ==> inv.amount >= 0.0) ==>
              0.0 <= PaidAmount(invoices) <= TotalAmount(invoices) && Outstanding(invoices) >= 0.0
  {
    Listing.SumPartition(invoices, IsPaid, Amount);
    if forall inv :: inv in invoices ==> inv.amount >= 0.0 {
      Listing.FilterMembers(invoices, IsPaid);
      Listing.FilterMembers(invoices, Listing.Not(IsPaid));
      Listing.SumNonnegative(Listing.Filter(invoices, IsPaid), Amount);
      Listing.SumNonnegative(Listing.Filter(invoices, Listing.Not(IsPaid)), Amount);
    }
  }

  /** Every invoice is counted exactly once as paid, cancelled or pending. */
  lemma {:induction false} CountsPartition(invoices: seq<Invoice>)
    ensures PaidCount(invoices) + CancelledCount(invoices) + PendingCount(invoices) == |invoices|
  {
    if invoices != [] {
      CountsPartition(invoices[1..]);
    }
  }

  // ---------------------------------------------------------------------------------------------
  // Status column

  /** The label of the status badge: the status with its first letter upper-cased. */
  function StatusLabel(s: Status): string {
    Text.Capitalize(s.Name())
  }

  /** The label is the status name with a capital first letter, it lower-cases back to the name, and
      different statuses get different labels. */
  lemma StatusLabelCorrect(s: Status, t: Status)
    ensures |StatusLabel(s)| == |s.Name()| > 0
    ensures Text.IsUpperLetter(StatusLabel(s)[0]) && StatusLabel(s)[1..] == s.Name()[1..]
    ensures Text.ToLower(StatusLabel(s)) == s.Name()
    ensures StatusLabel(s) == StatusLabel(t) ==> s == t
  {
    Text.CapitalizeLowersBack(s.Name());
    Text.CapitalizeLowersBack(t.Name());
  }

  /** The colour classes of the status badge: green exactly for a paid invoice, red exactly for an
      overdue one. */
  function StatusColor(s: Status): (r: string)
    ensures r == "bg-green-100 text-green-800" <==> s == Paid
    ensures r == "bg-red-100 text-red-800" <==> s == Overdue
  {
    match s
    case Draft => "bg-gray-100 text-gray-800"
    case Sent => "bg-blue-100 text-blue-800"
    case Paid => "bg-green-100 text-green-800"
    case Overdue => "bg-red-100 text-red-800"
    case Cancelled => "bg-gray-100 text-gray-600"
  }

  /** Each status has its own badge colour, so the colour alone tells the status. */
  lemma StatusColorsDistinct(s: Status, t: Status)
    ensures StatusColor(s) == StatusColor(t) <==> s == t
  {
  }

  // ---------------------------------------------------------------------------------------------
  // Sample data

  const MockInvoices: seq<Invoice> := [
    Invoice("1", "INV-001", "John Doe", "john@example.com", "2024-01-15", "2024-02-15", 1250.00, Paid, 3),
    Invoice("2", "INV-002", "Jane Smith", "jane@example.com", "2024-01-20", "2024-02-20", 850.50, Sent, 2),
    Invoice("3", "INV-003", "Bob Johnson", "bob@example.com", "2024-01-10", "2024-01-25", 2100.75, Overdue, 5),
    Invoice("4", "INV-004", "Alice Brown", "alice@example.com", "2024-01-25", "2024-02-25", 450.00, Draft, 1)
  ]

  /** The sample cards: 4651.25 in total, 1250 paid by one invoice, 3401.25 outstanding over three
      pending invoices, one overdue. */
  lemma MockSummary()
    ensures TotalAmount(MockInvoices) == 4651.25
    ensures PaidAmount(MockInvoices) == 1250.0 && PaidCount(MockInvoices) == 1
    ensures Outstanding(MockInvoices) == 3401.25 && PendingCount(MockInvoices) == 3
    ensures OverdueCount(MockInvoices) == 1
  {
    MockTotal();
    MockPaid();
    MockCounts();
  }

  lemma MockTotal()
    ensures TotalAmount(MockInvoices) == 4651.25
  {
    var m := MockInvoices;
    assert m == [m[0]] + ([m[1]] + ([m[2]] + [m[3]]));
    Listing.SumCons(m[0], [m[1]] + ([m[2]] + [m[3]]), Amount);
    Listing.SumCons(m[1], [m[2]] + [m[3]], Amount);
    Listing.SumCons(m[2], [m[3]], Amount);
    Listing.SumCons(m[3], [], Amount);
    assert [m[3]] + [] == [m[3]];
  }

  lemma MockPaid()
    ensures Listing.Filter(MockInvoices, IsPaid) == [MockInvoices[0]]
    ensures PaidAmount(MockInvoices) == 1250.0
  {
    var m := MockInvoices;
    assert Listing.Filter(m[3..], IsPaid) == [];
    assert Listing.Filter(m[2..], IsPaid) == [];
    assert Listing.Filter(m[1..], IsPaid) == [];
    Listing.SumCons(m[0], [], Amount);
    assert [m[0]] + [] == [m[0]];
  }

  lemma MockCounts()
    ensures CancelledCount(MockInvoices) == 0 && OverdueCount(MockInvoices) == 1
    ensures PendingCount(MockInvoices) == 3
  {
    var m := MockInvoices;
    MockPaid();
    CountsPartition(m);
    assert Listing.Filter(m[3..], IsCancelled) == [];
    assert Listing.Filter(m[2..], IsCancelled) == [];
    assert Listing.Filter(m[1..], IsCancelled) == [];
    assert Listing.Filter(m[3..], IsOverdue) == [];
    assert Listing.Filter(m[2..], IsOverdue) == [m[2]];
    assert Listing.Filter(m[1..], IsOverdue) == [m[2]];
  }

  lemma OverdueLabel()
    ensures StatusLabel(Overdue) == "Overdue"
  {
  }
}
