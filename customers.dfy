/**
 * The customer list: a search over name, e-mail and phone combined with status and group
 * dropdowns, the summary cards, the status badge, and the create dialog that appends a customer
 * under the next `CUST-` identifier.
 */
module Customers {
  import Text
  import Listing

  datatype Status = Active | Inactive {
    function Name(): string {
      match this
      case Active => "active"
      case Inactive => "inactive"
    }
  }

  datatype Customer = Customer(id: string, name: string, email: string, phone: string, customerGroup: string,
                               status: Status)

  /** What the create dialog submits: every field but the identifier. */
  datatype CustomerData = CustomerData(name: string, email: string, phone: string, customerGroup: string,
                                       status: Status)

  const Prefix: string := "CUST-"

  // ---------------------------------------------------------------------------------------------
  // Filtering

  /** Name and e-mail are compared ignoring case; the phone is searched for the term as typed. */
  predicate MatchesSearch(c: Customer, term: string) {
    Text.MatchesIgnoringCase(c.name, term) || Text.MatchesIgnoringCase(c.email, term) || Text.Contains(c.phone, term)
  }

  function KeepWith(term: string, statusFilter: string, groupFilter: string): Customer -> bool {
    (c: Customer) => MatchesSearch(c, term) && Listing.Selects(statusFilter, c.status.Name()) &&
                     Listing.Selects(groupFilter, c.customerGroup)
  }

  function FilterCustomers(customers: seq<Customer>, term: string, statusFilter: string, groupFilter: string): seq<Customer> {
    Listing.Filter(customers, KeepWith(term, statusFilter, groupFilter))
  }

  /** A customer is listed iff the search, the status and the group all accept it, "all" switching a
      dropdown off; the list keeps the input order. */
  lemma FilterCustomersCorrect(customers: seq<Customer>, term: string, statusFilter: string, groupFilter: string)
    ensures forall c :: c in FilterCustomers(customers, term, statusFilter, groupFilter) <==>
              && c in customers
              && (Text.MatchesIgnoringCase(c.name, term) || Text.MatchesIgnoringCase(c.email, term) ||
                  Text.Contains(c.phone, term))
              && (statusFilter == "all" || c.status.Name() == statusFilter)
              && (groupFilter == "all" || c.customerGroup == groupFilter)
    ensures forall a, b :: FilterCustomers(a + b, term, statusFilter, groupFilter) ==
                           FilterCustomers(a, term, statusFilter, groupFilter) + FilterCustomers(b, term, statusFilter, groupFilter)
  {
    Listing.FilterMembers(customers, KeepWith(term, statusFilter, groupFilter));
    forall a, b ensures FilterCustomers(a + b, term, statusFilter, groupFilter) ==
                        FilterCustomers(a, term, statusFilter, groupFilter) + FilterCustomers(b, term, statusFilter, groupFilter) {
      Listing.FilterConcat(a, b, KeepWith(term, statusFilter, groupFilter));
    }
  }

  /** The phone is not searched ignoring case: a phone "X" does not match the term "x", although it
      would under the comparison used for name and e-mail. */
  lemma PhoneMatchIsCaseSensitive()
    ensures var c := Customer("CUST-001", "", "", "X", "Standard", Active);
            !MatchesSearch(c, "x") && Text.MatchesIgnoringCase(c.phone, "x")
  {
    assert Text.ToLower("") == "" && Text.ToLower("X") == "x" && Text.ToLower("x") == "x";
    assert !Text.Contains("", "x");
    assert "X"[..1][0] == 'X' != 'x';
    assert "X"[1..] == "" && !Text.IsPrefix("x", "X");
    assert !Text.Contains("X", "x");
    assert Text.IsPrefix("x", "x");
  }

  // ---------------------------------------------------------------------------------------------
  // Summary cards and badge

  predicate IsActive(c: Customer) {
    c.status == Active
  }

  function InGroup(g: string): Customer -> bool {
    (c: Customer) => c.customerGroup == g
  }

  function ActiveCount(customers: seq<Customer>): nat {
    |Listing.Filter(customers, IsActive)|
  }

  function GroupCount(customers: seq<Customer>, g: string): nat {
    |Listing.Filter(customers, InGroup(g))|
  }

  /** The active card counts at most the customers, the rest being inactive; the Premium and VIP
      cards together count at most the customers. */
  lemma CardCounts(customers: seq<Customer>)
    ensures ActiveCount(customers) + |Listing.Filter(customers, Listing.Not(IsActive))| == |customers|
    ensures forall c :: c in Listing.Filter(customers, Listing.Not(IsActive)) ==> c.status == Inactive
    ensures GroupCount(customers, "Premium") + GroupCount(customers, "VIP") <= |customers|
  {
    Listing.FilterPartitionCount(customers, IsActive);
    PremiumAndVip(customers);
  }

  lemma {:induction false} PremiumAndVip(customers: seq<Customer>)
    ensures GroupCount(customers, "Premium") + GroupCount(customers, "VIP") <= |customers|
  {
    if customers != [] {
      PremiumAndVip(customers[1..]);
    }
  }

  datatype Variant = Default | Secondary

  /** `getStatusBadge`: the default variant and "Active" exactly for active customers. */
  function StatusBadge(status: Status): (r: (Variant, string))
    ensures r.0 == Default <==> status == Active
    ensures Text.ToLower(r.1) == status.Name()
  {
    var text := Text.Capitalize(status.Name());
    Text.CapitalizeLowersBack(status.Name());
    (if status == Active then Default else Secondary, text)
  }

  // ---------------------------------------------------------------------------------------------
  // Create dialog

  function IdOf(c: Customer): string {
    c.id
  }

  /** `handleCreateCustomer`: the submitted fields under the next identifier, appended at the end. */
  function Create(customers: seq<Customer>, data: CustomerData): (r: seq<Customer>)
    ensures |r| == |customers| + 1 && r[..|customers|] == customers
    ensures r[|customers|].id == Listing.NextId(Prefix, |customers|)
    ensures var c := r[|customers|];
            c.name == data.name && c.email == data.email && c.phone == data.phone &&
            c.customerGroup == data.customerGroup && c.status == data.status
  {
    customers + [Customer(Listing.NextId(Prefix, |customers|), data.name, data.email, data.phone,
                          data.customerGroup, data.status)]
  }

  /** While customers are only ever created, every identifier is the one its position was created
      with, and a new customer's identifier is different from every existing one. */
  lemma CreateKeepsIdsSequential(customers: seq<Customer>, data: CustomerData)
    requires Listing.SequentialIds(customers, IdOf, Prefix)
    ensures Listing.SequentialIds(Create(customers, data), IdOf, Prefix)
    ensures forall k :: 0 <= k < |customers| ==> customers[k].id != Create(customers, data)[|customers|].id
  {
    var r := Create(customers, data);
    assert r == customers + [r[|customers|]];
    Listing.AppendNextId(customers, r[|customers|], IdOf, Prefix);
  }

  const MockCustomers: seq<Customer> := [
    Customer("CUST-001", "John Smith", "john.smith@email.com", "+1 234-567-8900", "Premium", Active),
    Customer("CUST-002", "Sarah Johnson", "sarah.johnson@email.com", "+1 234-567-8901", "Standard", Active),
    Customer("CUST-003", "Mike Wilson", "mike.wilson@email.com", "+1 234-567-8902", "VIP", Inactive),
    Customer("CUST-004", "Emily Davis", "emily.davis@email.com", "+1 234-567-8903", "Standard", Active)
  ]

  /** The sample customers carry the identifiers 1 to 4, and the next one is "CUST-005". */
  lemma MockIds()
    ensures Listing.SequentialIds(MockCustomers, IdOf, Prefix)
    ensures Listing.NextId(Prefix, |MockCustomers|) == "CUST-005"
  {
    Listing.NextIdOneDigit(Prefix, 0);
    Listing.NextIdOneDigit(Prefix, 1);
    Listing.NextIdOneDigit(Prefix, 2);
    Listing.NextIdOneDigit(Prefix, 3);
    Listing.NextIdOneDigit(Prefix, 4);
    assert Text.DigitChar(1) == '1' && Text.DigitChar(2) == '2' && Text.DigitChar(3) == '3';
    assert Text.DigitChar(4) == '4' && Text.DigitChar(5) == '5';
  }

  class CustomersPage {
    var customers: seq<Customer>

    constructor()
      ensures customers == MockCustomers
    {
      customers := MockCustomers;
    }

    /** `handleCreateCustomer`: the list state becomes the old list with the new customer appended. */
    method HandleCreate(data: CustomerData)
      modifies this
      ensures customers == Create(old(customers), data)
    {
      customers := customers + [Customer(Listing.NextId(Prefix, |customers|), data.name, data.email, data.phone,
                                         data.customerGroup, data.status)];
    }
  }
}
