/**
 * The sales-order table: a search over customer name and order id combined with a status
 * dropdown, a click-to-sort header (a two-field state machine: which column, which direction),
 * the comparator behind it, and the revenue and pending-order summaries.
 */
module SalesOrders {
  import Text
  import Listing

  datatype SalesOrder = SalesOrder(id: string, customerId: string, customerName: string, orderDate: string,
                                   total: real, status: string, items: int)

  // ---------------------------------------------------------------------------------------------
  // Sort state

  /** The keys of a sales order, any of which can be the sort column. */
  datatype SortField = Id | CustomerId | CustomerName | OrderDate | Total | Status | Items

  datatype Direction = Asc | Desc

  function Flip(d: Direction): Direction {
    if d == Asc then Desc else Asc
  }

  /** The state after clicking the header of `clicked`: the same column flips the direction, another
      column becomes the sort column in ascending order. */
  function NextSort(field: SortField, direction: Direction, clicked: SortField): (SortField, Direction) {
    if field == clicked then (field, Flip(direction)) else (clicked, Asc)
  }

  lemma NextSortCases(field: SortField, direction: Direction, clicked: SortField)
    ensures NextSort(field, direction, clicked).0 == clicked
    ensures field == clicked ==> NextSort(field, direction, clicked).1 != direction
    ensures field != clicked ==> NextSort(field, direction, clicked).1 == Asc
  {
  }

  /** Clicking the same header twice restores the state. */
  lemma NextSortTwice(field: SortField, direction: Direction, clicked: SortField)
    ensures var (f, d) := NextSort(field, direction, clicked);
            var (f2, d2) := NextSort(f, d, clicked);
            (field == clicked ==> (f2, d2) == (field, direction)) &&
            (field != clicked ==> (f2, d2) == (clicked, Desc))
  {
  }

  // ---------------------------------------------------------------------------------------------
  // Comparator

  /** `localeCompare`, taken as plain lexicographic order on characters: negative, zero or positive. */
  function LexCompare(a: string, b: string): (r: int)
    ensures -1 <= r <= 1
  {
    if a == [] && b == [] then 0
    else if a == [] then -1
    else if b == [] then 1
    else if a[0] < b[0] then -1
    else if a[0] > b[0] then 1
    else LexCompare(a[1..], b[1..])
  }

  lemma {:induction false} LexCompareAntisymmetric(a: string, b: string)
    ensures LexCompare(a, b) == -LexCompare(b, a)
  {
    if a != [] && b != [] && a[0] == b[0] {
      LexCompareAntisymmetric(a[1..], b[1..]);
    }
  }

  lemma {:induction false} LexCompareZero(a: string, b: string)
    ensures LexCompare(a, b) == 0 <==> a == b
  {
    if a != [] && b != [] && a[0] == b[0] {
      LexCompareZero(a[1..], b[1..]);
      assert a == [a[0]] + a[1..] && b == [b[0]] + b[1..];
    }
  }

  lemma {:induction false} LexCompareTransitive(a: string, b: string, c: string)
    requires LexCompare(a, b) <= 0 && LexCompare(b, c) <= 0
    ensures LexCompare(a, c) <= 0
  {
    if a != [] && b != [] && c != [] && a[0] == b[0] && b[0] == c[0] {
      LexCompareTransitive(a[1..], b[1..], c[1..]);
    }
  }

  datatype SortValue = Text(s: string) | Number(n: real)

  /** `order[field]`: the key fields are strings except `total` and `items`. */
  function Key(o: SalesOrder, field: SortField): SortValue {
    match field
    case Id => Text(o.id)
    case CustomerId => Text(o.customerId)
    case CustomerName => Text(o.customerName)
    case OrderDate => Text(o.orderDate)
    case Total => Number(o.total)
    case Status => Text(o.status)
    case Items => Number(o.items as real)
  }

  /** The sort comparator: `localeCompare` for strings, the difference for numbers, the arguments
      swapped for the descending direction, and 0 for mixed kinds. */
  function Compare(a: SalesOrder, b: SalesOrder, field: SortField, direction: Direction): real {
    match (Key(a, field), Key(b, field))
    case (Text(x), Text(y)) =>
      if direction == Asc then LexCompare(x, y) as real else LexCompare(y, x) as real
    case (Number(x), Number(y)) =>
      if direction == Asc then x - y else y - x
    case _ => 0.0
  }

  lemma CompareAntisymmetric(a: SalesOrder, b: SalesOrder, field: SortField, direction: Direction)
    ensures Compare(a, b, field, direction) == -Compare(b, a, field, direction)
  {
    match field
    case Id => LexCompareAntisymmetric(a.id, b.id);
    case CustomerId => LexCompareAntisymmetric(a.customerId, b.customerId);
    case CustomerName => LexCompareAntisymmetric(a.customerName, b.customerName);
    case OrderDate => LexCompareAntisymmetric(a.orderDate, b.orderDate);
    case Status => LexCompareAntisymmetric(a.status, b.status);
    case Total =>
    case Items =>
  }

  lemma CompareTransitive(a: SalesOrder, b: SalesOrder, c: SalesOrder, field: SortField, direction: Direction)
    requires Compare(a, b, field, direction) <= 0.0 && Compare(b, c, field, direction) <= 0.0
    ensures Compare(a, c, field, direction) <= 0.0
  {
    match Key(a, field)
    case Text(x) =>
      var y, z := Key(b, field).s, Key(c, field).s;
      if direction == Asc {
        LexCompareTransitive(x, y, z);
      } else {
        LexCompareTransitive(z, y, x);
      }
    case Number(_) =>
  }

  // ---------------------------------------------------------------------------------------------
  // Sorting (Array#sort is stable; insertion keeps equal elements in their input order)

  predicate SortedBy(s: seq<SalesOrder>, field: SortField, direction: Direction) {
    forall i, j :: 0 <= i < j < |s| ==> Compare(s[i], s[j], field, direction) <= 0.0
  }

  /** Insert `x` after every element that does not compare above it. */
  function Insert(x: SalesOrder, s: seq<SalesOrder>, field: SortField, direction: Direction): (r: seq<SalesOrder>)
    ensures multiset(r) == multiset(s) + multiset{x}
  {
    if s == [] then [x]
    else if Compare(x, s[0], field, direction) < 0.0 then [x] + s
    else
      assert s == [s[0]] + s[1..];
      [s[0]] + Insert(x, s[1..], field, direction)
  }

  function SortOrders(s: seq<SalesOrder>, field: SortField, direction: Direction): (r: seq<SalesOrder>)
    ensures multiset(r) == multiset(s)
  {
    if s == [] then []
    else
      assert s == s[..|s| - 1] + [s[|s| - 1]];
      Insert(s[|s| - 1], SortOrders(s[..|s| - 1], field, direction), field, direction)
  }

  /** An element that compares at or below every element of a sorted list can go in front of it. */
  lemma ConsSorted(h: SalesOrder, rest: seq<SalesOrder>, field: SortField, direction: Direction)
    requires SortedBy(rest, field, direction)
    requires forall j :: 0 <= j < |rest| ==> Compare(h, rest[j], field, direction) <= 0.0
    ensures SortedBy([h] + rest, field, direction)
  {
    var r := [h] + rest;
    forall i, j | 0 <= i < j < |r| ensures Compare(r[i], r[j], field, direction) <= 0.0 {
      assert r[j] == rest[j - 1];
      if i > 0 {
        assert r[i] == rest[i - 1];
      }
    }
  }

  lemma SortedTail(s: seq<SalesOrder>, field: SortField, direction: Direction)
    requires s != [] && SortedBy(s, field, direction)
    ensures SortedBy(s[1..], field, direction)
    ensures forall j :: 0 <= j < |s[1..]| ==> Compare(s[0], s[1..][j], field, direction) <= 0.0
  {
    var tail := s[1..];
    forall i, j | 0 <= i < j < |tail| ensures Compare(tail[i], tail[j], field, direction) <= 0.0 {
      assert tail[i] == s[i + 1] && tail[j] == s[j + 1];
    }
    forall j | 0 <= j < |tail| ensures Compare(s[0], tail[j], field, direction) <= 0.0 {
      assert tail[j] == s[j + 1];
    }
  }

  lemma {:induction false} InsertSorted(x: SalesOrder, s: seq<SalesOrder>, field: SortField, direction: Direction)
    requires SortedBy(s, field, direction)
    ensures SortedBy(Insert(x, s, field, direction), field, direction)
  {
    if s != [] {
      var tail := s[1..];
      SortedTail(s, field, direction);
      if Compare(x, s[0], field, direction) < 0.0 {
        forall j | 0 <= j < |s| ensures Compare(x, s[j], field, direction) <= 0.0 {
          if j > 0 {
            assert s[j] == tail[j - 1];
            CompareTransitive(x, s[0], s[j], field, direction);
          }
        }
        ConsSorted(x, s, field, direction);
      } else {
        InsertSorted(x, tail, field, direction);
        var rest := Insert(x, tail, field, direction);
        CompareAntisymmetric(x, s[0], field, direction);
        forall j | 0 <= j < |rest| ensures Compare(s[0], rest[j], field, direction) <= 0.0 {
          var y := rest[j];
          assert y in multiset(tail) + multiset{x};
          if y != x {
            assert y in tail;
            var k :| 0 <= k < |tail| && tail[k] == y;
          }
        }
        ConsSorted(s[0], rest, field, direction);
      }
    }
  }

  /** The sorted rows are a permutation of the input, in comparator order. */
  lemma {:induction false} SortOrdersCorrect(s: seq<SalesOrder>, field: SortField, direction: Direction)
    ensures multiset(SortOrders(s, field, direction)) == multiset(s)
    ensures SortedBy(SortOrders(s, field, direction), field, direction)
  {
    if s != [] {
      SortOrdersCorrect(s[..|s| - 1], field, direction);
      InsertSorted(s[|s| - 1], SortOrders(s[..|s| - 1], field, direction), field, direction);
    }
  }

  /** Sorting by the total: ascending is non-decreasing and descending is non-increasing. */
  lemma SortByTotal(s: seq<SalesOrder>, direction: Direction)
    ensures var r := SortOrders(s, Total, direction);
            forall i, j :: 0 <= i < j < |r| ==>
              if direction == Asc then r[i].total <= r[j].total else r[i].total >= r[j].total
  {
    SortOrdersCorrect(s, Total, direction);
    var r := SortOrders(s, Total, direction);
    forall i, j | 0 <= i < j < |r|
      ensures if direction == Asc then r[i].total <= r[j].total else r[i].total >= r[j].total
    {
      assert Compare(r[i], r[j], Total, direction) <= 0.0;
    }
  }

  /** Sorting by a text column orders the rows lexicographically by that column. */
  lemma SortByCustomerName(s: seq<SalesOrder>, direction: Direction)
    ensures var r := SortOrders(s, CustomerName, direction);
            forall i, j :: 0 <= i < j < |r| ==>
              if direction == Asc then LexCompare(r[i].customerName, r[j].customerName) <= 0
              else LexCompare(r[j].customerName, r[i].customerName) <= 0
  {
    SortOrdersCorrect(s, CustomerName, direction);
    var r := SortOrders(s, CustomerName, direction);
    forall i, j | 0 <= i < j < |r|
      ensures if direction == Asc then LexCompare(r[i].customerName, r[j].customerName) <= 0
              else LexCompare(r[j].customerName, r[i].customerName) <= 0
    {
      assert Compare(r[i], r[j], CustomerName, direction) <= 0.0;
    }
  }

  // ---------------------------------------------------------------------------------------------
  // Filtering

  /** The search box matches the customer name or the order id, ignoring case. */
  predicate MatchesSearch(o: SalesOrder, term: string) {
    Text.MatchesIgnoringCase(o.customerName, term) || Text.MatchesIgnoringCase(o.id, term)
  }

  predicate Keep(o: SalesOrder, term: string, statusFilter: string) {
    MatchesSearch(o, term) && Listing.Selects(statusFilter, o.status)
  }

  function KeepWith(term: string, statusFilter: string): SalesOrder -> bool {
    o => Keep(o, term, statusFilter)
  }

  /** The rows the table shows: filtered, then sorted. */
  function Visible(orders: seq<SalesOrder>, term: string, statusFilter: string,
                   field: SortField, direction: Direction): seq<SalesOrder>
  {
    SortOrders(Listing.Filter(orders, KeepWith(term, statusFilter)), field, direction)
  }

  /** Every shown row is an order that matches the search and the status filter, every such order is
      shown as often as it occurs, and the rows are in comparator order. */
  lemma VisibleCorrect(orders: seq<SalesOrder>, term: string, statusFilter: string,
                       field: SortField, direction: Direction)
    ensures var r := Visible(orders, term, statusFilter, field, direction);
            && (forall i :: 0 <= i < |r| ==>
                  r[i] in orders && MatchesSearch(r[i], term) && (statusFilter == "all" || r[i].status == statusFilter))
            && (forall o :: o in orders && Keep(o, term, statusFilter) ==> multiset(r)[o] == multiset(orders)[o])
            && SortedBy(r, field, direction)
  {
    var kept := Listing.Filter(orders, KeepWith(term, statusFilter));
    var r := Visible(orders, term, statusFilter, field, direction);
    Listing.FilterMembers(orders, KeepWith(term, statusFilter));
    SortOrdersCorrect(kept, field, direction);
    forall i | 0 <= i < |r|
      ensures r[i] in orders && MatchesSearch(r[i], term) && (statusFilter == "all" || r[i].status == statusFilter)
    {
      assert r[i] in multiset(kept);
      assert KeepWith(term, statusFilter)(r[i]);
    }
    forall o | o in orders && Keep(o, term, statusFilter) ensures multiset(r)[o] == multiset(orders)[o] {
      Listing.FilterMultiset(orders, KeepWith(term, statusFilter), o);
    }
  }

  /** An empty search with status "all" shows every order. */
  lemma EmptySearchShowsAll(orders: seq<SalesOrder>, field: SortField, direction: Direction)
    ensures multiset(Visible(orders, "", "all", field, direction)) == multiset(orders)
  {
    forall o | o in orders ensures KeepWith("", "all")(o) {
      Text.MatchesEmptyTerm(o.customerName);
    }
    Listing.FilterKeepsAll(orders, KeepWith("", "all"));
    SortOrdersCorrect(orders, field, direction);
  }

  // ---------------------------------------------------------------------------------------------
  // Summaries

  predicate NotCancelled(o: SalesOrder) {
    o.status != "cancelled"
  }

  predicate IsPending(o: SalesOrder) {
    o.status == "pending"
  }

  function OrderTotal(o: SalesOrder): real {
    o.total
  }

  function TotalRevenue(orders: seq<SalesOrder>): real {
    Listing.Sum(Listing.Filter(orders, NotCancelled), OrderTotal)
  }

  function PendingOrders(orders: seq<SalesOrder>): nat {
    |Listing.Filter(orders, IsPending)|
  }

  /** Revenue plus the totals of the cancelled orders is the total of all orders; with non-negative
      totals the revenue is at most that. */
  lemma RevenueExcludesCancelled(orders: seq<SalesOrder>)
    ensures TotalRevenue(orders) + Listing.Sum(Listing.Filter(orders, Listing.Not(NotCancelled)), OrderTotal) ==
            Listing.Sum(orders, OrderTotal)
    ensures (forall o :: o in orders ==> o.total >= 0.0) ==> TotalRevenue(orders) <= Listing.Sum(orders, OrderTotal)
  {
    Listing.SumPartition(orders, NotCancelled, OrderTotal);
    if forall o :: o in orders ==> o.total >= 0.0 {
      Listing.SumFilterAtMost(orders, NotCancelled, OrderTotal);
    }
  }

  /** Pending orders are never more than all orders. */
  lemma PendingAtMostAll(orders: seq<SalesOrder>)
    ensures PendingOrders(orders) + |Listing.Filter(orders, Listing.Not(IsPending))| == |orders|
  {
    Listing.FilterPartitionCount(orders, IsPending);
  }

  // ---------------------------------------------------------------------------------------------
  // Status badge

  datatype Variant = Default | Secondary | Destructive | Outline

  /** The badge of a status: its variant and its label; an unknown status is shown as is. */
  function StatusBadge(status: string): (r: (Variant, string))
    ensures r.0 == Outline <==> status !in ["pending", "confirmed", "shipped", "delivered", "cancelled"]
    ensures r.0 == Outline ==> r.1 == status
  {
    match status
    case "pending" => (Secondary, "Pending")
    case "confirmed" => (Default, "Confirmed")
    case "shipped" => (Default, "Shipped")
    case "delivered" => (Default, "Delivered")
    case "cancelled" => (Destructive, "Cancelled")
    case _ => (Outline, status)
  }

  // ---------------------------------------------------------------------------------------------
  // The page

  const MockOrders: seq<SalesOrder> := [
    SalesOrder("SO-001", "CUST-001", "John Smith", "2024-01-15", 1250.00, "delivered", 3),
    SalesOrder("SO-002", "CUST-002", "Sarah Johnson", "2024-01-14", 850.50, "shipped", 2),
    SalesOrder("SO-003", "CUST-003", "Mike Davis", "2024-01-13", 2100.75, "confirmed", 5),
    SalesOrder("SO-004", "CUST-004", "Emily Brown", "2024-01-12", 450.00, "pending", 1),
    SalesOrder("SO-005", "CUST-005", "David Wilson", "2024-01-11", 750.25, "cancelled", 2)
  ]

  lemma MockNotCancelled()
    ensures Listing.Filter(MockOrders, NotCancelled) == MockOrders[..4]
  {
    MockStatuses();
    Listing.FilterDropsLast(MockOrders, NotCancelled);
  }

  /** Only the last sample order is cancelled. */
  lemma MockStatuses()
    ensures forall i :: 0 <= i < 4 ==> NotCancelled(MockOrders[i])
    ensures !NotCancelled(MockOrders[4])
  {
    var m := MockOrders;
    assert m[0].status[0] == 'd' && m[1].status[0] == 's' && m[2].status[1] == 'o' && m[3].status[0] == 'p';
  }

  lemma MockRevenue()
    ensures TotalRevenue(MockOrders) == 4651.25
  {
    MockNotCancelled();
    MockKeptTotal();
  }

  /** The four orders that are not cancelled total 4651.25. */
  lemma MockKeptTotal()
    ensures Listing.Sum(MockOrders[..4], OrderTotal) == 4651.25
  {
    var m := MockOrders;
    assert m[..4] == [m[0], m[1], m[2], m[3]];
    Listing.SumFour(m[0], m[1], m[2], m[3], OrderTotal);
  }

  lemma MockPending()
    ensures |MockOrders| == 5 && PendingOrders(MockOrders) == 1
  {
    var m := MockOrders;
    assert m == [m[0]] + ([m[1]] + ([m[2]] + ([m[3]] + [m[4]])));
    assert !IsPending(m[0]) && !IsPending(m[1]) && !IsPending(m[2]) && IsPending(m[3]) && !IsPending(m[4]);
    Listing.FilterCons(m[4], [], IsPending);
    Listing.FilterCons(m[3], [m[4]], IsPending);
    Listing.FilterCons(m[2], [m[3]] + [m[4]], IsPending);
    Listing.FilterCons(m[1], [m[2]] + ([m[3]] + [m[4]]), IsPending);
    Listing.FilterCons(m[0], [m[1]] + ([m[2]] + ([m[3]] + [m[4]])), IsPending);
  }

  class SalesOrdersPage {
    var orders: seq<SalesOrder>
    var searchTerm: string
    var statusFilter: string
    var sortField: SortField
    var sortDirection: Direction

    /** The page as it opens: the sample orders, no search, all statuses, newest order date first. */
    constructor ()
      ensures orders == MockOrders && searchTerm == "" && statusFilter == "all"
      ensures sortField == OrderDate && sortDirection == Desc
    {
      orders := MockOrders;
      searchTerm, statusFilter := "", "all";
      sortField, sortDirection := OrderDate, Desc;
    }

    /** A click on a column header. */
    method HandleSort(clicked: SortField)
      modifies this`sortField, this`sortDirection
      ensures (sortField, sortDirection) == NextSort(old(sortField), old(sortDirection), clicked)
      ensures old(sortField) == clicked ==> sortField == clicked && sortDirection == Flip(old(sortDirection))
      ensures old(sortField) != clicked ==> sortField == clicked && sortDirection == Asc
    {
      if sortField == clicked {
        sortDirection := if sortDirection == Asc then Desc else Asc;
      } else {
        sortField := clicked;
        sortDirection := Asc;
      }
    }

    function Rows(): seq<SalesOrder>
      reads this
    {
      Visible(orders, searchTerm, statusFilter, sortField, sortDirection)
    }
  }
}
