/**
 * The inventory page: the stock-movement log with its search and type filter, the signed quantity
 * display, the per-product stock badge, and the low-stock, out-of-stock and stock-value summaries
 * over the shared catalogue.
 */
module PurchaseOrders {
  import Text
  import Listing
  import DummyData
  import ProductCard

  datatype MovementType = In | Out | Adjustment {
    /** The type as the data and the dropdown spell it. */
    function Name(): string {
      match this
      case In => "in"
      case Out => "out"
      case Adjustment => "adjustment"
    }
  }

  datatype StockMovement = StockMovement(id: string, productId: string, productName: string, kind: MovementType,
                                         quantity: int, previousStock: int, newStock: int, reason: string,
                                         date: string, user: string)

  // ---------------------------------------------------------------------------------------------
  // Movement log

  predicate MatchesSearch(m: StockMovement, term: string) {
    Text.MatchesIgnoringCase(m.productName, term) || Text.MatchesIgnoringCase(m.reason, term)
  }

  function KeepWith(term: string, typeFilter: string): StockMovement -> bool {
    (m: StockMovement) => MatchesSearch(m, term) && Listing.Selects(typeFilter, m.kind.Name())
  }

  function FilterMovements(ms: seq<StockMovement>, term: string, typeFilter: string): seq<StockMovement> {
    Listing.Filter(ms, KeepWith(term, typeFilter))
  }

  /** A movement is shown iff its product name or reason contains the term (ignoring case) and its
      type is the selected one or the filter is "all"; the log's order is kept. */
  lemma FilterMovementsCorrect(ms: seq<StockMovement>, term: string, typeFilter: string)
    ensures forall m :: m in FilterMovements(ms, term, typeFilter) <==>
              m in ms && MatchesSearch(m, term) && (typeFilter == "all" || m.kind.Name() == typeFilter)
    ensures forall a, b :: FilterMovements(a + b, term, typeFilter) ==
                           FilterMovements(a, term, typeFilter) + FilterMovements(b, term, typeFilter)
  {
    Listing.FilterMembers(ms, KeepWith(term, typeFilter));
    forall a, b ensures FilterMovements(a + b, term, typeFilter) ==
                        FilterMovements(a, term, typeFilter) + FilterMovements(b, term, typeFilter) {
      Listing.FilterConcat(a, b, KeepWith(term, typeFilter));
    }
  }

  function Abs(n: int): nat {
    if n < 0 then -n else n
  }

  /** The quantity cell: '+' for stock in, '-' for stock out, no sign for an adjustment, then the
      absolute quantity. */
  function QuantityDisplay(m: StockMovement): string {
    (match m.kind case In => "+" case Out => "-" case Adjustment => "") + Text.NatToDecimal(Abs(m.quantity))
  }

  lemma QuantityDisplayParts(m: StockMovement)
    ensures var d := QuantityDisplay(m); var k := if m.kind == Adjustment then 0 else 1;
            && |d| > k
            && (m.kind == In <==> d[0] == '+')
            && (m.kind == Out <==> d[0] == '-')
            && Text.AllDigits(d[k..])
            && Text.DecimalValue(d[k..]) == Abs(m.quantity)
  {
    var digits := Text.NatToDecimal(Abs(m.quantity));
    Text.DecimalRoundTrip(Abs(m.quantity));
    var d := QuantityDisplay(m);
    if m.kind == Adjustment {
      assert d == digits;
      assert Text.IsDigit(d[0]);
    } else {
      assert d[1..] == digits;
    }
  }

  /** A movement's bookkeeping: stock in and adjustments add the (signed) quantity, stock out subtracts it. */
  predicate Balanced(m: StockMovement) {
    if m.kind == Out then m.newStock == m.previousStock - m.quantity
    else m.newStock == m.previousStock + m.quantity
  }

  const Movements: seq<StockMovement> := [
    StockMovement("1", "1", "Wireless Bluetooth Headphones", In, 50, 150, 200, "Restock from supplier",
                  "2024-06-08", "John Doe"),
    StockMovement("2", "2", "Ergonomic Office Chair", Out, 5, 50, 45, "Sale order #INV-001", "2024-06-07", "System"),
    StockMovement("3", "3", "Smartphone Case", Adjustment, -2, 7, 5, "Damaged items", "2024-06-06", "Sarah Johnson")
  ]

  lemma MockMovements()
    ensures forall i :: 0 <= i < |Movements| ==> Balanced(Movements[i])
    ensures QuantityDisplay(Movements[0]) == "+50" && QuantityDisplay(Movements[1]) == "-5"
    ensures QuantityDisplay(Movements[2]) == "2"
  {
  }

  // ---------------------------------------------------------------------------------------------
  // Stock overview

  datatype StockBadge = OutOfStockBadge | LowStockBadge | InStockBadge {
    function Label(): string {
      match this
      case OutOfStockBadge => "Out of Stock"
      case LowStockBadge => "Low Stock"
      case InStockBadge => "In Stock"
    }
  }

  /** The colour of the stock number and the badge of a product row. */
  function StockColor(p: DummyData.Product): string {
    if p.stock == 0 then "text-red-600"
    else if p.stock <= p.lowStockThreshold then "text-yellow-600"
    else "text-green-600"
  }

  function BadgeOf(p: DummyData.Product): StockBadge {
    if p.stock == 0 then OutOfStockBadge
    else if p.stock <= p.lowStockThreshold then LowStockBadge
    else InStockBadge
  }

  /** The table's badge, its colour and the product card's indicator always agree. */
  lemma BadgeAgreesWithCard(p: DummyData.Product)
    ensures BadgeOf(p).Label() == ProductCard.GetStockStatus(p).text
    ensures StockColor(p) == ProductCard.GetStockStatus(p).color
    ensures BadgeOf(p) == OutOfStockBadge <==> p.stock == 0
    ensures BadgeOf(p) == LowStockBadge <==> p.stock != 0 && p.stock <= p.lowStockThreshold
  {
  }

  predicate IsOutOfStock(p: DummyData.Product) {
    p.stock == 0
  }

  function OutOfStockProducts(ps: seq<DummyData.Product>): seq<DummyData.Product> {
    Listing.Filter(ps, IsOutOfStock)
  }

  /** With non-negative thresholds every out-of-stock product is also a low-stock product, occurrence
      for occurrence. */
  lemma OutOfStockWithinLowStock(ps: seq<DummyData.Product>)
    requires forall p :: p in ps ==> p.lowStockThreshold >= 0
    ensures multiset(OutOfStockProducts(ps)) <= multiset(DummyData.LowStock(ps))
    ensures |OutOfStockProducts(ps)| <= |DummyData.LowStock(ps)|
  {
    forall p ensures multiset(OutOfStockProducts(ps))[p] <= multiset(DummyData.LowStock(ps))[p] {
      Listing.FilterMultiset(ps, IsOutOfStock, p);
      Listing.FilterMultiset(ps, DummyData.IsLowStock, p);
    }
    assert |multiset(OutOfStockProducts(ps))| <= |multiset(DummyData.LowStock(ps))| by {
      MultisetSizeMonotone(multiset(OutOfStockProducts(ps)), multiset(DummyData.LowStock(ps)));
    }
  }

  lemma MultisetSizeMonotone<T>(a: multiset<T>, b: multiset<T>)
    requires a <= b
    ensures |a| <= |b|
  {
    assert b == a + (b - a);
  }

  function StockValue(p: DummyData.Product): real {
    p.stock as real * p.cost
  }

  function TotalStockValue(ps: seq<DummyData.Product>): real {
    Listing.Sum(ps, StockValue)
  }

  /** The value of stock on hand is non-negative when stock and costs are, and is the same for any
      order of the catalogue. */
  lemma TotalStockValueProperties(ps: seq<DummyData.Product>, qs: seq<DummyData.Product>)
    ensures (forall p :: p in ps ==> p.stock >= 0 && p.cost >= 0.0) ==> TotalStockValue(ps) >= 0.0
    ensures multiset(ps) == multiset(qs) ==> TotalStockValue(ps) == TotalStockValue(qs)
  {
    if forall p :: p in ps ==> p.stock >= 0 && p.cost >= 0.0 {
      Listing.SumNonnegative(ps, StockValue);
    }
    if multiset(ps) == multiset(qs) {
      Listing.SumPermutation(ps, qs, StockValue);
    }
  }

  /** The sample catalogue: two low-stock products, one out of stock, 17470 worth of stock. */
  lemma MockOverview()
    ensures |DummyData.LowStock(DummyData.Products)| == 2
    ensures OutOfStockProducts(DummyData.Products) == [DummyData.Products[3]]
    ensures TotalStockValue(DummyData.Products) == 17470.0
  {
    var m := DummyData.Products;
    DummyData.MockLowStock();
    assert Listing.Filter(m[5..], IsOutOfStock) == [];
    assert Listing.Filter(m[4..], IsOutOfStock) == [];
    assert Listing.Filter(m[3..], IsOutOfStock) == [m[3]];
    assert Listing.Filter(m[2..], IsOutOfStock) == [m[3]];
    assert Listing.Filter(m[1..], IsOutOfStock) == [m[3]];
    MockStockValue();
  }

  lemma MockStockValue()
    ensures TotalStockValue(DummyData.Products) == 17470.0
  {
    var m := DummyData.Products;
    assert m == [m[0]] + ([m[1]] + ([m[2]] + ([m[3]] + ([m[4]] + [m[5]]))));
    Listing.SumCons(m[0], [m[1]] + ([m[2]] + ([m[3]] + ([m[4]] + [m[5]]))), StockValue);
    Listing.SumCons(m[1], [m[2]] + ([m[3]] + ([m[4]] + [m[5]])), StockValue);
    Listing.SumCons(m[2], [m[3]] + ([m[4]] + [m[5]]), StockValue);
    Listing.SumCons(m[3], [m[4]] + [m[5]], StockValue);
    Listing.SumCons(m[4], [m[5]], StockValue);
    Listing.SumCons(m[5], [], StockValue);
    assert [m[5]] + [] == [m[5]];
  }
}
