/**
 * The stock indicator on a product card: out of stock at zero, low stock at or below the
 * threshold, in stock otherwise, each with its fixed label and colours.
 */
module ProductCard {
  import DummyData

  datatype StockLevel = OutOfStock | LowStock | InStock

  datatype StockStatus = StockStatus(level: StockLevel, color: string, bgColor: string, text: string)

  function StatusOf(stock: int, lowStockThreshold: int): StockStatus {
    if stock == 0 then StockStatus(OutOfStock, "text-red-600", "bg-red-100 dark:bg-red-900/20", "Out of Stock")
    else if stock <= lowStockThreshold then
      StockStatus(LowStock, "text-yellow-600", "bg-yellow-100 dark:bg-yellow-900/20", "Low Stock")
    else StockStatus(InStock, "text-green-600", "bg-green-100 dark:bg-green-900/20", "In Stock")
  }

  /** `getStockStatus` of a product. */
  function GetStockStatus(p: DummyData.Product): StockStatus {
    StatusOf(p.stock, p.lowStockThreshold)
  }

  /** Exactly one of the three conditions holds, and it picks the level: zero stock is out of stock
      whatever the threshold. */
  lemma StatusOfCases(stock: int, lowStockThreshold: int)
    ensures StatusOf(stock, lowStockThreshold).level == OutOfStock <==> stock == 0
    ensures StatusOf(stock, lowStockThreshold).level == LowStock <==> stock != 0 && stock <= lowStockThreshold
    ensures StatusOf(stock, lowStockThreshold).level == InStock <==> stock != 0 && stock > lowStockThreshold
  {
  }

  /** Each level carries its own label, and different levels have different labels. */
  lemma StatusLabels(stock: int, lowStockThreshold: int)
    ensures var s := StatusOf(stock, lowStockThreshold);
            && (s.level == OutOfStock ==> s.text == "Out of Stock")
            && (s.level == LowStock ==> s.text == "Low Stock")
            && (s.level == InStock ==> s.text == "In Stock")
    ensures forall s2: int, t2: int :: StatusOf(stock, lowStockThreshold).text == StatusOf(s2, t2).text ==>
              StatusOf(stock, lowStockThreshold).level == StatusOf(s2, t2).level
  {
  }

  /** With a non-negative threshold, a product is in the catalogue's low-stock list exactly when its
      card does not say "In Stock". */
  lemma LowStockListAgreesWithCard(p: DummyData.Product)
    requires p.lowStockThreshold >= 0
    ensures DummyData.IsLowStock(p) <==> GetStockStatus(p).level != InStock
  {
  }
}
