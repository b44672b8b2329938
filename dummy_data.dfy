/**
 * The shared sample catalogue: the product and invoice records, the six sample products, and the
 * low-stock list derived from them.
 */
module DummyData {
  import opened Wrappers
  import Listing

  datatype ProductStatus = Active | Inactive | OutOfStockStatus

  datatype Product = Product(id: string, name: string, sku: string, category: string, price: real, cost: real,
                             stock: int, lowStockThreshold: int, status: ProductStatus,
                             image: Option<string>, description: Option<string>, supplier: Option<string>,
                             lastRestocked: Option<string>)

  datatype InvoiceStatus = Draft | Sent | Paid | Overdue | Cancelled

  datatype Invoice = Invoice(id: string, invoiceNumber: string, customerName: string, customerId: string,
                             date: string, dueDate: string, amount: real, status: InvoiceStatus, items: int)

  function Sample(id: string, name: string, sku: string, category: string, price: real, cost: real,
                  stock: int, threshold: int, status: ProductStatus, description: string, supplier: string,
                  restocked: string): Product
  {
    Product(id, name, sku, category, price, cost, stock, threshold, status, None, Some(description),
            Some(supplier), Some(restocked))
  }

  const Products: seq<Product> := [
    Sample("1", "Wireless Bluetooth Headphones", "WBH-001", "Electronics", 99.99, 45.00, 150, 20, Active,
           "High-quality wireless headphones with noise cancellation", "AudioTech Ltd", "2024-05-15"),
    Sample("2", "Ergonomic Office Chair", "EOC-002", "Furniture", 299.99, 150.00, 45, 10, Active,
           "Comfortable ergonomic chair for office use", "Office Furniture Co", "2024-05-20"),
    Sample("3", "Smartphone Case", "SPC-003", "Accessories", 24.99, 8.00, 5, 25, Active,
           "Protective case for latest smartphone models", "Mobile Accessories Inc", "2024-04-30"),
    Sample("4", "LED Desk Lamp", "LDL-004", "Lighting", 79.99, 35.00, 0, 15, OutOfStockStatus,
           "Adjustable LED desk lamp with USB charging port", "Lighting Solutions", "2024-03-15"),
    Sample("5", "Coffee Maker", "CM-005", "Appliances", 149.99, 75.00, 32, 8, Active,
           "Programmable coffee maker with thermal carafe", "Kitchen Appliances Ltd", "2024-05-25"),
    Sample("6", "Wireless Mouse", "WM-006", "Electronics", 39.99, 18.00, 85, 30, Active,
           "Ergonomic wireless mouse with long battery life", "Computer Peripherals Inc", "2024-06-01")
  ]

  predicate IsLowStock(p: Product) {
    p.stock <= p.lowStockThreshold
  }

  /** `products.filter(p => p.stock <= p.lowStockThreshold)`. */
  function LowStock(ps: seq<Product>): seq<Product> {
    Listing.Filter(ps, IsLowStock)
  }

  /** Every listed product is at or below its threshold, every such product is listed as often as it
      occurs, and the list keeps the catalogue's order (it distributes over concatenation). */
  lemma LowStockCorrect(ps: seq<Product>, qs: seq<Product>)
    ensures forall p :: p in LowStock(ps) ==> p in ps && p.stock <= p.lowStockThreshold
    ensures forall p :: p in ps && p.stock <= p.lowStockThreshold ==> multiset(LowStock(ps))[p] == multiset(ps)[p]
    ensures forall p :: p in ps && p.stock > p.lowStockThreshold ==> p !in LowStock(ps)
    ensures LowStock(ps + qs) == LowStock(ps) + LowStock(qs)
  {
    Listing.FilterMembers(ps, IsLowStock);
    forall p | p in ps ensures multiset(LowStock(ps))[p] == if IsLowStock(p) then multiset(ps)[p] else 0 {
      Listing.FilterMultiset(ps, IsLowStock, p);
    }
    Listing.FilterConcat(ps, qs, IsLowStock);
  }

  /** In the sample catalogue the low-stock list is exactly products 3 and 4. */
  lemma MockLowStock()
    ensures LowStock(Products) == [Products[2], Products[3]]
    ensures LowStock(Products)[0].id == "3" && LowStock(Products)[1].id == "4"
  {
    var m := Products;
    assert Listing.Filter(m[5..], IsLowStock) == [];
    assert Listing.Filter(m[4..], IsLowStock) == [];
    assert Listing.Filter(m[3..], IsLowStock) == [m[3]];
    assert Listing.Filter(m[2..], IsLowStock) == [m[2], m[3]];
    assert Listing.Filter(m[1..], IsLowStock) == [m[2], m[3]];
  }

  /** The only sample product marked out of stock has no stock. */
  lemma MockOutOfStockStatus()
    ensures forall i :: 0 <= i < |Products| && Products[i].status == OutOfStockStatus ==> i == 3
    ensures Products[3].stock == 0
  {
  }
}
