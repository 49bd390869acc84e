/** The stock badge of the product list (frontend/src/pages/Products.jsx,
    renderStockStatus). */
module StockStatus {
  import opened Common
  import opened ProductModel
  import opened TransactionModel
  import opened TransactionController

  datatype Status = OutOfStock | LowStock | InStock

  /** Exactly zero is out of stock; any other count at or below the
      threshold is low, which also takes in a negative count; anything
      above the threshold is in stock. */
  function Classify(count: int, threshold: int): (s: Status)
    ensures s == OutOfStock <==> count == 0
    ensures s == LowStock <==> count != 0 && count <= threshold
    ensures s == InStock <==> count != 0 && count > threshold
  {
    if count == 0 then OutOfStock
    else if count <= threshold then LowStock
    else InStock
  }

  /** The badge text. */
  function Label(s: Status): (t: string)
    ensures t in {"Out of Stock", "Low Stock", "In Stock"}
    ensures t == "Out of Stock" <==> s == OutOfStock
    ensures t == "Low Stock" <==> s == LowStock
  {
    match s
    case OutOfStock => "Out of Stock"
    case LowStock => "Low Stock"
    case InStock => "In Stock"
  }

  /** Distinct statuses show distinct labels. */
  lemma LabelInjective(s1: Status, s2: Status)
    requires Label(s1) == Label(s2)
    ensures s1 == s2
  {
  }

  /** How well stocked a status says a product is. */
  function Rank(s: Status): (n: nat)
    ensures n <= 2
    ensures n == 0 <==> s == OutOfStock
    ensures n == 2 <==> s == InStock
  {
    match s
    case OutOfStock => 0
    case LowStock => 1
    case InStock => 2
  }

  /** Among counts a product can hold (never negative), more stock never
      shows a worse badge, whatever the threshold. */
  lemma ClassifyMonotone(c1: int, c2: int, threshold: int)
    requires 0 <= c1 <= c2
    ensures Rank(Classify(c1, threshold)) <= Rank(Classify(c2, threshold))
  {
  }

  /** A recorded sale never improves a product's badge, and a recorded
      restock never worsens it. */
  lemma TransactionMovesStatus(p: Product, productId: ProductId, transactionType: string, quantityChange: int, now: int)
    requires ValidProduct(p)
    requires Decide(p, productId, transactionType, quantityChange, now).Success?
    ensures var q := Decide(p, productId, transactionType, quantityChange, now).value.product;
      && q.lowStockThreshold == p.lowStockThreshold
      && (transactionType == "sale" ==>
            Rank(Classify(q.countInStock, q.lowStockThreshold)) <= Rank(Classify(p.countInStock, p.lowStockThreshold)))
      && (transactionType == "restock" ==>
            Rank(Classify(p.countInStock, p.lowStockThreshold)) <= Rank(Classify(q.countInStock, q.lowStockThreshold)))
  {
    DecideSuccess(p, productId, transactionType, quantityChange, now);
    var q := Decide(p, productId, transactionType, quantityChange, now).value.product;
    if transactionType == "sale" {
      assert ParseKind(transactionType) == Some(Sale);
      ClassifyMonotone(q.countInStock, p.countInStock, p.lowStockThreshold);
    } else if transactionType == "restock" {
      assert ParseKind(transactionType) == Some(Restock);
      ClassifyMonotone(p.countInStock, q.countInStock, p.lowStockThreshold);
    }
  }
}
