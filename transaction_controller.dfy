/** recordTransaction and getTransactions
    (backend/controllers/transactionController.js). */
module TransactionController {
  import opened Common
  import opened ProductModel
  import opened TransactionModel
  import opened Store
  import Sorting

  /** The stock count a transaction would leave. */
  function Candidate(count: int, k: Kind, quantityChange: int): (c: int)
    ensures k == Sale ==> c == count - quantityChange
    ensures k == Restock ==> c == count + quantityChange
  {
    match k
    case Sale => count - quantityChange
    case Restock => count + quantityChange
  }

  /** What a successful call answers with: the updated product and the new
      record. */
  datatype Receipt = Receipt(product: Product, record: TransactionRecord)

  /** The checks of recordTransaction once product `p` is found, in the
      order the code makes them: the transaction type, then the candidate
      count, then the record's own validators (which is where a quantity
      below 1 is caught, as the record is saved before the product). On
      success, the record as built and the product as it will be written. */
  function Decide(p: Product, productId: ProductId, transactionType: string, quantityChange: int, now: int): Result<Receipt, Error> {
    match ParseKind(transactionType)
    case None => Failure(InvalidKind)
    case Some(k) =>
      var newQuantity := Candidate(p.countInStock, k, quantityChange);
      if newQuantity < 0 then Failure(InsufficientStock)
      else
        var record := TransactionRecord(productId, k, quantityChange, p.unitPrice, now);
        if !ValidRecord(record) then Failure(InvalidQuantity)
        else Success(Receipt(p.(countInStock := newQuantity), record))
  }

  /** The error taxonomy of recordTransaction for a found product: each
      error exactly under its condition, and no other error. */
  lemma DecideErrors(p: Product, productId: ProductId, transactionType: string, quantityChange: int, now: int)
    ensures var r := Decide(p, productId, transactionType, quantityChange, now);
      && (r == Failure(InvalidKind) <==> transactionType != "sale" && transactionType != "restock")
      && (r == Failure(InsufficientStock) <==>
            || (transactionType == "sale" && quantityChange > p.countInStock)
            || (transactionType == "restock" && p.countInStock + quantityChange < 0))
      && (r == Failure(InvalidQuantity) <==>
            && (transactionType == "sale" || transactionType == "restock")
            && Candidate(p.countInStock, ParseKind(transactionType).value, quantityChange) >= 0
            && quantityChange < 1)
      && (r.Failure? ==> r.error == InvalidKind || r.error == InsufficientStock || r.error == InvalidQuantity)
  {
  }

  /** On success exactly one record is built, for this product, kind and
      quantity, with the product's current price as its snapshot and the
      clock reading as its date; the product's count becomes the candidate
      count, which is not negative, and nothing else about it changes. */
  lemma DecideSuccess(p: Product, productId: ProductId, transactionType: string, quantityChange: int, now: int)
    requires Decide(p, productId, transactionType, quantityChange, now).Success?
    ensures var r := Decide(p, productId, transactionType, quantityChange, now).value;
      && ParseKind(transactionType).Some?
      && var k := ParseKind(transactionType).value;
      && r.record == TransactionRecord(productId, k, quantityChange, p.unitPrice, now)
      && ValidRecord(r.record)
      && r.product == p.(countInStock := Candidate(p.countInStock, k, quantityChange))
      && r.product.countInStock >= 0
  {
  }

  /** The same success, in the terms of the ledger: the product's count moves
      by exactly the record's effect on it. */
  lemma DecideMovesByDelta(p: Product, productId: ProductId, transactionType: string, quantityChange: int, now: int)
    requires Decide(p, productId, transactionType, quantityChange, now).Success?
    ensures var r := Decide(p, productId, transactionType, quantityChange, now).value;
      && r.record.product == productId
      && r.record.transactionDate == now
      && ValidRecord(r.record)
      && r.product == p.(countInStock := p.countInStock + Delta(r.record, productId))
      && r.product.countInStock >= 0
  {
  }

  /** A sale of more than is in stock is refused with InsufficientStock. */
  lemma OversaleRefused(p: Product, productId: ProductId, quantityChange: int, now: int)
    requires quantityChange > p.countInStock
    ensures Decide(p, productId, "sale", quantityChange, now) == Failure(InsufficientStock)
  {
  }

  /** A quantity below 1 never changes anything: a sale fails InvalidQuantity
      (its candidate only grows), a restock fails InvalidQuantity or, when
      the negative quantity would take stock below zero, InsufficientStock. */
  lemma NonPositiveQuantityRefused(p: Product, productId: ProductId, transactionType: string, quantityChange: int, now: int)
    requires ValidProduct(p) && quantityChange < 1
    ensures Decide(p, productId, transactionType, quantityChange, now).Failure?
    ensures transactionType == "sale" ==>
      Decide(p, productId, transactionType, quantityChange, now) == Failure(InvalidQuantity)
  {
  }

  /** A success keeps the product valid and changes nothing but its count. */
  lemma DecideKeepsProductValid(p: Product, productId: ProductId, transactionType: string, quantityChange: int, now: int)
    requires ValidProduct(p)
    requires Decide(p, productId, transactionType, quantityChange, now).Success?
    ensures ValidProduct(Decide(p, productId, transactionType, quantityChange, now).value.product)
  {
  }

  /** One request to recordTransaction for a given product. */
  datatype Request = Request(transactionType: string, quantityChange: int, now: int)

  /** A run of requests against one product, each answered as Decide
      answers it: the product as it ends up and the records appended, in
      order. A refused request leaves both as they were. */
  function Replay(p: Product, productId: ProductId, reqs: seq<Request>): (Product, seq<TransactionRecord>)
    decreases |reqs|
  {
    if reqs == [] then (p, [])
    else
      var (q, ts) := Replay(p, productId, reqs[..|reqs| - 1]);
      var last := reqs[|reqs| - 1];
      match Decide(q, productId, last.transactionType, last.quantityChange, last.now)
      case Failure(_) => (q, ts)
      case Success(receipt) => (receipt.product, ts + [receipt.record])
  }

  /** The ledger balance over any run of requests: the final stock is the
      initial stock plus everything restocked minus everything sold, it is
      never negative, nothing else about the product changes, and every
      record is valid, names this product and snapshots its price. */
  lemma {:induction false} ReplayBalances(p: Product, productId: ProductId, reqs: seq<Request>)
    requires p.countInStock >= 0
    ensures var (q, ts) := Replay(p, productId, reqs);
      && q.countInStock == p.countInStock + Restocked(ts, productId) - Sold(ts, productId)
      && q.countInStock >= 0
      && q == p.(countInStock := q.countInStock)
      && forall i :: 0 <= i < |ts| ==>
           ValidRecord(ts[i]) && ts[i].product == productId && ts[i].unitPriceAtTransaction == p.unitPrice
    decreases |reqs|
  {
    if reqs != [] {
      var (q, ts) := Replay(p, productId, reqs[..|reqs| - 1]);
      ReplayBalances(p, productId, reqs[..|reqs| - 1]);
      var last := reqs[|reqs| - 1];
      var d := Decide(q, productId, last.transactionType, last.quantityChange, last.now);
      if d.Success? {
        DecideMovesByDelta(q, productId, last.transactionType, last.quantityChange, last.now);
        DecideSuccess(q, productId, last.transactionType, last.quantityChange, last.now);
        TotalsAppend(ts, d.value.record, productId);
      }
    }
  }

  /** Concrete runs: from 10 in stock, selling 3 and then 7 empties the
      stock, and a further sale of 1 is refused with two records appended;
      restocking 50 from empty gives 50 with one restock record; sales of 0
      and of -2 are refused as invalid quantities. */
  lemma StockScenarios(p: Product, productId: ProductId)
    ensures
      var ten := p.(countInStock := 10);
      var (q, ts) := Replay(ten, productId, [Request("sale", 3, 1), Request("sale", 7, 2), Request("sale", 1, 3)]);
      && Decide(ten, productId, "sale", 3, 1).Success?
      && Decide(ten, productId, "sale", 3, 1).value.product.countInStock == 7
      && q.countInStock == 0 && |ts| == 2
      && Decide(q, productId, "sale", 1, 3) == Failure(InsufficientStock)
    ensures
      var empty := p.(countInStock := 0);
      && Decide(empty, productId, "restock", 50, 4).Success?
      && Decide(empty, productId, "restock", 50, 4).value.product.countInStock == 50
      && Decide(empty, productId, "restock", 50, 4).value.record.kind == Restock
      && Decide(empty, productId, "restock", 50, 4).value.record.quantityChange == 50
    ensures p.countInStock >= 0 ==>
      && Decide(p, productId, "sale", 0, 5) == Failure(InvalidQuantity)
      && Decide(p, productId, "sale", -2, 6) == Failure(InvalidQuantity)
  {
    var ten := p.(countInStock := 10);
    var reqs := [Request("sale", 3, 1), Request("sale", 7, 2), Request("sale", 1, 3)];
    assert reqs[..2][..1] == [Request("sale", 3, 1)];
    assert reqs[..2][..1][..0] == [];
    var seven := ten.(countInStock := 7);
    assert Replay(ten, productId, reqs[..2][..1]).0 == seven;
    assert Replay(ten, productId, reqs[..2]).0 == seven.(countInStock := 0);
    assert |Replay(ten, productId, reqs[..2]).1| == 2;
  }

  /** recordTransaction, with the record save and the product save taken as
      one atomic step. An unknown product is NotFound; otherwise the outcome
      is Decide's. A failure changes nothing; a success appends exactly the
      decided record and writes exactly the decided count, and the ledger
      balance of every product still holds. */
  method RecordTransaction(db: Database, productId: ProductId, transactionType: string, quantityChange: int, now: int)
    returns (result: Result<Receipt, Error>)
    requires db.Valid()
    requires db.ClockAllows(now)
    modifies db
    ensures db.Valid()
    ensures productId !in old(db.products) ==> result == Failure(NotFound)
    ensures productId in old(db.products) ==>
      result == Decide(old(db.products[productId]), productId, transactionType, quantityChange, now)
    ensures result.Failure? ==> unchanged(db)
    ensures result.Success? ==>
      && db.transactions == old(db.transactions) + [result.value.record]
      && db.products == old(db.products)[productId := result.value.product]
      && db.nextId == old(db.nextId)
      && db.adjustment == old(db.adjustment)
  {
    if productId !in db.products {
      return Failure(NotFound);
    }
    var product := db.products[productId];
    result := Decide(product, productId, transactionType, quantityChange, now);
    if result.Failure? {
      return;
    }
    DecideMovesByDelta(product, productId, transactionType, quantityChange, now);
    db.Commit(productId, result.value.record, result.value.product);
  }

  /** A record as listed: the product reference populated with the
      product's name and price when the product still exists. */
  datatype ProductSummary = ProductSummary(name: string, unitPrice: real)
  datatype LedgerEntry = LedgerEntry(record: TransactionRecord, product: Option<ProductSummary>)

  function Resolve(products: map<ProductId, Product>, id: ProductId): (r: Option<ProductSummary>)
    ensures r.Some? <==> id in products
    ensures r.Some? ==> r.value == ProductSummary(products[id].name, products[id].unitPrice)
  {
    if id in products then Some(ProductSummary(products[id].name, products[id].unitPrice)) else None
  }

  function RecordsOf(es: seq<LedgerEntry>): (r: seq<TransactionRecord>)
    ensures |r| == |es| && forall i :: 0 <= i < |es| ==> r[i] == es[i].record
  {
    if es == [] then [] else [es[0].record] + RecordsOf(es[1..])
  }

  /** `sort({ transactionDate: -1 })`: newer dates first. */
  predicate NewerFirst(a: TransactionRecord, b: TransactionRecord) {
    a.transactionDate >= b.transactionDate
  }

  /** getTransactions: every record, each exactly as often as it was
      recorded, ordered by date with the newest first, each with its product
      resolved if that product still exists. */
  function GetTransactions(ledger: seq<TransactionRecord>, products: map<ProductId, Product>): (r: seq<LedgerEntry>)
    ensures multiset(RecordsOf(r)) == multiset(ledger)
    ensures forall i, j :: 0 <= i < j < |r| ==> r[i].record.transactionDate >= r[j].record.transactionDate
    ensures forall i :: 0 <= i < |r| ==> r[i].product == Resolve(products, r[i].record.product)
  {
    var sorted := Sorting.Sort(NewerFirst, ledger);
    var r := seq(|sorted|, i requires 0 <= i < |sorted| => LedgerEntry(sorted[i], Resolve(products, sorted[i].product)));
    assert RecordsOf(r) == sorted;
    r
  }
}
