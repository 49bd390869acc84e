/** The two collections the controllers work on, products and transaction
    records, as one object: the database of a single-threaded service in
    which each controller call is one atomic step. */
module Store {
  import opened ProductModel
  import opened TransactionModel

  /** Every stored product passes the schema validators, under an id the
      generator has already handed out. */
  ghost predicate ProductsValid(products: map<ProductId, Product>, nextId: ProductId) {
    forall id :: id in products ==> ValidProduct(products[id]) && id < nextId
  }

  /** No two stored products share a name, and none share a SKU: the two
      unique indexes of the product collection. */
  ghost predicate UniqueKeys(products: map<ProductId, Product>) {
    forall a, b :: a in products && b in products && a != b ==>
      products[a].name != products[b].name && products[a].sku != products[b].sku
  }

  /** Whether storing `p` under `id` would violate a unique index. */
  predicate Clashes(products: map<ProductId, Product>, id: ProductId, p: Product) {
    exists j :: j in products && j != id && (products[j].name == p.name || products[j].sku == p.sku)
  }

  /** Every record passes the schema validators and refers to an id the
      generator had handed out. */
  ghost predicate RecordsValid(ledger: seq<TransactionRecord>, nextId: ProductId) {
    forall i :: 0 <= i < |ledger| ==> ValidRecord(ledger[i]) && ledger[i].product < nextId
  }

  /** The ledger balance. `adjustment[id]` is what creation and direct
      edits have contributed to the stock of product `id`, beyond the
      ledger; the stock is that plus everything restocked minus everything
      sold, over the whole ledger. */
  ghost predicate Balanced(products: map<ProductId, Product>, ledger: seq<TransactionRecord>,
                           adjustment: map<ProductId, int>) {
    && adjustment.Keys == products.Keys
    && forall id :: id in products ==>
         products[id].countInStock == adjustment[id] + Restocked(ledger, id) - Sold(ledger, id)
  }

  /** The invariant of the database. */
  ghost predicate Consistent(products: map<ProductId, Product>, ledger: seq<TransactionRecord>, nextId: ProductId,
                             adjustment: map<ProductId, int>)
  {
    && ProductsValid(products, nextId)
    && UniqueKeys(products)
    && RecordsValid(ledger, nextId)
    && DatesAscending(ledger)
    && Balanced(products, ledger, adjustment)
  }

  lemma StoreValidProduct(products: map<ProductId, Product>, nextId: ProductId, id: ProductId, p: Product)
    requires ProductsValid(products, nextId) && ValidProduct(p) && id < nextId
    ensures ProductsValid(products[id := p], nextId)
  {
  }

  lemma AppendValidRecord(ledger: seq<TransactionRecord>, nextId: ProductId, t: TransactionRecord)
    requires RecordsValid(ledger, nextId) && ValidRecord(t) && t.product < nextId
    ensures RecordsValid(ledger + [t], nextId)
  {
  }

  lemma AppendLatest(ledger: seq<TransactionRecord>, t: TransactionRecord)
    requires DatesAscending(ledger)
    requires ledger == [] || ledger[|ledger| - 1].transactionDate <= t.transactionDate
    ensures DatesAscending(ledger + [t])
  {
    var ts := ledger + [t];
    assert ts[..|ts| - 1] == ledger;
    if ledger != [] {
      assert ts[|ts| - 2] == ledger[|ledger| - 1];
    }
  }

  /** Rewriting a product without touching its name or SKU keeps the unique
      indexes satisfied. */
  lemma KeysKept(products: map<ProductId, Product>, id: ProductId, p: Product)
    requires UniqueKeys(products) && id in products
    requires p.name == products[id].name && p.sku == products[id].sku
    ensures UniqueKeys(products[id := p])
  {
    var products' := products[id := p];
    forall a, b | a in products' && b in products' && a != b
      ensures products'[a].name != products'[b].name && products'[a].sku != products'[b].sku
    {
      assert products'[a].name == products[a].name && products'[a].sku == products[a].sku;
      assert products'[b].name == products[b].name && products'[b].sku == products[b].sku;
    }
  }

  /** Storing under `id` a product that clashes with no other keeps the
      unique indexes satisfied, whether `id` is new or already stored. */
  lemma StoreKeepsKeys(products: map<ProductId, Product>, id: ProductId, p: Product)
    requires UniqueKeys(products) && !Clashes(products, id, p)
    ensures UniqueKeys(products[id := p])
  {
    var products' := products[id := p];
    forall a, b | a in products' && b in products' && a != b
      ensures products'[a].name != products'[b].name && products'[a].sku != products'[b].sku
    {
      if a != id && b != id {
        assert products'[a] == products[a] && products'[b] == products[b];
      }
    }
  }

  /** Appending a record and moving its product's count by the record's
      effect keeps every product balanced against the ledger. */
  lemma BalanceKept(products: map<ProductId, Product>, ledger: seq<TransactionRecord>,
                    adjustment: map<ProductId, int>, id: ProductId, record: TransactionRecord, p: Product)
    requires Balanced(products, ledger, adjustment)
    requires id in products && record.product == id
    requires p.countInStock == products[id].countInStock + Delta(record, id)
    ensures Balanced(products[id := p], ledger + [record], adjustment)
  {
    var products' := products[id := p];
    forall j | j in products'
      ensures products'[j].countInStock == adjustment[j] + Restocked(ledger + [record], j) - Sold(ledger + [record], j)
    {
      TotalsAppend(ledger, record, j);
    }
  }

  /** Appending a valid, latest record for a stored product and moving that
      product's count by exactly the record's effect, to a count that is
      not negative, preserves the invariant, the ledger balance of every
      product included. */
  lemma CommitKeepsConsistent(products: map<ProductId, Product>, ledger: seq<TransactionRecord>, nextId: ProductId,
                              adjustment: map<ProductId, int>, id: ProductId, record: TransactionRecord, p: Product)
    requires Consistent(products, ledger, nextId, adjustment)
    requires id in products
    requires ValidRecord(record) && record.product == id
    requires ledger == [] || ledger[|ledger| - 1].transactionDate <= record.transactionDate
    requires p == products[id].(countInStock := products[id].countInStock + Delta(record, id))
    requires p.countInStock >= 0
    ensures Consistent(products[id := p], ledger + [record], nextId, adjustment)
  {
    KeysKept(products, id, p);
    BalanceKept(products, ledger, adjustment, id, record, p);
    StoreValidProduct(products, nextId, id, p);
    AppendValidRecord(ledger, nextId, record);
    AppendLatest(ledger, record);
  }

  /** Adding a valid product under a fresh id, with nothing it clashes with,
      keeps the invariant. No record refers to the fresh id, so the whole
      of its count is its adjustment. */
  lemma InsertKeepsConsistent(products: map<ProductId, Product>, ledger: seq<TransactionRecord>, nextId: ProductId,
                              adjustment: map<ProductId, int>, p: Product)
    requires Consistent(products, ledger, nextId, adjustment)
    requires ValidProduct(p) && !Clashes(products, nextId, p)
    ensures Consistent(products[nextId := p], ledger, nextId + 1, adjustment[nextId := p.countInStock])
  {
    var products', adjustment' := products[nextId := p], adjustment[nextId := p.countInStock];
    assert ProductsValid(products', nextId + 1) by {
      assert ProductsValid(products, nextId);
    }
    StoreKeepsKeys(products, nextId, p);
    assert RecordsValid(ledger, nextId + 1) by {
      assert RecordsValid(ledger, nextId);
    }
    assert Balanced(products', ledger, adjustment') by {
      assert RecordsValid(ledger, nextId);
      TotalsOfAbsent(ledger, nextId);
      assert Balanced(products, ledger, adjustment);
    }
  }

  /** The adjustments after `id` is rewritten to `p`: its entry becomes the
      new count less the ledger's net effect on it, so that the balance
      holds again whatever the edit did to the count. */
  ghost function Rebased(adjustment: map<ProductId, int>, ledger: seq<TransactionRecord>,
                         id: ProductId, p: Product): (r: map<ProductId, int>)
    ensures r.Keys == adjustment.Keys + {id}
    ensures r[id] + Restocked(ledger, id) - Sold(ledger, id) == p.countInStock
    ensures forall k :: k in adjustment && k != id ==> r[k] == adjustment[k]
  {
    adjustment[id := p.countInStock - (Restocked(ledger, id) - Sold(ledger, id))]
  }

  /** Replacing a stored product by a valid one whose name and SKU clash
      with no other keeps the invariant; the product's adjustment absorbs
      whatever the edit did to its count. */
  lemma ReplaceKeepsConsistent(products: map<ProductId, Product>, ledger: seq<TransactionRecord>, nextId: ProductId,
                               adjustment: map<ProductId, int>, id: ProductId, p: Product)
    requires Consistent(products, ledger, nextId, adjustment)
    requires id in products && ValidProduct(p) && !Clashes(products, id, p)
    ensures Consistent(products[id := p], ledger, nextId,
                       Rebased(adjustment, ledger, id, p))
  {
    var products' := products[id := p];
    assert ProductsValid(products', nextId) by {
      assert ProductsValid(products, nextId);
    }
    StoreKeepsKeys(products, id, p);
    ReplaceBalanced(products, ledger, adjustment, id, p);
  }

  /** Rewriting a product with its adjustment set to the new count less
      the ledger's net effect on it keeps every product balanced. */
  lemma ReplaceBalanced(products: map<ProductId, Product>, ledger: seq<TransactionRecord>,
                        adjustment: map<ProductId, int>, id: ProductId, p: Product)
    requires Balanced(products, ledger, adjustment)
    ensures Balanced(products[id := p], ledger, Rebased(adjustment, ledger, id, p))
  {
  }

  /** Removing a product keeps the invariant of the rest. */
  lemma RemoveKeepsConsistent(products: map<ProductId, Product>, ledger: seq<TransactionRecord>, nextId: ProductId,
                              adjustment: map<ProductId, int>, id: ProductId)
    requires Consistent(products, ledger, nextId, adjustment)
    ensures Consistent(products - {id}, ledger, nextId, adjustment - {id})
  {
    assert ProductsValid(products, nextId);
    assert UniqueKeys(products);
    assert Balanced(products, ledger, adjustment);
  }

  class Database {
    var products: map<ProductId, Product>
    var transactions: seq<TransactionRecord>
    /** The ObjectId generator: ids are handed out once and never reused. */
    var nextId: ProductId
    /** What creation and direct edits have contributed to each product's
        stock, beyond the ledger. */
    ghost var adjustment: map<ProductId, int>

    ghost predicate Valid()
      reads this
    {
      Consistent(products, transactions, nextId, adjustment)
    }

    /** `Date.now` does not run backwards: a reading taken now is no earlier
        than the newest record's date. */
    predicate ClockAllows(now: int)
      reads this
    {
      transactions == [] || transactions[|transactions| - 1].transactionDate <= now
    }

    constructor ()
      ensures Valid()
      ensures products == map[] && transactions == [] && nextId == 0
    {
      products := map[];
      transactions := [];
      nextId := 0;
      adjustment := map[];
    }

    /** The two saves of recordTransaction, the record and then the
        product, taken as one atomic step: the record is appended and the
        product rewritten with its count moved by the record's effect. */
    method Commit(id: ProductId, record: TransactionRecord, p: Product)
      requires Valid()
      requires id in products
      requires ValidRecord(record) && record.product == id
      requires ClockAllows(record.transactionDate)
      requires p == products[id].(countInStock := products[id].countInStock + Delta(record, id))
      requires p.countInStock >= 0
      modifies this
      ensures Valid()
      ensures transactions == old(transactions) + [record]
      ensures products == old(products)[id := p]
      ensures nextId == old(nextId) && adjustment == old(adjustment)
    {
      transactions, products := transactions + [record], products[id := p];
      CommitKeepsConsistent(old(products), old(transactions), nextId, adjustment, id, record, p);
    }

    /** `save` of a new document: it is stored under a fresh id, which no
        record refers to. */
    method Insert(p: Product) returns (id: ProductId)
      requires Valid()
      requires ValidProduct(p) && !Clashes(products, nextId, p)
      modifies this
      ensures Valid()
      ensures id == old(nextId) && id !in old(products)
      ensures products == old(products)[id := p]
      ensures transactions == old(transactions) && nextId == id + 1
      ensures forall i :: 0 <= i < |transactions| ==> transactions[i].product != id
      ensures adjustment == old(adjustment)[id := p.countInStock]
    {
      id := nextId;
      products, nextId, adjustment := products[id := p], id + 1, adjustment[id := p.countInStock];
      InsertKeepsConsistent(old(products), transactions, id, old(adjustment), p);
    }

    /** `findByIdAndUpdate` once the update has been validated. */
    method Replace(id: ProductId, p: Product)
      requires Valid()
      requires id in products && ValidProduct(p) && !Clashes(products, id, p)
      modifies this
      ensures Valid()
      ensures products == old(products)[id := p]
      ensures transactions == old(transactions) && nextId == old(nextId)
      ensures adjustment == Rebased(old(adjustment), old(transactions), id, p)
    {
      products, adjustment := products[id := p], Rebased(adjustment, transactions, id, p);
      ReplaceKeepsConsistent(old(products), old(transactions), old(nextId), old(adjustment), id, p);
    }

    /** `findByIdAndDelete` of a stored product. */
    method Remove(id: ProductId)
      requires Valid()
      requires id in products
      modifies this
      ensures Valid()
      ensures products == old(products) - {id}
      ensures transactions == old(transactions) && nextId == old(nextId)
      ensures adjustment == old(adjustment) - {id}
    {
      products, adjustment := products - {id}, adjustment - {id};
      RemoveKeepsConsistent(old(products), transactions, nextId, old(adjustment), id);
    }
  }
}
