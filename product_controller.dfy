/** getProducts, createProduct, updateProduct and deleteProduct
    (backend/controllers/productController.js). */
module ProductController {
  import opened Common
  import opened Strings
  import opened ProductModel
  import opened TransactionModel
  import opened Store
  import Sorting
  import TransactionController

  /** A listed product together with its id. */
  datatype Entry = Entry(id: ProductId, product: Product)

  /** The stored products in some order, each exactly once. */
  ghost function Entries(products: map<ProductId, Product>): (r: seq<Entry>)
    ensures |r| == |products|
    ensures forall e :: e in r <==> e.id in products && products[e.id] == e.product
    ensures forall i, j :: 0 <= i < j < |r| ==> r[i].id != r[j].id
    decreases |products|
  {
    if products == map[] then []
    else
      var k :| k in products;
      var rest := products - {k};
      assert rest.Keys == products.Keys - {k};
      assert |rest| == |products| - 1;
      [Entry(k, products[k])] + Entries(rest)
  }

  /** `sort({ name: 1 })`. */
  predicate ByName(a: Entry, b: Entry) {
    LexLe(a.product.name, b.product.name)
  }

  lemma ByNameIsTotalPreorder()
    ensures Sorting.IsTotalPreorder(ByName)
  {
    forall a: Entry, b: Entry ensures ByName(a, b) || ByName(b, a) {
      LexLeTotal(a.product.name, b.product.name);
    }
    forall a: Entry, b: Entry, c: Entry | ByName(a, b) && ByName(b, c) ensures ByName(a, c) {
      LexLeTransitive(a.product.name, b.product.name, c.product.name);
    }
  }

  /** getProducts: every stored product exactly once, in ascending order of
      name. */
  ghost function GetProducts(products: map<ProductId, Product>): (r: seq<Entry>)
    ensures |r| == |products|
    ensures forall e :: e in r <==> e.id in products && products[e.id] == e.product
    ensures forall i, j :: 0 <= i < j < |r| ==> LexLe(r[i].product.name, r[j].product.name)
  {
    ByNameIsTotalPreorder();
    var all := Entries(products);
    var r := Sorting.Sort(ByName, all);
    assert forall e :: e in r <==> e in all by {
      forall e ensures e in r <==> e in all {
        assert e in r <==> e in multiset(r);
        assert e in all <==> e in multiset(all);
      }
    }
    assert |r| == |multiset(r)| == |multiset(all)| == |all|;
    r
  }

  /** createProduct: the document `new Product(fields)` builds is validated
      first (ValidationError), then checked against the unique indexes
      (DuplicateKey); only then is it stored, under a fresh id that no
      record refers to, beside the unchanged others. */
  method CreateProduct(db: Database, fields: ProductFields, generatedSku: string) returns (result: Result<Entry, Error>)
    requires db.Valid()
    modifies db
    ensures db.Valid()
    ensures NewProduct(fields, generatedSku).Failure? ==> result == Failure(ValidationError)
    ensures NewProduct(fields, generatedSku).Success? ==>
      (result == Failure(DuplicateKey) <==> Clashes(old(db.products), old(db.nextId), NewProduct(fields, generatedSku).value))
    ensures (NewProduct(fields, generatedSku).Success? &&
             !Clashes(old(db.products), old(db.nextId), NewProduct(fields, generatedSku).value))
            ==> result.Success?
    ensures result.Failure? ==> unchanged(db)
    ensures result.Success? ==>
      && NewProduct(fields, generatedSku) == Success(result.value.product)
      && result.value.id == old(db.nextId) && result.value.id !in old(db.products)
      && db.products == old(db.products)[result.value.id := result.value.product]
      && db.transactions == old(db.transactions)
      && db.nextId == old(db.nextId) + 1
      && (forall i :: 0 <= i < |db.transactions| ==> db.transactions[i].product != result.value.id)
  {
    var built := NewProduct(fields, generatedSku);
    if built.Failure? {
      return Failure(ValidationError);
    }
    var p := built.value;
    if Clashes(db.products, db.nextId, p) {
      return Failure(DuplicateKey);
    }
    var id := db.Insert(p);
    result := Success(Entry(id, p));
  }

  /** updateProduct (`findByIdAndUpdate` with `runValidators`): the update
      validators check the body's own fields before the lookup
      (ValidationError), a missing id is NotFound, a name or SKU taken by
      another product is DuplicateKey; otherwise exactly that product is
      replaced by the patched document, which is valid, so neither its
      stock nor its price can be negative. */
  method UpdateProduct(db: Database, id: ProductId, fields: ProductFields) returns (result: Result<Product, Error>)
    requires db.Valid()
    modifies db
    ensures db.Valid()
    ensures !PatchValid(fields) ==> result == Failure(ValidationError)
    ensures PatchValid(fields) && id !in old(db.products) ==> result == Failure(NotFound)
    ensures PatchValid(fields) && id in old(db.products) ==>
      (result == Failure(DuplicateKey) <==> Clashes(old(db.products), id, ApplyPatch(old(db.products[id]), fields)))
    ensures (PatchValid(fields) && id in old(db.products) &&
             !Clashes(old(db.products), id, ApplyPatch(old(db.products[id]), fields)))
            ==> result.Success?
    ensures result.Failure? ==> unchanged(db)
    ensures result.Success? ==>
      && id in old(db.products)
      && result.value == ApplyPatch(old(db.products[id]), fields)
      && ValidProduct(result.value)
      && result.value.countInStock >= 0 && result.value.unitPrice >= 0.0
      && db.products == old(db.products)[id := result.value]
      && db.transactions == old(db.transactions)
      && db.nextId == old(db.nextId)
  {
    if !PatchValid(fields) {
      return Failure(ValidationError);
    }
    if id !in db.products {
      return Failure(NotFound);
    }
    var p := ApplyPatch(db.products[id], fields);
    PatchValidity(db.products[id], fields);
    if Clashes(db.products, id, p) {
      return Failure(DuplicateKey);
    }
    db.Replace(id, p);
    result := Success(p);
  }

  /** deleteProduct (`findByIdAndDelete`): a missing id is NotFound and
      changes nothing; otherwise exactly that product is removed and the
      ledger is left as it was, so its records may now refer to no product. */
  method DeleteProduct(db: Database, id: ProductId) returns (result: Result<Product, Error>)
    requires db.Valid()
    modifies db
    ensures db.Valid()
    ensures id !in old(db.products) ==> result == Failure(NotFound) && unchanged(db)
    ensures id in old(db.products) ==>
      && result == Success(old(db.products[id]))
      && db.products == old(db.products) - {id}
      && db.transactions == old(db.transactions)
      && db.nextId == old(db.nextId)
  {
    if id !in db.products {
      return Failure(NotFound);
    }
    result := Success(db.products[id]);
    db.Remove(id);
  }

  /** After a product is removed, the ledger listing still shows every one
      of its records, now with no product resolved; the records of every
      other product resolve as before. */
  lemma RemovedProductRecordsDangle(ledger: seq<TransactionRecord>, products: map<ProductId, Product>, id: ProductId)
    ensures var before := TransactionController.GetTransactions(ledger, products);
      var after := TransactionController.GetTransactions(ledger, products - {id});
      && multiset(TransactionController.RecordsOf(after)) == multiset(ledger)
      && (forall i :: 0 <= i < |after| && after[i].record.product == id ==> after[i].product.None?)
      && (forall i, j :: 0 <= i < |after| && 0 <= j < |before| && after[i].record.product == before[j].record.product != id
            ==> after[i].product == before[j].product)
  {
  }
}
