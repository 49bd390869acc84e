/** The product document (backend/models/Product.js): its fields, their
    defaults, the `trim` setter on the name and the schema's validators. */
module ProductModel {
  import opened Common
  import opened Strings

  /** Stands for the document's ObjectId. */
  type ProductId = nat

  datatype Image = Image(url: Option<string>, altText: Option<string>)

  /** A product as stored. Prices are kept as exact reals: they are only
      checked against zero and copied, never computed with. */
  datatype Product = Product(
    name: string,
    description: string,
    sku: string,
    images: seq<Image>,
    category: string,
    unitPrice: real,
    countInStock: int,
    lowStockThreshold: int)

  const DefaultDescription: string := "No description provided."
  const DefaultCategory: string := "General"
  const DefaultCountInStock: int := 0
  const DefaultLowStockThreshold: int := 10

  /** The schema's validators on a document whose setters have run: the
      required name is non-empty (the setter has already trimmed it), and
      price, stock count and threshold are at least zero. */
  predicate ValidProduct(p: Product) {
    && IsTrimmed(p.name) && p.name != []
    && p.unitPrice >= 0.0
    && p.countInStock >= 0
    && p.lowStockThreshold >= 0
  }

  /** The fields a request body may carry, for creation and for update
      alike; `None` is a field the body leaves out. */
  datatype ProductFields = ProductFields(
    name: Option<string>,
    description: Option<string>,
    sku: Option<string>,
    images: Option<seq<Image>>,
    category: Option<string>,
    unitPrice: Option<real>,
    countInStock: Option<int>,
    lowStockThreshold: Option<int>)

  /** `new Product(fields)` followed by validation: absent fields take their
      defaults (`generatedSku` stands for the random SKU default), the name
      is trimmed, and a missing required field or a failed validator is a
      ValidationError. */
  function NewProduct(f: ProductFields, generatedSku: string): (r: Result<Product, Error>)
    ensures r.Success? ==> ValidProduct(r.value)
    ensures r.Failure? ==> r.error == ValidationError
    ensures f.name.None? || f.unitPrice.None? ==> r.Failure?
    ensures f.name.Some? && AllWhitespace(f.name.value) ==> r.Failure?
    ensures f.countInStock.GetOr(DefaultCountInStock) < 0 ==> r.Failure?
    ensures f.lowStockThreshold.GetOr(DefaultLowStockThreshold) < 0 ==> r.Failure?
    ensures f.unitPrice.Some? && f.unitPrice.value < 0.0 ==> r.Failure?
    ensures r.Success? ==>
      && r.value.name == Trim(f.name.value)
      && r.value.unitPrice == f.unitPrice.value
      && r.value.description == f.description.GetOr(DefaultDescription)
      && r.value.sku == f.sku.GetOr(generatedSku)
      && r.value.images == f.images.GetOr([])
      && r.value.category == f.category.GetOr(DefaultCategory)
      && r.value.countInStock == f.countInStock.GetOr(DefaultCountInStock)
      && r.value.lowStockThreshold == f.lowStockThreshold.GetOr(DefaultLowStockThreshold)
  {
    if f.name.None? || f.unitPrice.None? then Failure(ValidationError)
    else
      var p := Product(
        Trim(f.name.value),
        f.description.GetOr(DefaultDescription),
        f.sku.GetOr(generatedSku),
        f.images.GetOr([]),
        f.category.GetOr(DefaultCategory),
        f.unitPrice.value,
        f.countInStock.GetOr(DefaultCountInStock),
        f.lowStockThreshold.GetOr(DefaultLowStockThreshold));
      if ValidProduct(p) then Success(p) else Failure(ValidationError)
  }

  /** A body that supplies every required field with an acceptable value is
      accepted: the validators reject nothing else. */
  lemma NewProductAccepts(f: ProductFields, generatedSku: string)
    requires f.name.Some? && !AllWhitespace(f.name.value)
    requires f.unitPrice.Some? && f.unitPrice.value >= 0.0
    requires f.countInStock.GetOr(DefaultCountInStock) >= 0
    requires f.lowStockThreshold.GetOr(DefaultLowStockThreshold) >= 0
    ensures NewProduct(f, generatedSku).Success?
  {
  }

  /** The update validators: each field the body sets must pass its own
      validator (they run only on the paths being set). */
  predicate PatchValid(f: ProductFields) {
    && (f.name.Some? ==> !AllWhitespace(f.name.value))
    && (f.unitPrice.Some? ==> f.unitPrice.value >= 0.0)
    && (f.countInStock.Some? ==> f.countInStock.value >= 0)
    && (f.lowStockThreshold.Some? ==> f.lowStockThreshold.value >= 0)
  }

  /** The document after `$set` of the body's fields, with the name setter
      applied to a new name. */
  function ApplyPatch(p: Product, f: ProductFields): (r: Product)
    ensures f.name.None? ==> r.name == p.name
    ensures f.name.Some? ==> r.name == Trim(f.name.value)
    ensures r.unitPrice == f.unitPrice.GetOr(p.unitPrice)
    ensures r.countInStock == f.countInStock.GetOr(p.countInStock)
    ensures r.lowStockThreshold == f.lowStockThreshold.GetOr(p.lowStockThreshold)
    ensures r.sku == f.sku.GetOr(p.sku)
    ensures r.description == f.description.GetOr(p.description)
    ensures r.images == f.images.GetOr(p.images)
    ensures r.category == f.category.GetOr(p.category)
  {
    Product(
      if f.name.Some? then Trim(f.name.value) else p.name,
      f.description.GetOr(p.description),
      f.sku.GetOr(p.sku),
      f.images.GetOr(p.images),
      f.category.GetOr(p.category),
      f.unitPrice.GetOr(p.unitPrice),
      f.countInStock.GetOr(p.countInStock),
      f.lowStockThreshold.GetOr(p.lowStockThreshold))
  }

  /** Checking only the updated paths is enough: on a valid product, the
      update validators accept a body exactly when the updated document is
      valid. */
  lemma PatchValidity(p: Product, f: ProductFields)
    requires ValidProduct(p)
    ensures PatchValid(f) <==> ValidProduct(ApplyPatch(p, f))
  {
    if f.name.Some? {
      TrimIdentity(Trim(f.name.value));
    }
  }

  /** An empty body changes nothing. */
  lemma EmptyPatch(p: Product)
    ensures ApplyPatch(p, ProductFields(None, None, None, None, None, None, None, None)) == p
  {
  }
}
