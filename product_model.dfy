/** The Product schema: name, SKU (unique, trimmed, upper-cased), category
    reference, base and selling price (at least 0), GST rate (0..100,
    default 18), stock (at least 0, default 0), low-stock threshold (default
    10), active flag (default true) and optional creator. */
module ProductModel {
  import opened Common
  import opened Text

  /** A stored product. Description and unit are not modelled. Stock and
      thresholds are whole numbers. */
  datatype Product = Product(
    name: string,
    sku: string,
    category: Id,
    basePrice: real,
    gstRate: real,
    sellingPrice: real,
    stock: int,
    minStockLevel: int,
    isActive: bool,
    createdBy: Option<Id>)

  predicate Valid(p: Product)
  {
    p.name != "" && Trim(p.name) == p.name
    && p.sku != "" && Code(p.sku) == p.sku
    && p.basePrice >= 0.0 && 0.0 <= p.gstRate <= 100.0 && p.sellingPrice >= 0.0
    && p.stock >= 0
  }

  /** The key of the unique index on `sku`. */
  function SkuOf(p: Product): string
  {
    p.sku
  }

  /** At or below the reorder threshold (the reports' and the dashboard's
      `stock <= minStockLevel`). */
  predicate Low(p: Product)
  {
    p.stock <= p.minStockLevel
  }

  datatype Body = Body(
    name: Option<string>,
    sku: Option<string>,
    category: Option<Id>,
    basePrice: Option<real>,
    gstRate: Option<real>,
    sellingPrice: Option<real>,
    stock: Option<int>,
    minStockLevel: Option<int>,
    isActive: Option<bool>,
    createdBy: Option<Id>)

  predicate Admissible(name: string, sku: string, basePrice: real, gstRate: real,
                       sellingPrice: real, stock: int)
  {
    Trim(name) != "" && Code(sku) != ""
    && basePrice >= 0.0 && 0.0 <= gstRate <= 100.0 && sellingPrice >= 0.0 && stock >= 0
  }

  function Checked(p: Product): (r: Result<Product>)
    ensures r.Ok? <==> Valid(p)
    ensures r.Ok? ==> r.value == p
    ensures r.Fail? ==> r.failure.ServerError?
  {
    if Valid(p) then Ok(p) else Fail(ServerError("Product validation failed"))
  }

  /** `Product.create(body)`: setters, defaults (GST 18, stock 0, threshold
      10, active), then validation. */
  function Create(body: Body): (r: Result<Product>)
    ensures r.Ok? <==> body.name.Some? && body.sku.Some? && body.category.Some?
                       && body.basePrice.Some? && body.sellingPrice.Some?
                       && Admissible(body.name.value, body.sku.value, body.basePrice.value,
                                     Or(body.gstRate, 18.0), body.sellingPrice.value, Or(body.stock, 0))
    ensures r.Ok? ==> Valid(r.value) && r.value.createdBy == body.createdBy
                      && r.value.name == Trim(body.name.value) && r.value.sku == Code(body.sku.value)
                      && r.value.category == body.category.value
                      && r.value.basePrice == body.basePrice.value && r.value.sellingPrice == body.sellingPrice.value
    ensures r.Ok? ==> r.value.gstRate == Or(body.gstRate, 18.0) && r.value.stock == Or(body.stock, 0)
                      && r.value.minStockLevel == Or(body.minStockLevel, 10)
                      && r.value.isActive == Or(body.isActive, true)
  {
    TrimIdempotent(Or(body.name, ""));
    CodeIdempotent(Or(body.sku, ""));
    if body.category.None? || body.basePrice.None? || body.sellingPrice.None? then
      Fail(ServerError("Product validation failed"))
    else Checked(Product(
      Trim(Or(body.name, "")),
      Code(Or(body.sku, "")),
      body.category.value,
      body.basePrice.value,
      Or(body.gstRate, 18.0),
      body.sellingPrice.value,
      Or(body.stock, 0),
      Or(body.minStockLevel, 10),
      Or(body.isActive, true),
      body.createdBy))
  }

  /** `findByIdAndUpdate(id, body, {runValidators: true})`. */
  function Update(stored: Product, body: Body): (r: Result<Product>)
    ensures r.Ok? <==> Admissible(Or(body.name, stored.name), Or(body.sku, stored.sku),
                                  Or(body.basePrice, stored.basePrice), Or(body.gstRate, stored.gstRate),
                                  Or(body.sellingPrice, stored.sellingPrice), Or(body.stock, stored.stock))
    ensures r.Ok? ==> Valid(r.value) && r.value.category == Or(body.category, stored.category)
                      && r.value.stock == Or(body.stock, stored.stock)
    ensures r.Ok? && body.name.Some? ==> r.value.name == Trim(body.name.value)
    ensures r.Ok? && body.sku.Some? ==> r.value.sku == Code(body.sku.value)
    ensures r.Ok? && body.name.None? && Valid(stored) ==> r.value.name == stored.name
    ensures r.Ok? && body.sku.None? && Valid(stored) ==> r.value.sku == stored.sku
    ensures r.Ok? ==> r.value.basePrice == Or(body.basePrice, stored.basePrice)
                      && r.value.gstRate == Or(body.gstRate, stored.gstRate)
                      && r.value.sellingPrice == Or(body.sellingPrice, stored.sellingPrice)
                      && r.value.minStockLevel == Or(body.minStockLevel, stored.minStockLevel)
                      && r.value.isActive == Or(body.isActive, stored.isActive)
    ensures r.Ok? ==> r.value.createdBy == (if body.createdBy.Some? then body.createdBy else stored.createdBy)
  {
    TrimIdempotent(Or(body.name, stored.name));
    CodeIdempotent(Or(body.sku, stored.sku));
    Checked(Product(
      Trim(Or(body.name, stored.name)),
      Code(Or(body.sku, stored.sku)),
      Or(body.category, stored.category),
      Or(body.basePrice, stored.basePrice),
      Or(body.gstRate, stored.gstRate),
      Or(body.sellingPrice, stored.sellingPrice),
      Or(body.stock, stored.stock),
      Or(body.minStockLevel, stored.minStockLevel),
      Or(body.isActive, stored.isActive),
      if body.createdBy.Some? then body.createdBy else stored.createdBy))
  }

  /** A stock change keeps every other field, and keeps the product valid
      exactly when the new stock is not negative (the `min: 0` validator on
      `save`). */
  lemma StockChange(p: Product, stock: int)
    requires Valid(p)
    ensures Valid(p.(stock := stock)) <==> stock >= 0
  {
  }
}
