/** Products: listing under the creator scope with the stock-status
    filter, single reads, and creation, update and deletion with their check
    order (a named category must exist before anything else is looked at). */
module ProductController {
  import opened Common
  import opened Text
  import opened Tables
  import opened Aggregate
  import opened Access
  import opened Database
  import opened ProductModel

  // ---------------------------------------------------------------------
  // getAllProducts and getProductById

  datatype Query = Query(category: Option<Id>, stockStatus: Option<string>, search: Option<string>)

  /** The stock-status filter: "low" keeps the products at or below their
      reorder threshold, "out" those with no stock; any other value, or
      none, keeps everything. */
  predicate StockFilter(p: Product, stockStatus: Option<string>): (b: bool)
    ensures stockStatus != Some("low") && stockStatus != Some("out") ==> b
    ensures stockStatus == Some("out") && b && p.minStockLevel >= 0 ==> Low(p)
  {
    if stockStatus == Some("low") then Low(p)
    else if stockStatus == Some("out") then p.stock == 0
    else true
  }

  /** The query `getAllProducts` builds: the caller's own products for a
      restricted caller, then the category, stock-status and search
      filters (the search, a case-insensitive pattern given here as
      `matches`, is tried on the name and on the SKU). */
  predicate Selected(p: Product, caller: Option<Caller>, q: Query, matches: (string, string) -> bool)
  {
    (!Restricted(caller) || p.createdBy == Some(caller.value.id))
    && (q.category.None? || p.category == q.category.value)
    && StockFilter(p, q.stockStatus)
    && (!Truthy(q.search) || matches(q.search.value, p.name) || matches(q.search.value, p.sku))
  }

  /** `getAllProducts` without pagination and sorting: exactly the selected
      products. */
  function ListProducts(s: Snapshot, caller: Option<Caller>, q: Query,
                        matches: (string, string) -> bool): (r: seq<Doc<Product>>)
    ensures forall k :: 0 <= k < |r| ==> r[k] in s.products && Selected(r[k].body, caller, q, matches)
    ensures forall k :: 0 <= k < |s.products| ==> Selected(s.products[k].body, caller, q, matches) ==> s.products[k] in r
  {
    Filter(s.products, (d: Doc<Product>) => Selected(d.body, caller, q, matches))
  }

  /** What the listing promises: "low" lists only products at or below
      their threshold, "out" only products without stock, and a restricted
      caller only its own products. */
  lemma StockStatusSemantics(s: Snapshot, caller: Option<Caller>, q: Query, matches: (string, string) -> bool)
    ensures q.stockStatus == Some("low") ==>
      forall d :: d in ListProducts(s, caller, q, matches) ==> d.body.stock <= d.body.minStockLevel
    ensures q.stockStatus == Some("out") ==>
      forall d :: d in ListProducts(s, caller, q, matches) ==> d.body.stock == 0
    ensures Restricted(caller) ==>
      forall d :: d in ListProducts(s, caller, q, matches) ==> d.body.createdBy == Some(caller.value.id)
  {
    var r := ListProducts(s, caller, q, matches);
    forall d | d in r ensures Selected(d.body, caller, q, matches) {
      var k :| 0 <= k < |r| && r[k] == d;
    }
  }

  /** `getProductById`: 404 when absent, then 403 for a restricted caller
      that did not create the product. */
  function ProductById(s: Snapshot, caller: Option<Caller>, id: Id): (r: Result<Product>)
    ensures r.Fail? && r.failure.NotFound? <==> !Has(s.products, id)
    ensures r.Fail? && r.failure.Forbidden? <==>
      Has(s.products, id) && !MayTouch(caller, Get(s.products, id).value.createdBy)
    ensures r.Ok? ==> Get(s.products, id) == Some(r.value)
  {
    match Get(s.products, id)
    case None => Fail(NotFound("Product not found"))
    case Some(p) =>
      match Authorize(true, p.createdBy, caller, "product")
      case Some(f) => Fail(f)
      case None => Ok(p)
  }

  // ---------------------------------------------------------------------
  // createProduct

  const CategoryMissing: Failure := BadRequest("Category not found")
  const DuplicateSku: Failure := BadRequest("Product with this SKU already exists")

  /** The request body with the caller stamped as creator, when there is a
      caller. */
  function Stamped(caller: Option<Caller>, body: Body): (b: Body)
    ensures caller.Some? ==> b.createdBy == Some(caller.value.id)
    ensures caller.None? ==> b == body
  {
    if caller.Some? then body.(createdBy := Some(caller.value.id)) else body
  }

  /** `createProduct`: the category must exist (400); the body is stored
      with the caller as creator when there is a caller; a schema failure
      answers 500 and a SKU some product already holds 400. */
  function CreateProductOutcome(s: Snapshot, caller: Option<Caller>, body: Body): (o: Outcome<Product>)
    ensures body.category.None? || !Has(s.categories, body.category.value) ==> o == Outcome(Fail(CategoryMissing), s)
    ensures o.result.Fail? ==> o.state == s
    ensures o.result == Fail(DuplicateSku) <==>
      body.category.Some? && Has(s.categories, body.category.value)
      && Create(Stamped(caller, body)).Ok? && Taken(s.products, SkuOf, Create(Stamped(caller, body)).value.sku, None)
    ensures o.result.Ok? <==>
      body.category.Some? && Has(s.categories, body.category.value)
      && Create(Stamped(caller, body)).Ok? && !Taken(s.products, SkuOf, Create(Stamped(caller, body)).value.sku, None)
    ensures o.result.Ok? ==>
      Has(s.categories, o.result.value.category) && o.result.value.category == body.category.value
      && o.result.value.createdBy == (if caller.Some? then Some(caller.value.id) else body.createdBy)
      && body.sku.Some? && o.result.value.sku == Code(body.sku.value)
      && !Taken(s.products, SkuOf, o.result.value.sku, None)
      && o.state == s.(products := s.products + [Doc(s.nextId, o.result.value)], nextId := s.nextId + 1)
  {
    if body.category.None? || !Has(s.categories, body.category.value) then Outcome(Fail(CategoryMissing), s)
    else match Create(Stamped(caller, body))
      case Fail(f) => Outcome(Fail(f), s)
      case Ok(p) =>
        if Taken(s.products, SkuOf, p.sku, None) then Outcome(Fail(DuplicateSku), s)
        else Outcome(Ok(p), s.(products := s.products + [Doc(s.nextId, p)], nextId := s.nextId + 1))
  }

  lemma CreateProductConsistent(s: Snapshot, caller: Option<Caller>, body: Body)
    requires Consistent(s)
    ensures Consistent(CreateProductOutcome(s, caller, body).state)
  {
    var o := CreateProductOutcome(s, caller, body);
    if o.result.Ok? {
      AddProduct(s, o.result.value);
    }
  }

  /** `createProduct`. */
  method CreateProduct(db: Store, caller: Option<Caller>, body: Body) returns (r: Result<Product>)
    requires db.Valid()
    modifies db
    ensures Outcome(r, db.State()) == CreateProductOutcome(old(db.State()), caller, body)
    ensures db.Valid()
  {
    CreateProductConsistent(db.State(), caller, body);
    if body.category.None? || !Has(db.categories, body.category.value) {
      return Fail(CategoryMissing);
    }
    var created := Create(Stamped(caller, body));
    if created.Fail? {
      return Fail(created.failure);
    }
    if Taken(db.products, SkuOf, created.value.sku, None) {
      return Fail(DuplicateSku);
    }
    db.products := db.products + [Doc(db.nextId, created.value)];
    db.nextId := db.nextId + 1;
    return Ok(created.value);
  }

  // ---------------------------------------------------------------------
  // updateProduct and deleteProduct

  /** `updateProduct`, in its check order: a named category must exist
      (400), then the product (404), then a restricted caller must have
      created it (403); the body's fields then replace the stored ones, and
      a schema failure or a SKU held by another product throws (500). */
  function UpdateProductOutcome(s: Snapshot, caller: Option<Caller>, id: Id, body: Body): (o: Outcome<Product>)
    ensures body.category.Some? && !Has(s.categories, body.category.value) ==> o == Outcome(Fail(CategoryMissing), s)
    ensures o.result.Fail? && o.result.failure.NotFound? <==>
      (body.category.None? || Has(s.categories, body.category.value)) && !Has(s.products, id)
    ensures o.result.Fail? && o.result.failure.Forbidden? <==>
      (body.category.None? || Has(s.categories, body.category.value)) && Has(s.products, id)
      && !MayTouch(caller, Get(s.products, id).value.createdBy)
    ensures o.result.Fail? ==> o.state == s
    ensures o.result.Ok? ==>
      var k := Find(s.products, id).value;
      Update(s.products[k].body, body) == Ok(o.result.value)
      && !Taken(s.products, SkuOf, o.result.value.sku, Some(k))
      && o.state == s.(products := Replace(s.products, k, o.result.value))
    ensures ((body.category.None? || Has(s.categories, body.category.value))
             && Has(s.products, id) && MayTouch(caller, Get(s.products, id).value.createdBy)) ==>
      var k := Find(s.products, id).value;
      var u := Update(s.products[k].body, body);
      (o.result.Ok? <==> u.Ok? && !Taken(s.products, SkuOf, u.value.sku, Some(k)))
      && (u.Ok? && Taken(s.products, SkuOf, u.value.sku, Some(k)) ==> o.result == Fail(ServerError("Duplicate SKU")))
  {
    if body.category.Some? && !Has(s.categories, body.category.value) then Outcome(Fail(CategoryMissing), s)
    else match Find(s.products, id)
      case None => Outcome(Fail(NotFound("Product not found")), s)
      case Some(k) =>
        var stored := s.products[k].body;
        if !MayTouch(caller, stored.createdBy) then
          Outcome(Fail(Forbidden("Forbidden: cannot modify this product")), s)
        else match Update(stored, body)
          case Fail(f) => Outcome(Fail(f), s)
          case Ok(p) =>
            if Taken(s.products, SkuOf, p.sku, Some(k)) then Outcome(Fail(ServerError("Duplicate SKU")), s)
            else Outcome(Ok(p), s.(products := Replace(s.products, k, p)))
  }

  lemma UpdateProductConsistent(s: Snapshot, caller: Option<Caller>, id: Id, body: Body)
    requires Consistent(s)
    ensures Consistent(UpdateProductOutcome(s, caller, id, body).state)
  {
    var o := UpdateProductOutcome(s, caller, id, body);
    if o.result.Ok? {
      var k := Find(s.products, id).value;
      ReplaceKeyed(s.products, s.nextId, k, o.result.value);
      ReplaceAll(s.products, Valid, k, o.result.value);
      ReplaceDistinctBy(s.products, SkuOf, k, o.result.value);
    }
  }

  /** `updateProduct`. */
  method UpdateProduct(db: Store, caller: Option<Caller>, id: Id, body: Body) returns (r: Result<Product>)
    requires db.Valid()
    modifies db
    ensures Outcome(r, db.State()) == UpdateProductOutcome(old(db.State()), caller, id, body)
    ensures db.Valid()
  {
    UpdateProductConsistent(db.State(), caller, id, body);
    if body.category.Some? && !Has(db.categories, body.category.value) {
      return Fail(CategoryMissing);
    }
    var k := Find(db.products, id);
    if k.None? {
      return Fail(NotFound("Product not found"));
    }
    var stored := db.products[k.value].body;
    if !MayTouch(caller, stored.createdBy) {
      return Fail(Forbidden("Forbidden: cannot modify this product"));
    }
    var updated := Update(stored, body);
    if updated.Fail? {
      return Fail(updated.failure);
    }
    if Taken(db.products, SkuOf, updated.value.sku, Some(k.value)) {
      return Fail(ServerError("Duplicate SKU"));
    }
    db.products := Replace(db.products, k.value, updated.value);
    return Ok(updated.value);
  }

  /** `deleteProduct`: 404, then 403, then the product is removed; invoice
      and purchase lines that name it are left as they are. */
  function DeleteProductOutcome(s: Snapshot, caller: Option<Caller>, id: Id): (o: Outcome<Id>)
    ensures o.result.Fail? && o.result.failure.NotFound? <==> !Has(s.products, id)
    ensures o.result.Fail? && o.result.failure.Forbidden? <==>
      Has(s.products, id) && !MayTouch(caller, Get(s.products, id).value.createdBy)
    ensures o.result.Fail? ==> o.state == s
    ensures o.result.Ok? ==>
      o.result.value == id && o.state == s.(products := RemoveAt(s.products, Find(s.products, id).value))
    ensures Has(s.products, id) && MayTouch(caller, Get(s.products, id).value.createdBy) ==> o.result.Ok?
  {
    match Find(s.products, id)
    case None => Outcome(Fail(NotFound("Product not found")), s)
    case Some(k) =>
      if !MayTouch(caller, s.products[k].body.createdBy) then
        Outcome(Fail(Forbidden("Forbidden: cannot delete this product")), s)
      else Outcome(Ok(id), s.(products := RemoveAt(s.products, k)))
  }

  /** A delete keeps the store consistent and removes the product when it
      succeeds. */
  lemma DeleteProductRemoves(s: Snapshot, caller: Option<Caller>, id: Id)
    requires Consistent(s)
    ensures var o := DeleteProductOutcome(s, caller, id);
      Consistent(o.state) && (o.result.Ok? ==> !Has(o.state.products, id))
  {
    var o := DeleteProductOutcome(s, caller, id);
    if o.result.Ok? {
      var k := Find(s.products, id).value;
      RemoveKeyed(s.products, s.nextId, k);
      RemoveAll(s.products, Valid, k);
      RemoveDistinctBy(s.products, SkuOf, k);
      var r := o.state.products;
      forall j | 0 <= j < |r| ensures r[j].id != id {
        if j < k {
          assert r[j] == s.products[j];
        } else {
          assert r[j] == s.products[j + 1];
        }
      }
    }
  }

  /** `deleteProduct`. */
  method DeleteProduct(db: Store, caller: Option<Caller>, id: Id) returns (r: Result<Id>)
    requires db.Valid()
    modifies db
    ensures Outcome(r, db.State()) == DeleteProductOutcome(old(db.State()), caller, id)
    ensures db.Valid()
  {
    DeleteProductRemoves(db.State(), caller, id);
    var k := Find(db.products, id);
    if k.None? {
      return Fail(NotFound("Product not found"));
    }
    if !MayTouch(caller, db.products[k.value].body.createdBy) {
      return Fail(Forbidden("Forbidden: cannot delete this product"));
    }
    db.products := RemoveAt(db.products, k.value);
    return Ok(id);
  }
}
