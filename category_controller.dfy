/** Categories: the visibility rule (a caller's own categories plus the
    global ones, which have no creator), and creation, update and deletion
    with their check order. Global categories are readable by everyone but
    changeable only by an unrestricted caller. */
module CategoryController {
  import opened Common
  import opened Tables
  import opened Aggregate
  import opened Access
  import opened Database
  import opened CategoryModel
  import ProductModel

  // ---------------------------------------------------------------------
  // getAllCategories

  /** The query `getAllCategories` builds for a restricted caller: created by
      the caller, or with no creator at all. */
  predicate Visible(c: Category, caller: Option<Caller>): (b: bool)
    ensures b <==> MayTouch(caller, c.createdBy) || c.createdBy.None?
  {
    !Restricted(caller) || c.createdBy == Some(caller.value.id) || c.createdBy.None?
  }

  function NameKey(d: Doc<Category>): string
  {
    d.body.name
  }

  /** `getAllCategories`: exactly the visible categories, by name
      ascending. */
  function ListCategories(s: Snapshot, caller: Option<Caller>): (r: seq<Doc<Category>>)
    ensures SortedAsc(r, NameKey)
    ensures forall d :: d in r <==> d in s.categories && Visible(d.body, caller)
  {
    var visible := Filter(s.categories, (d: Doc<Category>) => Visible(d.body, caller));
    var r := SortAsc(visible, NameKey);
    assert forall d :: d in r <==> d in multiset(visible);
    r
  }

  // ---------------------------------------------------------------------
  // createCategory

  const DuplicateName: Failure := BadRequest("Category with this name already exists")

  /** The request body with the caller stamped as creator, when there is a
      caller. */
  function Stamped(caller: Option<Caller>, body: Body): (b: Body)
    ensures caller.Some? ==> b.createdBy == Some(caller.value.id)
    ensures caller.None? ==> b == body
  {
    if caller.Some? then body.(createdBy := Some(caller.value.id)) else body
  }

  /** `createCategory`: the body is stored with the caller as creator when
      there is a caller; a schema failure answers 500 and a name some
      category already holds 400. Without a caller the category is global. */
  function CreateCategoryOutcome(s: Snapshot, caller: Option<Caller>, body: Body): (o: Outcome<Category>)
    ensures o.result.Fail? ==> o.state == s
    ensures o.result == Fail(DuplicateName) <==>
      Create(Stamped(caller, body)).Ok? && Taken(s.categories, NameOf, Create(Stamped(caller, body)).value.name, None)
    ensures o.result.Ok? <==>
      Create(Stamped(caller, body)).Ok? && !Taken(s.categories, NameOf, Create(Stamped(caller, body)).value.name, None)
    ensures o.result.Ok? ==>
      o.result.value.createdBy == (if caller.Some? then Some(caller.value.id) else body.createdBy)
      && o.state == s.(categories := s.categories + [Doc(s.nextId, o.result.value)], nextId := s.nextId + 1)
  {
    match Create(Stamped(caller, body))
    case Fail(f) => Outcome(Fail(f), s)
    case Ok(category) =>
      if Taken(s.categories, NameOf, category.name, None) then Outcome(Fail(DuplicateName), s)
      else Outcome(Ok(category), s.(categories := s.categories + [Doc(s.nextId, category)], nextId := s.nextId + 1))
  }

  lemma CreateCategoryConsistent(s: Snapshot, caller: Option<Caller>, body: Body)
    requires Consistent(s)
    ensures Consistent(CreateCategoryOutcome(s, caller, body).state)
  {
    var o := CreateCategoryOutcome(s, caller, body);
    if o.result.Ok? {
      AddCategory(s, o.result.value);
    }
  }

  /** `createCategory`. */
  method CreateCategory(db: Store, caller: Option<Caller>, body: Body) returns (r: Result<Category>)
    requires db.Valid()
    modifies db
    ensures Outcome(r, db.State()) == CreateCategoryOutcome(old(db.State()), caller, body)
    ensures db.Valid()
  {
    CreateCategoryConsistent(db.State(), caller, body);
    var created := Create(Stamped(caller, body));
    if created.Fail? {
      return Fail(created.failure);
    }
    if Taken(db.categories, NameOf, created.value.name, None) {
      return Fail(DuplicateName);
    }
    db.categories := db.categories + [Doc(db.nextId, created.value)];
    db.nextId := db.nextId + 1;
    return Ok(created.value);
  }

  // ---------------------------------------------------------------------
  // updateCategory and deleteCategory

  /** `updateCategory`: 404, then 403 (a global category included), then
      the body's fields replace the stored ones; a schema failure or a name
      held by another category throws (500). */
  function UpdateCategoryOutcome(s: Snapshot, caller: Option<Caller>, id: Id, body: Body): (o: Outcome<Category>)
    ensures o.result.Fail? && o.result.failure.NotFound? <==> !Has(s.categories, id)
    ensures o.result.Fail? && o.result.failure.Forbidden? <==>
      Has(s.categories, id) && !MayTouch(caller, Get(s.categories, id).value.createdBy)
    ensures o.result.Fail? ==> o.state == s
    ensures o.result.Ok? ==>
      var k := Find(s.categories, id).value;
      Update(s.categories[k].body, body) == Ok(o.result.value)
      && !Taken(s.categories, NameOf, o.result.value.name, Some(k))
      && o.state == s.(categories := Replace(s.categories, k, o.result.value))
    ensures Has(s.categories, id) && MayTouch(caller, Get(s.categories, id).value.createdBy) ==>
      var k := Find(s.categories, id).value;
      var u := Update(s.categories[k].body, body);
      (o.result.Ok? <==> u.Ok? && !Taken(s.categories, NameOf, u.value.name, Some(k)))
      && (u.Ok? && Taken(s.categories, NameOf, u.value.name, Some(k)) ==> o.result == Fail(ServerError("Duplicate category name")))
  {
    match Find(s.categories, id)
    case None => Outcome(Fail(NotFound("Category not found")), s)
    case Some(k) =>
      var stored := s.categories[k].body;
      if !MayTouch(caller, stored.createdBy) then
        Outcome(Fail(Forbidden("Forbidden: cannot modify this category")), s)
      else match Update(stored, body)
        case Fail(f) => Outcome(Fail(f), s)
        case Ok(category) =>
          if Taken(s.categories, NameOf, category.name, Some(k)) then
            Outcome(Fail(ServerError("Duplicate category name")), s)
          else Outcome(Ok(category), s.(categories := Replace(s.categories, k, category)))
  }

  lemma UpdateCategoryConsistent(s: Snapshot, caller: Option<Caller>, id: Id, body: Body)
    requires Consistent(s)
    ensures Consistent(UpdateCategoryOutcome(s, caller, id, body).state)
  {
    var o := UpdateCategoryOutcome(s, caller, id, body);
    if o.result.Ok? {
      var k := Find(s.categories, id).value;
      ReplaceKeyed(s.categories, s.nextId, k, o.result.value);
      ReplaceAll(s.categories, Valid, k, o.result.value);
      ReplaceDistinctBy(s.categories, NameOf, k, o.result.value);
    }
  }

  /** `updateCategory`. */
  method UpdateCategory(db: Store, caller: Option<Caller>, id: Id, body: Body) returns (r: Result<Category>)
    requires db.Valid()
    modifies db
    ensures Outcome(r, db.State()) == UpdateCategoryOutcome(old(db.State()), caller, id, body)
    ensures db.Valid()
  {
    UpdateCategoryConsistent(db.State(), caller, id, body);
    var k := Find(db.categories, id);
    if k.None? {
      return Fail(NotFound("Category not found"));
    }
    var stored := db.categories[k.value].body;
    if !MayTouch(caller, stored.createdBy) {
      return Fail(Forbidden("Forbidden: cannot modify this category"));
    }
    var updated := Update(stored, body);
    if updated.Fail? {
      return Fail(updated.failure);
    }
    if Taken(db.categories, NameOf, updated.value.name, Some(k.value)) {
      return Fail(ServerError("Duplicate category name"));
    }
    db.categories := Replace(db.categories, k.value, updated.value);
    return Ok(updated.value);
  }

  /** Some product is in the category. */
  predicate HasProducts(products: seq<Doc<ProductModel.Product>>, category: Id)
  {
    exists k :: 0 <= k < |products| && products[k].body.category == category
  }

  const ProductsRemain: Failure := BadRequest("Cannot delete category with existing products")

  /** `deleteCategory`: 404, then 403, then 400 while any product is in the
      category; otherwise the category is removed. */
  function DeleteCategoryOutcome(s: Snapshot, caller: Option<Caller>, id: Id): (o: Outcome<Id>)
    ensures o.result.Fail? && o.result.failure.NotFound? <==> !Has(s.categories, id)
    ensures o.result.Fail? && o.result.failure.Forbidden? <==>
      Has(s.categories, id) && !MayTouch(caller, Get(s.categories, id).value.createdBy)
    ensures o.result == Fail(ProductsRemain) <==>
      Has(s.categories, id) && MayTouch(caller, Get(s.categories, id).value.createdBy) && HasProducts(s.products, id)
    ensures o.result.Fail? ==> o.state == s
    ensures o.result.Ok? ==>
      o.result.value == id && o.state == s.(categories := RemoveAt(s.categories, Find(s.categories, id).value))
    ensures Has(s.categories, id) && MayTouch(caller, Get(s.categories, id).value.createdBy) && !HasProducts(s.products, id) ==>
      o.result.Ok?
  {
    match Find(s.categories, id)
    case None => Outcome(Fail(NotFound("Category not found")), s)
    case Some(k) =>
      if !MayTouch(caller, s.categories[k].body.createdBy) then
        Outcome(Fail(Forbidden("Forbidden: cannot delete this category")), s)
      else if HasProducts(s.products, id) then Outcome(Fail(ProductsRemain), s)
      else Outcome(Ok(id), s.(categories := RemoveAt(s.categories, k)))
  }

  /** Every product is in a category that exists. */
  ghost predicate ProductsPlaced(s: Snapshot)
  {
    forall k :: 0 <= k < |s.products| ==> Has(s.categories, s.products[k].body.category)
  }

  /** A delete keeps the store consistent, removes the category when it
      succeeds, and never leaves a product without its category. */
  lemma DeleteCategoryRemoves(s: Snapshot, caller: Option<Caller>, id: Id)
    requires Consistent(s)
    ensures var o := DeleteCategoryOutcome(s, caller, id);
      Consistent(o.state) && (o.result.Ok? ==> !Has(o.state.categories, id))
      && (ProductsPlaced(s) ==> ProductsPlaced(o.state))
  {
    var o := DeleteCategoryOutcome(s, caller, id);
    if o.result.Ok? {
      var k := Find(s.categories, id).value;
      RemoveKeyed(s.categories, s.nextId, k);
      RemoveAll(s.categories, Valid, k);
      RemoveDistinctBy(s.categories, NameOf, k);
      var r := o.state.categories;
      forall j | 0 <= j < |r| ensures r[j].id != id {
        if j < k {
          assert r[j] == s.categories[j];
        } else {
          assert r[j] == s.categories[j + 1];
        }
      }
      if ProductsPlaced(s) {
        forall i | 0 <= i < |s.products| ensures Has(r, s.products[i].body.category) {
          var j := Find(s.categories, s.products[i].body.category).value;
          assert j != k;
          if j < k {
            assert r[j] == s.categories[j];
          } else {
            assert r[j - 1] == s.categories[j];
          }
        }
      }
    }
  }

  /** `deleteCategory`. */
  method DeleteCategory(db: Store, caller: Option<Caller>, id: Id) returns (r: Result<Id>)
    requires db.Valid()
    modifies db
    ensures Outcome(r, db.State()) == DeleteCategoryOutcome(old(db.State()), caller, id)
    ensures db.Valid()
  {
    DeleteCategoryRemoves(db.State(), caller, id);
    var k := Find(db.categories, id);
    if k.None? {
      return Fail(NotFound("Category not found"));
    }
    if !MayTouch(caller, db.categories[k.value].body.createdBy) {
      return Fail(Forbidden("Forbidden: cannot delete this category"));
    }
    if HasProducts(db.products, id) {
      return Fail(ProductsRemain);
    }
    db.categories := RemoveAt(db.categories, k.value);
    return Ok(id);
  }

  /** A global category is listed for every caller, yet a restricted caller
      can neither update nor delete it, whatever the request says. */
  lemma GlobalReadOnly(s: Snapshot, caller: Option<Caller>, id: Id, body: Body)
    requires Restricted(caller)
    requires Has(s.categories, id) && Get(s.categories, id).value.createdBy.None?
    ensures exists d :: d in ListCategories(s, caller) && d.id == id
    ensures UpdateCategoryOutcome(s, caller, id, body) == Outcome(Fail(Forbidden("Forbidden: cannot modify this category")), s)
    ensures DeleteCategoryOutcome(s, caller, id) == Outcome(Fail(Forbidden("Forbidden: cannot delete this category")), s)
  {
    var k := Find(s.categories, id).value;
    assert s.categories[k] in ListCategories(s, caller);
  }
}
