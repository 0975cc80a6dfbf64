/** Suppliers: listing under the creator scope by name, single reads, and
    creation, update and deletion with their check order. */
module SupplierController {
  import opened Common
  import opened Text
  import opened Tables
  import opened Aggregate
  import opened Access
  import opened Database
  import opened SupplierModel

  // ---------------------------------------------------------------------
  // getAllSuppliers and getSupplierById

  predicate Owned(sp: Supplier, caller: Option<Caller>)
  {
    !Restricted(caller) || sp.createdBy == Some(caller.value.id)
  }

  function NameKey(d: Doc<Supplier>): string
  {
    d.body.name
  }

  /** `getAllSuppliers`: a restricted caller's own suppliers, anyone else's
      every supplier, by name ascending. */
  function ListSuppliers(s: Snapshot, caller: Option<Caller>): (r: seq<Doc<Supplier>>)
    ensures SortedAsc(r, NameKey)
    ensures forall d :: d in r <==> d in s.suppliers && Owned(d.body, caller)
    ensures !Restricted(caller) ==> multiset(r) == multiset(s.suppliers)
  {
    var own := Filter(s.suppliers, OwnedDoc(caller));
    OwnFilter(s.suppliers, caller);
    var r := SortAsc(own, NameKey);
    assert forall d :: d in r <==> d in multiset(own);
    r
  }

  function OwnedDoc(caller: Option<Caller>): Doc<Supplier> -> bool
  {
    (d: Doc<Supplier>) => Owned(d.body, caller)
  }

  /** The creator filter keeps exactly the caller's suppliers, and all of
      them for an unrestricted caller. */
  lemma OwnFilter(sps: seq<Doc<Supplier>>, caller: Option<Caller>)
    ensures forall d :: d in Filter(sps, OwnedDoc(caller)) <==> d in sps && Owned(d.body, caller)
    ensures !Restricted(caller) ==> Filter(sps, OwnedDoc(caller)) == sps
  {
    var own := Filter(sps, OwnedDoc(caller));
    forall d | d in sps && Owned(d.body, caller) ensures d in own {
      var k :| 0 <= k < |sps| && sps[k] == d;
    }
    if !Restricted(caller) {
      FilterAll(sps, OwnedDoc(caller));
    }
  }

  /** A filter that keeps everything is the identity. */
  lemma {:induction false} FilterAll<T>(s: seq<T>, p: T -> bool)
    requires forall k :: 0 <= k < |s| ==> p(s[k])
    ensures Filter(s, p) == s
  {
    if s != [] {
      var init := s[..|s| - 1];
      assert forall k :: 0 <= k < |init| ==> init[k] == s[k];
      FilterAll(init, p);
      assert p(s[|s| - 1]);
      assert init + [s[|s| - 1]] == s;
    }
  }

  /** `getSupplierById`: 404 when absent, then 403 for a restricted caller
      that did not create the supplier. */
  function SupplierById(s: Snapshot, caller: Option<Caller>, id: Id): (r: Result<Supplier>)
    ensures r.Fail? && r.failure.NotFound? <==> !Has(s.suppliers, id)
    ensures r.Fail? && r.failure.Forbidden? <==>
      Has(s.suppliers, id) && !MayTouch(caller, Get(s.suppliers, id).value.createdBy)
    ensures r.Ok? ==> Get(s.suppliers, id) == Some(r.value)
  {
    match Get(s.suppliers, id)
    case None => Fail(NotFound("Supplier not found"))
    case Some(sp) =>
      match Authorize(true, sp.createdBy, caller, "supplier")
      case Some(f) => Fail(f)
      case None => Ok(sp)
  }

  // ---------------------------------------------------------------------
  // createSupplier

  const DuplicateCode: Failure := BadRequest("Supplier with this code already exists")

  /** The request body with the caller stamped as creator, when there is a
      caller. */
  function Stamped(caller: Option<Caller>, body: Body): (b: Body)
    ensures caller.Some? ==> b.createdBy == Some(caller.value.id)
    ensures caller.None? ==> b == body
  {
    if caller.Some? then body.(createdBy := Some(caller.value.id)) else body
  }

  /** `createSupplier`: the body is stored with the caller as creator when
      there is a caller; a schema failure answers 500 and a code some
      supplier already holds 400. */
  function CreateSupplierOutcome(s: Snapshot, caller: Option<Caller>, body: Body): (o: Outcome<Supplier>)
    ensures o.result.Fail? ==> o.state == s
    ensures o.result == Fail(DuplicateCode) <==>
      Create(Stamped(caller, body)).Ok? && Taken(s.suppliers, CodeOf, Create(Stamped(caller, body)).value.code, None)
    ensures o.result.Ok? <==>
      body.name.Some? && Trim(body.name.value) != "" && body.code.Some? && Code(body.code.value) != ""
      && !Taken(s.suppliers, CodeOf, Code(body.code.value), None)
    ensures o.result.Ok? ==>
      o.result.value.createdBy == (if caller.Some? then Some(caller.value.id) else body.createdBy)
      && o.result.value.code == Code(body.code.value)
      && o.state == s.(suppliers := s.suppliers + [Doc(s.nextId, o.result.value)], nextId := s.nextId + 1)
  {
    match Create(Stamped(caller, body))
    case Fail(f) => Outcome(Fail(f), s)
    case Ok(sp) =>
      if Taken(s.suppliers, CodeOf, sp.code, None) then Outcome(Fail(DuplicateCode), s)
      else Outcome(Ok(sp), s.(suppliers := s.suppliers + [Doc(s.nextId, sp)], nextId := s.nextId + 1))
  }

  lemma CreateSupplierConsistent(s: Snapshot, caller: Option<Caller>, body: Body)
    requires Consistent(s)
    ensures Consistent(CreateSupplierOutcome(s, caller, body).state)
  {
    var o := CreateSupplierOutcome(s, caller, body);
    if o.result.Ok? {
      AddSupplier(s, o.result.value);
    }
  }

  /** `createSupplier`. */
  method CreateSupplier(db: Store, caller: Option<Caller>, body: Body) returns (r: Result<Supplier>)
    requires db.Valid()
    modifies db
    ensures Outcome(r, db.State()) == CreateSupplierOutcome(old(db.State()), caller, body)
    ensures db.Valid()
  {
    CreateSupplierConsistent(db.State(), caller, body);
    var created := Create(Stamped(caller, body));
    if created.Fail? {
      return Fail(created.failure);
    }
    if Taken(db.suppliers, CodeOf, created.value.code, None) {
      return Fail(DuplicateCode);
    }
    db.suppliers := db.suppliers + [Doc(db.nextId, created.value)];
    db.nextId := db.nextId + 1;
    return Ok(created.value);
  }

  // ---------------------------------------------------------------------
  // updateSupplier and deleteSupplier

  /** `updateSupplier`: 404, then 403, then the body's fields replace the
      stored ones; a schema failure or a code held by another supplier
      throws (500). */
  function UpdateSupplierOutcome(s: Snapshot, caller: Option<Caller>, id: Id, body: Body): (o: Outcome<Supplier>)
    ensures o.result.Fail? && o.result.failure.NotFound? <==> !Has(s.suppliers, id)
    ensures o.result.Fail? && o.result.failure.Forbidden? <==>
      Has(s.suppliers, id) && !MayTouch(caller, Get(s.suppliers, id).value.createdBy)
    ensures o.result.Fail? ==> o.state == s
    ensures o.result.Ok? ==>
      var k := Find(s.suppliers, id).value;
      Update(s.suppliers[k].body, body) == Ok(o.result.value)
      && !Taken(s.suppliers, CodeOf, o.result.value.code, Some(k))
      && o.state == s.(suppliers := Replace(s.suppliers, k, o.result.value))
    ensures Has(s.suppliers, id) && MayTouch(caller, Get(s.suppliers, id).value.createdBy) ==>
      var k := Find(s.suppliers, id).value;
      var u := Update(s.suppliers[k].body, body);
      (o.result.Ok? <==> u.Ok? && !Taken(s.suppliers, CodeOf, u.value.code, Some(k)))
      && (u.Ok? && Taken(s.suppliers, CodeOf, u.value.code, Some(k)) ==> o.result == Fail(ServerError("Duplicate supplier code")))
  {
    match Find(s.suppliers, id)
    case None => Outcome(Fail(NotFound("Supplier not found")), s)
    case Some(k) =>
      var stored := s.suppliers[k].body;
      if !MayTouch(caller, stored.createdBy) then
        Outcome(Fail(Forbidden("Forbidden: cannot modify this supplier")), s)
      else match Update(stored, body)
        case Fail(f) => Outcome(Fail(f), s)
        case Ok(sp) =>
          if Taken(s.suppliers, CodeOf, sp.code, Some(k)) then Outcome(Fail(ServerError("Duplicate supplier code")), s)
          else Outcome(Ok(sp), s.(suppliers := Replace(s.suppliers, k, sp)))
  }

  lemma UpdateSupplierConsistent(s: Snapshot, caller: Option<Caller>, id: Id, body: Body)
    requires Consistent(s)
    ensures Consistent(UpdateSupplierOutcome(s, caller, id, body).state)
  {
    var o := UpdateSupplierOutcome(s, caller, id, body);
    if o.result.Ok? {
      var k := Find(s.suppliers, id).value;
      ReplaceKeyed(s.suppliers, s.nextId, k, o.result.value);
      ReplaceAll(s.suppliers, Valid, k, o.result.value);
      ReplaceDistinctBy(s.suppliers, CodeOf, k, o.result.value);
    }
  }

  /** `updateSupplier`. */
  method UpdateSupplier(db: Store, caller: Option<Caller>, id: Id, body: Body) returns (r: Result<Supplier>)
    requires db.Valid()
    modifies db
    ensures Outcome(r, db.State()) == UpdateSupplierOutcome(old(db.State()), caller, id, body)
    ensures db.Valid()
  {
    UpdateSupplierConsistent(db.State(), caller, id, body);
    var k := Find(db.suppliers, id);
    if k.None? {
      return Fail(NotFound("Supplier not found"));
    }
    var stored := db.suppliers[k.value].body;
    if !MayTouch(caller, stored.createdBy) {
      return Fail(Forbidden("Forbidden: cannot modify this supplier"));
    }
    var updated := Update(stored, body);
    if updated.Fail? {
      return Fail(updated.failure);
    }
    if Taken(db.suppliers, CodeOf, updated.value.code, Some(k.value)) {
      return Fail(ServerError("Duplicate supplier code"));
    }
    db.suppliers := Replace(db.suppliers, k.value, updated.value);
    return Ok(updated.value);
  }

  /** `deleteSupplier`: 404, then 403, then the supplier is removed;
      purchases that name it are left as they are. */
  function DeleteSupplierOutcome(s: Snapshot, caller: Option<Caller>, id: Id): (o: Outcome<Id>)
    ensures o.result.Fail? && o.result.failure.NotFound? <==> !Has(s.suppliers, id)
    ensures o.result.Fail? && o.result.failure.Forbidden? <==>
      Has(s.suppliers, id) && !MayTouch(caller, Get(s.suppliers, id).value.createdBy)
    ensures o.result.Fail? ==> o.state == s
    ensures o.result.Ok? ==>
      o.result.value == id && o.state == s.(suppliers := RemoveAt(s.suppliers, Find(s.suppliers, id).value))
    ensures Has(s.suppliers, id) && MayTouch(caller, Get(s.suppliers, id).value.createdBy) ==> o.result.Ok?
  {
    match Find(s.suppliers, id)
    case None => Outcome(Fail(NotFound("Supplier not found")), s)
    case Some(k) =>
      if !MayTouch(caller, s.suppliers[k].body.createdBy) then
        Outcome(Fail(Forbidden("Forbidden: cannot delete this supplier")), s)
      else Outcome(Ok(id), s.(suppliers := RemoveAt(s.suppliers, k)))
  }

  /** A delete keeps the store consistent and removes the supplier when it
      succeeds. */
  lemma DeleteSupplierRemoves(s: Snapshot, caller: Option<Caller>, id: Id)
    requires Consistent(s)
    ensures var o := DeleteSupplierOutcome(s, caller, id);
      Consistent(o.state) && (o.result.Ok? ==> !Has(o.state.suppliers, id))
  {
    var o := DeleteSupplierOutcome(s, caller, id);
    if o.result.Ok? {
      var k := Find(s.suppliers, id).value;
      RemoveKeyed(s.suppliers, s.nextId, k);
      RemoveAll(s.suppliers, Valid, k);
      RemoveDistinctBy(s.suppliers, CodeOf, k);
      var r := o.state.suppliers;
      forall j | 0 <= j < |r| ensures r[j].id != id {
        if j < k {
          assert r[j] == s.suppliers[j];
        } else {
          assert r[j] == s.suppliers[j + 1];
        }
      }
    }
  }

  /** `deleteSupplier`. */
  method DeleteSupplier(db: Store, caller: Option<Caller>, id: Id) returns (r: Result<Id>)
    requires db.Valid()
    modifies db
    ensures Outcome(r, db.State()) == DeleteSupplierOutcome(old(db.State()), caller, id)
    ensures db.Valid()
  {
    DeleteSupplierRemoves(db.State(), caller, id);
    var k := Find(db.suppliers, id);
    if k.None? {
      return Fail(NotFound("Supplier not found"));
    }
    if !MayTouch(caller, db.suppliers[k.value].body.createdBy) {
      return Fail(Forbidden("Forbidden: cannot delete this supplier"));
    }
    db.suppliers := RemoveAt(db.suppliers, k.value);
    return Ok(id);
  }
}
