/** Ownership scoping. A caller without the exact role "superadmin" is
    restricted: it sees and changes only what it created, and reads
    school-derived records (invoices, commissions) only for the schools it
    created. A request without an authenticated admin is not restricted. */
module Access {
  import opened Common
  import opened Tables
  import SchoolModel

  predicate Restricted(caller: Option<Caller>)
  {
    caller.Some? && caller.value.role != SuperAdminRole
  }

  /** The per-record test `!record.createdBy || record.createdBy != admin`
      that answers 403: a record without a creator belongs to nobody. */
  predicate MayTouch(caller: Option<Caller>, createdBy: Option<Id>)
  {
    !Restricted(caller) || createdBy == Some(caller.value.id)
  }

  /** Ids of the schools created by `owner`, in creation order. */
  function SchoolsOf(schools: seq<Doc<SchoolModel.School>>, owner: Id): (r: seq<Id>)
    ensures forall id :: id in r <==>
      exists k :: 0 <= k < |schools| && schools[k].id == id && schools[k].body.createdBy == Some(owner)
  {
    if schools == [] then []
    else
      var rest := SchoolsOf(schools[..|schools| - 1], owner);
      var last := schools[|schools| - 1];
      assert forall k :: 0 <= k < |schools| - 1 ==> schools[..|schools| - 1][k] == schools[k];
      if last.body.createdBy == Some(owner) then rest + [last.id] else rest
  }

  /** `getOwnedSchoolIds`: None ("no restriction") for a missing admin or a
      superadmin, otherwise exactly the ids of the schools the admin
      created, which may be an empty list. */
  function OwnedSchoolIds(caller: Option<Caller>, schools: seq<Doc<SchoolModel.School>>): (r: Option<seq<Id>>)
    ensures caller.None? ==> r.None?
    ensures caller.Some? && caller.value.role == SuperAdminRole ==> r.None?
    ensures r.None? <==> !Restricted(caller)
    ensures r.Some? ==> forall id :: id in r.value <==>
      exists k :: 0 <= k < |schools| && schools[k].id == id
                  && schools[k].body.createdBy == Some(caller.value.id)
  {
    if !Restricted(caller) then None else Some(SchoolsOf(schools, caller.value.id))
  }

  /** A restricted admin that created no school gets an empty list, not the
      "no restriction" answer. */
  lemma NoSchoolsIsEmptyNotNull(caller: Option<Caller>, schools: seq<Doc<SchoolModel.School>>)
    requires Restricted(caller)
    requires forall k :: 0 <= k < |schools| ==> schools[k].body.createdBy != Some(caller.value.id)
    ensures OwnedSchoolIds(caller, schools) == Some([])
  {
    NoneCreated(schools, caller.value.id);
  }

  lemma {:induction false} NoneCreated(schools: seq<Doc<SchoolModel.School>>, owner: Id)
    requires forall k :: 0 <= k < |schools| ==> schools[k].body.createdBy != Some(owner)
    ensures SchoolsOf(schools, owner) == []
  {
    if schools != [] {
      NoneCreated(schools[..|schools| - 1], owner);
    }
  }

  /** The two checks every read, update and delete of a single record makes,
      in this order: 404 when the record does not exist, then 403 when a
      restricted caller did not create it. None means the request may go on. */
  function Authorize(exists_: bool, createdBy: Option<Id>, caller: Option<Caller>, noun: string): (r: Option<Failure>)
    ensures r.Some? && r.value.NotFound? <==> !exists_
    ensures r.Some? && r.value.Forbidden? <==> exists_ && !MayTouch(caller, createdBy)
    ensures r.None? <==> exists_ && MayTouch(caller, createdBy)
  {
    if !exists_ then Some(NotFound(noun + " not found"))
    else if !MayTouch(caller, createdBy) then Some(Forbidden("Forbidden: not your " + noun))
    else None
  }

  /** The creator of the school with the given id, if that school exists
      (used where ownership is derived from a referenced school). */
  function SchoolCreator(schools: seq<Doc<SchoolModel.School>>, school: Option<Id>): (r: Option<Id>)
    ensures r.Some? ==> school.Some? && exists k :: 0 <= k < |schools| && schools[k].id == school.value
                                                  && schools[k].body.createdBy == r
    ensures school.Some? && Has(schools, school.value) ==> r == Get(schools, school.value).value.createdBy
    ensures school.None? || !Has(schools, school.value) ==> r.None?
  {
    if school.None? then None
    else match Get(schools, school.value)
      case None => None
      case Some(s) => s.createdBy
  }

  /** A restricted caller is refused every record that has no creator, and
      a superadmin is never refused. */
  lemma OwnershipExtremes(caller: Option<Caller>, createdBy: Option<Id>, noun: string)
    ensures Restricted(caller) && createdBy.None? ==> Authorize(true, createdBy, caller, noun) == Some(Forbidden("Forbidden: not your " + noun))
    ensures !Restricted(caller) ==> Authorize(true, createdBy, caller, noun) == None
  {
  }
}
