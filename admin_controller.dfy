/** Creating admin accounts: the three required fields, the unused email,
    the default role and the password-free response. */
module AdminController {
  import opened Common
  import opened Tables
  import opened Database
  import opened AdminModel

  /** The request body; every field may be absent. */
  datatype Body = Body(username: Option<string>, email: Option<string>, password: Option<string>, role: Option<string>)

  /** The `data` of the 201 answer. */
  datatype AdminView = AdminView(id: Id, username: string, email: string, role: string)

  const MissingFields: Failure := BadRequest("username, email and password are required")
  const EmailTaken: Failure := BadRequest("Admin with this email already exists")

  /** The response for a stored admin: everything but the password. */
  function ViewOf(d: Doc<Admin>): AdminView
  {
    AdminView(d.id, d.body.username, d.body.email, d.body.role)
  }

  /** `createAdmin`: 400 unless username, email and password are all
      non-empty; 400 when an admin already has the email; otherwise the
      admin is stored with the given role, or "admin" when none (or an
      empty one) is given, whatever role that is. */
  function CreateAdminOutcome(s: Snapshot, body: Body): (o: Outcome<AdminView>)
    ensures o.result == Fail(MissingFields) <==> !Truthy(body.username) || !Truthy(body.email) || !Truthy(body.password)
    ensures o.result == Fail(EmailTaken) <==>
      Truthy(body.username) && Truthy(body.email) && Truthy(body.password) && Taken(s.admins, EmailOf, body.email.value, None)
    ensures o.result.Fail? ==> o.state == s
    ensures (Truthy(body.username) && Truthy(body.email) && Truthy(body.password)
             && !Taken(s.admins, EmailOf, body.email.value, None)) ==> o.result.Ok?
    ensures o.result.Ok? ==>
      var stored := Doc(s.nextId, Admin(body.username.value, body.email.value, body.password.value, OrElse(body.role, DefaultRole)));
      o.result.value == ViewOf(stored)
      && o.state == s.(admins := s.admins + [stored], nextId := s.nextId + 1)
  {
    if !Truthy(body.username) || !Truthy(body.email) || !Truthy(body.password) then Outcome(Fail(MissingFields), s)
    else if Taken(s.admins, EmailOf, body.email.value, None) then Outcome(Fail(EmailTaken), s)
    else
      var stored := Doc(s.nextId, Admin(body.username.value, body.email.value, body.password.value, OrElse(body.role, DefaultRole)));
      Outcome(Ok(ViewOf(stored)), s.(admins := s.admins + [stored], nextId := s.nextId + 1))
  }

  /** A creation keeps the store consistent; once it succeeds the email
      belongs to exactly the new admin, whose role is the one asked for
      (including "superadmin") or "admin". */
  lemma CreateAdminConsistent(s: Snapshot, body: Body)
    requires Consistent(s)
    ensures var o := CreateAdminOutcome(s, body);
      Consistent(o.state)
      && (o.result.Ok? ==>
            Get(o.state.admins, o.result.value.id) == Some(Admin(body.username.value, body.email.value, body.password.value, o.result.value.role))
            && (body.role.Some? && body.role.value != "" ==> o.result.value.role == body.role.value)
            && (forall k :: 0 <= k < |o.state.admins| && o.state.admins[k].body.email == body.email.value ==>
                  o.state.admins[k].id == o.result.value.id))
  {
    var o := CreateAdminOutcome(s, body);
    if o.result.Ok? {
      var a := Admin(body.username.value, body.email.value, body.password.value, OrElse(body.role, DefaultRole));
      AddAdmin(s, a);
      FindDistinct(o.state.admins, |s.admins|);
    }
  }

  /** `createAdmin`. */
  method CreateAdmin(db: Store, body: Body) returns (r: Result<AdminView>)
    requires db.Valid()
    modifies db
    ensures Outcome(r, db.State()) == CreateAdminOutcome(old(db.State()), body)
    ensures db.Valid()
  {
    CreateAdminConsistent(db.State(), body);
    if !Truthy(body.username) || !Truthy(body.email) || !Truthy(body.password) {
      return Fail(MissingFields);
    }
    if Taken(db.admins, EmailOf, body.email.value, None) {
      return Fail(EmailTaken);
    }
    var stored := Doc(db.nextId, Admin(body.username.value, body.email.value, body.password.value, OrElse(body.role, DefaultRole)));
    db.admins := db.admins + [stored];
    db.nextId := db.nextId + 1;
    return Ok(ViewOf(stored));
  }
}
