/** The Supplier schema: a required trimmed name, a required unique code
    (trimmed, upper-cased), an active flag (default true) and an optional
    creator. Contact, address, GST number and bank details are free text and
    are not modelled. */
module SupplierModel {
  import opened Common
  import opened Text

  datatype Supplier = Supplier(name: string, code: string, isActive: bool, createdBy: Option<Id>)

  predicate Valid(s: Supplier)
  {
    s.name != "" && Trim(s.name) == s.name && s.code != "" && Code(s.code) == s.code
  }

  /** The key of the unique index on `code`. */
  function CodeOf(s: Supplier): string
  {
    s.code
  }

  datatype Body = Body(name: Option<string>, code: Option<string>, isActive: Option<bool>,
                       createdBy: Option<Id>)

  function Checked(s: Supplier): (r: Result<Supplier>)
    ensures r.Ok? <==> Valid(s)
    ensures r.Ok? ==> r.value == s
    ensures r.Fail? ==> r.failure.ServerError?
  {
    if Valid(s) then Ok(s) else Fail(ServerError("Supplier validation failed"))
  }

  function Create(body: Body): (r: Result<Supplier>)
    ensures r.Ok? <==> body.name.Some? && Trim(body.name.value) != ""
                       && body.code.Some? && Code(body.code.value) != ""
    ensures r.Ok? ==> Valid(r.value) && r.value.name == Trim(body.name.value) && r.value.code == Code(body.code.value)
                      && r.value.isActive == Or(body.isActive, true)
                      && r.value.createdBy == body.createdBy
  {
    TrimIdempotent(Or(body.name, ""));
    CodeIdempotent(Or(body.code, ""));
    Checked(Supplier(Trim(Or(body.name, "")), Code(Or(body.code, "")), Or(body.isActive, true),
                     body.createdBy))
  }

  function Update(stored: Supplier, body: Body): (r: Result<Supplier>)
    ensures r.Ok? <==> Trim(Or(body.name, stored.name)) != "" && Code(Or(body.code, stored.code)) != ""
    ensures r.Ok? ==> Valid(r.value)
    ensures r.Ok? && body.name.Some? ==> r.value.name == Trim(body.name.value)
    ensures r.Ok? && body.code.Some? ==> r.value.code == Code(body.code.value)
    ensures r.Ok? && body.name.None? && Valid(stored) ==> r.value.name == stored.name
    ensures r.Ok? && body.code.None? && Valid(stored) ==> r.value.code == stored.code
    ensures r.Ok? ==> r.value.isActive == Or(body.isActive, stored.isActive)
    ensures r.Ok? ==> r.value.createdBy == (if body.createdBy.Some? then body.createdBy else stored.createdBy)
  {
    TrimIdempotent(Or(body.name, stored.name));
    CodeIdempotent(Or(body.code, stored.code));
    Checked(Supplier(Trim(Or(body.name, stored.name)), Code(Or(body.code, stored.code)),
                     Or(body.isActive, stored.isActive),
                     if body.createdBy.Some? then body.createdBy else stored.createdBy))
  }
}
