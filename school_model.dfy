/** The School schema: a required trimmed name, a required unique code
    stored trimmed and upper-cased, a commission rate between 0 and 100
    (default 0), an active flag (default true) and an optional creator. */
module SchoolModel {
  import opened Common
  import opened Text

  /** A stored school. Address, contact and principal name are free text
      without constraints and are not modelled. */
  datatype School = School(
    name: string,
    code: string,
    commissionRate: real,
    isActive: bool,
    createdBy: Option<Id>)

  predicate Valid(s: School)
  {
    s.name != "" && Trim(s.name) == s.name
    && s.code != "" && Code(s.code) == s.code
    && 0.0 <= s.commissionRate <= 100.0
  }

  /** The key of the unique index on `code`. */
  function CodeOf(s: School): string
  {
    s.code
  }

  /** A request body for create or update; every field may be absent. */
  datatype Body = Body(
    name: Option<string>,
    code: Option<string>,
    commissionRate: Option<real>,
    isActive: Option<bool>,
    createdBy: Option<Id>)

  predicate Admissible(name: string, code: string, rate: real)
  {
    Trim(name) != "" && Code(code) != "" && 0.0 <= rate <= 100.0
  }

  /** Validation after the setters ran: a validation error is an exception
      that reaches the error handler. */
  function Checked(s: School): (r: Result<School>)
    ensures r.Ok? <==> Valid(s)
    ensures r.Ok? ==> r.value == s
    ensures r.Fail? ==> r.failure.ServerError?
  {
    if Valid(s) then Ok(s) else Fail(ServerError("School validation failed"))
  }

  /** `School.create(body)`: setters, then defaults, then validation. */
  function Create(body: Body): (r: Result<School>)
    ensures r.Ok? <==> body.name.Some? && body.code.Some?
                       && Admissible(body.name.value, body.code.value, Or(body.commissionRate, 0.0))
    ensures r.Ok? ==> Valid(r.value) && r.value.createdBy == body.createdBy
    ensures r.Ok? ==> r.value.code == Code(body.code.value) && r.value.name == Trim(body.name.value)
    ensures r.Ok? ==> r.value.commissionRate == Or(body.commissionRate, 0.0)
                      && r.value.isActive == Or(body.isActive, true)
  {
    TrimIdempotent(Or(body.name, ""));
    CodeIdempotent(Or(body.code, ""));
    Checked(School(
      Trim(Or(body.name, "")),
      Code(Or(body.code, "")),
      Or(body.commissionRate, 0.0),
      Or(body.isActive, true),
      body.createdBy))
  }

  /** `findByIdAndUpdate(id, body, {runValidators: true})`: the fields the
      body carries replace the stored ones, through the same setters. */
  function Update(stored: School, body: Body): (r: Result<School>)
    ensures r.Ok? <==> Admissible(Or(body.name, stored.name), Or(body.code, stored.code),
                                  Or(body.commissionRate, stored.commissionRate))
    ensures r.Ok? ==> Valid(r.value)
    ensures r.Ok? && body.name.Some? ==> r.value.name == Trim(body.name.value)
    ensures r.Ok? && body.code.Some? ==> r.value.code == Code(body.code.value)
    ensures r.Ok? && body.name.None? && Valid(stored) ==> r.value.name == stored.name
    ensures r.Ok? && body.code.None? && Valid(stored) ==> r.value.code == stored.code
    ensures r.Ok? ==> r.value.commissionRate == Or(body.commissionRate, stored.commissionRate)
                      && r.value.isActive == Or(body.isActive, stored.isActive)
    ensures r.Ok? ==> r.value.createdBy == (if body.createdBy.Some? then body.createdBy else stored.createdBy)
  {
    TrimIdempotent(Or(body.name, stored.name));
    CodeIdempotent(Or(body.code, stored.code));
    Checked(School(
      Trim(Or(body.name, stored.name)),
      Code(Or(body.code, stored.code)),
      Or(body.commissionRate, stored.commissionRate),
      Or(body.isActive, stored.isActive),
      if body.createdBy.Some? then body.createdBy else stored.createdBy))
  }
}
