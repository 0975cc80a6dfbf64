/** The Category schema: a required unique trimmed name, an active flag
    (default true) and an optional creator; a category without a creator is
    a global one. */
module CategoryModel {
  import opened Common
  import opened Text

  datatype Category = Category(name: string, isActive: bool, createdBy: Option<Id>)

  predicate Valid(c: Category)
  {
    c.name != "" && Trim(c.name) == c.name
  }

  /** The key of the unique index on `name`. */
  function NameOf(c: Category): string
  {
    c.name
  }

  datatype Body = Body(name: Option<string>, isActive: Option<bool>, createdBy: Option<Id>)

  function Checked(c: Category): (r: Result<Category>)
    ensures r.Ok? <==> Valid(c)
    ensures r.Ok? ==> r.value == c
    ensures r.Fail? ==> r.failure.ServerError?
  {
    if Valid(c) then Ok(c) else Fail(ServerError("Category validation failed"))
  }

  function Create(body: Body): (r: Result<Category>)
    ensures r.Ok? <==> body.name.Some? && Trim(body.name.value) != ""
    ensures r.Ok? ==> Valid(r.value) && r.value.name == Trim(body.name.value)
                      && r.value.isActive == Or(body.isActive, true)
                      && r.value.createdBy == body.createdBy
  {
    TrimIdempotent(Or(body.name, ""));
    Checked(Category(Trim(Or(body.name, "")), Or(body.isActive, true), body.createdBy))
  }

  function Update(stored: Category, body: Body): (r: Result<Category>)
    ensures r.Ok? <==> Trim(Or(body.name, stored.name)) != ""
    ensures r.Ok? ==> Valid(r.value)
    ensures r.Ok? && body.name.Some? ==> r.value.name == Trim(body.name.value)
    ensures r.Ok? && body.name.None? && Valid(stored) ==> r.value.name == stored.name
    ensures r.Ok? ==> r.value.isActive == Or(body.isActive, stored.isActive)
    ensures r.Ok? ==> r.value.createdBy == (if body.createdBy.Some? then body.createdBy else stored.createdBy)
  {
    TrimIdempotent(Or(body.name, stored.name));
    Checked(Category(Trim(Or(body.name, stored.name)), Or(body.isActive, stored.isActive),
                     if body.createdBy.Some? then body.createdBy else stored.createdBy))
  }
}
