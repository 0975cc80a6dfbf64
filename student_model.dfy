/** The Student schema: required roll number (unique, trimmed), name and
    class (trimmed), a required school reference, an active flag (default
    true) and an optional creator. */
module StudentModel {
  import opened Common
  import opened Text

  /** A stored student. Parents' names, contact, address and dates are
      free fields without constraints and are not modelled. */
  datatype Student = Student(
    rollNumber: string,
    name: string,
    school: Id,
    className: string,
    section: Option<string>,
    isActive: bool,
    createdBy: Option<Id>)

  /** A required trimmed text field as stored. */
  predicate Stored(s: string)
  {
    s != "" && Trim(s) == s
  }

  predicate Valid(s: Student)
  {
    Stored(s.rollNumber) && Stored(s.name) && Stored(s.className)
  }

  /** The key of the unique index on `rollNumber`. */
  function RollNumberOf(s: Student): string
  {
    s.rollNumber
  }

  datatype Body = Body(
    rollNumber: Option<string>,
    name: Option<string>,
    school: Option<Id>,
    className: Option<string>,
    section: Option<string>,
    isActive: Option<bool>,
    createdBy: Option<Id>)

  predicate Admissible(rollNumber: string, name: string, className: string)
  {
    Trim(rollNumber) != "" && Trim(name) != "" && Trim(className) != ""
  }

  function Checked(s: Student): (r: Result<Student>)
    ensures r.Ok? <==> Valid(s)
    ensures r.Ok? ==> r.value == s
    ensures r.Fail? ==> r.failure.ServerError?
  {
    if Valid(s) then Ok(s) else Fail(ServerError("Student validation failed"))
  }

  /** `Student.create(body)`: trim setters, the active default, then the
      `required` validators. */
  function Create(body: Body): (r: Result<Student>)
    ensures r.Ok? <==> body.rollNumber.Some? && body.name.Some? && body.className.Some?
                       && body.school.Some?
                       && Admissible(body.rollNumber.value, body.name.value, body.className.value)
    ensures r.Ok? ==> Valid(r.value) && r.value.school == body.school.value
                      && r.value.createdBy == body.createdBy
    ensures r.Ok? ==> r.value.rollNumber == Trim(body.rollNumber.value)
                      && r.value.name == Trim(body.name.value) && r.value.className == Trim(body.className.value)
                      && r.value.section == (if body.section.Some? then Some(Trim(body.section.value)) else None)
                      && r.value.isActive == Or(body.isActive, true)
  {
    TrimIdempotent(Or(body.rollNumber, ""));
    TrimIdempotent(Or(body.name, ""));
    TrimIdempotent(Or(body.className, ""));
    if body.school.None? then Fail(ServerError("Student validation failed"))
    else Checked(Student(
      Trim(Or(body.rollNumber, "")),
      Trim(Or(body.name, "")),
      body.school.value,
      Trim(Or(body.className, "")),
      if body.section.Some? then Some(Trim(body.section.value)) else None,
      Or(body.isActive, true),
      body.createdBy))
  }

  /** `findByIdAndUpdate(id, body, {runValidators: true})`. */
  function Update(stored: Student, body: Body): (r: Result<Student>)
    ensures r.Ok? <==> Admissible(Or(body.rollNumber, stored.rollNumber), Or(body.name, stored.name),
                                  Or(body.className, stored.className))
    ensures r.Ok? ==> Valid(r.value) && r.value.school == Or(body.school, stored.school)
    ensures r.Ok? && body.rollNumber.Some? ==> r.value.rollNumber == Trim(body.rollNumber.value)
    ensures r.Ok? && body.name.Some? ==> r.value.name == Trim(body.name.value)
    ensures r.Ok? && body.className.Some? ==> r.value.className == Trim(body.className.value)
    ensures r.Ok? && Valid(stored) ==>
      (body.rollNumber.None? ==> r.value.rollNumber == stored.rollNumber)
      && (body.name.None? ==> r.value.name == stored.name)
      && (body.className.None? ==> r.value.className == stored.className)
    ensures r.Ok? ==> r.value.section == (if body.section.Some? then Some(Trim(body.section.value)) else stored.section)
                      && r.value.isActive == Or(body.isActive, stored.isActive)
    ensures r.Ok? ==> r.value.createdBy == (if body.createdBy.Some? then body.createdBy else stored.createdBy)
  {
    TrimIdempotent(Or(body.rollNumber, stored.rollNumber));
    TrimIdempotent(Or(body.name, stored.name));
    TrimIdempotent(Or(body.className, stored.className));
    Checked(Student(
      Trim(Or(body.rollNumber, stored.rollNumber)),
      Trim(Or(body.name, stored.name)),
      Or(body.school, stored.school),
      Trim(Or(body.className, stored.className)),
      if body.section.Some? then Some(Trim(body.section.value)) else stored.section,
      Or(body.isActive, stored.isActive),
      if body.createdBy.Some? then body.createdBy else stored.createdBy))
  }
}
