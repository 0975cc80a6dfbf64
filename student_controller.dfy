/** Students: listing under the creator scope, single-record reads and
    edits with their check order, and the spreadsheet bulk upload that
    screens every row and inserts the complete ones one by one. */
module StudentController {
  import opened Common
  import opened Text
  import opened Tables
  import opened Aggregate
  import opened Access
  import opened Database
  import opened StudentModel

  // ---------------------------------------------------------------------
  // Reading

  datatype Query = Query(school: Option<Id>, className: Option<string>, section: Option<string>,
                         search: Option<string>)

  /** The query `getAllStudents` builds: the caller's own students for a
      restricted caller, then each filter that is present and non-empty;
      the search is a case-insensitive pattern tried on the name and on the
      roll number, given here as `matches`. */
  predicate Selected(st: Student, caller: Option<Caller>, q: Query, matches: (string, string) -> bool)
  {
    (!Restricted(caller) || st.createdBy == Some(caller.value.id))
    && (q.school.None? || st.school == q.school.value)
    && (!Truthy(q.className) || st.className == q.className.value)
    && (!Truthy(q.section) || st.section == q.section)
    && (!Truthy(q.search) || matches(q.search.value, st.name) || matches(q.search.value, st.rollNumber))
  }

  /** `getAllStudents` without pagination and sorting: exactly the selected
      students; a restricted caller sees only students it created. */
  function ListStudents(s: Snapshot, caller: Option<Caller>, q: Query,
                        matches: (string, string) -> bool): (r: seq<Doc<Student>>)
    ensures forall k :: 0 <= k < |r| ==> r[k] in s.students && Selected(r[k].body, caller, q, matches)
    ensures forall k :: 0 <= k < |s.students| ==> Selected(s.students[k].body, caller, q, matches) ==> s.students[k] in r
    ensures Restricted(caller) ==> forall k :: 0 <= k < |r| ==> r[k].body.createdBy == Some(caller.value.id)
  {
    Filter(s.students, (d: Doc<Student>) => Selected(d.body, caller, q, matches))
  }

  /** `getStudentById`: 404 when absent, then 403 for a restricted caller
      that did not create the student (a student without a creator is
      refused to every restricted caller). */
  function StudentById(s: Snapshot, caller: Option<Caller>, id: Id): (r: Result<Student>)
    ensures r.Fail? && r.failure.NotFound? <==> !Has(s.students, id)
    ensures r.Fail? && r.failure.Forbidden? <==>
      Has(s.students, id) && !MayTouch(caller, Get(s.students, id).value.createdBy)
    ensures r.Ok? ==> Get(s.students, id) == Some(r.value)
  {
    match Get(s.students, id)
    case None => Fail(NotFound("Student not found"))
    case Some(st) =>
      match Authorize(true, st.createdBy, caller, "student")
      case Some(f) => Fail(f)
      case None => Ok(st)
  }

  // ---------------------------------------------------------------------
  // createStudent

  const SchoolMissing: Failure := BadRequest("School not found")
  const DuplicateRollNumber: Failure := BadRequest("Student with this roll number already exists")

  /** `createStudent`: the school must exist (400) and, for a restricted
      caller, have been created by it (403); the body is stored with the
      caller as creator when there is a caller; a schema failure answers
      500 and a taken roll number 400. */
  function CreateStudentOutcome(s: Snapshot, caller: Option<Caller>, body: Body): (o: Outcome<Student>)
    ensures body.school.None? || !Has(s.schools, body.school.value) ==> o == Outcome(Fail(SchoolMissing), s)
    ensures o.result.Fail? && o.result.failure.Forbidden? <==>
      body.school.Some? && Has(s.schools, body.school.value)
      && !MayTouch(caller, Get(s.schools, body.school.value).value.createdBy)
    ensures o.result.Fail? ==> o.state == s
    ensures o.result.Ok? ==>
      body.rollNumber.Some? && Admissible(body.rollNumber.value, Or(body.name, ""), Or(body.className, ""))
      && o.result.value.school == body.school.value
      && o.result.value.createdBy == (if caller.Some? then Some(caller.value.id) else body.createdBy)
      && o.result.value.rollNumber == Trim(body.rollNumber.value)
      && !Taken(s.students, RollNumberOf, o.result.value.rollNumber, None)
      && o.state == s.(students := s.students + [Doc(s.nextId, o.result.value)], nextId := s.nextId + 1)
    ensures o.result == Fail(DuplicateRollNumber) <==>
      body.school.Some? && Has(s.schools, body.school.value)
      && MayTouch(caller, Get(s.schools, body.school.value).value.createdBy)
      && body.rollNumber.Some? && body.name.Some? && body.className.Some?
      && Admissible(body.rollNumber.value, body.name.value, body.className.value)
      && Taken(s.students, RollNumberOf, Trim(body.rollNumber.value), None)
    ensures o.result.Ok? <==>
      body.school.Some? && Has(s.schools, body.school.value)
      && MayTouch(caller, Get(s.schools, body.school.value).value.createdBy)
      && body.rollNumber.Some? && body.name.Some? && body.className.Some?
      && Admissible(body.rollNumber.value, body.name.value, body.className.value)
      && !Taken(s.students, RollNumberOf, Trim(body.rollNumber.value), None)
  {
    if body.school.None? || !Has(s.schools, body.school.value) then Outcome(Fail(SchoolMissing), s)
    else
      var school := Get(s.schools, body.school.value).value;
      if !MayTouch(caller, school.createdBy) then
        Outcome(Fail(Forbidden("Forbidden: cannot add students to this school")), s)
      else
        var payload := if caller.Some? then body.(createdBy := Some(caller.value.id)) else body;
        match Create(payload)
        case Fail(f) => Outcome(Fail(f), s)
        case Ok(st) =>
          if Taken(s.students, RollNumberOf, st.rollNumber, None) then Outcome(Fail(DuplicateRollNumber), s)
          else Outcome(Ok(st), s.(students := s.students + [Doc(s.nextId, st)], nextId := s.nextId + 1))
  }

  lemma CreateStudentConsistent(s: Snapshot, caller: Option<Caller>, body: Body)
    requires Consistent(s)
    ensures Consistent(CreateStudentOutcome(s, caller, body).state)
  {
    var o := CreateStudentOutcome(s, caller, body);
    if o.result.Ok? {
      AddStudent(s, o.result.value);
    }
  }

  /** `createStudent`. */
  method CreateStudent(db: Store, caller: Option<Caller>, body: Body) returns (r: Result<Student>)
    requires db.Valid()
    modifies db
    ensures Outcome(r, db.State()) == CreateStudentOutcome(old(db.State()), caller, body)
    ensures db.Valid()
  {
    CreateStudentConsistent(db.State(), caller, body);
    if body.school.None? {
      return Fail(SchoolMissing);
    }
    var school := Get(db.schools, body.school.value);
    if school.None? {
      return Fail(SchoolMissing);
    }
    if Restricted(caller) && (school.value.createdBy.None? || school.value.createdBy.value != caller.value.id) {
      return Fail(Forbidden("Forbidden: cannot add students to this school"));
    }
    var payload := body;
    if caller.Some? {
      payload := payload.(createdBy := Some(caller.value.id));
    }
    var created := Create(payload);
    if created.Fail? {
      return Fail(created.failure);
    }
    if Taken(db.students, RollNumberOf, created.value.rollNumber, None) {
      return Fail(DuplicateRollNumber);
    }
    db.students := db.students + [Doc(db.nextId, created.value)];
    db.nextId := db.nextId + 1;
    return Ok(created.value);
  }

  // ---------------------------------------------------------------------
  // updateStudent and deleteStudent

  /** `updateStudent`, in its check order: a named target school must exist
      (400), the student must exist (404), a restricted caller must have
      created the student (403) and, when moving it, the target school
      (403). The body's fields then replace the stored ones, the creator
      included; a schema failure or a roll number held by another student
      throws (500). */
  function UpdateStudentOutcome(s: Snapshot, caller: Option<Caller>, id: Id, body: Body): (o: Outcome<Student>)
    ensures body.school.Some? && !Has(s.schools, body.school.value) ==> o == Outcome(Fail(SchoolMissing), s)
    ensures (body.school.None? || Has(s.schools, body.school.value)) && !Has(s.students, id) ==>
      o.result.Fail? && o.result.failure.NotFound?
    ensures o.result.Fail? && o.result.failure.Forbidden? <==>
      (body.school.None? || Has(s.schools, body.school.value)) && Has(s.students, id)
      && (!MayTouch(caller, Get(s.students, id).value.createdBy)
          || (body.school.Some? && !MayTouch(caller, SchoolCreator(s.schools, body.school))))
    ensures o.result.Fail? ==> o.state == s
    ensures o.result.Ok? ==>
      var k := Find(s.students, id).value;
      Update(s.students[k].body, body) == Ok(o.result.value)
      && !Taken(s.students, RollNumberOf, o.result.value.rollNumber, Some(k))
      && o.state == s.(students := Replace(s.students, k, o.result.value))
    ensures ((body.school.None? || Has(s.schools, body.school.value))
             && Has(s.students, id) && MayTouch(caller, Get(s.students, id).value.createdBy)
             && (body.school.None? || MayTouch(caller, SchoolCreator(s.schools, body.school)))) ==>
      var k := Find(s.students, id).value;
      var u := Update(s.students[k].body, body);
      (o.result.Ok? <==> u.Ok? && !Taken(s.students, RollNumberOf, u.value.rollNumber, Some(k)))
      && (u.Ok? && Taken(s.students, RollNumberOf, u.value.rollNumber, Some(k)) ==> o.result == Fail(ServerError("Duplicate roll number")))
  {
    if body.school.Some? && !Has(s.schools, body.school.value) then Outcome(Fail(SchoolMissing), s)
    else match Find(s.students, id)
      case None => Outcome(Fail(NotFound("Student not found")), s)
      case Some(k) =>
        var stored := s.students[k].body;
        if !MayTouch(caller, stored.createdBy) then
          Outcome(Fail(Forbidden("Forbidden: cannot modify this student")), s)
        else if body.school.Some? && !MayTouch(caller, SchoolCreator(s.schools, body.school)) then
          Outcome(Fail(Forbidden("Forbidden: cannot move student to this school")), s)
        else match Update(stored, body)
          case Fail(f) => Outcome(Fail(f), s)
          case Ok(st) =>
            if Taken(s.students, RollNumberOf, st.rollNumber, Some(k)) then
              Outcome(Fail(ServerError("Duplicate roll number")), s)
            else Outcome(Ok(st), s.(students := Replace(s.students, k, st)))
  }

  lemma UpdateStudentConsistent(s: Snapshot, caller: Option<Caller>, id: Id, body: Body)
    requires Consistent(s)
    ensures Consistent(UpdateStudentOutcome(s, caller, id, body).state)
  {
    var o := UpdateStudentOutcome(s, caller, id, body);
    if o.result.Ok? {
      var k := Find(s.students, id).value;
      ReplaceKeyed(s.students, s.nextId, k, o.result.value);
      ReplaceAll(s.students, Valid, k, o.result.value);
      ReplaceDistinctBy(s.students, RollNumberOf, k, o.result.value);
    }
  }

  /** `updateStudent`. */
  method UpdateStudent(db: Store, caller: Option<Caller>, id: Id, body: Body) returns (r: Result<Student>)
    requires db.Valid()
    modifies db
    ensures Outcome(r, db.State()) == UpdateStudentOutcome(old(db.State()), caller, id, body)
    ensures db.Valid()
  {
    UpdateStudentConsistent(db.State(), caller, id, body);
    if body.school.Some? && !Has(db.schools, body.school.value) {
      return Fail(SchoolMissing);
    }
    var k := Find(db.students, id);
    if k.None? {
      return Fail(NotFound("Student not found"));
    }
    var stored := db.students[k.value].body;
    if !MayTouch(caller, stored.createdBy) {
      return Fail(Forbidden("Forbidden: cannot modify this student"));
    }
    if body.school.Some? && !MayTouch(caller, SchoolCreator(db.schools, body.school)) {
      return Fail(Forbidden("Forbidden: cannot move student to this school"));
    }
    var updated := Update(stored, body);
    if updated.Fail? {
      return Fail(updated.failure);
    }
    if Taken(db.students, RollNumberOf, updated.value.rollNumber, Some(k.value)) {
      return Fail(ServerError("Duplicate roll number"));
    }
    db.students := Replace(db.students, k.value, updated.value);
    return Ok(updated.value);
  }

  /** `deleteStudent`: 404, then 403, then the student is removed; invoices
      that name the student are left as they are. */
  function DeleteStudentOutcome(s: Snapshot, caller: Option<Caller>, id: Id): (o: Outcome<Id>)
    ensures o.result.Fail? && o.result.failure.NotFound? <==> !Has(s.students, id)
    ensures o.result.Fail? && o.result.failure.Forbidden? <==>
      Has(s.students, id) && !MayTouch(caller, Get(s.students, id).value.createdBy)
    ensures o.result.Fail? ==> o.state == s
    ensures o.result.Ok? ==>
      o.result.value == id && o.state == s.(students := RemoveAt(s.students, Find(s.students, id).value))
    ensures Has(s.students, id) && MayTouch(caller, Get(s.students, id).value.createdBy) ==> o.result.Ok?
  {
    match Find(s.students, id)
    case None => Outcome(Fail(NotFound("Student not found")), s)
    case Some(k) =>
      if !MayTouch(caller, s.students[k].body.createdBy) then
        Outcome(Fail(Forbidden("Forbidden: cannot delete this student")), s)
      else Outcome(Ok(id), s.(students := RemoveAt(s.students, k)))
  }

  /** After a successful delete the student is gone. */
  lemma DeleteStudentRemoves(s: Snapshot, caller: Option<Caller>, id: Id)
    requires Consistent(s)
    ensures var o := DeleteStudentOutcome(s, caller, id);
      Consistent(o.state) && (o.result.Ok? ==> !Has(o.state.students, id))
      && |o.state.students| == |s.students| - (if o.result.Ok? then 1 else 0)
  {
    var o := DeleteStudentOutcome(s, caller, id);
    if o.result.Ok? {
      var k := Find(s.students, id).value;
      RemoveKeyed(s.students, s.nextId, k);
      RemoveAll(s.students, Valid, k);
      RemoveDistinctBy(s.students, RollNumberOf, k);
      var r := o.state.students;
      forall j | 0 <= j < |r| ensures r[j].id != id {
        if j < k {
          assert r[j] == s.students[j];
        } else {
          assert r[j] == s.students[j + 1];
        }
      }
    }
  }

  /** `deleteStudent`. */
  method DeleteStudent(db: Store, caller: Option<Caller>, id: Id) returns (r: Result<Id>)
    requires db.Valid()
    modifies db
    ensures Outcome(r, db.State()) == DeleteStudentOutcome(old(db.State()), caller, id)
    ensures db.Valid()
  {
    DeleteStudentRemoves(db.State(), caller, id);
    var k := Find(db.students, id);
    if k.None? {
      return Fail(NotFound("Student not found"));
    }
    if !MayTouch(caller, db.students[k.value].body.createdBy) {
      return Fail(Forbidden("Forbidden: cannot delete this student"));
    }
    db.students := RemoveAt(db.students, k.value);
    return Ok(id);
  }

  // ---------------------------------------------------------------------
  // bulkUploadStudents: screening the rows

  /** A spreadsheet row as the sheet reader gives it: the header of each
      non-empty cell mapped to the cell's text. */
  type Row = map<string, string>

  /** `row.lower || row.Upper`: the lower-case header wins unless its cell
      is missing or empty. */
  function Cell(row: Row, lower: string, upper: string): (v: Option<string>)
    ensures lower in row && row[lower] != "" ==> v == Some(row[lower])
    ensures !(lower in row && row[lower] != "") ==> v == (if upper in row then Some(row[upper]) else None)
  {
    if lower in row && row[lower] != "" then Some(row[lower])
    else if upper in row then Some(row[upper])
    else None
  }

  /** The student a row describes: the upload's school and the caller as
      creator are forced, whatever the row says. */
  function ToBody(row: Row, school: Id, caller: Option<Caller>): (b: Body)
    ensures b.school == Some(school) && b.createdBy == (if caller.Some? then Some(caller.value.id) else None)
    ensures b.rollNumber == Cell(row, "rollNumber", "RollNumber") && b.name == Cell(row, "name", "Name")
    ensures b.className == Cell(row, "class", "Class")
  {
    Body(Cell(row, "rollNumber", "RollNumber"), Cell(row, "name", "Name"), Some(school), Cell(row, "class", "Class"),
         Cell(row, "section", "Section"), None, if caller.Some? then Some(caller.value.id) else None)
  }

  /** The check that sends a row to the validation errors. */
  predicate Complete(b: Body)
  {
    Truthy(b.rollNumber) && Truthy(b.name) && Truthy(b.className)
  }

  datatype RowError = RowError(row: int, error: string)

  const MissingFields: string := "Missing required fields (rollNumber, name, class)"

  datatype Screened = Screened(students: seq<Body>, errors: seq<RowError>)

  /** One row of the first loop of `bulkUploadStudents`: a complete row
      becomes a student, any other an error naming its spreadsheet row (the
      header is row 1, so data row i is row i + 2). */
  function ScreenNext(before: Screened, row: Row, i: nat, school: Id, caller: Option<Caller>): (r: Screened)
    ensures |r.students| + |r.errors| == |before.students| + |before.errors| + 1
  {
    var b := ToBody(row, school, caller);
    if Complete(b) then before.(students := before.students + [b])
    else before.(errors := before.errors + [RowError(i + 2, MissingFields)])
  }

  /** The first loop of `bulkUploadStudents`: every row is screened in
      turn and no row stops the loop. */
  function Screen(rows: seq<Row>, school: Id, caller: Option<Caller>): (r: Screened)
    ensures |r.students| + |r.errors| == |rows|
  {
    if rows == [] then Screened([], [])
    else ScreenNext(Screen(rows[..|rows| - 1], school, caller), rows[|rows| - 1], |rows| - 1, school, caller)
  }

  /** Every reported row is an incomplete one, under its own row number. */
  lemma {:induction false} ScreenErrorsSound(rows: seq<Row>, school: Id, caller: Option<Caller>)
    ensures var r := Screen(rows, school, caller);
      forall e :: e in r.errors ==>
        2 <= e.row < |rows| + 2 && e.error == MissingFields && !Complete(ToBody(rows[e.row - 2], school, caller))
  {
    if rows != [] {
      var init := rows[..|rows| - 1];
      ScreenErrorsSound(init, school, caller);
      var before := Screen(init, school, caller);
      var r := Screen(rows, school, caller);
      forall e | e in r.errors
        ensures 2 <= e.row < |rows| + 2 && e.error == MissingFields && !Complete(ToBody(rows[e.row - 2], school, caller))
      {
        if e in before.errors {
          assert init[e.row - 2] == rows[e.row - 2];
        } else {
          assert e == RowError(|rows| + 1, MissingFields);
        }
      }
    }
  }

  /** The reports come in row order, every row number below the next data
      row's. */
  lemma {:induction false} ScreenErrorsOrdered(rows: seq<Row>, school: Id, caller: Option<Caller>)
    ensures var r := Screen(rows, school, caller);
      (forall e :: e in r.errors ==> e.row < |rows| + 2)
      && forall i, j :: 0 <= i < j < |r.errors| ==> r.errors[i].row < r.errors[j].row
  {
    if rows != [] {
      ScreenErrorsOrdered(rows[..|rows| - 1], school, caller);
    }
  }

  /** Every incomplete row is reported. */
  lemma {:induction false} ScreenErrorsComplete(rows: seq<Row>, school: Id, caller: Option<Caller>)
    ensures var r := Screen(rows, school, caller);
      forall i :: 0 <= i < |rows| && !Complete(ToBody(rows[i], school, caller)) ==>
        RowError(i + 2, MissingFields) in r.errors
  {
    if rows != [] {
      var init := rows[..|rows| - 1];
      ScreenErrorsComplete(init, school, caller);
      assert forall i :: 0 <= i < |init| ==> init[i] == rows[i];
    }
  }

  /** Every student comes from a complete row, with the upload's school. */
  lemma {:induction false} ScreenStudentsSound(rows: seq<Row>, school: Id, caller: Option<Caller>)
    ensures var r := Screen(rows, school, caller);
      forall b :: b in r.students ==> Complete(b) && b.school == Some(school)
                                      && exists i :: 0 <= i < |rows| && b == ToBody(rows[i], school, caller)
  {
    if rows != [] {
      var init := rows[..|rows| - 1];
      ScreenStudentsSound(init, school, caller);
      var before := Screen(init, school, caller);
      var r := Screen(rows, school, caller);
      forall b | b in r.students
        ensures Complete(b) && b.school == Some(school) && exists i :: 0 <= i < |rows| && b == ToBody(rows[i], school, caller)
      {
        if b !in before.students {
          assert b == ToBody(rows[|rows| - 1], school, caller);
        } else {
          var i :| 0 <= i < |init| && b == ToBody(init[i], school, caller);
          assert init[i] == rows[i];
        }
      }
    }
  }

  /** Every complete row becomes a student. */
  lemma {:induction false} ScreenStudentsComplete(rows: seq<Row>, school: Id, caller: Option<Caller>)
    ensures var r := Screen(rows, school, caller);
      forall i :: 0 <= i < |rows| && Complete(ToBody(rows[i], school, caller)) ==>
        ToBody(rows[i], school, caller) in r.students
  {
    if rows != [] {
      var init := rows[..|rows| - 1];
      ScreenStudentsComplete(init, school, caller);
      assert forall i :: 0 <= i < |init| ==> init[i] == rows[i];
    }
  }

  /** One row of the first loop. */
  method ScreenRow(students: seq<Body>, errors: seq<RowError>, row: Row, i: nat, school: Id, caller: Option<Caller>)
    returns (students': seq<Body>, errors': seq<RowError>)
    ensures Screened(students', errors') == ScreenNext(Screened(students, errors), row, i, school, caller)
  {
    students', errors' := students, errors;
    var rollNumber := if "rollNumber" in row && row["rollNumber"] != "" then Some(row["rollNumber"])
                      else if "RollNumber" in row then Some(row["RollNumber"]) else None;
    var name := if "name" in row && row["name"] != "" then Some(row["name"])
                else if "Name" in row then Some(row["Name"]) else None;
    var className := if "class" in row && row["class"] != "" then Some(row["class"])
                     else if "Class" in row then Some(row["Class"]) else None;
    var section := Cell(row, "section", "Section");
    var createdBy := if caller.Some? then Some(caller.value.id) else None;
    var student := Body(rollNumber, name, Some(school), className, section, None, createdBy);
    if !Truthy(student.rollNumber) || !Truthy(student.name) || !Truthy(student.className) {
      errors' := errors + [RowError(i + 2, MissingFields)];
    } else {
      students' := students + [student];
    }
  }

  /** The first loop of `bulkUploadStudents`. */
  method ScreenRows(rows: seq<Row>, school: Id, caller: Option<Caller>) returns (students: seq<Body>, errors: seq<RowError>)
    ensures Screened(students, errors) == Screen(rows, school, caller)
  {
    students, errors := [], [];
    var i := 0;
    while i < |rows|
      invariant 0 <= i <= |rows|
      invariant Screened(students, errors) == Screen(rows[..i], school, caller)
    {
      assert rows[..i + 1][..i] == rows[..i];
      students, errors := ScreenRow(students, errors, rows[i], i, school, caller);
      i := i + 1;
    }
    assert rows[..i] == rows;
  }

  // ---------------------------------------------------------------------
  // bulkUploadStudents: inserting the screened students

  datatype InsertError = InsertError(rollNumber: Option<string>, error: string)

  datatype Enrolment = Enrolment(state: Snapshot, inserted: nat, errors: seq<InsertError>)

  /** One `Student.create` of the second loop: a student the schema refuses
      or whose roll number is taken is reported with its roll number, and
      the loop goes on. */
  function EnrolOne(e: Enrolment, b: Body): (e': Enrolment)
    ensures e'.inserted + |e'.errors| == e.inserted + |e.errors| + 1
    ensures Create(b).Fail? ==> e' == e.(errors := e.errors + [InsertError(b.rollNumber, Create(b).failure.message)])
    ensures Create(b).Ok? && Taken(e.state.students, RollNumberOf, Create(b).value.rollNumber, None) ==>
      e' == e.(errors := e.errors + [InsertError(b.rollNumber, "E11000 duplicate key error")])
    ensures Create(b).Ok? && !Taken(e.state.students, RollNumberOf, Create(b).value.rollNumber, None) ==>
      e'.inserted == e.inserted + 1 && e'.errors == e.errors
      && e'.state == e.state.(students := e.state.students + [Doc(e.state.nextId, Create(b).value)],
                              nextId := e.state.nextId + 1)
  {
    match Create(b)
    case Fail(f) => e.(errors := e.errors + [InsertError(b.rollNumber, f.message)])
    case Ok(st) =>
      if Taken(e.state.students, RollNumberOf, st.rollNumber, None) then
        e.(errors := e.errors + [InsertError(b.rollNumber, "E11000 duplicate key error")])
      else
        Enrolment(e.state.(students := e.state.students + [Doc(e.state.nextId, st)], nextId := e.state.nextId + 1),
                  e.inserted + 1, e.errors)
  }

  /** The second loop of `bulkUploadStudents`. */
  function Enrol(s: Snapshot, bodies: seq<Body>): (e: Enrolment)
    ensures e.inserted + |e.errors| == |bodies|
  {
    if bodies == [] then Enrolment(s, 0, [])
    else EnrolOne(Enrol(s, bodies[..|bodies| - 1]), bodies[|bodies| - 1])
  }

  /** The roll numbers of some students. */
  function RollsOf(sts: seq<Student>): set<string>
  {
    set st | st in sts :: st.rollNumber
  }

  /** What the schema makes of each body, in order. */
  function Made(bodies: seq<Body>): (r: seq<Result<Student>>)
    ensures |r| == |bodies|
  {
    if bodies == [] then [] else Made(bodies[..|bodies| - 1]) + [Create(bodies[|bodies| - 1])]
  }

  /** The students a run of creates stores, in order, given the roll
      numbers stored before it and what the schema made of each body: each
      accepted student whose roll number is neither stored nor taken by an
      earlier accepted one. */
  function Admitted(rolls: set<string>, made: seq<Result<Student>>): (r: seq<Student>)
    ensures |r| <= |made|
  {
    if made == [] then [] else AdmitOne(rolls, Admitted(rolls, made[..|made| - 1]), made[|made| - 1])
  }

  /** One step of `Admitted`. */
  function AdmitOne(rolls: set<string>, prev: seq<Student>, c: Result<Student>): (r: seq<Student>)
    ensures |r| <= |prev| + 1
  {
    if c.Ok? && c.value.rollNumber !in rolls && c.value.rollNumber !in RollsOf(prev) then prev + [c.value] else prev
  }

  /** Every admitted student is one the schema accepted, none has a roll
      number stored before, and no two share one. */
  lemma {:induction false} AdmittedSound(rolls: set<string>, made: seq<Result<Student>>)
    ensures var r := Admitted(rolls, made);
      (forall st :: st in r ==> st.rollNumber !in rolls && Ok(st) in made)
      && forall k, m :: 0 <= k < m < |r| ==> r[k].rollNumber != r[m].rollNumber
  {
    if made != [] {
      var init := made[..|made| - 1];
      var c := made[|made| - 1];
      AdmittedSound(rolls, init);
      var prev := Admitted(rolls, init);
      var r := Admitted(rolls, made);
      assert r == AdmitOne(rolls, prev, c);
      assert forall x :: x in init ==> x in made;
      forall k, m | 0 <= k < m < |r| ensures r[k].rollNumber != r[m].rollNumber
      {
        if m < |prev| {
          assert r[k] == prev[k] && r[m] == prev[m];
        } else {
          assert r[k] == prev[k] && prev[k] in prev;
          assert prev[k].rollNumber in RollsOf(prev);
        }
      }
    }
  }

  /** Students stored under consecutive identifiers from `next`. */
  function Stamp(next: Id, sts: seq<Student>): (r: seq<Doc<Student>>)
    ensures |r| == |sts|
  {
    if sts == [] then [] else Stamp(next, sts[..|sts| - 1]) + [Doc(next + |sts| - 1, sts[|sts| - 1])]
  }

  lemma StampSnoc(next: Id, sts: seq<Student>, st: Student)
    ensures Stamp(next, sts + [st]) == Stamp(next, sts) + [Doc(next + |sts|, st)]
  {
    assert (sts + [st])[..|sts|] == sts;
  }

  /** The k-th stamped student has identifier `next + k`. */
  lemma {:induction false} StampAt(next: Id, sts: seq<Student>, k: nat)
    requires k < |sts|
    ensures Stamp(next, sts)[k] == Doc(next + k, sts[k])
  {
    if k < |sts| - 1 {
      StampAt(next, sts[..|sts| - 1], k);
    }
  }

  /** A roll number is taken in the stored students followed by newly
      stamped ones exactly when one of either has it. */
  lemma TakenAfter(stored: seq<Doc<Student>>, next: Id, sts: seq<Student>, roll: string)
    ensures Taken(stored + Stamp(next, sts), RollNumberOf, roll, None)
        <==> roll in RollsOf(Bodies(stored)) || roll in RollsOf(sts)
  {
    var all := stored + Stamp(next, sts);
    if roll in RollsOf(Bodies(stored)) {
      var st :| st in Bodies(stored) && st.rollNumber == roll;
      var i :| 0 <= i < |stored| && Bodies(stored)[i] == st;
      assert RollNumberOf(all[i].body) == roll;
    }
    if roll in RollsOf(sts) {
      var st :| st in sts && st.rollNumber == roll;
      var i :| 0 <= i < |sts| && sts[i] == st;
      StampAt(next, sts, i);
      assert RollNumberOf(all[|stored| + i].body) == roll;
    }
    if Taken(all, RollNumberOf, roll, None) {
      var i :| 0 <= i < |all| && RollNumberOf(all[i].body) == roll;
      if i < |stored| {
        assert Bodies(stored)[i] in Bodies(stored);
      } else {
        StampAt(next, sts, i - |stored|);
        assert sts[i - |stored|] in sts;
      }
    }
  }

  /** The students the second loop appends are exactly the admitted
      bodies, under consecutive identifiers from the store's next one. */
  lemma {:induction false} EnrolAdmits(s: Snapshot, bodies: seq<Body>)
    ensures var e := Enrol(s, bodies);
      var admitted := Admitted(RollsOf(Bodies(s.students)), Made(bodies));
      e.inserted == |admitted| && e.state.nextId == s.nextId + |admitted|
      && e.state.students == s.students + Stamp(s.nextId, admitted)
  {
    var rolls := RollsOf(Bodies(s.students));
    if bodies == [] {
      assert s.students + Stamp(s.nextId, []) == s.students;
    } else {
      var init := bodies[..|bodies| - 1];
      var b := bodies[|bodies| - 1];
      EnrolAdmits(s, init);
      assert Made(bodies)[..|init|] == Made(init);
      EnrolAdmitsNext(s, Enrol(s, init), Admitted(rolls, Made(init)), b);
    }
  }

  /** One create of the second loop appends the student `AdmitOne` admits. */
  lemma EnrolAdmitsNext(s: Snapshot, before: Enrolment, prev: seq<Student>, b: Body)
    requires before.inserted == |prev| && before.state.nextId == s.nextId + |prev|
    requires before.state.students == s.students + Stamp(s.nextId, prev)
    ensures var e := EnrolOne(before, b);
      var admitted := AdmitOne(RollsOf(Bodies(s.students)), prev, Create(b));
      e.inserted == |admitted| && e.state.nextId == s.nextId + |admitted|
      && e.state.students == s.students + Stamp(s.nextId, admitted)
  {
    var c := Create(b);
    if c.Ok? {
      TakenAfter(s.students, s.nextId, prev, c.value.rollNumber);
      StampSnoc(s.nextId, prev, c.value);
    }
  }

  /** Inserting appends exactly `inserted` students and changes nothing
      else, and keeps the store consistent. */
  lemma {:induction false} EnrolAppends(s: Snapshot, bodies: seq<Body>)
    requires Consistent(s)
    ensures var e := Enrol(s, bodies);
      Consistent(e.state)
      && |e.state.students| == |s.students| + e.inserted && e.state.students[..|s.students|] == s.students
      && e.state == s.(students := e.state.students, nextId := s.nextId + e.inserted)
  {
    if bodies != [] {
      var init := bodies[..|bodies| - 1];
      EnrolAppends(s, init);
      var before := Enrol(s, init);
      match Create(bodies[|bodies| - 1]) {
        case Fail(_) =>
        case Ok(st) =>
          if !Taken(before.state.students, RollNumberOf, st.rollNumber, None) {
            AddStudent(before.state, st);
            assert (before.state.students + [Doc(before.state.nextId, st)])[..|s.students|]
                == before.state.students[..|s.students|];
          }
      }
    }
  }

  /** One `Student.create` of the second loop, against the store. */
  method EnrolNext(db: Store, inserted: nat, errors: seq<InsertError>, b: Body)
    returns (inserted': nat, errors': seq<InsertError>)
    modifies db
    ensures Enrolment(db.State(), inserted', errors') == EnrolOne(Enrolment(old(db.State()), inserted, errors), b)
  {
    inserted', errors' := inserted, errors;
    var created := Create(b);
    if created.Fail? {
      errors' := errors + [InsertError(b.rollNumber, created.failure.message)];
    } else if Taken(db.students, RollNumberOf, created.value.rollNumber, None) {
      errors' := errors + [InsertError(b.rollNumber, "E11000 duplicate key error")];
    } else {
      db.students := db.students + [Doc(db.nextId, created.value)];
      db.nextId := db.nextId + 1;
      inserted' := inserted + 1;
    }
  }

  /** The second loop of `bulkUploadStudents`, against the store. */
  method EnrolStudents(db: Store, bodies: seq<Body>) returns (inserted: nat, errors: seq<InsertError>)
    modifies db
    ensures Enrolment(db.State(), inserted, errors) == Enrol(old(db.State()), bodies)
  {
    ghost var s := db.State();
    inserted, errors := 0, [];
    var i := 0;
    while i < |bodies|
      invariant 0 <= i <= |bodies|
      invariant Enrolment(db.State(), inserted, errors) == Enrol(s, bodies[..i])
    {
      assert bodies[..i + 1][..i] == bodies[..i];
      inserted, errors := EnrolNext(db, inserted, errors, bodies[i]);
      i := i + 1;
    }
    assert bodies[..i] == bodies;
  }

  // ---------------------------------------------------------------------
  // bulkUploadStudents

  datatype Report = Report(totalRows: nat, inserted: nat, validationErrors: seq<RowError>, insertErrors: seq<InsertError>)

  /** `bulkUploadStudents`, in its check order: a school id is required
      (400), the school must exist (400), a restricted caller must have
      created it (403), and a file is required (400); then the rows are
      screened and the complete ones inserted one at a time. */
  function BulkUploadOutcome(s: Snapshot, caller: Option<Caller>, school: Option<Id>, file: Option<seq<Row>>)
    : (o: Outcome<Report>)
    ensures school.None? ==> o == Outcome(Fail(BadRequest("School ID is required")), s)
    ensures school.Some? && !Has(s.schools, school.value) ==> o == Outcome(Fail(SchoolMissing), s)
    ensures o.result.Fail? && o.result.failure.Forbidden? <==>
      school.Some? && Has(s.schools, school.value) && !MayTouch(caller, Get(s.schools, school.value).value.createdBy)
    ensures (school.Some? && Has(s.schools, school.value)
             && MayTouch(caller, Get(s.schools, school.value).value.createdBy) && file.None?) ==>
      o == Outcome(Fail(BadRequest("Please upload an Excel file")), s)
    ensures o.result.Fail? ==> o.state == s
    ensures o.result.Ok? ==>
      file.Some? && o.result.value.totalRows == |file.value|
      && o.result.value.inserted + |o.result.value.insertErrors| + |o.result.value.validationErrors|
         == o.result.value.totalRows
    ensures (school.Some? && Has(s.schools, school.value)
             && MayTouch(caller, Get(s.schools, school.value).value.createdBy) && file.Some?) ==>
      var screened := Screen(file.value, school.value, caller);
      var e := Enrol(s, screened.students);
      o == Outcome(Ok(Report(|file.value|, e.inserted, screened.errors, e.errors)), e.state)
  {
    if school.None? then Outcome(Fail(BadRequest("School ID is required")), s)
    else match Get(s.schools, school.value)
      case None => Outcome(Fail(SchoolMissing), s)
      case Some(sc) =>
        if !MayTouch(caller, sc.createdBy) then Outcome(Fail(Forbidden("Forbidden: cannot upload for this school")), s)
        else if file.None? then Outcome(Fail(BadRequest("Please upload an Excel file")), s)
        else
          var screened := Screen(file.value, school.value, caller);
          var e := Enrol(s, screened.students);
          Outcome(Ok(Report(|file.value|, e.inserted, screened.errors, e.errors)), e.state)
  }

  /** `bulkUploadStudents`. */
  method BulkUpload(db: Store, caller: Option<Caller>, school: Option<Id>, file: Option<seq<Row>>) returns (r: Result<Report>)
    requires db.Valid()
    modifies db
    ensures Outcome(r, db.State()) == BulkUploadOutcome(old(db.State()), caller, school, file)
    ensures db.Valid()
  {
    if school.None? {
      return Fail(BadRequest("School ID is required"));
    }
    var sc := Get(db.schools, school.value);
    if sc.None? {
      return Fail(SchoolMissing);
    }
    if !MayTouch(caller, sc.value.createdBy) {
      return Fail(Forbidden("Forbidden: cannot upload for this school"));
    }
    if file.None? {
      return Fail(BadRequest("Please upload an Excel file"));
    }
    var students, errors := ScreenRows(file.value, school.value, caller);
    EnrolAppends(db.State(), students);
    var inserted, insertErrors := EnrolStudents(db, students);
    return Ok(Report(|file.value|, inserted, errors, insertErrors));
  }
}
