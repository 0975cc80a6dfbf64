/** Schools: listing under the creator scope, the school dashboard (active
    students by class, sales, commission buckets and recent settlements),
    and creation, update and deletion with their check order. */
module SchoolController {
  import opened Common
  import opened Text
  import opened Tables
  import opened Aggregate
  import opened Access
  import opened Database
  import opened SchoolModel
  import StudentModel
  import InvoiceModel
  import CommissionModel
  import CommissionController

  // ---------------------------------------------------------------------
  // getAllSchools

  datatype Query = Query(search: Option<string>, isActive: Option<string>)

  /** The query `getAllSchools` builds: the caller's own schools for a
      restricted caller, the search (a case-insensitive pattern, given here
      as `matches`) tried on the name and on the code, and the active flag
      compared with the text "true" whenever the parameter is present. */
  predicate Selected(school: School, caller: Option<Caller>, q: Query, matches: (string, string) -> bool)
  {
    (!Restricted(caller) || school.createdBy == Some(caller.value.id))
    && (!Truthy(q.search) || matches(q.search.value, school.name) || matches(q.search.value, school.code))
    && (q.isActive.None? || school.isActive == (q.isActive.value == "true"))
  }

  /** `getAllSchools` without pagination and sorting: exactly the selected
      schools. Any `isActive` text other than "true" selects the inactive
      schools. */
  function ListSchools(s: Snapshot, caller: Option<Caller>, q: Query,
                       matches: (string, string) -> bool): (r: seq<Doc<School>>)
    ensures forall k :: 0 <= k < |r| ==> r[k] in s.schools && Selected(r[k].body, caller, q, matches)
    ensures forall k :: 0 <= k < |s.schools| ==> Selected(s.schools[k].body, caller, q, matches) ==> s.schools[k] in r
    ensures Restricted(caller) ==> forall k :: 0 <= k < |r| ==> r[k].body.createdBy == Some(caller.value.id)
    ensures q.isActive.Some? && q.isActive.value != "true" ==> forall k :: 0 <= k < |r| ==> !r[k].body.isActive
  {
    Filter(s.schools, (d: Doc<School>) => Selected(d.body, caller, q, matches))
  }

  // ---------------------------------------------------------------------
  // getSchoolById: the dashboard

  /** The active students of a school (`{school, isActive: true}`). */
  function Enrolled(s: Snapshot, school: Id): (r: seq<StudentModel.Student>)
    ensures forall st :: st in r <==> st in Bodies(s.students) && st.school == school && st.isActive
  {
    Filter(Bodies(s.students), (st: StudentModel.Student) => st.school == school && st.isActive)
  }

  /** Inserting a class name into an ascending list of distinct names. */
  function AddClass(c: string, cs: seq<string>): (r: seq<string>)
    requires Increasing(cs)
    ensures Increasing(r)
    ensures forall x :: x in r <==> x == c || x in cs
  {
    if cs == [] then [c]
    else if c == cs[0] then cs
    else if Below(c, cs[0]) then
      BelowFirst(c, cs);
      [c] + cs
    else
      BelowTotal(c, cs[0]);
      var rest := AddClass(c, cs[1..]);
      assert forall x :: x in cs[1..] ==> Below(cs[0], x);
      [cs[0]] + rest
  }

  lemma BelowFirst(c: string, cs: seq<string>)
    requires Increasing(cs) && cs != [] && Below(c, cs[0])
    ensures Increasing([c] + cs)
  {
    forall k | 0 < k < |cs| ensures Below(c, cs[k]) {
      BelowTransitive(c, cs[0], cs[k]);
    }
  }

  /** The `_id`s of `$group: {_id: '$class'}` after `$sort: {_id: 1}`: every
      class some student is in, once, in ascending order. */
  function ClassesOf(sts: seq<StudentModel.Student>): (r: seq<string>)
    ensures Increasing(r)
    ensures forall c :: c in r <==> exists k :: 0 <= k < |sts| && sts[k].className == c
  {
    if sts == [] then []
    else
      var init := sts[..|sts| - 1];
      assert forall k :: 0 <= k < |init| ==> init[k] == sts[k];
      AddClass(sts[|sts| - 1].className, ClassesOf(init))
  }

  /** `{$sum: 1}` over the students of one class. */
  function ClassSize(sts: seq<StudentModel.Student>, c: string): nat
  {
    if sts == [] then 0
    else ClassSize(sts[..|sts| - 1], c) + (if sts[|sts| - 1].className == c then 1 else 0)
  }

  lemma {:induction false} ClassSizePositive(sts: seq<StudentModel.Student>, k: nat)
    requires k < |sts|
    ensures ClassSize(sts, sts[k].className) > 0
  {
    if k < |sts| - 1 {
      var init := sts[..|sts| - 1];
      ClassSizePositive(init, k);
    }
  }

  datatype ClassCount = ClassCount(className: string, count: nat)

  /** The class-wise breakdown, one row per class in ascending order. */
  function ClassBreakdown(sts: seq<StudentModel.Student>): (r: seq<ClassCount>)
    ensures |r| == |ClassesOf(sts)|
    ensures forall i :: 0 <= i < |r| ==> r[i].className == ClassesOf(sts)[i]
    ensures forall row :: row in r ==> row.count == ClassSize(sts, row.className)
  {
    var cs := ClassesOf(sts);
    seq(|cs|, i requires 0 <= i < |cs| => ClassCount(cs[i], ClassSize(sts, cs[i])))
  }

  /** The breakdown has one row for each class some student is in and no
      other, classes strictly ascending, and every row counts the students
      of its class, which is never zero. */
  lemma ClassBreakdownExact(sts: seq<StudentModel.Student>)
    ensures var r := ClassBreakdown(sts);
      (forall i, j :: 0 <= i < j < |r| ==> Below(r[i].className, r[j].className))
      && (forall row :: row in r ==> row.count == ClassSize(sts, row.className) && row.count > 0)
      && (forall k :: 0 <= k < |sts| ==> exists row :: row in r && row.className == sts[k].className)
  {
    var r := ClassBreakdown(sts);
    var cs := ClassesOf(sts);
    forall row | row in r ensures row.count > 0 {
      var i :| 0 <= i < |r| && r[i] == row;
      assert cs[i] in cs;
      ClassPopulated(sts, cs[i]);
    }
    forall k | 0 <= k < |sts| ensures exists row :: row in r && row.className == sts[k].className {
      assert sts[k].className in cs;
      var i :| 0 <= i < |cs| && cs[i] == sts[k].className;
      assert r[i] in r;
    }
  }

  lemma ClassPopulated(sts: seq<StudentModel.Student>, c: string)
    requires exists k :: 0 <= k < |sts| && sts[k].className == c
    ensures ClassSize(sts, c) > 0
  {
    var k :| 0 <= k < |sts| && sts[k].className == c;
    ClassSizePositive(sts, k);
  }

  /** The invoices of a school. */
  function SchoolInvoices(s: Snapshot, school: Id): (r: seq<InvoiceModel.Invoice>)
    ensures forall inv :: inv in r <==> inv in Bodies(s.invoices) && inv.school == Some(school)
  {
    Filter(Bodies(s.invoices), (inv: InvoiceModel.Invoice) => inv.school == Some(school))
  }

  function TotalAmount(inv: InvoiceModel.Invoice): real
  {
    inv.totalAmount
  }

  function CommissionAmount(inv: InvoiceModel.Invoice): real
  {
    inv.commissionAmount
  }

  datatype Sales = Sales(totalSales: real, totalCommission: real, invoiceCount: nat)

  /** `salesData[0] || {totalSales: 0, totalCommission: 0, invoiceCount: 0}`:
      the one `$group: {_id: null}` document, or zeros when no invoice
      matched. The zeros agree with the sums over no invoices. */
  function SalesOf(invs: seq<InvoiceModel.Invoice>): (r: Sales)
    ensures r == Sales(Sum(invs, TotalAmount), Sum(invs, CommissionAmount), |invs|)
  {
    if invs == [] then Sales(0.0, 0.0, 0)
    else Sales(Sum(invs, TotalAmount), Sum(invs, CommissionAmount), |invs|)
  }

  /** The commissions of a school. */
  function CommissionsOfSchool(s: Snapshot, school: Id): seq<CommissionModel.Commission>
  {
    Matching(Bodies(s.commissions), CommissionController.SchoolOf, school)
  }

  /** The `settlementDate: -1` sort key; a missing date sorts last. */
  function SettledOn(c: CommissionModel.Commission): real
  {
    if c.settlementDate.None? then -1.0 else DayNumber(c.settlementDate.value) as real
  }

  const HistoryLength: nat := 10

  /** `find({school, status: 'settled'}).sort({settlementDate: -1}).limit(10)`:
      at most ten of the school's settled commissions, latest first. */
  function SettlementHistory(cs: seq<CommissionModel.Commission>): (r: seq<CommissionModel.Commission>)
    ensures |r| == if |Matching(cs, CommissionController.StatusOf, CommissionModel.Settled)| <= HistoryLength
                   then |Matching(cs, CommissionController.StatusOf, CommissionModel.Settled)|
                   else HistoryLength
    ensures SortedDesc(r, SettledOn)
    ensures forall c :: c in r ==> c in cs && c.status == CommissionModel.Settled
    ensures multiset(r) <= multiset(Matching(cs, CommissionController.StatusOf, CommissionModel.Settled))
  {
    var settled := Matching(cs, CommissionController.StatusOf, CommissionModel.Settled);
    MatchingMembers(cs, CommissionController.StatusOf, CommissionModel.Settled);
    TopMembers(settled, SettledOn, HistoryLength);
    TopSorted(settled, SettledOn, HistoryLength);
    var sorted := SortDesc(settled, SettledOn);
    assert |sorted| == |multiset(sorted)| == |settled|;
    var top := Take(sorted, HistoryLength);
    assert sorted == top + sorted[|top|..];
    top
  }

  /** A settled commission left out of the history was settled no later
      than every one listed, and the history then holds ten. */
  lemma SettlementHistoryLatest(cs: seq<CommissionModel.Commission>, c: CommissionModel.Commission)
    requires c in cs && c.status == CommissionModel.Settled
    ensures var r := SettlementHistory(cs);
      c in r || (|r| == HistoryLength && forall x :: x in r ==> SettledOn(x) >= SettledOn(c))
  {
    var settled := Matching(cs, CommissionController.StatusOf, CommissionModel.Settled);
    var i :| 0 <= i < |cs| && cs[i] == c;
    MatchingHas(cs, CommissionController.StatusOf, i);
    TopOrOutranked(settled, SettledOn, HistoryLength, c);
  }

  datatype Dashboard = Dashboard(
    totalStudents: nat,
    classWiseBreakdown: seq<ClassCount>,
    sales: Sales,
    pending: CommissionController.Bucket,
    settled: CommissionController.Bucket,
    settlementHistory: seq<CommissionModel.Commission>)

  datatype SchoolView = SchoolView(school: School, dashboard: Dashboard)

  /** The dashboard `getSchoolById` assembles for a school. */
  function DashboardOf(s: Snapshot, school: Id): (d: Dashboard)
    ensures d.totalStudents == |Enrolled(s, school)|
    ensures forall row :: row in d.classWiseBreakdown ==>
      row.count == ClassSize(Enrolled(s, school), row.className) && row.count > 0
    ensures d.sales.invoiceCount == |SchoolInvoices(s, school)|
    ensures |d.settlementHistory| <= HistoryLength
  {
    var active := Enrolled(s, school);
    ClassBreakdownExact(active);
    var byStatus := CommissionController.GroupBy(CommissionsOfSchool(s, school), CommissionController.StatusOf);
    Dashboard(|active|, ClassBreakdown(active), SalesOf(SchoolInvoices(s, school)),
              CommissionController.BucketOf(byStatus, CommissionModel.Pending),
              CommissionController.BucketOf(byStatus, CommissionModel.Settled),
              SettlementHistory(CommissionsOfSchool(s, school)))
  }

  /** The dashboard's figures are the aggregates over the school's own
      records, zero where there are none: the sales are the sums and count
      of its invoices; each commission bucket the sum and count of its
      commissions with that status; and in a consistent store the two
      buckets together count every commission of the school. */
  lemma DashboardTotals(s: Snapshot, school: Id)
    requires Consistent(s)
    ensures var d := DashboardOf(s, school);
      var invs := SchoolInvoices(s, school);
      var cs := CommissionsOfSchool(s, school);
      var pending := Matching(cs, CommissionController.StatusOf, CommissionModel.Pending);
      var settled := Matching(cs, CommissionController.StatusOf, CommissionModel.Settled);
      d.sales == Sales(Sum(invs, TotalAmount), Sum(invs, CommissionAmount), |invs|)
      && d.pending == CommissionController.Bucket(Sum(pending, CommissionController.Amount), |pending|)
      && d.settled == CommissionController.Bucket(Sum(settled, CommissionController.Amount), |settled|)
      && d.pending.count + d.settled.count == |cs|
  {
    var bs := Bodies(s.commissions);
    var cs := CommissionsOfSchool(s, school);
    CommissionController.GroupExact(cs, CommissionController.StatusOf, CommissionModel.Pending);
    CommissionController.GroupExact(cs, CommissionController.StatusOf, CommissionModel.Settled);
    CommissionController.StatusesValid(s);
    MatchingMembers(bs, CommissionController.SchoolOf, school);
    CommissionController.StatusPartition(cs);
  }

  /** `getSchoolById`: 404 when absent, then 403 for a restricted caller
      that did not create the school, then the school with its dashboard. */
  function SchoolById(s: Snapshot, caller: Option<Caller>, id: Id): (r: Result<SchoolView>)
    ensures r.Fail? && r.failure.NotFound? <==> !Has(s.schools, id)
    ensures r.Fail? && r.failure.Forbidden? <==>
      Has(s.schools, id) && !MayTouch(caller, Get(s.schools, id).value.createdBy)
    ensures r.Ok? ==> Get(s.schools, id) == Some(r.value.school) && r.value.dashboard == DashboardOf(s, id)
  {
    match Get(s.schools, id)
    case None => Fail(NotFound("School not found"))
    case Some(school) =>
      match Authorize(true, school.createdBy, caller, "school")
      case Some(f) => Fail(f)
      case None => Ok(SchoolView(school, DashboardOf(s, id)))
  }

  // ---------------------------------------------------------------------
  // createSchool

  const DuplicateCode: Failure := BadRequest("School with this code already exists")

  /** The request body with the caller stamped as creator, when there is a
      caller. */
  function Stamped(caller: Option<Caller>, body: Body): (b: Body)
    ensures caller.Some? ==> b.createdBy == Some(caller.value.id)
    ensures caller.None? ==> b == body
  {
    if caller.Some? then body.(createdBy := Some(caller.value.id)) else body
  }

  /** `createSchool`: the body is stored with the caller as creator when
      there is a caller; a schema failure answers 500 and a code some
      school already holds 400. */
  function CreateSchoolOutcome(s: Snapshot, caller: Option<Caller>, body: Body): (o: Outcome<School>)
    ensures o.result.Fail? ==> o.state == s
    ensures o.result == Fail(DuplicateCode) <==>
      Create(Stamped(caller, body)).Ok? && Taken(s.schools, CodeOf, Create(Stamped(caller, body)).value.code, None)
    ensures o.result.Ok? <==>
      body.name.Some? && body.code.Some? && Admissible(body.name.value, body.code.value, Or(body.commissionRate, 0.0))
      && !Taken(s.schools, CodeOf, Code(body.code.value), None)
    ensures o.result.Ok? ==>
      o.result.value.createdBy == (if caller.Some? then Some(caller.value.id) else body.createdBy)
      && o.result.value.code == Code(body.code.value)
      && o.state == s.(schools := s.schools + [Doc(s.nextId, o.result.value)], nextId := s.nextId + 1)
  {
    match Create(Stamped(caller, body))
    case Fail(f) => Outcome(Fail(f), s)
    case Ok(school) =>
      if Taken(s.schools, CodeOf, school.code, None) then Outcome(Fail(DuplicateCode), s)
      else Outcome(Ok(school), s.(schools := s.schools + [Doc(s.nextId, school)], nextId := s.nextId + 1))
  }

  lemma CreateSchoolConsistent(s: Snapshot, caller: Option<Caller>, body: Body)
    requires Consistent(s)
    ensures Consistent(CreateSchoolOutcome(s, caller, body).state)
  {
    var o := CreateSchoolOutcome(s, caller, body);
    if o.result.Ok? {
      AddSchool(s, o.result.value);
    }
  }

  /** `createSchool`. */
  method CreateSchool(db: Store, caller: Option<Caller>, body: Body) returns (r: Result<School>)
    requires db.Valid()
    modifies db
    ensures Outcome(r, db.State()) == CreateSchoolOutcome(old(db.State()), caller, body)
    ensures db.Valid()
  {
    CreateSchoolConsistent(db.State(), caller, body);
    var created := Create(Stamped(caller, body));
    if created.Fail? {
      return Fail(created.failure);
    }
    if Taken(db.schools, CodeOf, created.value.code, None) {
      return Fail(DuplicateCode);
    }
    db.schools := db.schools + [Doc(db.nextId, created.value)];
    db.nextId := db.nextId + 1;
    return Ok(created.value);
  }

  // ---------------------------------------------------------------------
  // updateSchool and deleteSchool

  /** `updateSchool`: 404, then 403, then the body's fields replace the
      stored ones (the creator included); a schema failure or a code held
      by another school throws (500). */
  function UpdateSchoolOutcome(s: Snapshot, caller: Option<Caller>, id: Id, body: Body): (o: Outcome<School>)
    ensures o.result.Fail? && o.result.failure.NotFound? <==> !Has(s.schools, id)
    ensures o.result.Fail? && o.result.failure.Forbidden? <==>
      Has(s.schools, id) && !MayTouch(caller, Get(s.schools, id).value.createdBy)
    ensures o.result.Fail? ==> o.state == s
    ensures o.result.Ok? ==>
      var k := Find(s.schools, id).value;
      Update(s.schools[k].body, body) == Ok(o.result.value)
      && !Taken(s.schools, CodeOf, o.result.value.code, Some(k))
      && o.state == s.(schools := Replace(s.schools, k, o.result.value))
    ensures Has(s.schools, id) && MayTouch(caller, Get(s.schools, id).value.createdBy) ==>
      var k := Find(s.schools, id).value;
      var u := Update(s.schools[k].body, body);
      (o.result.Ok? <==> u.Ok? && !Taken(s.schools, CodeOf, u.value.code, Some(k)))
      && (u.Ok? && Taken(s.schools, CodeOf, u.value.code, Some(k)) ==> o.result == Fail(ServerError("Duplicate school code")))
  {
    match Find(s.schools, id)
    case None => Outcome(Fail(NotFound("School not found")), s)
    case Some(k) =>
      var stored := s.schools[k].body;
      if !MayTouch(caller, stored.createdBy) then
        Outcome(Fail(Forbidden("Forbidden: cannot modify this school")), s)
      else match Update(stored, body)
        case Fail(f) => Outcome(Fail(f), s)
        case Ok(school) =>
          if Taken(s.schools, CodeOf, school.code, Some(k)) then Outcome(Fail(ServerError("Duplicate school code")), s)
          else Outcome(Ok(school), s.(schools := Replace(s.schools, k, school)))
  }

  lemma UpdateSchoolConsistent(s: Snapshot, caller: Option<Caller>, id: Id, body: Body)
    requires Consistent(s)
    ensures Consistent(UpdateSchoolOutcome(s, caller, id, body).state)
  {
    var o := UpdateSchoolOutcome(s, caller, id, body);
    if o.result.Ok? {
      var k := Find(s.schools, id).value;
      ReplaceKeyed(s.schools, s.nextId, k, o.result.value);
      ReplaceAll(s.schools, Valid, k, o.result.value);
      ReplaceDistinctBy(s.schools, CodeOf, k, o.result.value);
    }
  }

  /** `updateSchool`. */
  method UpdateSchool(db: Store, caller: Option<Caller>, id: Id, body: Body) returns (r: Result<School>)
    requires db.Valid()
    modifies db
    ensures Outcome(r, db.State()) == UpdateSchoolOutcome(old(db.State()), caller, id, body)
    ensures db.Valid()
  {
    UpdateSchoolConsistent(db.State(), caller, id, body);
    var k := Find(db.schools, id);
    if k.None? {
      return Fail(NotFound("School not found"));
    }
    var stored := db.schools[k.value].body;
    if !MayTouch(caller, stored.createdBy) {
      return Fail(Forbidden("Forbidden: cannot modify this school"));
    }
    var updated := Update(stored, body);
    if updated.Fail? {
      return Fail(updated.failure);
    }
    if Taken(db.schools, CodeOf, updated.value.code, Some(k.value)) {
      return Fail(ServerError("Duplicate school code"));
    }
    db.schools := Replace(db.schools, k.value, updated.value);
    return Ok(updated.value);
  }

  /** Some student, active or not, is in the school. */
  predicate HasStudents(students: seq<Doc<StudentModel.Student>>, school: Id)
  {
    exists k :: 0 <= k < |students| && students[k].body.school == school
  }

  const StudentsRemain: Failure := BadRequest("Cannot delete school with existing students")

  /** `deleteSchool`: 404, then 403, then 400 while any student is in the
      school; otherwise the school is removed (its invoices and commissions
      are left as they are). */
  function DeleteSchoolOutcome(s: Snapshot, caller: Option<Caller>, id: Id): (o: Outcome<Id>)
    ensures o.result.Fail? && o.result.failure.NotFound? <==> !Has(s.schools, id)
    ensures o.result.Fail? && o.result.failure.Forbidden? <==>
      Has(s.schools, id) && !MayTouch(caller, Get(s.schools, id).value.createdBy)
    ensures o.result == Fail(StudentsRemain) <==>
      Has(s.schools, id) && MayTouch(caller, Get(s.schools, id).value.createdBy) && HasStudents(s.students, id)
    ensures o.result.Fail? ==> o.state == s
    ensures o.result.Ok? ==>
      o.result.value == id && o.state == s.(schools := RemoveAt(s.schools, Find(s.schools, id).value))
    ensures Has(s.schools, id) && MayTouch(caller, Get(s.schools, id).value.createdBy) && !HasStudents(s.students, id) ==>
      o.result.Ok?
  {
    match Find(s.schools, id)
    case None => Outcome(Fail(NotFound("School not found")), s)
    case Some(k) =>
      if !MayTouch(caller, s.schools[k].body.createdBy) then
        Outcome(Fail(Forbidden("Forbidden: cannot delete this school")), s)
      else if HasStudents(s.students, id) then Outcome(Fail(StudentsRemain), s)
      else Outcome(Ok(id), s.(schools := RemoveAt(s.schools, k)))
  }

  /** Every student is in a school that exists. */
  ghost predicate StudentsPlaced(s: Snapshot)
  {
    forall k :: 0 <= k < |s.students| ==> Has(s.schools, s.students[k].body.school)
  }

  /** A delete keeps the store consistent, removes the school when it
      succeeds, and never leaves a student without its school. */
  lemma DeleteSchoolRemoves(s: Snapshot, caller: Option<Caller>, id: Id)
    requires Consistent(s)
    ensures var o := DeleteSchoolOutcome(s, caller, id);
      Consistent(o.state) && (o.result.Ok? ==> !Has(o.state.schools, id))
      && (StudentsPlaced(s) ==> StudentsPlaced(o.state))
  {
    var o := DeleteSchoolOutcome(s, caller, id);
    if o.result.Ok? {
      var k := Find(s.schools, id).value;
      RemoveKeyed(s.schools, s.nextId, k);
      RemoveAll(s.schools, Valid, k);
      RemoveDistinctBy(s.schools, CodeOf, k);
      var r := o.state.schools;
      forall j | 0 <= j < |r| ensures r[j].id != id {
        if j < k {
          assert r[j] == s.schools[j];
        } else {
          assert r[j] == s.schools[j + 1];
        }
      }
      if StudentsPlaced(s) {
        forall i | 0 <= i < |s.students| ensures Has(r, s.students[i].body.school) {
          var sid := s.students[i].body.school;
          var j := Find(s.schools, sid).value;
          assert j != k;
          if j < k {
            assert r[j] == s.schools[j];
          } else {
            assert r[j - 1] == s.schools[j];
          }
        }
      }
    }
  }

  /** `deleteSchool`. */
  method DeleteSchool(db: Store, caller: Option<Caller>, id: Id) returns (r: Result<Id>)
    requires db.Valid()
    modifies db
    ensures Outcome(r, db.State()) == DeleteSchoolOutcome(old(db.State()), caller, id)
    ensures db.Valid()
  {
    DeleteSchoolRemoves(db.State(), caller, id);
    var k := Find(db.schools, id);
    if k.None? {
      return Fail(NotFound("School not found"));
    }
    if !MayTouch(caller, db.schools[k.value].body.createdBy) {
      return Fail(Forbidden("Forbidden: cannot delete this school"));
    }
    if HasStudents(db.students, id) {
      return Fail(StudentsRemain);
    }
    db.schools := RemoveAt(db.schools, k.value);
    return Ok(id);
  }
}
