/** Commissions accrued by schools: listing under the owned-school scope,
    one school's commissions with a month-by-month breakdown, settlement,
    and the office-wide summary. */
module CommissionController {
  import opened Common
  import opened Tables
  import opened Aggregate
  import opened Access
  import opened Database
  import SchoolModel
  import opened CommissionModel

  // ---------------------------------------------------------------------
  // The `$group` stage over commissions

  /** One output document of a `$group` stage: the key, the sums of the
      commission and base amounts, the count, and the commission amounts
      split by status. */
  datatype Group<K> = Group(key: K, total: real, base: real, count: nat, pending: real, settled: real)

  function Amount(c: Commission): real
  {
    c.commissionAmount
  }

  function Base(c: Commission): real
  {
    c.baseAmount
  }

  /** `$cond: [{$eq: ['$status', 'pending']}, '$commissionAmount', 0]`. */
  function PendingAmount(c: Commission): real
  {
    if c.status == Pending then c.commissionAmount else 0.0
  }

  function SettledAmount(c: Commission): real
  {
    if c.status == Settled then c.commissionAmount else 0.0
  }

  function StatusOf(c: Commission): string
  {
    c.status
  }

  function SchoolOf(c: Commission): Id
  {
    c.school
  }

  function MonthOf(c: Commission): (int, int)
  {
    (c.year, c.month)
  }

  /** Position of the group with key `k`, if there is one. */
  function IndexOf<K(==)>(gs: seq<Group<K>>, k: K): (r: Option<nat>)
    ensures r.Some? ==> r.value < |gs| && gs[r.value].key == k
    ensures r.Some? ==> forall j :: 0 <= j < r.value ==> gs[j].key != k
    ensures r.None? <==> forall j :: 0 <= j < |gs| ==> gs[j].key != k
  {
    if gs == [] then None
    else if gs[0].key == k then Some(0)
    else match IndexOf(gs[1..], k)
      case None => None
      case Some(j) => Some(j + 1)
  }

  function Start<K>(k: K, c: Commission): Group<K>
  {
    Group(k, Amount(c), Base(c), 1, PendingAmount(c), SettledAmount(c))
  }

  function Merge<K>(g: Group<K>, c: Commission): (g': Group<K>)
    ensures g'.key == g.key
  {
    Group(g.key, g.total + Amount(c), g.base + Base(c), g.count + 1, g.pending + PendingAmount(c),
          g.settled + SettledAmount(c))
  }

  /** Folding one commission into the groups: into the group of its key,
      or a new group at the end. */
  function AddTo<K(==)>(gs: seq<Group<K>>, key: Commission -> K, c: Commission): (r: seq<Group<K>>)
  {
    match IndexOf(gs, key(c))
    case None => gs + [Start(key(c), c)]
    case Some(i) => gs[i := Merge(gs[i], c)]
  }

  /** `$group` by `key`, groups in order of first appearance. */
  function GroupBy<K(==)>(cs: seq<Commission>, key: Commission -> K): seq<Group<K>>
  {
    if cs == [] then [] else AddTo(GroupBy(cs[..|cs| - 1], key), key, cs[|cs| - 1])
  }

  /** Two group lists with the same keys position by position find every
      key at the same position. */
  lemma {:induction false} IndexOfSameKeys<K>(gs: seq<Group<K>>, hs: seq<Group<K>>, k: K)
    requires |gs| == |hs| && forall j :: 0 <= j < |gs| ==> gs[j].key == hs[j].key
    ensures IndexOf(gs, k) == IndexOf(hs, k)
  {
    if gs != [] {
      IndexOfSameKeys(gs[1..], hs[1..], k);
    }
  }

  lemma {:induction false} IndexOfSnoc<K>(gs: seq<Group<K>>, g: Group<K>, k: K)
    ensures IndexOf(gs + [g], k) ==
      if IndexOf(gs, k).Some? then IndexOf(gs, k) else if g.key == k then Some(|gs|) else None
  {
    if gs != [] {
      assert (gs + [g])[1..] == gs[1..] + [g];
      IndexOfSnoc(gs[1..], g, k);
    }
  }

  /** The group with key `k` in `gs` holds the sums over exactly the
      commissions of `cs` with that key, and exists exactly when there are
      any. */
  ghost predicate Exact<K>(gs: seq<Group<K>>, cs: seq<Commission>, key: Commission -> K, k: K)
  {
    var f := Matching(cs, key, k);
    (IndexOf(gs, k).Some? <==> f != [])
    && (IndexOf(gs, k).Some? ==>
          gs[IndexOf(gs, k).value] ==
          Group(k, Sum(f, Amount), Sum(f, Base), |f|, Sum(f, PendingAmount), Sum(f, SettledAmount)))
  }

  /** Folding in a commission whose key has no group yet. */
  lemma AddNewExact<K>(gs: seq<Group<K>>, cs: seq<Commission>, key: Commission -> K, c: Commission, k: K)
    requires Exact(gs, cs, key, k) && IndexOf(gs, key(c)).None?
    ensures Exact(gs + [Start(key(c), c)], cs + [c], key, k)
  {
    var hs := gs + [Start(key(c), c)];
    var f := Matching(cs, key, k);
    IndexOfSnoc(gs, Start(key(c), c), k);
    MatchingSnoc(cs, c, key, k);
    if key(c) == k {
      assert IndexOf(hs, k) == Some(|gs|);
      assert f == [];
      assert Matching(cs + [c], key, k) == [c];
      SumSingle(c, Amount);
      SumSingle(c, Base);
      SumSingle(c, PendingAmount);
      SumSingle(c, SettledAmount);
      assert hs[|gs|] == Start(k, c);
    } else {
      assert IndexOf(hs, k) == IndexOf(gs, k);
      assert Matching(cs + [c], key, k) == f;
      if IndexOf(gs, k).Some? {
        assert hs[IndexOf(gs, k).value] == gs[IndexOf(gs, k).value];
      }
    }
  }

  /** Folding in a commission into the existing group of its key. */
  lemma AddExistingExact<K>(gs: seq<Group<K>>, cs: seq<Commission>, key: Commission -> K, c: Commission, k: K, i: nat)
    requires Exact(gs, cs, key, k) && IndexOf(gs, key(c)) == Some(i)
    ensures Exact(gs[i := Merge(gs[i], c)], cs + [c], key, k)
  {
    var hs := gs[i := Merge(gs[i], c)];
    var f := Matching(cs, key, k);
    IndexOfSameKeys(gs, hs, k);
    MatchingSnoc(cs, c, key, k);
    if key(c) == k {
      assert IndexOf(gs, k) == Some(i);
      assert Matching(cs + [c], key, k) == f + [c];
      SumSnoc(f, c, Amount);
      SumSnoc(f, c, Base);
      SumSnoc(f, c, PendingAmount);
      SumSnoc(f, c, SettledAmount);
      assert hs[i] == Merge(gs[i], c);
    } else {
      assert Matching(cs + [c], key, k) == f;
      if IndexOf(gs, k).Some? {
        assert IndexOf(gs, k).value != i;
        assert hs[IndexOf(gs, k).value] == gs[IndexOf(gs, k).value];
      }
    }
  }

  /** `$group` is exact for every key. */
  lemma {:induction false} GroupExact<K>(cs: seq<Commission>, key: Commission -> K, k: K)
    ensures Exact(GroupBy(cs, key), cs, key, k)
  {
    if cs != [] {
      var init, c := cs[..|cs| - 1], cs[|cs| - 1];
      GroupExact(init, key, k);
      assert cs == init + [c];
      var gs := GroupBy(init, key);
      match IndexOf(gs, key(c)) {
        case None => AddNewExact(gs, init, key, c, k);
        case Some(i) => AddExistingExact(gs, init, key, c, k, i);
      }
    }
  }

  ghost predicate KeysDistinct<K>(gs: seq<Group<K>>)
  {
    forall i, j :: 0 <= i < j < |gs| ==> gs[i].key != gs[j].key
  }

  /** Groups have distinct keys. */
  lemma {:induction false} GroupKeysDistinct<K>(cs: seq<Commission>, key: Commission -> K)
    ensures KeysDistinct(GroupBy(cs, key))
  {
    if cs != [] {
      var init, c := cs[..|cs| - 1], cs[|cs| - 1];
      GroupKeysDistinct(init, key);
      var gs := GroupBy(init, key);
      var hs := GroupBy(cs, key);
      match IndexOf(gs, key(c)) {
        case None =>
          assert hs == gs + [Start(key(c), c)];
          forall i, j | 0 <= i < j < |hs| ensures hs[i].key != hs[j].key {
            assert hs[i] == gs[i];
            if j < |gs| {
              assert hs[j] == gs[j];
              assert gs[i].key != gs[j].key;
            } else {
              assert hs[j].key == key(c);
              assert gs[i].key != key(c);
            }
          }
        case Some(m) =>
          assert hs == gs[m := Merge(gs[m], c)];
          forall i, j | 0 <= i < j < |hs| ensures hs[i].key != hs[j].key {
            assert hs[i].key == gs[i].key && hs[j].key == gs[j].key;
            assert gs[i].key != gs[j].key;
          }
      }
    }
  }

  /** Every stored commission is pending or settled. */
  lemma StatusesValid(s: Snapshot)
    requires Consistent(s)
    ensures forall c :: c in Bodies(s.commissions) ==> c.status == Pending || c.status == Settled
  {
    forall c | c in Bodies(s.commissions) ensures c.status == Pending || c.status == Settled {
      var j :| 0 <= j < |s.commissions| && Bodies(s.commissions)[j] == c;
      assert Valid(s.commissions[j].body);
    }
  }

  /** Where every status is pending or settled, each group's pending and
      settled parts add up to its total. */
  lemma GroupSplit<K>(cs: seq<Commission>, key: Commission -> K, k: K)
    requires forall c :: c in cs ==> c.status == Pending || c.status == Settled
    requires IndexOf(GroupBy(cs, key), k).Some?
    ensures var g := GroupBy(cs, key)[IndexOf(GroupBy(cs, key), k).value];
      g.pending + g.settled == g.total
  {
    GroupExact(cs, key, k);
    var f := Matching(cs, key, k);
    MatchingMembers(cs, key, k);
    assert forall c :: c in f ==> PendingAmount(c) + SettledAmount(c) == Amount(c);
    AmountSplit(f);
  }

  lemma {:induction false} AmountSplit(cs: seq<Commission>)
    requires forall c :: c in cs ==> PendingAmount(c) + SettledAmount(c) == Amount(c)
    ensures Sum(cs, PendingAmount) + Sum(cs, SettledAmount) == Sum(cs, Amount)
  {
    if cs != [] {
      assert forall c :: c in cs[..|cs| - 1] ==> c in cs;
      AmountSplit(cs[..|cs| - 1]);
    }
  }

  // ---------------------------------------------------------------------
  // getAllCommissions

  /** The filters of `getAllCommissions`; month and year arrive already
      parsed. */
  datatype Query = Query(school: Option<Id>, status: Option<string>, month: Option<int>, year: Option<int>)

  /** The query `getAllCommissions` builds: the owned-school scope (None for
      an unrestricted caller), then each filter that is present. */
  predicate Selected(c: Commission, owned: Option<seq<Id>>, q: Query)
  {
    (owned.None? || c.school in owned.value)
    && (q.school.None? || c.school == q.school.value)
    && (q.status.None? || c.status == q.status.value)
    && (q.month.None? || c.month == q.month.value)
    && (q.year.None? || c.year == q.year.value)
  }

  /** `getAllCommissions` without pagination and sorting: 403 when a
      restricted caller names a school it did not create, otherwise exactly
      the commissions the query selects; a restricted caller only ever sees
      commissions of schools it created. */
  function ListCommissions(s: Snapshot, caller: Option<Caller>, q: Query): (r: Result<seq<Doc<Commission>>>)
    ensures r.Fail? <==> Restricted(caller) && q.school.Some?
                         && q.school.value !in OwnedSchoolIds(caller, s.schools).value
    ensures r.Fail? ==> r.failure.Forbidden?
    ensures r.Ok? ==> forall k :: 0 <= k < |r.value| ==>
      r.value[k] in s.commissions && Selected(r.value[k].body, OwnedSchoolIds(caller, s.schools), q)
    ensures r.Ok? ==> forall k :: 0 <= k < |s.commissions| ==>
      Selected(s.commissions[k].body, OwnedSchoolIds(caller, s.schools), q) ==> s.commissions[k] in r.value
    ensures r.Ok? && Restricted(caller) ==> forall k :: 0 <= k < |r.value| ==>
      exists j :: 0 <= j < |s.schools| && s.schools[j].id == r.value[k].body.school
                  && s.schools[j].body.createdBy == Some(caller.value.id)
  {
    var owned := OwnedSchoolIds(caller, s.schools);
    if owned.Some? && q.school.Some? && q.school.value !in owned.value then
      Fail(Forbidden("Forbidden: school not owned"))
    else
      Ok(Filter(s.commissions, (d: Doc<Commission>) => Selected(d.body, owned, q)))
  }

  // ---------------------------------------------------------------------
  // getSchoolCommissions

  /** The sort key `{'_id.year': -1, '_id.month': -1}` as one number; for
      months 1 to 12 it orders as the year, then the month. */
  function MonthRank(g: Group<(int, int)>): real
  {
    (g.key.0 * 100 + g.key.1) as real
  }

  /** The month-by-month breakdown of a school's commissions, latest month
      first. */
  function MonthlyBreakdown(cs: seq<Commission>): (r: seq<Group<(int, int)>>)
    ensures SortedDesc(r, MonthRank)
    ensures forall g :: g in r <==> g in GroupBy(cs, MonthOf)
  {
    var gs := GroupBy(cs, MonthOf);
    var r := SortDesc(gs, MonthRank);
    assert forall g :: g in r <==> g in multiset(r);
    r
  }

  datatype SchoolReport = SchoolReport(commissions: seq<Doc<Commission>>, monthlyBreakdown: seq<Group<(int, int)>>)

  /** `getSchoolCommissions`: a restricted caller is refused (403) unless
      the school exists and it created it; an unknown school is not an
      error for an unrestricted caller, it just has no commissions. */
  function SchoolCommissions(s: Snapshot, caller: Option<Caller>, school: Id): (r: Result<SchoolReport>)
    ensures r.Fail? <==> !MayTouch(caller, SchoolCreator(s.schools, Some(school)))
    ensures r.Fail? ==> r.failure.Forbidden?
    ensures r.Ok? ==> forall k :: 0 <= k < |r.value.commissions| ==>
      r.value.commissions[k] in s.commissions && r.value.commissions[k].body.school == school
    ensures r.Ok? ==> forall k :: 0 <= k < |s.commissions| ==>
      s.commissions[k].body.school == school ==> s.commissions[k] in r.value.commissions
  {
    if !MayTouch(caller, SchoolCreator(s.schools, Some(school))) then Fail(Forbidden("Forbidden: not your school"))
    else
      var own := Filter(s.commissions, (d: Doc<Commission>) => d.body.school == school);
      Ok(SchoolReport(own, MonthlyBreakdown(Matching(Bodies(s.commissions), SchoolOf, school))))
  }

  /** A value as a `$match` stage compares it: an ObjectId, or the string
      that spells one. Unlike `find`, an aggregation pipeline does not cast
      a string to the ObjectId of the schema, and BSON values of two
      different types are never equal. */
  datatype Bson = ObjectId(id: Id) | Spelled(hex: Id)

  /** `getSchoolCommissions` as written: the listing finds the school's
      commissions, but the breakdown's `$match` compares each stored school
      ObjectId with the path parameter, which is still a string, so no
      commission reaches the `$group` stage and the breakdown is empty. */
  function SchoolCommissionsAsWritten(s: Snapshot, caller: Option<Caller>, school: Id): (r: Result<SchoolReport>)
    ensures r.Fail? <==> !MayTouch(caller, SchoolCreator(s.schools, Some(school)))
    ensures r.Fail? ==> r.failure.Forbidden?
    ensures r.Ok? ==> r.value.commissions == SchoolCommissions(s, caller, school).value.commissions
    ensures r.Ok? ==> r.value.monthlyBreakdown == []
  {
    if !MayTouch(caller, SchoolCreator(s.schools, Some(school))) then Fail(Forbidden("Forbidden: not your school"))
    else
      var own := Filter(s.commissions, (d: Doc<Commission>) => d.body.school == school);
      var sameSchool := (c: Commission) => ObjectId(c.school) == Spelled(school);
      FilterNone(Bodies(s.commissions), sameSchool);
      Ok(SchoolReport(own, MonthlyBreakdown(Filter(Bodies(s.commissions), sameSchool))))
  }

  /** As written, a school that has commissions still gets an empty
      breakdown, where the intended breakdown has a row for the month of
      each of them. */
  lemma BreakdownLost(s: Snapshot, caller: Option<Caller>, school: Id, k: nat)
    requires Consistent(s)
    requires MayTouch(caller, SchoolCreator(s.schools, Some(school)))
    requires k < |s.commissions| && s.commissions[k].body.school == school
    ensures SchoolCommissionsAsWritten(s, caller, school).value.monthlyBreakdown == []
    ensures exists g :: g in SchoolCommissions(s, caller, school).value.monthlyBreakdown
                        && g.key == MonthOf(s.commissions[k].body)
  {
    var c := s.commissions[k].body;
    var bs := Bodies(s.commissions);
    var f := Matching(Matching(bs, SchoolOf, school), MonthOf, MonthOf(c));
    var m := Matching(bs, SchoolOf, school);
    MatchingHas(bs, SchoolOf, k);
    var j :| 0 <= j < |m| && m[j] == c;
    MatchingHas(m, MonthOf, j);
    assert c in f;
    BreakdownRows(s, caller, school, c.year, c.month);
  }

  /** The group of key `k`, read off the groups as a set: present exactly
      when some commission has the key, unique, and holding the sums over
      those commissions; where statuses are valid its parts add up. */
  lemma GroupRow<K>(cs: seq<Commission>, key: Commission -> K, k: K)
    requires forall c :: c in cs ==> c.status == Pending || c.status == Settled
    ensures var f := Matching(cs, key, k);
      (f != [] <==> exists g :: g in GroupBy(cs, key) && g.key == k)
      && forall g :: g in GroupBy(cs, key) && g.key == k ==>
           g == Group(k, Sum(f, Amount), Sum(f, Base), |f|, Sum(f, PendingAmount), Sum(f, SettledAmount))
           && g.pending + g.settled == g.total
  {
    var gs := GroupBy(cs, key);
    GroupExact(cs, key, k);
    GroupKeysDistinct(cs, key);
    if IndexOf(gs, k).Some? {
      GroupSplit(cs, key, k);
      var i := IndexOf(gs, k).value;
      assert gs[i] in gs;
      forall g | g in gs && g.key == k ensures g == gs[i] {
        var j :| 0 <= j < |gs| && gs[j] == g;
      }
    }
  }

  /** Each row of the breakdown sums exactly that school's commissions of
      its month, each month with commissions has exactly one row, and in a
      consistent store the pending and settled parts of a row add up to its
      total. */
  lemma BreakdownRows(s: Snapshot, caller: Option<Caller>, school: Id, year: int, month: int)
    requires Consistent(s)
    requires SchoolCommissions(s, caller, school).Ok?
    ensures var rows := SchoolCommissions(s, caller, school).value.monthlyBreakdown;
      var f := Matching(Matching(Bodies(s.commissions), SchoolOf, school), MonthOf, (year, month));
      (f != [] <==> exists g :: g in rows && g.key == (year, month))
      && forall g :: g in rows && g.key == (year, month) ==>
           g == Group((year, month), Sum(f, Amount), Sum(f, Base), |f|, Sum(f, PendingAmount), Sum(f, SettledAmount))
           && g.pending + g.settled == g.total
  {
    var bs := Bodies(s.commissions);
    var cs := Matching(bs, SchoolOf, school);
    StatusesValid(s);
    MatchingMembers(bs, SchoolOf, school);
    GroupRow(cs, MonthOf, (year, month));
    assert SchoolCommissions(s, caller, school).value.monthlyBreakdown == MonthlyBreakdown(cs);
  }

  // ---------------------------------------------------------------------
  // settleCommission

  const AlreadySettled: Failure := BadRequest("Commission already settled")

  /** `settleCommission`, as a function of the store: 404 when absent, 400
      when already settled (checked before ownership), then 403 for a
      restricted caller unless the commission's school exists and it created
      it; otherwise the commission becomes settled, dated today unless a date
      is given, with the reference and notes as sent. */
  function SettleOutcome(s: Snapshot, caller: Option<Caller>, id: Id, reference: Option<string>,
                         date: Option<Date>, notes: Option<string>, now: Date): (o: Outcome<Commission>)
    ensures !Has(s.commissions, id) ==> o == Outcome(Fail(NotFound("Commission not found")), s)
    ensures Has(s.commissions, id) && Get(s.commissions, id).value.status == Settled ==>
      o == Outcome(Fail(AlreadySettled), s)
    ensures o.result.Fail? && o.result.failure.Forbidden? <==>
      Has(s.commissions, id) && Get(s.commissions, id).value.status != Settled
      && !MayTouch(caller, SchoolCreator(s.schools, Some(Get(s.commissions, id).value.school)))
    ensures o.result.Fail? ==> o.state == s
    ensures o.result.Ok? ==>
      var stored := Get(s.commissions, id).value;
      o.result.value == stored.(status := Settled, settlementDate := Some(Or(date, now)),
                                paymentReference := reference, notes := notes)
      && o.state == s.(commissions := Replace(s.commissions, Find(s.commissions, id).value, o.result.value))
    ensures (Has(s.commissions, id) && Get(s.commissions, id).value.status != Settled
             && MayTouch(caller, SchoolCreator(s.schools, Some(Get(s.commissions, id).value.school)))) ==>
      o.result.Ok?
  {
    match Find(s.commissions, id)
    case None => Outcome(Fail(NotFound("Commission not found")), s)
    case Some(k) =>
      var c := s.commissions[k].body;
      if c.status == Settled then Outcome(Fail(AlreadySettled), s)
      else if !MayTouch(caller, SchoolCreator(s.schools, Some(c.school))) then
        Outcome(Fail(Forbidden("Forbidden: cannot settle commission for this school")), s)
      else
        var settled := c.(status := Settled, settlementDate := Some(Or(date, now)),
                          paymentReference := reference, notes := notes);
        Outcome(Ok(settled), s.(commissions := Replace(s.commissions, k, settled)))
  }

  /** Settling keeps the store consistent. */
  lemma SettleConsistent(s: Snapshot, caller: Option<Caller>, id: Id, reference: Option<string>,
                         date: Option<Date>, notes: Option<string>, now: Date)
    requires Consistent(s)
    ensures Consistent(SettleOutcome(s, caller, id, reference, date, notes, now).state)
  {
    var o := SettleOutcome(s, caller, id, reference, date, notes, now);
    if o.result.Ok? {
      var k := Find(s.commissions, id).value;
      assert Valid(s.commissions[k].body);
      ReplaceKeyed(s.commissions, s.nextId, k, o.result.value);
      ReplaceAll(s.commissions, Valid, k, o.result.value);
    }
  }

  /** A commission is settled at most once: settling it again, by anyone
      and with any details, is refused and changes nothing. */
  lemma SettleOnce(s: Snapshot, caller: Option<Caller>, id: Id, reference: Option<string>, date: Option<Date>,
                   notes: Option<string>, now: Date, caller': Option<Caller>, reference': Option<string>,
                   date': Option<Date>, notes': Option<string>, now': Date)
    requires Consistent(s)
    requires SettleOutcome(s, caller, id, reference, date, notes, now).result.Ok?
    ensures var t := SettleOutcome(s, caller, id, reference, date, notes, now).state;
      SettleOutcome(t, caller', id, reference', date', notes', now') == Outcome(Fail(AlreadySettled), t)
  {
    var k := Find(s.commissions, id).value;
    var t := SettleOutcome(s, caller, id, reference, date, notes, now).state;
    FindDistinct(t.commissions, k);
  }

  /** `settleCommission`: the commission document is updated in place. */
  method Settle(db: Store, caller: Option<Caller>, id: Id, reference: Option<string>, date: Option<Date>,
                notes: Option<string>, now: Date) returns (r: Result<Commission>)
    requires db.Valid()
    modifies db
    ensures Outcome(r, db.State()) == SettleOutcome(old(db.State()), caller, id, reference, date, notes, now)
    ensures db.Valid()
  {
    SettleConsistent(db.State(), caller, id, reference, date, notes, now);
    var k := Find(db.commissions, id);
    if k.None? {
      return Fail(NotFound("Commission not found"));
    }
    var commission := db.commissions[k.value].body;
    if commission.status == Settled {
      return Fail(AlreadySettled);
    }
    if Restricted(caller) {
      var creator := SchoolCreator(db.schools, Some(commission.school));
      if creator.None? || creator.value != caller.value.id {
        return Fail(Forbidden("Forbidden: cannot settle commission for this school"));
      }
    }
    commission := commission.(status := Settled);
    commission := commission.(settlementDate := Some(Or(date, now)));
    commission := commission.(paymentReference := reference);
    commission := commission.(notes := notes);
    db.commissions := Replace(db.commissions, k.value, commission);
    return Ok(commission);
  }

  // ---------------------------------------------------------------------
  // getCommissionSummary

  datatype Bucket = Bucket(totalAmount: real, count: nat)

  /** One school's line in the school-wise summary. */
  datatype SchoolRow = SchoolRow(school: Id, name: string, code: string, totalPending: real, count: nat)

  datatype Summary = Summary(pending: Bucket, settled: Bucket, total: Bucket, schoolWise: seq<SchoolRow>)

  /** `summary.find(s => s._id === status) || {totalAmount: 0, count: 0}`. */
  function BucketOf(gs: seq<Group<string>>, status: string): Bucket
  {
    match IndexOf(gs, status)
    case None => Bucket(0.0, 0)
    case Some(i) => Bucket(gs[i].total, gs[i].count)
  }

  /** `$lookup` of each group's school then `$unwind`: groups whose school
      no longer exists are dropped. */
  function Join(gs: seq<Group<Id>>, schools: seq<Doc<SchoolModel.School>>): (r: seq<SchoolRow>)
    ensures |r| <= |gs|
    ensures forall row :: row in r ==> exists g :: g in gs && Get(schools, g.key).Some? && row == RowOf(g, Get(schools, g.key).value)
    ensures forall g :: g in gs && Get(schools, g.key).Some? ==> RowOf(g, Get(schools, g.key).value) in r
  {
    if gs == [] then []
    else
      var init, g := gs[..|gs| - 1], gs[|gs| - 1];
      assert forall h :: h in init ==> h in gs;
      assert forall h :: h in gs ==> h in init || h == g;
      var rest := Join(init, schools);
      match Get(schools, g.key)
      case None => rest
      case Some(school) => rest + [RowOf(g, school)]
  }

  function RowOf(g: Group<Id>, school: SchoolModel.School): SchoolRow
  {
    SchoolRow(g.key, school.name, school.code, g.total, g.count)
  }

  function TotalPending(row: SchoolRow): real
  {
    row.totalPending
  }

  /** `getCommissionSummary`: totals by status over every commission in the
      store, whoever asks (the handler applies no ownership scope), and the
      pending amounts per existing school, largest first. */
  function CommissionSummary(s: Snapshot): (r: Summary)
    ensures r.total.totalAmount == r.pending.totalAmount + r.settled.totalAmount
    ensures r.total.count == r.pending.count + r.settled.count
    ensures SortedDesc(r.schoolWise, TotalPending)
  {
    var cs := Bodies(s.commissions);
    var byStatus := GroupBy(cs, StatusOf);
    var pending := BucketOf(byStatus, Pending);
    var settled := BucketOf(byStatus, Settled);
    var schoolWise := Join(GroupBy(Matching(cs, StatusOf, Pending), SchoolOf), s.schools);
    Summary(pending, settled, Bucket(pending.totalAmount + settled.totalAmount, pending.count + settled.count),
            SortDesc(schoolWise, TotalPending))
  }

  /** Pending and settled commissions together are all of them, when no
      other status occurs. */
  lemma {:induction false} StatusPartition(cs: seq<Commission>)
    requires forall c :: c in cs ==> c.status == Pending || c.status == Settled
    ensures Sum(cs, Amount) == Sum(Matching(cs, StatusOf, Pending), Amount) + Sum(Matching(cs, StatusOf, Settled), Amount)
    ensures |cs| == |Matching(cs, StatusOf, Pending)| + |Matching(cs, StatusOf, Settled)|
  {
    if cs != [] {
      var init, c := cs[..|cs| - 1], cs[|cs| - 1];
      assert forall x :: x in init ==> x in cs;
      StatusPartition(init);
      var p, q := Matching(init, StatusOf, Pending), Matching(init, StatusOf, Settled);
      assert Pending != Settled;
      if c.status == Pending {
        assert Matching(cs, StatusOf, Pending) == p + [c];
        assert Matching(cs, StatusOf, Settled) == q;
        SumSnoc(p, c, Amount);
      } else {
        assert Matching(cs, StatusOf, Pending) == p;
        assert Matching(cs, StatusOf, Settled) == q + [c];
        SumSnoc(q, c, Amount);
      }
      SumSnoc(init, c, Amount);
    }
  }

  /** The status buckets hold the sum and count of the commissions with
      that status, zero when there are none, and in a consistent store the
      total covers every commission. */
  lemma SummaryTotals(s: Snapshot)
    requires Consistent(s)
    ensures var cs := Bodies(s.commissions);
      var pending := Matching(cs, StatusOf, Pending);
      var settled := Matching(cs, StatusOf, Settled);
      var r := CommissionSummary(s);
      r.pending == Bucket(Sum(pending, Amount), |pending|)
      && r.settled == Bucket(Sum(settled, Amount), |settled|)
      && r.total == Bucket(Sum(cs, Amount), |s.commissions|)
  {
    var cs := Bodies(s.commissions);
    var r := CommissionSummary(s);
    GroupExact(cs, StatusOf, Pending);
    GroupExact(cs, StatusOf, Settled);
    var pending := Matching(cs, StatusOf, Pending);
    var settled := Matching(cs, StatusOf, Settled);
    assert r.pending == Bucket(Sum(pending, Amount), |pending|);
    assert r.settled == Bucket(Sum(settled, Amount), |settled|);
    StatusesValid(s);
    StatusPartition(cs);
  }

  /** A row of the join, before sorting, for a given school is that
      existing school with its group's sum and count. */
  lemma JoinedRow(cs: seq<Commission>, schools: seq<Doc<SchoolModel.School>>, school: Id, row: SchoolRow)
    requires row in Join(GroupBy(cs, SchoolOf), schools) && row.school == school
    ensures var f := Matching(cs, SchoolOf, school);
      Get(schools, school).Some?
      && row == SchoolRow(school, Get(schools, school).value.name, Get(schools, school).value.code, Sum(f, Amount), |f|)
  {
    var gs := GroupBy(cs, SchoolOf);
    var g :| g in gs && Get(schools, g.key).Some? && row == RowOf(g, Get(schools, g.key).value);
    var j :| 0 <= j < |gs| && gs[j] == g;
    GroupKeysDistinct(cs, SchoolOf);
    assert IndexOf(gs, school) == Some(j);
    GroupExact(cs, SchoolOf, school);
  }

  /** Every existing school with a group has a row in the join. */
  lemma JoinedPresent(cs: seq<Commission>, schools: seq<Doc<SchoolModel.School>>, school: Id)
    requires Matching(cs, SchoolOf, school) != [] && Has(schools, school)
    ensures exists row :: row in Join(GroupBy(cs, SchoolOf), schools) && row.school == school
  {
    var gs := GroupBy(cs, SchoolOf);
    GroupExact(cs, SchoolOf, school);
    var g := gs[IndexOf(gs, school).value];
    assert g in gs;
    assert RowOf(g, Get(schools, school).value) in Join(gs, schools);
  }

  /** Each school-wise row is an existing school with its name and code and
      the sum and count of its pending commissions, and every existing
      school with a pending commission has a row. */
  lemma SchoolWiseRows(s: Snapshot, school: Id)
    ensures var pending := Matching(Matching(Bodies(s.commissions), StatusOf, Pending), SchoolOf, school);
      var rows := CommissionSummary(s).schoolWise;
      (forall row :: row in rows && row.school == school ==>
         Get(s.schools, school).Some? && row.name == Get(s.schools, school).value.name
         && row.code == Get(s.schools, school).value.code
         && row.totalPending == Sum(pending, Amount) && row.count == |pending|)
      && (pending != [] && Has(s.schools, school) ==> exists row :: row in rows && row.school == school)
  {
    var cs := Matching(Bodies(s.commissions), StatusOf, Pending);
    var joined := Join(GroupBy(cs, SchoolOf), s.schools);
    var rows := CommissionSummary(s).schoolWise;
    assert rows == SortDesc(joined, TotalPending);
    assert forall row :: row in rows <==> row in multiset(rows);
    assert forall row :: row in joined <==> row in multiset(joined);
    forall row | row in rows && row.school == school
      ensures var f := Matching(cs, SchoolOf, school);
        Get(s.schools, school).Some? && row.name == Get(s.schools, school).value.name
        && row.code == Get(s.schools, school).value.code
        && row.totalPending == Sum(f, Amount) && row.count == |f|
    {
      JoinedRow(cs, s.schools, school, row);
    }
    if Matching(cs, SchoolOf, school) != [] && Has(s.schools, school) {
      JoinedPresent(cs, s.schools, school);
    }
  }
}
