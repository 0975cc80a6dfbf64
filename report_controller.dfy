/** Reports over invoices and products: the sales report (per-day rows, a
    summary and the ten best-selling products), school performance (per
    school and per class) and the inventory valuation. */
module ReportController {
  import opened Common
  import opened Tables
  import opened Aggregate
  import opened Access
  import opened Database
  import SchoolModel
  import StudentModel
  import CategoryModel
  import opened ProductModel
  import opened InvoiceModel
  import SchoolController

  // ---------------------------------------------------------------------
  // Scopes

  /** `{school: {$in: ids}}` when there is a scope; an invoice without a
      school is in no scope. */
  predicate InScope(school: Option<Id>, scope: Option<seq<Id>>)
  {
    scope.None? || (school.Some? && school.value in scope.value)
  }

  /** The school condition the sales report and the dashboard add:
      `(ownedIds && ownedIds.length) ? {school: {$in: ownedIds}} : none`.
      An empty list of owned schools adds no condition at all. */
  function SalesScope(owned: Option<seq<Id>>): Option<seq<Id>>
  {
    if owned.Some? && owned.value != [] then owned else None
  }

  /** What the sales scope admits: everything for an unrestricted caller;
      for a restricted caller that created some school, exactly the
      invoices of schools it created; and for a restricted caller that
      created none, everything as well. */
  lemma SalesScopeMeaning(s: Snapshot, caller: Option<Caller>, school: Option<Id>)
    ensures !Restricted(caller) ==> InScope(school, SalesScope(OwnedSchoolIds(caller, s.schools)))
    ensures Restricted(caller) && (exists k :: 0 <= k < |s.schools| && s.schools[k].body.createdBy == Some(caller.value.id)) ==>
      (InScope(school, SalesScope(OwnedSchoolIds(caller, s.schools))) <==>
        school.Some? && exists k :: 0 <= k < |s.schools| && s.schools[k].id == school.value
                                    && s.schools[k].body.createdBy == Some(caller.value.id))
    ensures Restricted(caller) && (forall k :: 0 <= k < |s.schools| ==> s.schools[k].body.createdBy != Some(caller.value.id)) ==>
      InScope(school, SalesScope(OwnedSchoolIds(caller, s.schools)))
  {
    if Restricted(caller) {
      var owned := OwnedSchoolIds(caller, s.schools);
      if exists k :: 0 <= k < |s.schools| && s.schools[k].body.createdBy == Some(caller.value.id) {
        var k :| 0 <= k < |s.schools| && s.schools[k].body.createdBy == Some(caller.value.id);
        assert s.schools[k].id in owned.value;
      } else {
        NoSchoolsIsEmptyNotNull(caller, s.schools);
      }
    }
  }

  // ---------------------------------------------------------------------
  // `$group` over invoices

  /** One output document of `$group: {_id: key, totalSales: {$sum:
      '$totalAmount'}, totalCommission: {$sum: '$commissionAmount'},
      count: {$sum: 1}}`. */
  datatype Tally<K> = Tally(key: K, totalSales: real, totalCommission: real, count: nat)

  /** The group of key `k`: the sums over the invoices with that key. */
  function TallyOf<K(==)>(invs: seq<Invoice>, key: Invoice -> K, k: K): Tally<K>
  {
    var m := Matching(invs, key, k);
    Tally(k, Sum(m, SchoolController.TotalAmount), Sum(m, SchoolController.CommissionAmount), |m|)
  }

  function Tallies<K(==)>(invs: seq<Invoice>, key: Invoice -> K, ks: seq<K>): (r: seq<Tally<K>>)
    ensures |r| == |ks|
    ensures forall i :: 0 <= i < |ks| ==> r[i] == TallyOf(invs, key, ks[i])
  {
    if ks == [] then [] else Tallies(invs, key, ks[..|ks| - 1]) + [TallyOf(invs, key, ks[|ks| - 1])]
  }

  /** The `$group` stage: one tally per distinct key. */
  function GroupInvoices<K(==)>(invs: seq<Invoice>, key: Invoice -> K): seq<Tally<K>>
  {
    Tallies(invs, key, KeysOf(invs, key))
  }

  function SalesOfTally<K>(t: Tally<K>): real
  {
    t.totalSales
  }

  function CommissionOfTally<K>(t: Tally<K>): real
  {
    t.totalCommission
  }

  function CountOfTally<K>(t: Tally<K>): real
  {
    t.count as real
  }

  /** The tallies together hold every invoice once: their sales,
      commissions and counts add up to those of `invs`. */
  ghost predicate AddsUp<K>(ts: seq<Tally<K>>, invs: seq<Invoice>)
  {
    Sum(ts, SalesOfTally) == Sum(invs, SchoolController.TotalAmount)
    && Sum(ts, CommissionOfTally) == Sum(invs, SchoolController.CommissionAmount)
    && Sum(ts, CountOfTally) == |invs| as real
  }

  function One(inv: Invoice): real
  {
    1.0
  }

  lemma {:induction false} SumOne(invs: seq<Invoice>)
    ensures Sum(invs, One) == |invs| as real
  {
    if invs != [] {
      SumOne(invs[..|invs| - 1]);
    }
  }

  /** The sum of `f` over the invoices of each key in `ks`, added up over
      the keys. */
  function Spread<K(==)>(invs: seq<Invoice>, key: Invoice -> K, ks: seq<K>, f: Invoice -> real): real
  {
    if ks == [] then 0.0 else Spread(invs, key, ks[..|ks| - 1], f) + Sum(Matching(invs, key, ks[|ks| - 1]), f)
  }

  /** The tallies' columns are spreads. */
  lemma {:induction false} TalliesSpread<K>(invs: seq<Invoice>, key: Invoice -> K, ks: seq<K>)
    ensures Sum(Tallies(invs, key, ks), SalesOfTally) == Spread(invs, key, ks, SchoolController.TotalAmount)
    ensures Sum(Tallies(invs, key, ks), CommissionOfTally) == Spread(invs, key, ks, SchoolController.CommissionAmount)
    ensures Sum(Tallies(invs, key, ks), CountOfTally) == Spread(invs, key, ks, One)
  {
    if ks != [] {
      var init, k := ks[..|ks| - 1], ks[|ks| - 1];
      TalliesSpread(invs, key, init);
      var t := TallyOf(invs, key, k);
      SumSnoc(Tallies(invs, key, init), t, SalesOfTally);
      SumSnoc(Tallies(invs, key, init), t, CommissionOfTally);
      SumSnoc(Tallies(invs, key, init), t, CountOfTally);
      SumOne(Matching(invs, key, k));
    }
  }

  /** A spread over no invoices is zero. */
  lemma {:induction false} SpreadEmpty<K>(key: Invoice -> K, ks: seq<K>, f: Invoice -> real)
    ensures Spread([], key, ks, f) == 0.0
  {
    if ks != [] {
      SpreadEmpty(key, ks[..|ks| - 1], f);
    }
  }

  /** Adding an invoice to the input adds its `f` to a spread exactly when
      its key is among the (distinct) keys. */
  lemma {:induction false} SpreadSnoc<K>(invs: seq<Invoice>, x: Invoice, key: Invoice -> K, ks: seq<K>, f: Invoice -> real)
    requires Distinct(ks)
    ensures Spread(invs + [x], key, ks, f) == Spread(invs, key, ks, f) + (if key(x) in ks then f(x) else 0.0)
  {
    if ks != [] {
      var init, k := ks[..|ks| - 1], ks[|ks| - 1];
      assert ks == init + [k];
      assert Distinct(init);
      assert key(x) in ks <==> key(x) in init || key(x) == k;
      assert key(x) == k ==> key(x) !in init;
      SpreadSnoc(invs, x, key, init, f);
      var m := Matching(invs, key, k);
      MatchingSnoc(invs, x, key, k);
      if key(x) == k {
        SumSnoc(m, x, f);
      } else {
        assert Matching(invs + [x], key, k) == m;
      }
      assert Spread(invs + [x], key, ks, f) == Spread(invs + [x], key, init, f) + Sum(Matching(invs + [x], key, k), f);
      assert Spread(invs, key, ks, f) == Spread(invs, key, init, f) + Sum(m, f);
    }
  }

  /** A spread over distinct keys that cover every invoice is the total
      over the invoices. */
  lemma {:induction false} SpreadTotal<K>(invs: seq<Invoice>, key: Invoice -> K, ks: seq<K>, f: Invoice -> real)
    requires Distinct(ks)
    requires forall i :: 0 <= i < |invs| ==> key(invs[i]) in ks
    ensures Spread(invs, key, ks, f) == Sum(invs, f)
  {
    if invs == [] {
      SpreadEmpty(key, ks, f);
    } else {
      var init, x := invs[..|invs| - 1], invs[|invs| - 1];
      assert invs == init + [x];
      assert forall i :: 0 <= i < |init| ==> init[i] == invs[i];
      SpreadTotal(init, key, ks, f);
      SpreadSnoc(init, x, key, ks, f);
      SumSnoc(init, x, f);
    }
  }

  lemma TalliesAddUp<K>(invs: seq<Invoice>, key: Invoice -> K, ks: seq<K>)
    requires Distinct(ks)
    requires forall i :: 0 <= i < |invs| ==> key(invs[i]) in ks
    ensures AddsUp(Tallies(invs, key, ks), invs)
  {
    TalliesSpread(invs, key, ks);
    SpreadTotal(invs, key, ks, SchoolController.TotalAmount);
    SpreadTotal(invs, key, ks, SchoolController.CommissionAmount);
    SpreadTotal(invs, key, ks, One);
    SumOne(invs);
  }

  /** Reordering tallies keeps them adding up. */
  lemma PermutedAddsUp<K>(ts: seq<Tally<K>>, us: seq<Tally<K>>, invs: seq<Invoice>)
    requires AddsUp(ts, invs) && multiset(ts) == multiset(us)
    ensures AddsUp(us, invs)
  {
    SumPermutation(ts, us, SalesOfTally);
    SumPermutation(ts, us, CommissionOfTally);
    SumPermutation(ts, us, CountOfTally);
  }

  /** `$group` is exact and complete: every group holds the sums over the
      invoices of its key (at least one), and every invoice's key has a
      group. */
  lemma GroupExact<K>(invs: seq<Invoice>, key: Invoice -> K)
    ensures forall t :: t in GroupInvoices(invs, key) ==> t == TallyOf(invs, key, t.key) && t.count > 0
    ensures forall i :: 0 <= i < |invs| ==> TallyOf(invs, key, key(invs[i])) in GroupInvoices(invs, key)
  {
    var ks := KeysOf(invs, key);
    var ts := GroupInvoices(invs, key);
    forall t | t in ts ensures t == TallyOf(invs, key, t.key) && t.count > 0 {
      var j :| 0 <= j < |ts| && ts[j] == t;
      KeySelects(invs, key, ks[j]);
    }
    forall i | 0 <= i < |invs| ensures TallyOf(invs, key, key(invs[i])) in ts {
      var j :| 0 <= j < |ks| && ks[j] == key(invs[i]);
      assert ts[j] == TallyOf(invs, key, key(invs[i]));
    }
  }

  /** The groups together add up to the input. */
  lemma GroupAddsUp<K>(invs: seq<Invoice>, key: Invoice -> K)
    ensures AddsUp(GroupInvoices(invs, key), invs)
  {
    TalliesAddUp(invs, key, KeysOf(invs, key));
  }

  // ---------------------------------------------------------------------
  // getSalesReport

  /** The date window: both bounds when both are given; otherwise by
      period: from today ('daily', the default), from a week ago
      ('weekly'), from the first of the month ('monthly'), and no window
      for any other period. */
  function SalesWindow(period: string, startDate: Option<Date>, endDate: Option<Date>, today: Date, weekAgo: Date): DateRange
  {
    if startDate.Some? && endDate.Some? then DateRange(startDate, endDate)
    else if period == "daily" then DateRange(Some(today), None)
    else if period == "weekly" then DateRange(Some(weekAgo), None)
    else if period == "monthly" then DateRange(Some(Date(today.year, today.month, 1)), None)
    else Unbounded
  }

  /** The invoices the sales report's `$match` stage lets through. */
  function SalesMatch(s: Snapshot, caller: Option<Caller>, window: DateRange): (r: seq<Invoice>)
    ensures forall inv :: inv in r <==>
      inv in Bodies(s.invoices) && window.Contains(inv.invoiceDate)
      && InScope(inv.school, SalesScope(OwnedSchoolIds(caller, s.schools)))
  {
    var scope := SalesScope(OwnedSchoolIds(caller, s.schools));
    Filter(Bodies(s.invoices), (inv: Invoice) => window.Contains(inv.invoiceDate) && InScope(inv.school, scope))
  }

  function DayOf(inv: Invoice): Date
  {
    inv.invoiceDate
  }

  /** The `_id: 1` sort key of the per-day rows, negated for SortDesc. */
  function Earliness(t: Tally<Date>): real
  {
    -(DayNumber(t.key) as real)
  }

  /** `dailySales`: the per-day groups, earliest day first. */
  function DailySales(invs: seq<Invoice>): (r: seq<Tally<Date>>)
    ensures forall i, j :: 0 <= i < j < |r| ==> DayNumber(r[i].key) <= DayNumber(r[j].key)
    ensures multiset(r) == multiset(GroupInvoices(invs, DayOf))
  {
    var r := SortDesc(GroupInvoices(invs, DayOf), Earliness);
    assert forall i, j :: 0 <= i < j < |r| ==> Earliness(r[i]) >= Earliness(r[j]);
    r
  }

  function LineCount(inv: Invoice): int
  {
    |inv.items|
  }

  /** `$unwind: '$items'`: every line of every invoice, in order: each
      line of an invoice is there, nothing else is, and there are as many
      as the invoices have lines together. */
  function Unwind(invs: seq<Invoice>): (r: seq<Line>)
    ensures forall i, l :: 0 <= i < |invs| && l in invs[i].items ==> l in r
    ensures forall l :: l in r ==> exists i :: 0 <= i < |invs| && l in invs[i].items
    ensures |r| == SumInt(invs, LineCount)
  {
    if invs == [] then []
    else
      var init := invs[..|invs| - 1];
      assert forall i :: 0 <= i < |init| ==> init[i] == invs[i];
      Unwind(init) + invs[|invs| - 1].items
  }

  /** One output document of the per-product `$group`. */
  datatype ProductRow = ProductRow(product: Id, productName: string, totalQuantity: int, totalRevenue: real)

  function ProductOf(l: Line): Id
  {
    l.product
  }

  function Quantity(l: Line): int
  {
    l.quantity
  }

  function Revenue(l: Line): real
  {
    l.totalPrice
  }

  function RevenueOf(row: ProductRow): real
  {
    row.totalRevenue
  }

  /** The group of product `k`: the name on its first line (`$first`) and
      the sums of quantity and line total. */
  function ProductRowOf(lines: seq<Line>, k: Id): ProductRow
  {
    var m := Matching(lines, ProductOf, k);
    ProductRow(k, if m == [] then "" else m[0].productName, SumInt(m, Quantity), Sum(m, Revenue))
  }

  function ProductRows(lines: seq<Line>, ks: seq<Id>): (r: seq<ProductRow>)
    ensures |r| == |ks|
    ensures forall i :: 0 <= i < |ks| ==> r[i] == ProductRowOf(lines, ks[i])
  {
    if ks == [] then [] else ProductRows(lines, ks[..|ks| - 1]) + [ProductRowOf(lines, ks[|ks| - 1])]
  }

  const TopLimit: nat := 10

  /** `topProducts`: group the lines by product, sort by revenue
      descending, keep ten. */
  function TopProducts(lines: seq<Line>): (r: seq<ProductRow>)
    ensures |r| <= TopLimit
    ensures SortedDesc(r, RevenueOf)
    ensures forall row :: row in r ==> row in ProductRows(lines, KeysOf(lines, ProductOf))
  {
    var rows := ProductRows(lines, KeysOf(lines, ProductOf));
    TopMembers(rows, RevenueOf, TopLimit);
    TopSorted(rows, RevenueOf, TopLimit);
    Take(SortDesc(rows, RevenueOf), TopLimit)
  }

  /** Each product row holds the figures of a product that was sold. */
  lemma ProductRowsExact(lines: seq<Line>)
    ensures forall row :: row in ProductRows(lines, KeysOf(lines, ProductOf)) ==>
      row == ProductRowOf(lines, row.product) && Matching(lines, ProductOf, row.product) != []
  {
    var ks := KeysOf(lines, ProductOf);
    var rows := ProductRows(lines, ks);
    forall row | row in rows ensures row == ProductRowOf(lines, row.product) && Matching(lines, ProductOf, row.product) != [] {
      var j :| 0 <= j < |rows| && rows[j] == row;
      KeySelects(lines, ProductOf, ks[j]);
    }
  }

  /** A product that sold but is not among the top products earned no
      more than any of them, and the list is then full. */
  lemma TopProductsLargest(lines: seq<Line>, i: nat)
    requires i < |lines|
    ensures var top := TopProducts(lines);
      var row := ProductRowOf(lines, lines[i].product);
      row in top || (|top| == TopLimit && forall t :: t in top ==> t.totalRevenue >= row.totalRevenue)
  {
    var ks := KeysOf(lines, ProductOf);
    var rows := ProductRows(lines, ks);
    var j :| 0 <= j < |ks| && ks[j] == lines[i].product;
    assert rows[j] == ProductRowOf(lines, lines[i].product);
    TopOrOutranked(rows, RevenueOf, TopLimit, rows[j]);
  }

  datatype SalesReport = SalesReport(
    period: string,
    window: DateRange,
    dailySales: seq<Tally<Date>>,
    summary: SchoolController.Sales,
    topProducts: seq<ProductRow>)

  /** `getSalesReport`. The clock is a parameter: `today` and `weekAgo`
      are the start of the current day and of the day seven days before. */
  function SalesReportOf(s: Snapshot, caller: Option<Caller>, period: Option<string>,
                         startDate: Option<Date>, endDate: Option<Date>, today: Date, weekAgo: Date): SalesReport
  {
    var p := Or(period, "daily");
    var w := SalesWindow(p, startDate, endDate, today, weekAgo);
    var invs := SalesMatch(s, caller, w);
    SalesReport(p, w, DailySales(invs), SchoolController.SalesOf(invs), TopProducts(Unwind(invs)))
  }

  /** The sales report's figures: the summary is the sums and count of the
      matched invoices (zero when none match); there is one row per day on
      which an invoice matched, holding that day's sums, and the rows add
      up to the summary; the top products are at most ten, best first. */
  lemma SalesReportFigures(s: Snapshot, caller: Option<Caller>, period: Option<string>,
                           startDate: Option<Date>, endDate: Option<Date>, today: Date, weekAgo: Date)
    ensures var r := SalesReportOf(s, caller, period, startDate, endDate, today, weekAgo);
      var invs := SalesMatch(s, caller, r.window);
      r.summary == SchoolController.Sales(Sum(invs, SchoolController.TotalAmount),
                                          Sum(invs, SchoolController.CommissionAmount), |invs|)
      && (forall t :: t in r.dailySales ==> t == TallyOf(invs, DayOf, t.key) && t.count > 0)
      && (forall inv :: inv in invs ==> TallyOf(invs, DayOf, inv.invoiceDate) in r.dailySales)
      && AddsUp(r.dailySales, invs)
      && r.summary.totalSales == Sum(r.dailySales, SalesOfTally)
      && |r.topProducts| <= TopLimit
  {
    var r := SalesReportOf(s, caller, period, startDate, endDate, today, weekAgo);
    var invs := SalesMatch(s, caller, r.window);
    GroupExact(invs, DayOf);
    GroupAddsUp(invs, DayOf);
    var gs := GroupInvoices(invs, DayOf);
    forall t | t in r.dailySales ensures t == TallyOf(invs, DayOf, t.key) && t.count > 0 {
      assert t in multiset(gs);
    }
    forall inv | inv in invs ensures TallyOf(invs, DayOf, inv.invoiceDate) in r.dailySales {
      var i :| 0 <= i < |invs| && invs[i] == inv;
      assert TallyOf(invs, DayOf, DayOf(invs[i])) in multiset(gs);
    }
    PermutedAddsUp(gs, r.dailySales, invs);
  }

  // ---------------------------------------------------------------------
  // getSchoolPerformance

  /** Both bounds when both are given, otherwise no window. */
  function PerformanceWindow(startDate: Option<Date>, endDate: Option<Date>): (r: DateRange)
    ensures startDate.None? || endDate.None? ==> forall d :: r.Contains(d)
    ensures startDate.Some? && endDate.Some? ==>
      forall d :: r.Contains(d) <==> OnOrBefore(startDate.value, d) && OnOrBefore(d, endDate.value)
  {
    if startDate.Some? && endDate.Some? then DateRange(startDate, endDate) else Unbounded
  }

  /** The invoices school performance matches: those in the window and,
      for a restricted caller, of a school it created. Unlike the sales
      report, an empty list of owned schools (`$in: []`) matches nothing. */
  function PerformanceMatch(s: Snapshot, caller: Option<Caller>, window: DateRange): (r: seq<Invoice>)
    ensures forall inv :: inv in r <==>
      inv in Bodies(s.invoices) && window.Contains(inv.invoiceDate) && InScope(inv.school, OwnedSchoolIds(caller, s.schools))
  {
    var owned := OwnedSchoolIds(caller, s.schools);
    Filter(Bodies(s.invoices), (inv: Invoice) => window.Contains(inv.invoiceDate) && InScope(inv.school, owned))
  }

  function SchoolKey(inv: Invoice): Option<Id>
  {
    inv.school
  }

  datatype PerformanceRow = PerformanceRow(
    schoolId: Id,
    schoolName: string,
    schoolCode: string,
    commissionRate: real,
    totalSales: real,
    totalCommission: real,
    invoiceCount: nat,
    totalStudents: nat,
    averageSalePerInvoice: real)

  /** `$divide: ['$totalSales', {$max: ['$invoiceCount', 1]}]`. */
  function Average(total: real, count: nat): real
  {
    total / (if count > 1 then count else 1) as real
  }

  /** The projection of one school's group: the school's fields, the
      group's sums, its count of active students and the average sale. */
  function PerformanceRowOf(s: Snapshot, t: Tally<Option<Id>>, id: Id, school: SchoolModel.School): PerformanceRow
  {
    PerformanceRow(id, school.name, school.code, school.commissionRate, t.totalSales, t.totalCommission, t.count,
                   |SchoolController.Enrolled(s, id)|, Average(t.totalSales, t.count))
  }

  /** `$lookup` of each group's school then `$unwind`: a group without an
      existing school (such as that of the invoices without one) is
      dropped. */
  function PerformanceRows(s: Snapshot, ts: seq<Tally<Option<Id>>>): (r: seq<PerformanceRow>)
    ensures forall row :: row in r ==>
      exists t :: t in ts && t.key == Some(row.schoolId) && Get(s.schools, row.schoolId).Some?
                  && row == PerformanceRowOf(s, t, row.schoolId, Get(s.schools, row.schoolId).value)
    ensures forall t :: t in ts && t.key.Some? && Get(s.schools, t.key.value).Some? ==>
      PerformanceRowOf(s, t, t.key.value, Get(s.schools, t.key.value).value) in r
  {
    if ts == [] then []
    else
      var init, t := ts[..|ts| - 1], ts[|ts| - 1];
      assert forall u :: u in ts <==> u in init || u == t;
      var rest := PerformanceRows(s, init);
      if t.key.Some? && Get(s.schools, t.key.value).Some? then
        rest + [PerformanceRowOf(s, t, t.key.value, Get(s.schools, t.key.value).value)]
      else rest
  }

  function TotalSalesOf(row: PerformanceRow): real
  {
    row.totalSales
  }

  /** `schoolPerformance`: the per-school rows, largest sales first. */
  function SchoolPerformance(s: Snapshot, caller: Option<Caller>, window: DateRange): (r: seq<PerformanceRow>)
    ensures SortedDesc(r, TotalSalesOf)
    ensures multiset(r) == multiset(PerformanceRows(s, GroupInvoices(PerformanceMatch(s, caller, window), SchoolKey)))
  {
    SortDesc(PerformanceRows(s, GroupInvoices(PerformanceMatch(s, caller, window), SchoolKey)), TotalSalesOf)
  }

  /** A row of the join is the join of the group of its school. */
  lemma PerformanceRowExact(s: Snapshot, invs: seq<Invoice>, row: PerformanceRow)
    requires row in PerformanceRows(s, GroupInvoices(invs, SchoolKey))
    ensures Get(s.schools, row.schoolId).Some?
    ensures var t := TallyOf(invs, SchoolKey, Some(row.schoolId));
      t.count > 0 && row == PerformanceRowOf(s, t, row.schoolId, Get(s.schools, row.schoolId).value)
  {
    var gs := GroupInvoices(invs, SchoolKey);
    GroupExact(invs, SchoolKey);
    var t :| t in gs && t.key == Some(row.schoolId) && Get(s.schools, row.schoolId).Some?
      && row == PerformanceRowOf(s, t, row.schoolId, Get(s.schools, row.schoolId).value);
  }

  /** Each school performance row is an existing school with the sums
      and count of its matched invoices (at least one), its active
      students, and an average that times the count gives the sales. */
  lemma SchoolPerformanceRow(s: Snapshot, caller: Option<Caller>, window: DateRange, row: PerformanceRow)
    requires row in SchoolPerformance(s, caller, window)
    ensures var t := TallyOf(PerformanceMatch(s, caller, window), SchoolKey, Some(row.schoolId));
      Has(s.schools, row.schoolId)
      && row.totalSales == t.totalSales && row.totalCommission == t.totalCommission
      && row.invoiceCount == t.count && row.invoiceCount > 0
      && row.averageSalePerInvoice == row.totalSales / (row.invoiceCount as real)
      && row.totalStudents == |SchoolController.Enrolled(s, row.schoolId)|
  {
    var invs := PerformanceMatch(s, caller, window);
    assert row in multiset(PerformanceRows(s, GroupInvoices(invs, SchoolKey)));
    PerformanceRowExact(s, invs, row);
  }

  /** Every existing school with a matched invoice has a row. */
  lemma SchoolPerformanceComplete(s: Snapshot, caller: Option<Caller>, window: DateRange, inv: Invoice)
    requires inv in PerformanceMatch(s, caller, window) && inv.school.Some? && Has(s.schools, inv.school.value)
    ensures exists row :: row in SchoolPerformance(s, caller, window) && row.schoolId == inv.school.value
  {
    var invs := PerformanceMatch(s, caller, window);
    var gs := GroupInvoices(invs, SchoolKey);
    GroupExact(invs, SchoolKey);
    var i :| 0 <= i < |invs| && invs[i] == inv;
    var t := TallyOf(invs, SchoolKey, SchoolKey(invs[i]));
    assert t in gs;
    var row := PerformanceRowOf(s, t, inv.school.value, Get(s.schools, inv.school.value).value);
    assert row in multiset(PerformanceRows(s, gs));
  }

  /** A restricted caller sees rows only for schools it created, and no
      row at all when it created no school. */
  lemma SchoolPerformanceScoped(s: Snapshot, caller: Option<Caller>, window: DateRange)
    requires Restricted(caller)
    ensures forall row :: row in SchoolPerformance(s, caller, window) ==>
      exists k :: 0 <= k < |s.schools| && s.schools[k].id == row.schoolId && s.schools[k].body.createdBy == Some(caller.value.id)
    ensures (forall k :: 0 <= k < |s.schools| ==> s.schools[k].body.createdBy != Some(caller.value.id)) ==>
      forall row :: row !in SchoolPerformance(s, caller, window)
  {
    var invs := PerformanceMatch(s, caller, window);
    forall row | row in SchoolPerformance(s, caller, window)
      ensures exists k :: 0 <= k < |s.schools| && s.schools[k].id == row.schoolId && s.schools[k].body.createdBy == Some(caller.value.id)
    {
      assert row in multiset(PerformanceRows(s, GroupInvoices(invs, SchoolKey)));
      PerformanceRowExact(s, invs, row);
      var m := Matching(invs, SchoolKey, Some(row.schoolId));
      MatchingMembers(invs, SchoolKey, Some(row.schoolId));
      assert m[0] in m;
    }
  }

  /** One output document of the per-class `$group`: the school and class,
      the sales and the number of distinct students who bought. */
  datatype ClassRow = ClassRow(school: Id, schoolName: string, className: string, totalSales: real, studentCount: nat)

  /** The class of an invoice's student (`$lookup` of the student). */
  function ClassOf(students: seq<Doc<StudentModel.Student>>, inv: Invoice): string
  {
    match Get(students, inv.student)
    case None => ""
    case Some(st) => st.className
  }

  /** The per-class group key `{school, class}`. */
  function ClassKey(students: seq<Doc<StudentModel.Student>>): Invoice -> (Option<Id>, string)
  {
    (inv: Invoice) => (inv.school, ClassOf(students, inv))
  }

  function StudentOf(inv: Invoice): Id
  {
    inv.student
  }

  /** `$unwind: '$studentInfo'` drops the invoices whose student no longer
      exists. */
  function Attended(s: Snapshot, invs: seq<Invoice>): (r: seq<Invoice>)
    ensures forall inv :: inv in r <==> inv in invs && Has(s.students, inv.student)
  {
    Filter(invs, (inv: Invoice) => Has(s.students, inv.student))
  }

  /** The row of one `{school, class}` group of an existing school. */
  function ClassRowOf(s: Snapshot, invs: seq<Invoice>, k: (Option<Id>, string), id: Id, school: SchoolModel.School): ClassRow
  {
    var m := Matching(invs, ClassKey(s.students), k);
    ClassRow(id, school.name, k.1, Sum(m, SchoolController.TotalAmount), |KeysOf(m, StudentOf)|)
  }

  /** One row per key whose school exists (`$lookup` then `$unwind` of the
      school). */
  function ClassRows(s: Snapshot, invs: seq<Invoice>, ks: seq<(Option<Id>, string)>): (r: seq<ClassRow>)
    ensures forall row :: row in r ==>
      (Some(row.school), row.className) in ks && Get(s.schools, row.school).Some?
      && row == ClassRowOf(s, invs, (Some(row.school), row.className), row.school, Get(s.schools, row.school).value)
    ensures forall k :: k in ks && k.0.Some? && Get(s.schools, k.0.value).Some? ==>
      ClassRowOf(s, invs, k, k.0.value, Get(s.schools, k.0.value).value) in r
  {
    if ks == [] then []
    else
      var init, k := ks[..|ks| - 1], ks[|ks| - 1];
      assert forall u :: u in ks <==> u in init || u == k;
      var rest := ClassRows(s, invs, init);
      if k.0.Some? && Get(s.schools, k.0.value).Some? then
        rest + [ClassRowOf(s, invs, k, k.0.value, Get(s.schools, k.0.value).value)]
      else rest
  }

  /** `classWisePerformance` before its final sort. */
  function ClassWisePerformance(s: Snapshot, caller: Option<Caller>, window: DateRange): seq<ClassRow>
  {
    var attended := Attended(s, PerformanceMatch(s, caller, window));
    ClassRows(s, attended, KeysOf(attended, ClassKey(s.students)))
  }

  /** Each class row is an existing school and a class in which at least
      one matched invoice's student is enrolled: the sales of those
      invoices and the number of distinct students among them, at least one
      and at most the number of invoices. Every matched invoice of an
      existing student and an existing school has the row of its class. */
  lemma ClassWiseRows(s: Snapshot, caller: Option<Caller>, window: DateRange)
    ensures var attended := Attended(s, PerformanceMatch(s, caller, window));
      forall row :: row in ClassWisePerformance(s, caller, window) ==>
        var m := Matching(attended, ClassKey(s.students), (Some(row.school), row.className));
        Has(s.schools, row.school)
        && row.totalSales == Sum(m, SchoolController.TotalAmount)
        && 1 <= row.studentCount <= |m|
        && (forall inv :: inv in m ==> inv.school == Some(row.school) && ClassOf(s.students, inv) == row.className
                                        && Has(s.students, inv.student))
    ensures forall inv :: inv in PerformanceMatch(s, caller, window) && Has(s.students, inv.student)
                          && inv.school.Some? && Has(s.schools, inv.school.value) ==>
      exists row :: row in ClassWisePerformance(s, caller, window)
                    && row.school == inv.school.value && row.className == ClassOf(s.students, inv)
  {
    var attended := Attended(s, PerformanceMatch(s, caller, window));
    var key := ClassKey(s.students);
    var ks := KeysOf(attended, key);
    forall row | row in ClassWisePerformance(s, caller, window)
      ensures var m := Matching(attended, key, (Some(row.school), row.className));
        Has(s.schools, row.school)
        && row.totalSales == Sum(m, SchoolController.TotalAmount)
        && 1 <= row.studentCount <= |m|
        && (forall inv :: inv in m ==> inv.school == Some(row.school) && ClassOf(s.students, inv) == row.className
                                        && Has(s.students, inv.student))
    {
      var k := (Some(row.school), row.className);
      KeySelects(attended, key, k);
      MatchingMembers(attended, key, k);
    }
    forall inv | inv in PerformanceMatch(s, caller, window) && Has(s.students, inv.student)
                 && inv.school.Some? && Has(s.schools, inv.school.value)
      ensures exists row :: row in ClassWisePerformance(s, caller, window)
                            && row.school == inv.school.value && row.className == ClassOf(s.students, inv)
    {
      var i :| 0 <= i < |attended| && attended[i] == inv;
      var k := key(inv);
      assert k in ks;
      var row := ClassRowOf(s, attended, k, k.0.value, Get(s.schools, k.0.value).value);
      assert row in ClassWisePerformance(s, caller, window);
    }
  }

  // ---------------------------------------------------------------------
  // getInventoryValuation

  /** `Product.find({isActive: true})`, with `createdBy` set to the caller
      for a restricted caller. */
  function Listed(s: Snapshot, caller: Option<Caller>): (r: seq<Doc<Product>>)
    ensures forall d :: d in r <==> d in s.products && d.body.isActive && MayTouch(caller, d.body.createdBy)
  {
    Filter(s.products, (d: Doc<Product>) => d.body.isActive && MayTouch(caller, d.body.createdBy))
  }

  /** One entry of `products`: the stock's value at base price and whether
      it is at or below the reorder threshold. */
  datatype Detail = Detail(
    id: Id,
    name: string,
    sku: string,
    category: string,
    stock: int,
    minStockLevel: int,
    basePrice: real,
    sellingPrice: real,
    totalValue: real,
    stockStatus: string)

  /** `product.stock * product.basePrice`. */
  function Value(d: Doc<Product>): real
  {
    d.body.stock as real * d.body.basePrice
  }

  function Stock(d: Doc<Product>): int
  {
    d.body.stock
  }

  function DetailOf(d: Doc<Product>, categoryName: string): Detail
  {
    var p := d.body;
    Detail(d.id, p.name, p.sku, categoryName, p.stock, p.minStockLevel, p.basePrice, p.sellingPrice,
           p.stock as real * p.basePrice, if p.stock <= p.minStockLevel then "low" else "adequate")
  }

  function DetailValue(d: Detail): real
  {
    d.totalValue
  }

  function DetailStock(d: Detail): int
  {
    d.stock
  }

  predicate IsLow(d: Detail)
  {
    d.stockStatus == "low"
  }

  /** `products.map(...)` after `populate('category', 'name')`: reading
      `product.category.name` throws when the category no longer exists, so
      there are details exactly when every product's category exists. */
  function Details(categories: seq<Doc<CategoryModel.Category>>, ps: seq<Doc<Product>>): (r: Option<seq<Detail>>)
    ensures r.Some? <==> forall d :: d in ps ==> Has(categories, d.body.category)
    ensures r.Some? ==> |r.value| == |ps|
  {
    if ps == [] then Some([])
    else
      var init, d := ps[..|ps| - 1], ps[|ps| - 1];
      assert forall x :: x in ps <==> x in init || x == d;
      match Details(categories, init)
      case None => None
      case Some(ds) =>
        match Get(categories, d.body.category)
        case None => None
        case Some(c) => Some(ds + [DetailOf(d, c.name)])
  }

  /** Appending a product whose category exists appends its detail. */
  lemma DetailsSnoc(categories: seq<Doc<CategoryModel.Category>>, ps: seq<Doc<Product>>, d: Doc<Product>)
    requires Details(categories, ps).Some? && Has(categories, d.body.category)
    ensures Details(categories, ps + [d])
         == Some(Details(categories, ps).value + [DetailOf(d, Get(categories, d.body.category).value.name)])
  {
    assert (ps + [d])[..|ps|] == ps;
  }

  /** A product whose category is gone leaves the whole list without
      details. */
  lemma DetailsMissing(categories: seq<Doc<CategoryModel.Category>>, ps: seq<Doc<Product>>, i: nat)
    requires i < |ps| && !Has(categories, ps[i].body.category)
    ensures Details(categories, ps).None?
  {
    assert ps[i] in ps;
  }

  /** One more product of the list extends its details. */
  lemma DetailsStep(categories: seq<Doc<CategoryModel.Category>>, ps: seq<Doc<Product>>, i: nat, ds: seq<Detail>)
    requires i < |ps| && Details(categories, ps[..i]) == Some(ds) && Has(categories, ps[i].body.category)
    ensures Details(categories, ps[..i + 1])
         == Some(ds + [DetailOf(ps[i], Get(categories, ps[i].body.category).value.name)])
  {
    var init, d := ps[..i], ps[i];
    PrefixSnoc(ps, i);
    DetailsSnoc(categories, init, d);
  }

  /** One more product of the list extends both running totals. */
  lemma TotalsStep(ps: seq<Doc<Product>>, i: nat)
    requires i < |ps|
    ensures Sum(ps[..i + 1], Value) == Sum(ps[..i], Value) + Value(ps[i])
    ensures SumInt(ps[..i + 1], Stock) == SumInt(ps[..i], Stock) + Stock(ps[i])
  {
    PrefixSnoc(ps, i);
    SumSnoc(ps[..i], ps[i], Value);
    SumIntSnoc(ps[..i], ps[i], Stock);
  }

  /** The detail at each position is that of the product at the same
      position. */
  lemma {:induction false} DetailAt(categories: seq<Doc<CategoryModel.Category>>, ps: seq<Doc<Product>>, i: nat)
    requires Details(categories, ps).Some? && i < |ps|
    ensures Has(categories, ps[i].body.category)
    ensures Details(categories, ps).value[i] == DetailOf(ps[i], Get(categories, ps[i].body.category).value.name)
  {
    var init := ps[..|ps| - 1];
    assert ps == init + [ps[|ps| - 1]];
    assert ps[i] in ps;
    DetailsSnoc(categories, init, ps[|ps| - 1]);
    if i < |init| {
      DetailAt(categories, init, i);
      assert init[i] == ps[i];
    }
  }

  /** The running totals over the products are the totals over their
      details. */
  lemma {:induction false} DetailTotals(categories: seq<Doc<CategoryModel.Category>>, ps: seq<Doc<Product>>)
    requires Details(categories, ps).Some?
    ensures Sum(Details(categories, ps).value, DetailValue) == Sum(ps, Value)
    ensures SumInt(Details(categories, ps).value, DetailStock) == SumInt(ps, Stock)
  {
    if ps != [] {
      var init, d := ps[..|ps| - 1], ps[|ps| - 1];
      assert forall x :: x in init ==> x in ps;
      DetailTotals(categories, init);
      var ds := Details(categories, init).value;
      var last := DetailOf(d, Get(categories, d.body.category).value.name);
      SumSnoc(ds, last, DetailValue);
      SumIntSnoc(ds, last, DetailStock);
    }
  }

  /** One output document of the per-category `$group` joined with its
      category. */
  datatype CategoryRow = CategoryRow(category: Id, categoryName: string, totalStock: int, totalValue: real, productCount: nat)

  function CategoryOf(d: Doc<Product>): Id
  {
    d.body.category
  }

  function CategoryRowOf(ps: seq<Doc<Product>>, k: Id, c: CategoryModel.Category): CategoryRow
  {
    var m := Matching(ps, CategoryOf, k);
    CategoryRow(k, c.name, SumInt(m, Stock), Sum(m, Value), |m|)
  }

  /** `$lookup` of each group's category then `$unwind`: a group whose
      category no longer exists is dropped. */
  function CategoryRows(categories: seq<Doc<CategoryModel.Category>>, ps: seq<Doc<Product>>, ks: seq<Id>): (r: seq<CategoryRow>)
    ensures forall row :: row in r ==>
      row.category in ks && Get(categories, row.category).Some?
      && row == CategoryRowOf(ps, row.category, Get(categories, row.category).value)
    ensures forall k :: k in ks && Get(categories, k).Some? ==> CategoryRowOf(ps, k, Get(categories, k).value) in r
  {
    if ks == [] then []
    else
      var init, k := ks[..|ks| - 1], ks[|ks| - 1];
      assert forall x :: x in ks <==> x in init || x == k;
      var rest := CategoryRows(categories, ps, init);
      if Get(categories, k).Some? then rest + [CategoryRowOf(ps, k, Get(categories, k).value)] else rest
  }

  function RowValue(row: CategoryRow): real
  {
    row.totalValue
  }

  /** `categoryWiseValuation`: the per-category rows, largest value first. */
  function CategoryValuation(categories: seq<Doc<CategoryModel.Category>>, ps: seq<Doc<Product>>): (r: seq<CategoryRow>)
    ensures SortedDesc(r, RowValue)
    ensures multiset(r) == multiset(CategoryRows(categories, ps, KeysOf(ps, CategoryOf)))
  {
    SortDesc(CategoryRows(categories, ps, KeysOf(ps, CategoryOf)), RowValue)
  }

  /** Each category row is an existing category with the stock, value and
      number of the listed products in it (at least one), and every listed
      product's existing category has its row. */
  lemma CategoryValuationRows(categories: seq<Doc<CategoryModel.Category>>, ps: seq<Doc<Product>>)
    ensures forall row :: row in CategoryValuation(categories, ps) ==>
      var m := Matching(ps, CategoryOf, row.category);
      Has(categories, row.category) && row.productCount == |m| > 0
      && row.totalStock == SumInt(m, Stock) && row.totalValue == Sum(m, Value)
      && (forall d :: d in m ==> d in ps && d.body.category == row.category)
    ensures forall d :: d in ps && Has(categories, d.body.category) ==>
      exists row :: row in CategoryValuation(categories, ps) && row.category == d.body.category
  {
    var rows := CategoryRows(categories, ps, KeysOf(ps, CategoryOf));
    forall row | row in CategoryValuation(categories, ps)
      ensures var m := Matching(ps, CategoryOf, row.category);
        Has(categories, row.category) && row.productCount == |m| > 0
        && row.totalStock == SumInt(m, Stock) && row.totalValue == Sum(m, Value)
        && (forall d :: d in m ==> d in ps && d.body.category == row.category)
    {
      assert row in multiset(rows);
      KeySelects(ps, CategoryOf, row.category);
      MatchingMembers(ps, CategoryOf, row.category);
    }
    forall d | d in ps && Has(categories, d.body.category)
      ensures exists row :: row in CategoryValuation(categories, ps) && row.category == d.body.category
    {
      var i :| 0 <= i < |ps| && ps[i] == d;
      assert CategoryOf(ps[i]) in KeysOf(ps, CategoryOf);
      var row := CategoryRowOf(ps, d.body.category, Get(categories, d.body.category).value);
      assert row in multiset(rows);
    }
  }

  datatype Valuation = Valuation(
    totalProducts: nat,
    totalStock: int,
    totalValue: real,
    lowStockCount: nat,
    products: seq<Detail>,
    categoryWise: seq<CategoryRow>,
    lowStockProducts: seq<Detail>)

  /** The `TypeError` of `product.category.name` on a product whose
      category is gone, answered 500. */
  const MissingCategory: Failure := ServerError("Cannot read properties of null (reading 'name')")

  /** `getInventoryValuation`: it fails exactly when a listed product's
      category is gone. */
  function ValuationOf(s: Snapshot, caller: Option<Caller>): (r: Result<Valuation>)
    ensures r.Fail? <==> exists d :: d in Listed(s, caller) && !Has(s.categories, d.body.category)
  {
    var ps := Listed(s, caller);
    match Details(s.categories, ps)
    case None => Fail(MissingCategory)
    case Some(ds) =>
      var low := Filter(ds, IsLow);
      Ok(Valuation(|ps|, SumInt(ps, Stock), Sum(ps, Value), |low|, ds, CategoryValuation(s.categories, ps), low))
  }

  /** `getInventoryValuation`: one pass over the listed products that builds
      the details and the running stock and value totals. */
  method InventoryValuation(db: Store, caller: Option<Caller>) returns (r: Result<Valuation>)
    ensures r == ValuationOf(db.State(), caller)
  {
    var cats := db.categories;
    var ps := Listed(db.State(), caller);
    var totalValue, totalStock := 0.0, 0;
    var details: seq<Detail> := [];
    var i := 0;
    while i < |ps|
      invariant 0 <= i <= |ps|
      invariant totalValue == Sum(ps[..i], Value)
      invariant totalStock == SumInt(ps[..i], Stock)
      invariant Details(cats, ps[..i]) == Some(details)
    {
      var d := ps[i];
      var c := Get(cats, d.body.category);
      if c.None? {
        DetailsMissing(cats, ps, i);
        return Fail(MissingCategory);
      }
      DetailsStep(cats, ps, i, details);
      TotalsStep(ps, i);
      details := details + [DetailOf(d, c.value.name)];
      totalValue := totalValue + Value(d);
      totalStock := totalStock + Stock(d);
      i := i + 1;
    }
    assert ps[..i] == ps;
    var low := Filter(details, IsLow);
    return Ok(Valuation(|ps|, totalStock, totalValue, |low|, details, CategoryValuation(cats, ps), low));
  }

  /** The figures of a valuation that went through: one detail per listed
      product, the summary totals are the totals of the details, and the
      low-stock list holds exactly the details marked "low". */
  lemma ValuationFigures(s: Snapshot, caller: Option<Caller>)
    requires ValuationOf(s, caller).Ok?
    ensures var v := ValuationOf(s, caller).value;
      v.totalProducts == |v.products| == |Listed(s, caller)|
      && v.totalValue == Sum(v.products, DetailValue)
      && v.totalStock == SumInt(v.products, DetailStock)
      && v.lowStockCount == |v.lowStockProducts| == Count(v.products, IsLow)
      && (forall x :: x in v.lowStockProducts <==> x in v.products && IsLow(x))
  {
    var ps := Listed(s, caller);
    var ds := Details(s.categories, ps).value;
    var low := Filter(ds, IsLow);
    assert ValuationOf(s, caller).value
        == Valuation(|ps|, SumInt(ps, Stock), Sum(ps, Value), |low|, ds, CategoryValuation(s.categories, ps), low);
    DetailTotals(s.categories, ps);
    forall x | x in ds && IsLow(x) ensures x in low {
      var k :| 0 <= k < |ds| && ds[k] == x;
    }
  }

  /** The detail of each listed product: its id, SKU and stock, the name of
      its category, its value at base price, and "low" exactly when the
      stock is at or below the threshold. */
  lemma ValuationDetail(s: Snapshot, caller: Option<Caller>, i: nat)
    requires ValuationOf(s, caller).Ok? && i < |Listed(s, caller)|
    ensures var ps := Listed(s, caller); var x := ValuationOf(s, caller).value.products[i];
      x.id == ps[i].id && x.sku == ps[i].body.sku && x.stock == ps[i].body.stock
      && Has(s.categories, ps[i].body.category)
      && x.category == Get(s.categories, ps[i].body.category).value.name
      && x.totalValue == ps[i].body.stock as real * ps[i].body.basePrice
      && (IsLow(x) <==> Low(ps[i].body))
  {
    DetailAt(s.categories, Listed(s, caller), i);
  }
}
