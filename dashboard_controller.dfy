/** The back-office dashboard summary: today's and this month's sales,
    low-stock alerts, pending commissions, the latest invoices and the
    month's best schools, under the same school scope as the sales report. */
module DashboardController {
  import opened Common
  import opened Tables
  import opened Aggregate
  import opened Access
  import opened Database
  import SchoolModel
  import opened ProductModel
  import opened InvoiceModel
  import CommissionModel
  import SchoolController
  import ReportController

  // ---------------------------------------------------------------------
  // Scope and matches

  /** The school condition of every invoice and commission figure: the
      caller's own schools when it is restricted and created at least one,
      and no condition otherwise. */
  function Scope(s: Snapshot, caller: Option<Caller>): Option<seq<Id>>
  {
    ReportController.SalesScope(OwnedSchoolIds(caller, s.schools))
  }

  /** `{invoiceDate: {$gte: startOfMonth, $lte: endOfMonth}}`: dated in the
      calendar month of today. */
  predicate SameMonth(d: Date, today: Date)
  {
    d.year == today.year && d.month == today.month
  }

  /** `todayMatchScoped`: invoices dated today or later. */
  function TodayInvoices(s: Snapshot, caller: Option<Caller>, today: Date): (r: seq<Invoice>)
    ensures forall inv :: inv in r <==>
      inv in Bodies(s.invoices) && OnOrBefore(today, inv.invoiceDate) && ReportController.InScope(inv.school, Scope(s, caller))
  {
    var scope := Scope(s, caller);
    Filter(Bodies(s.invoices), (inv: Invoice) => OnOrBefore(today, inv.invoiceDate) && ReportController.InScope(inv.school, scope))
  }

  /** `monthMatchScoped` (and `overviewMatchScoped`, which is the same). */
  function MonthInvoices(s: Snapshot, caller: Option<Caller>, today: Date): (r: seq<Invoice>)
    ensures forall inv :: inv in r <==>
      inv in Bodies(s.invoices) && SameMonth(inv.invoiceDate, today) && ReportController.InScope(inv.school, Scope(s, caller))
  {
    var scope := Scope(s, caller);
    Filter(Bodies(s.invoices), (inv: Invoice) => SameMonth(inv.invoiceDate, today) && ReportController.InScope(inv.school, scope))
  }

  function CommissionAmountOf(c: CommissionModel.Commission): real
  {
    c.commissionAmount
  }

  /** `pendingMatchScoped`: pending commissions of the scope's schools. */
  function PendingCommissions(s: Snapshot, caller: Option<Caller>): (r: seq<CommissionModel.Commission>)
    ensures forall c :: c in r <==>
      c in Bodies(s.commissions) && c.status == CommissionModel.Pending && ReportController.InScope(Some(c.school), Scope(s, caller))
  {
    var scope := Scope(s, caller);
    Filter(Bodies(s.commissions),
           (c: CommissionModel.Commission) => c.status == CommissionModel.Pending && ReportController.InScope(Some(c.school), scope))
  }

  // ---------------------------------------------------------------------
  // Figures

  /** `{amount: group[0]?.totalAmount || 0, count: group[0]?.count || 0}`. */
  datatype Figure = Figure(amount: real, count: nat)

  /** The one `$group: {_id: null}` document, or zeros when nothing
      matched; the zeros agree with the sum and count of no documents. */
  function FigureOf<T>(xs: seq<T>, f: T -> real): (r: Figure)
    ensures r == Figure(Sum(xs, f), |xs|)
    ensures xs == [] ==> r == Figure(0.0, 0)
  {
    if xs == [] then Figure(0.0, 0) else Figure(Sum(xs, f), |xs|)
  }

  // ---------------------------------------------------------------------
  // Low-stock alerts

  /** `select('name sku stock minStockLevel')`. */
  datatype Alert = Alert(id: Id, name: string, sku: string, stock: int, minStockLevel: int)

  function AlertOf(d: Doc<Product>): Alert
  {
    Alert(d.id, d.body.name, d.body.sku, d.body.stock, d.body.minStockLevel)
  }

  const AlertLimit: nat := 10

  /** The products a low-stock alert is about: active, at or below the
      threshold and, for a restricted caller, its own. */
  predicate Alarming(caller: Option<Caller>, d: Doc<Product>)
  {
    d.body.isActive && Low(d.body) && MayTouch(caller, d.body.createdBy)
  }

  function Alerts(ps: seq<Doc<Product>>): (r: seq<Alert>)
    ensures |r| == |ps| && forall i :: 0 <= i < |ps| ==> r[i] == AlertOf(ps[i])
  {
    seq(|ps|, i requires 0 <= i < |ps| => AlertOf(ps[i]))
  }

  /** `Product.find(productQuery).limit(10)`: at most ten alerts, each about
      an alarming product, and all of them when there are fewer than ten. */
  function LowStockAlerts(s: Snapshot, caller: Option<Caller>): (r: seq<Alert>)
    ensures |r| <= AlertLimit
    ensures forall a :: a in r ==> exists d :: d in s.products && Alarming(caller, d) && a == AlertOf(d)
    ensures |r| < AlertLimit ==> forall d :: d in s.products && Alarming(caller, d) ==> AlertOf(d) in r
  {
    var hits := Filter(s.products, (d: Doc<Product>) => Alarming(caller, d));
    var kept := Take(hits, AlertLimit);
    var r := Alerts(kept);
    assert forall a :: a in r ==> exists i :: 0 <= i < |kept| && a == AlertOf(kept[i]);
    assert forall i :: 0 <= i < |kept| ==> kept[i] in hits;
    if |r| < AlertLimit then
      assert kept == hits;
      assert forall d :: d in hits ==> exists i :: 0 <= i < |hits| && hits[i] == d && r[i] == AlertOf(d);
      r
    else r
  }

  // ---------------------------------------------------------------------
  // Recent invoices

  const RecentLimit: nat := 10

  /** The `invoiceDate: -1` sort key. */
  function DateKey(inv: Invoice): real
  {
    DayNumber(inv.invoiceDate) as real
  }

  /** The invoices `recentQuery` admits: the scope's, or all of them. */
  function Scoped(s: Snapshot, caller: Option<Caller>): (r: seq<Invoice>)
    ensures forall inv :: inv in r <==> inv in Bodies(s.invoices) && ReportController.InScope(inv.school, Scope(s, caller))
  {
    var scope := Scope(s, caller);
    Filter(Bodies(s.invoices), (inv: Invoice) => ReportController.InScope(inv.school, scope))
  }

  /** `recentInvoices`: at most ten scoped invoices, latest first. */
  function RecentInvoices(s: Snapshot, caller: Option<Caller>): (r: seq<Invoice>)
    ensures |r| <= RecentLimit
    ensures SortedDesc(r, DateKey)
    ensures forall inv :: inv in r ==> inv in Bodies(s.invoices) && ReportController.InScope(inv.school, Scope(s, caller))
  {
    var scoped := Scoped(s, caller);
    TopMembers(scoped, DateKey, RecentLimit);
    Take(SortDesc(scoped, DateKey), RecentLimit)
  }

  /** A scoped invoice left out of the recent invoices is dated no later
      than any of them, and there are then ten of them. */
  lemma RecentAreLatest(s: Snapshot, caller: Option<Caller>, inv: Invoice)
    requires inv in Bodies(s.invoices) && ReportController.InScope(inv.school, Scope(s, caller))
    ensures var r := RecentInvoices(s, caller);
      inv in r || (|r| == RecentLimit && forall x :: x in r ==> OnOrBefore(inv.invoiceDate, x.invoiceDate))
  {
    TopOrOutranked(Scoped(s, caller), DateKey, RecentLimit, inv);
    forall x | x in RecentInvoices(s, caller) {
      DayNumberOrder(inv.invoiceDate, x.invoiceDate);
    }
  }

  // ---------------------------------------------------------------------
  // School overview

  datatype OverviewRow = OverviewRow(
    schoolId: Id,
    schoolName: string,
    schoolCode: string,
    totalSales: real,
    totalCommission: real,
    invoiceCount: nat)

  function OverviewRowOf(t: ReportController.Tally<Option<Id>>, id: Id, school: SchoolModel.School): OverviewRow
  {
    OverviewRow(id, school.name, school.code, t.totalSales, t.totalCommission, t.count)
  }

  /** `$lookup` of each group's school then `$unwind`: groups without an
      existing school are dropped. */
  function OverviewRows(s: Snapshot, ts: seq<ReportController.Tally<Option<Id>>>): (r: seq<OverviewRow>)
    ensures forall row :: row in r ==>
      exists t :: t in ts && t.key == Some(row.schoolId) && Get(s.schools, row.schoolId).Some?
                  && row == OverviewRowOf(t, row.schoolId, Get(s.schools, row.schoolId).value)
    ensures forall t :: t in ts && t.key.Some? && Get(s.schools, t.key.value).Some? ==>
      OverviewRowOf(t, t.key.value, Get(s.schools, t.key.value).value) in r
  {
    if ts == [] then []
    else
      var init, t := ts[..|ts| - 1], ts[|ts| - 1];
      assert forall u :: u in ts <==> u in init || u == t;
      var rest := OverviewRows(s, init);
      if t.key.Some? && Get(s.schools, t.key.value).Some? then
        rest + [OverviewRowOf(t, t.key.value, Get(s.schools, t.key.value).value)]
      else rest
  }

  function OverviewSales(row: OverviewRow): real
  {
    row.totalSales
  }

  const OverviewLimit: nat := 10

  /** The month's per-school rows before `$sort` and `$limit`. */
  function MonthRows(s: Snapshot, caller: Option<Caller>, today: Date): seq<OverviewRow>
  {
    OverviewRows(s, ReportController.GroupInvoices(MonthInvoices(s, caller, today), ReportController.SchoolKey))
  }

  /** `schoolOverview`: at most ten schools, largest month sales first. */
  function SchoolOverview(s: Snapshot, caller: Option<Caller>, today: Date): (r: seq<OverviewRow>)
    ensures |r| <= OverviewLimit
    ensures SortedDesc(r, OverviewSales)
    ensures forall row :: row in r ==> row in MonthRows(s, caller, today)
  {
    var rows := MonthRows(s, caller, today);
    TopMembers(rows, OverviewSales, OverviewLimit);
    Take(SortDesc(rows, OverviewSales), OverviewLimit)
  }

  /** Each overview row is an existing school with the sums and count of its
      invoices of the month (at least one). */
  lemma OverviewRowExact(s: Snapshot, caller: Option<Caller>, today: Date, row: OverviewRow)
    requires row in SchoolOverview(s, caller, today)
    ensures var t := ReportController.TallyOf(MonthInvoices(s, caller, today), ReportController.SchoolKey, Some(row.schoolId));
      Has(s.schools, row.schoolId)
      && row.totalSales == t.totalSales && row.totalCommission == t.totalCommission
      && row.invoiceCount == t.count > 0
  {
    var invs := MonthInvoices(s, caller, today);
    ReportController.GroupExact(invs, ReportController.SchoolKey);
  }

  /** A school of the month's invoices that is left out of the overview
      sold no more than any school in it, and the overview is then full. */
  lemma OverviewIsTop(s: Snapshot, caller: Option<Caller>, today: Date, inv: Invoice)
    requires inv in MonthInvoices(s, caller, today) && inv.school.Some? && Has(s.schools, inv.school.value)
    ensures var r := SchoolOverview(s, caller, today);
      var t := ReportController.TallyOf(MonthInvoices(s, caller, today), ReportController.SchoolKey, inv.school);
      (exists row :: row in r && row.schoolId == inv.school.value)
      || (|r| == OverviewLimit && forall row :: row in r ==> row.totalSales >= t.totalSales)
  {
    var invs := MonthInvoices(s, caller, today);
    ReportController.GroupExact(invs, ReportController.SchoolKey);
    var i :| 0 <= i < |invs| && invs[i] == inv;
    var t := ReportController.TallyOf(invs, ReportController.SchoolKey, inv.school);
    assert t in ReportController.GroupInvoices(invs, ReportController.SchoolKey);
    var row := OverviewRowOf(t, inv.school.value, Get(s.schools, inv.school.value).value);
    TopOrOutranked(MonthRows(s, caller, today), OverviewSales, OverviewLimit, row);
  }

  // ---------------------------------------------------------------------
  // getSummary

  datatype Summary = Summary(
    todaySales: Figure,
    monthSales: Figure,
    lowStockAlerts: seq<Alert>,
    pendingCommissions: Figure,
    recentInvoices: seq<Invoice>,
    schoolOverview: seq<OverviewRow>)

  /** `getSummary`. The clock is a parameter: `today` is the calendar date
      of the request. */
  function SummaryOf(s: Snapshot, caller: Option<Caller>, today: Date): (r: Summary)
    ensures r.todaySales == Figure(Sum(TodayInvoices(s, caller, today), SchoolController.TotalAmount),
                                   |TodayInvoices(s, caller, today)|)
    ensures r.monthSales == Figure(Sum(MonthInvoices(s, caller, today), SchoolController.TotalAmount),
                                   |MonthInvoices(s, caller, today)|)
    ensures r.pendingCommissions == Figure(Sum(PendingCommissions(s, caller), CommissionAmountOf),
                                           |PendingCommissions(s, caller)|)
    ensures |r.lowStockAlerts| <= AlertLimit && |r.recentInvoices| <= RecentLimit
            && |r.schoolOverview| <= OverviewLimit
  {
    Summary(FigureOf(TodayInvoices(s, caller, today), SchoolController.TotalAmount),
            FigureOf(MonthInvoices(s, caller, today), SchoolController.TotalAmount),
            LowStockAlerts(s, caller),
            FigureOf(PendingCommissions(s, caller), CommissionAmountOf),
            RecentInvoices(s, caller),
            SchoolOverview(s, caller, today))
  }

  /** A restricted admin that created no school sees every school's sales,
      pending commissions, recent invoices and overview, exactly as an
      unauthenticated request does; only its low-stock alerts stay limited
      to its own products. */
  lemma NoSchoolsSeesAll(s: Snapshot, caller: Option<Caller>, today: Date)
    requires Restricted(caller)
    requires forall k :: 0 <= k < |s.schools| ==> s.schools[k].body.createdBy != Some(caller.value.id)
    ensures var mine := SummaryOf(s, caller, today); var all := SummaryOf(s, None, today);
      mine.todaySales == all.todaySales && mine.monthSales == all.monthSales
      && mine.pendingCommissions == all.pendingCommissions
      && mine.recentInvoices == all.recentInvoices && mine.schoolOverview == all.schoolOverview
  {
    NoSchoolsIsEmptyNotNull(caller, s.schools);
    assert Scope(s, caller) == Scope(s, None);
  }

  /** The caller created the school. */
  predicate OwnSchool(s: Snapshot, caller: Option<Caller>, school: Option<Id>)
    requires caller.Some?
  {
    school.Some? && exists k :: 0 <= k < |s.schools| && s.schools[k].id == school.value
                                && s.schools[k].body.createdBy == Some(caller.value.id)
  }

  /** A restricted admin that created some school sees only the invoices
      and pending commissions of schools it created. */
  lemma OwnerSeesOwn(s: Snapshot, caller: Option<Caller>, today: Date)
    requires Restricted(caller)
    requires exists k :: 0 <= k < |s.schools| && s.schools[k].body.createdBy == Some(caller.value.id)
    ensures forall inv :: inv in TodayInvoices(s, caller, today) ==> OwnSchool(s, caller, inv.school)
    ensures forall inv :: inv in MonthInvoices(s, caller, today) ==> OwnSchool(s, caller, inv.school)
    ensures forall inv :: inv in RecentInvoices(s, caller) ==> OwnSchool(s, caller, inv.school)
    ensures forall c :: c in PendingCommissions(s, caller) ==> OwnSchool(s, caller, Some(c.school))
  {
    forall school: Option<Id> {
      ReportController.SalesScopeMeaning(s, caller, school);
    }
  }
}
