# Stationery back office: a verified model

This project models the core of a back office for a school-stationery
business: a REST API over MongoDB. Admins use it to keep schools, students,
product categories, products and suppliers. They record purchases from
suppliers, which add stock, and invoices to students, which take stock off
and accrue a commission for the student's school. They settle those
commissions and read sales, performance, inventory and dashboard reports.
Every request comes from an admin. A superadmin, or a request without an
admin, is unrestricted. Any other admin only reaches the records it
created, or the records of schools it created.

The model follows the handlers as written, one Dafny module per source
file:

- **Store.** The database is `Database.Store`, a class with one `seq` of
  `Doc(id, body)` per collection, in insertion order, and one identifier
  counter. `Consistent` is the invariant it keeps:
  - unique identifiers, all below the counter;
  - every document passes its schema;
  - the unique indexes on school code, category name, product SKU,
    supplier code, student roll number, invoice and purchase numbers and
    admin email hold.
- **Handlers.** Each handler that writes is a method with
  `modifies db`. It is proved equal to a function `…Outcome(snapshot,
  …)` that gives the answer and the new snapshot, and a lemma proves
  that the function keeps `Consistent`. Read-only handlers are
  functions over a snapshot.
- **Answers.** An answer is `Ok(value)` or `Fail(failure)`, where the
  failure is 400, 403, 404 or 500 with its message. A 500 stands for an
  exception that reaches the error middleware.
- **Schemas.** The `*Model` modules hold each schema: fields, defaults,
  trim/upper-case setters, bounds and enums. `Create` and `Update` state
  when a document is accepted and what is stored.
- **Loops.** The loops of `createInvoice`, `createPurchase`,
  `bulkUploadStudents` and `getInventoryValuation` are methods with loop
  invariants. Each is proved against a specification function, and the
  lemmas about that function carry the properties: stock ledgers,
  totals, balanced counts.
- **Aggregation pipelines.** The pipelines (`$match`, `$group`,
  `$lookup`/`$unwind`, `$sort`, `$limit`) are functions over sequences.
  Lemmas state what each group holds and that the groups add up to the
  totals.
- **Document numbers.** `Numbering` models the invoice and purchase
  numbers literally: `slice(-2)`, `padStart`, `slice(-4)`, `parseInt`.

The following behaviours of the source are modelled as written, not
corrected:

- An invoice never subtracts a discount, and it is always stored as paid.
- A stock failure partway through an invoice or a purchase leaves the
  earlier stock changes in place.
- The sales report and the dashboard drop the school scope when an admin
  owns no school. The school-performance report uses `$in: []` and so
  returns nothing in that case.
- The commission summary is not scoped to the caller.
- A category without a creator is listed to every admin, but only a
  superadmin may change or delete it.

One behaviour is modelled both ways: the monthly breakdown of a school's
commissions, which the program always leaves empty (see "## Findings").
`CommissionController.SchoolCommissionsAsWritten` models the program, and
`CommissionController.SchoolCommissions` the intended breakdown.

## Model

| member | source | states |
|---|---|---|
| SchoolController.ListSchools | controllers/school.controller.js:6-26 | exactly the schools the query selects: a restricted caller's own only; `isActive` compared with the text "true", so any other given value lists inactive schools |
| SchoolController.Enrolled | controllers/school.controller.js:70 | a student is counted exactly when it is in the school and active |
| SchoolController.ClassesOf | controllers/school.controller.js:72-85 | the group keys are every class of some active student, once each, strictly ascending |
| SchoolController.ClassBreakdownExact | controllers/school.controller.js:72-85 | one row per class, ascending, each counting its students (never zero), and every student's class has a row |
| SchoolController.SalesOf | controllers/school.controller.js:87-125 | the zero default when no invoice matched agrees with the sums and count over no invoices |
| SchoolController.SettlementHistory | controllers/school.controller.js:114-116 | at most ten of the school's settled commissions, each at most as often as it occurs, latest settlement first, and ten whenever there are that many |
| SchoolController.SettlementHistoryLatest | controllers/school.controller.js:114-116 | a settled commission left out of the history was settled no later than each listed one, and ten are listed |
| SchoolController.DashboardOf | controllers/school.controller.js:70-130 | active-student count, per-class counts that are never zero, the school's invoice count, history of at most ten |
| SchoolController.DashboardTotals | controllers/school.controller.js:87-129 | sales and both commission buckets are the sums and counts of the school's records, zero where there are none, and the buckets together count every commission of the school |
| SchoolController.SchoolById | controllers/school.controller.js:52-68 | 404 exactly when absent, 403 exactly when present but a restricted caller did not create it, otherwise the stored school with its dashboard |
| SchoolController.Stamped | controllers/school.controller.js:141-142 | the caller, when there is one, becomes the creator; otherwise the body is unchanged |
| SchoolController.CreateSchoolOutcome | controllers/school.controller.js:139-159 | stored under a fresh id with the caller as creator exactly when the schema accepts the body and the upper-cased code is unused; a used code answers 400 and nothing changes |
| SchoolController.CreateSchoolConsistent | controllers/school.controller.js:139-159 | creating a school keeps ids, schema and the unique code index intact |
| SchoolController.CreateSchool | controllers/school.controller.js:139-159 | the handler's answer and new store are those of `CreateSchoolOutcome`, and the store stays consistent |
| SchoolController.UpdateSchoolOutcome | controllers/school.controller.js:161-194 | 404, then 403, then the body's fields replace the stored ones in place; a request that passes both checks succeeds exactly when the merged fields are admissible and the code is held by no other school, a held code answers 500; a rejected or duplicate update changes nothing |
| SchoolController.UpdateSchoolConsistent | controllers/school.controller.js:161-194 | an update keeps the store consistent |
| SchoolController.UpdateSchool | controllers/school.controller.js:161-194 | the handler's answer and new store are those of `UpdateSchoolOutcome` |
| SchoolController.DeleteSchoolOutcome | controllers/school.controller.js:196-232 | 404, then 403, then 400 exactly while any student (active or not) is in the school; an owned school without students is always removed, and only that school |
| SchoolController.DeleteSchoolRemoves | controllers/school.controller.js:196-232 | a delete keeps the store consistent, the school is gone afterwards, and no student is left without its school |
| SchoolController.DeleteSchool | controllers/school.controller.js:196-232 | the handler's answer and new store are those of `DeleteSchoolOutcome` |
| CategoryController.ListCategories | controllers/category.controller.js:4-20 | exactly the categories a restricted caller created plus the creator-less ones (everything for others), by name ascending |
| CategoryController.Visible | controllers/category.controller.js:12-17 | a category is visible exactly when the caller may change it by the ownership rule or it has no creator |
| CategoryController.Stamped | controllers/category.controller.js:33-34 | the caller, when there is one, becomes the creator |
| CategoryController.CreateCategoryOutcome | controllers/category.controller.js:31-51 | stored with the caller as creator exactly when the schema accepts it and the name is unused; a used name answers 400 and nothing changes |
| CategoryController.CreateCategoryConsistent | controllers/category.controller.js:31-51 | creating a category keeps the store consistent |
| CategoryController.CreateCategory | controllers/category.controller.js:31-51 | the handler's answer and new store are those of `CreateCategoryOutcome` |
| CategoryController.UpdateCategoryOutcome | controllers/category.controller.js:53-83 | 404, then 403 (a creator-less category included), then the fields are replaced in place; past both checks it succeeds exactly when the merged name is valid and held by no other category, a held name answers 500 |
| CategoryController.UpdateCategoryConsistent | controllers/category.controller.js:53-83 | an update keeps the store consistent |
| CategoryController.UpdateCategory | controllers/category.controller.js:53-83 | the handler's answer and new store are those of `UpdateCategoryOutcome` |
| CategoryController.DeleteCategoryOutcome | controllers/category.controller.js:85-121 | 404, then 403, then 400 exactly while a product is in the category; an owned category without products is always removed, and only that category |
| CategoryController.DeleteCategoryRemoves | controllers/category.controller.js:85-121 | a delete keeps the store consistent, removes the category and leaves no product without its category |
| CategoryController.DeleteCategory | controllers/category.controller.js:85-121 | the handler's answer and new store are those of `DeleteCategoryOutcome` |
| CategoryController.GlobalReadOnly | controllers/category.controller.js:12-101 | a creator-less category is listed for a restricted caller, yet updating or deleting it answers 403 and changes nothing |
| ProductController.ListProducts | controllers/product.controller.js:4-30 | exactly the products the query selects (own products for a restricted caller, category, stock status, search) |
| ProductController.StockFilter | controllers/product.controller.js:19-23 | any stock status but "low" and "out" keeps every product, and an out-of-stock product with a non-negative threshold is also a low one |
| ProductController.StockStatusSemantics | controllers/product.controller.js:11-23 | "low" lists only products with stock at or below their threshold, "out" only products with no stock, a restricted caller only its own |
| ProductController.ProductById | controllers/product.controller.js:57-72 | 404 exactly when absent, 403 exactly when a restricted caller did not create it, otherwise the stored product |
| ProductController.Stamped | controllers/product.controller.js:94-95 | the caller, when there is one, becomes the creator |
| ProductController.CreateProductOutcome | controllers/product.controller.js:83-112 | 400 when the category is missing, before anything else; success exactly when the category exists, the body is admissible and its upper-cased SKU is unused, and a used SKU answers 400 exactly; stored with the caller as creator, and a failure changes nothing |
| ProductController.CreateProductConsistent | controllers/product.controller.js:83-112 | creating a product keeps the store consistent |
| ProductController.CreateProduct | controllers/product.controller.js:83-112 | the handler's answer and new store are those of `CreateProductOutcome` |
| ProductController.UpdateProductOutcome | controllers/product.controller.js:114-154 | a named category is checked first (400), then existence (404), then ownership (403); past those it succeeds exactly when the merged fields are admissible and the SKU is held by no other product, a held SKU answers 500; the fields are replaced in place |
| ProductController.UpdateProductConsistent | controllers/product.controller.js:114-154 | an update keeps the store consistent |
| ProductController.UpdateProduct | controllers/product.controller.js:114-154 | the handler's answer and new store are those of `UpdateProductOutcome` |
| ProductController.DeleteProductOutcome | controllers/product.controller.js:156-182 | 404, then 403, then an owned product is always removed, and only that product |
| ProductController.DeleteProductRemoves | controllers/product.controller.js:156-182 | a delete keeps the store consistent and removes the product |
| ProductController.DeleteProduct | controllers/product.controller.js:156-182 | the handler's answer and new store are those of `DeleteProductOutcome` |
| SupplierController.ListSuppliers | controllers/supplier.controller.js:3-8 | sorted by name; a supplier is listed exactly when a restricted caller created it (any supplier otherwise); an unrestricted caller gets every supplier |
| SupplierController.SupplierById | controllers/supplier.controller.js:19-43 | 404 exactly when absent, 403 exactly when a restricted caller did not create it, otherwise the stored supplier |
| SupplierController.Stamped | controllers/supplier.controller.js:47-48 | the caller, when there is one, becomes the creator |
| SupplierController.CreateSupplierOutcome | controllers/supplier.controller.js:45-64 | stored with the caller as creator exactly when the schema accepts it and the upper-cased code is unused; a used code answers 400 and nothing changes |
| SupplierController.CreateSupplierConsistent | controllers/supplier.controller.js:45-64 | creating a supplier keeps the store consistent |
| SupplierController.CreateSupplier | controllers/supplier.controller.js:45-64 | the handler's answer and new store are those of `CreateSupplierOutcome` |
| SupplierController.UpdateSupplierOutcome | controllers/supplier.controller.js:66-96 | 404, then 403, then the fields are replaced in place; past both checks it succeeds exactly when the merged fields are valid and the code is held by no other supplier, a held code answers 500 |
| SupplierController.UpdateSupplierConsistent | controllers/supplier.controller.js:66-96 | an update keeps the store consistent |
| SupplierController.UpdateSupplier | controllers/supplier.controller.js:66-96 | the handler's answer and new store are those of `UpdateSupplierOutcome` |
| SupplierController.DeleteSupplierOutcome | controllers/supplier.controller.js:98-124 | 404, then 403, then an owned supplier is always removed, and only that supplier |
| SupplierController.DeleteSupplierRemoves | controllers/supplier.controller.js:98-124 | a delete keeps the store consistent and removes the supplier |
| SupplierController.DeleteSupplier | controllers/supplier.controller.js:98-124 | the handler's answer and new store are those of `DeleteSupplierOutcome` |
| AdminController.CreateAdminOutcome | controllers/admin.controller.js:3-41 | 400 exactly when username, email or password is missing or empty; then 400 exactly when the email is taken; with all three given and the email unused it always succeeds, storing the admin with the given role or "admin" and answering id, username, email and role only; a failure changes nothing |
| AdminController.CreateAdminConsistent | controllers/admin.controller.js:16-30 | creation keeps the store consistent; the new admin is stored with the requested password and role (even "superadmin") and is the only holder of its email |
| AdminController.CreateAdmin | controllers/admin.controller.js:3-41 | the handler's answer and new store are those of `CreateAdminOutcome` |
| ReportController.SalesScopeMeaning | controllers/report.controller.js:37-46 | the sales scope admits every invoice for an unrestricted caller; exactly the invoices of its own schools for a restricted caller that created some; and every invoice for a restricted caller that created none |
| ReportController.SalesMatch | controllers/report.controller.js:8-46 | an invoice is matched exactly when it is in the date window and in the sales scope |
| ReportController.GroupExact | controllers/report.controller.js:50-58 | every `$group` output holds the sums and count of the invoices with its key (at least one), and every invoice's key has a group |
| ReportController.GroupAddsUp | controllers/report.controller.js:50-58 | the groups' sales, commissions and counts add up to those of all matched invoices |
| ReportController.TalliesAddUp | controllers/report.controller.js:50-58 | per-key tallies over the distinct keys add up to the totals of the invoices |
| ReportController.PermutedAddsUp | controllers/report.controller.js:60-62 | reordering the groups (the `$sort`) keeps them adding up |
| ReportController.DailySales | controllers/report.controller.js:48-63 | the per-day groups, earliest day first, and no other rows |
| ReportController.Unwind | controllers/report.controller.js:80-81 | every line of every matched invoice is in the unwound sequence, nothing else is, and its length is the invoices' line count |
| ReportController.ProductRows | controllers/report.controller.js:82-89 | one row per product key, each holding the first line's name and the sums of quantity and line total |
| ReportController.TopProducts | controllers/report.controller.js:77-96 | at most ten product rows, by revenue descending, each the row of a sold product |
| ReportController.ProductRowsExact | controllers/report.controller.js:82-89 | every product row is that product's group and at least one line was of it |
| ReportController.TopProductsLargest | controllers/report.controller.js:90-95 | a sold product missing from the top list earned no more than any listed product, and the list then has ten rows |
| ReportController.SalesReportFigures | controllers/report.controller.js:4-110 | the summary is the sums and count of the matched invoices (zeros when none); one daily row per day with a matched invoice, holding that day's sums; the daily rows add up to the summary; at most ten top products |
| ReportController.PerformanceMatch | controllers/report.controller.js:118-142 | in the window and, for a restricted caller, of a school it created; an empty owned list (`$in: []`) matches nothing |
| ReportController.PerformanceRows | controllers/report.controller.js:146-198 | one row per group whose school exists (the `$lookup`/`$unwind`), each the projection of that group and school; groups of missing schools are dropped |
| ReportController.SchoolPerformance | controllers/report.controller.js:144-203 | the per-school rows, sales descending, and no other rows |
| ReportController.PerformanceWindow | controllers/report.controller.js:122-127 | with both bounds every date in the closed range is matched and no other, and with either missing every date is |
| ReportController.PerformanceRowExact | controllers/report.controller.js:146-198 | a row is the projection of its school's group, which holds at least one invoice |
| ReportController.SchoolPerformanceRow | controllers/report.controller.js:146-198 | each row is an existing school with the sums and count of its matched invoices, its active-student count, and average sale = total sales / invoice count |
| ReportController.SchoolPerformanceComplete | controllers/report.controller.js:146-165 | every existing school with a matched invoice has a row |
| ReportController.SchoolPerformanceScoped | controllers/report.controller.js:132-142 | a restricted caller gets rows only for its own schools, and none at all when it created no school |
| ReportController.Attended | controllers/report.controller.js:210-219 | the invoices whose student still exists, and only those |
| ReportController.ClassRows | controllers/report.controller.js:220-256 | one row per `{school, class}` key whose school exists, holding the group's sales and distinct-student count, and no other row |
| ReportController.ClassWiseRows | controllers/report.controller.js:205-256 | each class row is an existing school and a class of its matched invoices' students: their sales and the number of distinct students, between one and the number of invoices; every matched invoice of an existing student and school has its class's row |
| ReportController.Listed | controllers/report.controller.js:276-281 | exactly the active products, a restricted caller's own only |
| ReportController.Details | controllers/report.controller.js:281-305 | details exist exactly when every listed product's category exists (otherwise reading the category's name throws), one per product |
| ReportController.DetailAt | controllers/report.controller.js:288-305 | the detail at each position is that product's, with its category's name |
| ReportController.DetailTotals | controllers/report.controller.js:285-291 | the running value and stock totals equal the totals over the details |
| ReportController.CategoryRows | controllers/report.controller.js:307-339 | one row per category key whose category exists, holding the stock, value and count of its products |
| ReportController.CategoryValuation | controllers/report.controller.js:307-343 | the per-category rows, value descending, and no other rows |
| ReportController.CategoryValuationRows | controllers/report.controller.js:307-343 | each row is an existing category with the stock, value (stock times base price) and number of listed products in it, and every listed product's category has a row |
| ReportController.InventoryValuation | controllers/report.controller.js:274-364 | the loop's details, stock total and value total are those of `ValuationOf`, and it answers 500 exactly where `ValuationOf` does |
| ReportController.ValuationOf | controllers/report.controller.js:274-304 | the valuation fails (500) exactly when some listed product's category is gone |
| ReportController.ValuationFigures | controllers/report.controller.js:274-360 | for a valuation that goes through: one detail per listed product, totals equal to the sums over the details, and the low-stock list and count exactly the details marked "low" |
| ReportController.ValuationDetail | controllers/report.controller.js:288-304 | each detail's value is stock times base price, its category name is its category's, and it is "low" exactly when stock is at or below the threshold |
| DashboardController.TodayInvoices | controllers/dashboard.controller.js:8-24 | exactly the scoped invoices dated today or later |
| DashboardController.MonthInvoices | controllers/dashboard.controller.js:11-32 | exactly the scoped invoices dated in today's calendar month |
| DashboardController.PendingCommissions | controllers/dashboard.controller.js:45-46 | exactly the pending commissions of the scope's schools |
| DashboardController.FigureOf | controllers/dashboard.controller.js:107-122 | the zero default when nothing matched agrees with the sum and count over no documents |
| DashboardController.LowStockAlerts | controllers/dashboard.controller.js:38-43 | at most ten alerts, each about an active product at or below its threshold (a restricted caller's own only), and every such product when there are fewer than ten |
| DashboardController.Scoped | controllers/dashboard.controller.js:52-55 | exactly the invoices in the scope |
| DashboardController.RecentInvoices | controllers/dashboard.controller.js:52-60 | at most ten scoped invoices, latest first |
| DashboardController.RecentAreLatest | controllers/dashboard.controller.js:56-58 | a scoped invoice left out is dated no later than every listed one, and the list then has ten |
| DashboardController.OverviewRows | controllers/dashboard.controller.js:65-95 | one row per month group whose school exists, holding that group's sums and count |
| DashboardController.SchoolOverview | controllers/dashboard.controller.js:62-102 | at most ten rows, sales descending, each a month row |
| DashboardController.OverviewRowExact | controllers/dashboard.controller.js:65-95 | each overview row is an existing school with the sums and count of its month invoices (at least one) |
| DashboardController.OverviewIsTop | controllers/dashboard.controller.js:96-101 | a school of the month left out sold no more than any listed school, and the overview then has ten rows |
| DashboardController.NoSchoolsSeesAll | controllers/dashboard.controller.js:15-63 | a restricted admin that created no school gets the same sales, pending commissions, recent invoices and overview as a request with no admin |
| DashboardController.SummaryOf | controllers/dashboard.controller.js:104-125 | today's and the month's sales and the pending commissions are the sums and counts over exactly the matching documents; at most ten alerts, ten recent invoices and ten overview rows |
| DashboardController.OwnerSeesOwn | controllers/dashboard.controller.js:24-54 | a restricted admin that created some school sees only invoices and pending commissions of its own schools |
| StudentController.ListStudents | controllers/student.controller.js:5-43 | every listed student is stored and selected by the query, every selected student is listed, and a restricted caller sees only students it created |
| StudentController.StudentById | controllers/student.controller.js:60-85 | 404 exactly when absent, 403 exactly when a restricted caller did not create the student (a creator-less one included), otherwise the stored student |
| StudentController.CreateStudentOutcome | controllers/student.controller.js:87-123 | a missing school answers 400 and changes nothing; 403 exactly when a restricted caller did not create the school; for an owned school and admissible fields, 400 exactly when the trimmed roll number is in use and success exactly when it is not; a success stores the trimmed roll number, the school and the caller as creator under a fresh id |
| StudentController.CreateStudentConsistent | controllers/student.controller.js:87-123 | creating a student keeps ids, schema and the unique roll-number index intact |
| StudentController.CreateStudent | controllers/student.controller.js:87-123 | the handler's answer and new store are those of `CreateStudentOutcome`, and the store stays consistent |
| StudentController.UpdateStudentOutcome | controllers/student.controller.js:125-176 | a named but missing school answers 400 first, then 404, then 403 exactly when a restricted caller did not create the student or the target school; past those it succeeds exactly when the merged fields are admissible and the roll number is held by no other student (a held one answers 500), replacing the stored fields in place |
| StudentController.UpdateStudentConsistent | controllers/student.controller.js:125-176 | an update keeps the store consistent |
| StudentController.UpdateStudent | controllers/student.controller.js:125-176 | the handler's answer and new store are those of `UpdateStudentOutcome` |
| StudentController.DeleteStudentOutcome | controllers/student.controller.js:178-205 | 404, then 403, then an owned student is always removed, and only that student |
| StudentController.DeleteStudentRemoves | controllers/student.controller.js:178-205 | a delete keeps the store consistent, the student is gone afterwards, and exactly one student fewer remains |
| StudentController.DeleteStudent | controllers/student.controller.js:178-205 | the handler's answer and new store are those of `DeleteStudentOutcome` |
| StudentController.Cell | controllers/student.controller.js:254-264 | the lower-case header's cell wins when present and non-empty, otherwise the capitalised header's cell |
| StudentController.ToBody | controllers/student.controller.js:253-266 | the upload's school and the caller are forced onto every row; the other fields come from the row's cells |
| StudentController.Screen | controllers/student.controller.js:249-283 | every row ends up either as a student or as an error |
| StudentController.ScreenErrorsSound | controllers/student.controller.js:268-274 | every reported error names an incomplete row by its spreadsheet row number (data row i is row i + 2) |
| StudentController.ScreenErrorsOrdered | controllers/student.controller.js:248-274 | the errors come in row order |
| StudentController.ScreenRow | controllers/student.controller.js:249-276 | one row: a complete row is appended to the students, any other adds an error under its row number |
| StudentController.ScreenErrorsComplete | controllers/student.controller.js:268-274 | every incomplete row is reported |
| StudentController.ScreenStudentsSound | controllers/student.controller.js:268-276 | every student comes from a complete row and has the upload's school |
| StudentController.ScreenStudentsComplete | controllers/student.controller.js:268-276 | every complete row becomes a student |
| StudentController.ScreenRows | controllers/student.controller.js:249-283 | the loop produces the students and errors of `Screen` |
| StudentController.EnrolOne | controllers/student.controller.js:289-297 | a body the schema refuses, or whose trimmed roll number is already stored, adds one insert error (the schema's message or the duplicate-key one) and changes nothing else; any other body is appended as that student under the next identifier and counted |
| StudentController.Enrol | controllers/student.controller.js:288-298 | inserted plus insert errors is the number of screened students |
| StudentController.Made | controllers/student.controller.js:290 | one schema result per body, in order |
| StudentController.Admitted | controllers/student.controller.js:288-298 | the students a run of creates stores: never more than the bodies |
| StudentController.AdmittedSound | controllers/student.controller.js:288-298 | every admitted student is one the schema accepted, none has a roll number stored before, and no two share one |
| StudentController.TakenAfter | controllers/student.controller.js:289-297 | a roll number is taken after some inserts exactly when a stored student or an inserted one has it |
| StudentController.EnrolAdmits | controllers/student.controller.js:288-298 | the inserts append exactly the admitted students, in body order, under consecutive identifiers from the next one, and count them |
| StudentController.EnrolAdmitsNext | controllers/student.controller.js:289-297 | one create appends the student its admission step admits, and nothing else |
| StudentController.EnrolAppends | controllers/student.controller.js:288-298 | the inserts append exactly `inserted` students, keep the earlier ones and everything else, and keep the store consistent |
| StudentController.EnrolNext | controllers/student.controller.js:289-297 | one create's count, errors and new store are those of `EnrolOne` |
| StudentController.EnrolStudents | controllers/student.controller.js:288-298 | the loop's count, errors and new store are those of `Enrol` |
| StudentController.BulkUploadOutcome | controllers/student.controller.js:207-313 | check order 400 (no school id), 400 (school missing), 403 (restricted caller did not create the school), 400 (no file), each changing nothing; past all four it answers the rows read, the screening's row errors, and the inserted count, insert errors and new store of inserting the screened students; the counts add up to the rows read |
| StudentController.BulkUpload | controllers/student.controller.js:207-313 | the handler's answer and new store are those of `BulkUploadOutcome`, and the store stays consistent |
| InvoiceController.Price | controllers/invoice.controller.js:169-181 | a stored line keeps the requested product and quantity, copies the product's name, takes its base price and GST rate, its tax is the GST rate percent of quantity times base price, and its total is that subtotal plus the tax |
| InvoiceController.GstBounded | controllers/invoice.controller.js:169-171 | for a valid product and a quantity that is not negative, a line's tax lies between nothing and the line's subtotal |
| InvoiceController.SellLine | controllers/invoice.controller.js:153-187 | a missing product fails with 400 "Product not found" and a quantity above the current stock with 400 "Insufficient stock", both leaving the sale as it was; otherwise the line is priced at the product's price and appended |
| InvoiceController.Sell | controllers/invoice.controller.js:152-188 | the loop prices at most one line per item, and it succeeds exactly when every item got a line |
| InvoiceController.SellShape | controllers/invoice.controller.js:186-187 | a sale changes nothing in the catalogue but stock levels |
| InvoiceController.SellStops | controllers/invoice.controller.js:152-167 | a failed sale stopped at the first failing line: the lines before it went through exactly as a sale of just those lines, and that line failed |
| InvoiceController.SellFailed | controllers/invoice.controller.js:155-167 | once a line has failed, the remaining items are never looked at |
| InvoiceController.SellStock | controllers/invoice.controller.js:162-187 | after a sale each product has lost exactly the units of the lines that went through, including on failure |
| InvoiceController.SellKeepsValid | controllers/invoice.controller.js:162-187 | stock is checked before it is taken, so no product's stock goes negative |
| InvoiceController.SellWithinStock | controllers/invoice.controller.js:153-167 | on success no product sold more units in total than it had before the sale, even when listed on several lines |
| InvoiceController.SellPrices | controllers/invoice.controller.js:169-181 | every line is priced from the catalogue as it stood before the sale |
| InvoiceController.Build | controllers/invoice.controller.js:190-210 | the invoice stores the lines, the number, the school and the student; subtotal and tax are the sums over the lines, no discount, the total is subtotal plus tax less discount; the school's rate is copied and the commission amount is that rate percent of the subtotal; dated by the request or else today; marked paid, payment method `cash` unless given, the request's notes, no creator |
| InvoiceController.Accrue | controllers/invoice.controller.js:212-222 | the commission is valid and pending, names the invoice and school, and is dated in the month and year of the invoice date |
| InvoiceController.InvoiceTotals | controllers/invoice.controller.js:190 | an invoice's total is subtotal plus tax less the discount, and equals the sum of its line totals |
| InvoiceController.CommissionAmount | controllers/invoice.controller.js:192-220 | the accrued commission is the subtotal times the school's rate over 100, and for a rate in 0..100 it lies between nothing and the subtotal |
| InvoiceController.Numbers | controllers/invoice.controller.js:13-15 | the invoice numbers in creation order, one per stored invoice |
| InvoiceController.Admit | controllers/invoice.controller.js:124-145 | 400 exactly when the student or the school is missing, 403 exactly when both exist but a restricted caller did not create the school, otherwise the school |
| InvoiceController.CreateInvoiceOutcome | controllers/invoice.controller.js:120-236 | a refused student, school or caller answers that failure and changes nothing; a failed line answers its failure with the earlier stock decrements kept; a sale that went through answers what recording the invoice answers; a success takes the next two identifiers; schools and students never change |
| InvoiceController.CreateInvoiceRefusesLine | controllers/invoice.controller.js:153-167 | once the earlier lines went through, a line naming no product answers 400 "Product not found" and a line asking more than the stock the earlier lines left answers 400 "Insufficient stock" |
| InvoiceController.RecordOutcome | controllers/invoice.controller.js:194-222 | the invoice and its commission are stored under the next two identifiers, or the invoice is refused and nothing changes; products, schools and students are untouched |
| InvoiceController.RecordStores | controllers/invoice.controller.js:194-222 | an invoice that passes its schema and unique index is stored, with its commission, under the next two identifiers, and the answer is the invoice's identifier |
| InvoiceController.NextInvoiceNumberFormat | controllers/invoice.controller.js:8-24 | the number starts with "INV" and the period of the request date, and is that prefix followed by 0001 when no stored invoice number has the prefix |
| InvoiceController.SellNext | controllers/invoice.controller.js:153-187 | a sale that has not failed goes on with the next item exactly as `SellLine` prices or refuses it, and a refusal there is the final result of the whole sale |
| InvoiceController.SoldConsistent | controllers/invoice.controller.js:186-187 | saving decremented stock keeps the store consistent |
| InvoiceController.RecordConsistent | controllers/invoice.controller.js:196-222 | storing the invoice and its commission keeps the store consistent |
| InvoiceController.CreateInvoiceConsistent | controllers/invoice.controller.js:120-236 | creating an invoice keeps the store consistent, whatever the outcome |
| InvoiceController.CreateInvoiceStock | controllers/invoice.controller.js:152-188 | after an admitted request every product lost exactly the units of the lines that went through, on failure as well as on success, and a success went through every line |
| InvoiceController.CreateInvoiceStored | controllers/invoice.controller.js:120-236 | a stored invoice is appended under the next id, built from the sale's lines with the next invoice number and the school's rate, and the commission appended after it is that invoice's accrual |
| InvoiceController.CreateInvoiceFigures | controllers/invoice.controller.js:153-236 | a stored invoice has one line per item priced from the catalogue before the request, totals that add up, no discount and is marked paid; its commission is pending, based on its subtotal and is the school's rate's percentage of it |
| InvoiceController.SellStep | controllers/invoice.controller.js:153-187 | one pass of the loop yields the catalogue, lines and failure of `SellLine`, and keeps the running subtotal and tax equal to the sums over the lines |
| InvoiceController.SellItems | controllers/invoice.controller.js:147-188 | the loop's catalogue, lines and failure are those of `Sell` (stopping at the first refused item with earlier decrements kept), and its running subtotal and tax are the sums over its lines |
| InvoiceController.Record | controllers/invoice.controller.js:190-222 | the answer and new store are those of `RecordOutcome` |
| InvoiceController.CreateInvoice | controllers/invoice.controller.js:120-236 | the handler's answer and new store are those of `CreateInvoiceOutcome`, and the store stays consistent |
| InvoiceController.ListInvoices | controllers/invoice.controller.js:26-72 | 403 exactly when a restricted caller names a school it did not create; otherwise every listed invoice matches the query and every matching invoice is listed, and a restricted caller sees only invoices of its own schools |
| InvoiceController.InvoiceById | controllers/invoice.controller.js:89-118 | 404 exactly when absent, 403 exactly when a restricted caller did not create the invoice's school (or it is gone), otherwise the stored invoice |
| InvoiceController.SearchStudents | controllers/invoice.controller.js:318-352 | 400 exactly for a missing or empty query; otherwise at most ten active students whose roll number or name matches and that the caller may see, and every such student when fewer than ten are listed |
| PurchaseController.Cost | controllers/purchase.controller.js:133-141 | a stored line keeps the requested product, quantity and unit price, and its total is quantity times the caller's unit price, tax excluded |
| PurchaseController.ReceiveLine | controllers/purchase.controller.js:124-147 | one loop step either adds exactly one line, or fails and leaves the lines and the catalogue as they were |
| PurchaseController.Receive | controllers/purchase.controller.js:123-148 | the loop costs at most one line per item, and it succeeds exactly when every item got a line |
| PurchaseController.ReceiveShape | controllers/purchase.controller.js:146-147 | receiving changes nothing in the catalogue but stock levels |
| PurchaseController.ReceiveStock | controllers/purchase.controller.js:146-147 | after receiving, each product has gained exactly the units of the lines that went through, including on failure |
| PurchaseController.ReceiveKeepsValid | controllers/purchase.controller.js:146-147 | a save that would take stock below zero is refused, so every product stays valid |
| PurchaseController.ReceiveCosts | controllers/purchase.controller.js:133-141 | every line that went through is the caller's line at the caller's price, for a product that exists |
| PurchaseController.ReceiveFailsOnlyOnMissing | controllers/purchase.controller.js:124-131 | with quantities that are not negative, receiving fails only at a missing product |
| PurchaseController.ReceiveNext | controllers/purchase.controller.js:124-147 | a line whose product exists and whose stock stays non-negative extends the receipt by its costed line, its tax and its stock increment |
| PurchaseController.ReceiveFailed | controllers/purchase.controller.js:126-131 | once a line has failed, the remaining items are never looked at |
| PurchaseController.ReceiveStopsAt | controllers/purchase.controller.js:126-147 | a missing product, or a refused save, stops the loop there with the earlier increments kept |
| PurchaseController.ReceivedConsistent | controllers/purchase.controller.js:146-147 | saving incremented stock keeps the store consistent |
| PurchaseController.Numbers | controllers/purchase.controller.js:10-12 | the purchase numbers in creation order, one per stored purchase |
| PurchaseController.NextPurchaseNumberFormat | controllers/purchase.controller.js:5-20 | the number starts with "PO" and the period of the request date, and is that prefix followed by 0001 when no stored purchase number has the prefix |
| PurchaseController.Build | controllers/purchase.controller.js:150-163 | the purchase stores the lines, the number and the supplier; the subtotal is the sum of the line totals and the total is subtotal plus tax; dated by the request or else today, with the request's notes; it starts pending with nothing paid; the caller is the creator |
| PurchaseController.CreatePurchaseOutcome | controllers/purchase.controller.js:106-178 | an unknown supplier answers 400 and changes nothing; a failed line answers its failure with the earlier stock increments kept; a receipt that went through answers what recording the purchase answers; a success takes the next identifier; a failure stores no purchase; suppliers and invoices never change |
| PurchaseController.CreatePurchaseRefusesLine | controllers/purchase.controller.js:124-147 | once the earlier lines went through, a line naming no product answers 400 "Product not found" and a line that would take stock below zero answers the save's 500 |
| PurchaseController.RecordOutcome | controllers/purchase.controller.js:150-165 | a purchase that passes its schema and unique number index is stored under the next identifier, which is the answer; otherwise it is refused with 500 and nothing changes |
| PurchaseController.RecordConsistent | controllers/purchase.controller.js:165 | storing a purchase keeps the store consistent |
| PurchaseController.CreatePurchaseConsistent | controllers/purchase.controller.js:106-178 | creating a purchase keeps the store consistent, whatever the outcome |
| PurchaseController.CreatePurchaseStock | controllers/purchase.controller.js:123-148 | after a request naming a known supplier every product gained exactly the units of the lines that went through, on failure as well as on success, and a success went through every line |
| PurchaseController.CreatePurchaseStored | controllers/purchase.controller.js:106-178 | a stored purchase is appended under the next id with the next purchase number, the caller's lines at the caller's prices, totals that add up, pending and unpaid |
| PurchaseController.ReceiveStep | controllers/purchase.controller.js:124-147 | one pass of the loop agrees with `ReceiveLine`: a missing product or a stock that would go negative is refused with nothing changed, otherwise the costed line, its tax and the stock increment are added, and the running subtotal stays the sum of the line totals |
| PurchaseController.ReceiveItems | controllers/purchase.controller.js:118-148 | the loop's lines, tax, failure and catalogue are those of `Receive`, its running subtotal is the sum of its line totals, and nothing but products changes |
| PurchaseController.Record | controllers/purchase.controller.js:150-165 | the answer and new store are those of `RecordOutcome` |
| PurchaseController.CreatePurchase | controllers/purchase.controller.js:106-178 | the handler's answer and new store are those of `CreatePurchaseOutcome`, and the store stays consistent |
| PurchaseController.PaymentStatusFor | controllers/purchase.controller.js:236-242 | paid exactly when the amount covers the total, partial exactly for a positive amount short of it, pending otherwise, including a missing amount |
| PurchaseController.PayOutcome | controllers/purchase.controller.js:214-253 | 404 when absent, 403 when a restricted caller did not create it; otherwise the amount, the date (today unless given) and the status recomputed from the stored total replace the stored ones in place |
| PurchaseController.PayConsistent | controllers/purchase.controller.js:214-253 | a payment on a purchase the caller may touch always succeeds and keeps the store consistent |
| PurchaseController.Pay | controllers/purchase.controller.js:214-253 | the handler's answer and new store are those of `PayOutcome` |
| PurchaseController.ListPurchases | controllers/purchase.controller.js:23-61 | every listed purchase matches the query, every matching purchase is listed, and a restricted caller sees only its own |
| PurchaseController.PurchaseById | controllers/purchase.controller.js:78-104 | 404 exactly when absent, 403 exactly when a restricted caller did not create it, otherwise the stored purchase |
| PurchaseController.UpdatePurchaseOutcome | controllers/purchase.controller.js:180-212 | 404, then 403; past both it succeeds exactly when the merged fields are valid and the number is held by no other purchase (a held one answers 500), the body's fields replacing the stored ones in place; stock is not touched; a failure changes nothing |
| PurchaseController.UpdatePurchaseConsistent | controllers/purchase.controller.js:180-212 | an edit keeps the store consistent |
| PurchaseController.UpdatePurchase | controllers/purchase.controller.js:180-212 | the handler's answer and new store are those of `UpdatePurchaseOutcome` |
| CommissionController.IndexOf | controllers/commission.controller.js:85-86 | the position of the first group with the key, and none exactly when no group has it |
| CommissionController.GroupExact | controllers/commission.controller.js:84-100 | the `$group` stage gives each key one group exactly when some commission has it, holding the sums of amount, base, pending and settled parts and the count over exactly those commissions |
| CommissionController.GroupKeysDistinct | controllers/commission.controller.js:84-86 | no two groups share a key |
| CommissionController.StatusesValid | models/Commission.model.js:1-62 | in a consistent store every commission is pending or settled |
| CommissionController.GroupSplit | controllers/commission.controller.js:90-99 | where every status is pending or settled, a group's pending and settled parts add up to its total |
| CommissionController.AmountSplit | controllers/commission.controller.js:90-99 | summed over any commissions, the pending and settled parts add up to the total when each commission's do |
| CommissionController.ListCommissions | controllers/commission.controller.js:4-47 | 403 exactly when a restricted caller names a school it did not create; otherwise every listed commission matches the query, every matching one is listed, and a restricted caller sees only commissions of its own schools |
| CommissionController.MonthlyBreakdown | controllers/commission.controller.js:80-105 | the monthly groups, latest month first, nothing added or lost |
| CommissionController.SchoolCommissions | controllers/commission.controller.js:64-117 | 403 exactly when a restricted caller did not create the school (or it does not exist); otherwise exactly that school's commissions, with the breakdown grouped over them as intended (the corrected definition) |
| CommissionController.GroupRow | controllers/commission.controller.js:84-100 | a key has a group exactly when some commission has it; that group is the only one with the key, holds the sums over exactly those commissions, and its pending and settled parts add up to its total |
| CommissionController.BreakdownRows | controllers/commission.controller.js:80-105 | a month has a row exactly when the school has commissions in it, and that row sums exactly those commissions, with pending and settled adding up to the total |
| CommissionController.SchoolCommissionsAsWritten | controllers/commission.controller.js:80-83 | as written: the same 403 and listing, but the breakdown is always empty, since the string id never equals a stored ObjectId |
| CommissionController.BreakdownLost | controllers/commission.controller.js:80-83 | for a school with a commission, the as-written breakdown is empty while the intended one has that month's row |
| CommissionController.SettleOutcome | controllers/commission.controller.js:119-161 | 404 when absent, 400 when already settled (before ownership), 403 exactly when an unsettled one's school was not created by a restricted caller, and otherwise always success: it becomes settled in place, dated today unless given, with the reference and notes as sent |
| CommissionController.SettleConsistent | controllers/commission.controller.js:119-161 | settling keeps the store consistent |
| CommissionController.SettleOnce | controllers/commission.controller.js:132-137 | a settled commission can never be settled again: a second attempt, by anyone, is refused and changes nothing |
| CommissionController.Settle | controllers/commission.controller.js:119-161 | the handler's answer and new store are those of `SettleOutcome` |
| CommissionController.Join | controllers/commission.controller.js:189-208 | every joined row is a group of an existing school with that school's name and code, and every group of an existing school is joined |
| CommissionController.CommissionSummary | controllers/commission.controller.js:163-227 | the total is the pending bucket plus the settled bucket, in amount and in count; the school-wise rows are largest pending first |
| CommissionController.StatusPartition | controllers/commission.controller.js:165-176 | when only the two statuses occur, the pending and settled commissions together make up all of them, in amount and in count |
| CommissionController.SummaryTotals | controllers/commission.controller.js:165-223 | each status bucket is the sum and count of the commissions with that status, zero when there are none, and in a consistent store the total covers every commission, whoever asks |
| CommissionController.JoinedRow | controllers/commission.controller.js:182-208 | a joined row for a school is that existing school with the sum and count of its group |
| CommissionController.JoinedPresent | controllers/commission.controller.js:182-208 | every existing school with a group has a joined row |
| CommissionController.SchoolWiseRows | controllers/commission.controller.js:178-212 | each school-wise row is an existing school with its name, code and the sum and count of its pending commissions, and every existing school with a pending commission has a row |
| SchoolModel.Checked | models/School.model.js:3-45 | a school passes validation exactly when it satisfies the schema, and is then unchanged; otherwise the error reaches the error handler |
| SchoolModel.Create | models/School.model.js:3-45 | creation succeeds exactly when name and code are given and admissible; the stored school is valid, its code trimmed and upper-cased, its name trimmed, rate 0 and active by default |
| SchoolModel.Update | models/School.model.js:3-45 | an update succeeds exactly when the merged fields are admissible; each field the body gives is taken (name trimmed, code trimmed and upper-cased), each it omits keeps its stored value |
| CategoryModel.Checked | models/Category.model.js:3-22 | a category passes validation exactly when it satisfies the schema, and is then unchanged |
| CategoryModel.Create | models/Category.model.js:3-22 | creation succeeds exactly when a name that is not blank after trimming is given; the stored name is trimmed, active by default, creator as given |
| CategoryModel.Update | models/Category.model.js:3-22 | an update succeeds exactly when the merged name is not blank; a given name is trimmed, the activity flag and creator are the body's when given, else the stored ones |
| ProductModel.Checked | models/Product.model.js:3-65 | a product passes validation exactly when it satisfies the schema, and is then unchanged |
| ProductModel.Create | models/Product.model.js:3-65 | creation succeeds exactly when the required fields are given and admissible; name trimmed, SKU trimmed and upper-cased, category and prices as given; GST 18, stock 0, threshold 10 and active by default |
| ProductModel.Update | models/Product.model.js:3-65 | an update succeeds exactly when the merged fields are admissible; each field the body gives is taken (name trimmed, SKU upper-cased), each it omits keeps its stored value |
| ProductModel.StockChange | models/Product.model.js:42-47 | changing only the stock keeps a valid product valid exactly when the new stock is not negative |
| SupplierModel.Checked | models/Supplier.model.js:3-45 | a supplier passes validation exactly when it satisfies the schema, and is then unchanged |
| SupplierModel.Create | models/Supplier.model.js:3-45 | creation succeeds exactly when name and code are given and not blank; the name is trimmed, the code trimmed and upper-cased, active by default |
| SupplierModel.Update | models/Supplier.model.js:3-45 | an update succeeds exactly when the merged name and code are not blank; each field the body gives is taken (code upper-cased), each it omits keeps its stored value |
| StudentModel.Checked | models/Student.model.js:3-61 | a student passes validation exactly when it satisfies the schema, and is then unchanged |
| StudentModel.Create | models/Student.model.js:3-61 | creation succeeds exactly when roll number, name, class and school are given and admissible; roll number, name, class and section are trimmed, active by default |
| StudentModel.Update | models/Student.model.js:3-61 | an update succeeds exactly when the merged roll number, name and class are admissible; each field the body gives is taken, trimmed, and each it omits keeps its stored value |
| PurchaseModel.Checked | models/Purchase.model.js:3-77 | a purchase passes validation exactly when it satisfies the schema, and is then unchanged |
| PurchaseModel.Update | models/Purchase.model.js:3-77 | an update succeeds exactly when the merged number is present, every merged line is valid and the status is one of the three; every field is the body's when given, else the stored one |
| Access.SchoolsOf | controllers/_helpers.js:7-8 | exactly the ids of the schools the owner created |
| Access.OwnedSchoolIds | controllers/_helpers.js:3-9 | no restriction for a missing admin or a superadmin, otherwise exactly the ids of the schools the admin created |
| Access.NoSchoolsIsEmptyNotNull | controllers/_helpers.js:3-9 | a restricted admin that created no school gets an empty list, not "no restriction" |
| Access.Authorize | controllers/school.controller.js:54-66 | 404 exactly when the record is missing, 403 exactly when it exists but a restricted caller did not create it, otherwise the request goes on |
| Access.SchoolCreator | controllers/invoice.controller.js:104-108 | for a school that exists the creator is that school's creator, and for a missing one there is none |
| Access.OwnershipExtremes | controllers/student.controller.js:72-76 | a restricted caller is refused every record without a creator, and a superadmin is never refused |
| Numbering.LastWithPrefix | controllers/invoice.controller.js:13-15 | the number found is an issued one with the prefix; none is found exactly when no issued number has the prefix |
| Numbering.LastWithPrefixNewest | controllers/invoice.controller.js:13-15 | the number found is the newest match: it sits at some index k of the issued numbers, and no number issued after k starts with the prefix |
| Numbering.SequenceRoundTrip | controllers/invoice.controller.js:19-23 | reading the sequence back from a number gives it modulo 10000, exactly for 1 to 9999 |
| Numbering.PeriodDigits | controllers/invoice.controller.js:9-11 | the period is the last two digits of the year followed by the two-digit month |
| Numbering.NumberFormat | controllers/invoice.controller.js:8-24 | below sequence 10000 a number is the prefix, the four-digit period and the four-digit sequence |
| Numbering.FirstOfPeriod | controllers/invoice.controller.js:17-23 | the first number of a period has sequence 0001 |
| Numbering.NextAfterIssue | controllers/invoice.controller.js:13-23 | issuing a number and asking again in the same period gives the issued sequence plus one |
| Numbering.Consecutive | controllers/purchase.controller.js:10-20 | under serialised creation the numbers of a period are consecutive while the sequence is below 10000 |
| Numbering.WrapsAfter9999 | controllers/invoice.controller.js:19-23 | after sequence 10000 only its last four digits are read back, so the next number repeats the period's first number |
| Text.Trim | models/School.model.js:4-8 | trimming never lengthens, leaves none of ECMAScript's white space or line terminators at either end, adds no character, and leaves text without them alone |
| Text.TrimInfix | models/School.model.js:4-8 | the trimmed text is a slice of the text with only white space before it and after it, so with its non-space ends it is exactly what `trim` keeps |
| Text.Upper | models/School.model.js:13 | upper-casing keeps the length and upper-cases each character |
| Text.TrimIdempotent | models/School.model.js:7 | trimming twice is trimming once |
| Text.TrimUpperCommute | models/School.model.js:13-14 | trimming and upper-casing commute |
| Text.CodeIdempotent | models/School.model.js:9-15 | normalising a code twice changes nothing, so re-saving a document never alters its unique key |
| Text.BelowTotal | controllers/category.controller.js:18 | any two different names are ordered one way or the other |
| Text.BelowTransitive | controllers/category.controller.js:18 | the name order is transitive |
| Aggregate.KeysOf | controllers/report.controller.js:51-60 | the `_id`s a `$group` stage produces: distinct, one for every element's key and only those |
| Aggregate.SumPermutation | controllers/report.controller.js:201 | reordering rows, as a `$sort` does, never changes a sum over them |
| Aggregate.Take | controllers/report.controller.js:94 | `$limit: n` keeps the first n rows, or all of them when there are fewer |
| Aggregate.SortDesc | controllers/report.controller.js:91 | a descending `$sort` is a permutation of its input in descending key order |
| Aggregate.TopIsLargest | controllers/report.controller.js:91-94 | after a descending sort and a limit, every kept row ranks at least as high as every dropped one |
| Aggregate.TopMembers | controllers/report.controller.js:91-94 | what the sort and limit keep comes from the input |
| Aggregate.TopOrOutranked | controllers/dashboard.controller.js:97-100 | an input row is either kept, or the limit was reached and every kept row ranks at least as high |
| Aggregate.SortAsc | controllers/supplier.controller.js:8 | an ascending sort on a string key is a permutation of its input in ascending key order |
| SchoolController.ClassBreakdown | controllers/school.controller.js:72-85 | one row per group key, in that order, each counting the students of its class |
| SchoolController.ClassPopulated | controllers/school.controller.js:77-81 | a class some student is in has a count above zero |
| SchoolController.SchoolInvoices | controllers/school.controller.js:88-91 | exactly the stored invoices of the school |
| ReportController.TalliesSpread | controllers/report.controller.js:147-153 | each column of the tallies, added up, is the spread of that field over the keys' invoices |
| ReportController.SpreadTotal | controllers/report.controller.js:147-153 | over distinct keys that cover every invoice, the spread is the total over the invoices |

## Left out

- The clock is a parameter. `now`, today's date, the start of the month and similar values are passed in. Dates have day granularity: no time of day, and no time zones.
- Money is `real` and stock is `int`, so JavaScript floating-point rounding is not modelled.
- Case-insensitive `$regex` search is an opaque `matches(pattern, text)` parameter.
- String `$sort` compares character codes, not MongoDB collation.
- Pagination (`page`, `limit`, `skip`) and the `createdAt`/date sort of list handlers are not modelled. The list functions return every matching document in store order; `ListSuppliers` and `ListCategories` do keep their name sort.
- `populate` and field selection are not modelled: documents are returned whole and references stay identifiers.
- Concurrency is not modelled: handlers run one at a time, so the read-then-write races on numbering and stock checks do not arise.
- Several parts of the system are outside this model:
  - PDF invoice generation (`generateInvoicePDF`), a pdfkit stream;
  - spreadsheet parsing, so a bulk upload receives its rows already parsed as string-keyed maps of text. `sheet_to_json` gives numbers for numeric cells, and a cell holding the number 0 is falsy in the `||` and `!` tests of student.controller.js:253-267, so the source reports such a row as missing fields; the model's cells are text and have no such value;
  - the GSTIN lookup in `utils/gstService.js`, an external HTTP service;
  - login, JWT signing and password hashing, which live in an Admin model and auth controller that are not part of this model;
  - routes, server wiring and seeding scripts.
- Only the fields that some handler reads or writes are modelled. Addresses, contacts, bank details, descriptions, units and similar fields are left out.
- Error messages that embed runtime values, such as the product id or the available stock, are abbreviated to a fixed text. 500 answers carry a descriptive text instead of Mongoose's message.
- The Admin schema is not part of this model, so email normalisation and password rules are not modelled. The unique email index is modelled, so the duplicate-key path after the explicit email check cannot occur.
- ReportController.SalesReportOf: the `dateRange` echo in the report is not modelled, and SalesWindow and SalesReportOf carry no contract of their own. Their meaning is stated by SalesReportFigures.
- ReportController.ClassWisePerformance: the final `$sort` by school name then class is not applied. The rows are stated as a set by ClassWiseRows.
- ReportController.ValuationOf: product details follow store order, not the `sort({category: 1, name: 1})` of the query.
- SchoolController.SettlementHistory, DashboardController.RecentInvoices, CommissionController.MonthlyBreakdown: ties in the sort key may come out in a different order than MongoDB's.
- InvoiceController.ListInvoices: the date filters compare dates at day granularity.
- Every identifier in the model is well-formed. In the program, a malformed id in a path or a query filter (for example `findById(req.params.id)` at invoice.controller.js:91, or the `school` and `student` filters) makes Mongoose throw a CastError, which goes to `next(error)` and the error handler. The model has no such path.
- Text.Upper: only the ASCII letters are upper-cased. JavaScript's `toUpperCase` maps every cased letter, and may lengthen a string ('ß' becomes "SS"), so codes and SKUs outside ASCII can differ from the program's.
- PurchaseController.PaymentStatusFor: an explicit JSON `null` amount is treated like a missing one, and the result is "pending". In JavaScript, `null` compares as 0, so `null` against a total of zero or less gives "paid".
- A request body without `items` makes the `for … of items` loop throw a TypeError, which answers 500 (invoice.controller.js:152, purchase.controller.js:123). The model's `Request.items` is a sequence that is always there, so this request is not modelled.
- `updateInvoice` and a stock rollback on failure are not defined in the source and are not modelled.

## Findings

| source | as written | input that shows it | evidently intended | confidence | as-written member | corrected member |
|---|---|---|---|---|---|---|
| controllers/commission.controller.js:80-83 | the `monthlyBreakdown` pipeline matches `{school: id}` with the path parameter still a string; an aggregation does not cast it to an ObjectId, so no stored commission matches and the breakdown is always empty | a school with one commission: the listing shows it, the breakdown is `[]` | one row per month of the school's commissions, as the `$group` stage computes | not executed | CommissionController.SchoolCommissionsAsWritten | CommissionController.SchoolCommissions |
