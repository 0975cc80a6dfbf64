/** Invoices: listing and reading under the school-derived scope, the
    student search at the till, and invoice creation, which prices each
    requested line from the catalogue, checks and decrements stock line by
    line, numbers the invoice and accrues the school's commission. */
module InvoiceController {
  import opened Common
  import opened Tables
  import opened Aggregate
  import opened Access
  import opened Database
  import Numbering
  import SchoolModel
  import StudentModel
  import ProductModel
  import CommissionModel
  import opened InvoiceModel

  // ---------------------------------------------------------------------
  // Pricing

  /** A requested line. A unit price sent by the caller is ignored. */
  datatype Item = Item(product: Id, quantity: int)

  function LineSubtotal(l: Line): real
  {
    l.quantity as real * l.unitPrice
  }

  function LineGst(l: Line): real
  {
    l.gstAmount
  }

  function LineTotal(l: Line): real
  {
    l.totalPrice
  }

  /** The line stored for a requested item: priced at the product's base
      price, taxed at its GST rate. */
  function Price(item: Item, p: ProductModel.Product): (l: Line)
    ensures l.product == item.product && l.quantity == item.quantity
    ensures l.productName == p.name
    ensures l.unitPrice == p.basePrice && l.gstRate == p.gstRate
    ensures LineGst(l) == Percent(LineSubtotal(l), l.gstRate)
    ensures l.totalPrice == LineSubtotal(l) + LineGst(l)
  {
    var subtotal := item.quantity as real * p.basePrice;
    var gst := Percent(subtotal, p.gstRate);
    Line(item.product, p.name, item.quantity, p.basePrice, p.gstRate, gst, subtotal + gst)
  }

  /** Tax on a line lies between nothing and the whole line subtotal, for a
      product whose GST rate is in 0..100 and a quantity that is not
      negative. */
  lemma GstBounded(item: Item, p: ProductModel.Product)
    requires ProductModel.Valid(p) && item.quantity >= 0
    ensures 0.0 <= LineGst(Price(item, p)) <= LineSubtotal(Price(item, p))
  {
    var s := item.quantity as real * p.basePrice;
    assert LineSubtotal(Price(item, p)) == s && LineGst(Price(item, p)) == s * p.gstRate / 100.0;
    MulNonNegative(item.quantity as real, p.basePrice);
    MulNonNegative(s, p.gstRate);
    MulNonNegative(s, 100.0 - p.gstRate);
  }

  lemma MulNonNegative(a: real, b: real)
    requires a >= 0.0 && b >= 0.0
    ensures a * b >= 0.0
  {
  }

  // ---------------------------------------------------------------------
  // The stock ledger of a sale

  /** The products after the lines processed so far, the lines priced so
      far, and the failure that stopped the sale, if any. */
  datatype Sale = Sale(products: seq<Doc<ProductModel.Product>>, lines: seq<Line>, failure: Option<Failure>)

  const ProductMissing: Failure := BadRequest("Product not found")
  const OutOfStock: Failure := BadRequest("Insufficient stock")

  /** One iteration of the loop: look the product up again, refuse a
      quantity above the current stock, else price the line and take the
      quantity off the stock. */
  function SellLine(s: Sale, item: Item): (r: Sale)
    ensures |r.products| == |s.products|
    ensures r.failure.None? ==> |r.lines| == |s.lines| + 1
    ensures r.failure.Some? ==> r.lines == s.lines && r.products == s.products
    ensures Get(s.products, item.product).None? ==> r == s.(failure := Some(ProductMissing))
    ensures Get(s.products, item.product).Some? && Get(s.products, item.product).value.stock < item.quantity
            ==> r == s.(failure := Some(OutOfStock))
    ensures Get(s.products, item.product).Some? && Get(s.products, item.product).value.stock >= item.quantity
            ==> r.failure.None? && r.lines == s.lines + [Price(item, Get(s.products, item.product).value)]
  {
    match Find(s.products, item.product)
    case None => s.(failure := Some(ProductMissing))
    case Some(k) =>
      var p := s.products[k].body;
      if p.stock < item.quantity then s.(failure := Some(OutOfStock))
      else Sale(Replace(s.products, k, p.(stock := p.stock - item.quantity)), s.lines + [Price(item, p)], None)
  }

  /** The loop over the requested items, stopping at the first failure. */
  function Sell(products: seq<Doc<ProductModel.Product>>, items: seq<Item>): (r: Sale)
    ensures |r.products| == |products|
    ensures |r.lines| <= |items|
    ensures r.failure.None? <==> |r.lines| == |items|
  {
    if items == [] then Sale(products, [], None)
    else
      var before := Sell(products, items[..|items| - 1]);
      if before.failure.Some? then before else SellLine(before, items[|items| - 1])
  }

  /** Units of one product requested by a list of items. */
  function QtyFor(items: seq<Item>, product: Id): int
  {
    if items == [] then 0
    else QtyFor(items[..|items| - 1], product)
         + (if items[|items| - 1].product == product then items[|items| - 1].quantity else 0)
  }

  /** A sale changes nothing but stock levels. */
  lemma {:induction false} SellShape(ps: seq<Doc<ProductModel.Product>>, items: seq<Item>)
    ensures SameCatalogue(ps, Sell(ps, items).products)
  {
    if items != [] {
      SellShape(ps, items[..|items| - 1]);
    }
  }

  /** On failure the sale stopped at line j = |lines|: the first j lines went
      through, exactly as a sale of those j lines would, and line j failed,
      its product missing or short of stock, as `SellLine` states. */
  lemma {:induction false} SellStops(ps: seq<Doc<ProductModel.Product>>, items: seq<Item>)
    requires Sell(ps, items).failure.Some?
    ensures var j := |Sell(ps, items).lines|;
      j < |items|
      && Sell(ps, items[..j]) == Sell(ps, items).(failure := None)
      && SellLine(Sell(ps, items[..j]), items[j]) == Sell(ps, items)
  {
    var n := |items| - 1;
    var init := items[..n];
    var before := Sell(ps, init);
    if before.failure.Some? {
      SellStops(ps, init);
      var j := |before.lines|;
      assert init[..j] == items[..j];
      assert init[j] == items[j];
    } else {
      assert init == items[..n];
    }
  }

  /** Once line j has failed, the rest of the items are never looked at. */
  lemma {:induction false} SellFailed(ps: seq<Doc<ProductModel.Product>>, items: seq<Item>, j: nat)
    requires j < |items| && Sell(ps, items[..j + 1]).failure.Some?
    ensures Sell(ps, items) == Sell(ps, items[..j + 1])
    decreases |items|
  {
    if |items| > j + 1 {
      var init := items[..|items| - 1];
      assert init[..j + 1] == items[..j + 1];
      SellFailed(ps, init, j);
    } else {
      assert items[..j + 1] == items;
    }
  }

  lemma QtyForSnoc(items: seq<Item>, x: Item, product: Id)
    ensures QtyFor(items + [x], product) == QtyFor(items, product) + (if x.product == product then x.quantity else 0)
  {
    assert (items + [x])[..|items|] == items;
  }

  /** Stock after a sale: each product has lost exactly the units of the
      lines the sale got through (all of them on success, and on failure
      the ones before the failing line, which stay taken off). */
  lemma {:induction false} SellStock(ps: seq<Doc<ProductModel.Product>>, items: seq<Item>)
    requires DistinctIds(ps)
    ensures var s := Sell(ps, items);
      forall k :: 0 <= k < |ps| ==>
        s.products[k].body.stock == ps[k].body.stock - QtyFor(items[..|s.lines|], ps[k].id)
  {
    if items != [] {
      var n := |items| - 1;
      var init := items[..n];
      var before := Sell(ps, init);
      SellStock(ps, init);
      SellShape(ps, init);
      var s := Sell(ps, items);
      if before.failure.Some? {
        var j := |before.lines|;
        assert s == before;
        assert items[..j] == init[..j];
      } else {
        assert init[..n] == init;
        var item := items[n];
        assert s == SellLine(before, item);
        match Find(before.products, item.product) {
          case None =>
            assert items[..|s.lines|] == init;
          case Some(m) =>
            if before.products[m].body.stock >= item.quantity {
              assert items[..|s.lines|] == init + [item];
              forall k | 0 <= k < |ps|
                ensures s.products[k].body.stock == ps[k].body.stock - QtyFor(init + [item], ps[k].id)
              {
                QtyForSnoc(init, item, ps[k].id);
                assert before.products[k].body.stock == ps[k].body.stock - QtyFor(init, ps[k].id);
                assert before.products[m].id == item.product == ps[m].id;
                if k != m {
                  assert ps[k].id != ps[m].id;
                  assert s.products[k] == before.products[k];
                }
              }
            } else {
              assert items[..|s.lines|] == init;
            }
        }
      }
    }
  }

  /** Stock never goes negative: a sale keeps every product valid. */
  lemma {:induction false} SellKeepsValid(ps: seq<Doc<ProductModel.Product>>, items: seq<Item>)
    requires All(ps, ProductModel.Valid)
    ensures All(Sell(ps, items).products, ProductModel.Valid)
  {
    if items != [] {
      SellKeepsValid(ps, items[..|items| - 1]);
    }
  }

  /** A successful sale never sells more of a product than was in stock
      before it: since stock is re-read for every line, a product listed on
      several lines is checked against what the earlier lines left. */
  lemma SellWithinStock(ps: seq<Doc<ProductModel.Product>>, items: seq<Item>)
    requires DistinctIds(ps) && All(ps, ProductModel.Valid)
    requires Sell(ps, items).failure.None?
    ensures forall k :: 0 <= k < |ps| ==> QtyFor(items, ps[k].id) <= ps[k].body.stock
  {
    SellShape(ps, items);
    SellStock(ps, items);
    SellKeepsValid(ps, items);
    assert items[..|items|] == items;
    forall k | 0 <= k < |ps| ensures QtyFor(items, ps[k].id) <= ps[k].body.stock {
      assert ProductModel.Valid(Sell(ps, items).products[k].body);
    }
  }

  /** Every stored line is priced from the catalogue as it was before the
      sale: stock changes never alter a price. */
  lemma {:induction false} SellPrices(ps: seq<Doc<ProductModel.Product>>, items: seq<Item>)
    ensures var s := Sell(ps, items);
      forall j :: 0 <= j < |s.lines| ==>
        Has(ps, items[j].product) && s.lines[j] == Price(items[j], Get(ps, items[j].product).value)
  {
    if items != [] {
      var n := |items| - 1;
      var init := items[..n];
      var before := Sell(ps, init);
      SellPrices(ps, init);
      var s := Sell(ps, items);
      if before.failure.None? {
        var item := items[n];
        assert s == SellLine(before, item);
        match Find(before.products, item.product) {
          case None =>
            assert s == before.(failure := Some(ProductMissing));
          case Some(m) =>
            if before.products[m].body.stock >= item.quantity {
              SellShape(ps, init);
              FindSame(ps, before.products, item.product);
              var p := before.products[m].body;
              assert s.lines == before.lines + [Price(item, p)];
              assert p == ps[m].body.(stock := p.stock);
              PriceIgnoresStock(item, ps[m].body, p.stock);
              assert Get(ps, item.product) == Some(ps[m].body);
            } else {
              assert s == before.(failure := Some(OutOfStock));
            }
        }
      }
      assert |s.lines| > |before.lines| ==>
        |s.lines| == n + 1 && Has(ps, items[n].product)
        && s.lines[n] == Price(items[n], Get(ps, items[n].product).value);
      assert s.lines[..|before.lines|] == before.lines;
      forall j | 0 <= j < |s.lines|
        ensures Has(ps, items[j].product) && s.lines[j] == Price(items[j], Get(ps, items[j].product).value)
      {
        if j < |before.lines| {
          assert s.lines[j] == before.lines[j];
          assert items[j] == init[j];
          assert Has(ps, init[j].product) && before.lines[j] == Price(init[j], Get(ps, init[j].product).value);
        } else {
          assert j == n;
        }
      }
    }
  }

  lemma PriceIgnoresStock(item: Item, p: ProductModel.Product, stock: int)
    ensures Price(item, p.(stock := stock)) == Price(item, p)
  {
  }

  // ---------------------------------------------------------------------
  // The invoice and its commission

  datatype Request = Request(
    school: Option<Id>,
    student: Option<Id>,
    items: seq<Item>,
    paymentMethod: Option<string>,
    invoiceDate: Option<Date>,
    notes: Option<string>)

  /** The invoice stored for a sale: totals summed over the lines, no
      discount, the school's rate copied, always marked paid, payment
      method `cash` unless the caller names one, dated `now` unless the
      caller gives a date, and no creator. */
  function Build(number: string, school: Id, student: Id, rate: real, lines: seq<Line>,
                 req: Request, now: Date): (inv: Invoice)
    ensures inv.items == lines && inv.invoiceNumber == number
    ensures inv.subtotal == Sum(lines, LineSubtotal) && inv.gstAmount == Sum(lines, LineGst)
    ensures inv.school == Some(school) && inv.student == student
    ensures inv.commissionRate == rate && inv.commissionAmount == Percent(inv.subtotal, rate)
    ensures inv.totalAmount == inv.subtotal + inv.gstAmount - inv.discount
    ensures inv.discount == 0.0 && inv.paymentStatus == "paid"
    ensures inv.invoiceDate == Or(req.invoiceDate, now)
    ensures inv.paymentMethod == OrElse(req.paymentMethod, DefaultPaymentMethod)
    ensures inv.notes == req.notes && inv.createdBy.None?
  {
    var subtotal := Sum(lines, LineSubtotal);
    var gst := Sum(lines, LineGst);
    Invoice(number, Some(school), student, lines, subtotal, gst, DefaultDiscount, subtotal + gst,
            rate, Percent(subtotal, rate), Or(req.invoiceDate, now), DefaultPaymentStatus,
            OrElse(req.paymentMethod, DefaultPaymentMethod), req.notes, None)
  }

  /** The commission accrued for an invoice: pending, in the month and year
      of the invoice date, on the invoice subtotal at the invoice's rate. */
  function Accrue(invoiceId: Id, school: Id, inv: Invoice): (c: CommissionModel.Commission)
    ensures CommissionModel.Valid(c) && c.status == CommissionModel.Pending
    ensures c.invoice == invoiceId && c.school == school
    ensures c.month == inv.invoiceDate.month && c.year == inv.invoiceDate.year
  {
    CommissionModel.Commission(school, invoiceId, inv.invoiceDate.month, inv.invoiceDate.year,
      inv.commissionRate, inv.subtotal, inv.commissionAmount, CommissionModel.Pending, None, None, None)
  }

  lemma {:induction false} LineSums(lines: seq<Line>)
    requires forall j :: 0 <= j < |lines| ==> lines[j].totalPrice == LineSubtotal(lines[j]) + LineGst(lines[j])
    ensures Sum(lines, LineTotal) == Sum(lines, LineSubtotal) + Sum(lines, LineGst)
  {
    if lines != [] {
      LineSums(lines[..|lines| - 1]);
    }
  }

  lemma {:induction false} SubtotalNonNegative(lines: seq<Line>)
    requires forall j :: 0 <= j < |lines| ==> LineValid(lines[j])
    ensures Sum(lines, LineSubtotal) >= 0.0
  {
    if lines != [] {
      SubtotalNonNegative(lines[..|lines| - 1]);
      var l := lines[|lines| - 1];
      assert LineValid(l);
      assert l.quantity as real >= 1.0;
    }
  }

  /** The invoice's total is its subtotal plus tax, less the (always zero)
      discount, and equals the sum of its line totals. */
  lemma InvoiceTotals(number: string, school: Id, student: Id, rate: real, lines: seq<Line>,
                      req: Request, now: Date)
    requires forall j :: 0 <= j < |lines| ==> lines[j].totalPrice == LineSubtotal(lines[j]) + LineGst(lines[j])
    ensures var inv := Build(number, school, student, rate, lines, req, now);
      inv.totalAmount == inv.subtotal + inv.gstAmount - inv.discount
      && inv.totalAmount == Sum(inv.items, LineTotal)
  {
    LineSums(lines);
  }

  /** The accrued commission is the invoice subtotal times the school's
      rate over 100; for a stored invoice and a rate in 0..100 it lies
      between nothing and the whole subtotal. */
  lemma CommissionAmount(number: string, school: Id, student: Id, rate: real, lines: seq<Line>,
                         req: Request, now: Date, invoiceId: Id)
    requires 0.0 <= rate <= 100.0
    requires forall j :: 0 <= j < |lines| ==> LineValid(lines[j])
    ensures var c := Accrue(invoiceId, school, Build(number, school, student, rate, lines, req, now));
      c.commissionAmount == c.baseAmount * c.commissionRate / 100.0
      && c.commissionRate == rate
      && 0.0 <= c.commissionAmount <= c.baseAmount
  {
    SubtotalNonNegative(lines);
    var base := Sum(lines, LineSubtotal);
    assert base * rate <= base * 100.0;
  }

  /** The numbers of the stored invoices in creation order. */
  function Numbers(invoices: seq<Doc<Invoice>>): (r: seq<string>)
    ensures |r| == |invoices|
    ensures forall k :: 0 <= k < |invoices| ==> r[k] == invoices[k].body.invoiceNumber
  {
    seq(|invoices|, k requires 0 <= k < |invoices| => invoices[k].body.invoiceNumber)
  }

  /** `generateInvoiceNumber`. */
  function NextInvoiceNumber(now: Date, invoices: seq<Doc<Invoice>>): string
  {
    Numbering.NextNumber("INV", now, Numbers(invoices))
  }

  /** A new number starts with "INV" and the period of the request date,
      and the first of its period has sequence 0001. */
  lemma NextInvoiceNumberFormat(now: Date, invoices: seq<Doc<Invoice>>)
    ensures Numbering.StartsWith(NextInvoiceNumber(now, invoices), "INV" + Numbering.Period(now))
    ensures (forall k :: 0 <= k < |invoices| ==>
               !Numbering.StartsWith(invoices[k].body.invoiceNumber, "INV" + Numbering.Period(now)))
            ==> NextInvoiceNumber(now, invoices) == "INV" + Numbering.Period(now) + "0001"
  {
    var prefix := "INV" + Numbering.Period(now);
    Numbering.PrefixStarts(prefix, Numbering.NextSequence(Numbering.LastWithPrefix(Numbers(invoices), prefix)));
    if forall k :: 0 <= k < |invoices| ==> !Numbering.StartsWith(invoices[k].body.invoiceNumber, prefix) {
      Numbering.FirstOfPeriod(prefix, Numbers(invoices));
    }
  }

  /** The checks before any line is looked at, in the source's order: the
      student must exist (400), the school must exist (400), and a
      restricted caller must have created the school (403). */
  function Admit(s: Snapshot, caller: Option<Caller>, req: Request): (r: Result<SchoolModel.School>)
    ensures r.Fail? && r.failure.BadRequest? <==>
      req.student.None? || !Has(s.students, req.student.value)
      || req.school.None? || !Has(s.schools, req.school.value)
    ensures r.Fail? && r.failure.Forbidden? <==>
      req.student.Some? && Has(s.students, req.student.value)
      && req.school.Some? && Has(s.schools, req.school.value)
      && !MayTouch(caller, Get(s.schools, req.school.value).value.createdBy)
    ensures r.Ok? ==> req.student.Some? && req.school.Some? && Get(s.schools, req.school.value) == Some(r.value)
  {
    if req.student.None? || !Has(s.students, req.student.value) then Fail(BadRequest("Student not found"))
    else if req.school.None? || !Has(s.schools, req.school.value) then Fail(BadRequest("School not found"))
    else
      var school := Get(s.schools, req.school.value).value;
      if !MayTouch(caller, school.createdBy) then Fail(Forbidden("Forbidden: cannot create invoice for this school"))
      else Ok(school)
  }

  /** `Invoice.create` succeeds when the document passes the schema (every
      line quantity at least 1, a known payment method) and its number is
      not taken; otherwise it throws, which answers 500. */
  predicate Storable(inv: Invoice, invoices: seq<Doc<Invoice>>)
  {
    Valid(inv) && !Taken(invoices, NumberOf, inv.invoiceNumber, None)
  }

  /** `createInvoice`, as a function of the store before the request.
      Stock changes are saved line by line, so a failure after the first
      line (a missing product or short stock) leaves the earlier decrements
      in place, and so does a rejected invoice document. */
  function CreateInvoiceOutcome(s: Snapshot, caller: Option<Caller>, req: Request, now: Date): (o: Outcome<Id>)
    ensures o.result.Ok? ==> o.result.value == s.nextId && o.state.nextId == s.nextId + 2
    ensures o.result.Fail? ==> o.state.nextId == s.nextId && o.state.invoices == s.invoices
                               && o.state.commissions == s.commissions
    ensures o.state.schools == s.schools && o.state.students == s.students
    ensures Admit(s, caller, req).Fail? ==> o == Outcome(Fail(Admit(s, caller, req).failure), s)
    ensures Admit(s, caller, req).Ok? && Sell(s.products, req.items).failure.Some?
            ==> o == Outcome(Fail(Sell(s.products, req.items).failure.value),
                             s.(products := Sell(s.products, req.items).products))
    ensures Admit(s, caller, req).Ok? && Sell(s.products, req.items).failure.None?
            ==> o == RecordOutcome(s.(products := Sell(s.products, req.items).products),
                                   Admit(s, caller, req).value.commissionRate, req,
                                   Sell(s.products, req.items).lines, now)
  {
    match Admit(s, caller, req)
    case Fail(f) => Outcome(Fail(f), s)
    case Ok(school) =>
      var sale := Sell(s.products, req.items);
      var sold := s.(products := sale.products);
      if sale.failure.Some? then Outcome(Fail(sale.failure.value), sold)
      else RecordOutcome(sold, school.commissionRate, req, sale.lines, now)
  }

  /** The last stage of `createInvoice`, after the sale went through: the
      invoice is numbered from the invoices already stored and must pass
      its schema and unique index; then it and its commission are stored
      under the next two identifiers. */
  function RecordOutcome(s: Snapshot, rate: real, req: Request, lines: seq<Line>, now: Date): (o: Outcome<Id>)
    requires req.school.Some? && req.student.Some?
    ensures o.result.Ok? ==> o.result.value == s.nextId && o.state.nextId == s.nextId + 2
    ensures o.result.Fail? ==> o.result.failure == InvoiceRejected && o.state == s
    ensures o.state.products == s.products && o.state.schools == s.schools && o.state.students == s.students
  {
    var inv := Build(NextInvoiceNumber(now, s.invoices), req.school.value, req.student.value, rate, lines, req, now);
    if !Storable(inv, s.invoices) then Outcome(Fail(InvoiceRejected), s)
    else
      Outcome(Ok(s.nextId), s.(
        invoices := s.invoices + [Doc(s.nextId, inv)],
        commissions := s.commissions + [Doc(s.nextId + 1, Accrue(s.nextId, req.school.value, inv))],
        nextId := s.nextId + 2))
  }

  const InvoiceRejected: Failure := ServerError("Invoice validation failed")

  /** A sale that has not failed goes on with the next item exactly as
      `SellLine` prices or refuses it, and a refusal there is final: the
      items after it are never looked at. */
  lemma SellNext(ps: seq<Doc<ProductModel.Product>>, items: seq<Item>, i: nat)
    requires i < |items| && Sell(ps, items[..i]).failure.None?
    ensures Sell(ps, items[..i + 1]) == SellLine(Sell(ps, items[..i]), items[i])
    ensures Sell(ps, items[..i + 1]).failure.Some? ==> Sell(ps, items) == Sell(ps, items[..i + 1])
  {
    assert items[..i + 1][..i] == items[..i];
    if Sell(ps, items[..i + 1]).failure.Some? {
      SellFailed(ps, items, i);
    }
  }

  /** A request that passes the checks and whose sale reaches line j (the
      lines before it went through) is refused with 400 "Product not found"
      when line j names no product, and with 400 "Insufficient stock" when
      its quantity is above that product's stock as the earlier lines left
      it. */
  lemma CreateInvoiceRefusesLine(s: Snapshot, caller: Option<Caller>, req: Request, now: Date, j: nat)
    requires Admit(s, caller, req).Ok? && j < |req.items|
    requires Sell(s.products, req.items[..j]).failure.None?
    ensures var left := Sell(s.products, req.items[..j]).products;
      var o := CreateInvoiceOutcome(s, caller, req, now);
      (Get(left, req.items[j].product).None? ==> o.result == Fail(ProductMissing))
      && (Get(left, req.items[j].product).Some? && Get(left, req.items[j].product).value.stock < req.items[j].quantity
          ==> o.result == Fail(OutOfStock))
  {
    SellNext(s.products, req.items, j);
  }

  /** A sale keeps the store consistent. */
  lemma SoldConsistent(s: Snapshot, items: seq<Item>)
    requires Consistent(s)
    ensures Consistent(s.(products := Sell(s.products, items).products))
  {
    SellShape(s.products, items);
    SellKeepsValid(s.products, items);
    RestockConsistent(s, Sell(s.products, items).products);
  }

  /** Recording an invoice keeps the store consistent. */
  lemma RecordConsistent(s: Snapshot, rate: real, req: Request, lines: seq<Line>, now: Date)
    requires Consistent(s) && req.school.Some? && req.student.Some?
    ensures Consistent(RecordOutcome(s, rate, req, lines, now).state)
  {
    var inv := Build(NextInvoiceNumber(now, s.invoices), req.school.value, req.student.value, rate, lines, req, now);
    if Storable(inv, s.invoices) {
      AddInvoice(s, inv);
      var stored := s.(invoices := s.invoices + [Doc(s.nextId, inv)], nextId := s.nextId + 1);
      AddCommission(stored, Accrue(s.nextId, req.school.value, inv));
    }
  }

  /** Creating an invoice, whatever its outcome, keeps the store consistent. */
  lemma CreateInvoiceConsistent(s: Snapshot, caller: Option<Caller>, req: Request, now: Date)
    requires Consistent(s)
    ensures Consistent(CreateInvoiceOutcome(s, caller, req, now).state)
  {
    if Admit(s, caller, req).Ok? {
      var school := Admit(s, caller, req).value;
      var sale := Sell(s.products, req.items);
      SoldConsistent(s, req.items);
      if sale.failure.None? {
        RecordConsistent(s.(products := sale.products), school.commissionRate, req, sale.lines, now);
      }
    }
  }

  /** What a request that passed admission did to stock: every product
      lost the units of the lines the sale got through, on failure as well
      as on success, and a successful request got through every line. */
  lemma CreateInvoiceStock(s: Snapshot, caller: Option<Caller>, req: Request, now: Date)
    requires Consistent(s) && Admit(s, caller, req).Ok?
    ensures var o := CreateInvoiceOutcome(s, caller, req, now);
      var through := |Sell(s.products, req.items).lines|;
      (o.result.Ok? ==> through == |req.items|)
      && |o.state.products| == |s.products|
      && forall k :: 0 <= k < |s.products| ==>
           o.state.products[k].id == s.products[k].id
           && o.state.products[k].body.stock == s.products[k].body.stock - QtyFor(req.items[..through], s.products[k].id)
  {
    SellStock(s.products, req.items);
    SellShape(s.products, req.items);
  }

  /** A stored invoice: it is appended under the next identifier, built
      from the lines of the sale with the invoice sequence's next number and
      the school's rate; and the appended commission is its accrual. */
  lemma CreateInvoiceStored(s: Snapshot, caller: Option<Caller>, req: Request, now: Date)
    requires CreateInvoiceOutcome(s, caller, req, now).result.Ok?
    ensures req.school.Some? && req.student.Some? && Has(s.schools, req.school.value)
    ensures var o := CreateInvoiceOutcome(s, caller, req, now);
      var school := Get(s.schools, req.school.value).value;
      |o.state.invoices| == |s.invoices| + 1 && o.state.invoices[..|s.invoices|] == s.invoices
      && |o.state.commissions| == |s.commissions| + 1 && o.state.commissions[..|s.commissions|] == s.commissions
      && o.state.invoices[|s.invoices|]
         == Doc(s.nextId, Build(NextInvoiceNumber(now, s.invoices), req.school.value, req.student.value,
                                school.commissionRate, Sell(s.products, req.items).lines, req, now))
      && o.state.commissions[|s.commissions|]
         == Doc(s.nextId + 1, Accrue(s.nextId, req.school.value, o.state.invoices[|s.invoices|].body))
  {
    var school := Admit(s, caller, req).value;
    var sale := Sell(s.products, req.items);
    var inv := Build(NextInvoiceNumber(now, s.invoices), req.school.value, req.student.value,
                     school.commissionRate, sale.lines, req, now);
    RecordStores(s.(products := sale.products), school.commissionRate, req, sale.lines, now);
    SnocPrefix(s.invoices, Doc(s.nextId, inv));
    SnocPrefix(s.commissions, Doc(s.nextId + 1, Accrue(s.nextId, req.school.value, inv)));
  }

  /** The figures of a stored invoice: one line per item, each priced from
      the catalogue as it stood before the request, totals that add up, no
      discount, marked paid; its commission is pending and is the school's
      rate applied to the invoice subtotal. */
  lemma CreateInvoiceFigures(s: Snapshot, caller: Option<Caller>, req: Request, now: Date)
    requires CreateInvoiceOutcome(s, caller, req, now).result.Ok?
    ensures req.school.Some? && Has(s.schools, req.school.value)
    ensures var o := CreateInvoiceOutcome(s, caller, req, now);
      var school := Get(s.schools, req.school.value).value;
      |o.state.invoices| == |s.invoices| + 1 && |o.state.commissions| == |s.commissions| + 1
      && var inv := o.state.invoices[|s.invoices|].body;
         var c := o.state.commissions[|s.commissions|].body;
         |inv.items| == |req.items|
         && (forall j :: 0 <= j < |req.items| ==>
               Has(s.products, req.items[j].product)
               && inv.items[j] == Price(req.items[j], Get(s.products, req.items[j].product).value))
         && inv.totalAmount == inv.subtotal + inv.gstAmount - inv.discount
         && inv.totalAmount == Sum(inv.items, LineTotal)
         && inv.discount == 0.0 && inv.paymentStatus == "paid"
         && inv.commissionRate == school.commissionRate
         && c.status == CommissionModel.Pending && c.baseAmount == inv.subtotal
         && c.commissionAmount == Percent(inv.subtotal, school.commissionRate)
  {
    CreateInvoiceStored(s, caller, req, now);
    var sale := Sell(s.products, req.items);
    SellPrices(s.products, req.items);
    LineSums(sale.lines);
  }

  /** One pass of the loop of `createInvoice`: the item's product is
      re-read, the item is refused when the product is missing or short,
      and otherwise it is priced, its decremented stock is saved, and the
      running subtotal and tax grow by the line's. */
  method SellStep(products: seq<Doc<ProductModel.Product>>, lines: seq<Line>, subtotal: real, gstAmount: real,
                  item: Item)
    returns (products': seq<Doc<ProductModel.Product>>, lines': seq<Line>, subtotal': real, gstAmount': real,
             failure: Option<Failure>)
    requires subtotal == Sum(lines, LineSubtotal) && gstAmount == Sum(lines, LineGst)
    ensures SellLine(Sale(products, lines, None), item) == Sale(products', lines', failure)
    ensures subtotal' == Sum(lines', LineSubtotal) && gstAmount' == Sum(lines', LineGst)
  {
    var k := Find(products, item.product);
    if k.None? {
      return products, lines, subtotal, gstAmount, Some(ProductMissing);
    }
    var product := products[k.value].body;
    if product.stock < item.quantity {
      return products, lines, subtotal, gstAmount, Some(OutOfStock);
    }
    var line := Price(item, product);
    SumSnoc(lines, line, LineSubtotal);
    SumSnoc(lines, line, LineGst);
    products' := Replace(products, k.value, product.(stock := product.stock - item.quantity));
    lines' := lines + [line];
    subtotal', gstAmount' := subtotal + LineSubtotal(line), gstAmount + LineGst(line);
    failure := None;
  }

  /** The loop of `createInvoice` over the requested items: it stops at the
      first item refused, with the stock taken by the earlier lines still
      taken. */
  method SellItems(products: seq<Doc<ProductModel.Product>>, items: seq<Item>)
    returns (left: seq<Doc<ProductModel.Product>>, lines: seq<Line>, subtotal: real, gstAmount: real,
             failure: Option<Failure>)
    ensures Sell(products, items) == Sale(left, lines, failure)
    ensures subtotal == Sum(lines, LineSubtotal) && gstAmount == Sum(lines, LineGst)
  {
    left, lines, subtotal, gstAmount, failure := products, [], 0.0, 0.0, None;
    var i := 0;
    while i < |items|
      invariant 0 <= i <= |items|
      invariant Sell(products, items[..i]) == Sale(left, lines, failure) && failure.None?
      invariant subtotal == Sum(lines, LineSubtotal) && gstAmount == Sum(lines, LineGst)
    {
      SellNext(products, items, i);
      left, lines, subtotal, gstAmount, failure := SellStep(left, lines, subtotal, gstAmount, items[i]);
      if failure.Some? {
        return;
      }
      i := i + 1;
    }
    assert items[..i] == items;
  }

  /** An invoice that passes its schema and unique index is stored with
      its commission under the next two identifiers. */
  lemma RecordStores(s: Snapshot, rate: real, req: Request, lines: seq<Line>, now: Date)
    requires req.school.Some? && req.student.Some?
    requires Storable(Build(NextInvoiceNumber(now, s.invoices), req.school.value, req.student.value, rate, lines, req, now),
                      s.invoices)
    ensures var inv := Build(NextInvoiceNumber(now, s.invoices), req.school.value, req.student.value, rate, lines, req, now);
      RecordOutcome(s, rate, req, lines, now)
      == Outcome(Ok(s.nextId), s.(invoices := s.invoices + [Doc(s.nextId, inv)],
                                  commissions := s.commissions + [Doc(s.nextId + 1, Accrue(s.nextId, req.school.value, inv))],
                                  nextId := s.nextId + 2))
  {
  }

  /** The end of `createInvoice`: `Invoice.create`, then `Commission.create`
      for the month and year of the stored invoice date. */
  method Record(db: Store, rate: real, req: Request, lines: seq<Line>, subtotal: real, gstAmount: real,
                now: Date) returns (r: Result<Id>)
    requires req.school.Some? && req.student.Some?
    requires subtotal == Sum(lines, LineSubtotal) && gstAmount == Sum(lines, LineGst)
    modifies db
    ensures Outcome(r, db.State()) == RecordOutcome(old(db.State()), rate, req, lines, now)
  {
    ghost var s := db.State();
    var number := NextInvoiceNumber(now, db.invoices);
    var invoice := Invoice(number, req.school, req.student.value, lines, subtotal, gstAmount,
                           DefaultDiscount, subtotal + gstAmount, rate, Percent(subtotal, rate),
                           Or(req.invoiceDate, now), DefaultPaymentStatus,
                           OrElse(req.paymentMethod, DefaultPaymentMethod), req.notes, None);
    assert invoice == Build(number, req.school.value, req.student.value, rate, lines, req, now);
    if !Storable(invoice, db.invoices) {
      assert RecordOutcome(s, rate, req, lines, now) == Outcome(Fail(InvoiceRejected), s);
      return Fail(InvoiceRejected);
    }
    var invoiceId := db.nextId;
    var commission := Accrue(invoiceId, req.school.value, invoice);
    RecordStores(s, rate, req, lines, now);
    db.invoices, db.commissions, db.nextId :=
      db.invoices + [Doc(invoiceId, invoice)], db.commissions + [Doc(invoiceId + 1, commission)], invoiceId + 2;
    r := Ok(invoiceId);
  }

  /** `createInvoice`. */
  method CreateInvoice(db: Store, caller: Option<Caller>, req: Request, now: Date) returns (r: Result<Id>)
    requires db.Valid()
    modifies db
    ensures Outcome(r, db.State()) == CreateInvoiceOutcome(old(db.State()), caller, req, now)
    ensures db.Valid()
  {
    CreateInvoiceConsistent(db.State(), caller, req, now);
    var admitted := Admit(db.State(), caller, req);
    if admitted.Fail? {
      return Fail(admitted.failure);
    }
    var left, lines, subtotal, gstAmount, failure := SellItems(db.products, req.items);
    db.products := left;
    if failure.Some? {
      return Fail(failure.value);
    }
    r := Record(db, admitted.value.commissionRate, req, lines, subtotal, gstAmount, now);
  }

  // ---------------------------------------------------------------------
  // Reading

  datatype Query = Query(school: Option<Id>, student: Option<Id>, dates: DateRange)

  /** The filter `getAllInvoices` builds: the owned-school scope (None for
      an unrestricted caller), the school and student filters and the date
      window. An invoice without a school never matches a scope. */
  predicate Selected(inv: Invoice, owned: Option<seq<Id>>, q: Query)
  {
    (owned.None? || (inv.school.Some? && inv.school.value in owned.value))
    && (q.school.None? || inv.school == q.school)
    && (q.student.None? || inv.student == q.student.value)
    && q.dates.Contains(inv.invoiceDate)
  }

  /** `getAllInvoices` without pagination: a restricted caller naming a
      school it did not create gets 403; otherwise exactly the matching
      invoices, and a restricted caller only ever sees invoices of schools
      it created. */
  function ListInvoices(s: Snapshot, caller: Option<Caller>, q: Query): (r: Result<seq<Doc<Invoice>>>)
    ensures r.Fail? <==> Restricted(caller) && q.school.Some?
                         && q.school.value !in OwnedSchoolIds(caller, s.schools).value
    ensures r.Fail? ==> r.failure.Forbidden?
    ensures r.Ok? ==> forall k :: 0 <= k < |r.value| ==>
      r.value[k] in s.invoices && Selected(r.value[k].body, OwnedSchoolIds(caller, s.schools), q)
    ensures r.Ok? ==> forall k :: 0 <= k < |s.invoices| ==>
      Selected(s.invoices[k].body, OwnedSchoolIds(caller, s.schools), q) ==> s.invoices[k] in r.value
    ensures r.Ok? && Restricted(caller) ==> forall k :: 0 <= k < |r.value| ==>
      r.value[k].body.school.Some? && exists j :: 0 <= j < |s.schools| && s.schools[j].id == r.value[k].body.school.value
                                               && s.schools[j].body.createdBy == Some(caller.value.id)
  {
    var owned := OwnedSchoolIds(caller, s.schools);
    if owned.Some? && q.school.Some? && q.school.value !in owned.value then
      Fail(Forbidden("Forbidden: school not owned"))
    else
      Ok(Filter(s.invoices, (d: Doc<Invoice>) => Selected(d.body, owned, q)))
  }

  /** `getInvoiceById`: 404 when absent; then 403 for a restricted caller
      unless the invoice's school exists and was created by the caller. */
  function InvoiceById(s: Snapshot, caller: Option<Caller>, id: Id): (r: Result<Invoice>)
    ensures r.Fail? && r.failure.NotFound? <==> !Has(s.invoices, id)
    ensures r.Fail? && r.failure.Forbidden? <==>
      Has(s.invoices, id) && !MayTouch(caller, SchoolCreator(s.schools, Get(s.invoices, id).value.school))
    ensures r.Ok? ==> Get(s.invoices, id) == Some(r.value)
  {
    match Get(s.invoices, id)
    case None => Fail(NotFound("Invoice not found"))
    case Some(inv) =>
      if MayTouch(caller, SchoolCreator(s.schools, inv.school)) then Ok(inv)
      else Fail(Forbidden("Forbidden: not your invoice"))
  }

  /** `searchStudent`: a missing or empty query is refused with 400;
      otherwise the first 10 active students whose roll number or name
      matches, restricted to the caller's own students, and all of them when
      fewer than 10 match. `matches` stands
      for the case-insensitive regular expression test. */
  function SearchStudents(s: Snapshot, caller: Option<Caller>, query: Option<string>,
                          matches: (string, string) -> bool): (r: Result<seq<Doc<StudentModel.Student>>>)
    ensures r.Fail? <==> query.None? || query.value == ""
    ensures r.Fail? ==> r.failure.BadRequest?
    ensures r.Ok? ==> |r.value| <= 10
    ensures r.Ok? ==> forall k :: 0 <= k < |r.value| ==>
      r.value[k] in s.students && r.value[k].body.isActive
      && (matches(query.value, r.value[k].body.rollNumber) || matches(query.value, r.value[k].body.name))
      && MayTouch(caller, r.value[k].body.createdBy)
    ensures r.Ok? && |r.value| < 10 ==> forall k :: 0 <= k < |s.students| ==>
      (s.students[k].body.isActive
       && (matches(query.value, s.students[k].body.rollNumber) || matches(query.value, s.students[k].body.name))
       && MayTouch(caller, s.students[k].body.createdBy)) ==> s.students[k] in r.value
  {
    if query.None? || query.value == "" then Fail(BadRequest("Search query is required"))
    else
      var found := Filter(s.students, (d: Doc<StudentModel.Student>) =>
        (matches(query.value, d.body.rollNumber) || matches(query.value, d.body.name))
        && d.body.isActive && MayTouch(caller, d.body.createdBy));
      Ok(Take(found, 10))
  }
}
