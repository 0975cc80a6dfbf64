/** Purchases from suppliers: numbering, receiving stock line by line at the
    prices the caller quotes, recording the purchase, and payments against
    it, each under the creator-based ownership rule. */
module PurchaseController {
  import opened Common
  import opened Tables
  import opened Aggregate
  import opened Access
  import opened Database
  import Numbering
  import ProductModel
  import opened PurchaseModel

  // ---------------------------------------------------------------------
  // Receiving stock

  /** A requested line: the product, the quantity received and the unit
      price the caller paid. */
  datatype Item = Item(product: Id, quantity: int, unitPrice: real)

  function LineTotal(l: Line): real
  {
    l.totalPrice
  }

  /** The line stored for a requested item: the caller's unit price times
      the quantity, tax excluded. */
  function Cost(item: Item): (l: Line)
    ensures l.product == item.product && l.quantity == item.quantity && l.unitPrice == item.unitPrice
    ensures l.totalPrice == item.quantity as real * item.unitPrice
  {
    Line(item.product, item.quantity, item.unitPrice, item.quantity as real * item.unitPrice)
  }

  /** The products after the lines received so far, the lines costed so
      far, the tax accumulated so far and the failure that stopped the
      loop, if any. */
  datatype Receipt = Receipt(products: seq<Doc<ProductModel.Product>>, lines: seq<Line>, gst: real,
                             failure: Option<Failure>)

  const ProductMissing: Failure := BadRequest("Product not found")

  /** `product.save()` rejects a negative stock (`min: 0`) by throwing. */
  const StockRejected: Failure := ServerError("Product validation failed")

  /** One iteration of the loop: look the product up, cost the line, tax
      it at the product's GST rate, and save the product with the quantity
      added. A negative quantity can take stock below zero, which the save
      refuses. */
  function ReceiveLine(r: Receipt, item: Item): (r': Receipt)
    ensures |r'.products| == |r.products|
    ensures r'.failure.None? ==> |r'.lines| == |r.lines| + 1
    ensures r'.failure.Some? ==> r'.lines == r.lines && r'.products == r.products
  {
    match Find(r.products, item.product)
    case None => r.(failure := Some(ProductMissing))
    case Some(k) =>
      var p := r.products[k].body;
      var line := Cost(item);
      var gst := Percent(line.totalPrice, p.gstRate);
      if p.stock + item.quantity < 0 then r.(failure := Some(StockRejected))
      else Receipt(Replace(r.products, k, p.(stock := p.stock + item.quantity)), r.lines + [line], r.gst + gst, None)
  }

  /** The loop over the requested items, stopping at the first failure. */
  function Receive(products: seq<Doc<ProductModel.Product>>, items: seq<Item>): (r: Receipt)
    ensures |r.products| == |products|
    ensures |r.lines| <= |items|
    ensures r.failure.None? <==> |r.lines| == |items|
  {
    if items == [] then Receipt(products, [], 0.0, None)
    else
      var before := Receive(products, items[..|items| - 1]);
      if before.failure.Some? then before else ReceiveLine(before, items[|items| - 1])
  }

  /** Units of one product received by a list of items. */
  function QtyFor(items: seq<Item>, product: Id): int
  {
    if items == [] then 0
    else QtyFor(items[..|items| - 1], product)
         + (if items[|items| - 1].product == product then items[|items| - 1].quantity else 0)
  }

  lemma QtyForSnoc(items: seq<Item>, x: Item, product: Id)
    ensures QtyFor(items + [x], product) == QtyFor(items, product) + (if x.product == product then x.quantity else 0)
  {
    assert (items + [x])[..|items|] == items;
  }

  /** Receiving changes nothing but stock levels. */
  lemma {:induction false} ReceiveShape(ps: seq<Doc<ProductModel.Product>>, items: seq<Item>)
    ensures SameCatalogue(ps, Receive(ps, items).products)
  {
    if items != [] {
      ReceiveShape(ps, items[..|items| - 1]);
    }
  }

  /** Stock after receiving: each product has gained exactly the units of
      the lines that got through (all of them on success; on failure the
      ones before the failing line, which stay added). */
  lemma {:induction false} ReceiveStock(ps: seq<Doc<ProductModel.Product>>, items: seq<Item>)
    requires DistinctIds(ps)
    ensures var r := Receive(ps, items);
      forall k :: 0 <= k < |ps| ==>
        r.products[k].body.stock == ps[k].body.stock + QtyFor(items[..|r.lines|], ps[k].id)
  {
    if items != [] {
      var n := |items| - 1;
      var init := items[..n];
      var before := Receive(ps, init);
      ReceiveStock(ps, init);
      ReceiveShape(ps, init);
      var r := Receive(ps, items);
      if before.failure.Some? {
        var j := |before.lines|;
        assert r == before;
        assert items[..j] == init[..j];
      } else {
        assert init[..n] == init;
        var item := items[n];
        assert r == ReceiveLine(before, item);
        match Find(before.products, item.product) {
          case None =>
            assert items[..|r.lines|] == init;
          case Some(m) =>
            if before.products[m].body.stock + item.quantity >= 0 {
              assert items[..|r.lines|] == init + [item];
              forall k | 0 <= k < |ps|
                ensures r.products[k].body.stock == ps[k].body.stock + QtyFor(init + [item], ps[k].id)
              {
                QtyForSnoc(init, item, ps[k].id);
                assert before.products[k].body.stock == ps[k].body.stock + QtyFor(init, ps[k].id);
                assert before.products[m].id == item.product == ps[m].id;
                if k != m {
                  assert ps[k].id != ps[m].id;
                  assert r.products[k] == before.products[k];
                }
              }
            } else {
              assert items[..|r.lines|] == init;
            }
        }
      }
    }
  }

  /** Stock never goes negative: receiving keeps every product valid. */
  lemma {:induction false} ReceiveKeepsValid(ps: seq<Doc<ProductModel.Product>>, items: seq<Item>)
    requires All(ps, ProductModel.Valid)
    ensures All(Receive(ps, items).products, ProductModel.Valid)
  {
    if items != [] {
      ReceiveKeepsValid(ps, items[..|items| - 1]);
    }
  }

  /** Every line that got through is the caller's line costed at the
      caller's price: the catalogue price plays no part. */
  lemma {:induction false} ReceiveCosts(ps: seq<Doc<ProductModel.Product>>, items: seq<Item>)
    ensures var r := Receive(ps, items);
      forall j :: 0 <= j < |r.lines| ==> r.lines[j] == Cost(items[j]) && Has(ps, items[j].product)
  {
    if items != [] {
      var n := |items| - 1;
      var init := items[..n];
      var before := Receive(ps, init);
      ReceiveCosts(ps, init);
      ReceiveShape(ps, init);
      var r := Receive(ps, items);
      if before.failure.None? && r.failure.None? {
        assert r == ReceiveLine(before, items[n]);
        FindSame(ps, before.products, items[n].product);
        assert r.lines == before.lines + [Cost(items[n])] && |before.lines| == n;
        forall j | 0 <= j < |r.lines| ensures r.lines[j] == Cost(items[j]) && Has(ps, items[j].product) {
          if j < n {
            assert r.lines[j] == before.lines[j] && items[j] == init[j];
          }
        }
      } else {
        assert r.lines == before.lines;
        forall j | 0 <= j < |r.lines| ensures r.lines[j] == Cost(items[j]) && Has(ps, items[j].product) {
          assert items[j] == init[j];
        }
      }
    }
  }

  /** A negative quantity is the only way receiving can fail for a product
      that exists: with non-negative quantities the loop stops only at a
      missing product. */
  lemma {:induction false} ReceiveFailsOnlyOnMissing(ps: seq<Doc<ProductModel.Product>>, items: seq<Item>)
    requires All(ps, ProductModel.Valid)
    requires forall j :: 0 <= j < |items| ==> items[j].quantity >= 0
    ensures Receive(ps, items).failure.Some? ==> Receive(ps, items).failure == Some(ProductMissing)
  {
    if items != [] {
      var init := items[..|items| - 1];
      ReceiveFailsOnlyOnMissing(ps, init);
      ReceiveKeepsValid(ps, init);
    }
  }

  /** The next line that finds its product and keeps stock non-negative
      extends a receipt that has not failed. */
  lemma ReceiveNext(ps: seq<Doc<ProductModel.Product>>, items: seq<Item>, i: nat,
                    products: seq<Doc<ProductModel.Product>>, lines: seq<Line>, gst: real, k: nat)
    requires i < |items| && Receive(ps, items[..i]) == Receipt(products, lines, gst, None)
    requires Find(products, items[i].product) == Some(k) && products[k].body.stock + items[i].quantity >= 0
    ensures Receive(ps, items[..i + 1]) ==
      Receipt(Replace(products, k, products[k].body.(stock := products[k].body.stock + items[i].quantity)),
              lines + [Cost(items[i])], gst + Percent(Cost(items[i]).totalPrice, products[k].body.gstRate), None)
  {
    assert Receive(ps, items[..i + 1]) == ReceiveLine(Receipt(products, lines, gst, None), items[i]) by {
      assert items[..i + 1][..i] == items[..i];
    }
  }

  /** Once line j has failed, the rest of the items are never looked at. */
  lemma {:induction false} ReceiveFailed(ps: seq<Doc<ProductModel.Product>>, items: seq<Item>, j: nat)
    requires j < |items| && Receive(ps, items[..j + 1]).failure.Some?
    ensures Receive(ps, items) == Receive(ps, items[..j + 1])
    decreases |items|
  {
    if |items| > j + 1 {
      var init := items[..|items| - 1];
      assert init[..j + 1] == items[..j + 1];
      ReceiveFailed(ps, init, j);
    } else {
      assert items[..j + 1] == items;
    }
  }

  /** A line whose product is missing, or whose save is refused, stops the
      loop there with the earlier increments in place. */
  lemma ReceiveStopsAt(ps: seq<Doc<ProductModel.Product>>, items: seq<Item>, i: nat,
                       products: seq<Doc<ProductModel.Product>>, lines: seq<Line>, gst: real)
    requires i < |items| && Receive(ps, items[..i]) == Receipt(products, lines, gst, None)
    ensures Find(products, items[i].product).None? ==>
      Receive(ps, items) == Receipt(products, lines, gst, Some(ProductMissing))
    ensures Find(products, items[i].product).Some?
            && products[Find(products, items[i].product).value].body.stock + items[i].quantity < 0 ==>
      Receive(ps, items) == Receipt(products, lines, gst, Some(StockRejected))
  {
    assert items[..i + 1][..i] == items[..i];
    if ReceiveLine(Receipt(products, lines, gst, None), items[i]).failure.Some? {
      ReceiveFailed(ps, items, i);
    }
  }

  /** Receiving keeps the store consistent. */
  lemma ReceivedConsistent(s: Snapshot, items: seq<Item>)
    requires Consistent(s)
    ensures Consistent(s.(products := Receive(s.products, items).products))
  {
    ReceiveShape(s.products, items);
    ReceiveKeepsValid(s.products, items);
    RestockConsistent(s, Receive(s.products, items).products);
  }

  // ---------------------------------------------------------------------
  // Numbering and recording

  /** The numbers of the stored purchases in creation order. */
  function Numbers(purchases: seq<Doc<Purchase>>): (r: seq<string>)
    ensures |r| == |purchases|
    ensures forall k :: 0 <= k < |purchases| ==> r[k] == purchases[k].body.purchaseNumber
  {
    seq(|purchases|, k requires 0 <= k < |purchases| => purchases[k].body.purchaseNumber)
  }

  /** `generatePurchaseNumber`: the same rule as invoices, under "PO". */
  function NextPurchaseNumber(now: Date, purchases: seq<Doc<Purchase>>): string
  {
    Numbering.NextNumber("PO", now, Numbers(purchases))
  }

  /** A new number starts with "PO" and the period of the request date,
      and the first of its period has sequence 0001. */
  lemma NextPurchaseNumberFormat(now: Date, purchases: seq<Doc<Purchase>>)
    ensures Numbering.StartsWith(NextPurchaseNumber(now, purchases), "PO" + Numbering.Period(now))
    ensures (forall k :: 0 <= k < |purchases| ==>
               !Numbering.StartsWith(purchases[k].body.purchaseNumber, "PO" + Numbering.Period(now)))
            ==> NextPurchaseNumber(now, purchases) == "PO" + Numbering.Period(now) + "0001"
  {
    var prefix := "PO" + Numbering.Period(now);
    Numbering.PrefixStarts(prefix, Numbering.NextSequence(Numbering.LastWithPrefix(Numbers(purchases), prefix)));
    if forall k :: 0 <= k < |purchases| ==> !Numbering.StartsWith(purchases[k].body.purchaseNumber, prefix) {
      Numbering.FirstOfPeriod(prefix, Numbers(purchases));
    }
  }


  datatype Request = Request(
    supplier: Option<Id>,
    items: seq<Item>,
    purchaseDate: Option<Date>,
    notes: Option<string>)

  /** The purchase stored for received lines: the subtotal and tax summed
      over the lines, the total their sum, dated `now` unless the caller
      gives a date, pending and unpaid, created by the caller if there is
      one. */
  function Build(number: string, supplier: Id, lines: seq<Line>, subtotal: real, gst: real, req: Request,
                 caller: Option<Caller>, now: Date): (p: Purchase)
    requires subtotal == Sum(lines, LineTotal)
    ensures p.items == lines && p.purchaseNumber == number && p.supplier == supplier
    ensures p.subtotal == Sum(lines, LineTotal) && p.gstAmount == gst
    ensures p.totalAmount == p.subtotal + p.gstAmount
    ensures p.purchaseDate == Or(req.purchaseDate, now) && p.notes == req.notes
    ensures p.paymentStatus == "pending" && p.paidAmount == Some(0.0)
    ensures p.createdBy == (if caller.Some? then Some(caller.value.id) else None)
  {
    Purchase(number, supplier, lines, subtotal, gst, subtotal + gst, Or(req.purchaseDate, now),
             DefaultPaymentStatus, Some(DefaultPaidAmount), None, req.notes,
             if caller.Some? then Some(caller.value.id) else None)
  }

  /** `Purchase.create` succeeds when the document passes the schema (every
      line quantity at least 1, every unit price at least 0) and its number
      is not taken; otherwise it throws, which answers 500. */
  predicate Storable(p: Purchase, purchases: seq<Doc<Purchase>>)
  {
    Valid(p) && !Taken(purchases, NumberOf, p.purchaseNumber, None)
  }

  const PurchaseRejected: Failure := ServerError("Purchase validation failed")
  const SupplierMissing: Failure := BadRequest("Supplier not found")

  /** `createPurchase`, as a function of the store before the request. An
      unknown supplier is refused before any stock changes; stock is saved
      line by line, so a failing line or a rejected purchase document leaves
      the earlier increments in place. */
  function CreatePurchaseOutcome(s: Snapshot, caller: Option<Caller>, req: Request, now: Date): (o: Outcome<Id>)
    ensures req.supplier.None? || !Has(s.suppliers, req.supplier.value) ==> o == Outcome(Fail(SupplierMissing), s)
    ensures o.result.Ok? ==> o.result.value == s.nextId && o.state.nextId == s.nextId + 1
    ensures o.result.Fail? ==> o.state.nextId == s.nextId && o.state.purchases == s.purchases
    ensures o.state.suppliers == s.suppliers && o.state.invoices == s.invoices
    ensures (req.supplier.Some? && Has(s.suppliers, req.supplier.value)
             && Receive(s.products, req.items).failure.Some?)
            ==> o == Outcome(Fail(Receive(s.products, req.items).failure.value),
                             s.(products := Receive(s.products, req.items).products))
    ensures (req.supplier.Some? && Has(s.suppliers, req.supplier.value)
             && Receive(s.products, req.items).failure.None?)
            ==> o == RecordOutcome(s.(products := Receive(s.products, req.items).products), caller, req,
                                   Receive(s.products, req.items).lines, Receive(s.products, req.items).gst, now)
  {
    if req.supplier.None? || !Has(s.suppliers, req.supplier.value) then Outcome(Fail(SupplierMissing), s)
    else
      var receipt := Receive(s.products, req.items);
      var received := s.(products := receipt.products);
      if receipt.failure.Some? then Outcome(Fail(receipt.failure.value), received)
      else RecordOutcome(received, caller, req, receipt.lines, receipt.gst, now)
  }

  /** The last stage of `createPurchase`, after every line was received. */
  function RecordOutcome(s: Snapshot, caller: Option<Caller>, req: Request, lines: seq<Line>, gst: real,
                         now: Date): (o: Outcome<Id>)
    requires req.supplier.Some?
    ensures o.result.Ok? ==> o.result.value == s.nextId && o.state.nextId == s.nextId + 1
    ensures o.result.Fail? ==> o.result.failure == PurchaseRejected && o.state == s
    ensures var p := Build(NextPurchaseNumber(now, s.purchases), req.supplier.value, lines, Sum(lines, LineTotal), gst,
                           req, caller, now);
      Storable(p, s.purchases)
      ==> o == Outcome(Ok(s.nextId), s.(purchases := s.purchases + [Doc(s.nextId, p)], nextId := s.nextId + 1))
  {
    var p := Build(NextPurchaseNumber(now, s.purchases), req.supplier.value, lines, Sum(lines, LineTotal), gst, req,
                   caller, now);
    if !Storable(p, s.purchases) then Outcome(Fail(PurchaseRejected), s)
    else Outcome(Ok(s.nextId), s.(purchases := s.purchases + [Doc(s.nextId, p)], nextId := s.nextId + 1))
  }

  /** A request naming a known supplier whose receipt reaches line j (the
      lines before it went through) is refused with 400 "Product not found"
      when line j names no product, and with the save's 500 when its
      quantity would take that product's stock, as the earlier lines left
      it, below zero. */
  lemma CreatePurchaseRefusesLine(s: Snapshot, caller: Option<Caller>, req: Request, now: Date, j: nat)
    requires req.supplier.Some? && Has(s.suppliers, req.supplier.value) && j < |req.items|
    requires Receive(s.products, req.items[..j]).failure.None?
    ensures var left := Receive(s.products, req.items[..j]).products;
      var o := CreatePurchaseOutcome(s, caller, req, now);
      (Find(left, req.items[j].product).None? ==> o.result == Fail(ProductMissing))
      && (Find(left, req.items[j].product).Some?
          && left[Find(left, req.items[j].product).value].body.stock + req.items[j].quantity < 0
          ==> o.result == Fail(StockRejected))
  {
    var before := Receive(s.products, req.items[..j]);
    ReceiveStopsAt(s.products, req.items, j, before.products, before.lines, before.gst);
  }

  /** Storing a valid purchase under a fresh identifier and an unused number
      keeps the store consistent. */
  lemma RecordConsistent(s: Snapshot, caller: Option<Caller>, req: Request, lines: seq<Line>, gst: real, now: Date)
    requires Consistent(s) && req.supplier.Some?
    ensures Consistent(RecordOutcome(s, caller, req, lines, gst, now).state)
  {
    var p := Build(NextPurchaseNumber(now, s.purchases), req.supplier.value, lines, Sum(lines, LineTotal), gst, req,
                   caller, now);
    if Storable(p, s.purchases) {
      InsertKeyed(s.purchases, s.nextId, Doc(s.nextId, p));
      InsertAll(s.purchases, Valid, Doc(s.nextId, p));
      InsertDistinctBy(s.purchases, NumberOf, Doc(s.nextId, p));
    }
  }

  /** Creating a purchase, whatever its outcome, keeps the store consistent. */
  lemma CreatePurchaseConsistent(s: Snapshot, caller: Option<Caller>, req: Request, now: Date)
    requires Consistent(s)
    ensures Consistent(CreatePurchaseOutcome(s, caller, req, now).state)
  {
    if req.supplier.Some? && Has(s.suppliers, req.supplier.value) {
      var receipt := Receive(s.products, req.items);
      ReceivedConsistent(s, req.items);
      if receipt.failure.None? {
        RecordConsistent(s.(products := receipt.products), caller, req, receipt.lines, receipt.gst, now);
      }
    }
  }

  /** What a request naming a known supplier did to stock: every product
      gained the units of the lines that got through, on failure as well as
      on success, and a successful request got through every line. */
  lemma CreatePurchaseStock(s: Snapshot, caller: Option<Caller>, req: Request, now: Date)
    requires Consistent(s) && req.supplier.Some? && Has(s.suppliers, req.supplier.value)
    ensures var o := CreatePurchaseOutcome(s, caller, req, now);
      var through := |Receive(s.products, req.items).lines|;
      (o.result.Ok? ==> through == |req.items|)
      && |o.state.products| == |s.products|
      && forall k :: 0 <= k < |s.products| ==>
           o.state.products[k].id == s.products[k].id
           && o.state.products[k].body.stock == s.products[k].body.stock + QtyFor(req.items[..through], s.products[k].id)
  {
    ReceiveStock(s.products, req.items);
    ReceiveShape(s.products, req.items);
  }

  /** A stored purchase: it is the last purchase, numbered by the purchase
      sequence, its lines are the caller's lines costed at the caller's
      prices, its total is subtotal plus tax, and it starts unpaid. */
  lemma CreatePurchaseStored(s: Snapshot, caller: Option<Caller>, req: Request, now: Date)
    requires CreatePurchaseOutcome(s, caller, req, now).result.Ok?
    ensures var o := CreatePurchaseOutcome(s, caller, req, now);
      |o.state.purchases| == |s.purchases| + 1 && o.state.purchases[..|s.purchases|] == s.purchases
      && var p := o.state.purchases[|s.purchases|];
         p.id == s.nextId && p.body.purchaseNumber == NextPurchaseNumber(now, s.purchases)
         && p.body.supplier == req.supplier.value
         && |p.body.items| == |req.items|
         && (forall j :: 0 <= j < |req.items| ==>
               Has(s.products, req.items[j].product) && p.body.items[j] == Cost(req.items[j]))
         && p.body.subtotal == Sum(p.body.items, LineTotal)
         && p.body.totalAmount == p.body.subtotal + p.body.gstAmount
         && p.body.paymentStatus == "pending" && p.body.paidAmount == Some(0.0)
  {
    ReceiveCosts(s.products, req.items);
    var o := CreatePurchaseOutcome(s, caller, req, now);
    assert (s.purchases + [o.state.purchases[|s.purchases|]])[..|s.purchases|] == s.purchases;
  }

  /** One pass of the loop of `createPurchase`: look the product up, refuse
      a missing one or a stock that would go negative, otherwise add the
      line and raise the stock. */
  method ReceiveStep(products: seq<Doc<ProductModel.Product>>, lines: seq<Line>, subtotal: real, gstAmount: real,
                     item: Item)
    returns (products': seq<Doc<ProductModel.Product>>, lines': seq<Line>, subtotal': real, gstAmount': real,
             failure: Option<Failure>)
    requires subtotal == Sum(lines, LineTotal)
    ensures ReceiveLine(Receipt(products, lines, gstAmount, None), item) == Receipt(products', lines', gstAmount', failure)
    ensures subtotal' == Sum(lines', LineTotal)
  {
    var k := Find(products, item.product);
    if k.None? {
      return products, lines, subtotal, gstAmount, Some(ProductMissing);
    }
    var product := products[k.value].body;
    var line := Cost(item);
    if product.stock + item.quantity < 0 {
      return products, lines, subtotal, gstAmount, Some(StockRejected);
    }
    SumSnoc(lines, line, LineTotal);
    products' := Replace(products, k.value, product.(stock := product.stock + item.quantity));
    lines' := lines + [line];
    subtotal' := subtotal + LineTotal(line);
    gstAmount' := gstAmount + Percent(line.totalPrice, product.gstRate);
    failure := None;
  }

  /** The loop of `createPurchase` over the requested items. */
  method ReceiveItems(db: Store, items: seq<Item>) returns (lines: seq<Line>, subtotal: real, gstAmount: real,
                                                          failure: Option<Failure>)
    modifies db
    ensures Receive(old(db.products), items) == Receipt(db.products, lines, gstAmount, failure)
    ensures subtotal == Sum(lines, LineTotal)
    ensures db.State() == old(db.State()).(products := db.products)
  {
    ghost var ps := db.products;
    subtotal, gstAmount := 0.0, 0.0;
    lines := [];
    var i := 0;
    while i < |items|
      invariant 0 <= i <= |items|
      invariant Receive(ps, items[..i]) == Receipt(db.products, lines, gstAmount, None)
      invariant subtotal == Sum(lines, LineTotal)
      invariant db.State() == old(db.State()).(products := db.products)
    {
      var products', lines', subtotal', gstAmount', f := ReceiveStep(db.products, lines, subtotal, gstAmount, items[i]);
      assert Receive(ps, items[..i + 1]) == Receipt(products', lines', gstAmount', f) by {
        assert items[..i + 1][..i] == items[..i];
      }
      if f.Some? {
        ReceiveFailed(ps, items, i);
        return lines, subtotal, gstAmount, f;
      }
      db.products := products';
      lines, subtotal, gstAmount := lines', subtotal', gstAmount';
      i := i + 1;
    }
    assert items[..i] == items;
    failure := None;
  }

  /** The end of `createPurchase`: `Purchase.create`. */
  method Record(db: Store, caller: Option<Caller>, req: Request, lines: seq<Line>, subtotal: real,
                gstAmount: real, now: Date) returns (r: Result<Id>)
    requires req.supplier.Some? && subtotal == Sum(lines, LineTotal)
    modifies db
    ensures Outcome(r, db.State()) == RecordOutcome(old(db.State()), caller, req, lines, gstAmount, now)
  {
    var purchase := Build(NextPurchaseNumber(now, db.purchases), req.supplier.value, lines, subtotal, gstAmount,
                          req, caller, now);
    if !Storable(purchase, db.purchases) {
      return Fail(PurchaseRejected);
    }
    r := Ok(db.nextId);
    db.purchases := db.purchases + [Doc(db.nextId, purchase)];
    db.nextId := db.nextId + 1;
  }

  /** `createPurchase`. */
  method CreatePurchase(db: Store, caller: Option<Caller>, req: Request, now: Date) returns (r: Result<Id>)
    requires db.Valid()
    modifies db
    ensures Outcome(r, db.State()) == CreatePurchaseOutcome(old(db.State()), caller, req, now)
    ensures db.Valid()
  {
    CreatePurchaseConsistent(db.State(), caller, req, now);
    if req.supplier.None? || !Has(db.suppliers, req.supplier.value) {
      return Fail(SupplierMissing);
    }
    var lines, subtotal, gstAmount, failure := ReceiveItems(db, req.items);
    if failure.Some? {
      return Fail(failure.value);
    }
    r := Record(db, caller, req, lines, subtotal, gstAmount, now);
  }

  // ---------------------------------------------------------------------
  // Payments

  /** The status a payment sets: paid once the amount covers the total,
      partial for any positive amount short of it, pending otherwise
      (including a missing amount). */
  function PaymentStatusFor(paid: Option<real>, total: real): (status: string)
    ensures PaymentStatus(status)
    ensures status == "paid" <==> paid.Some? && paid.value >= total
    ensures status == "partial" <==> paid.Some? && 0.0 < paid.value < total
    ensures status == "pending" <==> paid.None? || (paid.value <= 0.0 && paid.value < total)
  {
    if paid.Some? && paid.value >= total then "paid"
    else if paid.Some? && paid.value > 0.0 then "partial"
    else "pending"
  }

  /** `updatePurchasePayment`, as a function of the store: 404, then 403 for
      a restricted caller that did not create the purchase, else the amount
      and date (today unless given) are recorded and the status recomputed
      from the stored total. */
  function PayOutcome(s: Snapshot, caller: Option<Caller>, id: Id, paid: Option<real>,
                      paymentDate: Option<Date>, now: Date): (o: Outcome<Purchase>)
    ensures !Has(s.purchases, id) ==> o.result.Fail? && o.result.failure.NotFound? && o.state == s
    ensures Has(s.purchases, id) && !MayTouch(caller, Get(s.purchases, id).value.createdBy) ==>
      o.result.Fail? && o.result.failure.Forbidden? && o.state == s
    ensures o.result.Ok? ==>
      var stored := Get(s.purchases, id).value;
      o.result.value == stored.(paidAmount := paid, paymentDate := Some(Or(paymentDate, now)),
                                paymentStatus := PaymentStatusFor(paid, stored.totalAmount))
      && o.state == s.(purchases := Replace(s.purchases, Find(s.purchases, id).value, o.result.value))
  {
    match Find(s.purchases, id)
    case None => Outcome(Fail(NotFound("Purchase not found")), s)
    case Some(k) =>
      var stored := s.purchases[k].body;
      if !MayTouch(caller, stored.createdBy) then Outcome(Fail(Forbidden("Forbidden: not your purchase")), s)
      else
        var paidNow := stored.(paidAmount := paid, paymentDate := Some(Or(paymentDate, now)),
                               paymentStatus := PaymentStatusFor(paid, stored.totalAmount));
        match Checked(paidNow)
        case Fail(f) => Outcome(Fail(f), s)
        case Ok(p) => Outcome(Ok(p), s.(purchases := Replace(s.purchases, k, p)))
  }

  /** A payment on a valid purchase always passes the schema and keeps the
      store consistent. */
  lemma PayConsistent(s: Snapshot, caller: Option<Caller>, id: Id, paid: Option<real>,
                      paymentDate: Option<Date>, now: Date)
    requires Consistent(s)
    ensures var o := PayOutcome(s, caller, id, paid, paymentDate, now);
      Consistent(o.state)
      && (Has(s.purchases, id) && MayTouch(caller, Get(s.purchases, id).value.createdBy) ==> o.result.Ok?)
  {
    if Find(s.purchases, id).Some? {
      var k := Find(s.purchases, id).value;
      var stored := s.purchases[k].body;
      var p := stored.(paidAmount := paid, paymentDate := Some(Or(paymentDate, now)),
                       paymentStatus := PaymentStatusFor(paid, stored.totalAmount));
      assert Valid(stored);
      ReplaceKeyed(s.purchases, s.nextId, k, p);
      ReplaceAll(s.purchases, Valid, k, p);
      forall i | 0 <= i < |s.purchases| && i != k ensures NumberOf(s.purchases[i].body) != NumberOf(p) {
        if i < k {
          assert NumberOf(s.purchases[i].body) != NumberOf(s.purchases[k].body);
        } else {
          assert NumberOf(s.purchases[k].body) != NumberOf(s.purchases[i].body);
        }
      }
      ReplaceDistinctBy(s.purchases, NumberOf, k, p);
    }
  }

  /** `updatePurchasePayment`: the purchase document is updated in place. */
  method Pay(db: Store, caller: Option<Caller>, id: Id, paid: Option<real>, paymentDate: Option<Date>,
             now: Date) returns (r: Result<Purchase>)
    requires db.Valid()
    modifies db
    ensures Outcome(r, db.State()) == PayOutcome(old(db.State()), caller, id, paid, paymentDate, now)
    ensures db.Valid()
  {
    PayConsistent(db.State(), caller, id, paid, paymentDate, now);
    var k := Find(db.purchases, id);
    if k.None? {
      return Fail(NotFound("Purchase not found"));
    }
    var purchase := db.purchases[k.value].body;
    if !MayTouch(caller, purchase.createdBy) {
      return Fail(Forbidden("Forbidden: not your purchase"));
    }
    purchase := purchase.(paidAmount := paid);
    purchase := purchase.(paymentDate := Some(Or(paymentDate, now)));
    if paid.Some? && paid.value >= purchase.totalAmount {
      purchase := purchase.(paymentStatus := "paid");
    } else if paid.Some? && paid.value > 0.0 {
      purchase := purchase.(paymentStatus := "partial");
    } else {
      purchase := purchase.(paymentStatus := "pending");
    }
    if !Valid(purchase) {
      return Fail(ServerError("Purchase validation failed"));
    }
    db.purchases := Replace(db.purchases, k.value, purchase);
    return Ok(purchase);
  }

  // ---------------------------------------------------------------------
  // Reading and editing

  datatype Query = Query(supplier: Option<Id>, status: Option<string>, dates: DateRange)

  /** The filter `getAllPurchases` builds: the caller's own purchases for a
      restricted caller, then the supplier, status and date filters. */
  predicate Selected(p: Purchase, caller: Option<Caller>, q: Query)
  {
    (!Restricted(caller) || p.createdBy == Some(caller.value.id))
    && (q.supplier.None? || p.supplier == q.supplier.value)
    && (q.status.None? || p.paymentStatus == q.status.value)
    && q.dates.Contains(p.purchaseDate)
  }

  /** `getAllPurchases` without pagination: exactly the matching purchases,
      and a restricted caller only ever sees its own. */
  function ListPurchases(s: Snapshot, caller: Option<Caller>, q: Query): (r: seq<Doc<Purchase>>)
    ensures forall k :: 0 <= k < |r| ==> r[k] in s.purchases && Selected(r[k].body, caller, q)
    ensures forall k :: 0 <= k < |s.purchases| ==> Selected(s.purchases[k].body, caller, q) ==> s.purchases[k] in r
    ensures Restricted(caller) ==> forall k :: 0 <= k < |r| ==> MayTouch(caller, r[k].body.createdBy)
  {
    Filter(s.purchases, (d: Doc<Purchase>) => Selected(d.body, caller, q))
  }

  /** `getPurchaseById`: 404 when absent, then 403 for a restricted caller
      that did not create it. */
  function PurchaseById(s: Snapshot, caller: Option<Caller>, id: Id): (r: Result<Purchase>)
    ensures r.Fail? && r.failure.NotFound? <==> !Has(s.purchases, id)
    ensures r.Fail? && r.failure.Forbidden? <==>
      Has(s.purchases, id) && !MayTouch(caller, Get(s.purchases, id).value.createdBy)
    ensures r.Ok? ==> Get(s.purchases, id) == Some(r.value)
  {
    match Get(s.purchases, id)
    case None => Fail(NotFound("Purchase not found"))
    case Some(p) =>
      match Authorize(true, p.createdBy, caller, "purchase")
      case Some(f) => Fail(f)
      case None => Ok(p)
  }

  /** `updatePurchase`: 404, then 403, then the body's fields replace the
      stored ones; a result that fails the schema, or a number that another
      purchase holds, throws (500). Stock is not adjusted for changed
      lines. */
  function UpdatePurchaseOutcome(s: Snapshot, caller: Option<Caller>, id: Id, body: Body): (o: Outcome<Purchase>)
    ensures o.result.Fail? && o.result.failure.NotFound? <==> !Has(s.purchases, id)
    ensures o.result.Fail? && o.result.failure.Forbidden? <==>
      Has(s.purchases, id) && !MayTouch(caller, Get(s.purchases, id).value.createdBy)
    ensures o.result.Fail? ==> o.state == s
    ensures o.result.Ok? ==>
      var k := Find(s.purchases, id).value;
      Update(s.purchases[k].body, body) == Ok(o.result.value)
      && !Taken(s.purchases, NumberOf, o.result.value.purchaseNumber, Some(k))
      && o.state == s.(purchases := Replace(s.purchases, k, o.result.value))
    ensures Has(s.purchases, id) && MayTouch(caller, Get(s.purchases, id).value.createdBy) ==>
      var k := Find(s.purchases, id).value;
      var u := Update(s.purchases[k].body, body);
      (o.result.Ok? <==> u.Ok? && !Taken(s.purchases, NumberOf, u.value.purchaseNumber, Some(k)))
      && (u.Ok? && Taken(s.purchases, NumberOf, u.value.purchaseNumber, Some(k)) ==> o.result == Fail(ServerError("Duplicate purchase number")))
  {
    match Find(s.purchases, id)
    case None => Outcome(Fail(NotFound("Purchase not found")), s)
    case Some(k) =>
      var stored := s.purchases[k].body;
      if !MayTouch(caller, stored.createdBy) then Outcome(Fail(Forbidden("Forbidden: cannot modify this purchase")), s)
      else match Update(stored, body)
        case Fail(f) => Outcome(Fail(f), s)
        case Ok(p) =>
          if Taken(s.purchases, NumberOf, p.purchaseNumber, Some(k)) then
            Outcome(Fail(ServerError("Duplicate purchase number")), s)
          else Outcome(Ok(p), s.(purchases := Replace(s.purchases, k, p)))
  }

  /** Editing a purchase keeps the store consistent. */
  lemma UpdatePurchaseConsistent(s: Snapshot, caller: Option<Caller>, id: Id, body: Body)
    requires Consistent(s)
    ensures Consistent(UpdatePurchaseOutcome(s, caller, id, body).state)
  {
    var o := UpdatePurchaseOutcome(s, caller, id, body);
    if o.result.Ok? {
      var k := Find(s.purchases, id).value;
      ReplaceKeyed(s.purchases, s.nextId, k, o.result.value);
      ReplaceAll(s.purchases, Valid, k, o.result.value);
      ReplaceDistinctBy(s.purchases, NumberOf, k, o.result.value);
    }
  }

  /** `updatePurchase`. */
  method UpdatePurchase(db: Store, caller: Option<Caller>, id: Id, body: Body) returns (r: Result<Purchase>)
    requires db.Valid()
    modifies db
    ensures Outcome(r, db.State()) == UpdatePurchaseOutcome(old(db.State()), caller, id, body)
    ensures db.Valid()
  {
    UpdatePurchaseConsistent(db.State(), caller, id, body);
    var k := Find(db.purchases, id);
    if k.None? {
      return Fail(NotFound("Purchase not found"));
    }
    var stored := db.purchases[k.value].body;
    if !MayTouch(caller, stored.createdBy) {
      return Fail(Forbidden("Forbidden: cannot modify this purchase"));
    }
    var updated := Update(stored, body);
    if updated.Fail? {
      return Fail(updated.failure);
    }
    if Taken(db.purchases, NumberOf, updated.value.purchaseNumber, Some(k.value)) {
      return Fail(ServerError("Duplicate purchase number"));
    }
    db.purchases := Replace(db.purchases, k.value, updated.value);
    return Ok(updated.value);
  }
}
