/** The Purchase schema: a required unique number, a required supplier, line
    items (quantity at least 1, unit price at least 0), money totals, the
    payment status (pending, partial or paid; default pending) and the paid
    amount (default 0). */
module PurchaseModel {
  import opened Common

  datatype Line = Line(product: Id, quantity: int, unitPrice: real, totalPrice: real)

  datatype Purchase = Purchase(
    purchaseNumber: string,
    supplier: Id,
    items: seq<Line>,
    subtotal: real,
    gstAmount: real,
    totalAmount: real,
    purchaseDate: Date,
    paymentStatus: string,
    paidAmount: Option<real>,
    paymentDate: Option<Date>,
    notes: Option<string>,
    createdBy: Option<Id>)

  const DefaultPaymentStatus: string := "pending"
  const DefaultPaidAmount: real := 0.0

  predicate PaymentStatus(s: string)
  {
    s == "pending" || s == "partial" || s == "paid"
  }

  predicate LineValid(l: Line)
  {
    l.quantity >= 1 && l.unitPrice >= 0.0
  }

  predicate Valid(p: Purchase)
  {
    p.purchaseNumber != ""
    && (forall k :: 0 <= k < |p.items| ==> LineValid(p.items[k]))
    && PaymentStatus(p.paymentStatus)
  }

  /** The key of the unique index on `purchaseNumber`. */
  function NumberOf(p: Purchase): string
  {
    p.purchaseNumber
  }

  /** The fields an update body may carry; an absent field is left as
      stored. */
  datatype Body = Body(
    purchaseNumber: Option<string>,
    supplier: Option<Id>,
    items: Option<seq<Line>>,
    subtotal: Option<real>,
    gstAmount: Option<real>,
    totalAmount: Option<real>,
    purchaseDate: Option<Date>,
    paymentStatus: Option<string>,
    paidAmount: Option<real>,
    paymentDate: Option<Date>,
    notes: Option<string>,
    createdBy: Option<Id>)

  function Checked(p: Purchase): (r: Result<Purchase>)
    ensures r.Ok? <==> Valid(p)
    ensures r.Ok? ==> r.value == p
    ensures r.Fail? ==> r.failure.ServerError?
  {
    if Valid(p) then Ok(p) else Fail(ServerError("Purchase validation failed"))
  }

  /** `findByIdAndUpdate(id, body, {runValidators: true})`: the body's
      fields replace the stored ones, and the result must still pass the
      schema. */
  function Update(stored: Purchase, body: Body): (r: Result<Purchase>)
    ensures r.Ok? <==> Or(body.purchaseNumber, stored.purchaseNumber) != ""
                       && (forall k :: 0 <= k < |Or(body.items, stored.items)| ==> LineValid(Or(body.items, stored.items)[k]))
                       && PaymentStatus(Or(body.paymentStatus, stored.paymentStatus))
    ensures r.Ok? ==> Valid(r.value)
    ensures r.Ok? ==> r.value.purchaseNumber == Or(body.purchaseNumber, stored.purchaseNumber)
                      && r.value.items == Or(body.items, stored.items)
                      && r.value.paymentStatus == Or(body.paymentStatus, stored.paymentStatus)
    ensures r.Ok? ==> r.value.supplier == Or(body.supplier, stored.supplier)
                      && r.value.subtotal == Or(body.subtotal, stored.subtotal)
                      && r.value.gstAmount == Or(body.gstAmount, stored.gstAmount)
                      && r.value.totalAmount == Or(body.totalAmount, stored.totalAmount)
                      && r.value.purchaseDate == Or(body.purchaseDate, stored.purchaseDate)
    ensures r.Ok? ==> r.value.paidAmount == (if body.paidAmount.Some? then body.paidAmount else stored.paidAmount)
                      && r.value.paymentDate == (if body.paymentDate.Some? then body.paymentDate else stored.paymentDate)
                      && r.value.notes == (if body.notes.Some? then body.notes else stored.notes)
                      && r.value.createdBy == (if body.createdBy.Some? then body.createdBy else stored.createdBy)
  {
    Checked(Purchase(
      Or(body.purchaseNumber, stored.purchaseNumber), Or(body.supplier, stored.supplier),
      Or(body.items, stored.items), Or(body.subtotal, stored.subtotal),
      Or(body.gstAmount, stored.gstAmount), Or(body.totalAmount, stored.totalAmount),
      Or(body.purchaseDate, stored.purchaseDate), Or(body.paymentStatus, stored.paymentStatus),
      if body.paidAmount.Some? then body.paidAmount else stored.paidAmount,
      if body.paymentDate.Some? then body.paymentDate else stored.paymentDate,
      if body.notes.Some? then body.notes else stored.notes,
      if body.createdBy.Some? then body.createdBy else stored.createdBy))
  }
}
