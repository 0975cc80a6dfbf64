/** The Invoice schema: a required unique number, an optional school, a
    required student, line items (quantity at least 1, unit price at least
    0), money totals, the commission snapshot, the payment status (paid,
    unpaid or partial; default paid) and method (cash, card, upi or
    bank_transfer; default cash). */
module InvoiceModel {
  import opened Common

  datatype Line = Line(
    product: Id,
    productName: string,
    quantity: int,
    unitPrice: real,
    gstRate: real,
    gstAmount: real,
    totalPrice: real)

  datatype Invoice = Invoice(
    invoiceNumber: string,
    school: Option<Id>,
    student: Id,
    items: seq<Line>,
    subtotal: real,
    gstAmount: real,
    discount: real,
    totalAmount: real,
    commissionRate: real,
    commissionAmount: real,
    invoiceDate: Date,
    paymentStatus: string,
    paymentMethod: string,
    notes: Option<string>,
    createdBy: Option<Id>)

  const DefaultDiscount: real := 0.0
  const DefaultPaymentStatus: string := "paid"
  const DefaultPaymentMethod: string := "cash"

  predicate PaymentStatus(s: string)
  {
    s == "paid" || s == "unpaid" || s == "partial"
  }

  predicate PaymentMethod(s: string)
  {
    s == "cash" || s == "card" || s == "upi" || s == "bank_transfer"
  }

  predicate LineValid(l: Line)
  {
    l.quantity >= 1 && l.unitPrice >= 0.0
  }

  predicate Valid(inv: Invoice)
  {
    inv.invoiceNumber != ""
    && (forall k :: 0 <= k < |inv.items| ==> LineValid(inv.items[k]))
    && PaymentStatus(inv.paymentStatus) && PaymentMethod(inv.paymentMethod)
  }

  /** The key of the unique index on `invoiceNumber`. */
  function NumberOf(inv: Invoice): string
  {
    inv.invoiceNumber
  }
}
