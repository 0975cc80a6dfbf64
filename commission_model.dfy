/** The Commission schema: required school and invoice references, a month
    in 1..12, a year, the rate, base and amount, and a status that is
    pending (the default) or settled. */
module CommissionModel {
  import opened Common

  datatype Commission = Commission(
    school: Id,
    invoice: Id,
    month: int,
    year: int,
    commissionRate: real,
    baseAmount: real,
    commissionAmount: real,
    status: string,
    settlementDate: Option<Date>,
    paymentReference: Option<string>,
    notes: Option<string>)

  const Pending: string := "pending"
  const Settled: string := "settled"

  predicate Valid(c: Commission)
  {
    1 <= c.month <= 12 && (c.status == Pending || c.status == Settled)
  }
}
