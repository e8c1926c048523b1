/** The Sale collection (backend/models/Sale.js). */
module SaleModel {
  import opened Wrappers
  import opened Schema

  /**
   * A sale. `productId` and `customerId` are references that nothing forces
   * to resolve. `totalRevenue` is stored, not derived from quantity and price.
   * `reportDate` is the business date; `createdAt`/`updatedAt` are the
   * schema's automatic timestamps.
   */
  datatype Sale = Sale(
    id: Id,
    productId: Id,
    customerId: Id,
    quantity: real,
    totalRevenue: real,
    reportDate: Date,
    createdAt: Date,
    updatedAt: Date)

  /** The `min` constraints of the schema. */
  predicate ValidSale(s: Sale) {
    s.quantity >= 1.0 && s.totalRevenue >= 0.0
  }

  predicate AllValid(sales: seq<Sale>) {
    forall i :: 0 <= i < |sales| ==> ValidSale(sales[i])
  }

  /**
   * Building a Sale document: both `min` validators run, and the automatic
   * timestamps are set to the creation time `now`.
   */
  function NewSale(id: Id, productId: Id, customerId: Id, quantity: real, totalRevenue: real, reportDate: Date, now: Date)
    : (r: Result<Sale, seq<SchemaError>>)
    ensures r.Success? <==> quantity >= 1.0 && totalRevenue >= 0.0
    ensures r.Success? ==> ValidSale(r.value) && r.value.id == id && r.value.quantity == quantity && r.value.totalRevenue == totalRevenue
                           && r.value.productId == productId && r.value.customerId == customerId
                           && r.value.reportDate == reportDate && r.value.createdAt == now && r.value.updatedAt == now
    ensures r.Failure? ==> (BelowMin("quantity") in r.error <==> quantity < 1.0)
                           && (BelowMin("totalRevenue") in r.error <==> totalRevenue < 0.0)
    ensures r.Failure? ==> forall e :: e in r.error ==> e in [BelowMin("quantity"), BelowMin("totalRevenue")]
  {
    var errs := AtLeast("quantity", quantity, 1.0) + AtLeast("totalRevenue", totalRevenue, 0.0);
    if errs == [] then Success(Sale(id, productId, customerId, quantity, totalRevenue, reportDate, now, now))
    else Failure(errs)
  }
}
