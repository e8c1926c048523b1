/** The AnalyticsReport collection (backend/models/AnalyticsReport.js). */
module ReportModel {
  import opened Wrappers
  import opened CustomerModel
  import opened Schema

  /** A `topSellingProducts` entry: a name and a quantity, no id of its own. */
  datatype TopProduct = TopProduct(name: string, totalQuantity: real)

  /** A `salesByRegion` entry: a region and a revenue, no id of its own. */
  datatype RegionRevenue = RegionRevenue(region: Region, totalRevenue: real)

  /** The embedded `metrics` sub-document. */
  datatype Metrics = Metrics(
    totalRevenue: real,
    avgOrderValue: real,
    totalSales: real,
    topSellingProducts: seq<TopProduct>,
    salesByRegion: seq<RegionRevenue>)

  /** A stored report: both range ends and the generation time are always present. */
  datatype Report = Report(id: Id, startDate: Date, endDate: Date, generatedAt: Date, metrics: Metrics)

  /** The metric values handed to the constructor; a missing scalar is `None`. */
  datatype MetricsInput = MetricsInput(
    totalRevenue: Option<real>,
    avgOrderValue: Option<real>,
    totalSales: Option<real>,
    topSellingProducts: seq<TopProduct>,
    salesByRegion: seq<RegionRevenue>)

  /**
   * `new AnalyticsReport({...})`: a supplied value is kept as it is, a missing
   * scalar metric becomes 0, and a missing `generatedAt` becomes the creation
   * time `now`.
   */
  function NewReport(id: Id, startDate: Date, endDate: Date, generatedAt: Option<Date>, now: Date, m: MetricsInput)
    : (r: Report)
    ensures r.id == id && r.startDate == startDate && r.endDate == endDate
    ensures generatedAt.Some? ==> r.generatedAt == generatedAt.value
    ensures generatedAt.None? ==> r.generatedAt == now
    ensures m.totalRevenue.Some? ==> r.metrics.totalRevenue == m.totalRevenue.value
    ensures m.totalRevenue.None? ==> r.metrics.totalRevenue == 0.0
    ensures m.avgOrderValue.Some? ==> r.metrics.avgOrderValue == m.avgOrderValue.value
    ensures m.avgOrderValue.None? ==> r.metrics.avgOrderValue == 0.0
    ensures m.totalSales.Some? ==> r.metrics.totalSales == m.totalSales.value
    ensures m.totalSales.None? ==> r.metrics.totalSales == 0.0
    ensures r.metrics.topSellingProducts == m.topSellingProducts
    ensures r.metrics.salesByRegion == m.salesByRegion
  {
    Report(id, startDate, endDate, ValueOr(generatedAt, now),
      Metrics(
        ValueOr(m.totalRevenue, 0.0),
        ValueOr(m.avgOrderValue, 0.0),
        ValueOr(m.totalSales, 0.0),
        m.topSellingProducts,
        m.salesByRegion))
  }

  /**
   * The `required` validators on the two range ends: a `null` date fails
   * its path, and then `save()` stores nothing.
   */
  function RangeErrors(startDate: Option<Date>, endDate: Option<Date>): (errs: seq<SchemaError>)
    ensures errs == [] <==> startDate.Some? && endDate.Some?
    ensures Required("startDate") in errs <==> startDate.None?
    ensures Required("endDate") in errs <==> endDate.None?
    ensures forall e :: e in errs ==> e in [Required("startDate"), Required("endDate")]
  {
    (if startDate.None? then [Required("startDate")] else [])
    + (if endDate.None? then [Required("endDate")] else [])
  }
}
